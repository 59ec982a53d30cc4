/** The list query of src/microfastapitodowebapp/domain/query.py: a `TodoQuery` with four
    optional fields, its serialisation into query-string parameters, and the visibility
    modes the upstream filters by. */
module Query {
  import opened Base

  /** `TodoQuery`; `None` is the dataclass default of every field. */
  datatype TodoQuery = TodoQuery(search: Option<string>, sort: Option<string>,
                                 pageNumber: Option<int>, pageSize: Option<int>)

  /** `TodoQuery()`. */
  const Default := TodoQuery(None, None, None, None)

  /** A query-string parameter value: text, a number, or Python's None. */
  datatype Param = Text(s: string) | Number(n: int) | NoValue

  const SearchKey := "search"
  const SortKey := "sort"
  const PageNumberKey := "pageNumber"
  const PageSizeKey := "pageSize"

  /** The only keys serialisation can produce, in the upstream's camelCase. */
  const QueryKeys: set<string> := {SearchKey, SortKey, PageNumberKey, PageSizeKey}

  /** Python truthiness of an optional string and of an optional int. */
  predicate TruthyText(v: Option<string>) {
    v.Some? && v.value != ""
  }

  predicate TruthyNumber(v: Option<int>) {
    v.Some? && v.value != 0
  }

  /** What `to_dict` promises: each field appears, under its camelCase key, exactly when it
      is truthy, carrying its value unchanged, and nothing else appears. */
  predicate Serializes(q: TodoQuery, m: map<string, Param>) {
    && m.Keys <= QueryKeys
    && (SearchKey in m <==> TruthyText(q.search))
    && (SortKey in m <==> TruthyText(q.sort))
    && (PageNumberKey in m <==> TruthyNumber(q.pageNumber))
    && (PageSizeKey in m <==> TruthyNumber(q.pageSize))
    && (SearchKey in m ==> m[SearchKey] == Text(q.search.value))
    && (SortKey in m ==> m[SortKey] == Text(q.sort.value))
    && (PageNumberKey in m ==> m[PageNumberKey] == Number(q.pageNumber.value))
    && (PageSizeKey in m ==> m[PageSizeKey] == Number(q.pageSize.value))
  }

  /** At most one map serialises a query. */
  lemma SerializationUnique(q: TodoQuery, m1: map<string, Param>, m2: map<string, Param>)
    requires Serializes(q, m1) && Serializes(q, m2)
    ensures m1 == m2
  {
    assert m1.Keys == m2.Keys;
    forall k | k in m1
      ensures m1[k] == m2[k]
    {
      assert k in QueryKeys;
    }
  }

  /** The serialisation of a query, for the functions and lemmas that build on it. */
  function Serialized(q: TodoQuery): (m: map<string, Param>)
    ensures Serializes(q, m)
  {
    var withSearch := if TruthyText(q.search) then map[SearchKey := Text(q.search.value)] else map[];
    var withSort := if TruthyText(q.sort) then withSearch[SortKey := Text(q.sort.value)] else withSearch;
    var withNumber :=
      if TruthyNumber(q.pageNumber) then withSort[PageNumberKey := Number(q.pageNumber.value)] else withSort;
    if TruthyNumber(q.pageSize) then withNumber[PageSizeKey := Number(q.pageSize.value)] else withNumber
  }

  /** `TodoQuery.to_dict`: four conditional insertions into a fresh dict. */
  method ToDict(q: TodoQuery) returns (result: map<string, Param>)
    ensures Serializes(q, result)
  {
    result := map[];
    if TruthyText(q.search) {
      result := result[SearchKey := Text(q.search.value)];
    }
    if TruthyText(q.sort) {
      result := result[SortKey := Text(q.sort.value)];
    }
    if TruthyNumber(q.pageNumber) {
      result := result[PageNumberKey := Number(q.pageNumber.value)];
    }
    if TruthyNumber(q.pageSize) {
      result := result[PageSizeKey := Number(q.pageSize.value)];
    }
  }

  /** A query with every field at its default serialises to no parameters at all. */
  lemma DefaultSerializesEmpty(m: map<string, Param>)
    ensures Serializes(Default, m) <==> m == map[]
  {
    if Serializes(Default, m) {
      assert m.Keys == {};
    }
  }

  /** Falsy fields are dropped, 0 included: `TodoQuery("", None, 0, 20)` serialises to
      exactly `{pageSize: 20}`. */
  lemma OnlyPageSizeExample(m: map<string, Param>)
    ensures Serializes(TodoQuery(Some(""), None, Some(0), Some(20)), m)
            <==> m == map[PageSizeKey := Number(20)]
  {
    var q := TodoQuery(Some(""), None, Some(0), Some(20));
    var expected := map[PageSizeKey := Number(20)];
    assert Serializes(q, expected);
    if Serializes(q, m) {
      SerializationUnique(q, m, expected);
    }
  }

  /** `QueryMode`: the three visibility filters the upstream understands. */
  datatype QueryMode = All | Shared | Own

  /** The member name the upstream receives as `mode`. `ALL` and `SHARED` are declared
      with a trailing comma, so their values are one-element tuples; a one-element tuple
      is sent as a single parameter, so the query string carries the bare name for all
      three members. */
  function ModeValue(mode: QueryMode): (v: string)
    ensures v in {"ALL", "SHARED", "OWN"}
  {
    match mode
    case All => "ALL"
    case Shared => "SHARED"
    case Own => "OWN"
  }

  /** Distinct modes are sent as distinct values, so the upstream can tell them apart. */
  lemma ModeValueInjective(a: QueryMode, b: QueryMode)
    requires ModeValue(a) == ModeValue(b)
    ensures a == b
  {
  }
}
