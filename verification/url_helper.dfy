/** src/microfastapitodowebapp/util/url_helper.py: the upstream list and statistics URLs,
    built from a base path, a `TodoQuery`, a `QueryMode` and optional extra parameters, with
    a free-text search rewritten into the upstream's filter language. */
module UrlHelper {
  import opened Base
  import Text
  import opened Query

  const ModeKey := "mode"

  /** `is_not_blank`: the string is non-empty and not only whitespace. */
  function IsNotBlank(s: string): (r: bool)
    ensures r <==> exists i :: 0 <= i < |s| && !Text.IsSpace(s[i])
  {
    Text.StripEmptyIffAllSpace(s);
    s != "" && Text.Strip(s) != ""
  }

  const TitleClause := "title=ilike='"
  const DescriptionClause := "' or description=ilike='"
  const CategoriesClause := "' or categories.name=ilike='"
  const CloseQuote := "'"

  /** The filter expression for a search term: the term is matched, case-insensitively,
      against title, description and category name, embedded verbatim three times. */
  function Filter(term: string): string {
    TitleClause + term + DescriptionClause + term + CategoriesClause + term + CloseQuote
  }

  /** `build_search_query`: the filter for a non-blank term, None for a blank one. */
  function BuildSearchQuery(search: string): (r: Option<string>)
    ensures r.Some? <==> IsNotBlank(search)
    ensures r.Some? ==> r.value == Filter(search)
  {
    if IsNotBlank(search) then Some(Filter(search)) else None
  }

  /** The filter starts with the title clause followed by the term itself. */
  lemma FilterStartsWithTerm(term: string)
    ensures |Filter(term)| == 3 * |term| + |TitleClause + DescriptionClause + CategoriesClause + CloseQuote|
    ensures Filter(term)[|TitleClause|..|TitleClause| + |term|] == term
  {
    var rest := DescriptionClause + term + CategoriesClause + term + CloseQuote;
    assert Filter(term) == TitleClause + term + rest;
  }

  /** Different terms give different filters: the upstream receives the term unaltered. */
  lemma FilterInjective(a: string, b: string)
    requires Filter(a) == Filter(b)
    ensures a == b
  {
    FilterStartsWithTerm(a);
    FilterStartsWithTerm(b);
  }

  /** The value `build_url` sends as `search` for the term `to_dict` produced. */
  function SearchParam(term: string): (p: Param)
    ensures IsNotBlank(term) ==> p == Text(Filter(term))
    ensures !IsNotBlank(term) ==> p == NoValue
  {
    match BuildSearchQuery(term)
    case Some(f) => Text(f)
    case None => NoValue
  }

  /** The search `milk` is sent as its filter; a search of only spaces and a tab becomes
      None, which `BuildUrl` then refuses. */
  lemma SearchParamExample()
    ensures SearchParam("milk") == Text(Filter("milk"))
    ensures SearchParam(" \t ") == NoValue
  {
    assert !Text.IsSpace("milk"[0]);
    assert Text.AllSpace(" \t ");
  }

  /** A URL as `URL.build(path=..., query=...)` holds it, before percent-encoding. */
  datatype Url = Url(path: string, query: map<string, Param>)

  /** The query values `URL.build` accepts: text and numbers. A None value makes it raise
      TypeError. */
  predicate Encodable(query: map<string, Param>) {
    forall k :: k in query ==> !query[k].NoValue?
  }

  /** The query map of `build_url` (lines 7-13): the serialised query, the mode, the search
      rewritten, then the extras written over them. */
  method BuildQuery(q: TodoQuery, mode: QueryMode, extra: map<string, string>)
    returns (params: map<string, Param>)
    ensures params.Keys == Serialized(q).Keys + {ModeKey} + extra.Keys
    ensures forall k :: k in extra ==> params[k] == Text(extra[k])
    ensures ModeKey !in extra ==> params[ModeKey] == Text(ModeValue(mode))
    ensures SearchKey in Serialized(q) && SearchKey !in extra ==>
      params[SearchKey] == SearchParam(q.search.value)
    ensures forall k :: k in Serialized(q) && k != SearchKey && k !in extra ==>
      params[k] == Serialized(q)[k]
  {
    params := ToDict(q);
    SerializationUnique(q, params, Serialized(q));
    ghost var serialized := params;
    assert ModeKey != SearchKey;
    var withMode := params[ModeKey := Text(ModeValue(mode))];
    var withSearch := withMode;
    if SearchKey in withMode {
      withSearch := withMode[SearchKey := SearchParam(withMode[SearchKey].s)];
    }
    assert withSearch.Keys == serialized.Keys + {ModeKey};
    assert forall k :: k in serialized && k != SearchKey ==> withSearch[k] == serialized[k];
    params := OverrideWith(withSearch, extra);
  }

  /** Serialised values are never None. */
  lemma SerializedHasValues(q: TodoQuery, k: string)
    requires k in Serialized(q)
    ensures !Serialized(q)[k].NoValue?
  {
  }

  /** `build_url`. A search that is truthy but blank is replaced by None, which `URL.build`
      refuses with TypeError unless an extra parameter overrides `search`; otherwise the URL
      is built from the serialised query, the mode and the extras. */
  method BuildUrl(baseUrl: string, q: TodoQuery, mode: QueryMode, extra: map<string, string>)
    returns (r: Result<Url>)
    ensures r.Err? <==>
      SearchKey in Serialized(q) && SearchKey !in extra && !IsNotBlank(q.search.value)
    ensures r.Err? ==> r.error == TypeError
    ensures r.Ok? ==> Encodable(r.value.query)
    ensures r.Ok? ==> r.value.path == baseUrl
    ensures r.Ok? ==> r.value.query.Keys == Serialized(q).Keys + {ModeKey} + extra.Keys
    ensures r.Ok? ==> forall k :: k in extra ==> r.value.query[k] == Text(extra[k])
    ensures r.Ok? && ModeKey !in extra ==> r.value.query[ModeKey] == Text(ModeValue(mode))
    ensures r.Ok? && SearchKey in Serialized(q) && SearchKey !in extra ==>
      r.value.query[SearchKey] == Text(Filter(q.search.value))
    ensures r.Ok? ==> forall k :: k in Serialized(q) && k != SearchKey && k !in extra ==>
      r.value.query[k] == Serialized(q)[k]
  {
    var params := BuildQuery(q, mode, extra);
    if SearchKey in params && params[SearchKey].NoValue? {
      return Err(TypeError);
    }
    forall k | k in params
      ensures !params[k].NoValue?
    {
      if k in Serialized(q) && k != SearchKey && k !in extra {
        SerializedHasValues(q, k);
      }
    }
    r := Ok(Url(baseUrl, params));
  }

  /** The loop of `build_url` over `extra.items()`: every extra entry is written, over any
      parameter of the same name, and every other parameter is kept. */
  method OverrideWith(params: map<string, Param>, extra: map<string, string>)
    returns (r: map<string, Param>)
    ensures r.Keys == params.Keys + extra.Keys
    ensures forall k :: k in extra ==> r[k] == Text(extra[k])
    ensures forall k :: k in params && k !in extra ==> r[k] == params[k]
  {
    r := params;
    var remaining := extra.Keys;
    while remaining != {}
      invariant remaining <= extra.Keys
      invariant r.Keys == params.Keys + (extra.Keys - remaining)
      invariant forall k :: k in extra && k !in remaining ==> r[k] == Text(extra[k])
      invariant forall k :: k in params && (k !in extra || k in remaining) ==> r[k] == params[k]
      decreases remaining
    {
      var key :| key in remaining;
      r := r[key := Text(extra[key])];
      remaining := remaining - {key};
    }
  }
}
