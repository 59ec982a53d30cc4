/** The paged list of src/microfastapitodowebapp/model/todo_response.py, with the page
    record of src/microfastapitodowebapp/model/page_info.py: every item of `content` decoded
    as a `Todo`, in order, and the four page fields copied under their snake_case names. */
module ResponseModel {
  import opened Base
  import opened TodoModel

  /** `PageInfo`; the dataclass does not check its field types. */
  datatype PageInfo = PageInfo(size: Value, number: Value, totalElements: Value, totalPages: Value)

  /** `TodoResponse`. */
  datatype TodoResponse = TodoResponse(content: seq<Todo>, page: PageInfo)

  /** A list comprehension `[decode(item) for item in items]`: each item decoded in order;
      the first item that fails stops the comprehension with its error. */
  function DecodeAll<T>(items: seq<Value>, decode: Value -> Result<T>): (r: Result<seq<T>>)
    ensures r.Ok? <==> forall i :: 0 <= i < |items| ==> decode(items[i]).Ok?
    ensures r.Ok? ==> |r.value| == |items|
    ensures r.Ok? ==> forall i :: 0 <= i < |items| ==> decode(items[i]) == Ok(r.value[i])
    ensures r.Err? ==>
      exists i :: 0 <= i < |items| && decode(items[i]) == Err(r.error)
                  && forall j :: 0 <= j < i ==> decode(items[j]).Ok?
  {
    if items == [] then Ok([])
    else
      match decode(items[0])
      case Err(e) =>
        assert decode(items[0]) == Err(e);
        Err(e)
      case Ok(t) =>
        match DecodeAll(items[1..], decode)
        case Err(e) =>
          ghost var i :| 0 <= i < |items[1..]| && decode(items[1..][i]) == Err(e)
                         && forall j :: 0 <= j < i ==> decode(items[1..][j]).Ok?;
          assert decode(items[i + 1]) == Err(e);
          assert forall j :: 0 <= j < i + 1 ==> decode(items[j]).Ok? by {
            forall j | 0 <= j < i + 1
              ensures decode(items[j]).Ok?
            {
              if j > 0 {
                assert items[j] == items[1..][j - 1];
              }
            }
          }
          Err(e)
        case Ok(rest) =>
          assert forall i :: 1 <= i < |items| ==> items[i] == items[1..][i - 1];
          Ok([t] + rest)
  }

  /** Decoding distributes over concatenation: the decoded list of `a + b` is the decoded
      `a` followed by the decoded `b`. */
  lemma DecodeAllAppend<T>(a: seq<Value>, b: seq<Value>, decode: Value -> Result<T>)
    requires DecodeAll(a, decode).Ok? && DecodeAll(b, decode).Ok?
    ensures DecodeAll(a + b, decode) == Ok(DecodeAll(a, decode).value + DecodeAll(b, decode).value)
  {
    var va := DecodeAll(a, decode).value;
    var vb := DecodeAll(b, decode).value;
    forall i | 0 <= i < |a + b|
      ensures decode((a + b)[i]) == Ok((va + vb)[i])
    {
      if i < |a| {
        assert (a + b)[i] == a[i];
      } else {
        assert (a + b)[i] == b[i - |a|];
      }
    }
    assert DecodeAll(a + b, decode).value == va + vb;
  }

  /** `Todo.from_dict` as the decoder of one item. */
  function TodoDecoder(iso: string -> Option<DateTime>): Value -> Result<Todo> {
    item => FromDict(item, iso)
  }

  /** `for item in data["content"]` followed by the decoding: a list is decoded item by item;
      a string or dict is iterated too, and since its items are strings, whose missing `.get`
      raises AttributeError, only the empty ones decode (to no todos); any other value is not
      iterable. */
  function DecodeContent(v: Value, iso: string -> Option<DateTime>): (r: Result<seq<Todo>>)
    ensures v.List? ==> r == DecodeAll(v.items, TodoDecoder(iso))
    ensures (v.Str? || v.Dict?) ==> (r.Ok? <==> !Truthy(v))
    ensures (v.Str? || v.Dict?) && r.Ok? ==> r.value == []
    ensures (v.Str? || v.Dict?) && r.Err? ==> r.error == AttributeError
    ensures (v.Null? || v.Bool? || v.Int?) ==> r == Err(TypeError)
  {
    match v
    case List(xs) => DecodeAll(xs, TodoDecoder(iso))
    case Str(s) => if s == "" then Ok([]) else Err(AttributeError)
    case Dict(m) => if m == map[] then Ok([]) else Err(AttributeError)
    case _ => Err(TypeError)
  }

  /** The page record: each of the four keys is required. */
  function DecodePage(v: Value): (r: Result<PageInfo>)
    ensures r.Ok? <==>
      v.Dict? && {"size", "number", "totalElements", "totalPages"} <= v.fields.Keys
    ensures r.Ok? ==>
      && r.value.size == v.fields["size"]
      && r.value.number == v.fields["number"]
      && r.value.totalElements == v.fields["totalElements"]
      && r.value.totalPages == v.fields["totalPages"]
    ensures v.Dict? ==>
      var f := v.fields;
      && ("size" !in f ==> r == Err(KeyError("size")))
      && ("size" in f && "number" !in f ==> r == Err(KeyError("number")))
      && ("size" in f && "number" in f && "totalElements" !in f ==> r == Err(KeyError("totalElements")))
      && ("size" in f && "number" in f && "totalElements" in f && "totalPages" !in f ==>
            r == Err(KeyError("totalPages")))
    ensures !v.Dict? ==> r == Err(TypeError)
  {
    var size :- Subscript(v, "size");
    var number :- Subscript(v, "number");
    var totalElements :- Subscript(v, "totalElements");
    var totalPages :- Subscript(v, "totalPages");
    Ok(PageInfo(size, number, totalElements, totalPages))
  }

  /** `TodoResponse.from_json(data)`: the content is decoded before the page is read, so a
      bad item is reported even when the page is missing too. */
  function FromJson(data: Value, iso: string -> Option<DateTime>): (r: Result<TodoResponse>)
    ensures r.Ok? <==>
      && data.Dict? && "content" in data.fields && "page" in data.fields
      && DecodeContent(data.fields["content"], iso).Ok?
      && DecodePage(data.fields["page"]).Ok?
    ensures r.Ok? ==> r.value.content == DecodeContent(data.fields["content"], iso).value
    ensures r.Ok? ==> r.value.page == DecodePage(data.fields["page"]).value
    ensures !data.Dict? ==> r == Err(TypeError)
    ensures data.Dict? && "content" !in data.fields ==> r == Err(KeyError("content"))
    ensures data.Dict? && "content" in data.fields && DecodeContent(data.fields["content"], iso).Err? ==>
      r == Err(DecodeContent(data.fields["content"], iso).error)
    ensures data.Dict? && "content" in data.fields && DecodeContent(data.fields["content"], iso).Ok?
            && "page" !in data.fields ==>
      r == Err(KeyError("page"))
  {
    var content :- Subscript(data, "content");
    var todos :- DecodeContent(content, iso);
    var pageData :- Subscript(data, "page");
    var page :- DecodePage(pageData);
    Ok(TodoResponse(todos, page))
  }
}
