/** The `Todo` model of src/microfastapitodowebapp/model/todo.py, decoded from one item of
    the upstream's JSON, and its priority label. ISO-8601 parsing (`datetime.fromisoformat`)
    is the parameter `iso`: a partial parser, `None` where Python raises ValueError. */
module TodoModel {
  import opened Base

  /** `Todo`. The dataclass does not check its field types, so every field copied from the
      payload keeps whatever JSON value the upstream sent. */
  datatype Todo = Todo(
    id: Value,
    title: Value,
    description: Value,
    deadline: Option<DateTime>,
    completed: Value,
    parentId: Value,
    shared: Value,
    priority: Value,
    categories: Value,
    accessLevel: Value,
    createdAt: DateTime,
    updatedAt: DateTime)

  /** `datetime.fromisoformat(v)`: only a string is accepted, and only one that `iso` reads. */
  function ParseIso(v: Value, iso: string -> Option<DateTime>): (r: Result<DateTime>)
    ensures r.Ok? <==> v.Str? && iso(v.s).Some?
    ensures r.Ok? ==> r.value == iso(v.s).value
    ensures !v.Str? ==> r == Err(TypeError)
    ensures v.Str? && iso(v.s).None? ==> r == Err(ValueError)
  {
    match v
    case Str(s) => (match iso(s) case Some(d) => Ok(d) case None => Err(ValueError))
    case _ => Err(TypeError)
  }

  /** The `deadline` field: None when the key is absent or its value falsy, otherwise the
      ISO parse of the value. */
  function ParseDeadline(fields: map<string, Value>, iso: string -> Option<DateTime>)
    : (r: Result<Option<DateTime>>)
    ensures !Truthy(Get(fields, "deadline")) ==> r == Ok(None)
    ensures Truthy(Get(fields, "deadline")) ==>
      (r.Ok? <==> ParseIso(fields["deadline"], iso).Ok?)
    ensures Truthy(Get(fields, "deadline")) && r.Ok? ==>
      r.value == Some(ParseIso(fields["deadline"], iso).value)
    ensures Truthy(Get(fields, "deadline")) && r.Err? ==>
      r.error == ParseIso(fields["deadline"], iso).error
  {
    var v := Get(fields, "deadline");
    if Truthy(v) then
      var d :- ParseIso(v, iso);
      Ok(Some(d))
    else Ok(None)
  }

  /** `Todo.from_dict(data)`. Arguments are evaluated in order, so a bad `deadline` is
      reported before a bad `createdAt`, and that before a bad `updatedAt`; `.get` on an item
      that is not a dict raises AttributeError. */
  function FromDict(data: Value, iso: string -> Option<DateTime>): (r: Result<Todo>)
    ensures !data.Dict? ==> r == Err(AttributeError)
    ensures r.Ok? <==>
      && data.Dict?
      && ParseDeadline(data.fields, iso).Ok?
      && ParseIso(Get(data.fields, "createdAt"), iso).Ok?
      && ParseIso(Get(data.fields, "updatedAt"), iso).Ok?
    ensures data.Dict? && "createdAt" !in data.fields && ParseDeadline(data.fields, iso).Ok? ==>
      r == Err(TypeError)
    ensures r.Ok? ==>
      var f := data.fields;
      && r.value.id == Get(f, "id")
      && r.value.title == Get(f, "title")
      && r.value.description == Get(f, "description")
      && r.value.deadline == ParseDeadline(f, iso).value
      && r.value.completed == Get(f, "completed")
      && r.value.parentId == Get(f, "parent_id")
      && r.value.shared == Get(f, "shared")
      && r.value.priority == Get(f, "priority")
      && r.value.categories == (if "categories" in f then f["categories"] else List([]))
      && r.value.accessLevel == Get(f, "accessLevel")
      && r.value.createdAt == ParseIso(f["createdAt"], iso).value
      && r.value.updatedAt == ParseIso(f["updatedAt"], iso).value
  {
    if !data.Dict? then Err(AttributeError)
    else
      var f := data.fields;
      var deadline :- ParseDeadline(f, iso);
      var createdAt :- ParseIso(Get(f, "createdAt"), iso);
      var updatedAt :- ParseIso(Get(f, "updatedAt"), iso);
      Ok(Todo(
        id := Get(f, "id"),
        title := Get(f, "title"),
        description := Get(f, "description"),
        deadline := deadline,
        completed := Get(f, "completed"),
        parentId := Get(f, "parent_id"),
        shared := Get(f, "shared"),
        priority := Get(f, "priority"),
        categories := if "categories" in f then f["categories"] else List([]),
        accessLevel := Get(f, "accessLevel"),
        createdAt := createdAt,
        updatedAt := updatedAt))
  }

  /** The payload the upstream sends for a todo, with datetimes written by `fmt`; the
      reference encoding `FromDict` inverts. */
  function ToPayload(t: Todo, fmt: DateTime -> string): (data: map<string, Value>)
    ensures data.Keys == {"id", "title", "description", "deadline", "completed", "parent_id",
                          "shared", "priority", "categories", "accessLevel", "createdAt", "updatedAt"}
  {
    map["id" := t.id, "title" := t.title, "description" := t.description,
        "deadline" := (match t.deadline case Some(d) => Str(fmt(d)) case None => Null),
        "completed" := t.completed, "parent_id" := t.parentId, "shared" := t.shared,
        "priority" := t.priority, "categories" := t.categories, "accessLevel" := t.accessLevel,
        "createdAt" := Str(fmt(t.createdAt)), "updatedAt" := Str(fmt(t.updatedAt))]
  }

  /** Decoding a todo's payload gives the todo back, whenever the ISO parser reads what the
      formatter writes and the formatter never writes the empty string (which is falsy and
      would drop the deadline). */
  lemma FromDictInvertsPayload(t: Todo, fmt: DateTime -> string, iso: string -> Option<DateTime>)
    requires forall d :: iso(fmt(d)) == Some(d)
    requires forall d :: fmt(d) != ""
    ensures FromDict(Dict(ToPayload(t, fmt)), iso) == Ok(t)
  {
    var f := ToPayload(t, fmt);
    match t.deadline {
      case Some(d) =>
        assert Truthy(Get(f, "deadline")) by {
          assert fmt(d) != "";
        }
        assert ParseIso(f["deadline"], iso) == Ok(d);
      case None =>
    }
    assert ParseIso(f["createdAt"], iso) == Ok(t.createdAt);
    assert ParseIso(f["updatedAt"], iso) == Ok(t.updatedAt);
  }

  /** `priority_text`: the label `priority_levels` gives the priority (a bool priority is
      the key 0 or 1, as in any Python dict), `Unknown` for a priority it does not list, and
      TypeError for a list or dict priority, which cannot be a dict key. */
  function PriorityText(t: Todo, levels: map<int, string>): (r: Result<string>)
    ensures AsInt(t.priority).Some? && AsInt(t.priority).value in levels ==>
      r == Ok(levels[AsInt(t.priority).value])
    ensures (t.priority.Null? || t.priority.Str?) ==> r == Ok("Unknown")
    ensures AsInt(t.priority).Some? && AsInt(t.priority).value !in levels ==> r == Ok("Unknown")
    ensures (t.priority.List? || t.priority.Dict?) ==> r == Err(TypeError)
  {
    match t.priority
    case Int(n) => Ok(if n in levels then levels[n] else "Unknown")
    case Bool(b) => (var n := if b then 1 else 0; Ok(if n in levels then levels[n] else "Unknown"))
    case List(_) => Err(TypeError)
    case Dict(_) => Err(TypeError)
    case _ => Ok("Unknown")
  }
}
