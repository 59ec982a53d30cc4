/** The shapes the edit form arrives in and the upstream receives, from
    src/microfastapitodowebapp/model/todo_form_data.py and
    src/microfastapitodowebapp/model/todo_request.py. They carry no behaviour of their own. */
module Requests {
  import opened Base

  /** `TodoFormData`: `title` is required, the other fields default to `""`, `0`, `False`
      and None. */
  datatype TodoFormData = TodoFormData(
    title: string,
    description: string,
    priority: int,
    completed: bool,
    deadlineDate: Option<string>,
    deadlineTime: Option<string>,
    categories: Option<seq<string>>,
    sharesEmail: Option<seq<string>>,
    sharesAccessLevel: Option<seq<int>>)

  /** `TodoCreateRequest`: `completed` and `priority` are no longer optional, and
      `categories` defaults to the empty list. */
  datatype TodoCreateRequest = TodoCreateRequest(
    title: Option<string>,
    description: Option<string>,
    deadline: Option<DateTime>,
    completed: bool,
    parent: Option<int>,
    priority: int,
    categories: seq<string>)

  /** The two bodies a PATCH can carry: `TodoPatchRequest`, whose `deadline` (None
      included) is sent, and `TodoPatchNoDateRequest`, which has no deadline field at all. */
  datatype TodoPatch =
    | TodoPatchRequest(
        title: Option<string>,
        description: Option<string>,
        deadline: Option<DateTime>,
        completed: Option<bool>,
        parent: Option<int>,
        priority: Option<int>,
        categories: Option<seq<string>>)
    | TodoPatchNoDateRequest(
        title: Option<string>,
        description: Option<string>,
        completed: Option<bool>,
        parent: Option<int>,
        priority: Option<int>,
        categories: Option<seq<string>>)

  /** `TodoShareRequest`. */
  datatype TodoShareRequest = TodoShareRequest(email: string, accessLevel: int)
}
