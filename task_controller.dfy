/** The task handlers' logic: the owner-filtered, newest-first listing; the title check, status
    default and derived `completed` flag of creation; the `updates` object of an update, with
    the status rule, the owner stripped and the schema's validators. The handlers that change
    the task store are methods of `Service.Backend`. */
module TaskController {
  import opened Wrappers
  import opened Text
  import opened Store
  import opened Http
  import opened TaskModel

  const InvalidTitle := Failure(400, "Valid title is required")
  const TaskIdRequired := Failure(400, "Task id is required")
  const TaskNotFound := Failure(404, "Task not found")
  const TaskDeleted: string := "Task deleted successfully"

  /** A value of a JSON request body, as far as the handlers tell values apart. */
  datatype Json = JString(s: string) | JNonString

  /** The body of a create request. `completed` and `owner` may be sent; they are ignored. */
  datatype CreateBody = CreateBody(
    title: Option<Json>,
    description: Option<string>,
    priority: Option<string>,
    status: Option<string>,
    completed: Option<bool>,
    owner: Option<ObjectId>)

  /** The body of an update request: every field may be absent. */
  datatype UpdateBody = UpdateBody(
    title: Option<string>,
    description: Option<string>,
    priority: Option<string>,
    status: Option<string>,
    completed: Option<bool>,
    imageUrl: Option<string>,
    owner: Option<ObjectId>)

  /** An update after casting and validation: the fields it sets. */
  datatype Patch = Patch(
    title: Option<string>,
    description: Option<string>,
    priority: Option<Priority>,
    status: Option<Status>,
    completed: Option<bool>,
    imageUrl: Option<string>,
    owner: Option<ObjectId>)

  /** The title check of creation: a string that is not blank after trimming. Answers the
      trimmed title. */
  function CheckTitle(title: Option<Json>): (r: Option<string>)
    ensures r.Some? <==> title.Some? && title.value.JString? && !Blank(title.value.s)
    ensures r.Some? ==> r.value == Trim(title.value.s) && r.value != "" && Trimmed(r.value) && !Blank(r.value)
  {
    if title.Some? && title.value.JString? && !Blank(title.value.s) then
      TrimEmptyIffBlank(title.value.s);
      var t := Trim(title.value.s);
      assert !IsWhitespace(t[0]);
      Some(t)
    else None
  }

  /** JavaScript truthiness of an optional string field. */
  predicate Truthy(s: Option<string>)
    // Among optional strings, exactly a missing value and the empty string are falsy.
    ensures !Truthy(s) <==> s == None || s == Some("")
  {
    s.Some? && s.value != ""
  }

  /** `status || 'todo'`. */
  function ResolvedStatus(status: Option<string>): (r: string)
    // The status a new task starts from is never empty.
    ensures r != ""
    ensures Truthy(status) ==> r == status.value
    ensures !Truthy(status) ==> r == "todo"
  {
    if Truthy(status) then status.value else "todo"
  }

  /** The task `createTask` stores for `owner`, or why it refuses. */
  function NewTask(owner: ObjectId, body: CreateBody, filename: Option<string>, id: ObjectId, now: nat)
    : (r: Result<Task, Failure>)
    ensures CheckTitle(body.title).None? ==> r == Err(InvalidTitle)
    ensures r.Ok? <==> && CheckTitle(body.title).Some? && PriorityOk(body.priority)
                       && ParseStatus(ResolvedStatus(body.status)).Some?
    ensures r.Err? ==> r.error == InvalidTitle || r.error == ValidationFailed("Task")
    // Past the title check, a refusal is the schema's validation error (500), never a 400.
    ensures CheckTitle(body.title).Some? && r.Err? ==> r.error == ValidationFailed("Task")
    ensures r.Ok? ==> ValidTask(r.value) && CompletedMatchesStatus(r.value)
    ensures r.Ok? ==> && r.value.id == id && r.value.owner == owner
                      && r.value.title == CheckTitle(body.title).value
                      && r.value.imageUrl == UploadPath(filename)
                      && r.value.createdAt == now
    // The stored status is the one sent, `todo` when none is; `completed` is whether it is "done".
    ensures r.Ok? ==> && r.value.status == ParseStatus(ResolvedStatus(body.status)).value
                      && r.value.completed == (ResolvedStatus(body.status) == "done")
    ensures r.Ok? && (body.status.None? || body.status == Some("")) ==> r.value.status == Todo && !r.value.completed
    ensures r.Ok? ==> r.value.priority == (if body.priority.None? then Medium else ParsePriority(body.priority.value).value)
    ensures r.Ok? ==> r.value.description == TrimOption(body.description) && r.value.updatedAt == now
  {
    match CheckTitle(body.title)
    case None => Err(InvalidTitle)
    case Some(title) =>
      var status := ResolvedStatus(body.status);
      var completed := status == "done";
      TrimOfTrimmed(title);
      ParseStatusDone(status);
      CreateTask(id, title, body.description, body.priority, Some(status), Some(completed),
                 UploadPath(filename), owner, now)
  }

  /** Neither `completed` nor `owner` of a create body has any effect. */
  lemma CreateIgnoresCompletedAndOwner(owner: ObjectId, body: CreateBody, completed: Option<bool>,
                                       claimedOwner: Option<ObjectId>, filename: Option<string>,
                                       id: ObjectId, now: nat)
    ensures NewTask(owner, body.(completed := completed, owner := claimedOwner), filename, id, now)
            == NewTask(owner, body, filename, id, now)
  {
  }

  /** `if (updates.status) updates.completed = updates.status === 'done'`. */
  function DeriveCompleted(updates: UpdateBody): (r: UpdateBody)
    ensures Truthy(updates.status) ==> r.completed == Some(updates.status.value == "done")
    ensures !Truthy(updates.status) ==> r == updates
    ensures r.(completed := updates.completed) == updates
  {
    if Truthy(updates.status) then updates.(completed := Some(updates.status.value == "done")) else updates
  }

  /** `delete updates.owner`. */
  function StripOwner(updates: UpdateBody): (r: UpdateBody)
    ensures r.owner.None? && r.(owner := updates.owner) == updates
  {
    updates.(owner := None)
  }

  /** The casting and update validators of `findOneAndUpdate` with `runValidators`: the `trim`
      setters run, a title must stay non-empty, priority and status must be enum names. */
  function CastUpdate(updates: UpdateBody): (r: Result<Patch, Failure>)
    ensures r.Ok? <==> && (updates.title.Some? ==> !Blank(updates.title.value))
                       && PriorityOk(updates.priority) && StatusOk(updates.status)
    ensures r.Err? ==> r.error == ValidationFailed("Task")
    ensures r.Ok? ==> && r.value.title == TrimOption(updates.title)
                      && r.value.description == TrimOption(updates.description)
                      && r.value.completed == updates.completed
                      && r.value.imageUrl == updates.imageUrl
                      && r.value.owner == updates.owner
    ensures r.Ok? ==> (r.value.priority.Some? <==> updates.priority.Some?)
                      && (r.value.priority.Some? ==> PriorityName(r.value.priority.value) == updates.priority.value)
    ensures r.Ok? ==> (r.value.status.Some? <==> updates.status.Some?)
                      && (r.value.status.Some? ==> StatusName(r.value.status.value) == updates.status.value)
    ensures r.Ok? && r.value.title.Some? ==> r.value.title.value != ""
  {
    if (updates.title.Some? && Blank(updates.title.value)) || !PriorityOk(updates.priority) || !StatusOk(updates.status) then
      Err(ValidationFailed("Task"))
    else
      Ok(Patch(TrimOption(updates.title), TrimOption(updates.description),
               if updates.priority.Some? then ParsePriority(updates.priority.value) else None,
               if updates.status.Some? then ParseStatus(updates.status.value) else None,
               updates.completed, updates.imageUrl, updates.owner))
  }

  /** The update `updateTask` sends to the store for a request body. */
  function PrepareUpdate(body: UpdateBody): (r: Result<Patch, Failure>)
    // The owner is never part of it, whatever the body says.
    ensures r.Ok? ==> r.value.owner.None?
    // A status in the body sets `completed` to match it, overriding the body's `completed`.
    ensures r.Ok? && Truthy(body.status) ==> r.value.status.Some? && r.value.completed == Some(r.value.status.value == Done)
    // Without a status, the body's `completed` goes through as it is.
    ensures r.Ok? && body.status.None? ==> r.value.status.None? && r.value.completed == body.completed
    ensures r.Err? ==> r.error == ValidationFailed("Task")
    // The update is accepted exactly when the validators pass on the body's own fields.
    ensures r.Ok? <==> && (body.title.Some? ==> !Blank(body.title.value))
                       && PriorityOk(body.priority) && StatusOk(body.status)
  {
    CastUpdate(StripOwner(DeriveCompleted(body)))
  }

  /** The stored task after a patch (`{ new: true }`): each field the patch sets is replaced,
      the others are kept, and the update time moves to now. */
  function ApplyPatch(t: Task, p: Patch, now: nat): (r: Task)
    ensures r.id == t.id && r.createdAt == t.createdAt && r.updatedAt == now
    ensures p.owner.None? ==> r.owner == t.owner
    ensures r.title == (if p.title.Some? then p.title.value else t.title)
    ensures r.status == (if p.status.Some? then p.status.value else t.status)
    ensures r.completed == (if p.completed.Some? then p.completed.value else t.completed)
    ensures r.description == (if p.description.Some? then p.description else t.description)
    ensures r.priority == (if p.priority.Some? then p.priority.value else t.priority)
    ensures r.imageUrl == (if p.imageUrl.Some? then p.imageUrl else t.imageUrl)
    ensures r.owner == (if p.owner.Some? then p.owner.value else t.owner)
  {
    t.(title := if p.title.Some? then p.title.value else t.title,
       description := if p.description.Some? then p.description else t.description,
       priority := if p.priority.Some? then p.priority.value else t.priority,
       status := if p.status.Some? then p.status.value else t.status,
       completed := if p.completed.Some? then p.completed.value else t.completed,
       imageUrl := if p.imageUrl.Some? then p.imageUrl else t.imageUrl,
       owner := if p.owner.Some? then p.owner.value else t.owner,
       updatedAt := now)
  }

  /** An update never moves a task to another owner, whatever owner the body names. */
  lemma UpdateKeepsOwner(t: Task, body: UpdateBody, now: nat)
    requires PrepareUpdate(body).Ok?
    ensures ApplyPatch(t, PrepareUpdate(body).value, now).owner == t.owner
  {
  }

  /** An accepted update keeps a stored task valid: the title stays non-empty and trimmed. */
  lemma UpdateKeepsTaskValid(t: Task, body: UpdateBody, now: nat)
    requires ValidTask(t) && PrepareUpdate(body).Ok?
    ensures ValidTask(ApplyPatch(t, PrepareUpdate(body).value, now))
  {
  }

  /** An update that names a status leaves `completed` agreeing with it. */
  lemma UpdateWithStatusDerivesCompleted(t: Task, body: UpdateBody, now: nat)
    requires Truthy(body.status) && PrepareUpdate(body).Ok?
    ensures CompletedMatchesStatus(ApplyPatch(t, PrepareUpdate(body).value, now))
  {
  }

  /** The derivation survives an update unless the update sends `completed` without `status`. */
  lemma UpdateKeepsDerivation(t: Task, body: UpdateBody, now: nat)
    requires CompletedMatchesStatus(t) && PrepareUpdate(body).Ok?
    requires Truthy(body.status) || body.completed.None?
    ensures CompletedMatchesStatus(ApplyPatch(t, PrepareUpdate(body).value, now))
  {
  }

  /** ... and it does not survive one that does: `{ completed: true }` on a `todo` task stores a
      completed task whose status is still `todo`. */
  lemma CompletedWithoutStatusBreaksDerivation(t: Task, now: nat)
    requires t.status == Todo && !t.completed
    ensures var body := UpdateBody(None, None, None, None, Some(true), None, None);
            && PrepareUpdate(body).Ok?
            && !CompletedMatchesStatus(ApplyPatch(t, PrepareUpdate(body).value, now))
  {
  }

  /** Status changes are unrestricted: one update takes any task to any status, with the
      matching `completed` flag. */
  lemma AnyStatusReachable(t: Task, target: Status, now: nat)
    ensures var body := UpdateBody(None, None, None, Some(StatusName(target)), None, None, None);
            && PrepareUpdate(body).Ok?
            && ApplyPatch(t, PrepareUpdate(body).value, now).status == target
            && CompletedMatchesStatus(ApplyPatch(t, PrepareUpdate(body).value, now))
  {
    StatusRoundTrip(target);
  }

  /** The position of the task with this id owned by this user (`{ _id: id, owner }`). */
  function FindOwnedTask(tasks: seq<Task>, id: ObjectId, owner: ObjectId): (r: Option<nat>)
    ensures r.Some? ==> r.value < |tasks| && tasks[r.value].id == id && tasks[r.value].owner == owner
    ensures r.None? <==> forall j :: 0 <= j < |tasks| ==> !(tasks[j].id == id && tasks[j].owner == owner)
  {
    FirstIndex(tasks, (t: Task) => t.id == id && t.owner == owner)
  }

  /** Ordered by creation time, newest first (`sort({ createdAt: -1 })`). */
  predicate NewestFirst(s: seq<Task>) {
    forall i, j :: 0 <= i < j < |s| ==> s[i].createdAt >= s[j].createdAt
  }

  /** The tasks of one owner, in store order (`Task.find({ owner })`). */
  function OwnedBy(tasks: seq<Task>, owner: ObjectId): (r: seq<Task>)
    ensures forall t :: t in r <==> t in tasks && t.owner == owner
    ensures |r| <= |tasks|
  {
    if tasks == [] then []
    else if tasks[0].owner == owner then [tasks[0]] + OwnedBy(tasks[1..], owner)
    else OwnedBy(tasks[1..], owner)
  }

  /** Inserts a task before the first one that is not newer. */
  function InsertNewestFirst(t: Task, s: seq<Task>): (r: seq<Task>)
    requires NewestFirst(s)
    ensures NewestFirst(r)
    ensures multiset(r) == multiset(s) + multiset{t}
  {
    if s == [] || s[0].createdAt <= t.createdAt then [t] + s
    else
      var rest := InsertNewestFirst(t, s[1..]);
      assert s == [s[0]] + s[1..];
      HeadNotOlder(s[0], s[1..], t, rest);
      [s[0]] + rest
  }

  /** A task at least as new as every task of `s` and as `t` is at least as new as every task
      of any arrangement of them. */
  lemma HeadNotOlder(head: Task, s: seq<Task>, t: Task, rest: seq<Task>)
    requires forall i :: 0 <= i < |s| ==> head.createdAt >= s[i].createdAt
    requires head.createdAt >= t.createdAt
    requires multiset(rest) == multiset(s) + multiset{t}
    ensures NewestFirst(rest) ==> NewestFirst([head] + rest)
  {
    forall i | 0 <= i < |rest| ensures head.createdAt >= rest[i].createdAt {
      assert rest[i] in multiset(rest);
      if rest[i] != t {
        assert rest[i] in multiset(s);
        var j :| 0 <= j < |s| && s[j] == rest[i];
      }
    }
  }

  function SortNewestFirst(s: seq<Task>): (r: seq<Task>)
    ensures NewestFirst(r)
    ensures multiset(r) == multiset(s)
  {
    if s == [] then []
    else
      assert s == [s[0]] + s[1..];
      InsertNewestFirst(s[0], SortNewestFirst(s[1..]))
  }

  /** `getTasks`: exactly the requester's tasks, newest first. */
  function ListTasks(tasks: seq<Task>, owner: ObjectId): (r: seq<Task>)
    ensures forall t :: t in r <==> t in tasks && t.owner == owner
    ensures NewestFirst(r)
    ensures multiset(r) == multiset(OwnedBy(tasks, owner))
  {
    var r := SortNewestFirst(OwnedBy(tasks, owner));
    assert forall t :: t in r <==> t in multiset(OwnedBy(tasks, owner));
    r
  }
}
