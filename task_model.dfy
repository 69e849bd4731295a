/** The Task schema: required trimmed title, optional trimmed description, priority and status
    from fixed enumerations with defaults, a completed flag defaulting to false, an image URL
    defaulting to null, a required owner, and creation and update times. */
module TaskModel {
  import opened Wrappers
  import opened Text
  import opened Store
  import opened Http

  datatype Priority = Low | Medium | High

  datatype Status = Todo | InProgress | InReview | Done

  const DefaultPriority: Priority := Medium
  const DefaultStatus: Status := Todo
  const DefaultCompleted: bool := false

  function PriorityName(p: Priority): string {
    match p
    case Low => "Low"
    case Medium => "Medium"
    case High => "High"
  }

  /** The priority enum validator: exactly the three names pass. */
  function ParsePriority(s: string): (r: Option<Priority>)
    ensures r.Some? ==> PriorityName(r.value) == s
  {
    if s == "Low" then Some(Low)
    else if s == "Medium" then Some(Medium)
    else if s == "High" then Some(High)
    else None
  }

  lemma PriorityRoundTrip(p: Priority)
    ensures ParsePriority(PriorityName(p)) == Some(p)
  {
  }

  function StatusName(s: Status): string {
    match s
    case Todo => "todo"
    case InProgress => "in_progress"
    case InReview => "in_review"
    case Done => "done"
  }

  /** The status enum validator: exactly the four names pass. */
  function ParseStatus(s: string): (r: Option<Status>)
    ensures r.Some? ==> StatusName(r.value) == s
  {
    if s == "todo" then Some(Todo)
    else if s == "in_progress" then Some(InProgress)
    else if s == "in_review" then Some(InReview)
    else if s == "done" then Some(Done)
    else None
  }

  lemma StatusRoundTrip(s: Status)
    ensures ParseStatus(StatusName(s)) == Some(s)
  {
  }

  /** The only status name that parses to `done` is "done". */
  lemma ParseStatusDone(s: string)
    ensures ParseStatus(s) == Some(Done) <==> s == "done"
  {
  }

  datatype Task = Task(
    id: ObjectId,
    title: string,
    description: Option<string>,
    priority: Priority,
    status: Status,
    completed: bool,
    imageUrl: Option<string>,
    owner: ObjectId,
    createdAt: nat,
    updatedAt: nat)

  /** What the schema guarantees of every stored task. */
  predicate ValidTask(t: Task)
    // A stored task's title is never whitespace only.
    ensures ValidTask(t) ==> !Blank(t.title)
  {
    && t.title != "" && Trimmed(t.title)
    && (t.description.Some? ==> Trimmed(t.description.value))
  }

  /** The derived flag agrees with the status. */
  predicate CompletedMatchesStatus(t: Task) {
    t.completed == (t.status == Done)
  }

  /** An optional enum field passes its validator: absent, or one of the names. */
  predicate PriorityOk(p: Option<string>) { p.None? || ParsePriority(p.value).Some? }
  predicate StatusOk(s: Option<string>) { s.None? || ParseStatus(s.value).Some? }

  /** The `trim` setter on an optional field. */
  function TrimOption(s: Option<string>): (r: Option<string>)
    ensures r.Some? <==> s.Some?
    ensures r.Some? ==> Trimmed(r.value) && r.value == Trim(s.value)
    ensures r.Some? ==> (r.value == "" <==> Blank(s.value))
  {
    if s.Some? then TrimEmptyIffBlank(s.value); Some(Trim(s.value)) else None
  }

  /** `Task.create`: the `trim` setters, the defaults for absent fields (priority Medium,
      status todo, completed false), then the validators (title required, enums). */
  function CreateTask(id: ObjectId, title: string, description: Option<string>,
                      priority: Option<string>, status: Option<string>, completed: Option<bool>,
                      imageUrl: Option<string>, owner: ObjectId, now: nat)
    : (r: Result<Task, Failure>)
    ensures r.Ok? <==> !Blank(title) && PriorityOk(priority) && StatusOk(status)
    ensures r.Err? ==> r.error == ValidationFailed("Task")
    ensures r.Ok? ==> ValidTask(r.value)
    ensures r.Ok? ==> && r.value.id == id && r.value.title == Trim(title)
                      && r.value.description == TrimOption(description)
                      && r.value.imageUrl == imageUrl && r.value.owner == owner
                      && r.value.createdAt == now && r.value.updatedAt == now
    ensures r.Ok? ==> r.value.priority == (if priority.None? then DefaultPriority else ParsePriority(priority.value).value)
    ensures r.Ok? ==> r.value.status == (if status.None? then DefaultStatus else ParseStatus(status.value).value)
    ensures r.Ok? ==> r.value.completed == (if completed.None? then DefaultCompleted else completed.value)
  {
    TrimEmptyIffBlank(title);
    if Blank(title) || !PriorityOk(priority) || !StatusOk(status) then Err(ValidationFailed("Task"))
    else
      Ok(Task(id, Trim(title), TrimOption(description),
              if priority.None? then DefaultPriority else ParsePriority(priority.value).value,
              if status.None? then DefaultStatus else ParseStatus(status.value).value,
              if completed.None? then DefaultCompleted else completed.value,
              imageUrl, owner, now, now))
  }

  /** The defaults agree with each other: a task created with no status and no completed flag
      satisfies the derivation `completed == (status == done)`. */
  lemma DefaultsAgree(id: ObjectId, title: string, description: Option<string>,
                      priority: Option<string>, imageUrl: Option<string>, owner: ObjectId, now: nat)
    requires CreateTask(id, title, description, priority, None, None, imageUrl, owner, now).Ok?
    ensures CompletedMatchesStatus(CreateTask(id, title, description, priority, None, None, imageUrl, owner, now).value)
  {
  }
}
