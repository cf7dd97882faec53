/**
 The write rules of backend/tasks/serializers.py and the `status` action of
 `TaskViewSet` in backend/tasks/views.py, over a store of tasks keyed by
 primary key. Creating validates the client's fields, drops the read-only
 ones and sets the creator to the requesting user; the status action finds
 the task among those the requester may see and changes its status alone.
 */
module TaskStore {
  import opened Wrappers
  import opened TaskModel
  import opened Selection
  import opened Text

  /** The writable fields a client may send when creating a task, plus the read-only ones it may send in vain. */
  datatype TaskInput = TaskInput(
    title: Option<string>,
    description: Option<string>,
    status: Option<string>,
    totalMinutes: Option<int>,
    assignedTo: Option<Option<UserId>>,
    createdBy: Option<UserId>,
    createdAt: Option<int>,
    updatedAt: Option<int>)

  /** A field that failed validation. */
  datatype Field = TitleField | DescriptionField | StatusField

  /** What `TaskSerializer` validation keeps: the writable fields with their defaults filled in. */
  datatype ValidatedData = ValidatedData(
    title: string, description: string, status: Status, totalMinutes: int, assignedTo: Option<UserId>)

  /**
   `title`, a DRF `CharField(max_length=255)`: required; the value is stripped
   of surrounding white space, must not then be blank, must fit 255
   characters and must not hold a NUL character.
   */
  predicate TitleAccepted(title: Option<string>)
  {
    title.Some? && Strip(title.value) != "" && ValidTitle(Strip(title.value)) && '\0' !in Strip(title.value)
  }

  /** `description`, a DRF `CharField` that may be blank: optional, stripped, and refused when it holds a NUL character. */
  predicate DescriptionAccepted(description: Option<string>)
  {
    description.None? || '\0' !in Strip(description.value)
  }

  /** `status`: optional, defaulting to TO_DO, otherwise one of the three choices. */
  predicate StatusAccepted(status: Option<string>)
  {
    status.None? || ParseStatus(status.value).Some?
  }

  /** The fields whose check failed. */
  function FailingFields(titleOk: bool, descriptionOk: bool, statusOk: bool): (r: set<Field>)
    ensures TitleField in r <==> !titleOk
    ensures DescriptionField in r <==> !descriptionOk
    ensures StatusField in r <==> !statusOk
  {
    (if titleOk then {} else {TitleField}) + (if descriptionOk then {} else {DescriptionField})
      + (if statusOk then {} else {StatusField})
  }

  /** `TaskSerializer(data=...).is_valid()`: every failing field is reported; read-only fields are not looked at; the text fields are kept stripped. */
  function ValidateTask(input: TaskInput): (r: Result<ValidatedData, set<Field>>)
    ensures r.Ok? <==> TitleAccepted(input.title) && DescriptionAccepted(input.description) && StatusAccepted(input.status)
    ensures r.Err? ==> (TitleField in r.error <==> !TitleAccepted(input.title))
    ensures r.Err? ==> (DescriptionField in r.error <==> !DescriptionAccepted(input.description))
    ensures r.Err? ==> (StatusField in r.error <==> !StatusAccepted(input.status))
    ensures r.Ok? ==> r.value.title == Strip(input.title.value) && r.value.title != "" && ValidTitle(r.value.title)
    ensures r.Ok? ==> r.value.description == if input.description.Some? then Strip(input.description.value) else ""
    ensures r.Ok? ==> StatusValue(r.value.status) == (if input.status.Some? then input.status.value else "TO_DO")
    ensures r.Ok? ==> r.value.totalMinutes == (if input.totalMinutes.Some? then input.totalMinutes.value else 0)
    ensures r.Ok? ==> r.value.assignedTo == (if input.assignedTo.Some? then input.assignedTo.value else None)
  {
    var titleOk, descriptionOk, statusOk :=
      TitleAccepted(input.title), DescriptionAccepted(input.description), StatusAccepted(input.status);
    if !(titleOk && descriptionOk && statusOk) then Err(FailingFields(titleOk, descriptionOk, statusOk))
    else
      Ok(ValidatedData(
        Strip(input.title.value),
        if input.description.Some? then Strip(input.description.value) else "",
        if input.status.Some? then ParseStatus(input.status.value).value else ToDo,
        if input.totalMinutes.Some? then input.totalMinutes.value else 0,
        if input.assignedTo.Some? then input.assignedTo.value else None))
  }

  /** `TaskSerializer.create`: the validated fields, with `created_by` set to the requester and both timestamps to now. */
  function CreatedTask(data: ValidatedData, requester: UserId, id: nat, now: int): Task
  {
    Task(id, data.title, data.description, data.status, data.totalMinutes, requester, data.assignedTo, now, now)
  }

  /** What creating from `input` yields: the new task or the failing fields. */
  function Creation(input: TaskInput, requester: UserId, id: nat, now: int): (r: Result<Task, set<Field>>)
    ensures r.Ok? <==> ValidateTask(input).Ok?
    ensures r.Ok? ==> r.value.createdBy == requester && r.value.id == id
    ensures r.Ok? ==> r.value.createdAt == now && r.value.updatedAt == now
    ensures r.Ok? ==> r.value.title == Strip(input.title.value)
    ensures r.Ok? ==> r.value.description == (if input.description.Some? then Strip(input.description.value) else "")
    ensures r.Ok? ==> StatusValue(r.value.status) == (if input.status.Some? then input.status.value else "TO_DO")
    ensures r.Ok? ==> r.value.totalMinutes == (if input.totalMinutes.Some? then input.totalMinutes.value else 0)
    ensures r.Ok? ==> r.value.assignedTo == (if input.assignedTo.Some? then input.assignedTo.value else None)
  {
    match ValidateTask(input)
    case Ok(data) => Ok(CreatedTask(data, requester, id, now))
    case Err(errors) => Err(errors)
  }

  /** The client's `created_by`, `created_at` and `updated_at` make no difference to what is created. */
  lemma CreationIgnoresReadOnlyFields(input: TaskInput, other: TaskInput, requester: UserId, id: nat, now: int)
    requires other == input.(createdBy := other.createdBy, createdAt := other.createdAt, updatedAt := other.updatedAt)
    ensures Creation(input, requester, id, now) == Creation(other, requester, id, now)
  {
  }

  /** A creation that sends only an acceptable title gets that title stripped and the model defaults for everything else. */
  lemma CreationDefaults(title: string, requester: UserId, id: nat, now: int)
    requires TitleAccepted(Some(title))
    ensures Creation(TaskInput(Some(title), None, None, None, None, None, None, None), requester, id, now)
      == Ok(NewTask(id, Strip(title), requester, now))
  {
  }

  /** A title of white space only, or one holding a NUL character anywhere, is refused on `title`. */
  lemma TitleRefusals(title: string, input: TaskInput)
    requires input.title == Some(title)
    requires (forall i :: 0 <= i < |title| ==> IsSpace(title[i])) || '\0' in title
    ensures ValidateTask(input).Err? && TitleField in ValidateTask(input).error
  {
    StripKeeps(title, '\0');
  }

  /** A description holding a NUL character anywhere is refused on `description`. */
  lemma DescriptionRefusal(description: string, input: TaskInput)
    requires input.description == Some(description) && '\0' in description
    ensures ValidateTask(input).Err? && DescriptionField in ValidateTask(input).error
  {
    StripKeeps(description, '\0');
  }

  /** White space around an accepted title is dropped, and the stored title is already stripped. */
  lemma StoredTitleStripped(input: TaskInput, requester: UserId, id: nat, now: int)
    requires Creation(input, requester, id, now).Ok?
    ensures Strip(Creation(input, requester, id, now).value.title) == Creation(input, requester, id, now).value.title
  {
    StripIdempotent(input.title.value);
  }

  /** The reply of the status action. */
  datatype PatchReply = NotFound | BadRequest(errors: set<Field>) | Saved(status: string)

  /** `TaskStatusUpdateSerializer(task, data, partial=True)` then `save()`: only `status` is read from the data, and saving stamps `updated_at`. */
  function Patched(t: Task, data: map<string, string>, now: int): (r: Option<Task>)
    ensures r.Some? <==> "status" !in data || ParseStatus(data["status"]).Some?
    ensures r.Some? ==> r.value == t.(status := r.value.status, updatedAt := now)
    ensures r.Some? ==> StatusValue(r.value.status) == if "status" in data then data["status"] else StatusValue(t.status)
  {
    if "status" !in data then Some(t.(updatedAt := now))
    else
      match ParseStatus(data["status"])
      case Some(s) => Some(t.(status := s, updatedAt := now))
      case None => None
  }

  /** The status action reads nothing from the request but its `status` entry. */
  lemma PatchReadsOnlyStatus(t: Task, data: map<string, string>, other: map<string, string>, now: int)
    requires "status" in data <==> "status" in other
    requires "status" in data ==> data["status"] == other["status"]
    ensures Patched(t, data, now) == Patched(t, other, now)
  {
  }

  /** `get_object()` succeeds for the tasks the requester's queryset holds: all of them for an admin, else those they created or are assigned to. */
  predicate CanSee(requester: User, t: Task)
    ensures CanSee(requester, t) <==> t in Visible(requester, [t])
  {
    requester.isAdmin || Involves(requester.id, t)
  }

  /** The queryset of `get_queryset` over any table holds exactly the tasks the requester can see. */
  lemma CanSeeIsVisible(requester: User, table: seq<Task>, t: Task)
    ensures t in Visible(requester, table) <==> t in table && CanSee(requester, t)
  {
  }

  /** A task someone created is one they may then read and patch, admin or not. */
  lemma CreatorCanSee(requester: User, input: TaskInput, id: nat, now: int)
    requires Creation(input, requester.id, id, now).Ok?
    ensures CanSee(requester, Creation(input, requester.id, id, now).value)
  {
  }

  /** The reply and the new tasks of the status action, as functions of the old tasks. */
  function PatchOutcome(tasks: map<nat, Task>, requester: User, id: nat, data: map<string, string>, now: int): (r: (PatchReply, map<nat, Task>))
    ensures r.0.NotFound? <==> id !in tasks || !CanSee(requester, tasks[id])
    ensures r.0.BadRequest? <==> (id in tasks && CanSee(requester, tasks[id])
      && "status" in data && ParseStatus(data["status"]).None?)
    ensures r.0.BadRequest? ==> r.0.errors == {StatusField}
    ensures !r.0.Saved? ==> r.1 == tasks
    ensures r.0.Saved? ==> (id in tasks && id in r.1 && r.1 == tasks[id := r.1[id]]
      && r.1[id] == tasks[id].(status := r.1[id].status, updatedAt := now)
      && r.0.status == StatusValue(r.1[id].status)
      && r.0.status == if "status" in data then data["status"] else StatusValue(tasks[id].status))
  {
    if id !in tasks || !CanSee(requester, tasks[id]) then (NotFound, tasks)
    else
      match Patched(tasks[id], data, now)
      case Some(t) => (Saved(StatusValue(t.status)), tasks[id := t])
      case None => (BadRequest({StatusField}), tasks)
  }

  /** The serialized task: every model field, the status as its stored value, and the two usernames. */
  datatype TaskRepresentation = TaskRepresentation(
    id: nat,
    title: string,
    description: string,
    status: string,
    totalMinutes: int,
    createdBy: UserId,
    assignedTo: Option<UserId>,
    createdAt: int,
    updatedAt: int,
    createdByName: string,
    assignedToName: Option<string>)

  /** `TaskSerializer(task).data`, given the username of each user id. */
  function Represent(t: Task, username: UserId -> string): (r: TaskRepresentation)
    ensures r.createdByName == username(t.createdBy)
    ensures r.assignedToName.None? <==> t.assignedTo.None?
    ensures t.assignedTo.Some? ==> r.assignedToName == Some(username(t.assignedTo.value))
  {
    TaskRepresentation(t.id, t.title, t.description, StatusValue(t.status), t.totalMinutes,
      t.createdBy, t.assignedTo, t.createdAt, t.updatedAt, username(t.createdBy),
      if t.assignedTo.Some? then Some(username(t.assignedTo.value)) else None)
  }

  /** The representation gives the task back: its status value parses to the task's status and the other fields are copied. */
  lemma RepresentationRoundTrip(t: Task, username: UserId -> string)
    ensures var r := Represent(t, username);
      ParseStatus(r.status) == Some(t.status)
      && Task(r.id, r.title, r.description, ParseStatus(r.status).value, r.totalMinutes,
              r.createdBy, r.assignedTo, r.createdAt, r.updatedAt) == t
  {
    ParseStatusValue(t.status);
  }

  /** The tasks table: rows keyed by primary key, and the next key to hand out. */
  class Store {
    var tasks: map<nat, Task>
    var nextId: nat

    /** Each row sits under its own primary key, below the next key, with a title of at most 255 characters. */
    ghost predicate Valid()
      reads this
    {
      forall k :: k in tasks ==> k < nextId && tasks[k].id == k && ValidTitle(tasks[k].title)
    }

    constructor()
      ensures Valid() && tasks == map[] && nextId == 1
    {
      tasks := map[];
      nextId := 1;
    }

    /** `perform_create`: validate, then save a new row under the next key with the requester as creator. */
    method Create(requester: User, input: TaskInput, now: int) returns (r: Result<Task, set<Field>>)
      requires Valid()
      modifies this
      ensures Valid()
      ensures r == Creation(input, requester.id, old(nextId), now)
      ensures r.Ok? ==> tasks == old(tasks)[old(nextId) := r.value] && nextId == old(nextId) + 1
      ensures r.Err? ==> tasks == old(tasks) && nextId == old(nextId)
      ensures r.Ok? ==> old(nextId) !in old(tasks)
    {
      assert nextId !in tasks;
      var validated := ValidateTask(input);
      if validated.Err? {
        return Err(validated.error);
      }
      var data := validated.value;
      var task := CreatedTask(data, requester.id, nextId, now);
      assert task.id == nextId && ValidTitle(task.title);
      assert Creation(input, requester.id, nextId, now) == Ok(task);
      tasks := tasks[nextId := task];
      nextId := nextId + 1;
      r := Ok(task);
    }

    /** The `status` action: a PATCH of task `id` with the request's data. */
    method UpdateStatus(requester: User, id: nat, data: map<string, string>, now: int) returns (r: PatchReply)
      requires Valid()
      modifies this
      ensures Valid()
      ensures (r, tasks) == PatchOutcome(old(tasks), requester, id, data, now)
      ensures nextId == old(nextId)
    {
      if id !in tasks || !CanSee(requester, tasks[id]) {
        return NotFound;
      }
      var patched := Patched(tasks[id], data, now);
      if patched.None? {
        return BadRequest({StatusField});
      }
      tasks := tasks[id := patched.value];
      r := Saved(StatusValue(patched.value.status));
    }

    /** Deleting a user: rows the user created go with it, rows assigned to the user lose their assignee. */
    method RemoveUser(u: UserId)
      requires Valid()
      modifies this
      ensures Valid()
      ensures tasks == DeleteUser(old(tasks), u) && nextId == old(nextId)
    {
      tasks := DeleteUser(tasks, u);
    }
  }
}
