/**
 The `Task` record of backend/tasks/models.py: its status choices, its
 field defaults, the length bound on its title, its newest-first natural
 order and what happens to a task when one of its users is deleted.
 */
module TaskModel {
  import opened Wrappers

  type UserId = nat

  /** Only what the core reads of a user: the primary key, the name and the admin flag. */
  datatype User = User(id: UserId, username: string, isAdmin: bool)

  /** `Task.Status`: the three text choices of the status field. */
  datatype Status = ToDo | InProgress | Done

  /** The value stored in the database column for a status. */
  function StatusValue(s: Status): (v: string)
    ensures 2 <= |v| <= 20
  {
    match s
    case ToDo => "TO_DO"
    case InProgress => "IN_PROGRESS"
    case Done => "DONE"
  }

  /** The human-readable label of a status choice. */
  function StatusLabel(s: Status): string
  {
    match s
    case ToDo => "To Do"
    case InProgress => "In Progress"
    case Done => "Done"
  }

  /** Choice validation of the status field: a raw value is accepted exactly when it is one of the three stored values. */
  function ParseStatus(raw: string): (r: Option<Status>)
    ensures r.Some? ==> StatusValue(r.value) == raw
  {
    if raw == "TO_DO" then Some(ToDo)
    else if raw == "IN_PROGRESS" then Some(InProgress)
    else if raw == "DONE" then Some(Done)
    else None
  }

  /** Parsing a stored value gives back the status it came from, so the choices are exactly the three values. */
  lemma ParseStatusValue(s: Status)
    ensures ParseStatus(StatusValue(s)) == Some(s)
  {
  }

  /** The stored values are pairwise distinct. */
  lemma StatusValueInjective(s: Status, t: Status)
    ensures StatusValue(s) == StatusValue(t) <==> s == t
  {
    ParseStatusValue(s);
    ParseStatusValue(t);
  }

  const TitleMaxLength := 255

  /**
   A row of the `tasks` table. `totalMinutes` is a plain integer: the model
   field has no lower bound. `createdAt` stands for the creation timestamp.
   */
  datatype Task = Task(
    id: nat,
    title: string,
    description: string,
    status: Status,
    totalMinutes: int,
    createdBy: UserId,
    assignedTo: Option<UserId>,
    createdAt: int,
    updatedAt: int)

  predicate ValidTitle(title: string)
  {
    |title| <= TitleMaxLength
  }

  /** A task whose status is not DONE. */
  predicate IsOpen(t: Task)
  {
    t.status != Done
  }

  /** The task a creation with only the required fields yields: every other field takes its model default. */
  function NewTask(id: nat, title: string, creator: UserId, now: int): (t: Task)
    ensures t.status == ToDo && t.totalMinutes == 0 && t.description == ""
    ensures t.assignedTo == None && t.createdBy == creator && t.title == title
    ensures t.createdAt == now == t.updatedAt && t.id == id
    ensures IsOpen(t)
  {
    Task(id, title, "", ToDo, 0, creator, None, now, now)
  }

  /** `ordering = ['-created_at']`: the natural order lists newer tasks first. */
  ghost predicate NewestFirst(s: seq<Task>)
  {
    forall i, j :: 0 <= i < j < |s| ==> s[i].createdAt >= s[j].createdAt
  }

  /**
   Deleting user `u`: tasks that `u` created are deleted with it (CASCADE)
   and tasks assigned to `u` lose their assignee (SET_NULL).
   */
  function AfterUserDeleted(t: Task, u: UserId): (r: Task)
    ensures r.assignedTo == (if t.assignedTo == Some(u) then None else t.assignedTo)
    ensures r == t.(assignedTo := r.assignedTo)
  {
    if t.assignedTo == Some(u) then t.(assignedTo := None) else t
  }

  function DeleteUser(tasks: map<nat, Task>, u: UserId): (r: map<nat, Task>)
    ensures forall k :: k in r <==> k in tasks && tasks[k].createdBy != u
    ensures forall k :: k in r ==> r[k] == AfterUserDeleted(tasks[k], u)
  {
    map k | k in tasks && tasks[k].createdBy != u :: AfterUserDeleted(tasks[k], u)
  }

  /** After the deletion no task mentions the deleted user, and every surviving task is otherwise unchanged. */
  lemma DeleteUserForgetsUser(tasks: map<nat, Task>, u: UserId)
    ensures forall k :: k in DeleteUser(tasks, u) ==>
      DeleteUser(tasks, u)[k].createdBy != u && DeleteUser(tasks, u)[k].assignedTo != Some(u)
    ensures forall k :: k in tasks && tasks[k].createdBy != u && tasks[k].assignedTo != Some(u) ==>
      k in DeleteUser(tasks, u) && DeleteUser(tasks, u)[k] == tasks[k]
  {
  }
}
