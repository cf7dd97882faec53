/**
 Which tasks a user sees: the task list of `TaskViewSet.get_queryset`, the
 open tasks that feed the daily plan in backend/tasks/views.py, and the
 assignee-only selection of the older endpoint in backend/tasks/ai.py.
 A table is a sequence of tasks in the natural order; a query is a filter
 over it, so it keeps that order.
 */
module Selection {
  import opened Wrappers
  import opened TaskModel

  /** The elements of `s` that satisfy `p`, in their order in `s`. */
  function Filter<T(!new)>(p: T -> bool, s: seq<T>): (r: seq<T>)
    ensures |r| <= |s|
    ensures forall x :: x in r <==> x in s && p(x)
  {
    if s == [] then [] else (if p(s[0]) then [s[0]] else []) + Filter(p, s[1..])
  }

  /** Filtering distributes over concatenation: whatever comes first in the table comes first in the result. */
  lemma {:induction false} FilterConcat<T(!new)>(p: T -> bool, a: seq<T>, b: seq<T>)
    ensures Filter(p, a + b) == Filter(p, a) + Filter(p, b)
  {
    if a == [] {
      assert a + b == b;
    } else {
      assert (a + b)[0] == a[0];
      assert (a + b)[1..] == a[1..] + b;
      FilterConcat(p, a[1..], b);
    }
  }

  /** Filtering twice is filtering once by both conditions. */
  lemma {:induction false} FilterFilter<T(!new)>(p: T -> bool, q: T -> bool, both: T -> bool, s: seq<T>)
    requires forall x :: both(x) == (q(x) && p(x))
    ensures Filter(p, Filter(q, s)) == Filter(both, s)
  {
    if s != [] {
      FilterFilter(p, q, both, s[1..]);
      FilterConcat(p, if q(s[0]) then [s[0]] else [], Filter(q, s[1..]));
    }
  }

  /** A filter of a newest-first sequence is still newest-first. */
  lemma {:induction false} FilterKeepsNewestFirst(p: Task -> bool, s: seq<Task>)
    requires NewestFirst(s)
    ensures NewestFirst(Filter(p, s))
  {
    if s != [] {
      assert NewestFirst(s[1..]);
      FilterKeepsNewestFirst(p, s[1..]);
      var r := Filter(p, s[1..]);
      forall x | x in r ensures s[0].createdAt >= x.createdAt {
        var j :| 0 <= j < |s[1..]| && s[1..][j] == x;
        assert s[j + 1] == x;
      }
    }
  }

  /** A filter that every element passes keeps the whole sequence. */
  lemma {:induction false} FilterKeepsAll<T(!new)>(p: T -> bool, s: seq<T>)
    requires forall x :: x in s ==> p(x)
    ensures Filter(p, s) == s
  {
    if s != [] {
      FilterKeepsAll(p, s[1..]);
    }
  }

  /** When the two conditions never hold together, the filters' lengths add up to the filter by either. */
  lemma {:induction false} FilterPartitionLength<T(!new)>(p: T -> bool, q: T -> bool, either: T -> bool, s: seq<T>)
    requires forall x :: x in s ==> !(p(x) && q(x))
    requires forall x :: x in s ==> either(x) == (p(x) || q(x))
    ensures |Filter(p, s)| + |Filter(q, s)| == |Filter(either, s)|
  {
    if s != [] {
      FilterPartitionLength(p, q, either, s[1..]);
    }
  }

  predicate Involves(u: UserId, t: Task)
  {
    t.createdBy == u || t.assignedTo == Some(u)
  }

  /** The selector "created by or assigned to `u`". */
  function InvolvesUser(u: UserId): Task -> bool
  {
    t => Involves(u, t)
  }

  /** The selector of the daily plan's query. */
  function OpenFor(u: UserId): Task -> bool
  {
    t => Involves(u, t) && IsOpen(t)
  }

  /** The selector "assigned to `u`". */
  function AssignedTo(u: UserId): Task -> bool
  {
    (t: Task) => t.assignedTo == Some(u)
  }

  /** The selector of the older endpoint's query. */
  function AssignedOpenFor(u: UserId): Task -> bool
  {
    (t: Task) => t.assignedTo == Some(u) && StatusValue(t.status) != "DONE"
  }

  /** `TaskViewSet.get_queryset`: an admin sees the whole table, anyone else the tasks they created or are assigned to. */
  function Visible(user: User, table: seq<Task>): (r: seq<Task>)
    ensures user.isAdmin ==> r == table
    ensures !user.isAdmin ==> forall t :: t in r <==> t in table && Involves(user.id, t)
  {
    if user.isAdmin then table else Filter(InvolvesUser(user.id), table)
  }

  /** The open tasks of the daily plan: creator or assignee, DONE excluded, whatever the admin flag. */
  function OpenTasks(user: User, table: seq<Task>): (r: seq<Task>)
    ensures forall t :: t in r <==> t in table && Involves(user.id, t) && IsOpen(t)
  {
    Filter(OpenFor(user.id), table)
  }

  /** The older endpoint's selection: assigned to the user, status value other than 'DONE'. */
  function AssignedOpenTasks(user: User, table: seq<Task>): (r: seq<Task>)
    ensures forall t :: t in r <==> t in table && t.assignedTo == Some(user.id) && StatusValue(t.status) != "DONE"
  {
    Filter(AssignedOpenFor(user.id), table)
  }

  /** The daily plan's tasks are the open part of what a non-admin user may see, in the same order. */
  lemma OpenTasksAreVisibleOpen(user: User, table: seq<Task>)
    requires !user.isAdmin
    ensures OpenTasks(user, table) == Filter(IsOpen, Visible(user, table))
  {
    FilterFilter(IsOpen, InvolvesUser(user.id), OpenFor(user.id), table);
  }

  /** An admin's daily plan still leaves out the tasks that involve other users only. */
  lemma AdminPlanIgnoresOthersTasks(admin: User, table: seq<Task>, t: Task)
    requires admin.isAdmin && t in table && !Involves(admin.id, t)
    ensures t in Visible(admin, table) && t !in OpenTasks(admin, table)
  {
  }

  /** The older selection is the part of the daily plan's selection that is assigned to the user. */
  lemma AssignedOpenTasksNarrower(user: User, table: seq<Task>)
    ensures AssignedOpenTasks(user, table) == Filter(AssignedTo(user.id), OpenTasks(user, table))
  {
    forall t: Task ensures AssignedOpenFor(user.id)(t) == (OpenFor(user.id)(t) && AssignedTo(user.id)(t)) {
      StatusValueInjective(t.status, Done);
    }
    FilterFilter(AssignedTo(user.id), OpenFor(user.id), AssignedOpenFor(user.id), table);
  }

  /** A task the user created but is not assigned to is in the daily plan's selection and not in the older one. */
  lemma CreatedOnlyTaskExcludedByLegacy(user: User, table: seq<Task>, t: Task)
    requires t in table && t.createdBy == user.id && t.assignedTo != Some(user.id) && IsOpen(t)
    ensures t in OpenTasks(user, table) && t !in AssignedOpenTasks(user, table)
  {
  }
}
