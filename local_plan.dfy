/**
 `AIViewSet._generate_local_plan` of backend/tasks/views.py: the plan built
 without the language model. The open tasks are split into an in-progress
 and a to-do bucket, each in the table's order; the plan is a list of lines
 (headers and one line per task) joined with newlines; the time estimate is
 the rounded total of the tasks' minutes in hours, at least one.
 */
module LocalPlanner {
  import opened Wrappers
  import opened TaskModel
  import opened Selection
  import opened Text
  import opened Rounding
  import opened Responses

  // The headers of the plan, the congratulation and the local-logic note.
  // Texts longer than about forty characters are written as concatenations of
  // shorter literals; the proofs that look at their characters stay small that way.
  const InProgressHeader := "First, continue working " + "on your in-progress tasks:"
  const ThenHeader := "Then, tackle these new tasks:"
  const StartHeader := "Start with these tasks:"
  const EmptyPlan := "No pending tasks. Great job!"
  const LocalNote := "Generated using local logic " + "(AI service unavailable)"

  function HasStatus(s: Status): Task -> bool
  {
    (t: Task) => t.status == s
  }

  /** The tasks with status `s`, in their order in `tasks`. */
  function Bucket(tasks: seq<Task>, s: Status): (r: seq<Task>)
    ensures forall t :: t in r <==> t in tasks && t.status == s
  {
    Filter(HasStatus(s), tasks)
  }

  function InProgressLine(t: Task): string
  {
    "- " + t.title + " (already started)"
  }

  function ToDoLine(t: Task): string
  {
    "- " + t.title
  }

  function InProgressSection(ip: seq<Task>): seq<string>
  {
    if |ip| == 0 then []
    else [InProgressHeader] + seq(|ip|, i requires 0 <= i < |ip| => InProgressLine(ip[i]))
  }

  function ToDoSection(td: seq<Task>, started: bool): seq<string>
  {
    if |td| == 0 then []
    else [if started then ThenHeader else StartHeader] + seq(|td|, i requires 0 <= i < |td| => ToDoLine(td[i]))
  }

  /** The list `plan_parts` built from the two buckets; it is empty, and gets the congratulation, exactly when both buckets are. */
  function Lines(ip: seq<Task>, td: seq<Task>): seq<string>
  {
    if |ip| + |td| == 0 then [EmptyPlan] else InProgressSection(ip) + ToDoSection(td, |ip| > 0)
  }

  /** The position of the to-do header: after the in-progress header and lines, when there are any. */
  function ToDoStart(ip: seq<Task>): nat
  {
    if |ip| > 0 then |ip| + 1 else 0
  }

  /** The list `plan_parts` the plan text is joined from. */
  function PlanParts(tasks: seq<Task>): seq<string>
  {
    Lines(Bucket(tasks, InProgress), Bucket(tasks, ToDo))
  }

  /** `sum(task.total_minutes for task in tasks)`: with no negative entry, no less than any one task's minutes. */
  function SumMinutes(tasks: seq<Task>): (r: int)
    ensures (forall i :: 0 <= i < |tasks| ==> tasks[i].totalMinutes >= 0) ==>
      r >= 0 && forall i :: 0 <= i < |tasks| ==> tasks[i].totalMinutes <= r
  {
    if tasks == [] then 0 else tasks[0].totalMinutes + SumMinutes(tasks[1..])
  }

  /** `max(1, round(total_minutes / 60))`. */
  function EstimatedHours(tasks: seq<Task>): (h: int)
    ensures h >= 1
    ensures 2 * Abs(SumMinutes(tasks) - 60 * h) <= 60 || (h == 1 && SumMinutes(tasks) < 30)
    ensures 2 * Abs(SumMinutes(tasks) - 60 * h) == 60 ==> h % 2 == 0 || SumMinutes(tasks) == 30
  {
    var rounded := RoundHours(SumMinutes(tasks));
    if rounded < 1 then 1 else rounded
  }

  /** The dictionary `_generate_local_plan` returns for the given open tasks: always the local note and at least an hour, and the congratulation when no task is in either bucket. */
  function LocalPlan(tasks: seq<Task>): (r: PlanBody)
    ensures r.note == Some(LocalNote) && r.estimatedHours >= 1
    ensures Bucket(tasks, InProgress) == [] && Bucket(tasks, ToDo) == [] ==> r.plan == EmptyPlan
  {
    PlanBody(Join(PlanParts(tasks), '\n'), EstimatedHours(tasks), Some(LocalNote))
  }

  /** `_generate_local_plan(user)`: query the open tasks and append the plan's lines bucket by bucket. */
  method GenerateLocalPlan(user: User, table: seq<Task>) returns (r: PlanBody)
    ensures r == LocalPlan(OpenTasks(user, table))
  {
    var tasks := OpenTasks(user, table);
    var inProgress := Bucket(tasks, InProgress);
    var todo := Bucket(tasks, ToDo);
    var parts: seq<string> := [];
    if |inProgress| > 0 {
      parts := parts + [InProgressHeader];
      parts := AppendInProgressLines(parts, inProgress);
    }
    if |todo| > 0 {
      if |inProgress| > 0 {
        parts := parts + [ThenHeader];
      } else {
        parts := parts + [StartHeader];
      }
      parts := AppendToDoLines(parts, todo);
    }
    assert parts == InProgressSection(inProgress) + ToDoSection(todo, |inProgress| > 0);
    if parts == [] {
      parts := parts + [EmptyPlan];
    }
    r := PlanBody(Join(parts, '\n'), EstimatedHours(tasks), Some(LocalNote));
  }

  /** `for task in in_progress_tasks: plan_parts.append(...)`. */
  method AppendInProgressLines(parts: seq<string>, ip: seq<Task>) returns (out: seq<string>)
    ensures out == parts + seq(|ip|, i requires 0 <= i < |ip| => InProgressLine(ip[i]))
  {
    out := parts;
    for i := 0 to |ip|
      invariant |out| == |parts| + i
      invariant forall k :: 0 <= k < |parts| ==> out[k] == parts[k]
      invariant forall k :: 0 <= k < i ==> out[|parts| + k] == InProgressLine(ip[k])
    {
      out := out + [InProgressLine(ip[i])];
    }
  }

  /** `for task in todo_tasks: plan_parts.append(...)`. */
  method AppendToDoLines(parts: seq<string>, td: seq<Task>) returns (out: seq<string>)
    ensures out == parts + seq(|td|, i requires 0 <= i < |td| => ToDoLine(td[i]))
  {
    out := parts;
    for i := 0 to |td|
      invariant |out| == |parts| + i
      invariant forall k :: 0 <= k < |parts| ==> out[k] == parts[k]
      invariant forall k :: 0 <= k < i ==> out[|parts| + k] == ToDoLine(td[k])
    {
      out := out + [ToDoLine(td[i])];
    }
  }

  lemma InProgressLineShape(t: Task)
    ensures |InProgressLine(t)| > 0 && InProgressLine(t)[0] == '-'
    ensures '\n' !in t.title ==> '\n' !in InProgressLine(t)
  {
    assert InProgressLine(t) == ['-', ' '] + t.title + " (already started)";
  }

  lemma ToDoLineShape(t: Task)
    ensures |ToDoLine(t)| > 0 && ToDoLine(t)[0] == '-'
    ensures '\n' !in t.title ==> '\n' !in ToDoLine(t)
  {
    assert ToDoLine(t) == ['-', ' '] + t.title;
  }

  /** How many lines the plan built from two buckets has: one per task and one per non-empty bucket, or the congratulation alone. */
  lemma LinesLength(ip: seq<Task>, td: seq<Task>)
    ensures |Lines(ip, td)| == if |ip| + |td| == 0 then 1
      else ToDoStart(ip) + (if |td| > 0 then |td| + 1 else 0)
    ensures |ip| + |td| == 0 ==> Lines(ip, td) == [EmptyPlan]
  {
    assert |InProgressSection(ip)| == if |ip| == 0 then 0 else 1 + |ip|;
    assert |ToDoSection(td, |ip| > 0)| == if |td| == 0 then 0 else 1 + |td|;
  }

  /** A plan with some open task is the in-progress block followed by the to-do block. */
  lemma LinesOfSections(ip: seq<Task>, td: seq<Task>)
    requires |ip| + |td| > 0
    ensures Lines(ip, td) == InProgressSection(ip) + ToDoSection(td, |ip| > 0)
    ensures |InProgressSection(ip)| == ToDoStart(ip)
  {
  }

  /** The line of the `i`th in-progress task sits right after the in-progress header. */
  lemma LinesInProgressAt(ip: seq<Task>, td: seq<Task>, i: nat)
    requires i < |ip|
    ensures 1 + i < |Lines(ip, td)| && Lines(ip, td)[1 + i] == InProgressLine(ip[i])
  {
    var a, b := InProgressSection(ip), ToDoSection(td, |ip| > 0);
    assert |a| == 1 + |ip|;
    assert a[1 + i] == InProgressLine(ip[i]);
    assert Lines(ip, td) == a + b;
    assert (a + b)[1 + i] == a[1 + i];
  }

  /** The line of the `j`th to-do task sits after the to-do header. */
  lemma LinesToDoAt(ip: seq<Task>, td: seq<Task>, j: nat)
    requires j < |td|
    ensures ToDoStart(ip) + 1 + j < |Lines(ip, td)| && Lines(ip, td)[ToDoStart(ip) + 1 + j] == ToDoLine(td[j])
  {
    LinesOfSections(ip, td);
    ToDoSectionAt(td, |ip| > 0, j);
    IndexAfter(InProgressSection(ip), ToDoSection(td, |ip| > 0), 1 + j);
  }

  /** Within its section, the `j`th to-do line follows the header. */
  lemma ToDoSectionAt(td: seq<Task>, started: bool, j: nat)
    requires j < |td|
    ensures |ToDoSection(td, started)| == 1 + |td| && ToDoSection(td, started)[1 + j] == ToDoLine(td[j])
  {
    var lines := seq(|td|, i requires 0 <= i < |td| => ToDoLine(td[i]));
    var section := ToDoSection(td, started);
    assert section[1..] == lines;
    assert section[1 + j] == section[1..][j];
  }

  /** An index past the first part of a concatenation lands in the second part. */
  lemma IndexAfter<T>(a: seq<T>, b: seq<T>, k: nat)
    requires k < |b|
    ensures |a| + k < |a + b| && (a + b)[|a| + k] == b[k]
  {
  }

  /** The headers open their blocks. */
  lemma LinesHeaders(ip: seq<Task>, td: seq<Task>)
    ensures |ip| > 0 ==> Lines(ip, td)[0] == InProgressHeader
    ensures |td| > 0 ==> ToDoStart(ip) < |Lines(ip, td)| && Lines(ip, td)[ToDoStart(ip)] == if |ip| > 0 then ThenHeader else StartHeader
  {
    if |ip| + |td| > 0 {
      LinesOfSections(ip, td);
      var a, b := InProgressSection(ip), ToDoSection(td, |ip| > 0);
      if |ip| > 0 {
        assert (a + b)[0] == a[0];
      }
      if |td| > 0 {
        assert (a + b)[|a|] == b[0];
      }
    }
  }

  /** The in-progress block opens the plan: its header, then one line per task in bucket order. */
  lemma LinesInProgressBlock(ip: seq<Task>, td: seq<Task>)
    ensures |ip| > 0 ==> Lines(ip, td)[0] == InProgressHeader
    ensures forall i :: 0 <= i < |ip| ==> 1 + i < |Lines(ip, td)| && Lines(ip, td)[1 + i] == InProgressLine(ip[i])
  {
    LinesHeaders(ip, td);
    forall i | 0 <= i < |ip| ensures 1 + i < |Lines(ip, td)| && Lines(ip, td)[1 + i] == InProgressLine(ip[i]) {
      LinesInProgressAt(ip, td, i);
    }
  }

  /** The to-do block follows the in-progress block: its header, then one line per task in bucket order. */
  lemma LinesToDoBlock(ip: seq<Task>, td: seq<Task>)
    ensures |td| > 0 ==> ToDoStart(ip) < |Lines(ip, td)| && Lines(ip, td)[ToDoStart(ip)] == if |ip| > 0 then ThenHeader else StartHeader
    ensures forall j :: 0 <= j < |td| ==> ToDoStart(ip) + 1 + j < |Lines(ip, td)| && Lines(ip, td)[ToDoStart(ip) + 1 + j] == ToDoLine(td[j])
  {
    LinesHeaders(ip, td);
    forall j | 0 <= j < |td| ensures ToDoStart(ip) + 1 + j < |Lines(ip, td)| && Lines(ip, td)[ToDoStart(ip) + 1 + j] == ToDoLine(td[j]) {
      LinesToDoAt(ip, td, j);
    }
  }

  /** The task positions of the plan hold lines starting with "- ". */
  lemma LinesDashes(ip: seq<Task>, td: seq<Task>, k: nat)
    requires k < |Lines(ip, td)|
    requires (|ip| > 0 && 1 <= k <= |ip|) || (|td| > 0 && ToDoStart(ip) < k)
    ensures |Lines(ip, td)[k]| > 0 && Lines(ip, td)[k][0] == '-'
  {
    if |ip| > 0 && 1 <= k <= |ip| {
      LinesInProgressAt(ip, td, k - 1);
      InProgressLineShape(ip[k - 1]);
    } else {
      LinesLength(ip, td);
      var j := k - ToDoStart(ip) - 1;
      LinesToDoAt(ip, td, j);
      ToDoLineShape(td[j]);
    }
  }

  /** The headers are single lines, and so are the task lines of titles without a newline. */
  lemma LineNoNewlineAt(ip: seq<Task>, td: seq<Task>, k: nat)
    requires forall t :: t in ip ==> '\n' !in t.title
    requires forall t :: t in td ==> '\n' !in t.title
    requires k < |Lines(ip, td)|
    ensures '\n' !in Lines(ip, td)[k]
  {
    LinesLength(ip, td);
    var start := ToDoStart(ip);
    if |ip| > 0 && 1 <= k <= |ip| {
      LinesInProgressAt(ip, td, k - 1);
      assert ip[k - 1] in ip;
      InProgressLineShape(ip[k - 1]);
    } else if |td| > 0 && start < k {
      var j := k - start - 1;
      LinesToDoAt(ip, td, j);
      assert td[j] in td;
      ToDoLineShape(td[j]);
    } else if |ip| > 0 && k == 0 {
      LinesHeaders(ip, td);
      InProgressHeaderSingleLine();
    } else if |td| > 0 {
      LinesHeaders(ip, td);
      ToDoHeadersSingleLines();
    } else {
      EmptyPlanSingleLine();
    }
  }

  lemma InProgressHeaderSingleLine()
    ensures '\n' !in InProgressHeader
  {
  }

  lemma ToDoHeadersSingleLines()
    ensures '\n' !in ThenHeader && '\n' !in StartHeader
  {
  }

  lemma EmptyPlanSingleLine()
    ensures '\n' !in EmptyPlan
  {
  }

  /** Where each in-progress line sits: right after the first header, in bucket order. */
  lemma PlanLayoutInProgress(tasks: seq<Task>)
    ensures var ip := Bucket(tasks, InProgress);
      && (|ip| > 0 ==> PlanParts(tasks)[0] == InProgressHeader)
      && (forall i :: 0 <= i < |ip| ==> 1 + i < |PlanParts(tasks)| && PlanParts(tasks)[1 + i] == InProgressLine(ip[i]))
  {
    LinesInProgressBlock(Bucket(tasks, InProgress), Bucket(tasks, ToDo));
  }

  /** Where each to-do line sits: after the whole in-progress block and the to-do header, in bucket order. */
  lemma PlanLayoutToDo(tasks: seq<Task>)
    ensures var ip, td := Bucket(tasks, InProgress), Bucket(tasks, ToDo);
      var start := ToDoStart(ip);
      && (|td| > 0 ==> PlanParts(tasks)[start] == if |ip| > 0 then ThenHeader else StartHeader)
      && (forall j :: 0 <= j < |td| ==> start + 1 + j < |PlanParts(tasks)| && PlanParts(tasks)[start + 1 + j] == ToDoLine(td[j]))
  {
    LinesToDoBlock(Bucket(tasks, InProgress), Bucket(tasks, ToDo));
  }

  /** The line of the `i`th in-progress task comes before the line of the `j`th to-do task. */
  lemma LinesOrder(ip: seq<Task>, td: seq<Task>, i: nat, j: nat)
    requires i < |ip| && j < |td|
    ensures 1 + i < |ip| + 2 + j < |Lines(ip, td)|
    ensures Lines(ip, td)[1 + i] == InProgressLine(ip[i]) && Lines(ip, td)[|ip| + 2 + j] == ToDoLine(td[j])
  {
    LinesInProgressAt(ip, td, i);
    LinesToDoAt(ip, td, j);
  }

  /** Every in-progress task's line comes before every to-do task's line. */
  lemma InProgressBeforeToDo(tasks: seq<Task>, i: nat, j: nat)
    requires i < |Bucket(tasks, InProgress)| && j < |Bucket(tasks, ToDo)|
    ensures exists k, m ::
      && 0 <= k < m < |PlanParts(tasks)|
      && PlanParts(tasks)[k] == InProgressLine(Bucket(tasks, InProgress)[i])
      && PlanParts(tasks)[m] == ToDoLine(Bucket(tasks, ToDo)[j])
  {
    var ip, td := Bucket(tasks, InProgress), Bucket(tasks, ToDo);
    var parts := PlanParts(tasks);
    assert parts == Lines(ip, td);
    LinesOrder(ip, td, i, j);
    var k, m := 1 + i, |ip| + 2 + j;
    assert parts[k] == InProgressLine(ip[i]);
    assert parts[m] == ToDoLine(td[j]);
    assert 0 <= k < m < |parts|;
  }

  /** The headers begin with 'F', 'T', 'S' and 'N': they differ from each other and from the task lines. */
  lemma HeaderInitials()
    ensures InProgressHeader[0] == 'F' && ThenHeader[0] == 'T' && StartHeader[0] == 'S' && EmptyPlan[0] == 'N'
  {
  }

  /** A line that does not start with '-' sits at a header position. */
  lemma HeaderAt(ip: seq<Task>, td: seq<Task>, k: nat)
    requires k < |Lines(ip, td)| && |Lines(ip, td)[k]| > 0 && Lines(ip, td)[k][0] != '-'
    ensures k == 0 || (|td| > 0 && k == ToDoStart(ip))
  {
    LinesLength(ip, td);
    if (|ip| > 0 && 1 <= k <= |ip|) || (|td| > 0 && ToDoStart(ip) < k) {
      LinesDashes(ip, td, k);
      assert false;
    }
  }

  /** What the line at each header position is. */
  lemma HeaderSlots(ip: seq<Task>, td: seq<Task>)
    ensures |Lines(ip, td)| > 0
    ensures Lines(ip, td)[0] ==
      if |ip| > 0 then InProgressHeader else if |td| > 0 then StartHeader else EmptyPlan
    ensures |td| > 0 ==> (ToDoStart(ip) < |Lines(ip, td)|
      && Lines(ip, td)[ToDoStart(ip)] == if |ip| > 0 then ThenHeader else StartHeader)
  {
    LinesLength(ip, td);
    LinesHeaders(ip, td);
  }

  /** Where a header can be found: at position 0 or at the to-do header's position, and which header that is. */
  lemma HeaderFound(ip: seq<Task>, td: seq<Task>, h: string)
    requires h == InProgressHeader || h == ThenHeader || h == StartHeader || h == EmptyPlan
    requires h in Lines(ip, td)
    ensures h == Lines(ip, td)[0] || (|td| > 0 && h == Lines(ip, td)[ToDoStart(ip)])
  {
    var k :| 0 <= k < |Lines(ip, td)| && Lines(ip, td)[k] == h;
    HeaderInitials();
    HeaderAt(ip, td, k);
  }

  /**
   The headers: the in-progress header exactly when some open task is in
   progress; "Then, tackle ..." exactly when both buckets are non-empty;
   "Start with ..." exactly when only the to-do bucket is; the
   congratulation exactly when both are empty.
   */
  lemma PlanHeaders(tasks: seq<Task>)
    ensures var ip, td := Bucket(tasks, InProgress), Bucket(tasks, ToDo);
      && (InProgressHeader in PlanParts(tasks) <==> |ip| > 0)
      && (ThenHeader in PlanParts(tasks) <==> |ip| > 0 && |td| > 0)
      && (StartHeader in PlanParts(tasks) <==> |ip| == 0 && |td| > 0)
      && (EmptyPlan in PlanParts(tasks) <==> |ip| == 0 && |td| == 0)
  {
    var ip, td := Bucket(tasks, InProgress), Bucket(tasks, ToDo);
    assert PlanParts(tasks) == Lines(ip, td);
    HeaderSlots(ip, td);
    HeaderInitials();
    if InProgressHeader in Lines(ip, td) {
      HeaderFound(ip, td, InProgressHeader);
    }
    if ThenHeader in Lines(ip, td) {
      HeaderFound(ip, td, ThenHeader);
    }
    if StartHeader in Lines(ip, td) {
      HeaderFound(ip, td, StartHeader);
    }
    if EmptyPlan in Lines(ip, td) {
      HeaderFound(ip, td, EmptyPlan);
    }
  }

  /** An open task is in exactly one bucket, so the two buckets together hold all the open tasks. */
  lemma BucketsCoverOpenTasks(tasks: seq<Task>)
    requires forall t :: t in tasks ==> IsOpen(t)
    ensures |Bucket(tasks, InProgress)| + |Bucket(tasks, ToDo)| == |tasks|
  {
    var any := (t: Task) => true;
    FilterPartitionLength(HasStatus(InProgress), HasStatus(ToDo), any, tasks);
    FilterKeepsAll(any, tasks);
  }

  /** The plan has one line per open task plus one per present header (one line in all when nothing is open). */
  lemma PlanLineCount(tasks: seq<Task>)
    requires forall t :: t in tasks ==> IsOpen(t)
    ensures |PlanParts(tasks)| ==
      if tasks == [] then 1
      else |tasks| + (if |Bucket(tasks, InProgress)| > 0 then 1 else 0) + (if |Bucket(tasks, ToDo)| > 0 then 1 else 0)
  {
    LinesLength(Bucket(tasks, InProgress), Bucket(tasks, ToDo));
    BucketsCoverOpenTasks(tasks);
  }

  /** When no title holds a newline, the lines of the plan text are exactly the plan's parts. */
  lemma PlanTextLines(tasks: seq<Task>)
    requires forall t :: t in tasks ==> '\n' !in t.title
    ensures Split(LocalPlan(tasks).plan, '\n') == PlanParts(tasks)
  {
    var ip, td := Bucket(tasks, InProgress), Bucket(tasks, ToDo);
    forall k | 0 <= k < |PlanParts(tasks)| ensures '\n' !in PlanParts(tasks)[k] {
      LineNoNewlineAt(ip, td, k);
    }
    SplitJoin(PlanParts(tasks), '\n');
  }

  /** With no open task the plan is the congratulation alone and the estimate is one hour. */
  lemma NoOpenTasks(user: User, table: seq<Task>)
    requires OpenTasks(user, table) == []
    ensures LocalPlan(OpenTasks(user, table)) == PlanBody(EmptyPlan, 1, Some(LocalNote))
  {
  }

  /** A report in progress for 90 minutes and a review to do for 30: the exact plan text and two hours. */
  lemma ReportAndReview(user: User)
    ensures var report := Task(1, "Write report", "", InProgress, 90, user.id, None, 2, 2);
      var review := Task(2, "Review PR", "", ToDo, 30, user.id, None, 1, 1);
      LocalPlan(OpenTasks(user, [report, review])) == PlanBody(
        "First, continue working " + "on your in-progress tasks:" + "\n"
        + "- Write report (already started)" + "\n"
        + "Then, tackle these new tasks:" + "\n"
        + "- Review PR",
        2, Some(LocalNote))
  {
    var report := Task(1, "Write report", "", InProgress, 90, user.id, None, 2, 2);
    var review := Task(2, "Review PR", "", ToDo, 30, user.id, None, 1, 1);
    ReportAndReviewSelection(user, report, review);
    ReportAndReviewText(report, review);
  }

  lemma ReportAndReviewText(report: Task, review: Task)
    requires report.title == "Write report" && report.status == InProgress
    requires review.title == "Review PR" && review.status == ToDo
    ensures Join(Lines([report], [review]), '\n') ==
        "First, continue working " + "on your in-progress tasks:" + "\n"
        + "- Write report (already started)" + "\n"
        + "Then, tackle these new tasks:" + "\n"
        + "- Review PR"
  {
    ReportAndReviewLines(report, review);
    JoinFour(InProgressHeader, InProgressLine(report), ThenHeader, ToDoLine(review), '\n');
    ReportLine(report);
    ReviewLine(review);
  }

  lemma ReportLine(report: Task)
    requires report.title == "Write report"
    ensures InProgressLine(report) == "- Write report (already started)"
  {
  }

  lemma ReviewLine(review: Task)
    requires review.title == "Review PR"
    ensures ToDoLine(review) == "- Review PR"
  {
  }

  lemma ReportAndReviewLines(report: Task, review: Task)
    requires report.status == InProgress && review.status == ToDo
    ensures Lines([report], [review]) == [InProgressHeader, InProgressLine(report), ThenHeader, ToDoLine(review)]
  {
    LinesLength([report], [review]);
    LinesInProgressBlock([report], [review]);
    LinesToDoBlock([report], [review]);
  }

  /** Joining four lines puts the separator between neighbours. */
  lemma JoinFour(a: string, b: string, c: string, d: string, sep: char)
    ensures Join([a, b, c, d], sep) == a + [sep] + b + [sep] + c + [sep] + d
  {
    var parts := [a, b, c, d];
    assert parts[1..] == [b, c, d] && parts[1..][1..] == [c, d] && parts[1..][1..][1..] == [d];
    assert Join([c, d], sep) == c + [sep] + d;
    assert Join([b, c, d], sep) == b + [sep] + (c + [sep] + d);
    assert Join(parts, sep) == a + [sep] + (b + [sep] + (c + [sep] + d));
  }

  lemma ReportAndReviewSelection(user: User, report: Task, review: Task)
    requires report == Task(1, "Write report", "", InProgress, 90, user.id, None, 2, 2)
    requires review == Task(2, "Review PR", "", ToDo, 30, user.id, None, 1, 1)
    ensures OpenTasks(user, [report, review]) == [report, review]
    ensures Bucket([report, review], InProgress) == [report] && Bucket([report, review], ToDo) == [review]
    ensures EstimatedHours([report, review]) == 2
  {
    var tasks := [report, review];
    assert tasks[1..] == [review] && [review][1..] == [];
    assert Filter(OpenFor(user.id), [review]) == [review];
    assert Filter(HasStatus(InProgress), [review]) == [];
    assert Filter(HasStatus(ToDo), [review]) == [review];
    EstimateTwo(report, review);
  }

  lemma EstimateTwo(a: Task, b: Task)
    requires a.totalMinutes == 90 && b.totalMinutes == 30
    ensures EstimatedHours([a, b]) == 2
  {
    SumTwo(a, b);
    assert RoundHours(120) == 2;
  }

  lemma SumTwo(a: Task, b: Task)
    ensures SumMinutes([a, b]) == a.totalMinutes + b.totalMinutes
  {
    assert [a, b][1..] == [b];
    SumOne(b);
  }

  lemma SumOne(a: Task)
    ensures SumMinutes([a]) == a.totalMinutes
  {
    assert [a][1..] == [];
  }

  /**
   Rounding is half to even: 30 minutes round to 0 hours, which the estimate
   raises to 1; 90 and 150 minutes both round to 2, and 210 to 4.
   */
  lemma EstimateTies(t: Task)
    ensures RoundHours(30) == 0 && RoundHours(90) == 2 && RoundHours(150) == 2
    ensures RoundHours(-30) == 0 && RoundHours(-90) == -2
    ensures EstimatedHours([t.(totalMinutes := 30)]) == 1 && EstimatedHours([t.(totalMinutes := 90)]) == 2
    ensures EstimatedHours([t.(totalMinutes := 150)]) == 2 && EstimatedHours([t.(totalMinutes := 210)]) == 4
    ensures EstimatedHours([]) == 1 && EstimatedHours([t.(totalMinutes := -90)]) == 1
  {
    SumOne(t.(totalMinutes := 30));
    SumOne(t.(totalMinutes := 90));
    SumOne(t.(totalMinutes := 150));
    SumOne(t.(totalMinutes := 210));
    SumOne(t.(totalMinutes := -90));
  }
}
