/**
 The older function view `daily_plan` of backend/tasks/ai.py. It selects
 only the tasks assigned to the requester that are not DONE, formats them
 as `- {title} ({status})`, and asks the language model with a prompt
 whose only interpolation is the username: the expression
 `"\n".join(task_list)` stands outside the braces of the f-string, so it
 reaches the model as text. Any failure is answered with a stub plan and
 status 503. The remote call is the oracle `complete`, given the configured
 API key (checked by nobody here) and the prompt; `json.loads` is `loads`.
 */
module LegacyPlan {
  import opened Wrappers
  import opened TaskModel
  import opened Selection
  import opened Responses
  import DailyPlan

  /** `f"- {task.title} ({task.status})"`: a dash line from which the title and the stored status read back. */
  function LegacyTaskLine(t: Task): (r: string)
    ensures |r| == |t.title| + |StatusValue(t.status)| + 5 && r[..2] == "- "
    ensures r[2..2 + |t.title|] == t.title
    ensures r[2 + |t.title|..4 + |t.title|] == " (" && r[|r| - 1] == ')'
    ensures ParseStatus(r[|t.title| + 4..|r| - 1]) == Some(t.status)
  {
    var r := "- " + t.title + " (" + StatusValue(t.status) + ")";
    assert r[|t.title| + 4..|r| - 1] == StatusValue(t.status);
    ParseStatusValue(t.status);
    r
  }

  /** `task_list`, in query order: one line per task, naming its title and status. */
  function TaskList(tasks: seq<Task>): (r: seq<string>)
    ensures |r| == |tasks|
    ensures forall i :: 0 <= i < |tasks| ==> r[i] == LegacyTaskLine(tasks[i])
    ensures forall i :: 0 <= i < |tasks| ==>
      |r[i]| == |tasks[i].title| + |StatusValue(tasks[i].status)| + 5 && r[i][2..2 + |tasks[i].title|] == tasks[i].title
      && ParseStatus(r[i][|tasks[i].title| + 4..|r[i]| - 1]) == Some(tasks[i].status)
  {
    seq(|tasks|, i requires 0 <= i < |tasks| => LegacyTaskLine(tasks[i]))
  }

  // The prompt's fixed text. The `\n` inside the f-string is an escape, so
  // the quoted join expression spans two lines of the prompt.
  // Texts longer than about forty characters are written as concatenations of
  // shorter literals; the proofs that look at their characters stay small that way.
  const Opening := "\n    User "
  const TasksForToday := " has the following tasks for today:\n"
  const QuotedJoin := "    \"\n\".join(task_list)\n\n"
  const Instructions := "    Please generate a concise, " + "actionable daily plan. "
    + "Prioritize 'IN_PROGRESS' tasks.\n"
    + "    Suggest an order to tackle them " + "and estimate a rough timeline.\n"
    + "    Return the response in a clear " + "JSON format with two fields: "
    + "'plan' (string) and " + "'estimated_hours' (number).\n    "

  /** The text of the unevaluated join expression as the model receives it. */
  const JoinExpression := "\"\n\".join(task_list)"

  /** The f-string `prompt` for a user with the given username: the username right after the opening, then fixed text. */
  function LegacyPrompt(username: string): (r: string)
    ensures |r| == |Opening| + |username| + |TasksForToday| + |QuotedJoin| + |Instructions|
    ensures r[..|Opening|] == Opening && r[|Opening|..|Opening| + |username|] == username
    ensures r[|Opening| + |username|..] == TasksForToday + QuotedJoin + Instructions
  {
    PartsOfConcat(Opening, username, TasksForToday + QuotedJoin + Instructions);
    Opening + username + (TasksForToday + QuotedJoin + Instructions)
  }

  /** The three parts of a concatenation are its slices. */
  lemma PartsOfConcat(x: string, u: string, rest: string)
    ensures |x + u + rest| == |x| + |u| + |rest|
    ensures (x + u + rest)[..|x|] == x && (x + u + rest)[|x|..|x| + |u|] == u && (x + u + rest)[|x| + |u|..] == rest
  {
  }

  const StubPlan := "Complete all tasks in order of priority. " + "Focus on in-progress items first."

  /** The `except` branch's answer: the stub plan, four hours, no note, status 503. */
  const StubResponse := Response(StatusServiceUnavailable, Plan(PlanBody(StubPlan, 4, None)))

  /** The response, the key and prompt the model was called with, and the task list the view built. */
  datatype LegacyOutcome = LegacyOutcome(response: Response, sent: (Option<string>, string), taskList: seq<string>)

  /** `daily_plan(request)` of the older module: the parsed reply with status 200, or the stub with 503. */
  function LegacyDailyPlan(user: User, table: seq<Task>, key: Option<string>,
                           complete: (Option<string>, string) -> Completion, loads: string -> Option<Json>): (r: LegacyOutcome)
    ensures r.response.status == StatusOk <==> Parsed(complete(key, LegacyPrompt(user.username)), loads).Some?
    ensures r.response.status == StatusOk ==>
      r.response.body == Verbatim(Parsed(complete(key, LegacyPrompt(user.username)), loads).value)
    ensures r.response.status != StatusOk ==> r.response == StubResponse
  {
    var taskList := TaskList(AssignedOpenTasks(user, table));
    var prompt := LegacyPrompt(user.username);
    var reply := Parsed(complete(key, prompt), loads);
    if reply.Some? then LegacyOutcome(Response(StatusOk, Verbatim(reply.value)), (key, prompt), taskList)
    else LegacyOutcome(StubResponse, (key, prompt), taskList)
  }

  /** The model is always called, whatever the key, with the key as configured and the prompt for the user's name. */
  lemma AlwaysCallsModel(user: User, table: seq<Task>, key: Option<string>,
                         complete: (Option<string>, string) -> Completion, loads: string -> Option<Json>)
    ensures LegacyDailyPlan(user, table, key, complete, loads).sent == (key, LegacyPrompt(user.username))
    ensures LegacyDailyPlan(user, table, key, complete, loads).taskList == TaskList(AssignedOpenTasks(user, table))
  {
  }

  /** The prompt does not depend on the tasks: two tables give the same prompt, hence the same model call. */
  lemma PromptIgnoresTasks(user: User, table1: seq<Task>, table2: seq<Task>, key: Option<string>,
                           complete: (Option<string>, string) -> Completion, loads: string -> Option<Json>)
    ensures LegacyDailyPlan(user, table1, key, complete, loads).sent == LegacyDailyPlan(user, table2, key, complete, loads).sent
    ensures LegacyDailyPlan(user, table1, key, complete, loads).response == LegacyDailyPlan(user, table2, key, complete, loads).response
  {
  }

  /** The prompt holds the join expression itself, right after the line that introduces the tasks. */
  lemma PromptQuotesJoin(username: string)
    ensures var p, i := LegacyPrompt(username), |Opening| + |username| + |TasksForToday| + 4;
      i + |JoinExpression| <= |p| && p[i..i + |JoinExpression|] == JoinExpression
  {
    var p, m, n := LegacyPrompt(username), |Opening| + |username|, |JoinExpression|;
    var rest := TasksForToday + QuotedJoin + Instructions;
    assert p[m..] == rest;
    assert QuotedJoin[4..4 + n] == JoinExpression;
    SliceOfMiddle(TasksForToday, QuotedJoin, Instructions, 4, n);
    SliceOfSuffix(p, m, |TasksForToday| + 4, n);
  }

  /** A slice of a suffix is a slice of the whole, shifted by where the suffix starts. */
  lemma SliceOfSuffix(s: string, m: nat, a: nat, n: nat)
    requires m + a + n <= |s|
    ensures s[m..][a..a + n] == s[m + a..m + a + n]
  {
  }

  /** A slice that lies inside the middle part of a concatenation is a slice of that part. */
  lemma SliceOfMiddle(x: string, y: string, z: string, k: nat, n: nat)
    requires k + n <= |y|
    ensures (x + y + z)[|x| + k..|x| + k + n] == y[k..k + n]
  {
    var s := x + y + z;
    forall j | |x| + k <= j < |x| + k + n
      ensures s[j] == y[j - |x|]
    {
    }
  }

  /** The username is the prompt's only variable part, and the prompt tells users apart by it. */
  lemma PromptDeterminesUsername(a: string, b: string)
    requires LegacyPrompt(a) == LegacyPrompt(b)
    ensures a == b
  {
    var p := LegacyPrompt(a);
    assert |a| == |b|;
    assert a == p[|Opening|..|Opening| + |a|] == b;
  }

  /** A parsed reply is answered as it is, with status 200. */
  lemma ReplyPassedThrough(user: User, table: seq<Task>, key: Option<string>,
                           complete: (Option<string>, string) -> Completion, loads: string -> Option<Json>, reply: Json)
    requires Parsed(complete(key, LegacyPrompt(user.username)), loads) == Some(reply)
    ensures LegacyDailyPlan(user, table, key, complete, loads).response == Response(StatusOk, Verbatim(reply))
  {
  }

  /** Any failure, a missing key included, is answered with the stub: status 503 and no note. */
  lemma FailureGivesStub(user: User, table: seq<Task>, key: Option<string>,
                         complete: (Option<string>, string) -> Completion, loads: string -> Option<Json>)
    requires var c := complete(key, LegacyPrompt(user.username));
      c.Raised? || c.text.None? || loads(c.text.value).None?
    ensures var r := LegacyDailyPlan(user, table, key, complete, loads).response;
      r.status == StatusServiceUnavailable && r.body == Plan(PlanBody(StubPlan, 4, None))
  {
  }

  /** Every line of the task list belongs to a task assigned to the user and ends in "(TO_DO)" or "(IN_PROGRESS)". */
  lemma TaskListOfOpenAssigned(user: User, table: seq<Task>, line: string)
    requires line in TaskList(AssignedOpenTasks(user, table))
    ensures exists t :: (t in table && t.assignedTo == Some(user.id)
      && (line == "- " + t.title + " (" + "TO_DO" + ")" || line == "- " + t.title + " (" + "IN_PROGRESS" + ")"))
  {
    var tasks := AssignedOpenTasks(user, table);
    var i :| 0 <= i < |tasks| && TaskList(tasks)[i] == line;
    var t := tasks[i];
    assert t in tasks;
    assert line == LegacyTaskLine(t);
    if t.status == ToDo {
      assert line == "- " + t.title + " (" + "TO_DO" + ")";
    } else {
      assert t.status == InProgress;
      assert line == "- " + t.title + " (" + "IN_PROGRESS" + ")";
    }
  }

  /**
   The older and the newer endpoint answer a failure differently: the older
   one with status 503 and a plan without note, the newer one with status
   200 and the "default plan" note; the older stub is the first two
   sentences of the newer generic plan.
   */
  lemma FailureContractsDiffer()
    ensures StubResponse.status == StatusServiceUnavailable && DailyPlan.GenericFallback.status == StatusOk
    ensures StubResponse.body.planBody.note.None? && DailyPlan.GenericFallback.body.planBody.note == Some(DailyPlan.GenericNote)
    ensures |StubPlan| < |DailyPlan.GenericPlan| && DailyPlan.GenericPlan[..|StubPlan|] == StubPlan
  {
    var first := "Complete all tasks in order of priority. ";
    assert DailyPlan.GenericPlan == first + "Focus on in-progress items first. " + "Start with the most time-sensitive tasks.";
    assert "Focus on in-progress items first. " == "Focus on in-progress items first." + " ";
  }
}
