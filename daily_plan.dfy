/**
 `AIViewSet.daily_plan` and `AIViewSet._get_fallback_response` of
 backend/tasks/views.py: validate the (empty) request, collect the user's
 open tasks for the prompt, and either pass the language model's parsed
 reply through or answer with the fallback. The remote call is the oracle
 `complete`, given the API key and the prompt; `json.loads` is the oracle
 `loads`.
 */
module DailyPlan {
  import opened Wrappers
  import opened TaskModel
  import opened Selection
  import opened Responses
  import opened LocalPlanner

  // The generic fallback's texts. Texts longer than about
  // forty characters are written as concatenations of shorter literals; the
  // proofs that look at their characters stay small that way.
  const GenericPlan := "Complete all tasks in order of priority. " + "Focus on in-progress items first. "
    + "Start with the most time-sensitive tasks."
  const GenericNote := "AI service is currently unavailable. " + "This is a default plan."

  /** The generic fallback: a fixed plan of four hours with the "default plan" note. */
  const GenericFallback := Response(StatusOk, Plan(PlanBody(GenericPlan, 4, Some(GenericNote))))

  /** `request.data`: a mapping with some keys, or some other JSON value, truthy or not. */
  datatype RequestData = Mapping(keys: set<string>) | NonMapping(truthy: bool)

  /** `AIDailyPlanRequestSerializer` declares no field, so it accepts exactly the mappings, whatever keys they hold. */
  predicate RequestValid(data: RequestData)
  {
    data.Mapping?
  }

  predicate Truthy(data: RequestData)
  {
    match data
    case Mapping(keys) => keys != {}
    case NonMapping(truthy) => truthy
  }

  /** `serializer.is_valid() or not request.data`. */
  predicate Proceeds(data: RequestData)
  {
    RequestValid(data) || !Truthy(data)
  }

  /** One entry of `task_list`. */
  datatype TaskRecord = TaskRecord(title: string, status: string, timeEstimate: int)

  function RecordOf(t: Task): TaskRecord
  {
    TaskRecord(t.title, StatusValue(t.status), t.totalMinutes)
  }

  /** What the prompt is built from: the username and the task list (its wording is fixed text). */
  datatype Prompt = Prompt(username: string, tasks: seq<TaskRecord>)

  /** The prompt's data: the username and one record per open task, in query order, none of them DONE. */
  function PromptFor(user: User, table: seq<Task>): (r: Prompt)
    ensures r.username == user.username && |r.tasks| == |OpenTasks(user, table)|
    ensures forall i :: 0 <= i < |r.tasks| ==>
      r.tasks[i].title == OpenTasks(user, table)[i].title && r.tasks[i].status != "DONE"
  {
    var open := OpenTasks(user, table);
    OpenStatusesNotDone(open);
    Prompt(user.username, seq(|open|, i requires 0 <= i < |open| => RecordOf(open[i])))
  }

  /** No open task has the stored status "DONE". */
  lemma OpenStatusesNotDone(tasks: seq<Task>)
    requires forall t :: t in tasks ==> IsOpen(t)
    ensures forall i :: 0 <= i < |tasks| ==> StatusValue(tasks[i].status) != "DONE"
  {
    forall i | 0 <= i < |tasks|
      ensures StatusValue(tasks[i].status) != "DONE"
    {
      assert tasks[i] in tasks;
      StatusValueInjective(tasks[i].status, Done);
    }
  }

  /** The response and, when the model was called, the API key and prompt it was called with. */
  datatype Outcome = Outcome(response: Response, sent: Option<(string, Prompt)>)

  /** `settings.OPENAI_API_KEY` is truthy: set and non-empty. */
  predicate KeyConfigured(key: Option<string>)
  {
    key.Some? && key.value != ""
  }

  /** `_get_fallback_response(user)`: the local plan when a user is given, the generic plan otherwise. */
  function FallbackResponse(user: Option<User>, table: seq<Task>): (r: Response)
    ensures r.status == StatusOk && r.body.Plan?
    ensures user.Some? ==> r.body.planBody == LocalPlan(OpenTasks(user.value, table))
    ensures user.None? ==> r == GenericFallback
  {
    match user
    case Some(u) => Response(StatusOk, Plan(LocalPlan(OpenTasks(u, table))))
    case None => GenericFallback
  }

  /**
   The `try` block and its handlers; every handler calls
   `_get_fallback_response()` without a user. The model is called exactly
   when a key is configured; whatever is not a passed-through reply is the
   generic fallback, and the status is always 200.
   */
  function Answer(key: Option<string>, prompt: Prompt, table: seq<Task>,
                  complete: (string, Prompt) -> Completion, loads: string -> Option<Json>): (r: Outcome)
    ensures r.sent.Some? <==> KeyConfigured(key)
    ensures r.sent.Some? ==> r.sent.value == (key.value, prompt)
    ensures r.response.status == StatusOk
    ensures !r.response.body.Verbatim? ==> r.response == GenericFallback
  {
    if !KeyConfigured(key) then Outcome(FallbackResponse(None, table), None)
    else
      var reply := Parsed(complete(key.value, prompt), loads);
      if reply.Some? then Outcome(Response(StatusOk, Verbatim(reply.value)), Some((key.value, prompt)))
      else Outcome(FallbackResponse(None, table), Some((key.value, prompt)))
  }

  /**
   The whole endpoint for a request from `user`: 400 exactly for a refused
   request; otherwise the model is called, exactly when a key is configured,
   with that key and the prompt's data for the user.
   */
  function Respond(data: RequestData, user: User, table: seq<Task>, key: Option<string>,
                   complete: (string, Prompt) -> Completion, loads: string -> Option<Json>): (r: Outcome)
    ensures r.response.status == StatusBadRequest <==> !Proceeds(data)
    ensures r.sent.Some? <==> Proceeds(data) && KeyConfigured(key)
    ensures r.sent.Some? ==> r.sent.value == (key.value, PromptFor(user, table))
  {
    if Proceeds(data) then Answer(key, PromptFor(user, table), table, complete, loads)
    else Outcome(Response(StatusBadRequest, ValidationErrors), None)
  }

  /** The loop that builds `task_list` from the open tasks. */
  method BuildTaskList(tasks: seq<Task>) returns (list: seq<TaskRecord>)
    ensures |list| == |tasks|
    ensures forall i :: 0 <= i < |tasks| ==> list[i] == TaskRecord(tasks[i].title, StatusValue(tasks[i].status), tasks[i].totalMinutes)
  {
    list := [];
    for i := 0 to |tasks|
      invariant |list| == i
      invariant forall k :: 0 <= k < i ==> list[k] == RecordOf(tasks[k])
    {
      list := list + [RecordOf(tasks[i])];
    }
  }

  /** `daily_plan(request)`: query, build the task list, then call the model or fall back. */
  method DailyPlanEndpoint(data: RequestData, user: User, table: seq<Task>, key: Option<string>,
                           complete: (string, Prompt) -> Completion, loads: string -> Option<Json>)
    returns (o: Outcome)
    ensures o == Respond(data, user, table, key, complete, loads)
  {
    if !Proceeds(data) {
      return Outcome(Response(StatusBadRequest, ValidationErrors), None);
    }
    var tasks := OpenTasks(user, table);
    var taskList := BuildTaskList(tasks);
    var prompt := Prompt(user.username, taskList);
    assert prompt == PromptFor(user, table);
    if !KeyConfigured(key) {
      return Outcome(FallbackResponse(None, table), None);
    }
    var reply := Parsed(complete(key.value, prompt), loads);
    if reply.Some? {
      o := Outcome(Response(StatusOk, Verbatim(reply.value)), Some((key.value, prompt)));
    } else {
      o := Outcome(FallbackResponse(None, table), Some((key.value, prompt)));
    }
  }

  /** Any mapping, and any empty request body, passes validation; only a non-empty non-mapping is refused, with 400. */
  lemma RequestValidation(data: RequestData, user: User, table: seq<Task>, key: Option<string>,
                          complete: (string, Prompt) -> Completion, loads: string -> Option<Json>)
    ensures Proceeds(data) <==> data.Mapping? || !data.truthy
    ensures !Truthy(data) ==> Proceeds(data)
    ensures !Proceeds(data) ==> Respond(data, user, table, key, complete, loads) == Outcome(Response(StatusBadRequest, ValidationErrors), None)
  {
  }

  /** Without an API key the model is never called and the answer is the generic fallback with status 200. */
  lemma MissingKeySkipsModel(data: RequestData, user: User, table: seq<Task>, key: Option<string>,
                             complete: (string, Prompt) -> Completion, loads: string -> Option<Json>)
    requires Proceeds(data) && !KeyConfigured(key)
    ensures Respond(data, user, table, key, complete, loads) == Outcome(GenericFallback, None)
  {
  }

  /** With a key, the model is called once, with that key and a prompt listing exactly the user's open tasks in table order. */
  lemma ModelSeesOpenTasks(data: RequestData, user: User, table: seq<Task>, key: Option<string>,
                           complete: (string, Prompt) -> Completion, loads: string -> Option<Json>)
    requires Proceeds(data) && KeyConfigured(key)
    ensures var o := Respond(data, user, table, key, complete, loads);
      && o.sent.Some? && o.sent.value.0 == key.value && o.sent.value.1.username == user.username
      && |o.sent.value.1.tasks| == |OpenTasks(user, table)|
      && forall i :: 0 <= i < |OpenTasks(user, table)| ==> o.sent.value.1.tasks[i] == RecordOf(OpenTasks(user, table)[i])
  {
  }

  /** No DONE task reaches the prompt. */
  lemma PromptHasNoDoneTask(user: User, table: seq<Task>, r: TaskRecord)
    requires r in PromptFor(user, table).tasks
    ensures r.status != "DONE"
    ensures exists t :: t in table && Involves(user.id, t) && IsOpen(t) && r == RecordOf(t)
  {
    var open := OpenTasks(user, table);
    var i :| 0 <= i < |open| && PromptFor(user, table).tasks[i] == r;
    assert open[i] in open;
    StatusValueInjective(open[i].status, Done);
  }

  /** When the model's parsed reply exists it is answered as it is, with status 200, whatever its shape. */
  lemma ReplyPassedThrough(data: RequestData, user: User, table: seq<Task>, key: Option<string>,
                           complete: (string, Prompt) -> Completion, loads: string -> Option<Json>, reply: Json)
    requires Proceeds(data) && KeyConfigured(key)
    requires Parsed(complete(key.value, PromptFor(user, table)), loads) == Some(reply)
    ensures Respond(data, user, table, key, complete, loads).response == Response(StatusOk, Verbatim(reply))
  {
  }

  /** Any failure (a raised exception, missing content, content that is not JSON) gives the generic fallback with status 200. */
  lemma FailureGivesGenericPlan(data: RequestData, user: User, table: seq<Task>, key: Option<string>,
                                complete: (string, Prompt) -> Completion, loads: string -> Option<Json>)
    requires Proceeds(data) && KeyConfigured(key)
    requires var c := complete(key.value, PromptFor(user, table));
      c.Raised? || c.text.None? || loads(c.text.value).None?
    ensures Respond(data, user, table, key, complete, loads).response == GenericFallback
  {
  }

  lemma NotesDiffer()
    ensures GenericNote != LocalNote
  {
    assert GenericNote[0] == 'A' && LocalNote[0] == 'G';
  }

  /**
   Every handler calls the fallback without a user, so the endpoint never
   answers with a locally computed plan: every answer is the model's reply,
   the generic plan or the 400 for a refused request, and the status is
   never 503.
   */
  lemma LocalPlanUnreachable(data: RequestData, user: User, table: seq<Task>, key: Option<string>,
                             complete: (string, Prompt) -> Completion, loads: string -> Option<Json>)
    ensures var r := Respond(data, user, table, key, complete, loads).response;
      && (r.body.Plan? ==> r == GenericFallback)
      && (r.body.Plan? ==> r.body.planBody.note != Some(LocalNote))
      && (r.status == StatusOk || r.status == StatusBadRequest)
  {
    NotesDiffer();
  }

  /** Without an API key, whatever the user's tasks: the endpoint answers the generic plan, not the plan `_get_fallback_response(user)` would give. */
  lemma FallbackIgnoresUser(data: RequestData, user: User, table: seq<Task>, key: Option<string>,
                            complete: (string, Prompt) -> Completion, loads: string -> Option<Json>)
    requires Proceeds(data) && !KeyConfigured(key)
    ensures Respond(data, user, table, key, complete, loads).response != FallbackResponse(Some(user), table)
  {
    NotesDiffer();
  }
}
