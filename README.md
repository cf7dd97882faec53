# Daily-plan core of the task manager, in Dafny

This project models the tasks app of a Django task manager. Users create tasks,
set their status freely to any of TO_DO, IN_PROGRESS and DONE, and ask for a "daily plan" of
their unfinished work. The plan comes from a language model, with fixed
fallbacks when the model cannot be used. The model covers:

- **`TaskModel`** (backend/tasks/models.py). It holds the `Task` record, its three status choices with their stored values, the field defaults, the 255-character title bound, the newest-first natural order and the two `on_delete` rules.
- **`Selection`** (backend/tasks/views.py, backend/tasks/ai.py). It holds the queries, modelled as order-preserving filters over the table:
  - `TaskViewSet.get_queryset`: an admin sees everything; anyone else sees the tasks they created or are assigned to.
  - The daily plan's open-task query: created-by or assigned-to, minus DONE.
  - The older endpoint's query: assigned-to, minus DONE.
- **`LocalPlanner`** (`AIViewSet._generate_local_plan`). It splits the open tasks into buckets, builds the list `plan_parts` with loops, joins it with newlines, and estimates `max(1, round(total / 60))` hours. It is helped by:
  - `Text`: `"\n".join` and its inverse `split`;
  - `Rounding`: Python's round-half-to-even of minutes / 60.
- **`DailyPlan`** (`AIViewSet.daily_plan` and `_get_fallback_response`). It covers request validation, the task list sent to the model, the API-key check, the model's reply passed through, and the fallback on every failure.
- **`LegacyPlan`** (backend/tasks/ai.py). This is the older function view. Its own selection feeds a task list, but the prompt does not use it. It always calls the model, and answers every failure with a stub and status 503.
- **`TaskStore`** (backend/tasks/serializers.py and the `status` action). A `Store` class holds the table as a map from primary key to task. Methods:
  - create a task: validation, read-only fields ignored, creator set to the requester;
  - patch a task's status: lookup restricted to the visible tasks, only `status` written;
  - delete a user: cascade and set-null.
- **`Responses`** and **`Wrappers`**. These hold the response bodies and statuses, the JSON values `json.loads` yields, the outcome of the remote call, and the stock `Option`/`Result` types.

The outside world enters as parameters:
- the chat-completion call is an oracle `complete` from the API key and the prompt to a `Completion` (content or a raised exception);
- `json.loads` is an oracle `loads` from text to an optional JSON value;
- `settings.OPENAI_API_KEY` is an `Option<string>`;
- the clock is an integer `now`;
- usernames are a function from user id to name.

The views endpoint's prompt is modelled by what it is built from: the username
and the list of task records. The older endpoint's prompt is modelled as its
exact text.

The endpoint never uses the local planner. `_get_fallback_response(user=None)`
builds a local plan when it is given a user (backend/tasks/views.py:159-163).
But every handler in `daily_plan` calls it without one (backend/tasks/views.py:90, 104, 108, 112):
- so the endpoint always answers a failure with the fixed generic plan and status 200;
- the local planner is reachable only through a direct call of `_get_fallback_response(user)` or of `_generate_local_plan(user)`.

`DailyPlan.LocalPlanUnreachable` and `DailyPlan.FallbackIgnoresUser` state this.
The local planner is still modelled and proved in full, as the function the
code defines.

## Model

| member | source | states |
|---|---|---|
| TaskModel.StatusValue | backend/tasks/models.py:8-11 | each choice's stored value, between 2 and 20 characters so it fits the column's max_length of 20 |
| TaskModel.ParseStatus | backend/tasks/models.py:15-19 | a raw value is accepted only as the status whose stored value it is |
| TaskModel.ParseStatusValue | backend/tasks/models.py:8-11 | parsing a stored value gives back its status, so every status is a valid choice |
| TaskModel.StatusValueInjective | backend/tasks/models.py:8-11 | two statuses have the same stored value exactly when they are equal |
| TaskModel.NewTask | backend/tasks/models.py:13-34 | a task created with only a title has status TO_DO, 0 minutes, an empty description, no assignee, and both timestamps equal to the creation time |
| TaskModel.AfterUserDeleted | backend/tasks/models.py:26-32 | deleting the assignee clears `assigned_to` and changes no other field |
| TaskModel.DeleteUser | backend/tasks/models.py:21-32 | tasks the deleted user created are removed; every other task survives with the assignee rule applied |
| TaskModel.DeleteUserForgetsUser | backend/tasks/models.py:21-32 | after the deletion no task names the user; a task that never named the user is unchanged |
| Selection.Filter | backend/tasks/views.py:126-127 | the kept elements are exactly the input's elements that satisfy the predicate, and the result is no longer than the input |
| Selection.FilterKeepsNewestFirst | backend/tasks/models.py:38 | filtering a newest-first table keeps it newest-first, so every query and bucket inherits the natural order |
| Selection.FilterPartitionLength | backend/tasks/views.py:126-127 | two disjoint filters together keep as many elements as the filter by their union |
| Selection.Visible | backend/tasks/views.py:28-35 | an admin's queryset is the whole table; anyone else's holds exactly the tasks they created or are assigned to |
| Selection.OpenTasks | backend/tasks/views.py:63-65 | the plan's tasks are exactly the table's tasks that involve the user and are not DONE |
| Selection.AssignedOpenTasks | backend/tasks/ai.py:18 | the older query holds exactly the tasks assigned to the user whose status is not DONE |
| Selection.OpenTasksAreVisibleOpen | backend/tasks/views.py:63-65 | for a non-admin, the plan's tasks are the open tasks of their queryset, in the same order |
| Selection.AdminPlanIgnoresOthersTasks | backend/tasks/views.py:63-65 | an admin sees a task of other users but does not get it in the daily plan |
| Selection.AssignedOpenTasksNarrower | backend/tasks/ai.py:18 | the older selection is the part of the newer one that is assigned to the user, in the same order |
| Selection.CreatedOnlyTaskExcludedByLegacy | backend/tasks/ai.py:18 | an open task the user created but is not assigned to is in the newer selection and not in the older one |
| Text.Join | backend/tasks/views.py:153 | joining no part gives the empty text and joining one part gives that part; `SplitJoin` states the inverse for more |
| Text.TrimStart | backend/tasks/serializers.py:16-19 | `lstrip`: a suffix of the input whose dropped prefix is all white space and which does not start with white space |
| Text.TrimEnd | backend/tasks/serializers.py:16-19 | `rstrip`: a prefix of the input whose dropped suffix is all white space and which does not end with white space |
| Text.Strip | backend/tasks/serializers.py:16-19 | `strip`: the slice of the input that starts right after its leading white space (`LeadingSpace`) and is followed only by white space; neither end of the result is white space, and it is empty exactly when the input is all white space |
| Text.StripKeeps | backend/tasks/serializers.py:16-19 | a character that is not white space, NUL among them, is in the stripped text exactly when it is in the input |
| Text.StripIdempotent | backend/tasks/serializers.py:16-19 | stripping twice is stripping once |
| Text.SplitJoin | backend/tasks/views.py:153 | splitting `"\n".join(parts)` at newlines gives the parts back when no part holds a newline |
| Rounding.RoundHours | backend/tasks/views.py:150 | the result is within half an hour of the minutes, and even on a tie: Python's round to nearest, ties to even |
| Rounding.RoundHoursUnique | backend/tasks/views.py:150 | those two properties determine the rounded value |
| LocalPlanner.Bucket | backend/tasks/views.py:126-127 | a bucket holds exactly the given tasks that have its status |
| LocalPlanner.SumMinutes | backend/tasks/views.py:149 | when no task has negative minutes, the total is non-negative and at least each task's minutes |
| LocalPlanner.EstimatedHours | backend/tasks/views.py:149-150 | at least 1; within half an hour of the total unless that is below 30 minutes and the estimate is 1; even on a tie, except the tie at 30 minutes that is raised to 1; together with `RoundHoursUnique` this fixes the value to `max(1, round(total / 60))` |
| LocalPlanner.LocalPlan | backend/tasks/views.py:145-156 | the returned dictionary always carries the local-logic note and at least one hour, and its plan is the congratulation when both buckets are empty |
| LocalPlanner.GenerateLocalPlan | backend/tasks/views.py:119-156 | the loops build the plan whose text is the newline-join of the plan lines, with the estimate and the fixed local-logic note, for the user's open tasks |
| LocalPlanner.AppendInProgressLines | backend/tasks/views.py:133-134 | the loop appends one "- title (already started)" line per in-progress task, in order, after the existing lines |
| LocalPlanner.AppendToDoLines | backend/tasks/views.py:142-143 | the loop appends one "- title" line per to-do task, in order, after the existing lines |
| LocalPlanner.LinesLength | backend/tasks/views.py:129-146 | the plan has one line per task plus one per non-empty bucket; with no open task it is the congratulation alone |
| LocalPlanner.PlanLayoutInProgress | backend/tasks/views.py:131-134 | the in-progress header comes first, then the in-progress lines in bucket order |
| LocalPlanner.PlanLayoutToDo | backend/tasks/views.py:136-143 | the to-do header ("Then, …" after in-progress tasks, "Start with …" otherwise) and then the to-do lines in bucket order follow the in-progress block |
| LocalPlanner.InProgressBeforeToDo | backend/tasks/views.py:129-143 | every in-progress task's line comes before every to-do task's line |
| LocalPlanner.LinesDashes | backend/tasks/views.py:134-143 | the lines at task positions start with '-' |
| LocalPlanner.HeaderAt | backend/tasks/views.py:131-146 | a line that does not start with '-' is at a header position |
| LocalPlanner.PlanHeaders | backend/tasks/views.py:131-146 | each of the four headers is present exactly when its condition on the buckets holds (both directions) |
| LocalPlanner.BucketsCoverOpenTasks | backend/tasks/views.py:121-127 | every open task falls in exactly one of the two buckets |
| LocalPlanner.PlanLineCount | backend/tasks/views.py:129-153 | the number of plan lines is the number of open tasks plus the number of headers, or 1 when nothing is open |
| LocalPlanner.LineNoNewlineAt | backend/tasks/views.py:132-146 | no header holds a newline, and no task line does when its title has none |
| LocalPlanner.PlanTextLines | backend/tasks/views.py:153 | when no title holds a newline, the lines of the plan text are exactly the plan lines |
| LocalPlanner.NoOpenTasks | backend/tasks/views.py:145-150 | with no open task the plan is "No pending tasks. Great job!", one hour, with the local note |
| LocalPlanner.ReportAndReview | backend/tasks/views.py:119-156 | the exact plan text and estimate for one in-progress task of 90 minutes and one to-do task of 30 minutes |
| LocalPlanner.EstimateTies | backend/tasks/views.py:149-150 | ties round to even: 30 minutes to 0 hours, 90 and 150 to 2, -30 to 0 and -90 to -2; the estimate of one task of 30 minutes is raised to 1 hour, of 90 and 150 minutes it is 2 and of 210 it is 4, and with no task or one task of -90 minutes it is 1 |
| Responses.Parsed | backend/tasks/views.py:99-100 | a reply exists exactly when the call returned content and `json.loads` accepted it, and it is the parsed value |
| DailyPlan.FallbackResponse | backend/tasks/views.py:159-171 | status 200 and a plan: the local plan of the user when one is given, the fixed generic plan of four hours with its note otherwise |
| DailyPlan.BuildTaskList | backend/tasks/views.py:68-74 | one record of title, stored status and minutes per open task, in query order |
| DailyPlan.PromptFor | backend/tasks/views.py:62-74 | the prompt's data is the username and one record per open task in query order, each with that task's title and none with the status DONE |
| DailyPlan.Answer | backend/tasks/views.py:86-112 | the model is called exactly when a key is configured, with that key and the prompt; the status is always 200, and whatever is not a passed-through reply is the generic fallback |
| DailyPlan.Respond | backend/tasks/views.py:57-114 | status 400 exactly when the request is refused; the model is called exactly when the request goes ahead and a key is configured, with that key and the user's prompt data |
| DailyPlan.DailyPlanEndpoint | backend/tasks/views.py:53-114 | the endpoint's statements produce the outcome that `Respond` defines from the request, the table, the key and the two oracles |
| DailyPlan.RequestValidation | backend/tasks/views.py:58-59 | a request goes ahead exactly when its data is a mapping or is empty; otherwise the answer is 400 and the model is not called |
| DailyPlan.MissingKeySkipsModel | backend/tasks/views.py:88-90 | without an API key the model is not called and the answer is the generic plan with status 200 |
| DailyPlan.ModelSeesOpenTasks | backend/tasks/views.py:62-97 | with a key, the model is called with that key, the username and exactly the records of the open tasks in order |
| DailyPlan.PromptHasNoDoneTask | backend/tasks/views.py:63-74 | every record in the prompt comes from an open task that involves the user, so none is DONE |
| DailyPlan.ReplyPassedThrough | backend/tasks/views.py:99-100 | a parsed reply is answered as it is, with status 200 and no check of its fields |
| DailyPlan.FailureGivesGenericPlan | backend/tasks/views.py:102-112 | a raised exception, missing content or content that is not JSON all give the generic plan with status 200 |
| DailyPlan.LocalPlanUnreachable | backend/tasks/views.py:87-114 | every plan the endpoint builds is the generic one, never the local-logic plan, and the status is 200 or 400 |
| DailyPlan.FallbackIgnoresUser | backend/tasks/views.py:88-90 | without a key the answer differs from the user's own fallback, which the unused `user` argument would give |
| LegacyPlan.LegacyTaskLine | backend/tasks/ai.py:19 | a task line is "- ", the title, " (", the stored status and ")"; the status text parses back to the task's status |
| LegacyPlan.TaskList | backend/tasks/ai.py:19 | one line per task in query order: line i is the task line of task i, so its title and status read back |
| LegacyPlan.LegacyPrompt | backend/tasks/ai.py:22-29 | the prompt is the opening, then the username, then exactly the fixed text that follows it in the f-string |
| LegacyPlan.LegacyDailyPlan | backend/tasks/ai.py:13-48 | status 200 with the parsed reply exactly when the model's content is present and parses; otherwise the stub plan with status 503 |
| LegacyPlan.AlwaysCallsModel | backend/tasks/ai.py:32-38 | the model is called whatever the key, with the key as configured and the prompt for the username; the task list is built from the older selection |
| LegacyPlan.PromptIgnoresTasks | backend/tasks/ai.py:22-29 | two different tables give the same prompt and the same answer |
| LegacyPlan.PromptQuotesJoin | backend/tasks/ai.py:22-29 | the prompt holds the text `"`, newline, `".join(task_list)` right after the introducing line, not the task lines |
| LegacyPlan.PromptDeterminesUsername | backend/tasks/ai.py:22-23 | equal prompts come from equal usernames: the username is the only interpolated value |
| LegacyPlan.ReplyPassedThrough | backend/tasks/ai.py:39-40 | a parsed reply is answered as it is, with the default status 200 |
| LegacyPlan.FailureGivesStub | backend/tasks/ai.py:42-48 | any failure is answered with the stub plan of four hours, without a note, and status 503 |
| LegacyPlan.TaskListOfOpenAssigned | backend/tasks/ai.py:18-19 | every task-list line is "- title (TO_DO)" or "- title (IN_PROGRESS)" for a task assigned to the user |
| LegacyPlan.FailureContractsDiffer | backend/tasks/ai.py:44-48 | the older stub has status 503 and no note, the newer fallback has status 200 and a note, and the stub's text is the start of the newer plan's text |
| TaskStore.ValidateTask | backend/tasks/serializers.py:16-19 | creation is valid exactly when the title is present and, once stripped, neither blank nor over 255 characters nor holding a NUL; the description, once stripped, holds no NUL; and the status is a choice or absent. Each failing field is reported; both texts are kept stripped; the sent status, `total_minutes` and `assigned_to` are kept, with the defaults TO_DO, 0 and none |
| TaskStore.TitleRefusals | backend/tasks/serializers.py:16-19 | a title of white space only, or with a NUL anywhere, is refused on `title` |
| TaskStore.DescriptionRefusal | backend/tasks/serializers.py:16-19 | a description with a NUL anywhere is refused on `description` |
| TaskStore.StoredTitleStripped | backend/tasks/serializers.py:16-23 | the title a creation stores is already stripped |
| TaskStore.Creation | backend/tasks/serializers.py:21-23 | a valid creation yields a task whose creator is the requester and whose timestamps are now, carrying the stripped title and description, and the sent status, `total_minutes` and `assigned_to` (or their defaults TO_DO, empty, 0 and none) |
| TaskStore.CreationIgnoresReadOnlyFields | backend/tasks/serializers.py:19 | the client's `created_by`, `created_at` and `updated_at` make no difference to what is created |
| TaskStore.CreationDefaults | backend/tasks/models.py:13-20 | a creation that sends only an acceptable title gets that title stripped and the model defaults |
| TaskStore.CreatorCanSee | backend/tasks/views.py:28-35 | the creator can afterwards see the task they created |
| TaskStore.Patched | backend/tasks/serializers.py:25-28 | a status patch is valid exactly when `status` is absent or a choice; it changes only `status` and the save timestamp |
| TaskStore.PatchReadsOnlyStatus | backend/tasks/serializers.py:25-28 | entries of the request other than `status` make no difference |
| TaskStore.CanSee | backend/tasks/views.py:28-39 | `get_object` finds a task exactly when the requester's queryset over that task holds it |
| TaskStore.CanSeeIsVisible | backend/tasks/views.py:28-35 | the tasks the status action can find are those of the requester's queryset |
| TaskStore.PatchOutcome | backend/tasks/views.py:37-46 | 404 exactly for a missing or invisible task; 400 exactly for an invalid status, and then nothing changes; otherwise only that task's status and timestamp change, and the reply carries the new stored value |
| TaskStore.Represent | backend/tasks/serializers.py:5-14 | `created_by_name` is the creator's username; `assigned_to_name` is null exactly when there is no assignee, and otherwise the assignee's username |
| TaskStore.RepresentationRoundTrip | backend/tasks/serializers.py:5-19 | the serialized fields give the task back, its status value included |
| TaskStore.Store.Create | backend/tasks/serializers.py:21-23 | keeps the store valid; on success it adds the created task under the next key, which was free; on failure it leaves the store unchanged |
| TaskStore.Store.UpdateStatus | backend/tasks/views.py:37-46 | keeps the store valid, and the reply and the new table are those of `PatchOutcome` |
| TaskStore.Store.RemoveUser | backend/tasks/models.py:21-32 | keeps the store valid, and the new table is `DeleteUser` of the old one |

## Left out

- The OpenAI client, its exception classes and `json.loads` are oracles. Their internal behaviour, the model name and the request options are not modelled.
- The exceptions are one `Failure` datatype. The three `except` clauses of the views endpoint differ only in what they log, and logging is not modelled.
- The views endpoint's prompt wording and its `json.dumps(task_list, indent=2)` layout are not modelled: that is library serialisation. The prompt is the username and the list of task records it is built from.
- JSON numbers are integers. Floating-point values in a model reply are not represented, and they only pass through.
- Rounding.RoundHours: this takes `round(total / 60)` as rounding the exact rational. Python rounds the float quotient. The two agree for totals up to about 2^53 minutes; beyond that, float error is not modelled.
- The table is a sequence in its natural newest-first order. The ORM's execution of `ordering = ['-created_at']` is not modelled. `FilterKeepsNewestFirst` shows that every query keeps that order.
- Timestamps are integers passed in as `now`. `auto_now` and `auto_now_add` are modelled as setting them to `now`.
- TaskStore.ValidateTask: the text fields are modelled as strings. DRF's `str()` conversion of other JSON values (numbers, booleans) and the refusal of an explicit `null` title are not modelled. The trimming and NUL refusal of `CharField` are modelled; `IsSpace` is Python's `str.isspace`.
- The existence check of an `assigned_to` id is not modelled, and neither is the database's integer range for `total_minutes`.
- A status-patch body that is not a mapping is not modelled: the request data is a map from field name to text.
- The wording of serializer error messages is not modelled: errors are the set of failing fields.
- ModelViewSet's other generated actions (list, retrieve, update, destroy) are not modelled, beyond the queryset that bounds them.
- Django permissions, authentication, routing (backend/tasks/urls.py) and the admin registrations are framework plumbing and are not modelled.
- backend/backend/middleware.py is not part of this model. It does request logging with wall-clock timing.
- The users app is not part of this model. A user is an id, a username and the `is_admin` flag.
- The status labels ("To Do", "In Progress", "Done") are kept as `TaskModel.StatusLabel`. No property depends on them.
