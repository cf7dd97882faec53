/**
 What the two daily-plan endpoints hand back, and what the outside world
 hands to them: JSON values as `json.loads` produces them, the response
 bodies and statuses, and the outcome of the chat-completion call.
 */
module Responses {
  import opened Wrappers

  /** A value `json.loads` can return (numbers restricted to integers). */
  datatype Json =
    | JNull
    | JBool(b: bool)
    | JNumber(n: int)
    | JString(s: string)
    | JArray(items: seq<Json>)
    | JObject(fields: seq<(string, Json)>)

  /** A plan dictionary: `plan`, `estimated_hours` and, when present, `note`. */
  datatype PlanBody = PlanBody(plan: string, estimatedHours: int, note: Option<string>)

  /** A response body: a plan built here, the model's parsed reply passed through, or serializer errors. */
  datatype Body = Plan(planBody: PlanBody) | Verbatim(json: Json) | ValidationErrors

  datatype Response = Response(status: int, body: Body)

  const StatusOk := 200
  const StatusBadRequest := 400
  const StatusServiceUnavailable := 503

  /** The exceptions the call can raise, as the `except` clauses tell them apart. */
  datatype Failure = RateLimit | ApiConnection | ApiStatus | OtherException

  /**
   The outcome of constructing the client, calling `chat.completions.create`
   and reading `choices[0].message.content`: the content (which the library
   types as optional) or the exception raised on the way.
   */
  datatype Completion = Content(text: Option<string>) | Raised(failure: Failure)

  /**
   The parsed reply, when there is one: `json.loads` of the content, given as
   the oracle `loads` (None stands for the decode error). Content that is
   absent makes `json.loads` raise as well.
   */
  function Parsed(c: Completion, loads: string -> Option<Json>): (r: Option<Json>)
    ensures r.Some? <==> c.Content? && c.text.Some? && loads(c.text.value).Some?
    ensures r.Some? ==> r.value == loads(c.text.value).value
  {
    match c
    case Raised(_) => None
    case Content(None) => None
    case Content(Some(text)) => loads(text)
  }
}
