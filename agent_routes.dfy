/** The agent routes of backend/app/api/v1/agents.py, as far as they
    decide the response themselves: the `404 Agent not found` guards, the
    mapping of a `ValueError` to `404`, and the body validation FastAPI
    applies before a handler runs (the `AgentExecuteInput` model of
    backend/app/models/agent.py: a string `user_input` of at least one
    character). What the service returns is a parameter. */
module AgentRoutes {
  import opened Wrappers
  import opened JsonValue
  import FrameEncoding

  const AgentNotFound: string := "Agent not found"

  /** Why a route does not answer with its success status. */
  datatype HttpError =
    | NotFound(detail: string)
    | Unprocessable
    | ServerError

  function StatusCode(e: HttpError): int
  {
    match e
    case NotFound(_) => 404
    case Unprocessable => 422
    case ServerError => 500
  }

  /** The reason phrase a browser reports as `statusText` (HTTP/1.1). */
  function ReasonPhrase(status: int): string
  {
    if status == 200 then "OK"
    else if status == 404 then "Not Found"
    else if status == 422 then "Unprocessable Entity"
    else if status == 500 then "Internal Server Error"
    else ""
  }

  /** The body FastAPI accepts for `AgentExecuteInput`: an object whose
      `user_input` is a string of at least one character; other keys are
      ignored. */
  predicate ValidExecuteInput(body: Json)
  {
    && body.JObject?
    && Get(body.members, "user_input").Some?
    && Get(body.members, "user_input").value.JString?
    && |Get(body.members, "user_input").value.s| >= 1
  }

  /** `get_agent` and `update_agent`: the agent the service found, or a
      `404` when it found none. */
  function RequireAgent<A>(agent: Option<A>): (r: Result<A, HttpError>)
    ensures r.Ok? <==> agent.Some?
    ensures r.Ok? ==> r.value == agent.value
    ensures r.Err? ==> r.error == NotFound(AgentNotFound) && StatusCode(r.error) == 404
  {
    match agent
    case Some(a) => Ok(a)
    case None => Err(NotFound(AgentNotFound))
  }

  /** `delete_agent`: `204` with no body when the service deleted the
      agent, `404` otherwise. */
  function DeleteAgent(deleted: bool): (r: Result<int, HttpError>)
    ensures r.Ok? <==> deleted
    ensures r.Ok? ==> r.value == 204
    ensures r.Err? ==> r.error == NotFound(AgentNotFound)
  {
    if deleted then Ok(204) else Err(NotFound(AgentNotFound))
  }

  /** `get_executions`: the agent is looked up first; the executions are
      listed only when it exists. */
  function GetExecutions<A, E>(agent: Option<A>, executions: seq<E>): (r: Result<seq<E>, HttpError>)
    ensures r.Ok? <==> agent.Some?
    ensures r.Ok? ==> r.value == executions
    ensures r.Err? ==> r.error == NotFound(AgentNotFound)
  {
    if agent.None? then Err(NotFound(AgentNotFound)) else Ok(executions)
  }

  /** How `service.execute_agent` ended. */
  datatype ServiceOutcome<O> = Returned(output: O) | RaisedValueError(message: string) | RaisedOther

  /** `execute_agent`: the body is validated first; a `ValueError` from
      the service (the agent is missing) becomes `404` with `str(e)` as
      the detail, and any other exception propagates as a `500`. */
  function ExecuteAgent<O>(body: Json, outcome: ServiceOutcome<O>): (r: Result<O, HttpError>)
    ensures !ValidExecuteInput(body) ==> r == Err(Unprocessable)
    ensures ValidExecuteInput(body) ==>
      (r.Ok? <==> outcome.Returned?) &&
      (r.Ok? ==> r.value == outcome.output) &&
      (outcome.RaisedValueError? ==> r == Err(NotFound(outcome.message))) &&
      (outcome.RaisedOther? ==> r == Err(ServerError))
  {
    if !ValidExecuteInput(body) then Err(Unprocessable)
    else
      match outcome
      case Returned(o) => Ok(o)
      case RaisedValueError(m) => Err(NotFound(m))
      case RaisedOther => Err(ServerError)
  }

  /** `execute_agent_stream`: the body is validated, the agent looked up
      before the generator starts, and only then are frames produced, so a
      missing agent yields a `404` and no frame at all. */
  function ExecuteAgentStream(body: Json, agentFound: bool, run: FrameEncoding.ServiceRun)
    : (r: Result<seq<string>, HttpError>)
    ensures r.Ok? <==> ValidExecuteInput(body) && agentFound
    ensures !ValidExecuteInput(body) ==> r == Err(Unprocessable)
    ensures ValidExecuteInput(body) && !agentFound ==> r == Err(NotFound(AgentNotFound))
    ensures r.Ok? ==> r.value == FrameEncoding.Frames(run)
  {
    if !ValidExecuteInput(body) then Err(Unprocessable)
    else if !agentFound then Err(NotFound(AgentNotFound))
    else Ok(FrameEncoding.Frames(run))
  }
}
