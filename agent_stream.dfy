/** One streamed agent execution from end to end: the request body the
    client sends, the streaming route of the server, the frames on the
    wire, and the tokens the client decodes from them.

    `executeAgentStream` (frontend/src/lib/api/agents.ts) sends
    `JSON.stringify(input)` without the key conversion `apiClient` applies,
    so the caller's `{ userInput }` reaches the server under the key
    `userInput`, while the server's `AgentExecuteInput` requires
    `user_input`. Both the request as written and a corrected request that
    converts the keys like every other call are modelled here; the rest of
    the model uses the corrected one. */
module AgentStreaming {
  import opened Wrappers
  import opened JsonValue
  import opened Normalize
  import opened Text
  import ApiClient
  import AgentRoutes
  import StreamDecoding
  import FrameEncoding

  /** `{ userInput: userMessage }`, the input the chat component passes. */
  function ExecuteInput(userInput: string): Json
  {
    JObject([Member("userInput", JString(userInput))])
  }

  /** The streaming request body as written: the input serialised as it
      is, in caller spelling. */
  function StreamRequestBodyAsWritten(input: Json): (r: Json)
    ensures InConvention(input, ToCaller) ==> InConvention(r, ToCaller)
  {
    input
  }

  /** The server never accepts the body as written: the key it looks for
      is not there, so every streamed execution is refused with `422`
      before the agent is even looked up. */
  lemma AsWrittenRequestRefused(userInput: string, agentFound: bool, run: FrameEncoding.ServiceRun)
    ensures AgentRoutes.ExecuteAgentStream(StreamRequestBodyAsWritten(ExecuteInput(userInput)), agentFound, run)
      == Err(AgentRoutes.Unprocessable)
  {
    var ms := [Member("userInput", JString(userInput))];
    assert Keys(ms) == ["userInput"];
    assert "user_input" != "userInput" by {
      assert "user_input"[4] != "userInput"[4];
    }
    assert Get(ms, "user_input").None?;
  }

  /** The corrected body: the input converted to wire spelling, as
      `apiClient` converts every JSON body it sends. */
  function StreamRequestBody(input: Json): (r: Json)
    ensures InConvention(r, ToWire)
    ensures CallerShaped(input) ==> Transform(r, ToCaller) == input
  {
    TransformReachesConvention(input, ToWire);
    ApiClient.CallerShapedSurvives(input);
    Transform(input, ToWire)
  }

  /** The corrected body carries `user_input`, it is exactly the body the
      non-streaming `executeAgent` sends through `apiClient`, and the
      server accepts it precisely when the input is not empty. */
  lemma CorrectedRequestAccepted(userInput: string, text: string)
    requires text != ""
    ensures StreamRequestBody(ExecuteInput(userInput)) == JObject([Member("user_input", JString(userInput))])
    ensures ApiClient.PrepareBody(ApiClient.Text(text, Some(ExecuteInput(userInput))))
      == ApiClient.Serialized(StreamRequestBody(ExecuteInput(userInput)))
    ensures AgentRoutes.ValidExecuteInput(StreamRequestBody(ExecuteInput(userInput))) <==> userInput != []
  {
    CorrectedBody(userInput);
    WireInputValid(userInput);
  }

  /** The server's check of a body that holds only `user_input`. */
  lemma WireInputValid(userInput: string)
    ensures AgentRoutes.ValidExecuteInput(JObject([Member("user_input", JString(userInput))])) <==> userInput != []
  {
    var ms := [Member("user_input", JString(userInput))];
    assert Get(ms, "user_input") == Some(JString(userInput));
  }

  /** The corrected body is the input converted to its wire key. */
  lemma CorrectedBody(userInput: string)
    ensures StreamRequestBody(ExecuteInput(userInput)) == JObject([Member("user_input", JString(userInput))])
  {
    ApiClient.UserInputKey();
    ApiClient.SingleMemberTransform("userInput", JString(userInput), ToWire);
  }

  /** The client's response from the server's answer to the streaming
      request; `pieces` are the reads the body arrives in. */
  function ClientResponse(reply: Result<seq<string>, AgentRoutes.HttpError>, pieces: seq<string>)
    : StreamDecoding.StreamResponse
  {
    match reply
    case Ok(_) => StreamDecoding.StreamResponse(true, AgentRoutes.ReasonPhrase(200), Some(pieces))
    case Err(e) =>
      StreamDecoding.StreamResponse(false, AgentRoutes.ReasonPhrase(AgentRoutes.StatusCode(e)), Some([]))
  }

  /** The streamed execution as written: whatever the input, the agent
      and the service do, the client fails with the `422` status text. */
  method StreamTurnAsWritten(userInput: string, agentFound: bool, run: FrameEncoding.ServiceRun,
                             pieces: seq<string>)
    returns (result: StreamDecoding.Progress)
    ensures result == StreamDecoding.Progress([],
      StreamDecoding.Failed(StreamDecoding.FailedToExecute(AgentRoutes.ReasonPhrase(422))))
  {
    var body := StreamRequestBodyAsWritten(ExecuteInput(userInput));
    var reply := AgentRoutes.ExecuteAgentStream(body, agentFound, run);
    AsWrittenRequestRefused(userInput, agentFound, run);
    result := StreamDecoding.ExecuteAgentStream(ClientResponse(reply, pieces));
  }

  /** The streamed execution with the corrected body: an empty input is
      refused, a missing agent fails with `Not Found` before any token,
      and otherwise the client yields the service's chunks and ends as
      the service did, however the wire text is cut into reads. */
  method StreamTurn(userInput: string, agentFound: bool, run: FrameEncoding.ServiceRun,
                    pieces: seq<string>)
    returns (result: StreamDecoding.Progress)
    requires Concat(pieces) == Concat(FrameEncoding.Frames(run))
    ensures userInput == [] ==> result == StreamDecoding.Progress([],
      StreamDecoding.Failed(StreamDecoding.FailedToExecute(AgentRoutes.ReasonPhrase(422))))
    ensures userInput != [] && !agentFound ==> result == StreamDecoding.Progress([],
      StreamDecoding.Failed(StreamDecoding.FailedToExecute(AgentRoutes.ReasonPhrase(404))))
    ensures userInput != [] && agentFound && FrameEncoding.Carriable(run) ==>
      result == StreamDecoding.Progress(run.chunks, FrameEncoding.Ending(run))
  {
    var body := StreamRequestBody(ExecuteInput(userInput));
    CorrectedRequestAccepted(userInput, "_");
    var reply := AgentRoutes.ExecuteAgentStream(body, agentFound, run);
    result := StreamDecoding.ExecuteAgentStream(ClientResponse(reply, pieces));
    if userInput != [] && agentFound && FrameEncoding.Carriable(run) {
      FrameEncoding.RoundTrip(run);
    }
  }
}
