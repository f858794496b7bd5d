/** The chat turn of `ChatInterface` (frontend/src/components/features/
    agent/ChatInterface.tsx): `handleSubmit` appends the user's message
    and an empty assistant message, appends every streamed token to the
    last message, and on an error removes the partial reply and shows the
    error. The stream is the consumer side of `executeAgentStream`; what
    it yields for a given text is a parameter. */
module Chat {
  import opened Wrappers
  import opened Text
  import opened StreamDecoding

  datatype Role = User | Assistant

  datatype Message = Message(role: Role, content: string)

  /** The component's state: `messages`, `input`, `isStreaming`, `error`. */
  datatype ChatState = ChatState(messages: seq<Message>, input: string, isStreaming: bool, error: Option<string>)

  /** The messages after one token: the last message's content is
      extended, and nothing else changes. */
  function WithLastExtended(ms: seq<Message>, chunk: string): (r: seq<Message>)
    requires |ms| >= 1
    ensures |r| == |ms|
    ensures r[..|r| - 1] == ms[..|ms| - 1]
    ensures r[|r| - 1].role == ms[|ms| - 1].role
    ensures r[|r| - 1].content == ms[|ms| - 1].content + chunk
  {
    ms[|ms| - 1 := Message(ms[|ms| - 1].role, ms[|ms| - 1].content + chunk)]
  }

  lemma ExtendByNothing(ms: seq<Message>)
    requires |ms| >= 1
    ensures WithLastExtended(ms, []) == ms
  {
    assert ms[|ms| - 1].content + [] == ms[|ms| - 1].content;
  }

  /** Two tokens appended one after the other extend the last message by
      both. */
  lemma ExtendTwice(ms: seq<Message>, a: string, b: string)
    requires |ms| >= 1
    ensures WithLastExtended(WithLastExtended(ms, a), b) == WithLastExtended(ms, a + b)
  {
    assert ms[|ms| - 1].content + a + b == ms[|ms| - 1].content + (a + b);
  }

  /** True when `handleSubmit` returns at once. */
  predicate Ignored(s: ChatState)
  {
    Trim(s.input) == [] || s.isStreaming
  }

  /** The whole turn, from the state at submission and the stream for the
      trimmed input to the state after `finally`. */
  function Submit(s: ChatState, stream: string -> Progress): (r: ChatState)
    ensures Ignored(s) ==> r == s
    ensures !Ignored(s) ==> r.input == [] && !r.isStreaming
    ensures !Ignored(s) ==> |r.messages| >= |s.messages| + 1 && r.messages[..|s.messages|] == s.messages
    ensures !Ignored(s) ==> r.messages[|s.messages|] == Message(User, Trim(s.input))
    ensures !Ignored(s) && !stream(Trim(s.input)).status.Failed? ==>
      r.messages == s.messages + [Message(User, Trim(s.input)),
                                  Message(Assistant, Concat(stream(Trim(s.input)).tokens))]
      && r.error == None
    ensures !Ignored(s) && stream(Trim(s.input)).status.Failed? ==>
      r.messages == s.messages + [Message(User, Trim(s.input))]
      && r.error == Some(stream(Trim(s.input)).status.message)
  {
    if Ignored(s) then s
    else
      var text := Trim(s.input);
      var p := stream(text);
      if p.status.Failed? then
        ChatState(s.messages + [Message(User, text)], [], false, Some(p.status.message))
      else
        ChatState(s.messages + [Message(User, text), Message(Assistant, Concat(p.tokens))], [], false, None)
  }

  /** Messages are only ever added at the end: the history before the turn
      is kept, whatever the stream did. */
  lemma SubmitKeepsHistory(s: ChatState, stream: string -> Progress)
    ensures s.messages <= Submit(s, stream).messages
    ensures |Submit(s, stream).messages| <= |s.messages| + 2
  {
  }

  class ChatInterface {
    var messages: seq<Message>
    var input: string
    var isStreaming: bool
    var error: Option<string>

    function State(): ChatState
      reads this
    {
      ChatState(messages, input, isStreaming, error)
    }

    constructor ()
      ensures State() == ChatState([], [], false, None)
    {
      messages := [];
      input := [];
      isStreaming := false;
      error := None;
    }

    /** One `setMessages` call of the `for await` loop. */
    method AppendChunk(chunk: string)
      requires |messages| >= 1
      modifies this
      ensures messages == WithLastExtended(old(messages), chunk)
      ensures input == old(input) && isStreaming == old(isStreaming) && error == old(error)
    {
      messages := WithLastExtended(messages, chunk);
    }

    /** The `for await` loop: every token, in order, is appended to the
        last message. */
    method ReceiveTokens(tokens: seq<string>)
      requires |messages| >= 1
      modifies this
      ensures messages == WithLastExtended(old(messages), Concat(tokens))
      ensures input == old(input) && isStreaming == old(isStreaming) && error == old(error)
    {
      ghost var start := messages;
      assert tokens[..0] == [];
      ExtendByNothing(start);
      var i := 0;
      while i < |tokens|
        invariant 0 <= i <= |tokens|
        invariant messages == WithLastExtended(start, Concat(tokens[..i]))
        invariant input == old(input) && isStreaming == old(isStreaming) && error == old(error)
      {
        AppendChunk(tokens[i]);
        ExtendTwice(start, Concat(tokens[..i]), tokens[i]);
        ConcatAppend(tokens[..i], [tokens[i]]);
        assert tokens[..i] + [tokens[i]] == tokens[..i + 1];
        assert Concat([tokens[i]]) == tokens[i];
        i := i + 1;
      }
      assert tokens[..i] == tokens;
    }

    /** `handleSubmit`. */
    method HandleSubmit(stream: string -> Progress)
      modifies this
      ensures State() == Submit(old(State()), stream)
    {
      if Trim(input) == [] || isStreaming {
        return;
      }
      ghost var before := messages;
      var userMessage := Trim(input);
      input := [];
      error := None;
      messages := messages + [Message(User, userMessage)];
      messages := messages + [Message(Assistant, [])];
      isStreaming := true;
      var outcome := stream(userMessage);
      ReceiveTokens(outcome.tokens);
      assert [] + Concat(outcome.tokens) == Concat(outcome.tokens);
      assert messages == before + [Message(User, userMessage), Message(Assistant, Concat(outcome.tokens))];
      if outcome.status.Failed? {
        error := Some(outcome.status.message);
        messages := messages[..|messages| - 1];
        assert messages == before + [Message(User, userMessage)];
      }
      isStreaming := false;
    }
  }
}
