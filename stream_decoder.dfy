/** The client side of agent streaming: `executeAgentStream`
    (frontend/src/lib/api/agents.ts). Decoded text is appended to a carry
    buffer; the buffer is split on blank lines; every piece but the last
    is a complete frame, and the last piece is carried over. A frame is
    a data frame when it starts with `data: `, and its payload is the
    whole rest of the frame. The payload `[DONE]` ends the stream, a
    payload starting with `[ERROR]` fails it, and any other payload is a
    token. This is the `data:` framing of server-sent events (section
    9.2 of the WHATWG HTML Living Standard) in a simplified form: only
    `"\n\n"` ends a frame and the prefix is matched on the whole frame. */
module StreamDecoding {
  import opened Wrappers
  import opened Text

  const Separator: string := "\n\n"
  const DataPrefix: string := "data: "
  const DoneSentinel: string := "[DONE]"
  const ErrorPrefix: string := "[ERROR]"

  /** `s.split("\n\n")`: cut at every occurrence of the separator, taking
      the occurrences from left to right without overlap. */
  function Split(s: string): (r: seq<string>)
    ensures |r| >= 1
    decreases |s|
  {
    if |s| < 2 then [s]
    else if s[..2] == Separator then [""] + Split(s[2..])
    else
      var t := Split(s[1..]);
      [[s[0]] + t[0]] + t[1..]
  }

  /** The pieces of `s` before its last separator: the complete frames. */
  function Complete(s: string): seq<string>
  {
    Split(s)[..|Split(s)| - 1]
  }

  /** The piece after the last separator: what `lines.pop()` keeps as the
      new buffer. */
  function Carry(s: string): string
  {
    Split(s)[|Split(s)| - 1]
  }

  /** Joining the pieces with the separator gives the text back, and no
      piece contains the separator: the split loses and invents nothing. */
  lemma {:induction false} SplitJoin(s: string)
    ensures Join(Split(s), Separator) == s
    ensures forall i :: 0 <= i < |Split(s)| ==> !Contains(Split(s)[i], Separator)
    decreases |s|
  {
    var r := Split(s);
    if |s| < 2 {
      NoSeparatorInShort(s);
    } else if s[..2] == Separator {
      SplitJoin(s[2..]);
      var t := Split(s[2..]);
      assert r == [""] + t;
      assert s == Separator + s[2..];
      JoinCons("", t);
      NoSeparatorInShort("");
    } else {
      SplitJoin(s[1..]);
      var t := Split(s[1..]);
      assert r == [[s[0]] + t[0]] + t[1..];
      JoinHead(s[0], t, Separator);
      assert s == [s[0]] + s[1..];
      JoinStartsWithHead(t);
      NoSeparatorAfterChar(s, t[0]);
      forall i | 1 <= i < |r| ensures !Contains(r[i], Separator) {
        assert r[i] == t[i];
      }
    }
  }

  lemma NoSeparatorInShort(s: string)
    requires |s| < 2
    ensures !Contains(s, Separator)
  {
  }

  /** Prefixing a character that does not start a separator keeps the
      first piece free of separators. */
  lemma NoSeparatorAfterChar(s: string, t0: string)
    requires |s| >= 2 && s[..2] != Separator
    requires !Contains(t0, Separator)
    requires StartsWith(s[1..], t0)
    ensures !Contains([s[0]] + t0, Separator)
  {
    var u := [s[0]] + t0;
    assert s[..2] == [s[0], s[1]];
    forall i: nat | i <= |u| ensures !OccursAt(u, Separator, i) {
      if i == 0 {
        OccursAtChar(u, Separator, 0, 1);
        if t0 != [] {
          assert t0[0] == s[1..][..|t0|][0];
        }
      } else {
        OccursInSuffix([s[0]], t0, Separator, i);
      }
    }
  }

  lemma JoinStartsWithHead(t: seq<string>)
    requires |t| >= 1
    ensures StartsWith(Join(t, Separator), t[0])
  {
  }

  lemma JoinCons(a: string, t: seq<string>)
    requires |t| >= 1
    ensures Join([a] + t, Separator) == a + Separator + Join(t, Separator)
  {
    assert ([a] + t)[1..] == t;
  }

  lemma JoinHead(c: char, t: seq<string>, sep: string)
    requires |t| >= 1
    ensures Join([[c] + t[0]] + t[1..], sep) == [c] + Join(t, sep)
  {
    var x := [[c] + t[0]] + t[1..];
    assert |x| == |t| && x[0] == [c] + t[0];
    if |t| >= 2 {
      assert x[1..] == t[1..];
      var j := Join(t[1..], sep);
      assert Join(x, sep) == x[0] + sep + j;
      assert Join(t, sep) == t[0] + sep + j;
      ConcatAssoc([c], t[0], sep + j);
    }
  }

  lemma ConcatAssoc(a: string, b: string, c: string)
    ensures (a + b) + c == a + (b + c)
  {
  }

  /** The complete frames of a concatenation whose last part is not
      empty. */
  lemma InitAppend(a: seq<string>, b: seq<string>)
    requires |b| >= 1
    ensures (a + b)[..|a + b| - 1] == a + b[..|b| - 1]
    ensures (a + b)[|a + b| - 1] == b[|b| - 1]
  {
  }

  /** Splitting is compatible with arrival in pieces: the complete frames
      of `p` stay complete frames of `p + c`, and the rest comes from
      splitting what was carried over together with `c`. */
  lemma {:induction false} SplitAppend(p: string, c: string)
    ensures Split(p + c) == Complete(p) + Split(Carry(p) + c)
    decreases |p|
  {
    if |p| < 2 {
      assert Complete(p) == [];
      assert Carry(p) == p;
    } else if p[..2] == Separator {
      SplitAppendSeparator(p, c);
    } else {
      SplitAppendChar(p, c);
    }
  }

  lemma {:induction false} SplitAppendSeparator(p: string, c: string)
    requires |p| >= 2 && p[..2] == Separator
    ensures Split(p + c) == Complete(p) + Split(Carry(p) + c)
    decreases |p|, 0
  {
    assert (p + c)[..2] == Separator;
    assert (p + c)[2..] == p[2..] + c;
    SplitAppend(p[2..], c);
    var t := Split(p[2..]);
    assert Split(p) == [""] + t;
    assert Split(p + c) == [""] + Split(p[2..] + c);
    InitAppend([""], t);
  }

  lemma {:induction false} SplitAppendChar(p: string, c: string)
    requires |p| >= 2 && p[..2] != Separator
    ensures Split(p + c) == Complete(p) + Split(Carry(p) + c)
    decreases |p|, 0
  {
    assert (p + c)[..2] == p[..2];
    assert (p + c)[0] == p[0];
    assert (p + c)[1..] == p[1..] + c;
    SplitAppend(p[1..], c);
    var t := Split(p[1..]);
    var u := Split(p[1..] + c);
    var h := [p[0]] + t[0];
    assert Split(p) == [h] + t[1..];
    assert Split(p + c) == [[p[0]] + u[0]] + u[1..];
    if |t| == 1 {
      SplitJoin(p[1..]);
      assert t[0] == p[1..];
      assert h == p;
      assert Complete(p) == [];
      assert Carry(p) == p;
    } else {
      var rest := Split(Carry(p[1..]) + c);
      assert u == t[..|t| - 1] + rest;
      assert u[0] == t[0];
      assert u[1..] == t[1..|t| - 1] + rest;
      assert Complete(p) == [h] + t[1..|t| - 1];
      assert Carry(p) == Carry(p[1..]);
    }
  }

  /** JavaScript's `data.slice(8)`: empty when the string is shorter. */
  function Slice(s: string, from: nat): (r: string)
    ensures |s| >= from ==> r == s[from..]
    ensures |s| < from ==> r == ""
  {
    if |s| >= from then s[from..] else ""
  }

  /** What one complete frame does to the stream. */
  datatype Step = Skip | Token(payload: string) | Finish | Fail(message: string)

  function Classify(frame: string): (r: Step)
    ensures r.Token? <==>
      StartsWith(frame, DataPrefix)
      && frame[6..] != DoneSentinel && !StartsWith(frame[6..], ErrorPrefix)
    ensures r.Token? ==> frame == DataPrefix + r.payload
    ensures r.Finish? <==> frame == DataPrefix + DoneSentinel
    ensures r.Fail? <==> StartsWith(frame, DataPrefix + ErrorPrefix)
    ensures r.Fail? ==> r.message == Slice(frame, 14)
    ensures r.Skip? <==> !StartsWith(frame, DataPrefix)
  {
    if !StartsWith(frame, DataPrefix) then
      StartsWithLonger(frame, DataPrefix, ErrorPrefix);
      Skip
    else
      var data := frame[6..];
      assert frame == DataPrefix + data;
      StartsWithJoined(DataPrefix, data, ErrorPrefix);
      if data == DoneSentinel then
        LabelMismatch(data, ErrorPrefix, 1);
        Finish
      else if StartsWith(data, ErrorPrefix) then Fail(Slice(data, 8))
      else Token(data)
  }

  /** Where the stream stands: still open, ended normally, or failed with
      the message of the thrown `Error`. */
  datatype Status = Open | Completed | Failed(message: string)

  /** The tokens yielded so far and the stream's status. */
  datatype Progress = Progress(tokens: seq<string>, status: Status)

  /** Processing complete frames in order, as the inner `for` loop does:
      a `return` or `throw` stops at the first terminal frame. */
  function Process(frames: seq<string>): (p: Progress)
    ensures |p.tokens| <= |frames|
  {
    if frames == [] then Progress([], Open)
    else
      match Classify(frames[0])
      case Skip => Process(frames[1..])
      case Token(t) =>
        var rest := Process(frames[1..]);
        Progress([t] + rest.tokens, rest.status)
      case Finish => Progress([], Completed)
      case Fail(m) => Progress([], Failed(m))
  }

  /** A frame that ends the stream: `data: [DONE]`, or a data frame whose
      payload starts with `[ERROR]`. */
  predicate Terminal(frame: string)
  {
    frame == DataPrefix + DoneSentinel || StartsWith(frame, DataPrefix + ErrorPrefix)
  }

  /** No frame of `frames` ends the stream. */
  predicate NoTerminal(frames: seq<string>)
  {
    forall j :: 0 <= j < |frames| ==> !Terminal(frames[j])
  }

  /** Without a terminal frame the stream stays open. */
  lemma {:induction false} NoTerminalStaysOpen(frames: seq<string>)
    requires NoTerminal(frames)
    ensures Process(frames).status.Open?
  {
    if frames != [] {
      assert !Terminal(frames[0]);
      assert NoTerminal(frames[1..]) by {
        forall j | 0 <= j < |frames[1..]| ensures !Terminal(frames[1..][j]) {
          assert frames[1..][j] == frames[j + 1];
        }
      }
      NoTerminalStaysOpen(frames[1..]);
    }
  }

  /** The first terminal frame decides the outcome: the tokens are those
      of the frames before it; `[DONE]` completes the stream, and an
      `[ERROR]` frame fails it with the payload after `[ERROR]` (the
      frame's text from index 14 on), with no token at or after it. */
  lemma StopsAtFirstTerminal(before: seq<string>, frame: string, rest: seq<string>)
    requires NoTerminal(before) && Terminal(frame)
    ensures Process(before).status.Open?
    ensures StartsWith(frame, DataPrefix + ErrorPrefix) ==>
      Process(before + [frame] + rest) == Progress(Process(before).tokens, Failed(Slice(frame, 14)))
    ensures frame == DataPrefix + DoneSentinel ==>
      Process(before + [frame] + rest) == Progress(Process(before).tokens, Completed)
  {
    NoTerminalStaysOpen(before);
    var after := [frame] + rest;
    assert before + [frame] + rest == before + after;
    ProcessAppend(before, after);
    assert after[0] == frame;
    TerminalFirst(after);
  }

  lemma TerminalFirst(frames: seq<string>)
    requires frames != [] && Terminal(frames[0])
    ensures StartsWith(frames[0], DataPrefix + ErrorPrefix) ==>
      Process(frames) == Progress([], Failed(Slice(frames[0], 14)))
    ensures frames[0] == DataPrefix + DoneSentinel ==> Process(frames) == Progress([], Completed)
  {
    if StartsWith(frames[0], DataPrefix + ErrorPrefix) {
      assert Classify(frames[0]) == Fail(Slice(frames[0], 14));
    } else {
      assert Classify(frames[0]) == Finish;
    }
  }

  /** Frames arriving in two batches are processed as one batch: the
      second is consumed only when the first left the stream open. */
  lemma {:induction false} ProcessAppend(a: seq<string>, b: seq<string>)
    ensures Process(a + b) ==
      if Process(a).status.Open? then
        Progress(Process(a).tokens + Process(b).tokens, Process(b).status)
      else Process(a)
  {
    if a == [] {
      assert a + b == b;
    } else {
      assert (a + b)[0] == a[0];
      assert (a + b)[1..] == a[1..] + b;
      ProcessAppend(a[1..], b);
    }
  }

  /** Every token comes from a complete data frame and is neither
      sentinel; the carry is not among the frames, so nothing comes from
      an incomplete frame. */
  lemma {:induction false} ProcessTokensFromFrames(frames: seq<string>, k: nat)
    requires k < |Process(frames).tokens|
    ensures exists i :: 0 <= i < |frames| && frames[i] == DataPrefix + Process(frames).tokens[k]
    ensures Process(frames).tokens[k] != DoneSentinel
    ensures !StartsWith(Process(frames).tokens[k], ErrorPrefix)
  {
    var t := Process(frames).tokens[k];
    match Classify(frames[0])
    case Skip =>
      ProcessTokensFromFrames(frames[1..], k);
      var i :| 0 <= i < |frames[1..]| && frames[1..][i] == DataPrefix + t;
      assert frames[i + 1] == DataPrefix + t;
    case Token(p) =>
      if k == 0 {
        assert frames[0] == DataPrefix + t;
        assert frames[0][6..] == t;
      } else {
        ProcessTokensFromFrames(frames[1..], k - 1);
        var i :| 0 <= i < |frames[1..]| && frames[1..][i] == DataPrefix + t;
        assert frames[i + 1] == DataPrefix + t;
      }
  }

  /** The reference semantics of the generator for the whole text it
      reads: the complete frames are processed, and when the reader
      reports the end with the stream still open, the generator returns
      and the carry is dropped. */
  function DecodeStream(text: string): (p: Progress)
    ensures !p.status.Open?
    ensures p.tokens == Process(Complete(text)).tokens
    ensures !Process(Complete(text)).status.Open? ==> p == Process(Complete(text))
    ensures Process(Complete(text)).status.Open? ==> p.status == Completed
  {
    var p := Process(Complete(text));
    if p.status.Open? then Progress(p.tokens, Completed) else p
  }

  /** Once the stream has ended or failed, nothing read afterwards
      matters. */
  lemma ClosedIgnoresRest(text: string, rest: string)
    requires !Process(Complete(text)).status.Open?
    ensures DecodeStream(text + rest) == DecodeStream(text)
  {
    SplitAppend(text, rest);
    var s := Split(Carry(text) + rest);
    assert Complete(text + rest) == Complete(text) + s[..|s| - 1];
    ProcessAppend(Complete(text), s[..|s| - 1]);
  }

  /** While the stream is open, reading more text only adds tokens at
      the end: what has been yielded is never revised. */
  lemma OpenExtends(text: string, more: string)
    requires Process(Complete(text)).status.Open?
    ensures Process(Complete(text)).tokens <= DecodeStream(text + more).tokens
  {
    SplitAppend(text, more);
    var s := Split(Carry(text) + more);
    assert Complete(text + more) == Complete(text) + s[..|s| - 1];
    ProcessAppend(Complete(text), s[..|s| - 1]);
  }

  /** The generator's state between two reads: the carry buffer and the
      status. `received` and `emitted` record, for the proof, all text
      read so far and all tokens yielded so far. */
  class FrameDecoder {
    var carry: string
    var status: Status
    ghost var received: string
    ghost var emitted: seq<string>

    ghost predicate Valid()
      reads this
    {
      && emitted == Process(Complete(received)).tokens
      && status == Process(Complete(received)).status
      && (status.Open? ==> carry == Carry(received))
    }

    constructor ()
      ensures Valid()
      ensures carry == "" && status == Open && received == "" && emitted == []
    {
      carry := "";
      status := Open;
      received := "";
      emitted := [];
    }

    /** One pass of the `while (true)` loop after a successful read:
        append the chunk, split, keep the last piece, and process the
        other pieces until one is terminal. Returns the tokens yielded. */
    method Feed(chunk: string) returns (tokens: seq<string>)
      requires Valid() && status.Open?
      modifies this
      ensures Valid()
      ensures received == old(received) + chunk
      ensures emitted == old(emitted) + tokens
    {
      var lines := Split(carry + chunk);
      var stop;
      tokens, stop := ProcessFrames(lines[..|lines| - 1]);
      FeedStep(received, chunk);
      carry := lines[|lines| - 1];
      status := stop;
      received := received + chunk;
      emitted := emitted + tokens;
    }
  }

  /** Reading `chunk` after `text`, with the stream still open, processes
      the complete frames of the old carry followed by `chunk`. */
  lemma FeedStep(text: string, chunk: string)
    requires Process(Complete(text)).status.Open?
    ensures Complete(text + chunk) == Complete(text) + Complete(Carry(text) + chunk)
    ensures Carry(text + chunk) == Carry(Carry(text) + chunk)
    ensures Process(Complete(text + chunk)) ==
      Progress(Process(Complete(text)).tokens + Process(Complete(Carry(text) + chunk)).tokens,
               Process(Complete(Carry(text) + chunk)).status)
  {
    SplitAppend(text, chunk);
    InitAppend(Complete(text), Split(Carry(text) + chunk));
    ProcessAppend(Complete(text), Complete(Carry(text) + chunk));
  }

  /** The inner `for` loop over the complete frames of one read. */
  method ProcessFrames(frames: seq<string>) returns (tokens: seq<string>, stop: Status)
    ensures Progress(tokens, stop) == Process(frames)
  {
    tokens := [];
    stop := Open;
    var i := 0;
    while i < |frames| && stop.Open?
      invariant 0 <= i <= |frames|
      invariant Process(frames[..i]).tokens == tokens
      invariant Process(frames[..i]).status == stop
      invariant !stop.Open? ==> Process(frames[..i]) == Process(frames)
    {
      ProcessAppend(frames[..i], [frames[i]]);
      assert frames[..i] + [frames[i]] == frames[..i + 1];
      match Classify(frames[i]) {
        case Skip =>
        case Token(t) =>
          tokens := tokens + [t];
        case Finish =>
          stop := Completed;
        case Fail(m) =>
          stop := Failed(m);
      }
      i := i + 1;
      if !stop.Open? {
        ProcessAppend(frames[..i], frames[i..]);
        assert frames[..i] + frames[i..] == frames;
      }
    }
    assert stop.Open? ==> frames[..i] == frames;
  }

  /** `executeAgentStream` after the response checks: read the chunks
      one at a time until the reader is done or a frame ended the stream.
      The result depends only on the concatenation of the chunks, not on
      where the chunk boundaries fall. */
  method DecodeChunks(chunks: seq<string>) returns (result: Progress)
    ensures result == DecodeStream(Concat(chunks))
  {
    var d := new FrameDecoder();
    var tokens: seq<string> := [];
    var i := 0;
    while i < |chunks| && d.status.Open?
      invariant 0 <= i <= |chunks|
      invariant d.Valid()
      invariant d.received == Concat(chunks[..i])
      invariant tokens == d.emitted
    {
      var ts := d.Feed(chunks[i]);
      tokens := tokens + ts;
      ConcatAppend(chunks[..i], [chunks[i]]);
      assert chunks[..i] + [chunks[i]] == chunks[..i + 1];
      assert Concat([chunks[i]]) == chunks[i];
      i := i + 1;
    }
    ConcatAppend(chunks[..i], chunks[i..]);
    assert chunks[..i] + chunks[i..] == chunks;
    if d.status.Open? {
      assert chunks[..i] == chunks;
      result := Progress(tokens, Completed);
    } else {
      ClosedIgnoresRest(d.received, Concat(chunks[i..]));
      result := Progress(tokens, d.status);
    }
  }

  /** The response that `fetch` resolves to, as far as the generator
      looks at it: whether it is `ok`, its status text, and the chunks
      its body reader delivers (`None` when there is no readable body). */
  datatype StreamResponse = StreamResponse(ok: bool, statusText: string, body: Option<seq<string>>)

  const BodyNotReadable: string := "Response body is not readable"

  /** The message thrown for a response that is not `ok`. */
  function FailedToExecute(statusText: string): string
  {
    "Failed to execute agent: " + statusText
  }

  /** The whole generator: a failed response throws before any token;
      a missing reader throws; otherwise the chunks are decoded. */
  method ExecuteAgentStream(response: StreamResponse) returns (result: Progress)
    ensures !response.ok ==>
      result == Progress([], Failed(FailedToExecute(response.statusText)))
    ensures response.ok && response.body.None? ==>
      result == Progress([], Failed(BodyNotReadable))
    ensures response.ok && response.body.Some? ==>
      result == DecodeStream(Concat(response.body.value))
  {
    if !response.ok {
      return Progress([], Failed(FailedToExecute(response.statusText)));
    }
    if response.body.None? {
      return Progress([], Failed(BodyNotReadable));
    }
    result := DecodeChunks(response.body.value);
  }
}
