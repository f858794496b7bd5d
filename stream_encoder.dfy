/** The server side of agent streaming: `event_generator` in
    backend/app/api/v1/agents.py writes one `data: <chunk>` frame, ended
    by a blank line, per chunk the service yields, then a `[DONE]` frame,
    or a `[ERROR] <message>` frame when the service raises. Together with
    the client decoder this gives a round trip, under conditions on the
    chunks that are stated here and shown to be needed. */
module FrameEncoding {
  import opened Wrappers
  import opened Text
  import opened StreamDecoding

  /** `f"data: {payload}\n\n"`. */
  function Frame(payload: string): string
  {
    DataPrefix + payload + Separator
  }

  /** `"data: [DONE]\n\n"`. */
  function DoneFrame(): string
  {
    Frame(DoneSentinel)
  }

  /** `f"data: [ERROR] {str(e)}\n\n"`. */
  function ErrorFrame(message: string): string
  {
    Frame(ErrorPrefix + " " + message)
  }

  /** One run of `service.execute_agent_stream`: the chunks it yields,
      and `str(e)` of the exception it raises after them, if any. */
  datatype ServiceRun = ServiceRun(chunks: seq<string>, raised: Option<string>)

  /** The frames of a run, first to last. */
  function Frames(run: ServiceRun): seq<string>
    decreases |run.chunks|
  {
    if run.chunks == [] then
      [if run.raised.None? then DoneFrame() else ErrorFrame(run.raised.value)]
    else [Frame(run.chunks[0])] + Frames(ServiceRun(run.chunks[1..], run.raised))
  }

  /** Exactly one frame per chunk, in order, then exactly one terminal
      frame: `[DONE]` when the service finished, the error frame when it
      raised. */
  lemma {:induction false} FramesShape(run: ServiceRun)
    ensures |Frames(run)| == |run.chunks| + 1
    ensures forall i :: 0 <= i < |run.chunks| ==> Frames(run)[i] == Frame(run.chunks[i])
    ensures Frames(run)[|run.chunks|] ==
      if run.raised.None? then DoneFrame() else ErrorFrame(run.raised.value)
    decreases |run.chunks|
  {
    if run.chunks != [] {
      var tail := ServiceRun(run.chunks[1..], run.raised);
      FramesShape(tail);
      forall i | 1 <= i < |run.chunks| ensures Frames(run)[i] == Frame(run.chunks[i]) {
        assert Frames(run)[i] == Frames(tail)[i - 1];
      }
    }
  }

  /** `event_generator`: the loop over the service's chunks inside the
      `try`, then the `[DONE]` frame, or the error frame from the
      `except`; frames already yielded stay yielded. */
  method EventGenerator(run: ServiceRun) returns (frames: seq<string>)
    ensures frames == Frames(run)
  {
    frames := [];
    var i := 0;
    while i < |run.chunks|
      invariant 0 <= i <= |run.chunks|
      invariant frames + Frames(ServiceRun(run.chunks[i..], run.raised)) == Frames(run)
    {
      assert run.chunks[i..][1..] == run.chunks[i + 1..];
      frames := frames + [Frame(run.chunks[i])];
      i := i + 1;
    }
    if run.raised.None? {
      frames := frames + [DoneFrame()];
    } else {
      frames := frames + [ErrorFrame(run.raised.value)];
    }
  }

  /** A payload the blank-line framing carries intact: it holds no blank
      line and does not end with a line feed (which would join the
      frame's own terminator to form a blank line one character early). */
  predicate Framable(payload: string)
  {
    !Contains(payload, Separator) && (payload == [] || payload[|payload| - 1] != '\n')
  }

  /** A chunk that also is not mistaken for one of the two sentinels. */
  predicate PlainChunk(chunk: string)
  {
    Framable(chunk) && chunk != DoneSentinel && !StartsWith(chunk, ErrorPrefix)
  }

  predicate NoLineFeed(s: string)
  {
    forall i :: 0 <= i < |s| ==> s[i] != '\n'
  }

  lemma NoLineFeedFramable(s: string)
    requires NoLineFeed(s)
    ensures Framable(s)
  {
    forall i: nat | i <= |s| ensures !OccursAt(s, Separator, i) {
      OccursAtChar(s, Separator, i, 0);
    }
  }

  /** Putting a non-empty prefix without line feeds in front keeps a
      payload framable. */
  lemma PrefixKeepsFramable(p: string, c: string)
    requires p != [] && NoLineFeed(p) && Framable(c)
    ensures Framable(p + c)
  {
    var s := p + c;
    if c == [] {
      assert s == p;
      NoLineFeedFramable(p);
    } else {
      forall i: nat | i <= |s| ensures !OccursAt(s, Separator, i) {
        if i < |p| {
          OccursAtChar(s, Separator, i, 0);
        } else {
          OccursInSuffix(p, c, Separator, i);
        }
      }
      assert s[|s| - 1] == c[|c| - 1];
    }
  }

  /** A framable text followed by the separator is cut exactly at that
      separator. */
  lemma {:induction false} SplitFrame(x: string, rest: string)
    requires Framable(x)
    ensures Split(x + Separator + rest) == [x] + Split(rest)
    decreases |x|
  {
    var s := x + Separator + rest;
    if x == [] {
      assert s == Separator + rest;
      assert s[..2] == Separator && s[2..] == rest;
    } else {
      assert |s| >= 3;
      if |x| == 1 {
        assert s[..2] == [x[0], '\n'];
      } else {
        assert s[..2] == x[..2];
        assert !OccursAt(x, Separator, 0);
      }
      assert s[..2] != Separator;
      var x' := x[1..];
      assert Framable(x') by {
        assert [x[0]] + x' == x;
        forall i: nat | i <= |x'| ensures !OccursAt(x', Separator, i) {
          OccursInSuffix([x[0]], x', Separator, i + 1);
        }
        if x' != [] {
          assert x'[|x'| - 1] == x[|x| - 1];
        }
      }
      assert s[1..] == x' + Separator + rest;
      SplitFrame(x', rest);
      assert s[0] == x[0];
      assert [x[0]] + x' == x;
    }
  }

  /** The wire text, split: one piece per frame without its separator,
      and an empty carry. */
  function Bodies(run: ServiceRun): seq<string>
    decreases |run.chunks|
  {
    if run.chunks == [] then
      [DataPrefix + (if run.raised.None? then DoneSentinel else ErrorPrefix + " " + run.raised.value)]
    else [DataPrefix + run.chunks[0]] + Bodies(ServiceRun(run.chunks[1..], run.raised))
  }

  predicate Carriable(run: ServiceRun)
  {
    && (forall i :: 0 <= i < |run.chunks| ==> PlainChunk(run.chunks[i]))
    && (run.raised.Some? ==> Framable(run.raised.value))
  }

  lemma {:induction false} SplitWire(run: ServiceRun)
    requires Carriable(run)
    ensures Split(Concat(Frames(run))) == Bodies(run) + [""]
    decreases |run.chunks|
  {
    var fs := Frames(run);
    if run.chunks == [] {
      var payload := if run.raised.None? then DoneSentinel else ErrorPrefix + " " + run.raised.value;
      if run.raised.Some? {
        PrefixKeepsFramable(ErrorPrefix + " ", run.raised.value);
      } else {
        NoLineFeedFramable(DoneSentinel);
      }
      PrefixKeepsFramable(DataPrefix, payload);
      assert fs == [Frame(payload)];
      assert Concat(fs) == DataPrefix + payload + Separator + "";
      SplitFrame(DataPrefix + payload, "");
    } else {
      var tail := ServiceRun(run.chunks[1..], run.raised);
      assert Carriable(tail) by {
        forall i | 0 <= i < |tail.chunks| ensures PlainChunk(tail.chunks[i]) {
          assert tail.chunks[i] == run.chunks[i + 1];
        }
      }
      SplitWire(tail);
      assert PlainChunk(run.chunks[0]);
      PrefixKeepsFramable(DataPrefix, run.chunks[0]);
      assert fs == [Frame(run.chunks[0])] + Frames(tail);
      assert Concat(fs) == DataPrefix + run.chunks[0] + Separator + Concat(Frames(tail));
      SplitFrame(DataPrefix + run.chunks[0], Concat(Frames(tail)));
    }
  }

  /** The status the client reaches for a run: the end of the stream, or
      an error whose message is the server's `str(e)`. */
  function Ending(run: ServiceRun): Status
  {
    if run.raised.None? then Completed else Failed(run.raised.value)
  }

  lemma {:induction false} ProcessBodies(run: ServiceRun)
    requires forall i :: 0 <= i < |run.chunks| ==> PlainChunk(run.chunks[i])
    ensures Process(Bodies(run)) == Progress(run.chunks, Ending(run))
    decreases |run.chunks|
  {
    var bs := Bodies(run);
    if run.chunks == [] {
      assert bs[1..] == [];
      if run.raised.Some? {
        var m := run.raised.value;
        assert bs[0] == DataPrefix + ErrorPrefix + " " + m;
        assert bs[0][6..] == ErrorPrefix + " " + m;
        assert StartsWith(bs[0][6..], ErrorPrefix);
        assert bs[0][6..][8..] == m;
      } else {
        assert bs[0][6..] == DoneSentinel;
      }
    } else {
      var tail := ServiceRun(run.chunks[1..], run.raised);
      assert forall i :: 0 <= i < |tail.chunks| ==> tail.chunks[i] == run.chunks[i + 1];
      ProcessBodies(tail);
      var c := run.chunks[0];
      assert PlainChunk(c);
      assert bs[0] == DataPrefix + c;
      assert bs[0][6..] == c;
      assert bs[1..] == Bodies(tail);
      assert [c] + tail.chunks == run.chunks;
    }
  }

  /** Decoding inverts encoding: for chunks the framing carries intact,
      the client yields exactly the server's chunks, in order, and ends
      as the server did, with `str(e)` as the error message. With the
      decoder's chunk-boundary invariance this holds however the wire
      text is cut into reads. */
  lemma RoundTrip(run: ServiceRun)
    requires Carriable(run)
    ensures DecodeStream(Concat(Frames(run))) == Progress(run.chunks, Ending(run))
  {
    SplitWire(run);
    var segs := Bodies(run) + [""];
    assert Complete(Concat(Frames(run))) == Bodies(run);
    ProcessBodies(run);
  }

  /** The wire text received in arbitrary reads decodes to the run. */
  method ReceiveRun(run: ServiceRun, pieces: seq<string>) returns (result: Progress)
    requires Carriable(run) && Concat(pieces) == Concat(Frames(run))
    ensures result == Progress(run.chunks, Ending(run))
  {
    result := DecodeChunks(pieces);
    RoundTrip(run);
  }

  /** A token cut across two reads: `"data: Hel"`, `"lo\n\n"` and
      `"data: [DONE]\n\n"` yield the one token `Hello` and end the stream. */
  lemma SplitTokenScenario()
    ensures DecodeStream(Concat(["data: Hel", "lo\n\n", "data: [DONE]\n\n"])) == Progress(["Hello"], Completed)
  {
    var run := ServiceRun(["Hello"], None);
    ScenarioWire(run);
    NoLineFeedFramable("Hello");
    assert !StartsWith("Hello", ErrorPrefix) by {
      LabelMismatch("Hello", ErrorPrefix, 0);
    }
    assert PlainChunk(run.chunks[0]);
    RoundTrip(run);
  }

  lemma ScenarioWire(run: ServiceRun)
    requires run == ServiceRun(["Hello"], None)
    ensures Concat(["data: Hel", "lo\n\n", "data: [DONE]\n\n"]) == Concat(Frames(run))
  {
    ScenarioReads();
    HelloWire(run);
  }

  lemma ScenarioReads()
    ensures Concat(["data: Hel", "lo\n\n", "data: [DONE]\n\n"]) == "data: Hello\n\n" + "data: [DONE]\n\n"
  {
    var parts := ["data: Hel", "lo\n\n", "data: [DONE]\n\n"];
    var none: seq<string> := [];
    assert parts[1..] == ["lo\n\n", "data: [DONE]\n\n"] && parts[1..][1..] == ["data: [DONE]\n\n"];
    assert parts[1..][1..][1..] == none;
    assert Concat(parts) == "data: Hel" + ("lo\n\n" + ("data: [DONE]\n\n" + ""));
  }

  lemma HelloWire(run: ServiceRun)
    requires run == ServiceRun(["Hello"], None)
    ensures Concat(Frames(run)) == "data: Hello\n\n" + "data: [DONE]\n\n"
  {
    var none: seq<string> := [];
    var fs := Frames(run);
    assert run.chunks[1..] == [];
    assert fs == [Frame("Hello")] + [DoneFrame()];
    assert fs[1..] == [DoneFrame()] && fs[1..][1..] == none;
    assert Concat(fs[1..]) == DoneFrame() + Concat(none);
    assert Concat(fs) == Frame("Hello") + (DoneFrame() + "");
    assert Frame("Hello") == "data: Hello\n\n";
  }

  /** An error frame alone: `"data: [ERROR] rate limited\n\n"` yields no
      token and fails the stream with `rate limited`. */
  lemma ErrorFrameScenario()
    ensures DecodeStream("data: [ERROR] rate limited\n\n") == Progress([], Failed("rate limited"))
  {
    var m := "rate limited";
    var run := ServiceRun([], Some(m));
    ErrorWire(run, m);
    NoLineFeedFramable(m);
    RoundTrip(run);
  }

  lemma ErrorWire(run: ServiceRun, m: string)
    requires m == "rate limited" && run == ServiceRun([], Some(m))
    ensures Concat(Frames(run)) == "data: [ERROR] rate limited\n\n"
  {
    ErrorOnlyWire(run);
    ErrorFrameText(m);
  }

  lemma ErrorOnlyWire(run: ServiceRun)
    requires run.chunks == [] && run.raised.Some?
    ensures Concat(Frames(run)) == ErrorFrame(run.raised.value)
  {
    var none: seq<string> := [];
    var fs := Frames(run);
    assert fs == [ErrorFrame(run.raised.value)] && fs[1..] == none;
  }

  lemma ErrorFrameText(m: string)
    requires m == "rate limited"
    ensures ErrorFrame(m) == "data: [ERROR] rate limited\n\n"
  {
    assert ErrorPrefix + " " + m == "[ERROR] rate limited";
  }

  /** The condition on a trailing line feed cannot be dropped: the chunk
      `"a\n"` reaches the client as `"a"`, and the `[DONE]` frame after it
      is no longer a data frame and is skipped. */
  lemma TrailingLineFeedIsLost()
    ensures DecodeStream(Concat(Frames(ServiceRun(["a\n"], None)))).tokens == ["a"]
  {
    assert "a" + "\n" == "a\n";
    LineFeedChunk("a", ServiceRun(["a\n"], None));
  }

  lemma LineFeedChunk(a: string, run: ServiceRun)
    requires a == "a" && run == ServiceRun([a + "\n"], None)
    ensures DecodeStream(Concat(Frames(run))).tokens == [a]
  {
    var late := "\n" + (DataPrefix + DoneSentinel);
    var wire := Concat(Frames(run));
    LineFeedWire(a, run);
    assert Complete(wire) == [DataPrefix + a, late];
    assert (DataPrefix + a)[6..] == a;
    assert !StartsWith(late, DataPrefix) by {
      assert late[0] != DataPrefix[0];
    }
    var frames := [DataPrefix + a, late];
    var none: seq<string> := [];
    assert frames[1..] == [late] && [late][1..] == none;
    assert Classify(late) == Skip;
    assert Classify(DataPrefix + a) == Token(a);
    assert Process([late]) == Progress([], Open);
    assert Process(frames).tokens == [a];
  }

  /** The wire text of that run splits into the data frame of `a` and a
      frame that starts with the stray line feed. */
  lemma LineFeedWire(a: string, run: ServiceRun)
    requires a == "a" && run == ServiceRun([a + "\n"], None)
    ensures Split(Concat(Frames(run))) == [DataPrefix + a, "\n" + (DataPrefix + DoneSentinel), ""]
  {
    var late := "\n" + (DataPrefix + DoneSentinel);
    var fs := Frames(run);
    assert run.chunks[1..] == [];
    assert Frames(ServiceRun([], None)) == [DoneFrame()];
    assert fs == [Frame(a + "\n")] + [DoneFrame()];
    assert fs[1..] == [DoneFrame()] && fs[1..][1..] == [];
    assert Concat(fs[1..]) == DoneFrame() + Concat(fs[1..][1..]);
    assert Concat(fs) == fs[0] + Concat(fs[1..]);
    var wire := Concat(fs);
    assert wire == Frame(a + "\n") + (DoneFrame() + "");
    assert wire == (DataPrefix + a) + Separator + (late + Separator + "");
    NoLineFeedFramable(DataPrefix + a);
    SplitFrame(DataPrefix + a, late + Separator + "");
    NoLineFeedFramable(DataPrefix + DoneSentinel);
    LeadingLineFeed(DataPrefix + DoneSentinel);
    SplitFrame(late, "");
    assert Split("") == [""];
  }

  /** A line feed in front of a framable text that does not start with
      one keeps it framable. */
  lemma LeadingLineFeed(x: string)
    requires Framable(x) && x != [] && x[0] != '\n'
    ensures Framable("\n" + x)
  {
    var s := "\n" + x;
    forall i: nat | i <= |s| ensures !OccursAt(s, Separator, i) {
      if i == 0 {
        OccursAtChar(s, Separator, 0, 1);
        assert s[1] == x[0];
      } else {
        OccursInSuffix("\n", x, Separator, i);
      }
    }
    assert s[|s| - 1] == x[|x| - 1];
  }
}
