/** The frames the backend writes, read back: by the browser however the network cuts them,
    and by the backend's own parser exactly when Python sees no other line break in them. */
module SseRoundTrip {
  import opened Wrappers
  import opened SseText
  import BackendSse
  import BrowserSse

  /** An event type and the JSON text of its data. */
  datatype Frame = Frame(kind: string, text: string)

  function Body(frame: Frame): string {
    "event: " + frame.kind + "\ndata: " + frame.text
  }

  /** `_sse_frame`. */
  function SseFrame(frame: Frame): string {
    Body(frame) + "\n\n"
  }

  function Stream(frames: seq<Frame>): string {
    if frames == [] then "" else SseFrame(frames[0]) + Stream(frames[1..])
  }

  function Bodies(frames: seq<Frame>): seq<string> {
    seq(|frames|, i requires 0 <= i < |frames| => Body(frames[i]))
  }

  /** Neither CR nor LF: JSON text never holds one raw, nor does an event type read from a line. */
  predicate Framable(frame: Frame) {
    BackendSse.OneLine(frame.kind) && BackendSse.OneLine(frame.text)
  }

  lemma BodyIsOnePart(frame: Frame)
    requires Framable(frame)
    ensures NoCr(Body(frame)) && NoDouble(Body(frame)) && !EndsLine(Body(frame))
  {
    var head, tail := "event: " + frame.kind, "data: " + frame.text;
    assert Body(frame) == head + "\n" + tail;
    assert forall k | 0 <= k < |head| :: head[k] != '\n' && head[k] != '\r';
    assert forall k | 0 <= k < |tail| :: tail[k] != '\n' && tail[k] != '\r';
  }

  lemma {:induction false} StreamSplits(frames: seq<Frame>)
    requires forall frame <- frames :: Framable(frame)
    ensures NoCr(Stream(frames))
    ensures SplitDouble(Stream(frames)) == Bodies(frames) + [""]
  {
    if frames == [] {
    } else {
      BodyIsOnePart(frames[0]);
      StreamSplits(frames[1..]);
      BrowserSse.NoCrConcat(SseFrame(frames[0]), Stream(frames[1..]));
      SplitAtDelimiter(Body(frames[0]), Stream(frames[1..]));
      assert Bodies(frames) == [Body(frames[0])] + Bodies(frames[1..]);
    }
  }

  lemma {:induction false} SplitLfAt(a: string, b: string)
    requires BackendSse.OneLine(a)
    ensures BrowserSse.SplitLf(a) == [a]
    ensures BrowserSse.SplitLf(a + "\n" + b) == [a] + BrowserSse.SplitLf(b)
  {
    if a == "" {
      assert a + "\n" + b == "\n" + b;
      assert ("\n" + b)[1..] == b;
    } else {
      SplitLfAt(a[1..], b);
      assert (a + "\n" + b)[1..] == a[1..] + "\n" + b;
      assert a == [a[0]] + a[1..];
    }
  }

  lemma BrowserReadsBody<E>(frame: Frame, decode: (string, string) -> Option<E>)
    requires Framable(frame)
    ensures BrowserSse.ParseFrame(Body(frame), decode) ==
              match decode(frame.kind, frame.text)
              case Some(event) => BrowserSse.Emit(event)
              case None => BrowserSse.Throw
  {
    var head, tail := "event: " + frame.kind, "data: " + frame.text;
    assert Body(frame) == head + "\n" + tail;
    SplitLfAt(head, tail);
    SplitLfAt(tail, "");
    assert Body(frame)[0] == 'e';
    var lines := [head, tail];
    assert lines[1..] == [tail] && |lines[1..][1..]| == 0;
    assert head[7..] == frame.kind && tail[6..] == frame.text;
    assert "event: " <= head && "data: " <= tail && tail[0] == 'd';
    assert BrowserSse.Fields(lines, "message", []) == BrowserSse.Fields([tail], frame.kind, []);
    assert BrowserSse.Fields([tail], frame.kind, []) == BrowserSse.Fields([], frame.kind, [] + [frame.text]);
  }

  /** The frames decoded in order, up to the first that throws. */
  function Decoded<E>(frames: seq<Frame>, decode: (string, string) -> Option<E>): (seq<E>, bool) {
    if frames == [] then ([], false)
    else
      match decode(frames[0].kind, frames[0].text)
      case None => ([], true)
      case Some(event) =>
        var (events, threw) := Decoded(frames[1..], decode);
        ([event] + events, threw)
  }

  lemma {:induction false} BrowserReadsBodies<E>(frames: seq<Frame>, decode: (string, string) -> Option<E>)
    requires forall frame <- frames :: Framable(frame)
    ensures BrowserSse.Yielded(Bodies(frames) + [""], decode) == Decoded(frames, decode)
  {
    if frames == [] {
      assert Bodies(frames) + [""] == [""] && [""][1..] == [];
    } else {
      BrowserReadsBody(frames[0], decode);
      BrowserReadsBodies(frames[1..], decode);
      assert (Bodies(frames) + [""])[1..] == Bodies(frames[1..]) + [""];
    }
  }

  /** Whatever frames the backend writes and wherever the network cuts them, the browser reads
      exactly those frames, in order. */
  lemma BrowserRoundTrip<E>(frames: seq<Frame>, chunks: seq<string>, decode: (string, string) -> Option<E>)
    requires forall frame <- frames :: Framable(frame)
    requires Concat(chunks) == Stream(frames)
    ensures BrowserSse.Yielded(BrowserSse.AllFrames(chunks), decode) == Decoded(frames, decode)
  {
    StreamSplits(frames);
    forall k | 0 <= k < |chunks|
      ensures !CutsCrLf(Concat(chunks[..k]), chunks[k])
    {
      BackendSse.ConcatSplit(chunks, k);
      var a := Concat(chunks[..k]);
      assert a != "" ==> Concat(chunks)[|a| - 1] == a[|a| - 1];
    }
    BrowserSse.ChunkInvariantIffCutsSafely(chunks);
    NormIdempotent(Stream(frames));
    BrowserReadsBodies(frames, decode);
  }

  // ----- The backend's own parser -----

  predicate NoPythonBreak(s: string) {
    forall k | 0 <= k < |s| :: !BackendSse.BreaksLine(s[k])
  }

  lemma {:induction false} SplitLinesAt(a: string, b: string)
    requires NoPythonBreak(a)
    ensures BackendSse.SplitLines(a) == if a == "" then [] else [a]
    ensures BackendSse.SplitLines(a + "\n" + b) == [a] + BackendSse.SplitLines(b)
  {
    if a == "" {
      assert a + "\n" + b == "\n" + b;
      assert ("\n" + b)[1..] == b;
    } else {
      SplitLinesAt(a[1..], b);
      assert (a + "\n" + b)[1..] == a[1..] + "\n" + b;
      assert a == [a[0]] + a[1..];
    }
  }

  lemma {:induction false} LinesHoldNoBreak(s: string)
    ensures forall line <- BackendSse.SplitLines(s) :: NoPythonBreak(line)
    decreases |s|
  {
    if s != "" {
      LinesHoldNoBreak(s[1..]);
      if |s| > 1 {
        LinesHoldNoBreak(s[2..]);
      }
      if !BackendSse.BreaksLine(s[0]) && |s| > 1 && BackendSse.SplitLines(s[1..]) != [] {
        var rest := BackendSse.SplitLines(s[1..]);
        assert NoPythonBreak(rest[0]) && NoPythonBreak([s[0]] + rest[0]);
      }
    }
  }

  lemma {:induction false} FieldsHoldNoBreak(lines: seq<string>, kind: string, data: string)
    requires NoPythonBreak(kind) && NoPythonBreak(data) && forall line <- lines :: NoPythonBreak(line)
    ensures var (k, d) := BackendSse.Fields(lines, kind, data); NoPythonBreak(k) && NoPythonBreak(d)
  {
    if lines != [] {
      assert NoPythonBreak(lines[0]);
      FieldsHoldNoBreak(lines[1..], if BackendSse.EVENT <= lines[0] then lines[0][|BackendSse.EVENT|..] else kind,
                        if !(BackendSse.EVENT <= lines[0]) && BackendSse.DATA <= lines[0] then
                          lines[0][|BackendSse.DATA|..] else data);
    }
  }

  lemma BodyLines(frame: Frame)
    requires NoPythonBreak(frame.kind) && NoPythonBreak(frame.text)
    ensures BackendSse.SplitLines(Body(frame)) == ["event: " + frame.kind, "data: " + frame.text]
  {
    var head, tail := "event: " + frame.kind, "data: " + frame.text;
    assert Body(frame) == head + "\n" + tail;
    SplitLinesAt(head, tail);
    SplitLinesAt(tail, "");
  }

  lemma TwoFields(kind: string, text: string)
    ensures BackendSse.Fields(["event: " + kind, "data: " + text], "message", "") == (kind, text)
  {
    var head, tail := "event: " + kind, "data: " + text;
    assert head[7..] == kind && tail[6..] == text;
    assert !(BackendSse.EVENT <= tail) by { assert tail[0] == 'd'; }
    assert [head, tail][1..] == [tail];
    assert BackendSse.Fields([tail], kind, "") == BackendSse.Fields([tail][1..], kind, text);
  }

  /** The backend's parser reads such a frame back exactly when `splitlines` breaks neither its
      type nor its JSON text: a raw U+2028, say, which JSON allows in strings, truncates it. */
  lemma BackendReadsItsFrameIff(frame: Frame)
    ensures BackendSse.Fields(BackendSse.SplitLines(Body(frame)), "message", "") == (frame.kind, frame.text)
            <==> NoPythonBreak(frame.kind) && NoPythonBreak(frame.text)
  {
    LinesHoldNoBreak(Body(frame));
    FieldsHoldNoBreak(BackendSse.SplitLines(Body(frame)), "message", "");
    if NoPythonBreak(frame.kind) && NoPythonBreak(frame.text) {
      BodyLines(frame);
      TwoFields(frame.kind, frame.text);
    }
  }
}
