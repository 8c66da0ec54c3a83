/** The browser's incremental event-stream reader, and what it makes of the frames the
    backend writes. */
module BrowserSse {
  import opened Wrappers
  import opened SseText

  datatype Parsed<+E> = Skip | Emit(event: E) | Throw

  /** `frame.split('\n')`. */
  function SplitLf(s: string): (lines: seq<string>)
    ensures lines != []
  {
    if s == "" then [""]
    else
      var rest := SplitLf(s[1..]);
      if s[0] == '\n' then [""] + rest else [[s[0]] + rest[0]] + rest[1..]
  }

  /** What `String.prototype.trim` removes. */
  predicate IsJsSpace(c: char) {
    || '\t' <= c <= '\r' || c == ' ' || c == '\U{a0}' || c == '\U{1680}' || '\U{2000}' <= c <= '\U{200a}'
    || c == '\U{2028}' || c == '\U{2029}' || c == '\U{202f}' || c == '\U{205f}' || c == '\U{3000}' || c == '\U{feff}'
  }

  predicate TrimsToNothing(s: string) {
    forall k | 0 <= k < |s| :: IsJsSpace(s[k])
  }

  /** The event type and the data lines after some lines. */
  function Fields(lines: seq<string>, kind: string, data: seq<string>): (string, seq<string>) {
    if lines == [] then (kind, data)
    else if "event: " <= lines[0] then Fields(lines[1..], lines[0][7..], data)
    else if "event:" <= lines[0] then Fields(lines[1..], lines[0][6..], data)
    else if "data: " <= lines[0] then Fields(lines[1..], kind, data + [lines[0][6..]])
    else if "data:" <= lines[0] then Fields(lines[1..], kind, data + [lines[0][5..]])
    else Fields(lines[1..], kind, data)
  }

  function JoinLines(lines: seq<string>): string
    requires lines != []
  {
    if |lines| == 1 then lines[0] else lines[0] + "\n" + JoinLines(lines[1..])
  }

  /** `decode` is the JSON reader followed by the event schema: nothing where they throw. */
  function ParseFrame<E>(frame: string, decode: (string, string) -> Option<E>): Parsed<E> {
    if TrimsToNothing(frame) then Skip
    else
      var (kind, data) := Fields(SplitLf(frame), "message", []);
      if data == [] then Skip
      else
        match decode(kind, JoinLines(data))
        case Some(event) => Emit(event)
        case None => Throw
  }

  method ParseSseFrame<E>(frame: string, decode: (string, string) -> Option<E>) returns (parsed: Parsed<E>)
    ensures parsed == ParseFrame(frame, decode)
  {
    if TrimsToNothing(frame) {
      return Skip;
    }
    var lines := SplitLf(frame);
    var eventType := "message";
    var dataLines: seq<string> := [];
    for k := 0 to |lines|
      invariant Fields(lines, "message", []) == Fields(lines[k..], eventType, dataLines)
    {
      var line := lines[k];
      assert lines[k..][1..] == lines[k + 1..];
      if "event: " <= line {
        eventType := line[7..];
      } else if "event:" <= line {
        eventType := line[6..];
      } else if "data: " <= line {
        dataLines := dataLines + [line[6..]];
      } else if "data:" <= line {
        dataLines := dataLines + [line[5..]];
      }
    }
    if dataLines == [] {
      return Skip;
    }
    match decode(eventType, JoinLines(dataLines))
    case Some(event) => parsed := Emit(event);
    case None => parsed := Throw;
  }

  /** The events of the frames before the first that throws, and whether one threw. */
  function Yielded<E>(frames: seq<string>, decode: (string, string) -> Option<E>): (seq<E>, bool) {
    if frames == [] then ([], false)
    else
      match ParseFrame(frames[0], decode)
      case Throw => ([], true)
      case Skip => Yielded(frames[1..], decode)
      case Emit(event) =>
        var (events, threw) := Yielded(frames[1..], decode);
        ([event] + events, threw)
  }

  // ----- drainFrames over the chunks of a stream -----

  /** The frames drained from each chunk in turn, and the buffer left. */
  function Drained(chunks: seq<string>): (result: (seq<string>, string)) {
    if chunks == [] then ([], "")
    else
      var (frames, buffer) := Drained(Init(chunks));
      var parts := SplitDouble(NormalizeNewlines(buffer + Final(chunks)));
      (frames + Init(parts), Final(parts))
  }

  /** Everything the reader hands to the frame parser, the final flush included. */
  function AllFrames(chunks: seq<string>): seq<string> {
    var (frames, buffer) := Drained(chunks);
    frames + SplitDouble(NormalizeNewlines(buffer))
  }

  method ParseSseStream<E>(chunks: seq<string>, decode: (string, string) -> Option<E>) returns (events: seq<E>, threw: bool)
    ensures (events, threw) == Yielded(AllFrames(chunks), decode)
  {
    events := [];
    var buffer := "";
    ghost var seen: seq<string> := [];
    for i := 0 to |chunks|
      invariant Drained(chunks[..i]) == (seen, buffer)
      invariant Yielded(seen, decode) == (events, false)
    {
      assert Init(chunks[..i + 1]) == chunks[..i] && Final(chunks[..i + 1]) == chunks[i];
      var parts := SplitDouble(NormalizeNewlines(buffer + chunks[i]));
      ghost var fed;
      events, threw, fed := FeedFrames(Init(parts), seen, events, decode);
      if threw {
        DrainedComesFirst(chunks, i + 1, seen + Init(parts)[..fed]);
        YieldedOfPrefix(seen + Init(parts)[..fed], AllFrames(chunks), decode);
        return;
      }
      assert Init(parts)[..fed] == Init(parts);
      seen, buffer := seen + Init(parts), Final(parts);
    }
    assert chunks[..|chunks|] == chunks;
    var parts := SplitDouble(NormalizeNewlines(buffer));
    ghost var fed;
    events, threw, fed := FeedFrames(parts, seen, events, decode);
    YieldedOfPrefix(seen + parts[..fed], AllFrames(chunks), decode);
    assert !threw ==> parts[..fed] == parts;
  }

  method FeedFrames<E>(frames: seq<string>, ghost done: seq<string>, before: seq<E>, decode: (string, string) -> Option<E>)
    returns (events: seq<E>, threw: bool, ghost fed: nat)
    requires Yielded(done, decode) == (before, false)
    ensures fed <= |frames| && (!threw ==> fed == |frames|)
    ensures Yielded(done + frames[..fed], decode) == (events, threw)
  {
    events := before;
    assert done + frames[..0] == done;
    for k := 0 to |frames|
      invariant Yielded(done + frames[..k], decode) == (events, false)
    {
      assert done + frames[..k + 1] == (done + frames[..k]) + [frames[k]];
      YieldedConcat(done + frames[..k], [frames[k]], decode);
      assert [frames[k]][1..] == [];
      var parsed := ParseSseFrame(frames[k], decode);
      match parsed
      case Throw =>
        assert events + [] == events;
        return events, true, k + 1;
      case Skip => assert events + [] == events;
      case Emit(event) =>
        assert [event] + [] == [event];
        events := events + [event];
    }
    threw, fed := false, |frames|;
  }

  lemma {:induction false} YieldedConcat<E>(a: seq<string>, b: seq<string>, decode: (string, string) -> Option<E>)
    ensures Yielded(a + b, decode) ==
              if Yielded(a, decode).1 then Yielded(a, decode)
              else (Yielded(a, decode).0 + Yielded(b, decode).0, Yielded(b, decode).1)
  {
    if a == [] {
      assert a + b == b;
      assert [] + Yielded(b, decode).0 == Yielded(b, decode).0;
    } else {
      assert (a + b)[1..] == a[1..] + b;
      YieldedConcat(a[1..], b, decode);
      if ParseFrame(a[0], decode).Emit? && !Yielded(a[1..], decode).1 {
        var e := [ParseFrame(a[0], decode).event];
        assert e + (Yielded(a[1..], decode).0 + Yielded(b, decode).0) == (e + Yielded(a[1..], decode).0) + Yielded(b, decode).0;
      }
    }
  }

  lemma YieldedOfPrefix<E>(parts: seq<string>, whole: seq<string>, decode: (string, string) -> Option<E>)
    requires parts <= whole
    ensures Yielded(parts, decode).1 ==> Yielded(whole, decode) == Yielded(parts, decode)
  {
    assert whole == parts + whole[|parts|..];
    YieldedConcat(parts, whole[|parts|..], decode);
  }

  lemma {:induction false} DrainedComesFirst(chunks: seq<string>, i: nat, frames: seq<string>)
    requires i <= |chunks| && frames <= Drained(chunks[..i]).0
    ensures frames <= AllFrames(chunks)
    decreases |chunks| - i
  {
    if i == |chunks| {
      assert chunks[..i] == chunks;
    } else {
      assert Init(chunks[..i + 1]) == chunks[..i];
      DrainedComesFirst(chunks, i + 1, frames);
    }
  }

  // ----- Chunk invariance, exactly -----

  /** No cut falls between the CR and the LF of one line ending. */
  ghost predicate CutsSafely(chunks: seq<string>) {
    forall k | 0 <= k < |chunks| :: !CutsCrLf(Concat(chunks[..k]), chunks[k])
  }

  /** The text the reader works on: each chunk is normalized by itself, so a CR LF cut in two
      reads as two line ends. */
  function Effective(chunks: seq<string>): string {
    if chunks == [] then "" else Effective(Init(chunks)) + Norm(Final(chunks))
  }

  lemma NoCrConcat(a: string, b: string)
    requires NoCr(a) && NoCr(b)
    ensures NoCr(a + b)
  {
  }

  /** The buffer is the last part of the text so far, and the drained frames are the others. */
  lemma {:induction false} DrainedIsSplit(chunks: seq<string>)
    ensures var (frames, buffer) := Drained(chunks);
            SplitDouble(Effective(chunks)) == frames + [buffer] && NoCr(buffer) && NoDouble(buffer)
  {
    if chunks != [] {
      DrainedIsSplit(Init(chunks));
      var (frames, buffer) := Drained(Init(chunks));
      var e, n := Effective(Init(chunks)), Norm(Final(chunks));
      TwoReplacementsNormalize(buffer + Final(chunks));
      NormConcat(buffer, Final(chunks));
      NormIdempotent(buffer);
      NormHasNoCr(buffer + Final(chunks));
      SplitConcat(e, n);
      assert Init(SplitDouble(e)) == frames;
      var parts := SplitDouble(buffer + n);
      PartsHaveNoDouble(buffer + n);
      PartsHaveNoCr(buffer + n);
      assert frames + parts == (frames + Init(parts)) + [Final(parts)];
    }
  }

  lemma {:induction false} PartsHaveNoCr(s: string)
    requires NoCr(s)
    ensures forall part <- SplitDouble(s) :: NoCr(part)
  {
    if |s| >= 2 {
      PartsHaveNoCr(s[1..]);
      PartsHaveNoCr(s[2..]);
      if !(s[0] == '\n' && s[1] == '\n') {
        var rest := SplitDouble(s[1..]);
        assert NoCr(rest[0]) && NoCr([s[0]] + rest[0]);
      }
    }
  }

  /** All frames handed on are the parts of the effective text, for every cutting. */
  lemma FramesAreEffectiveParts(chunks: seq<string>)
    ensures AllFrames(chunks) == SplitDouble(Effective(chunks))
  {
    DrainedIsSplit(chunks);
    var buffer := Drained(chunks).1;
    TwoReplacementsNormalize(buffer);
    NormIdempotent(buffer);
    SplitSingle(buffer);
  }

  lemma {:induction false} EffectiveLength(chunks: seq<string>)
    ensures |Effective(chunks)| >= |Norm(Concat(chunks))|
    ensures CutsSafely(chunks) ==> Effective(chunks) == Norm(Concat(chunks))
    ensures !CutsSafely(chunks) ==> |Effective(chunks)| > |Norm(Concat(chunks))|
  {
    if chunks != [] {
      var init, last := Init(chunks), Final(chunks);
      EffectiveLength(init);
      assert chunks == init + [last];
      ConcatAppend(init, last);
      NormConcat(Concat(init), last);
      assert CutsCrLf(Concat(init), last) ==> Norm(last) == "\n" + Norm(last[1..]);
      forall k | 0 <= k < |init|
        ensures init[..k] == chunks[..k] && init[k] == chunks[k]
      {
      }
      assert chunks[..|init|] == init && chunks[|init|] == last;
      assert CutsSafely(chunks) <==> CutsSafely(init) && !CutsCrLf(Concat(init), last);
    }
  }

  function JoinDouble(parts: seq<string>): string {
    if parts == [] then "" else if |parts| == 1 then parts[0] else parts[0] + "\n\n" + JoinDouble(parts[1..])
  }

  lemma JoinPrepend(c: char, parts: seq<string>)
    requires parts != []
    ensures JoinDouble([[c] + parts[0]] + parts[1..]) == [c] + JoinDouble(parts)
  {
    var longer := [[c] + parts[0]] + parts[1..];
    assert longer[1..] == parts[1..];
    if |parts| > 1 {
      var tail := JoinDouble(parts[1..]);
      assert ([c] + parts[0]) + "\n\n" + tail == [c] + (parts[0] + "\n\n" + tail);
    }
  }

  lemma {:induction false} JoinSplit(s: string)
    ensures JoinDouble(SplitDouble(s)) == s
  {
    if |s| >= 2 {
      if s[0] == '\n' && s[1] == '\n' {
        JoinSplit(s[2..]);
        assert SplitDouble(s)[1..] == SplitDouble(s[2..]);
        assert s == "" + "\n\n" + s[2..];
      } else {
        JoinSplit(s[1..]);
        JoinPrepend(s[0], SplitDouble(s[1..]));
        assert s == [s[0]] + s[1..];
      }
    }
  }

  /** The browser frames a stream as one undivided text would be framed exactly when no cut
      separates a CR from its LF. */
  lemma ChunkInvariantIffCutsSafely(chunks: seq<string>)
    ensures AllFrames(chunks) == SplitDouble(Norm(Concat(chunks))) <==> CutsSafely(chunks)
  {
    FramesAreEffectiveParts(chunks);
    EffectiveLength(chunks);
    JoinSplit(Effective(chunks));
    JoinSplit(Norm(Concat(chunks)));
  }

  /** The failing case in the small: one event becomes two frames. */
  lemma CutCrLfSplitsAFrame()
    ensures var chunks := ["event: a\r", "\ndata: b\n\n"];
            Concat(chunks) == "event: a\r\ndata: b\n\n" && AllFrames(chunks) != SplitDouble(Norm(Concat(chunks)))
  {
    var chunks := ["event: a\r", "\ndata: b\n\n"];
    assert Concat(chunks[1..]) == "\ndata: b\n\n" by { assert chunks[1..][1..] == []; }
    assert chunks[..1] == ["event: a\r"];
    assert Concat(chunks[..1]) == "event: a\r" by { assert chunks[..1][1..] == []; }
    assert CutsCrLf(Concat(chunks[..1]), chunks[1]);
    ChunkInvariantIffCutsSafely(chunks);
  }
}
