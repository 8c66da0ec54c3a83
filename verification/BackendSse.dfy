/** The backend's incremental event-stream reader: frame splitting with a carried CR, frame
    parsing, and the loop that feeds it. */
module BackendSse {
  import opened Wrappers
  import opened JsonValues
  import opened SseText

  // ----- _split_sse_frames -----

  predicate IsEol(c: char) {
    c == '\r' || c == '\n'
  }

  /** The length of the line ending at `i`; 0 when there is none, or when a final CR may
      still turn out to be half of a CR LF. */
  function EolAt(s: string, i: nat): (n: nat)
    requires i < |s|
    ensures i + n <= |s|
  {
    if s[i] == '\n' then 1
    else if s[i] == '\r' && i + 1 < |s| then (if s[i + 1] == '\n' then 2 else 1)
    else 0
  }

  /** The first two consecutive line endings from `i` on: where they start and end. */
  function FirstDelimiter(s: string, i: nat): (found: Option<(nat, nat)>)
    requires i <= |s|
    ensures found.Some? ==> i <= found.value.0 < found.value.1 <= |s|
    decreases |s| - i
  {
    if i == |s| then None
    else if !IsEol(s[i]) then FirstDelimiter(s, i + 1)
    else
      var n := EolAt(s, i);
      if n == 0 || i + n == |s| then None
      else if !IsEol(s[i + n]) then FirstDelimiter(s, i + n + 1)
      else
        var m := EolAt(s, i + n);
        if m == 0 then None else Some((i, i + n + m))
  }

  function FramesFrom(s: string, start: nat): (result: (seq<string>, string))
    requires start <= |s|
    decreases |s| - start
  {
    match FirstDelimiter(s, start)
    case None => ([], s[start..])
    case Some((from, to)) =>
      var (frames, rest) := FramesFrom(s, to);
      ([s[start..from]] + frames, rest)
  }

  ghost predicate SplitSoFar(s: string, frames: seq<string>, start: nat)
    requires start <= |s|
  {
    && FramesFrom(s, 0).0 == frames + FramesFrom(s, start).0
    && FramesFrom(s, 0).1 == FramesFrom(s, start).1
  }

  lemma OneMoreFrame(s: string, frames: seq<string>, start: nat)
    requires start <= |s| && SplitSoFar(s, frames, start) && FirstDelimiter(s, start).Some?
    ensures var (from, to) := FirstDelimiter(s, start).value; SplitSoFar(s, frames + [s[start..from]], to)
  {
    var (from, to) := FirstDelimiter(s, start).value;
    assert frames + ([s[start..from]] + FramesFrom(s, to).0) == (frames + [s[start..from]]) + FramesFrom(s, to).0;
  }

  /** Where the scan from `start` stands: `count` consecutive line endings, the first at `mark`,
      reach up to `index`, and no delimiter was passed. */
  ghost predicate Scanned(s: string, start: nat, mark: Option<nat>, count: nat, index: nat) {
    && start <= index <= |s| && count <= 1
    && (count == 0 ==> FirstDelimiter(s, start) == FirstDelimiter(s, index))
    && (count == 1 ==>
          && mark.Some? && start <= mark.value < index
          && EolAt(s, mark.value) > 0 && index == mark.value + EolAt(s, mark.value)
          && FirstDelimiter(s, start) == FirstDelimiter(s, mark.value))
  }

  lemma ScanOther(s: string, start: nat, mark: Option<nat>, count: nat, index: nat)
    requires Scanned(s, start, mark, count, index) && index < |s| && !IsEol(s[index])
    ensures Scanned(s, start, None, 0, index + 1)
  {
  }

  lemma ScanEol(s: string, start: nat, mark: Option<nat>, count: nat, index: nat)
    requires Scanned(s, start, mark, count, index) && index < |s| && EolAt(s, index) > 0
    ensures count == 0 ==> Scanned(s, start, Some(index), 1, index + EolAt(s, index))
    ensures count == 1 ==> FirstDelimiter(s, start) == Some((mark.value, index + EolAt(s, index)))
  {
  }

  lemma ScanEnd(s: string, start: nat, mark: Option<nat>, count: nat, index: nat)
    requires Scanned(s, start, mark, count, index) && (index == |s| || (IsEol(s[index]) && EolAt(s, index) == 0))
    ensures FirstDelimiter(s, start) == None
  {
  }

  method SplitSseFrames(buffer: string) returns (frames: seq<string>, rest: string)
    ensures (frames, rest) == FramesFrom(buffer, 0)
  {
    hide SplitSoFar, FirstDelimiter;
    frames := [];
    var frameStart: nat := 0;
    var delimiterStart: Option<nat> := None;
    var lineEndings := 0;
    var index: nat := 0;
    ScanStart(buffer);
    while index < |buffer|
      invariant frameStart <= index <= |buffer|
      invariant SplitSoFar(buffer, frames, frameStart)
      invariant Scanned(buffer, frameStart, delimiterStart, lineEndings, index)
    {
      var atomStart := index;
      var current := buffer[index];
      if current == '\r' {
        if index + 1 >= |buffer| {
          break;
        }
        index := index + if buffer[index + 1] == '\n' then 2 else 1;
      } else if current == '\n' {
        index := index + 1;
      } else {
        ScanOther(buffer, frameStart, delimiterStart, lineEndings, index);
        index := index + 1;
        lineEndings := 0;
        delimiterStart := None;
        continue;
      }
      ScanEol(buffer, frameStart, delimiterStart, lineEndings, atomStart);
      if lineEndings == 0 {
        delimiterStart := Some(atomStart);
      }
      lineEndings := lineEndings + 1;
      if lineEndings == 2 {
        OneMoreFrame(buffer, frames, frameStart);
        frames := frames + [buffer[frameStart..delimiterStart.value]];
        frameStart := index;
        lineEndings := 0;
        delimiterStart := None;
        ScanAgain(buffer, index);
      }
    }
    ScanEnd(buffer, frameStart, delimiterStart, lineEndings, index);
    NoMoreFrames(buffer, frames, frameStart);
    rest := buffer[frameStart..];
  }

  lemma ScanStart(s: string)
    ensures SplitSoFar(s, [], 0) && Scanned(s, 0, None, 0, 0)
  {
    assert [] + FramesFrom(s, 0).0 == FramesFrom(s, 0).0;
  }

  lemma ScanAgain(s: string, index: nat)
    requires index <= |s|
    ensures Scanned(s, index, None, 0, index)
  {
  }

  lemma NoMoreFrames(s: string, frames: seq<string>, start: nat)
    requires start <= |s| && SplitSoFar(s, frames, start) && FirstDelimiter(s, start) == None
    ensures FramesFrom(s, 0) == (frames, s[start..])
  {
    assert frames + [] == frames;
  }

  // ----- What a frame is -----

  /** Text that ends inside a line (or is empty) and has no blank line before. */
  ghost predicate Clean(x: string) {
    NoDouble(Norm(x)) && !EndsLine(Norm(x)) && (x != "" ==> !IsEol(x[|x| - 1]))
  }

  lemma NormOne(c: char)
    ensures Norm([c]) == [if c == '\r' then '\n' else c]
  {
    assert [c][1..] == "";
  }

  /** One line ending, as `EolAt` measures it. */
  predicate IsEolText(e: string) {
    e == "\n" || e == "\r" || e == "\r\n"
  }

  lemma NormEol(e: string)
    requires IsEolText(e)
    ensures Norm(e) == "\n"
  {
    assert "\n"[1..] == "" && "\r"[1..] == "" && "\r\n"[2..] == "";
  }

  lemma EolIsEol(s: string, i: nat)
    requires i < |s| && EolAt(s, i) > 0
    ensures IsEolText(s[i..i + EolAt(s, i)])
    ensures s[i + EolAt(s, i) - 1] == '\r' ==> i + EolAt(s, i) < |s| && s[i + EolAt(s, i)] != '\n'
  {
  }

  lemma CleanThenChar(x: string, c: char)
    requires Clean(x) && !IsEol(c)
    ensures Clean(x + [c]) && Norm(x + [c]) == Norm(x) + [c]
  {
    NormConcat(x, [c]);
    NormOne(c);
  }

  lemma CleanThenEol(x: string, e: string)
    requires Clean(x) && IsEolText(e)
    ensures Norm(x + e) == Norm(x) + "\n" && NoDouble(Norm(x + e))
  {
    NormConcat(x, e);
    NormEol(e);
  }

  lemma CleanThenLine(x: string, e: string, c: char)
    requires Clean(x) && IsEolText(e) && !IsEol(c)
    ensures Clean(x + e + [c])
  {
    CleanThenEol(x, e);
    NormConcat(x + e, [c]);
    NormOne(c);
  }

  /** A text with no complete separator: none at all, or one whose last CR may still grow. */
  ghost predicate Unfinished(x: string) {
    NoDouble(Norm(x)) || exists p :: Norm(x) == p + "\n\n" && NoDouble(p) && !EndsLine(p)
  }

  /** `FirstDelimiter` finds exactly the end of the first frame. */
  ghost predicate Delimits(s: string, start: nat, from: nat, to: nat) {
    && start <= from < to <= |s|
    && Clean(s[start..from])
    && Norm(s[from..to]) == "\n\n"
    && (s[to - 1] == '\r' ==> to < |s| && s[to] != '\n')
  }

  ghost predicate Means(s: string, start: nat, found: Option<(nat, nat)>)
    requires start <= |s|
  {
    match found
    case Some((from, to)) => Delimits(s, start, from, to)
    case None => Unfinished(s[start..])
  }

  lemma {:induction false} DelimiterMeaning(s: string, start: nat, i: nat)
    requires start <= i <= |s| && Clean(s[start..i])
    ensures Means(s, start, FirstDelimiter(s, i))
    decreases |s| - i
  {
    if i == |s| {
      assert s[start..] == s[start..i];
    } else if !IsEol(s[i]) {
      CleanThenChar(s[start..i], s[i]);
      assert s[start..i + 1] == s[start..i] + [s[i]];
      DelimiterMeaning(s, start, i + 1);
    } else {
      DelimiterAtEol(s, start, i);
    }
  }

  lemma {:induction false} DelimiterAtEol(s: string, start: nat, i: nat)
    requires start <= i < |s| && Clean(s[start..i]) && IsEol(s[i])
    ensures Means(s, start, FirstDelimiter(s, i))
    decreases |s| - i, 0
  {
    hide Norm, Clean, Unfinished;
    var n := EolAt(s, i);
    if n == 0 || i + n == |s| {
      LastEolOpen(s, start, i);
    } else if !IsEol(s[i + n]) {
      EolIsEol(s, i);
      CleanThenLine(s[start..i], s[i..i + n], s[i + n]);
      assert s[start..i + n + 1] == s[start..i] + s[i..i + n] + [s[i + n]];
      DelimiterMeaning(s, start, i + n + 1);
    } else if EolAt(s, i + n) == 0 {
      SecondEolOpen(s, start, i);
    } else {
      TwoEols(s, i);
    }
  }

  lemma LastEolOpen(s: string, start: nat, i: nat)
    requires start <= i < |s| && Clean(s[start..i]) && IsEol(s[i])
    requires EolAt(s, i) == 0 || i + EolAt(s, i) == |s|
    ensures Unfinished(s[start..])
  {
    assert s[start..] == s[start..i] + s[i..];
    CleanThenEol(s[start..i], s[i..]);
  }

  lemma SecondEolOpen(s: string, start: nat, i: nat)
    requires start <= i < |s| && Clean(s[start..i]) && EolAt(s, i) > 0
    requires i + EolAt(s, i) < |s| && IsEol(s[i + EolAt(s, i)]) && EolAt(s, i + EolAt(s, i)) == 0
    ensures Unfinished(s[start..])
  {
    hide Norm, Clean, Unfinished;
    var n := EolAt(s, i);
    EolIsEol(s, i);
    CleanThenOpenSeparator(s[start..i], s[i..i + n]);
    assert s[i + n..] == "\r";
    Adjacent(s, start, i, i + n);
    AdjacentRest(s, start, i + n);
  }

  lemma CleanThenOpenSeparator(x: string, e: string)
    requires Clean(x) && IsEolText(e)
    ensures Unfinished(x + e + "\r")
  {
    CleanThenEol(x, e);
    NormConcat(x + e, "\r");
    NormEol("\r");
    assert Norm(x) + "\n" + "\n" == Norm(x) + "\n\n";
  }

  lemma TwoEols(s: string, i: nat)
    requires i < |s| && EolAt(s, i) > 0 && i + EolAt(s, i) < |s| && EolAt(s, i + EolAt(s, i)) > 0
    ensures var to := i + EolAt(s, i) + EolAt(s, i + EolAt(s, i));
            Norm(s[i..to]) == "\n\n" && (s[to - 1] == '\r' ==> to < |s| && s[to] != '\n')
  {
    hide Norm;
    var n := EolAt(s, i);
    var m := EolAt(s, i + n);
    var e, f := s[i..i + n], s[i + n..i + n + m];
    EolIsEol(s, i);
    EolIsEol(s, i + n);
    assert e[|e| - 1] == s[i + n - 1] && f[0] == s[i + n];
    Adjacent(s, i, i + n, i + n + m);
    NormTwoEols(e, f);
  }

  lemma NormTwoEols(e: string, f: string)
    requires IsEolText(e) && IsEolText(f) && !CutsCrLf(e, f)
    ensures Norm(e + f) == "\n\n"
  {
    NormEol(e);
    NormEol(f);
    NormConcat(e, f);
  }

  function Norms(frames: seq<string>): seq<string> {
    seq(|frames|, i requires 0 <= i < |frames| => Norm(frames[i]))
  }

  /** Cutting frames off the front is splitting the normalized text, whatever text follows:
      the carried rest loses nothing, not even half of a CR LF. */
  lemma {:induction false} FramesResume(s: string, start: nat, t: string)
    requires start <= |s|
    ensures var (frames, rest) := FramesFrom(s, start);
            && SplitDouble(Norm(s[start..] + t)) == Norms(frames) + SplitDouble(Norm(rest + t))
            && (forall frame <- frames :: Clean(frame))
            && Unfinished(rest)
    decreases |s| - start
  {
    assert s[start..start] == "";
    DelimiterMeaning(s, start, start);
    hide Norm, SplitDouble, FirstDelimiter, Unfinished;
    match FirstDelimiter(s, start)
    case None =>
      assert Norms([]) + SplitDouble(Norm(s[start..] + t)) == SplitDouble(Norm(s[start..] + t));
    case Some((from, to)) =>
      FramesResume(s, to, t);
      CutOne(s, start, from, to, t);
      NormsCons(s[start..from], FramesFrom(s, to).0, SplitDouble(Norm(FramesFrom(s, to).1 + t)));
  }

  lemma NormsCons(frame: string, frames: seq<string>, parts: seq<string>)
    ensures Norms([frame] + frames) + parts == [Norm(frame)] + (Norms(frames) + parts)
  {
    hide Norm;
    assert Norms([frame] + frames) == [Norm(frame)] + Norms(frames);
  }

  lemma CutOne(s: string, start: nat, from: nat, to: nat, t: string)
    requires Delimits(s, start, from, to)
    ensures SplitDouble(Norm(s[start..] + t)) == [Norm(s[start..from])] + SplitDouble(Norm(s[to..] + t))
  {
    var f, d, r := s[start..from], s[from..to], s[to..] + t;
    hide Norm, SplitDouble;
    Adjacent(s, start, from, to);
    AdjacentRest(s, start, to);
    Associative(f + d, s[to..], t);
    NormConcat(f, d);
    NormConcat(f + d, r);
    assert (f + d)[|f + d| - 1] == s[to - 1] && (to < |s| ==> r[0] == s[to]);
    assert !CutsCrLf(f + d, r);
    SplitAtDelimiter(Norm(f), Norm(r));
  }

  // ----- _parse_sse_chunk -----

  /** `str.isspace` for one character. */
  predicate IsSpace(c: char) {
    || '\t' <= c <= '\r' || '\U{1c}' <= c <= ' ' || c == '\U{85}' || c == '\U{a0}' || c == '\U{1680}'
    || '\U{2000}' <= c <= '\U{200a}' || c == '\U{2028}' || c == '\U{2029}' || c == '\U{202f}' || c == '\U{205f}'
    || c == '\U{3000}'
  }

  /** `not text.strip()`. */
  predicate Blank(s: string) {
    forall k | 0 <= k < |s| :: IsSpace(s[k])
  }

  /** The characters at which `str.splitlines` breaks. */
  predicate BreaksLine(c: char) {
    '\n' <= c <= '\r' || '\U{1c}' <= c <= '\U{1e}' || c == '\U{85}' || c == '\U{2028}' || c == '\U{2029}'
  }

  function SplitLines(s: string): seq<string>
    decreases |s|
  {
    if s == "" then []
    else if BreaksLine(s[0]) then [""] + SplitLines(s[if |s| > 1 && s[0] == '\r' && s[1] == '\n' then 2 else 1..])
    else
      var rest := SplitLines(s[1..]);
      if |s| == 1 || rest == [] then [s] else [[s[0]] + rest[0]] + rest[1..]
  }

  datatype WireEvent = WireEvent(kind: string, data: Json)

  datatype PartResult<+E> = Skip | Emit(event: E) | Bad

  const EVENT := "event: "
  const DATA := "data: "

  /** The type and data text after some lines: the last of each wins. */
  function Fields(lines: seq<string>, kind: string, data: string): (string, string) {
    if lines == [] then (kind, data)
    else if EVENT <= lines[0] then Fields(lines[1..], lines[0][|EVENT|..], data)
    else if DATA <= lines[0] then Fields(lines[1..], kind, lines[0][|DATA|..])
    else Fields(lines[1..], kind, data)
  }

  /** One separated part; `json` is the strict JSON reader, nothing for what it rejects. */
  function ParsePart(part: string, json: string -> Option<Json>): PartResult<WireEvent> {
    if Blank(part) then Skip
    else
      var (kind, data) := Fields(SplitLines(part), "message", "");
      if data == "" then Skip
      else
        match json(data)
        case Some(value) => Emit(WireEvent(kind, value))
        case None => Bad
  }

  /** The events of the parts before the first bad one, and whether one was bad. */
  function Yielded(parts: seq<string>, json: string -> Option<Json>): (seq<WireEvent>, bool) {
    if parts == [] then ([], false)
    else
      match ParsePart(parts[0], json)
      case Bad => ([], true)
      case Skip => Yielded(parts[1..], json)
      case Emit(event) =>
        var (events, failed) := Yielded(parts[1..], json);
        ([event] + events, failed)
  }

  /** `_parse_sse_chunk` as a whole: the list of events, or nothing when it raises. */
  function ParseAll(chunk: string, json: string -> Option<Json>): Option<seq<WireEvent>> {
    var (events, failed) := Yielded(SplitDouble(NormalizeNewlines(chunk)), json);
    if failed then None else Some(events)
  }

  method ParseSseChunk(chunk: string, json: string -> Option<Json>) returns (events: Option<seq<WireEvent>>)
    ensures events == ParseAll(chunk, json)
  {
    var parts := SplitDouble(NormalizeNewlines(chunk));
    var list: seq<WireEvent> := [];
    for i := 0 to |parts|
      invariant Yielded(parts, json).0 == list + Yielded(parts[i..], json).0
      invariant Yielded(parts, json).1 == Yielded(parts[i..], json).1
    {
      var part := parts[i];
      assert parts[i..][1..] == parts[i + 1..];
      if Blank(part) {
        continue;
      }
      var kind, data := "message", "";
      var lines := SplitLines(part);
      for k := 0 to |lines|
        invariant Fields(lines, "message", "") == Fields(lines[k..], kind, data)
      {
        var line := lines[k];
        assert lines[k..][1..] == lines[k + 1..];
        if EVENT <= line {
          kind := line[|EVENT|..];
        } else if DATA <= line {
          data := line[|DATA|..];
        }
      }
      if data == "" {
        continue;
      }
      var value := json(data);
      if value.None? {
        return None;
      }
      list := list + [WireEvent(kind, value.value)];
    }
    assert parts[|parts|..] == [] && list + [] == list;
    events := Some(list);
  }

  // ----- stream_host_agent_query -----

  /** How the relay sees the stream end: normally, on a value the reader rejects, or on any
      other exception. */
  datatype Ending = Completed | RaisedValueError | RaisedOther

  lemma {:induction false} DelimiterStable(s: string, c: string, i: nat)
    requires i <= |s| && FirstDelimiter(s, i).Some?
    ensures FirstDelimiter(s + c, i) == FirstDelimiter(s, i)
    decreases |s| - i
  {
    if !IsEol(s[i]) {
      DelimiterStable(s, c, i + 1);
    } else {
      assert EolAt(s, i) > 0 && EolAt(s + c, i) == EolAt(s, i);
      var n := EolAt(s, i);
      if !IsEol(s[i + n]) {
        DelimiterStable(s, c, i + n + 1);
      } else {
        assert EolAt(s + c, i + n) == EolAt(s, i + n);
      }
    }
  }

  lemma EolShift(s: string, k: nat, i: nat)
    requires k <= i < |s|
    ensures s[k..][i - k] == s[i] && EolAt(s[k..], i - k) == EolAt(s, i)
  {
  }

  lemma {:induction false} DelimiterShift(s: string, k: nat, i: nat)
    requires k <= i <= |s|
    ensures match FirstDelimiter(s, i)
            case Some((from, to)) => FirstDelimiter(s[k..], i - k) == Some((from - k, to - k))
            case None => FirstDelimiter(s[k..], i - k) == None
    decreases |s| - i
  {
    hide EolAt;
    if i < |s| {
      EolShift(s, k, i);
      var n := EolAt(s, i);
      if !IsEol(s[i]) {
        DelimiterShift(s, k, i + 1);
      } else if n > 0 && i + n < |s| {
        EolShift(s, k, i + n);
        if !IsEol(s[i + n]) {
          DelimiterShift(s, k, i + n + 1);
        }
      }
    }
  }

  lemma {:induction false} FramesShift(s: string, k: nat, i: nat)
    requires k <= i <= |s|
    ensures FramesFrom(s, i) == FramesFrom(s[k..], i - k)
    decreases |s| - i
  {
    hide FirstDelimiter;
    DelimiterShift(s, k, i);
    match FirstDelimiter(s, i)
    case None => assert s[i..] == s[k..][i - k..];
    case Some((from, to)) =>
      FramesShift(s, k, to);
      assert s[i..from] == s[k..][i - k..from - k];
  }

  /** Splitting is incremental: feeding `c` after the carried rest finds exactly the frames of
      the whole text that were not found before. */
  lemma {:induction false} FramesIncremental(s: string, start: nat, c: string)
    requires start <= |s|
    ensures var (before, carried) := FramesFrom(s, start);
            var (more, rest) := FramesFrom(carried + c, 0);
            FramesFrom(s + c, start) == (before + more, rest)
    decreases |s| - start
  {
    match FirstDelimiter(s, start)
    case None =>
      FramesShift(s + c, start, start);
      assert (s + c)[start..] == s[start..] + c;
      assert [] + FramesFrom(s[start..] + c, 0).0 == FramesFrom(s[start..] + c, 0).0;
    case Some((from, to)) =>
      DelimiterStable(s, c, start);
      FramesIncremental(s, to, c);
      assert (s + c)[start..from] == s[start..from];
      var (before, carried) := FramesFrom(s, to);
      var (more, _) := FramesFrom(carried + c, 0);
      assert [s[start..from]] + before + more == [s[start..from]] + (before + more);
  }

  lemma {:induction false} YieldedConcat(a: seq<string>, b: seq<string>, json: string -> Option<Json>)
    ensures Yielded(a + b, json) ==
              if Yielded(a, json).1 then Yielded(a, json)
              else (Yielded(a, json).0 + Yielded(b, json).0, Yielded(b, json).1)
  {
    if a == [] {
      assert a + b == b;
      assert [] + Yielded(b, json).0 == Yielded(b, json).0;
    } else {
      assert (a + b)[1..] == a[1..] + b;
      YieldedConcat(a[1..], b, json);
      if ParsePart(a[0], json).Emit? && !Yielded(a[1..], json).1 {
        var e := [ParsePart(a[0], json).event];
        assert e + (Yielded(a[1..], json).0 + Yielded(b, json).0) == (e + Yielded(a[1..], json).0) + Yielded(b, json).0;
      }
    }
  }

  /** One frame is one part. */
  lemma FrameIsOnePart(frame: string, json: string -> Option<Json>)
    requires Clean(frame)
    ensures SplitDouble(NormalizeNewlines(frame)) == [Norm(frame)]
    ensures ParseAll(frame, json) == if Yielded([Norm(frame)], json).1 then None else Some(Yielded([Norm(frame)], json).0)
  {
    TwoReplacementsNormalize(frame);
    SplitSingle(Norm(frame));
  }

  lemma {:induction false} BlankNorm(s: string)
    requires Blank(s)
    ensures Blank(Norm(s))
  {
    if s != "" {
      BlankNorm(s[1..]);
      if |s| > 1 {
        BlankNorm(s[2..]);
      }
    }
  }

  /** What is left at the end holds at most one part with content, so flushing it at once
      yields what its parts yield. */
  lemma RestIsOnePart(rest: string, json: string -> Option<Json>)
    requires Unfinished(rest)
    ensures Yielded(SplitDouble(Norm(rest)), json).1 ==> Yielded(SplitDouble(Norm(rest)), json).0 == []
    ensures Blank(rest) ==> Yielded(SplitDouble(Norm(rest)), json) == ([], false)
  {
    SplitSingle("");
    hide Norm, SplitDouble;
    if Blank(rest) {
      BlankNorm(rest);
    }
    if NoDouble(Norm(rest)) {
      SplitSingle(Norm(rest));
      assert [Norm(rest)][1..] == [];
    } else {
      var p :| Norm(rest) == p + "\n\n" && NoDouble(p) && !EndsLine(p);
      SplitAtDelimiter(p, "");
      assert p + "\n\n" + "" == Norm(rest);
      assert SplitDouble(Norm(rest)) == [p, ""];
      assert [p, ""][1..] == [""] && [""][1..] == [];
      if Blank(rest) {
        assert forall k | 0 <= k < |p| :: p[k] == Norm(rest)[k];
      }
    }
  }

  lemma {:induction false} ConcatSplit(xs: seq<string>, i: nat)
    requires i <= |xs|
    ensures Concat(xs) == Concat(xs[..i]) + Concat(xs[i..])
  {
    if i == 0 {
      assert xs[..0] == [] && xs[0..] == xs;
    } else {
      assert xs[..i][1..] == xs[1..][..i - 1] && xs[i..] == xs[1..][i - 1..];
      ConcatSplit(xs[1..], i - 1);
    }
  }

  /** Frames already cut are the first parts of the whole text. */
  lemma FramesComeFirst(chunks: seq<string>, i: nat, frames: seq<string>)
    requires i <= |chunks| && frames <= FramesFrom(Concat(chunks[..i]), 0).0
    ensures Norms(frames) <= SplitDouble(Norm(Concat(chunks)))
    ensures Norms(frames) <= Norms(FramesFrom(Concat(chunks), 0).0)
  {
    var text, later := Concat(chunks[..i]), Concat(chunks[i..]);
    ConcatSplit(chunks, i);
    FramesResume(text, 0, later);
    FramesIncremental(text, 0, later);
    assert text[0..] == text;
    hide FramesFrom, SplitDouble, Norm;
    PrefixNorms(frames, FramesFrom(text, 0).0);
    PrefixNorms(FramesFrom(text, 0).0, FramesFrom(Concat(chunks), 0).0);
  }

  lemma PrefixNorms(few: seq<string>, many: seq<string>)
    requires few <= many
    ensures Norms(few) <= Norms(many)
  {
  }

  lemma YieldedOfPrefix(parts: seq<string>, whole: seq<string>, json: string -> Option<Json>)
    requires parts <= whole
    ensures Yielded(parts, json).1 ==> Yielded(whole, json) == Yielded(parts, json)
    ensures !Yielded(parts, json).1 ==> Yielded(parts, json).0 <= Yielded(whole, json).0
  {
    assert whole == parts + whole[|parts|..];
    YieldedConcat(parts, whole[|parts|..], json);
  }

  /** One frame more: its events join the list, or the reader raises and nothing joins. */
  lemma OneFrameMore(frames: seq<string>, frame: string, events: seq<WireEvent>, json: string -> Option<Json>)
    requires Clean(frame) && Yielded(Norms(frames), json) == (events, false)
    ensures match ParseAll(frame, json)
            case Some(more) => Yielded(Norms(frames + [frame]), json) == (events + more, false)
            case None => Yielded(Norms(frames + [frame]), json) == (events, true)
  {
    FrameIsOnePart(frame, json);
    assert Norms(frames + [frame]) == Norms(frames) + [Norm(frame)];
    YieldedConcat(Norms(frames), [Norm(frame)], json);
    assert [Norm(frame)][1..] == [];
    assert events + [] == events;
  }

  /** The parts of the whole text once every chunk is in. */
  lemma WholeText(chunks: seq<string>, frames: seq<string>, rest: string, events: seq<WireEvent>, json: string -> Option<Json>)
    requires FramesFrom(Concat(chunks), 0) == (frames, rest) && Yielded(Norms(frames), json) == (events, false)
    ensures var last := Yielded(SplitDouble(Norm(rest)), json);
            Yielded(SplitDouble(Norm(Concat(chunks))), json) == (events + last.0, last.1)
    ensures Yielded(SplitDouble(Norm(rest)), json).1 ==> Yielded(SplitDouble(Norm(rest)), json).0 == []
    ensures Blank(rest) ==> Yielded(SplitDouble(Norm(rest)), json) == ([], false)
  {
    FramesResume(Concat(chunks), 0, "");
    assert Concat(chunks)[0..] + "" == Concat(chunks) && rest + "" == rest;
    YieldedConcat(Norms(frames), SplitDouble(Norm(rest)), json);
    RestIsOnePart(rest, json);
  }

  /** What the loop yields, as a function of the whole text alone. */
  function Streamed(text: string, json: string -> Option<Json>): (seq<WireEvent>, Ending) {
    var (events, failed) := Yielded(SplitDouble(Norm(text)), json);
    (events, if failed then RaisedValueError else Completed)
  }

  /** What it yields when the transport fails after this text: the events of the frames that
      were complete, unless one of them raised first. */
  function Interrupted(text: string, json: string -> Option<Json>): (seq<WireEvent>, Ending) {
    var (events, failed) := Yielded(Norms(FramesFrom(text, 0).0), json);
    (events, if failed then RaisedValueError else RaisedOther)
  }

  /** The inner loop: parse the frames just cut, until one raises. */
  method FeedFrames(frames: seq<string>, ghost done: seq<string>, before: seq<WireEvent>, json: string -> Option<Json>)
    returns (events: seq<WireEvent>, raised: bool, ghost fed: nat)
    requires Yielded(Norms(done), json) == (before, false) && forall frame <- frames :: Clean(frame)
    ensures fed <= |frames| && (!raised ==> fed == |frames|)
    ensures Yielded(Norms(done + frames[..fed]), json) == (events, raised)
  {
    events := before;
    assert done + frames[..0] == done;
    for k := 0 to |frames|
      invariant Yielded(Norms(done + frames[..k]), json) == (events, false)
    {
      OneFrameMore(done + frames[..k], frames[k], events, json);
      assert done + frames[..k + 1] == (done + frames[..k]) + [frames[k]];
      var parsed := ParseSseChunk(frames[k], json);
      if parsed.None? {
        return events, true, k + 1;
      }
      events := events + parsed.value;
    }
    raised, fed := false, |frames|;
  }

  /** `chunks` arrive one after the other; `broken` says that the transport fails after them. */
  method StreamQuery(chunks: seq<string>, broken: bool, json: string -> Option<Json>)
    returns (events: seq<WireEvent>, ending: Ending)
    ensures !broken ==> (events, ending) == Streamed(Concat(chunks), json)
    ensures broken ==> (events, ending) == Interrupted(Concat(chunks), json)
  {
    events := [];
    var buffer := "";
    ghost var all: seq<string> := [];
    for i := 0 to |chunks|
      invariant FramesFrom(Concat(chunks[..i]), 0) == (all, buffer)
      invariant Yielded(Norms(all), json) == (events, false)
    {
      OneChunkMore(chunks, i);
      var frames, rest := SplitSseFrames(buffer + chunks[i]);
      var raised;
      ghost var fed;
      events, raised, fed := FeedFrames(frames, all, events, json);
      if raised {
        RaisedMidway(chunks, i + 1, all + frames[..fed], json);
        return events, RaisedValueError;
      }
      assert frames[..fed] == frames;
      all, buffer := all + frames, rest;
    }
    assert chunks[..|chunks|] == chunks;
    if broken {
      return events, RaisedOther;
    }
    WholeText(chunks, all, buffer, events, json);
    events, ending := Flush(buffer, events, json);
  }

  /** A frame that raises ends the loop, whatever arrives or fails after it. */
  lemma RaisedMidway(chunks: seq<string>, i: nat, frames: seq<string>, json: string -> Option<Json>)
    requires i <= |chunks| && frames <= FramesFrom(Concat(chunks[..i]), 0).0 && Yielded(Norms(frames), json).1
    ensures Streamed(Concat(chunks), json) == (Yielded(Norms(frames), json).0, RaisedValueError)
    ensures Interrupted(Concat(chunks), json) == (Yielded(Norms(frames), json).0, RaisedValueError)
  {
    FramesComeFirst(chunks, i, frames);
    YieldedOfPrefix(Norms(frames), SplitDouble(Norm(Concat(chunks))), json);
    YieldedOfPrefix(Norms(frames), Norms(FramesFrom(Concat(chunks), 0).0), json);
  }

  /** A failing transport costs the events of the unfinished rest and no other. */
  lemma InterruptedIsAPrefix(text: string, json: string -> Option<Json>)
    ensures Interrupted(text, json).0 <= Streamed(text, json).0
    ensures Interrupted(text, json).1.RaisedValueError? ==> Interrupted(text, json) == Streamed(text, json)
  {
    var (frames, rest) := FramesFrom(text, 0);
    FramesResume(text, 0, "");
    assert text[0..] + "" == text && rest + "" == rest;
    assert Norms(frames) <= SplitDouble(Norm(text));
    YieldedOfPrefix(Norms(frames), SplitDouble(Norm(text)), json);
  }

  /** `if buffer.strip():` parse the rest. */
  method Flush(buffer: string, before: seq<WireEvent>, json: string -> Option<Json>)
    returns (events: seq<WireEvent>, ending: Ending)
    requires Yielded(SplitDouble(Norm(buffer)), json).1 ==> Yielded(SplitDouble(Norm(buffer)), json).0 == []
    requires Blank(buffer) ==> Yielded(SplitDouble(Norm(buffer)), json) == ([], false)
    ensures events == before + Yielded(SplitDouble(Norm(buffer)), json).0
    ensures ending == if Yielded(SplitDouble(Norm(buffer)), json).1 then RaisedValueError else Completed
  {
    events := before;
    if !Blank(buffer) {
      TwoReplacementsNormalize(buffer);
      var parsed := ParseSseChunk(buffer, json);
      if parsed.None? {
        return events, RaisedValueError;
      }
      events := events + parsed.value;
    }
    ending := Completed;
  }

  /** A new chunk after the carried rest cuts the frames the longer text gains. */
  lemma OneChunkMore(chunks: seq<string>, i: nat)
    requires i < |chunks|
    ensures var (all, buffer) := FramesFrom(Concat(chunks[..i]), 0);
            var (frames, rest) := FramesFrom(buffer + chunks[i], 0);
            && FramesFrom(Concat(chunks[..i + 1]), 0) == (all + frames, rest)
            && forall frame <- frames :: Clean(frame)
  {
    var (all, buffer) := FramesFrom(Concat(chunks[..i]), 0);
    FramesIncremental(Concat(chunks[..i]), 0, chunks[i]);
    ConcatAppend(chunks[..i], chunks[i]);
    assert chunks[..i + 1] == chunks[..i] + [chunks[i]];
    FramesResume(buffer + chunks[i], 0, "");
  }

  /** Streaming equals one-shot parsing, however the text is cut: the reader completes with
      exactly the events of `_parse_sse_chunk`, or raises exactly when that does. */
  lemma StreamingEqualsOneShot(text: string, json: string -> Option<Json>)
    ensures Streamed(text, json).1.Completed? <==> ParseAll(text, json).Some?
    ensures ParseAll(text, json).Some? ==> Streamed(text, json) == (ParseAll(text, json).value, Completed)
  {
    TwoReplacementsNormalize(text);
  }

  // ----- Event types are single lines -----

  predicate OneLine(s: string) {
    forall k | 0 <= k < |s| :: !IsEol(s[k])
  }

  lemma {:induction false} LinesAreLines(s: string)
    ensures forall line <- SplitLines(s) :: OneLine(line)
    decreases |s|
  {
    if s != "" {
      LinesAreLines(s[1..]);
      if |s| > 1 {
        LinesAreLines(s[2..]);
      }
      if !BreaksLine(s[0]) && |s| > 1 && SplitLines(s[1..]) != [] {
        var rest := SplitLines(s[1..]);
        assert OneLine(rest[0]) && OneLine([s[0]] + rest[0]);
      }
    }
  }

  lemma {:induction false} FieldsAreLines(lines: seq<string>, kind: string, data: string)
    requires OneLine(kind) && forall line <- lines :: OneLine(line)
    ensures OneLine(Fields(lines, kind, data).0)
  {
    if lines != [] {
      assert OneLine(lines[0]);
      FieldsAreLines(lines[1..], if EVENT <= lines[0] then lines[0][|EVENT|..] else kind,
                     if !(EVENT <= lines[0]) && DATA <= lines[0] then lines[0][|DATA|..] else data);
    }
  }

  lemma {:induction false} KindsAreLines(parts: seq<string>, json: string -> Option<Json>)
    ensures forall event <- Yielded(parts, json).0 :: OneLine(event.kind)
  {
    if parts != [] {
      KindsAreLines(parts[1..], json);
      LinesAreLines(parts[0]);
      FieldsAreLines(SplitLines(parts[0]), "message", "");
    }
  }

  /** The data of every event is a value that the reader returned. */
  lemma {:induction false} DataIsRead(parts: seq<string>, json: string -> Option<Json>, ok: Json -> bool)
    requires forall text :: json(text).Some? ==> ok(json(text).value)
    ensures forall event <- Yielded(parts, json).0 :: ok(event.data)
  {
    if parts != [] {
      DataIsRead(parts[1..], json, ok);
      var (_, data) := Fields(SplitLines(parts[0]), "message", "");
      assert json(data).Some? ==> ok(json(data).value);
    }
  }
}
