/** What the backend's parser yields, told from the parts and lines of the text alone. */
module BackendParts {
  import opened Wrappers
  import opened JsonValues
  import opened SseText
  import opened BackendSse
  import SseRoundTrip

  // ----- Lines -----

  predicate IsBreak(brk: string) {
    brk == "\r\n" || (|brk| == 1 && BreaksLine(brk[0]))
  }

  /** A text is one line, or a line, a break and the lines of the rest; a CR takes a following
      LF with it, and a final break opens no further line. */
  lemma {:induction false} LinesLaw(line: string, brk: string, rest: string)
    requires SseRoundTrip.NoPythonBreak(line) && IsBreak(brk) && (brk == "\r" && rest != "" ==> rest[0] != '\n')
    ensures SplitLines(line) == if line == "" then [] else [line]
    ensures SplitLines(line + brk + rest) == [line] + SplitLines(rest)
  {
    if line == "" {
      assert line + brk + rest == brk + rest;
      assert (brk + rest)[|brk|..] == rest;
      assert (brk + rest)[0] == brk[0] && (|brk| == 2 ==> (brk + rest)[1] == '\n');
      assert |brk| == 1 && rest != "" ==> (brk + rest)[1] == rest[0];
    } else {
      LinesLaw(line[1..], brk, rest);
      assert (line + brk + rest)[1..] == line[1..] + brk + rest;
      assert line == [line[0]] + line[1..];
    }
  }

  // ----- What a part carries -----

  /** The text of the last data line. */
  ghost predicate LastData(lines: seq<string>, text: string) {
    exists k | 0 <= k < |lines| :: LastAt(lines, k, "data: ", text)
  }

  /** The last line with this prefix, and what follows the prefix. */
  ghost predicate LastAt(lines: seq<string>, k: int, prefix: string, text: string)
    requires 0 <= k < |lines|
  {
    lines[k] == prefix + text && forall j | k < j < |lines| :: !(prefix <= lines[j])
  }

  /** The type of the last event line, or "message" when there is none. */
  ghost predicate LastType(lines: seq<string>, kind: string) {
    || (exists k | 0 <= k < |lines| :: LastAt(lines, k, "event: ", kind))
    || (kind == "message" && forall j | 0 <= j < |lines| :: !("event: " <= lines[j]))
  }

  /** The part has a data line, its last one is not empty, and this is its text and type. */
  ghost predicate Carries(part: string, kind: string, text: string) {
    text != "" && LastData(SplitLines(part), text) && LastType(SplitLines(part), kind)
  }

  lemma PrefixesApart(line: string)
    ensures !("event: " <= line && "data: " <= line)
  {
    assert "event: " <= line ==> line[0] == 'e';
    assert "data: " <= line ==> line[0] == 'd';
  }

  lemma LastAtCons(line: string, rest: seq<string>, prefix: string, text: string)
    ensures var lines := [line] + rest;
            (exists k | 0 <= k < |lines| :: LastAt(lines, k, prefix, text))
            <==> (exists k | 0 <= k < |rest| :: LastAt(rest, k, prefix, text))
                 || (line == prefix + text && forall j | 0 <= j < |rest| :: !(prefix <= rest[j]))
  {
    var lines := [line] + rest;
    assert lines[0] == line && forall j | 0 <= j < |rest| :: lines[j + 1] == rest[j];
    if k :| 0 <= k < |rest| && LastAt(rest, k, prefix, text) {
      assert forall j | k + 1 < j < |lines| :: lines[j] == rest[j - 1];
      assert LastAt(lines, k + 1, prefix, text);
    }
    if line == prefix + text && forall j | 0 <= j < |rest| :: !(prefix <= rest[j]) {
      assert forall j | 0 < j < |lines| :: lines[j] == rest[j - 1];
      assert LastAt(lines, 0, prefix, text);
    }
    if k :| 0 <= k < |lines| && LastAt(lines, k, prefix, text) {
      if k > 0 {
        assert lines[k] == rest[k - 1];
        assert forall j | k - 1 < j < |rest| :: rest[j] == lines[j + 1];
        assert LastAt(rest, k - 1, prefix, text);
      } else {
        assert forall j | 0 <= j < |rest| :: rest[j] == lines[j + 1];
      }
    }
  }

  lemma NoneCons(line: string, rest: seq<string>, prefix: string)
    ensures var lines := [line] + rest;
            (forall j | 0 <= j < |lines| :: !(prefix <= lines[j]))
            <==> !(prefix <= line) && forall j | 0 <= j < |rest| :: !(prefix <= rest[j])
  {
    var lines := [line] + rest;
    assert lines[0] == line && forall j | 0 <= j < |rest| :: lines[j + 1] == rest[j];
    assert forall j | 0 < j < |lines| :: lines[j] == rest[j - 1];
  }

  /** The scan over the lines finds the last of each, or keeps what it started with. */
  lemma {:induction false} FieldsFindLast(lines: seq<string>, kind: string, data: string)
    ensures var (k, d) := Fields(lines, kind, data);
            && ((exists i | 0 <= i < |lines| :: LastAt(lines, i, "event: ", k))
                || (k == kind && forall j | 0 <= j < |lines| :: !("event: " <= lines[j])))
            && ((exists i | 0 <= i < |lines| :: LastAt(lines, i, "data: ", d))
                || (d == data && forall j | 0 <= j < |lines| :: !("data: " <= lines[j])))
  {
    if lines != [] {
      var line, rest := lines[0], lines[1..];
      assert lines == [line] + rest;
      PrefixesApart(line);
      hide LastAt;
      var kind', data' := if "event: " <= line then line[7..] else kind,
                          if !("event: " <= line) && "data: " <= line then line[6..] else data;
      FieldsFindLast(rest, kind', data');
      assert "event: " <= line ==> line == "event: " + line[7..];
      assert "data: " <= line ==> line == "data: " + line[6..];
      var (k, d) := Fields(rest, kind', data');
      LastAtCons(line, rest, "event: ", k);
      LastAtCons(line, rest, "data: ", d);
      NoneCons(line, rest, "event: ");
      NoneCons(line, rest, "data: ");
    }
  }

  lemma LastIsOne(lines: seq<string>, prefix: string, a: string, b: string)
    requires (exists k | 0 <= k < |lines| :: LastAt(lines, k, prefix, a))
    requires (exists k | 0 <= k < |lines| :: LastAt(lines, k, prefix, b))
    ensures a == b
  {
    var i :| 0 <= i < |lines| && LastAt(lines, i, prefix, a);
    var j :| 0 <= j < |lines| && LastAt(lines, j, prefix, b);
    assert prefix <= lines[i] && prefix <= lines[j];
    assert i == j;
    assert lines[i][|prefix|..] == a && lines[j][|prefix|..] == b;
  }

  lemma SomeLast(lines: seq<string>, prefix: string, text: string)
    requires exists k | 0 <= k < |lines| :: LastAt(lines, k, prefix, text)
    ensures exists j | 0 <= j < |lines| :: prefix <= lines[j]
  {
    var k :| 0 <= k < |lines| && LastAt(lines, k, prefix, text);
    assert prefix <= lines[k];
  }

  /** One part: skipped unless it carries something, and then read or raising. */
  lemma PartSays(part: string, json: string -> Option<Json>)
    ensures ParsePart(part, json).Skip? <==> forall kind, text :: !Carries(part, kind, text)
    ensures forall kind, text | Carries(part, kind, text) ::
              ParsePart(part, json) ==
                match json(text)
                case Some(value) => Emit(WireEvent(kind, value))
                case None => Bad
  {
    var lines := SplitLines(part);
    var (k, d) := Fields(lines, "message", "");
    FieldsFindLast(lines, "message", "");
    CarriedIsFound(part);
    if d != "" {
      NotBlank(part, d);
      assert Carries(part, k, d);
    }
    hide Fields, Carries;
  }

  lemma CarriedIsFound(part: string)
    ensures forall kind, text | Carries(part, kind, text) :: Fields(SplitLines(part), "message", "") == (kind, text)
  {
    var lines := SplitLines(part);
    var (k, d) := Fields(lines, "message", "");
    FieldsFindLast(lines, "message", "");
    hide Fields, LastAt;
    forall kind, text | Carries(part, kind, text)
      ensures kind == k && text == d
    {
      SomeLast(lines, "data: ", text);
      LastIsOne(lines, "data: ", d, text);
      if exists i | 0 <= i < |lines| :: LastAt(lines, i, "event: ", k) {
        SomeLast(lines, "event: ", k);
        LastIsOne(lines, "event: ", k, kind);
      } else if exists i | 0 <= i < |lines| :: LastAt(lines, i, "event: ", kind) {
        SomeLast(lines, "event: ", kind);
      }
    }
  }

  /** A part with a data line is not blank. */
  lemma NotBlank(part: string, text: string)
    requires text != "" && LastData(SplitLines(part), text)
    ensures !Blank(part)
  {
    var lines := SplitLines(part);
    var k :| 0 <= k < |lines| && LastAt(lines, k, "data: ", text);
    assert lines[k] in lines && lines[k][0] == 'd' && !Blank(lines[k]);
    if Blank(part) {
      LinesOfBlank(part);
    }
  }

  lemma {:induction false} LinesOfBlank(s: string)
    requires Blank(s)
    ensures forall line <- SplitLines(s) :: Blank(line)
    decreases |s|
  {
    if s != "" {
      LinesOfBlank(s[1..]);
      if |s| > 1 {
        LinesOfBlank(s[2..]);
      }
      if !BreaksLine(s[0]) && |s| > 1 && SplitLines(s[1..]) != [] {
        var rest := SplitLines(s[1..]);
        assert Blank(rest[0]) && Blank([s[0]] + rest[0]);
      }
    }
  }

  // ----- Characters -----

  /** The code points that `str.isspace` and `str.splitlines` know. */
  lemma SpaceCodes(c: char)
    ensures IsSpace(c) <==>
              c as int in {9, 10, 11, 12, 13, 28, 29, 30, 31, 32, 133, 160, 5760, 8192, 8193, 8194, 8195, 8196, 8197, 8198, 8199,
                           8200, 8201, 8202, 8232, 8233, 8239, 8287, 12288}
    ensures BreaksLine(c) <==> c as int in {10, 11, 12, 13, 28, 29, 30, 133, 8232, 8233}
    ensures BreaksLine(c) ==> IsSpace(c)
  {
  }

  // ----- The whole text -----

  /** The part carries data that the reader rejects. */
  ghost predicate Raises(part: string, json: string -> Option<Json>) {
    exists kind, text :: Carries(part, kind, text) && json(text).None?
  }

  ghost predicate IsEventOf(part: string, json: string -> Option<Json>, event: WireEvent) {
    exists text :: Carries(part, event.kind, text) && json(text) == Some(event.data)
  }

  /** `at` lists exactly the parts before `n` that carry something, in order. */
  ghost predicate CarryingParts(parts: seq<string>, n: int, at: seq<int>)
    requires 0 <= n <= |parts|
  {
    && (forall k | 0 <= k < |at| :: 0 <= at[k] < n)
    && (forall j, k | 0 <= j < k < |at| :: at[j] < at[k])
    && (forall i | 0 <= i < n :: i in at <==> exists kind, text :: Carries(parts[i], kind, text))
  }

  /** One event for each carrying part before `n`, in order. */
  ghost predicate EventsOfParts(parts: seq<string>, json: string -> Option<Json>, n: int, at: seq<int>, events: seq<WireEvent>)
    requires 0 <= n <= |parts|
  {
    && CarryingParts(parts, n, at) && |events| == |at|
    && forall k | 0 <= k < |at| :: IsEventOf(parts[at[k]], json, events[k])
  }

  /** The parts before `n` are read, and `n` is the end or the first part that raises. */
  ghost predicate ReadUpTo(parts: seq<string>, json: string -> Option<Json>, n: int) {
    && 0 <= n <= |parts| && (forall i | 0 <= i < n :: !Raises(parts[i], json))
    && (n < |parts| ==> Raises(parts[n], json))
  }

  lemma CarryingMore(parts: seq<string>, n: int, at: seq<int>, carries: bool)
    requires 0 <= n < |parts| && CarryingParts(parts, n, at)
    requires carries <==> exists kind, text :: Carries(parts[n], kind, text)
    ensures CarryingParts(parts, n + 1, if carries then at + [n] else at)
  {
    hide Carries;
    assert forall i :: i in at + [n] <==> i in at || i == n;
    assert n !in at;
  }

  lemma {:induction false} YieldedPrefix(parts: seq<string>, json: string -> Option<Json>, n: nat) returns (at: seq<int>)
    requires n <= |parts| && forall i | 0 <= i < n :: !Raises(parts[i], json)
    ensures !Yielded(parts[..n], json).1 && EventsOfParts(parts, json, n, at, Yielded(parts[..n], json).0)
  {
    if n == 0 {
      at := [];
    } else {
      at := YieldedPrefix(parts, json, n - 1);
      assert parts[..n] == parts[..n - 1] + [parts[n - 1]];
      YieldedConcat(parts[..n - 1], [parts[n - 1]], json);
      PartSays(parts[n - 1], json);
      hide Carries, ParsePart;
      at := OneMorePart(parts, json, n - 1, at, Yielded(parts[..n - 1], json).0);
    }
  }

  lemma OneMorePart(parts: seq<string>, json: string -> Option<Json>, n: nat, before: seq<int>, events: seq<WireEvent>)
    returns (at: seq<int>)
    requires n < |parts| && EventsOfParts(parts, json, n, before, events) && !Raises(parts[n], json)
    ensures var (more, failed) := Yielded([parts[n]], json);
            !failed && EventsOfParts(parts, json, n + 1, at, events + more)
  {
    var part := parts[n];
    PartSays(part, json);
    assert [part][1..] == [];
    hide Carries, ParsePart;
    if kind, text :| Carries(part, kind, text) {
      var event := ParsePart(part, json).event;
      assert Yielded([part], json).0 == [event];
      assert IsEventOf(part, json, event);
      CarryingMore(parts, n, before, true);
      at := before + [n];
    } else {
      assert Yielded([part], json).0 == [] && events + [] == events;
      CarryingMore(parts, n, before, false);
      at := before;
    }
  }

  lemma RaisingPart(part: string, json: string -> Option<Json>)
    requires Raises(part, json)
    ensures Yielded([part], json) == ([], true)
  {
    PartSays(part, json);
    hide Carries;
    var kind, text :| Carries(part, kind, text) && json(text).None?;
  }

  lemma {:induction false} FirstRaising(parts: seq<string>, json: string -> Option<Json>, from: nat) returns (n: int)
    requires from <= |parts| && forall i | 0 <= i < from :: !Raises(parts[i], json)
    ensures ReadUpTo(parts, json, n)
    decreases |parts| - from
  {
    n := from;
    if from < |parts| && !Raises(parts[from], json) {
      n := FirstRaising(parts, json, from + 1);
    }
  }

  /** The parser reads part after part up to the first that carries data the reader rejects. It
      fails if and only if there is one, and its events are one for each part before that carries
      something: of the type of the last event line, with the value of the last data line. */
  lemma YieldedSays(parts: seq<string>, json: string -> Option<Json>) returns (n: int, at: seq<int>)
    ensures ReadUpTo(parts, json, n) && EventsOfParts(parts, json, n, at, Yielded(parts, json).0)
    ensures Yielded(parts, json).1 <==> n < |parts|
  {
    n := FirstRaising(parts, json, 0);
    at := YieldedPrefix(parts, json, n);
    hide Raises, EventsOfParts;
    if n < |parts| {
      RaisingPart(parts[n], json);
      assert parts == (parts[..n] + [parts[n]]) + parts[n + 1..];
      YieldedConcat(parts[..n], [parts[n]], json);
      YieldedConcat(parts[..n] + [parts[n]], parts[n + 1..], json);
      assert Yielded(parts[..n], json).0 + [] == Yielded(parts[..n], json).0;
    } else {
      assert parts[..n] == parts;
    }
  }

  /** `_parse_sse_chunk` raises if and only if some part carries data that the reader rejects. */
  lemma ParsingRaisesIff(chunk: string, json: string -> Option<Json>)
    ensures ParseAll(chunk, json) == None <==> exists part <- SplitDouble(Norm(chunk)) :: Raises(part, json)
  {
    TwoReplacementsNormalize(chunk);
    var parts := SplitDouble(Norm(chunk));
    var n, at := YieldedSays(parts, json);
    hide Raises, EventsOfParts, Norm, SplitDouble;
    if part :| part in parts && Raises(part, json) {
      assert n < |parts|;
    }
  }

  /** Otherwise its events are exactly those of the carrying parts, in order. */
  lemma ParsedEvents(chunk: string, json: string -> Option<Json>) returns (at: seq<int>)
    requires ParseAll(chunk, json).Some?
    ensures var parts := SplitDouble(Norm(chunk)); EventsOfParts(parts, json, |parts|, at, ParseAll(chunk, json).value)
  {
    TwoReplacementsNormalize(chunk);
    var n;
    n, at := YieldedSays(SplitDouble(Norm(chunk)), json);
    hide Raises, EventsOfParts, Norm, SplitDouble;
  }
}
