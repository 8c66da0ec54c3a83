/** What the browser's frame parser reads, told from the frame's lines. */
module BrowserFrames {
  import opened Wrappers
  import opened BrowserSse
  import SseRoundTrip
  import BackendSse

  /** A field line: its name, a colon, and the value after at most one space. */
  predicate FieldLine(line: string, name: string, value: string) {
    && name + ":" <= line
    && value == if name + ": " <= line then line[|name| + 2..] else line[|name| + 1..]
  }

  ghost predicate HasField(lines: seq<string>, name: string) {
    exists k | 0 <= k < |lines| :: name + ":" <= lines[k]
  }

  /** The value of the last event line, or "message" when there is none. */
  ghost predicate TypeIs(lines: seq<string>, kind: string) {
    if HasField(lines, "event") then exists k | 0 <= k < |lines| :: LastEventAt(lines, k, kind)
    else kind == "message"
  }

  ghost predicate LastEventAt(lines: seq<string>, k: int, kind: string)
    requires 0 <= k < |lines|
  {
    FieldLine(lines[k], "event", kind) && forall j | k < j < |lines| :: !("event:" <= lines[j])
  }

  /** The values of the data lines, all of them and in order; `at` says where they stand. */
  ghost predicate DataAt(lines: seq<string>, at: seq<int>, values: seq<string>) {
    && |at| == |values|
    && (forall k | 0 <= k < |at| :: 0 <= at[k] < |lines| && FieldLine(lines[at[k]], "data", values[k]))
    && (forall j, k | 0 <= j < k < |at| :: at[j] < at[k])
    && (forall i | 0 <= i < |lines| && "data:" <= lines[i] :: i in at)
  }

  ghost predicate DataIs(lines: seq<string>, values: seq<string>) {
    exists at :: DataAt(lines, at, values)
  }

  lemma Names()
    ensures "event" + ":" == "event:" && "event" + ": " == "event: " && "data" + ":" == "data:" && "data" + ": " == "data: "
  {
  }

  lemma NamesApart(line: string)
    ensures !("event:" <= line && "data:" <= line)
    ensures "event: " <= line ==> "event:" <= line
    ensures "data: " <= line ==> "data:" <= line
  {
    assert "event:" <= line ==> line[0] == 'e';
    assert "data:" <= line ==> line[0] == 'd';
    assert "event: "[..6] == "event:" && "data: "[..5] == "data:";
  }

  // ----- The lines so far -----

  /** What the scan has read of the first `n` lines. */
  ghost predicate ReadSoFar(lines: seq<string>, n: int, kind: string, values: seq<string>)
    requires 0 <= n <= |lines|
  {
    TypeIs(lines[..n], kind) && DataIs(lines[..n], values)
  }

  lemma TypeMore(lines: seq<string>, line: string, kind: string)
    requires TypeIs(lines, kind)
    ensures !("event:" <= line) ==> TypeIs(lines + [line], kind)
    ensures forall value | FieldLine(line, "event", value) :: TypeIs(lines + [line], value)
  {
    Names();
    var longer := lines + [line];
    assert longer[|lines|] == line;
    if !("event:" <= line) {
      if HasField(lines, "event") {
        var k :| 0 <= k < |lines| && LastEventAt(lines, k, kind);
        assert LastEventAt(longer, k, kind) && "event" + ":" <= longer[k];
      } else {
        assert forall k | 0 <= k < |lines| :: longer[k] == lines[k];
      }
    }
    forall value | FieldLine(line, "event", value)
      ensures TypeIs(longer, value)
    {
      assert LastEventAt(longer, |lines|, value) && "event" + ":" <= longer[|lines|];
    }
  }

  lemma DataStays(lines: seq<string>, line: string, values: seq<string>)
    requires DataIs(lines, values) && !("data:" <= line)
    ensures DataIs(lines + [line], values)
  {
    var at :| DataAt(lines, at, values);
    var longer := lines + [line];
    assert forall k | 0 <= k < |lines| :: longer[k] == lines[k];
    hide FieldLine;
    assert DataAt(longer, at, values);
  }

  lemma DataMore(lines: seq<string>, line: string, values: seq<string>, value: string)
    requires DataIs(lines, values) && FieldLine(line, "data", value)
    ensures DataIs(lines + [line], values + [value])
  {
    var at :| DataAt(lines, at, values);
    var longer, more := lines + [line], at + [|lines|];
    hide FieldLine;
    forall k | 0 <= k < |more|
      ensures 0 <= more[k] < |longer| && FieldLine(longer[more[k]], "data", (values + [value])[k])
    {
      assert more[k] == if k < |at| then at[k] else |lines|;
    }
    forall i | 0 <= i < |longer| && "data:" <= longer[i]
      ensures i in more
    {
      if i < |lines| {
        assert longer[i] == lines[i] && i in at;
      } else {
        assert more[|at|] == i;
      }
    }
    assert DataAt(longer, more, values + [value]);
  }

  lemma {:induction false} FieldsRead(lines: seq<string>, n: nat, kind: string, values: seq<string>)
    requires n <= |lines| && ReadSoFar(lines, n, kind, values)
    ensures var (k, v) := Fields(lines[n..], kind, values); TypeIs(lines, k) && DataIs(lines, v)
    decreases |lines| - n
  {
    Names();
    hide TypeIs, DataIs;
    if n == |lines| {
      assert lines[..n] == lines;
    } else {
      var line := lines[n];
      assert lines[n..][0] == line && lines[n..][1..] == lines[n + 1..] && lines[..n + 1] == lines[..n] + [line];
      NamesApart(line);
      TypeMore(lines[..n], line, kind);
      if "event:" <= line {
        var value := if "event: " <= line then line[7..] else line[6..];
        assert FieldLine(line, "event", value);
        DataStays(lines[..n], line, values);
        FieldsRead(lines, n + 1, value, values);
      } else if "data:" <= line {
        var value := if "data: " <= line then line[6..] else line[5..];
        assert FieldLine(line, "data", value);
        DataMore(lines[..n], line, values, value);
        FieldsRead(lines, n + 1, kind, values + [value]);
      } else {
        DataStays(lines[..n], line, values);
        FieldsRead(lines, n + 1, kind, values);
      }
    }
  }

  lemma NothingRead(lines: seq<string>)
    ensures ReadSoFar(lines, 0, "message", [])
  {
    assert DataAt(lines[..0], [], []);
  }

  lemma NoDataIff(lines: seq<string>, values: seq<string>)
    requires DataIs(lines, values)
    ensures values == [] <==> !HasField(lines, "data")
  {
    Names();
    var at :| DataAt(lines, at, values);
    if values != [] {
      assert FieldLine(lines[at[0]], "data", values[0]);
    }
    if HasField(lines, "data") {
      var k :| 0 <= k < |lines| && "data" + ":" <= lines[k];
      assert k in at;
    }
  }

  lemma DataIsNotBlank(frame: string)
    requires HasField(SplitLf(frame), "data")
    ensures !TrimsToNothing(frame)
  {
    Names();
    var lines := SplitLf(frame);
    var k :| 0 <= k < |lines| && "data" + ":" <= lines[k];
    assert lines[k] in lines && lines[k][0] == 'd' && !TrimsToNothing(lines[k]);
    if TrimsToNothing(frame) {
      LinesOfBlank(frame);
    }
  }

  lemma {:induction false} LinesOfBlank(s: string)
    requires TrimsToNothing(s)
    ensures forall line <- SplitLf(s) :: TrimsToNothing(line)
  {
    if s != "" {
      LinesOfBlank(s[1..]);
      var rest := SplitLf(s[1..]);
      assert TrimsToNothing(rest[0]) && TrimsToNothing([s[0]] + rest[0]);
    }
  }

  // ----- Joining -----

  /** Joined data lines are told apart by their line ends. */
  lemma {:induction false} JoinSplits(values: seq<string>)
    requires values != [] && forall value <- values :: BackendSse.OneLine(value)
    ensures SplitLf(JoinLines(values)) == values
  {
    if |values| == 1 {
      SseRoundTrip.SplitLfAt(values[0], "");
    } else {
      JoinSplits(values[1..]);
      SseRoundTrip.SplitLfAt(values[0], JoinLines(values[1..]));
    }
  }

  // ----- Main result -----

  /** A frame without a data line is skipped. Any other is decoded: its type is the value of its
      last event line, its text the values of all its data lines, joined. */
  lemma FrameSays<E>(frame: string, decode: (string, string) -> Option<E>) returns (kind: string, values: seq<string>)
    ensures var lines := SplitLf(frame);
            && TypeIs(lines, kind) && DataIs(lines, values)
            && if !HasField(lines, "data") then ParseFrame(frame, decode) == Skip
               else
                 && values != []
                 && ParseFrame(frame, decode) ==
                      match decode(kind, JoinLines(values))
                      case Some(event) => Emit(event)
                      case None => Throw
  {
    var lines := SplitLf(frame);
    NothingRead(lines);
    FieldsRead(lines, 0, "message", []);
    assert lines[0..] == lines;
    kind, values := Fields(lines, "message", []).0, Fields(lines, "message", []).1;
    NoDataIff(lines, values);
    hide TypeIs, DataIs, Fields, SplitLf;
    if HasField(lines, "data") {
      DataIsNotBlank(frame);
    }
  }
}
