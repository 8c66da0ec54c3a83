/** Line endings and blank-line separators of an event stream, as both ends read them. */
module SseText {

  /** `text.replace("\r\n", "\n")`. */
  function ReplaceCrLf(s: string): string {
    if |s| < 2 then s
    else if s[0] == '\r' && s[1] == '\n' then "\n" + ReplaceCrLf(s[2..])
    else [s[0]] + ReplaceCrLf(s[1..])
  }

  /** `text.replace("\r", "\n")`. */
  function ReplaceCr(s: string): string {
    if s == "" then s
    else [if s[0] == '\r' then '\n' else s[0]] + ReplaceCr(s[1..])
  }

  function NormalizeNewlines(s: string): string {
    ReplaceCr(ReplaceCrLf(s))
  }

  /** The line endings of section 9.2.5 of the WHATWG HTML standard, each read as one LF:
      CR LF, a lone LF, or a lone CR. */
  function Norm(s: string): string {
    if s == "" then ""
    else if s[0] != '\r' then [s[0]] + Norm(s[1..])
    else if |s| > 1 && s[1] == '\n' then "\n" + Norm(s[2..])
    else "\n" + Norm(s[1..])
  }

  /** The two replacements read every text as the standard does. */
  lemma {:induction false} TwoReplacementsNormalize(s: string)
    ensures NormalizeNewlines(s) == Norm(s)
  {
    if |s| >= 2 && s[0] == '\r' && s[1] == '\n' {
      TwoReplacementsNormalize(s[2..]);
      var t := ReplaceCrLf(s[2..]);
      assert ("\n" + t)[1..] == t;
    } else if s != "" {
      TwoReplacementsNormalize(s[1..]);
      if |s| == 1 {
        assert ReplaceCr(s[1..]) == "";
      } else {
        var t := ReplaceCrLf(s[1..]);
        assert ([s[0]] + t)[1..] == t;
      }
    }
  }

  /** A cut between CR and LF splits one line ending in two. */
  predicate CutsCrLf(a: string, b: string) {
    a != "" && b != "" && a[|a| - 1] == '\r' && b[0] == '\n'
  }

  lemma NormCrLf(s: string)
    ensures Norm("\r\n" + s) == "\n" + Norm(s)
  {
    assert ("\r\n" + s)[2..] == s;
  }

  lemma NormCons(c: char, s: string)
    requires c == '\r' && s != "" ==> s[0] != '\n'
    ensures Norm([c] + s) == [if c == '\r' then '\n' else c] + Norm(s)
  {
    assert ([c] + s)[1..] == s;
  }

  lemma Associative(a: string, b: string, c: string)
    ensures (a + b) + c == a + (b + c)
  {
  }

  lemma Adjacent(s: string, i: nat, j: nat, k: nat)
    requires i <= j <= k <= |s|
    ensures s[i..k] == s[i..j] + s[j..k]
  {
  }

  lemma AdjacentRest(s: string, i: nat, j: nat)
    requires i <= j <= |s|
    ensures s[i..] == s[i..j] + s[j..]
  {
  }

  lemma {:induction false} NormConcat(a: string, b: string)
    ensures Norm(a + b) == Norm(a) + Norm(if CutsCrLf(a, b) then b[1..] else b)
    decreases |a|
  {
    if a == "" {
      assert a + b == b;
      assert Norm(a) + Norm(b) == Norm(b);
    } else if |a| > 1 && a[0] == '\r' && a[1] == '\n' {
      NormConcat(a[2..], b);
      assert a == "\r\n" + a[2..];
      NormConcatCrLf(a[2..], b);
    } else if a == "\r" && CutsCrLf(a, b) {
      assert a + b == "\r\n" + b[1..];
      hide Norm;
      NormCrLf(b[1..]);
      NormCr();
    } else {
      NormConcat(a[1..], b);
      assert a == [a[0]] + a[1..];
      NormConcatCons(a[0], a[1..], b);
    }
  }

  lemma NormConcatCrLf(r: string, b: string)
    requires Norm(r + b) == Norm(r) + Norm(if CutsCrLf(r, b) then b[1..] else b)
    ensures var a := "\r\n" + r; Norm(a + b) == Norm(a) + Norm(if CutsCrLf(a, b) then b[1..] else b)
  {
    hide Norm;
    var a := "\r\n" + r;
    assert a[|a| - 1] == if r == "" then '\n' else r[|r| - 1];
    Associative("\r\n", r, b);
    NormCrLf(r);
    NormCrLf(r + b);
    Associative("\n", Norm(r), Norm(if CutsCrLf(r, b) then b[1..] else b));
  }

  lemma NormConcatCons(c: char, r: string, b: string)
    requires Norm(r + b) == Norm(r) + Norm(if CutsCrLf(r, b) then b[1..] else b)
    requires c == '\r' && r + b != "" ==> (r + b)[0] != '\n'
    ensures var a := [c] + r; Norm(a + b) == Norm(a) + Norm(if CutsCrLf(a, b) then b[1..] else b)
  {
    hide Norm;
    var a := [c] + r;
    assert a[|a| - 1] == if r == "" then c else r[|r| - 1];
    assert r == "" ==> r + b == b;
    Associative([c], r, b);
    NormCons(c, r);
    NormCons(c, r + b);
    Associative([if c == '\r' then '\n' else c], Norm(r), Norm(if CutsCrLf(r, b) then b[1..] else b));
  }

  lemma NormCr()
    ensures Norm("\r") == "\n"
  {
    assert "\r"[1..] == "";
  }

  predicate NoCr(s: string) {
    forall k | 0 <= k < |s| :: s[k] != '\r'
  }

  lemma {:induction false} NormHasNoCr(s: string)
    ensures NoCr(Norm(s))
    ensures Norm(s) == "" <==> s == ""
  {
    if s != "" {
      NormHasNoCr(s[1..]);
      if |s| > 1 {
        NormHasNoCr(s[2..]);
      }
    }
  }

  lemma {:induction false} NormIdempotent(s: string)
    requires NoCr(s)
    ensures Norm(s) == s
  {
    if s != "" {
      NormIdempotent(s[1..]);
    }
  }

  /** `text.split("\n\n")`. */
  function SplitDouble(s: string): (parts: seq<string>)
    ensures |parts| >= 1
    ensures |parts| == 1 ==> parts[0] == s
  {
    if |s| < 2 then [s]
    else if s[0] == '\n' && s[1] == '\n' then [""] + SplitDouble(s[2..])
    else
      var rest := SplitDouble(s[1..]);
      [[s[0]] + rest[0]] + rest[1..]
  }

  function Init<T>(xs: seq<T>): seq<T>
    requires xs != []
  {
    xs[..|xs| - 1]
  }

  function Final<T>(xs: seq<T>): T
    requires xs != []
  {
    xs[|xs| - 1]
  }

  /** Splitting can be resumed from the last part. */
  lemma {:induction false} SplitConcat(a: string, b: string)
    ensures SplitDouble(a + b) == Init(SplitDouble(a)) + SplitDouble(Final(SplitDouble(a)) + b)
    decreases |a|, 1
  {
    if |a| < 2 {
      assert Init(SplitDouble(a)) == [];
    } else if a[0] == '\n' && a[1] == '\n' {
      assert (a + b)[2..] == a[2..] + b && (a + b)[0] == '\n' && (a + b)[1] == '\n';
      var parts := SplitDouble(a[2..]);
      SplitConcat(a[2..], b);
      assert SplitDouble(a) == [""] + parts && SplitDouble(a + b) == [""] + SplitDouble(a[2..] + b);
      hide SplitDouble;
      FirstPartAdded(parts, "", SplitDouble(Final(parts) + b));
    } else {
      SplitConcatStep(a, b);
    }
  }

  lemma {:induction false} SplitConcatStep(a: string, b: string)
    requires |a| >= 2 && !(a[0] == '\n' && a[1] == '\n')
    ensures SplitDouble(a + b) == Init(SplitDouble(a)) + SplitDouble(Final(SplitDouble(a)) + b)
    decreases |a|, 0
  {
    var r := SplitDouble(a[1..]);
    if |r| == 1 {
      assert SplitDouble(a) == [a];
      assert Init(SplitDouble(a)) == [];
    } else {
      assert (a + b)[1..] == a[1..] + b && (a + b)[1] == a[1];
      SplitConcat(a[1..], b);
      var rest := SplitDouble(a[1..] + b);
      assert SplitDouble(a) == [[a[0]] + r[0]] + r[1..] && SplitDouble(a + b) == [[a[0]] + rest[0]] + rest[1..];
      hide SplitDouble;
      FirstPartKept(r, [a[0]] + r[0], SplitDouble(Final(r) + b));
    }
  }

  lemma FirstPartAdded(parts: seq<string>, first: string, more: seq<string>)
    requires parts != []
    ensures Init([first] + parts) + more == [first] + (Init(parts) + more) && Final([first] + parts) == Final(parts)
  {
  }

  lemma FirstPartKept(parts: seq<string>, first: string, more: seq<string>)
    requires |parts| > 1
    ensures var changed := [first] + parts[1..];
            Init(changed) + more == [first] + (Init(parts) + more)[1..] && Final(changed) == Final(parts)
    ensures (Init(parts) + more)[0] == parts[0]
  {
  }

  ghost predicate NoDouble(s: string) {
    forall k, j | 0 <= k < j < |s| && j == k + 1 :: !(s[k] == '\n' && s[j] == '\n')
  }

  predicate EndsLine(s: string) {
    s != "" && s[|s| - 1] == '\n'
  }

  lemma {:induction false} SplitSingle(s: string)
    requires NoDouble(s)
    ensures SplitDouble(s) == [s]
  {
    if |s| >= 2 {
      SplitSingle(s[1..]);
    }
  }

  lemma {:induction false} PartsHaveNoDouble(s: string)
    ensures forall part <- SplitDouble(s) :: NoDouble(part)
    ensures |SplitDouble(s)| > 1 ==> !EndsLine(SplitDouble(s)[0])
  {
    if |s| >= 2 {
      PartsHaveNoDouble(s[1..]);
      PartsHaveNoDouble(s[2..]);
      PartsStartSafely(s);
    }
  }

  lemma PrependSafely(c: char, rest: seq<string>)
    requires rest != [] && forall part <- rest :: NoDouble(part)
    requires c == '\n' && rest[0] != "" ==> rest[0][0] != '\n'
    ensures forall part <- [[c] + rest[0]] + rest[1..] :: NoDouble(part)
    ensures EndsLine([c] + rest[0]) <==> EndsLine(rest[0]) || (rest[0] == "" && c == '\n')
  {
    forall part <- [[c] + rest[0]] + rest[1..]
      ensures NoDouble(part)
    {
      if part != [c] + rest[0] {
        assert part in rest[1..];
      } else {
        assert NoDouble(rest[0]);
      }
    }
  }

  lemma PartsStartSafely(s: string)
    requires |s| >= 2
    requires forall part <- SplitDouble(s[1..]) :: NoDouble(part)
    requires forall part <- SplitDouble(s[2..]) :: NoDouble(part)
    requires |SplitDouble(s[1..])| > 1 ==> !EndsLine(SplitDouble(s[1..])[0])
    ensures forall part <- SplitDouble(s) :: NoDouble(part)
    ensures |SplitDouble(s)| > 1 ==> !EndsLine(SplitDouble(s)[0])
  {
    if !(s[0] == '\n' && s[1] == '\n') {
      FirstPartStarts(s[1..]);
      PrependSafely(s[0], SplitDouble(s[1..]));
    }
  }

  /** The first part begins as the text does, or is empty at a separator. */
  lemma FirstPartStarts(s: string)
    requires s != ""
    ensures var first := SplitDouble(s)[0]; first != "" ==> first[0] == s[0]
    ensures var first := SplitDouble(s)[0]; first == "" ==> |s| >= 2 && s[0] == '\n' && s[1] == '\n'
  {
  }

  lemma {:induction false} SplitAtDelimiter(a: string, b: string)
    requires NoDouble(a) && !EndsLine(a)
    ensures SplitDouble(a + "\n\n" + b) == [a] + SplitDouble(b)
  {
    var s := a + "\n\n" + b;
    if a == "" {
      assert s[2..] == b;
    } else {
      assert s[1..] == a[1..] + "\n\n" + b;
      SplitAtDelimiter(a[1..], b);
      assert a == [a[0]] + a[1..];
    }
  }

  function Concat(xs: seq<string>): string {
    if xs == [] then "" else xs[0] + Concat(xs[1..])
  }

  lemma {:induction false} ConcatAppend(xs: seq<string>, x: string)
    ensures Concat(xs + [x]) == Concat(xs) + x
  {
    if xs == [] {
      assert xs + [x] == [x];
    } else {
      assert (xs + [x])[1..] == xs[1..] + [x];
      ConcatAppend(xs[1..], x);
    }
  }
}
