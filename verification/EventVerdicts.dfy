/** What the verdict on a stream says, field by field, and what is wrong with a rejected one,
    told from the events themselves. */
module EventVerdicts {
  import opened Wrappers
  import opened JsonValues
  import opened NeutralContract
  import opened EventLoop

  const PROTOCOL_TEXT := "Binding returned an invalid event stream."
  const FAILURE_TEXT := "Binding invocation failed."

  /** The item is a valid event that names the request. */
  predicate Admissible(id: string, item: Raw) {
    item.Shaped? && ValidEvent(item.event) && item.event.requestId == id
  }

  /** Item `k` breaks the stream's rules in the way `code` names, judged against all items
      before it. */
  ghost predicate Breaks(id: string, items: seq<Raw>, k: int, code: Code)
    requires 0 <= k < |items|
  {
    match code
    case EventInvalid => items[k].Malformed? || !ValidEvent(items[k].event)
    case EventRequestMismatch => items[k].Shaped? && ValidEvent(items[k].event) && items[k].event.requestId != id
    case DuplicateTerminal => Admissible(id, items[k]) && IsTerminal(items[k].event) && AfterTerminal(items, k)
    case LateFrame => Admissible(id, items[k]) && !IsTerminal(items[k].event) && AfterTerminal(items, k)
    case EventSequence =>
      Admissible(id, items[k]) && !AfterTerminal(items, k)
      && exists j | 0 <= j < k :: items[j].Shaped? && items[j].event.sequence >= items[k].event.sequence
    case _ => false
  }

  ghost predicate AfterTerminal(items: seq<Raw>, k: int)
    requires 0 <= k <= |items|
  {
    exists j | 0 <= j < k :: items[j].Shaped? && IsTerminal(items[j].event)
  }

  ghost predicate Faultless(id: string, items: seq<Raw>, n: int)
    requires 0 <= n <= |items|
  {
    forall k, code | 0 <= k < n :: !Breaks(id, items, k, code)
  }

  /** Item `k` is the first that breaks a rule. */
  ghost predicate FirstFault(id: string, items: seq<Raw>, k: int, code: Code) {
    0 <= k < |items| && Faultless(id, items, k) && Breaks(id, items, k, code)
  }

  /** The one error that replaces a stream. */
  ghost predicate Reports(verdict: Option<Verdict>, id: string, provenance: Option<string>, code: Code, text: string) {
    && verdict.Some? && verdict.value.events.None? && verdict.value.candidate.ErrorEvent?
    && var e := verdict.value.candidate;
       && e.requestId == id && e.sequence == 0 && e.code == code && e.layer == BindingLayer && e.safeMessage == text
       && e.retryable == false && e.detail == Null && e.provenanceRef == provenance && e.effectKnown == false
       && e.presentation == Failed && e.outcome == Unknown
  }

  // ----- The first fault is the first violation -----

  /** Behind items without a fault, the rules and the loop's own test agree. */
  lemma BreaksIff(id: string, items: seq<Raw>, k: nat, code: Code)
    requires k < |items| && CleanUpTo(id, items, k)
    ensures Breaks(id, items, k, code) <==> ViolationAt(id, items, k) == Some(code)
  {
    CleanStreamIncreases(id, items, k);
    TerminalsAgree(items, k);
    if k > 0 && items[k].Shaped? {
      assert items[k - 1].Shaped?;
      assert forall j | 0 <= j < k :: items[j].event.sequence <= items[k - 1].event.sequence;
    }
  }

  lemma TerminalsAgree(items: seq<Raw>, k: nat)
    requires k <= |items|
    ensures AfterTerminal(items, k) <==> TerminalBefore(items, k)
  {
    if j :| 0 <= j < k && items[j].Shaped? && IsTerminal(items[j].event) {
      assert TerminalAt(items, j);
    }
    if j :| 0 <= j < k && TerminalAt(items, j) {
      assert items[j].Shaped? && IsTerminal(items[j].event);
    }
  }

  lemma {:induction false} FaultlessIff(id: string, items: seq<Raw>, n: nat)
    requires n <= |items|
    ensures Faultless(id, items, n) <==> CleanUpTo(id, items, n)
  {
    hide Breaks, ViolationAt;
    if n > 0 {
      FaultlessIff(id, items, n - 1);
      if CleanUpTo(id, items, n - 1) {
        forall code ensures Breaks(id, items, n - 1, code) <==> ViolationAt(id, items, n - 1) == Some(code) {
          BreaksIff(id, items, n - 1, code);
        }
        OneMore(id, items, n);
      }
    }
  }

  lemma OneMore(id: string, items: seq<Raw>, n: nat)
    requires 0 < n <= |items| && Faultless(id, items, n - 1) && CleanUpTo(id, items, n - 1)
    requires forall code :: Breaks(id, items, n - 1, code) <==> ViolationAt(id, items, n - 1) == Some(code)
    ensures Faultless(id, items, n) <==> CleanUpTo(id, items, n)
  {
    hide Breaks, ViolationAt;
    if Faultless(id, items, n) {
      forall code: Code
        ensures ViolationAt(id, items, n - 1) != Some(code)
      {
        assert !Breaks(id, items, n - 1, code);
      }
      assert ViolationAt(id, items, n - 1).None?;
    }
    if CleanUpTo(id, items, n) {
      assert ViolationAt(id, items, n - 1) == None;
      forall k, code | 0 <= k < n
        ensures !Breaks(id, items, k, code)
      {
        if k == n - 1 {
          assert Breaks(id, items, n - 1, code) <==> ViolationAt(id, items, n - 1) == Some(code);
        }
      }
    }
  }

  lemma FirstFaultIff(id: string, items: seq<Raw>, k: nat, code: Code)
    requires k < |items|
    ensures FirstFault(id, items, k, code) <==> FirstViolation(id, items, k, code)
  {
    FaultlessIff(id, items, k);
    if CleanUpTo(id, items, k) {
      BreaksIff(id, items, k, code);
    }
  }

  // ----- Main results -----

  /** Every stream has no fault or one first fault. */
  lemma SomeFirstFault(id: string, items: seq<Raw>) returns (k: int, code: Code)
    ensures Faultless(id, items, |items|) || FirstFault(id, items, k, code)
  {
    FaultlessIff(id, items, |items|);
    k, code := 0, EventInvalid;
    if !Faultless(id, items, |items|) {
      hide Breaks, ViolationAt;
      var found := FindViolation(id, items, 0);
      k :| FirstViolation(id, items, k, found.value);
      code := found.value;
      FirstFaultIff(id, items, k, code);
    }
  }

  /** A stream with a fault is replaced by one error about its first one, whatever its ending. */
  lemma FaultIsReported(id: string, provenance: Option<string>, stream: Stream, k: int, code: Code)
    requires FirstFault(id, stream.items, k, code)
    ensures Reports(Evaluate(id, provenance, stream), id, provenance, code, PROTOCOL_TEXT)
  {
    FirstFaultIff(id, stream.items, k, code);
    hide Breaks, ViolationAt;
    RejectsWithTheFirstViolation(id, provenance, stream, k, code);
  }

  /** A stream without a fault is judged by how it ended, and by whether a terminal came. */
  lemma EndingIsReported(id: string, provenance: Option<string>, stream: Stream)
    requires Faultless(id, stream.items, |stream.items|)
    ensures var verdict := Evaluate(id, provenance, stream);
            match stream.ending
            case RaisedException => Reports(verdict, id, provenance, BindingFailure, FAILURE_TEXT)
            case RaisedBaseException => verdict.None?
            case RaisedKernelError(code) =>
              if code == Cancelled || code == Custom("") then verdict.None?
              else Reports(verdict, id, provenance, code, PROTOCOL_TEXT)
            case Finished =>
              if AfterTerminal(stream.items, |stream.items|) then
                && verdict.Some? && verdict.value.events.Some? && |verdict.value.events.value| == |stream.items| > 0
                && (forall k | 0 <= k < |stream.items| :: stream.items[k] == Shaped(verdict.value.events.value[k]))
                && verdict.value.candidate == verdict.value.events.value[|stream.items| - 1]
                && IsTerminal(verdict.value.candidate)
              else Reports(verdict, id, provenance, MissingTerminal, PROTOCOL_TEXT)
  {
    FaultlessIff(id, stream.items, |stream.items|);
    TerminalsAgree(stream.items, |stream.items|);
    CleanIffOrdered(id, stream.items);
    hide Breaks, ViolationAt;
    if stream.ending.Finished? && WellFormed(id, stream.items) {
      OffersExactlyTheGrammar(id, provenance, stream);
      assert TerminalAt(stream.items, |stream.items| - 1);
    } else {
      CleanStreamJudgedByItsEnding(id, provenance, stream);
    }
  }
}
