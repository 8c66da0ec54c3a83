/** The stream check inside the guard's `invoke`: which event streams are offered
    unchanged, and which single error replaces the others. */
module EventLoop {
  import opened Wrappers
  import opened JsonValues
  import opened NeutralContract

  /** How the binding's iterable stopped. The last case is an exception outside Python's
      `Exception` hierarchy, such as an interrupt. */
  datatype Ending = Finished | RaisedKernelError(code: Code) | RaisedException | RaisedBaseException

  datatype Stream = Stream(items: seq<Raw>, ending: Ending)

  /** The candidate terminal, and the whole event list when it is offered unchanged. */
  datatype Verdict = Verdict(candidate: Event, events: Option<seq<Event>>)

  function BindingError(id: string, provenance: Option<string>, code: Code, protocolViolation: bool): Event {
    ErrorEvent(id, 0, code, BindingLayer,
               if protocolViolation then "Binding returned an invalid event stream." else "Binding invocation failed.",
               false, Null, provenance, false, Failed, Unknown)
  }

  // ----- The declarative side: violations of the stream grammar, by position -----

  predicate TerminalAt(items: seq<Raw>, k: int)
    requires 0 <= k < |items|
  {
    items[k].Shaped? && IsTerminal(items[k].event)
  }

  predicate TerminalBefore(items: seq<Raw>, k: int)
    requires 0 <= k <= |items|
  {
    exists j | 0 <= j < k :: TerminalAt(items, j)
  }

  /** What is wrong with item `k`, judged against the items before it. */
  function ViolationAt(id: string, items: seq<Raw>, k: int): Option<Code>
    requires 0 <= k < |items|
  {
    if ValidateNeutralEvent(items[k]).None? then Some(EventInvalid)
    else if items[k].event.requestId != id then Some(EventRequestMismatch)
    else if TerminalBefore(items, k) then Some(if TerminalAt(items, k) then DuplicateTerminal else LateFrame)
    else if k > 0 && items[k - 1].Shaped? && items[k].event.sequence <= items[k - 1].event.sequence then Some(EventSequence)
    else None
  }

  ghost predicate CleanUpTo(id: string, items: seq<Raw>, k: int)
    requires 0 <= k <= |items|
  {
    forall j | 0 <= j < k :: ViolationAt(id, items, j) == None
  }

  ghost predicate FirstViolation(id: string, items: seq<Raw>, k: int, code: Code) {
    0 <= k < |items| && CleanUpTo(id, items, k) && ViolationAt(id, items, k) == Some(code)
  }

  /** The stream grammar as its documentation words it: every event is valid and names
      this request, sequences strictly increase, and the only terminal is the last event. */
  ghost predicate WellFormed(id: string, items: seq<Raw>) {
    && items != []
    && (forall k | 0 <= k < |items| :: items[k].Shaped? && ValidEvent(items[k].event) && items[k].event.requestId == id)
    && (forall j, k | 0 <= j < k < |items| :: items[j].event.sequence < items[k].event.sequence)
    && (forall k | 0 <= k < |items| :: TerminalAt(items, k) <==> k == |items| - 1)
  }

  function EventsOf(items: seq<Raw>): seq<Event>
    requires forall r <- items :: r.Shaped?
  {
    seq(|items|, i requires 0 <= i < |items| => items[i].event)
  }

  // ----- The specification function the loop computes -----

  function FindViolation(id: string, items: seq<Raw>, from: nat): (found: Option<Code>)
    requires from <= |items|
    requires CleanUpTo(id, items, from)
    ensures found.None? ==> CleanUpTo(id, items, |items|)
    ensures found.Some? ==> exists k :: FirstViolation(id, items, k, found.value)
    decreases |items| - from
  {
    if from == |items| then None
    else if ViolationAt(id, items, from).Some? then
      assert FirstViolation(id, items, from, ViolationAt(id, items, from).value);
      ViolationAt(id, items, from)
    else FindViolation(id, items, from + 1)
  }

  /** A protocol error can only be turned into an error event when that event is valid:
      the code CANCELLED demands a presentation a binding error does not have. */
  predicate Reportable(code: Code) {
    code != Cancelled && code != Custom("")
  }

  /** The verdict, or nothing when an exception leaves `invoke` with the record untouched. */
  function Evaluate(id: string, provenance: Option<string>, stream: Stream): Option<Verdict> {
    match FindViolation(id, stream.items, 0)
    case Some(code) => Some(Verdict(BindingError(id, provenance, code, true), None))
    case None =>
      match stream.ending
      case RaisedKernelError(code) =>
        if Reportable(code) then Some(Verdict(BindingError(id, provenance, code, true), None)) else None
      case RaisedException => Some(Verdict(BindingError(id, provenance, BindingFailure, false), None))
      case RaisedBaseException => None
      case Finished =>
        if !TerminalBefore(stream.items, |stream.items|) then
          Some(Verdict(BindingError(id, provenance, MissingTerminal, true), None))
        else
          assert forall k | 0 <= k < |stream.items| :: ViolationAt(id, stream.items, k) == None ==> stream.items[k].Shaped?;
          var events := EventsOf(stream.items);
          Some(Verdict(events[|events| - 1], Some(events)))
  }

  // ----- The imperative loop -----

  method CheckEvents(id: string, provenance: Option<string>, stream: Stream) returns (verdict: Option<Verdict>)
    ensures verdict == Evaluate(id, provenance, stream)
  {
    var items := stream.items;
    var events: seq<Event> := [];
    var previousSequence: Option<int> := None;
    var terminal: Option<Event> := None;
    for k := 0 to |items|
      invariant CleanUpTo(id, items, k)
      invariant |events| == k && forall j | 0 <= j < k :: items[j].Shaped? && events[j] == items[j].event
      invariant previousSequence == if k == 0 then None else Some(events[k - 1].sequence)
      invariant terminal.Some? <==> TerminalBefore(items, k)
      invariant terminal.Some? ==> terminal == Some(events[k - 1])
    {
      var event := ValidateNeutralEvent(items[k]);
      var violation := None;
      if event.None? {
        violation := Some(EventInvalid);
      } else if event.value.requestId != id {
        violation := Some(EventRequestMismatch);
      } else if terminal.Some? {
        violation := Some(if IsTerminal(event.value) then DuplicateTerminal else LateFrame);
      } else if previousSequence.Some? && event.value.sequence <= previousSequence.value {
        violation := Some(EventSequence);
      }
      assert violation == ViolationAt(id, items, k);
      if violation.Some? {
        FindFrom(id, items, k);
        return Some(Verdict(BindingError(id, provenance, violation.value, true), None));
      }
      previousSequence := Some(event.value.sequence);
      events := events + [event.value];
      if IsTerminal(event.value) {
        terminal := event;
      }
      assert TerminalBefore(items, k + 1) <==> TerminalAt(items, k);
    }
    FindFrom(id, items, |items|);
    match stream.ending
    case RaisedKernelError(code) =>
      return if Reportable(code) then Some(Verdict(BindingError(id, provenance, code, true), None)) else None;
    case RaisedException => return Some(Verdict(BindingError(id, provenance, BindingFailure, false), None));
    case RaisedBaseException => return None;
    case Finished =>
      if terminal.None? {
        return Some(Verdict(BindingError(id, provenance, MissingTerminal, true), None));
      }
      assert events == EventsOf(items);
      return Some(Verdict(terminal.value, Some(events)));
  }

  /** The search result does not depend on where a clean prefix is skipped to. */
  lemma {:induction false} FindFrom(id: string, items: seq<Raw>, k: nat)
    requires k <= |items| && CleanUpTo(id, items, k)
    ensures FindViolation(id, items, 0) == FindViolation(id, items, k)
  {
    if k > 0 {
      FindFrom(id, items, k - 1);
    }
  }

  // ----- What the specification means -----

  /** In a clean stream all sequences up to any point increase, and a terminal can only be last. */
  lemma {:induction false} CleanStreamIncreases(id: string, items: seq<Raw>, k: nat)
    requires k <= |items| && CleanUpTo(id, items, k)
    ensures forall i | 0 <= i < k :: items[i].Shaped? && ValidEvent(items[i].event) && items[i].event.requestId == id
    ensures forall i, j | 0 <= i < j < k :: items[i].event.sequence < items[j].event.sequence
  {
    if k > 0 {
      CleanStreamIncreases(id, items, k - 1);
      assert ViolationAt(id, items, k - 1) == None;
    }
  }

  lemma CleanIffOrdered(id: string, items: seq<Raw>)
    ensures CleanUpTo(id, items, |items|) && TerminalBefore(items, |items|) <==> WellFormed(id, items)
  {
    if CleanUpTo(id, items, |items|) && TerminalBefore(items, |items|) {
      CleanStreamIncreases(id, items, |items|);
      var t :| 0 <= t < |items| && TerminalAt(items, t);
      assert ViolationAt(id, items, |items| - 1) == None;
      assert forall k | 0 <= k < |items| - 1 :: !TerminalAt(items, k);
    }
    if WellFormed(id, items) {
      assert TerminalAt(items, |items| - 1);
      forall k | 0 <= k < |items|
        ensures ViolationAt(id, items, k) == None
      {
        assert forall j | 0 <= j < k :: !TerminalAt(items, j);
      }
    }
  }

  /** The raw list is offered unchanged exactly for the streams of the grammar. */
  lemma OffersExactlyTheGrammar(id: string, provenance: Option<string>, stream: Stream)
    ensures var v := Evaluate(id, provenance, stream);
            v.Some? && v.value.events.Some? <==> stream.ending.Finished? && WellFormed(id, stream.items)
    ensures stream.ending.Finished? && WellFormed(id, stream.items) ==>
              Evaluate(id, provenance, stream) ==
                Some(Verdict(stream.items[|stream.items| - 1].event, Some(EventsOf(stream.items))))
  {
    CleanIffOrdered(id, stream.items);
    if FindViolation(id, stream.items, 0).Some? {
      var k :| FirstViolation(id, stream.items, k, FindViolation(id, stream.items, 0).value);
      assert !CleanUpTo(id, stream.items, |stream.items|);
    }
  }

  /** A rejected stream is replaced by one error, coded by its first violation in stream
      order; a violation wins over whatever the binding raises later. */
  lemma RejectsWithTheFirstViolation(id: string, provenance: Option<string>, stream: Stream, k: int, code: Code)
    requires FirstViolation(id, stream.items, k, code)
    ensures Evaluate(id, provenance, stream) == Some(Verdict(BindingError(id, provenance, code, true), None))
  {
    FindFrom(id, stream.items, k);
  }

  /** A stream without violations is judged by how it ended, and by nothing else. */
  lemma CleanStreamJudgedByItsEnding(id: string, provenance: Option<string>, stream: Stream)
    requires CleanUpTo(id, stream.items, |stream.items|)
    requires !(stream.ending.Finished? && WellFormed(id, stream.items))
    ensures Evaluate(id, provenance, stream) ==
              (match stream.ending
               case Finished => Some(Verdict(BindingError(id, provenance, MissingTerminal, true), None))
               case RaisedException => Some(Verdict(BindingError(id, provenance, BindingFailure, false), None))
               case RaisedBaseException => None
               case RaisedKernelError(raised) =>
                 if raised == Cancelled || raised == Custom("") then None
                 else Some(Verdict(BindingError(id, provenance, raised, true), None)))
  {
    CleanIffOrdered(id, stream.items);
    FindFrom(id, stream.items, |stream.items|);
  }

  /** Whatever the binding does, the candidate is one valid terminal of this request, and
      it ends the event list when that list is offered. */
  lemma CandidateIsAValidTerminal(id: string, provenance: Option<string>, stream: Stream)
    requires id != ""
    requires Evaluate(id, provenance, stream).Some?
    ensures var v := Evaluate(id, provenance, stream).value;
            && v.candidate.requestId == id && IsTerminal(v.candidate) && ValidEvent(v.candidate)
            && (v.events.Some? ==> v.events.value != [] && v.events.value[|v.events.value| - 1] == v.candidate)
  {
    OffersExactlyTheGrammar(id, provenance, stream);
    if FindViolation(id, stream.items, 0).Some? {
      var k :| FirstViolation(id, stream.items, k, FindViolation(id, stream.items, 0).value);
    }
  }

  /** A stream that leaves `invoke` with an exception and the record as it was: nothing wrong
      with its items, and an ending that is no `Exception` or is a kernel error whose code no
      error event can carry. */
  ghost predicate Unreportable(id: string, stream: Stream) {
    && CleanUpTo(id, stream.items, |stream.items|)
    && (stream.ending.RaisedBaseException? || (stream.ending.RaisedKernelError? && !Reportable(stream.ending.code)))
  }

  lemma NoVerdictIff(id: string, provenance: Option<string>, stream: Stream)
    ensures Evaluate(id, provenance, stream).None? <==> Unreportable(id, stream)
  {
    if FindViolation(id, stream.items, 0).Some? {
      var k :| FirstViolation(id, stream.items, k, FindViolation(id, stream.items, 0).value);
    }
  }
}
