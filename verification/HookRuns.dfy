/** What holds of the hook over every interleaving of starts, events, ends, timeouts,
    cancels and resets. */
module HookRuns {
  import opened Wrappers
  import opened JsonValues
  import opened HookState

  // ----- What a turn may show -----

  predicate Live(face: Face) {
    face.status == Connecting || face.status == Streaming
  }

  predicate Ends(frame: Frame) {
    frame.ErrorFrame? || frame.FinalFrame?
  }

  /** The text of all delta events, in order. */
  function Deltas(events: seq<Frame>): string {
    if events == [] then ""
    else Deltas(events[..|events| - 1]) + if events[|events| - 1].DeltaFrame? then events[|events| - 1].text else ""
  }

  /** The evidence of the latest event that carries any. */
  function LatestEvidence(events: seq<Frame>): Json {
    if events == [] then Arr([])
    else
      match events[|events| - 1]
      case EvidenceFrame(items) => items
      case FinalFrame(response) => response.evidence
      case _ => LatestEvidence(events[..|events| - 1])
  }

  function LatestMessage(events: seq<Frame>): Option<string> {
    if events == [] then None
    else if events[|events| - 1].StatusFrame? then MessageOf(events[|events| - 1].rawPhase, events[|events| - 1].message)
    else LatestMessage(events[..|events| - 1])
  }

  /** What the latest event other than a tool event puts the stream in. */
  function LatestPhase(events: seq<Frame>): Phase {
    if events == [] then ConnectingPhase
    else
      match events[|events| - 1]
      case StatusFrame(phase, _, _) => phase
      case EvidenceFrame(_) => Searching
      case DeltaFrame(_) => Answering
      case ToolFrame(_, _) => LatestPhase(events[..|events| - 1])
      case ErrorFrame(_, _) => ErrorPhase
      case FinalFrame(_) => CompletePhase
  }

  /** What a face shows is what its events said, in order; only the last can end the stream. */
  ghost predicate ShowsItsEvents(face: Face) {
    && face.deltaText == Deltas(face.events)
    && face.evidencePreview == LatestEvidence(face.events)
    && face.statusMessage == LatestMessage(face.events)
    && (forall k | 0 <= k < |face.events| - 1 :: !Ends(face.events[k]))
  }

  /** Tool calls and their results are listed and change nothing else. */
  predicate OnlyTools(events: seq<Frame>) {
    forall k | 0 <= k < |events| :: events[k].ToolFrame?
  }

  /** The status says how the events ended; while live, it says whether any but tool events came. */
  ghost predicate StatusFitsEvents(face: Face) {
    && face.status != Idle
    && (Live(face) ==> (face.status == Connecting <==> OnlyTools(face.events)) && face.phase == LatestPhase(face.events))
    && (Live(face) ==> face.error.None? && face.finalResponse.None? && (face.events != [] ==> !Ends(Last(face.events))))
    && (face.status == Completed <==> face.events != [] && Last(face.events).FinalFrame?)
    && (face.finalResponse.Some? <==> face.status == Completed)
    && (face.status == Completed ==> Last(face.events) == FinalFrame(face.finalResponse.value) && face.phase == CompletePhase)
    && (face.error.Some? <==> face.status == Errored || face.status == Cancelled)
    && (face.events != [] && Last(face.events).ErrorFrame? ==>
          face.status == Errored && face.error == Some(ErrorText(Last(face.events).code, Last(face.events).nestedCode)))
    && (face.status == Errored ==> face.phase == ErrorPhase)
    && (face.status == Cancelled ==> face.phase == CancelledPhase)
  }

  ghost predicate Tells(face: Face) {
    ShowsItsEvents(face) && StatusFitsEvents(face)
  }

  function Last<T>(items: seq<T>): T
    requires items != []
  {
    items[|items| - 1]
  }

  // ----- The invariant -----

  ghost predicate Numbered(s: State) {
    && (forall i | 0 <= i < |s.requests| :: s.requests[i].sequence <= s.sequence && s.requests[i].turnId < s.nextTurn)
    && (forall i, j | 0 <= i < j < |s.requests| ::
          s.requests[i].sequence < s.requests[j].sequence && s.requests[i].turnId < s.requests[j].turnId)
    && (forall k | 0 <= k < |s.turns| :: s.turns[k].id < s.nextTurn)
    && (forall j, k | 0 <= j < k < |s.turns| :: s.turns[j].id < s.turns[k].id)
  }

  /** The active request is the newest one and owns the last turn, which holds exactly what
      the request has collected; only its timer can have aborted it. */
  ghost predicate ActiveOwnsLast(s: State) {
    s.active.Some? ==>
      && s.active.value == |s.requests| - 1 && s.turns != []
      && var request := s.requests[s.active.value];
         && request.stage != Done
         && Last(s.turns).id == request.turnId
         && Last(s.turns).face.events == request.collected
         && (request.aborted <==> request.terminal == Some(TimedOut))
         && (request.terminal.None? ==> Last(s.turns).face.deltaText == request.accumulated)
  }

  /** A turn is connecting or streaming exactly when it is the last one and an active
      request without a terminal stands behind it. */
  ghost predicate OneLiveTurn(s: State)
    requires Shaped(s)
  {
    forall k | 0 <= k < |s.turns| ::
      Live(s.turns[k].face) <==>
        k == |s.turns| - 1 && s.active.Some? && s.requests[s.active.value].terminal.None?
  }

  /** The top-level state is the face of the last turn. */
  ghost predicate Mirrors(s: State) {
    if s.turns == [] then s.face == IDLE_FACE && s.active.None? else s.face == Last(s.turns).face
  }

  ghost predicate AllTell(s: State) {
    forall k | 0 <= k < |s.turns| :: Tells(s.turns[k].face)
  }

  ghost predicate Inv(s: State) {
    Shaped(s) && Numbered(s) && ActiveOwnsLast(s) && OneLiveTurn(s) && Mirrors(s) && AllTell(s)
  }

  /** Nothing a finished turn shows ever changes, and no turn disappears. */
  ghost predicate FinishedStay(before: State, after: State) {
    && |before.turns| <= |after.turns|
    && forall k | 0 <= k < |before.turns| ::
         && after.turns[k].id == before.turns[k].id && after.turns[k].query == before.turns[k].query
         && (!Live(before.turns[k].face) ==> after.turns[k] == before.turns[k])
         && before.turns[k].face.events <= after.turns[k].face.events
  }

  function WithLast(turns: seq<Turn>, face: Face): seq<Turn>
    requires turns != []
  {
    turns[|turns| - 1 := Last(turns).(face := face)]
  }

  /** Other requests never own the active sequence number. */
  lemma OnlyTheActiveIsCurrent(s: State, i: nat)
    requires Inv(s) && i < |s.requests|
    ensures OwnsActive(s, i) <==> s.active == Some(i)
  {
  }

  lemma DeltasMore(events: seq<Frame>, frame: Frame)
    ensures Deltas(events + [frame]) == Deltas(events) + if frame.DeltaFrame? then frame.text else ""
    ensures LatestEvidence(events + [frame]) ==
              (match frame case EvidenceFrame(items) => items case FinalFrame(response) => response.evidence
               case _ => LatestEvidence(events))
    ensures LatestMessage(events + [frame]) ==
              if frame.StatusFrame? then MessageOf(frame.rawPhase, frame.message) else LatestMessage(events)
  {
    assert (events + [frame])[..|events + [frame]| - 1] == events;
  }

  // ----- One successful change of the last turn -----

  /** The new state after a current request changed its record and the face to `face`. */
  function Moved(s: State, request: Request, face: Face): State
    requires Shaped(s) && s.active.Some? && s.turns != []
  {
    s.(requests := s.requests[s.active.value := request], face := face, turns := WithLast(s.turns, face))
  }

  predicate Outcome(before: Request, after: Request, face: Face) {
    && after.sequence == before.sequence && after.turnId == before.turnId && after.stage != Done
    && face.events == after.collected
    && (after.aborted <==> after.terminal == Some(TimedOut))
    && (after.terminal.None? ==> face.deltaText == after.accumulated)
    && (Live(face) <==> after.terminal.None?)
    && before.collected <= after.collected
  }

  lemma MovedKeeps(s: State, request: Request, face: Face)
    requires Inv(s) && s.active.Some? && s.requests[s.active.value].terminal.None?
    requires Outcome(s.requests[s.active.value], request, face) && Tells(face)
    ensures Inv(Moved(s, request, face)) && FinishedStay(s, Moved(s, request, face))
  {
    hide Tells;
    MovedStays(s, request, face);
    hide FinishedStay;
  }

  lemma MovedStays(s: State, request: Request, face: Face)
    requires Inv(s) && s.active.Some? && s.requests[s.active.value].terminal.None?
    requires Outcome(s.requests[s.active.value], request, face)
    ensures FinishedStay(s, Moved(s, request, face))
  {
    hide Tells;
  }

  /** A change to one request's stage or abort flag that touches nothing the user sees. */
  lemma QuietKeeps(s: State, i: nat, request: Request)
    requires Inv(s) && i < |s.requests|
    requires request.sequence == s.requests[i].sequence && request.turnId == s.requests[i].turnId
    requires s.active == Some(i) ==>
               request == s.requests[i].(stage := request.stage) && request.stage != Done
    ensures Inv(s.(requests := s.requests[i := request]))
  {
  }

  // ----- Deliver -----

  function ReactedFace(face: Face, frame: Frame): Face {
    match frame
    case StatusFrame(phase, rawPhase, message) =>
      face.(status := Streaming, phase := phase, statusMessage := MessageOf(rawPhase, message))
    case EvidenceFrame(items) => face.(status := Streaming, phase := Searching, evidencePreview := items)
    case DeltaFrame(text) => face.(status := Streaming, phase := Answering, deltaText := face.deltaText + text)
    case ToolFrame(_, _) => face
    case ErrorFrame(code, nestedCode) =>
      face.(status := Errored, phase := ErrorPhase, error := Some(ErrorText(code, nestedCode)), finalResponse := None)
    case FinalFrame(response) =>
      face.(status := Completed, phase := CompletePhase, finalResponse := Some(response), evidencePreview := response.evidence)
  }

  function DeliveredFace(face: Face, frame: Frame): Face {
    ReactedFace(face.(events := face.events + [frame]), frame)
  }

  function ReactedRequest(request: Request, frame: Frame): Request {
    match frame
    case DeltaFrame(text) => request.(accumulated := request.accumulated + text)
    case ErrorFrame(_, _) => request.(terminal := Some(ErrorReached), stage := Closing)
    case FinalFrame(_) => request.(terminal := Some(FinalReached), stage := Closing)
    case _ => request
  }

  function DeliveredRequest(request: Request, frame: Frame): Request {
    ReactedRequest(request.(collected := request.collected + [frame]), frame)
  }

  lemma DeliveredShows(face: Face, frame: Frame)
    requires ShowsItsEvents(face) && (face.events != [] ==> !Ends(Last(face.events)))
    ensures ShowsItsEvents(DeliveredFace(face, frame))
  {
    DeltasMore(face.events, frame);
    var events := face.events + [frame];
    assert DeliveredFace(face, frame).events == events;
    forall k | 0 <= k < |events| - 1
      ensures !Ends(events[k])
    {
      assert events[k] == face.events[k] && (k == |face.events| - 1 ==> face.events[k] == Last(face.events));
    }
  }

  lemma DeliveredFits(face: Face, frame: Frame)
    requires StatusFitsEvents(face) && Live(face)
    ensures StatusFitsEvents(DeliveredFace(face, frame))
  {
    var events := face.events + [frame];
    assert Last(events) == frame && events[|face.events|] == frame && events[..|face.events|] == face.events;
    assert forall k | 0 <= k < |face.events| :: events[k] == face.events[k];
  }

  lemma DeliveredTells(face: Face, frame: Frame)
    requires Tells(face) && Live(face)
    ensures Tells(DeliveredFace(face, frame))
  {
    DeliveredShows(face, frame);
    DeliveredFits(face, frame);
  }

  /** The state once the event has joined the lists, before its own branch runs. */
  lemma SeeIsMoved(s: State, frame: Frame)
    requires Inv(s) && s.active.Some? && s.requests[s.active.value].terminal.None?
    ensures var request := s.requests[s.active.value];
            See(s, s.active.value, frame) ==
              Moved(s, request.(collected := request.collected + [frame]), s.face.(events := s.face.events + [frame]))
  {
  }

  lemma ReactIsMoved(s: State, request: Request, face: Face, frame: Frame)
    requires Inv(s) && s.active.Some? && s.requests[s.active.value].terminal.None?
    requires request.sequence == s.requests[s.active.value].sequence && request.turnId == s.requests[s.active.value].turnId
    requires request.terminal.None? && !request.aborted
    requires face.deltaText == request.accumulated && face.events == request.collected
    ensures React(Moved(s, request, face), s.active.value, frame) ==
              Moved(s, ReactedRequest(request, frame), ReactedFace(face, frame))
  {
  }

  /** A delivered event of the current request changes its record and the last turn, both
      by the same event; in particular the mirror cannot drift. */
  lemma DeliverIsMoved(s: State, frame: Frame)
    requires Inv(s) && s.active.Some? && s.requests[s.active.value].terminal.None?
    ensures Deliver(s, s.active.value, frame) ==
              Moved(s, DeliveredRequest(s.requests[s.active.value], frame), DeliveredFace(s.face, frame))
  {
    var request := s.requests[s.active.value];
    SeeIsMoved(s, frame);
    ReactIsMoved(s, request.(collected := request.collected + [frame]), s.face.(events := s.face.events + [frame]), frame);
  }

  /** The face of an active request without a terminal is the last turn's, and live. */
  lemma ActiveFace(s: State)
    requires Inv(s) && s.active.Some? && s.requests[s.active.value].terminal.None?
    ensures Tells(s.face) && Live(s.face)
    ensures var request := s.requests[s.active.value];
            s.face.events == request.collected && s.face.deltaText == request.accumulated && !request.aborted
            && request.stage != Done
  {
    hide Tells;
    assert s.turns[|s.turns| - 1] == Last(s.turns);
  }

  lemma DeliveredOutcome(request: Request, face: Face, frame: Frame)
    requires request.terminal.None? && !request.aborted && request.stage != Done && Live(face)
    requires face.events == request.collected && face.deltaText == request.accumulated
    ensures Outcome(request, DeliveredRequest(request, frame), DeliveredFace(face, frame))
  {
  }

  lemma DeliverKeeps(s: State, i: nat, frame: Frame)
    requires Inv(s) && i < |s.requests| && s.requests[i].stage == Listening
    ensures Inv(Deliver(s, i, frame)) && FinishedStay(s, Deliver(s, i, frame))
  {
    hide Tells;
    OnlyTheActiveIsCurrent(s, i);
    if IsCurrent(s, i) && s.requests[i].terminal.None? {
      ActiveFace(s);
      DeliverIsMoved(s, frame);
      DeliveredTells(s.face, frame);
      DeliveredOutcome(s.requests[i], s.face, frame);
      hide Deliver, DeliveredFace, DeliveredRequest, Inv, FinishedStay, Outcome;
      MovedKeeps(s, DeliveredRequest(s.requests[i], frame), DeliveredFace(s.face, frame));
    } else {
      QuietKeeps(s, i, s.requests[i].(stage := Closing));
    }
  }

  // ----- Ends and timeouts -----

  function FailedFace(face: Face, text: string): Face {
    face.(status := Errored, phase := ErrorPhase, error := Some(text), finalResponse := None)
  }

  lemma FinishIsMoved(s: State, terminal: Terminal, text: string)
    requires Inv(s) && s.active.Some? && s.requests[s.active.value].terminal.None?
    requires terminal == ErrorReached || terminal == TimedOut
    ensures FinishWithError(s, s.active.value, terminal, text) ==
              Moved(s, s.requests[s.active.value].(terminal := Some(terminal)), FailedFace(s.face, text))
    ensures Tells(FailedFace(s.face, text))
  {
  }

  /** `finally` of a request that still owns the active slot. */
  function Released(s: State): State
    requires Shaped(s) && s.active.Some?
  {
    s.(active := None, requests := s.requests[s.active.value := s.requests[s.active.value].(stage := Done)])
  }

  lemma ReleasedKeeps(s: State)
    requires Inv(s) && s.active.Some? && s.requests[s.active.value].terminal.Some?
    ensures Inv(Released(s)) && FinishedStay(s, Released(s))
  {
  }

  lemma EndKeeps(s: State, i: nat, failure: Option<string>)
    requires Inv(s) && i < |s.requests| && s.requests[i].stage != Done
    ensures Inv(End(s, i, failure)) && FinishedStay(s, End(s, i, failure))
  {
    OnlyTheActiveIsCurrent(s, i);
    if s.active == Some(i) && s.requests[i].terminal.None? {
      var text := if failure.Some? then failure.value else STREAM_ENDED;
      FinishIsMoved(s, ErrorReached, text);
      var moved := FinishWithError(s, i, ErrorReached, text);
      MovedKeeps(s, s.requests[i].(terminal := Some(ErrorReached)), FailedFace(s.face, text));
      assert Conclude(s, i, failure) == moved;
      ReleasedKeeps(moved);
      FinishedStayChains(s, moved, Released(moved));
      assert End(s, i, failure) == Released(moved);
    } else if s.active == Some(i) {
      ReleasedKeeps(s);
      assert End(s, i, failure) == Released(s);
    } else {
      QuietKeeps(s, i, s.requests[i].(stage := Done));
    }
  }

  lemma FinishedStayChains(a: State, b: State, c: State)
    requires FinishedStay(a, b) && FinishedStay(b, c)
    ensures FinishedStay(a, c)
  {
    forall k | 0 <= k < |a.turns|
      ensures c.turns[k].id == a.turns[k].id && c.turns[k].query == a.turns[k].query
      ensures !Live(a.turns[k].face) ==> c.turns[k] == a.turns[k]
      ensures a.turns[k].face.events <= c.turns[k].face.events
    {
      assert b.turns[k].id == a.turns[k].id;
    }
  }

  lemma TimeoutKeeps(s: State, i: nat)
    requires Inv(s) && i < |s.requests| && s.requests[i].stage != Done
    ensures Inv(Timeout(s, i)) && FinishedStay(s, Timeout(s, i))
  {
    OnlyTheActiveIsCurrent(s, i);
    if s.active == Some(i) && s.requests[i].terminal.None? {
      FinishIsMoved(s, TimedOut, REQUEST_TIMED_OUT);
      var request := s.requests[i].(terminal := Some(TimedOut), aborted := true);
      MovedKeeps(s, request, FailedFace(s.face, REQUEST_TIMED_OUT));
      assert Timeout(s, i) == Moved(s, request, FailedFace(s.face, REQUEST_TIMED_OUT));
    }
  }

  // ----- Start, cancel and reset -----

  function CancelledFace(face: Face, text: string): Face {
    face.(status := Cancelled, phase := CancelledPhase, error := Some(text))
  }

  /** A cancelled last turn, whoever cancelled it, with the slot emptied. */
  function Withdrawn(s: State, text: string, sequence: nat): State
    requires Shaped(s) && s.active.Some? && s.turns != []
  {
    var request := s.requests[s.active.value].(terminal := Some(CancelledReached), aborted := true);
    State(WithLast(s.turns, CancelledFace(s.face, text)), CancelledFace(s.face, text), None, sequence, s.nextTurn,
          s.requests[s.active.value := request])
  }

  lemma WithdrawnKeeps(s: State, text: string, sequence: nat)
    requires Inv(s) && s.active.Some? && s.requests[s.active.value].terminal.None? && s.sequence <= sequence
    ensures Inv(Withdrawn(s, text, sequence)) && FinishedStay(s, Withdrawn(s, text, sequence))
  {
    assert Tells(CancelledFace(s.face, text));
  }

  lemma CancelKeeps(s: State)
    requires Inv(s)
    ensures Inv(Cancel(s)) && FinishedStay(s, Cancel(s))
  {
    if s.active.Some? && s.requests[s.active.value].terminal.None? {
      WithdrawnKeeps(s, REQUEST_CANCELLED, s.sequence + 1);
      assert s.face.finalResponse.None?;
      assert Cancel(s) == Withdrawn(s, REQUEST_CANCELLED, s.sequence + 1);
    }
  }

  /** An empty slot, with the requests aborted as `start` leaves them. */
  lemma AbortedKeeps(s: State)
    requires Inv(s) && s.active.Some? && s.requests[s.active.value].terminal.Some?
    ensures var request := s.requests[s.active.value].(aborted := true);
            var after := s.(active := None, requests := s.requests[s.active.value := request]);
            Inv(after) && FinishedStay(s, after)
  {
  }

  lemma StartTurnKeeps(s: State, query: string)
    requires Inv(s) && s.active.None?
    ensures Inv(StartTurn(s, query)) && FinishedStay(s, StartTurn(s, query))
  {
    assert Tells(CONNECTING_FACE);
  }

  /** What `start` makes of the slot before it opens a new turn. */
  lemma AbortPreviousKeeps(s: State) returns (cleared: State)
    requires Inv(s)
    ensures Inv(cleared) && FinishedStay(s, cleared) && cleared.active.None?
    ensures var aborted := AbortPrevious(s);
            cleared == aborted.(active := None, face := cleared.face)
  {
    if s.active.None? {
      cleared := s;
    } else if s.requests[s.active.value].terminal.None? {
      WithdrawnKeeps(s, NEWER_REQUEST, s.sequence);
      cleared := Withdrawn(s, NEWER_REQUEST, s.sequence);
    } else {
      AbortedKeeps(s);
      cleared := AbortPrevious(s).(active := None);
    }
  }

  lemma StartKeeps(s: State, query: string)
    requires Inv(s)
    ensures Inv(Start(s, query)) && FinishedStay(s, Start(s, query))
  {
    if query != "" {
      var cleared := AbortPreviousKeeps(s);
      StartTurnKeeps(cleared, query);
      StartTurnIgnores(AbortPrevious(s), cleared, query);
      FinishedStayChains(s, cleared, StartTurn(cleared, query));
    }
  }

  /** A new turn does not depend on the slot or the top-level state it replaces. */
  lemma StartTurnIgnores(s: State, other: State, query: string)
    requires other == s.(active := other.active, face := other.face)
    ensures StartTurn(s, query) == StartTurn(other, query)
  {
  }

  lemma ResetKeeps(s: State)
    requires Inv(s)
    ensures Inv(Reset(s))
  {
  }

  // ----- All runs -----

  lemma StepKeepsInv(s: State, a: Action)
    requires Inv(s) && Enabled(s, a)
    ensures Inv(Step(s, a))
    ensures !a.DoReset? ==> FinishedStay(s, Step(s, a))
  {
    match a
    case DoStart(query) => StartKeeps(s, query);
    case DoDeliver(i, frame) => DeliverKeeps(s, i, frame);
    case DoEnd(i, failure) => EndKeeps(s, i, failure);
    case DoTimeout(i) => TimeoutKeeps(s, i);
    case DoCancel => CancelKeeps(s);
    case DoReset => ResetKeeps(s);
  }

  /** `after` is reached from `s` by exactly these actions. */
  ghost predicate Runs(s: State, actions: seq<Action>, after: State)
    decreases |actions|
  {
    if actions == [] then after == s
    else Shaped(s) && Enabled(s, actions[0]) && Runs(Step(s, actions[0]), actions[1..], after)
  }

  lemma {:induction false} RunsKeepInv(s: State, actions: seq<Action>, after: State)
    requires Inv(s) && Runs(s, actions, after)
    ensures Inv(after)
    ensures DoReset !in actions ==> FinishedStay(s, after)
    decreases |actions|
  {
    if actions != [] {
      StepKeepsInv(s, actions[0]);
      RunsKeepInv(Step(s, actions[0]), actions[1..], after);
      if DoReset !in actions {
        FinishedStayChains(s, Step(s, actions[0]), after);
      }
    }
  }

  lemma ReachableInv(actions: seq<Action>, after: State)
    requires Runs(INITIAL, actions, after)
    ensures Inv(after)
  {
    RunsKeepInv(INITIAL, actions, after);
  }
}
