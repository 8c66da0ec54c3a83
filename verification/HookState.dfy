/** The values behind the `useHostAgentStream` hook: its turns, its mirrored top-level
    state, its requests, and what each synchronous stretch of its code does to them. */
module HookState {
  import opened Wrappers
  import opened JsonValues

  datatype Status = Idle | Connecting | Streaming | Completed | Errored | Cancelled

  datatype Phase =
    | IdlePhase
    | ConnectingPhase
    | Planning
    | CallingHostAgent
    | Searching
    | Answering
    | CompletePhase
    | ErrorPhase
    | CancelledPhase

  datatype Response = Response(evidence: Json, body: Json)

  /** One stream event; a status event comes with its display phase. */
  datatype Frame =
    | StatusFrame(phase: Phase, rawPhase: Option<string>, message: Option<string>)
    | EvidenceFrame(items: Json)
    | DeltaFrame(text: string)
    | ToolFrame(isResult: bool, data: Json)
    | ErrorFrame(code: Option<string>, nestedCode: Option<string>)
    | FinalFrame(response: Response)

  /** The eight fields a turn and the hook itself both have. */
  datatype Face = Face(status: Status, phase: Phase, statusMessage: Option<string>, evidencePreview: Json, deltaText: string,
                       finalResponse: Option<Response>, error: Option<string>, events: seq<Frame>)

  /** A partial record: the given fields replace, the others stay. */
  datatype Patch = Patch(nameonly status: Option<Status> := None, nameonly phase: Option<Phase> := None,
                         nameonly statusMessage: Option<Option<string>> := None, nameonly evidencePreview: Option<Json> := None,
                         nameonly deltaText: Option<string> := None, nameonly finalResponse: Option<Option<Response>> := None,
                         nameonly error: Option<Option<string>> := None, nameonly events: Option<seq<Frame>> := None)

  datatype Turn = Turn(id: nat, query: string, face: Face)

  datatype Terminal = FinalReached | ErrorReached | CancelledReached | TimedOut

  /** Where a request's async function stands: awaiting the next event, awaiting the
      iterator's close after a break, or past its `finally`. */
  datatype Stage = Listening | Closing | Done

  datatype Request = Request(sequence: nat, turnId: nat, aborted: bool, terminal: Option<Terminal>, stage: Stage,
                             collected: seq<Frame>, accumulated: string)

  /** All requests ever started, oldest first; `active` is a position in that list. */
  datatype State = State(turns: seq<Turn>, face: Face, active: Option<nat>, sequence: nat, nextTurn: nat, requests: seq<Request>)

  const IDLE_FACE := Face(Idle, IdlePhase, None, Arr([]), "", None, None, [])
  const CONNECTING_FACE := Face(Connecting, ConnectingPhase, None, Arr([]), "", None, None, [])
  const NEWER_REQUEST := "Host Agent request cancelled by a newer request."
  const REQUEST_CANCELLED := "Host Agent request cancelled."
  const REQUEST_TIMED_OUT := "Host Agent stream timed out before a final response."
  const STREAM_ENDED := "Host Agent stream ended before a final response."

  function Or<T>(value: Option<T>, old_: T): T {
    if value.Some? then value.value else old_
  }

  function Apply(face: Face, patch: Patch): Face {
    Face(Or(patch.status, face.status), Or(patch.phase, face.phase), Or(patch.statusMessage, face.statusMessage),
         Or(patch.evidencePreview, face.evidencePreview), Or(patch.deltaText, face.deltaText),
         Or(patch.finalResponse, face.finalResponse), Or(patch.error, face.error), Or(patch.events, face.events))
  }

  function PatchTurn(turn: Turn, id: nat, patch: Patch): Turn {
    if turn.id == id then turn.(face := Apply(turn.face, patch)) else turn
  }

  function PatchTurns(turns: seq<Turn>, id: nat, patch: Patch): (patched: seq<Turn>)
    ensures |patched| == |turns|
  {
    seq(|turns|, k requires 0 <= k < |turns| => PatchTurn(turns[k], id, patch))
  }

  // ----- Error texts -----

  predicate CodeChar(c: char) {
    'A' <= c <= 'Z' || 'a' <= c <= 'z' || '0' <= c <= '9' || c == '_' || c == '.' || c == ':' || c == '-'
  }

  function ErrorText(code: Option<string>, nestedCode: Option<string>): string {
    var text := if code.Some? then code.value else if nestedCode.Some? then nestedCode.value else "";
    if 1 <= |text| <= 80 && forall c <- text :: CodeChar(c) then "Host Agent stream error: " + text
    else "Host Agent stream error."
  }

  function MessageOf(rawPhase: Option<string>, message: Option<string>): Option<string> {
    if message.Some? then message else rawPhase
  }

  // ----- The pieces of the async function -----

  predicate Shaped(s: State) {
    s.active.Some? ==> s.active.value < |s.requests|
  }

  predicate OwnsActive(s: State, i: nat)
    requires Shaped(s) && i < |s.requests|
  {
    s.active.Some? && s.requests[s.active.value].sequence == s.requests[i].sequence
  }

  predicate IsCurrent(s: State, i: nat)
    requires Shaped(s) && i < |s.requests|
  {
    OwnsActive(s, i) && !s.requests[i].aborted
  }

  /** Set top-level fields, and fields of the request's turn if it is current. */
  function ShowBoth(s: State, i: nat, top: Patch, turn: Patch): State
    requires Shaped(s) && i < |s.requests|
  {
    s.(face := Apply(s.face, top),
       turns := if IsCurrent(s, i) then PatchTurns(s.turns, s.requests[i].turnId, turn) else s.turns)
  }

  function Show(s: State, i: nat, patch: Patch): State
    requires Shaped(s) && i < |s.requests|
  {
    ShowBoth(s, i, patch, patch)
  }

  function SetStage(s: State, i: nat, stage: Stage): State
    requires i < |s.requests|
  {
    s.(requests := s.requests[i := s.requests[i].(stage := stage)])
  }

  function SetTerminal(s: State, i: nat, terminal: Terminal): State
    requires i < |s.requests|
  {
    s.(requests := s.requests[i := s.requests[i].(terminal := Some(terminal))])
  }

  function Collect(s: State, i: nat, frame: Frame): State
    requires i < |s.requests|
  {
    s.(requests := s.requests[i := s.requests[i].(collected := s.requests[i].collected + [frame])])
  }

  function Accumulate(s: State, i: nat, text: string): State
    requires i < |s.requests|
  {
    s.(requests := s.requests[i := s.requests[i].(accumulated := s.requests[i].accumulated + text)])
  }

  function FailurePatch(terminal: Terminal, text: string): Patch {
    Patch(status := Some(if terminal == CancelledReached then Cancelled else Errored),
          phase := Some(if terminal == CancelledReached then CancelledPhase else ErrorPhase),
          error := Some(Some(text)), finalResponse := Some(None))
  }

  function FinishWithError(s: State, i: nat, terminal: Terminal, text: string): State
    requires Shaped(s) && i < |s.requests|
  {
    if !IsCurrent(s, i) || s.requests[i].terminal.Some? then s
    else
      ShowBoth(SetTerminal(s, i, terminal), i, FailurePatch(terminal, text),
               FailurePatch(terminal, text).(events := Some(s.requests[i].collected)))
  }

  // ----- The synchronous stretches -----

  function StartTurn(s: State, query: string): State {
    s.(sequence := s.sequence + 1, nextTurn := s.nextTurn + 1,
       active := Some(|s.requests|),
       requests := s.requests + [Request(s.sequence + 1, s.nextTurn, false, None, Listening, [], "")],
       face := CONNECTING_FACE,
       turns := s.turns + [Turn(s.nextTurn, query, CONNECTING_FACE)])
  }

  function AbortPrevious(s: State): State
    requires Shaped(s)
  {
    if s.active.None? then s
    else
      var previous := s.requests[s.active.value];
      if previous.terminal.None? then
        s.(requests := s.requests[s.active.value := previous.(terminal := Some(CancelledReached), aborted := true)],
           turns := PatchTurns(s.turns, previous.turnId,
                               Patch(status := Some(Cancelled), phase := Some(CancelledPhase),
                                     error := Some(Some(NEWER_REQUEST)))))
      else
        s.(requests := s.requests[s.active.value := previous.(aborted := true)])
  }

  /** `start` up to its first await; the query is already trimmed. */
  function Start(s: State, query: string): State
    requires Shaped(s)
  {
    if query == "" then s else StartTurn(AbortPrevious(s), query)
  }

  function FinalPatch(response: Response): Patch {
    Patch(status := Some(Completed), phase := Some(CompletePhase), finalResponse := Some(Some(response)),
          evidencePreview := Some(response.evidence))
  }

  function Complete(s: State, i: nat, response: Response): State
    requires Shaped(s) && i < |s.requests|
  {
    ShowBoth(SetTerminal(s, i, FinalReached), i, FinalPatch(response),
             FinalPatch(response).(events := Some(s.requests[i].collected)))
  }

  /** The event joins the request's list, and both the top level and the turn show that list. */
  function See(s: State, i: nat, frame: Frame): State
    requires Shaped(s) && i < |s.requests|
  {
    Show(Collect(s, i, frame), i, Patch(events := Some(s.requests[i].collected + [frame])))
  }

  /** What the event's own branch does. */
  function React(s: State, i: nat, frame: Frame): State
    requires Shaped(s) && i < |s.requests|
  {
    match frame
    case StatusFrame(phase, rawPhase, message) =>
      Show(s, i, Patch(status := Some(Streaming), phase := Some(phase), statusMessage := Some(MessageOf(rawPhase, message))))
    case EvidenceFrame(items) =>
      Show(s, i, Patch(status := Some(Streaming), phase := Some(Searching), evidencePreview := Some(items)))
    case DeltaFrame(text) =>
      Show(Accumulate(s, i, text), i,
           Patch(status := Some(Streaming), phase := Some(Answering), deltaText := Some(s.requests[i].accumulated + text)))
    case ToolFrame(_, _) => s
    case ErrorFrame(code, nestedCode) =>
      SetStage(FinishWithError(s, i, ErrorReached, ErrorText(code, nestedCode)), i, Closing)
    case FinalFrame(response) =>
      SetStage(Complete(s, i, response), i, Closing)
  }

  /** The loop body for one delivered event. */
  function Deliver(s: State, i: nat, frame: Frame): State
    requires Shaped(s) && i < |s.requests|
  {
    if !IsCurrent(s, i) || s.requests[i].terminal.Some? then SetStage(s, i, Closing)
    else React(See(s, i, frame), i, frame)
  }

  /** The code after the loop, or the catch block for `failure`. */
  function Conclude(s: State, i: nat, failure: Option<string>): State
    requires Shaped(s) && i < |s.requests|
  {
    if !IsCurrent(s, i) || s.requests[i].terminal.Some? then s
    else
      match failure
      case None => FinishWithError(s, i, ErrorReached, STREAM_ENDED)
      case Some(text) =>
        if s.requests[i].aborted then FinishWithError(s, i, CancelledReached, REQUEST_CANCELLED)
        else FinishWithError(s, i, ErrorReached, text)
  }

  function Finally(s: State, i: nat): State
    requires Shaped(s) && i < |s.requests|
  {
    SetStage(if OwnsActive(s, i) then s.(active := None) else s, i, Done)
  }

  /** The stream is over, or its close is, normally or by an exception. */
  function End(s: State, i: nat, failure: Option<string>): State
    requires Shaped(s) && i < |s.requests|
  {
    Finally(Conclude(s, i, failure), i)
  }

  /** The timer callback. */
  function Timeout(s: State, i: nat): State
    requires Shaped(s) && i < |s.requests|
  {
    if s.requests[i].terminal.Some? || !IsCurrent(s, i) then s
    else
      var finished := FinishWithError(s, i, TimedOut, REQUEST_TIMED_OUT);
      finished.(requests := finished.requests[i := finished.requests[i].(aborted := true)])
  }

  function CancelPatch(): Patch {
    Patch(status := Some(Cancelled), phase := Some(CancelledPhase),
          error := Some(Some(REQUEST_CANCELLED)), finalResponse := Some(None))
  }

  function Cancel(s: State): State
    requires Shaped(s)
  {
    if s.active.None? || s.requests[s.active.value].terminal.Some? then s
    else
      var request := s.requests[s.active.value];
      s.(requests := s.requests[s.active.value := request.(terminal := Some(CancelledReached), aborted := true)],
         sequence := s.sequence + 1, active := None,
         face := Apply(s.face, CancelPatch()),
         turns := PatchTurns(s.turns, request.turnId, CancelPatch()))
  }

  function Reset(s: State): State
    requires Shaped(s)
  {
    s.(requests := if s.active.Some? then s.requests[s.active.value := s.requests[s.active.value].(aborted := true)]
                   else s.requests,
       sequence := s.sequence + 1, active := None, face := IDLE_FACE, turns := [])
  }

  // ----- Steps and runs -----

  datatype Action =
    | DoStart(query: string)
    | DoDeliver(request: nat, frame: Frame)
    | DoEnd(request: nat, failure: Option<string>)
    | DoTimeout(request: nat)
    | DoCancel
    | DoReset

  const INITIAL := State([], IDLE_FACE, None, 0, 0, [])

  /** An event needs a listening loop; an end and a timer need a `finally` still to come. */
  predicate Enabled(s: State, a: Action) {
    match a
    case DoDeliver(i, _) => i < |s.requests| && s.requests[i].stage == Listening
    case DoEnd(i, _) => i < |s.requests| && s.requests[i].stage != Done
    case DoTimeout(i) => i < |s.requests| && s.requests[i].stage != Done
    case _ => true
  }

  function Step(s: State, a: Action): State
    requires Shaped(s) && Enabled(s, a)
  {
    match a
    case DoStart(query) => Start(s, query)
    case DoDeliver(i, frame) => Deliver(s, i, frame)
    case DoEnd(i, failure) => End(s, i, failure)
    case DoTimeout(i) => Timeout(s, i)
    case DoCancel => Cancel(s)
    case DoReset => Reset(s)
  }
}
