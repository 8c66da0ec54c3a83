/** The `useHostAgentStream` hook as it runs: mutable fields for its state setters and refs,
    one request object per `start`. Each synchronous stretch of its code is proved to be the
    step that the run proofs reason about. */
module HostAgentHook {
  import opened Wrappers
  import opened JsonValues
  import opened HookState

  class ActiveRequest {
    /** The position among all requests the hook ever started. */
    ghost const serial: nat

    const sequence: nat
    const turnId: nat
    var aborted: bool
    var terminal: Option<Terminal>
    var stage: Stage
    var collected: seq<Frame>
    var accumulatedDeltaText: string

    constructor (sequence: nat, turnId: nat, ghost serial: nat)
      ensures this.serial == serial
      ensures Value() == Request(sequence, turnId, false, None, Listening, [], "")
    {
      this.sequence := sequence;
      this.turnId := turnId;
      this.aborted := false;
      this.terminal := None;
      this.stage := Listening;
      this.collected := [];
      this.accumulatedDeltaText := "";
      this.serial := serial;
    }

    ghost function Value(): Request
      reads this
    {
      Request(sequence, turnId, aborted, terminal, stage, collected, accumulatedDeltaText)
    }
  }

  class HostAgentStream {
    var turns: seq<Turn>
    /** The values behind the eight state setters. */
    var face: Face
    var activeRequest: ActiveRequest?
    var requestSequence: nat
    var turnSequence: nat
    ghost var started: seq<ActiveRequest>

    ghost predicate Valid()
      reads this`started, this`activeRequest, started
    {
      && (forall i | 0 <= i < |started| :: started[i].serial == i)
      && (activeRequest != null ==> Mine(activeRequest))
    }

    ghost predicate Mine(request: ActiveRequest)
      reads this`started
    {
      request.serial < |started| && started[request.serial] == request
    }

    ghost function View(): (s: State)
      requires Valid()
      reads this, started
      ensures Shaped(s) && |s.requests| == |started|
    {
      State(turns, face, if activeRequest == null then None else Some(activeRequest.serial), requestSequence, turnSequence,
            Requests())
    }

    ghost function Requests(): (requests: seq<Request>)
      reads this`started, started
      ensures |requests| == |started|
    {
      var all := started;
      seq(|all|, i requires 0 <= i < |all| reads all => all[i].Value())
    }

    /** One request changed; which requests exist did not. */
    twostate lemma OneRequestChanged(request: ActiveRequest)
      requires old(Valid()) && Valid() && old(Mine(request)) && started == old(started)
      requires forall other <- started | other != request :: unchanged(other)
      ensures Requests() == old(Requests())[request.serial := request.Value()]
    {
      forall i | 0 <= i < |started| && i != request.serial
        ensures Requests()[i] == old(Requests())[i]
      {
        assert started[i] in started && started[i] != request;
      }
    }

    constructor ()
      ensures Valid() && View() == INITIAL
    {
      turns, started := [], [];
      face := Face(Idle, IdlePhase, None, Arr([]), "", None, None, []);
      activeRequest := null;
      requestSequence, turnSequence := 0, 0;
    }

    predicate Current(request: ActiveRequest)
      requires Valid() && Mine(request)
      reads this, started
      ensures Current(request) <==> IsCurrent(View(), request.serial)
    {
      activeRequest != null && activeRequest.sequence == request.sequence && !request.aborted
    }

    method UpdateTurn(request: ActiveRequest, patch: Patch)
      requires Valid() && Mine(request)
      modifies this`turns
      ensures Valid()
      ensures turns == if old(Current(request)) then PatchTurns(old(turns), request.turnId, patch) else old(turns)
    {
      if !Current(request) {
        return;
      }
      turns := PatchTurns(turns, request.turnId, patch);
    }

    method FinishWithError(request: ActiveRequest, terminal: Terminal, text: string)
      requires Valid() && Mine(request)
      modifies this`turns, this`face, request`terminal
      ensures Valid()
      ensures View() == HookState.FinishWithError(old(View()), request.serial, terminal, text)
    {
      if !Current(request) || request.terminal.Some? {
        return;
      }
      request.terminal := Some(terminal);
      OneRequestChanged(request);
      face := face.(error := Some(text), finalResponse := None,
                    phase := if terminal == CancelledReached then CancelledPhase else ErrorPhase,
                    status := if terminal == CancelledReached then Cancelled else Errored);
      UpdateTurn(request, Patch(status := Some(if terminal == CancelledReached then Cancelled else Errored),
                                phase := Some(if terminal == CancelledReached then CancelledPhase else ErrorPhase),
                                error := Some(Some(text)), finalResponse := Some(None), events := Some(request.collected)));
    }

    /** `start` up to its first await. */
    method Start(query: string) returns (request: ActiveRequest?)
      requires Valid()
      modifies this, activeRequest
      ensures Valid() && old(started) <= started && fresh(started[|old(started)|..])
      ensures View() == HookState.Start(old(View()), query)
      ensures request == null <==> query == ""
      ensures request != null ==> request == activeRequest && started == old(started) + [request]
    {
      if query == "" {
        return null;
      }
      AbortPrevious();
      requestSequence := requestSequence + 1;
      request := new ActiveRequest(requestSequence, turnSequence, |started|);
      turnSequence := turnSequence + 1;
      started := started + [request];
      activeRequest := request;
      face := face.(status := Connecting, phase := ConnectingPhase, statusMessage := None, evidencePreview := Arr([]),
                    deltaText := "", finalResponse := None, error := None, events := []);
      turns := turns + [Turn(request.turnId, query, Face(Connecting, ConnectingPhase, None, Arr([]), "", None, None, []))];
    }

    method AbortPrevious()
      requires Valid()
      modifies this`turns, activeRequest
      ensures Valid() && View() == HookState.AbortPrevious(old(View()))
    {
      if activeRequest == null {
        return;
      }
      if activeRequest.terminal.None? {
        activeRequest.terminal := Some(CancelledReached);
        activeRequest.aborted := true;
        turns := PatchTurns(turns, activeRequest.turnId,
                            Patch(status := Some(Cancelled), phase := Some(CancelledPhase), error := Some(Some(NEWER_REQUEST))));
      } else {
        activeRequest.aborted := true;
      }
      OneRequestChanged(activeRequest);
    }

    /** The loop body for one event; the loop goes on while the request stays listening. */
    method Deliver(request: ActiveRequest, frame: Frame)
      requires Valid() && Mine(request) && request.stage == Listening
      modifies this, request
      ensures Valid() && started == old(started) && View() == HookState.Deliver(old(View()), request.serial, frame)
    {
      if !Current(request) || request.terminal.Some? {
        Leave(request);
        return;
      }
      See(request, frame);
      React(request, frame);
    }

    method See(request: ActiveRequest, frame: Frame)
      requires Valid() && Mine(request)
      modifies this`turns, this`face, request`collected
      ensures Valid() && View() == HookState.See(old(View()), request.serial, frame)
    {
      request.collected := request.collected + [frame];
      OneRequestChanged(request);
      face := face.(events := request.collected);
      UpdateTurn(request, Patch(events := Some(request.collected)));
    }

    method React(request: ActiveRequest, frame: Frame)
      requires Valid() && Mine(request)
      modifies this`turns, this`face, request
      ensures Valid() && View() == HookState.React(old(View()), request.serial, frame)
    {
      match frame {
        case StatusFrame(nextPhase, rawPhase, message) =>
          face := face.(status := Streaming, phase := nextPhase,
                        statusMessage := if message.Some? then message else rawPhase);
          UpdateTurn(request, Patch(status := Some(Streaming), phase := Some(nextPhase),
                                    statusMessage := Some(if message.Some? then message else rawPhase)));
        case EvidenceFrame(items) =>
          face := face.(status := Streaming, phase := Searching, evidencePreview := items);
          UpdateTurn(request, Patch(status := Some(Streaming), phase := Some(Searching), evidencePreview := Some(items)));
        case DeltaFrame(text) =>
          Extend(request, text);
        case ToolFrame(_, _) =>
          // listed above, and shown nowhere else
        case ErrorFrame(code, nestedCode) =>
          FinishWithError(request, ErrorReached, ErrorText(code, nestedCode));
          Leave(request);
        case FinalFrame(response) =>
          Complete(request, response);
          Leave(request);
      }
    }

    method Extend(request: ActiveRequest, text: string)
      requires Valid() && Mine(request)
      modifies this`turns, this`face, request`accumulatedDeltaText
      ensures Valid() && View() == HookState.React(old(View()), request.serial, DeltaFrame(text))
    {
      request.accumulatedDeltaText := request.accumulatedDeltaText + text;
      OneRequestChanged(request);
      face := face.(status := Streaming, phase := Answering, deltaText := request.accumulatedDeltaText);
      UpdateTurn(request, Patch(status := Some(Streaming), phase := Some(Answering),
                                deltaText := Some(request.accumulatedDeltaText)));
    }

    method Complete(request: ActiveRequest, response: Response)
      requires Valid() && Mine(request)
      modifies this`turns, this`face, request`terminal
      ensures Valid() && View() == HookState.Complete(old(View()), request.serial, response)
    {
      request.terminal := Some(FinalReached);
      OneRequestChanged(request);
      face := face.(finalResponse := Some(response), evidencePreview := response.evidence, phase := CompletePhase,
                    status := Completed);
      UpdateTurn(request, Patch(status := Some(Completed), phase := Some(CompletePhase), finalResponse := Some(Some(response)),
                                evidencePreview := Some(response.evidence), events := Some(request.collected)));
    }

    /** `break`: the loop now awaits the iterator's close. */
    method Leave(request: ActiveRequest)
      requires Valid() && Mine(request)
      modifies request`stage
      ensures Valid() && View() == HookState.SetStage(old(View()), request.serial, Closing)
    {
      request.stage := Closing;
      OneRequestChanged(request);
    }

    /** What runs once the loop is left or has thrown, with `finally` last. */
    method End(request: ActiveRequest, failure: Option<string>)
      requires Valid() && Mine(request) && request.stage != Done
      modifies this, request
      ensures Valid() && started == old(started) && View() == HookState.End(old(View()), request.serial, failure)
    {
      Conclude(request, failure);
      Finally(request);
    }

    /** The rest of the try block, or the catch block. */
    method Conclude(request: ActiveRequest, failure: Option<string>)
      requires Valid() && Mine(request)
      modifies this`turns, this`face, request`terminal
      ensures Valid() && View() == HookState.Conclude(old(View()), request.serial, failure)
    {
      if failure.None? {
        if request.terminal.None? && Current(request) {
          FinishWithError(request, ErrorReached, STREAM_ENDED);
        }
        return;
      }
      if !Current(request) || request.terminal.Some? {
        return;
      }
      // The catch block tests for an abort here, but a current request is never aborted.
      if request.aborted {
        assert false;
      } else {
        FinishWithError(request, ErrorReached, failure.value);
      }
    }

    method Finally(request: ActiveRequest)
      requires Valid() && Mine(request)
      modifies this`activeRequest, request`stage
      ensures Valid() && View() == HookState.Finally(old(View()), request.serial)
    {
      if activeRequest != null && activeRequest.sequence == request.sequence {
        activeRequest := null;
      }
      request.stage := Done;
      OneRequestChanged(request);
    }

    /** The timer of a request whose `finally` has not run. */
    method Timeout(request: ActiveRequest)
      requires Valid() && Mine(request) && request.stage != Done
      modifies this, request
      ensures Valid() && started == old(started) && View() == HookState.Timeout(old(View()), request.serial)
    {
      if request.terminal.None? && Current(request) {
        FinishWithError(request, TimedOut, REQUEST_TIMED_OUT);
        request.aborted := true;
        OneRequestChanged(request);
      }
    }

    method Cancel()
      requires Valid()
      modifies this, activeRequest
      ensures Valid() && started == old(started) && View() == HookState.Cancel(old(View()))
    {
      var active := activeRequest;
      if active == null || active.terminal.Some? {
        return;
      }
      active.terminal := Some(CancelledReached);
      active.aborted := true;
      OneRequestChanged(active);
      requestSequence := requestSequence + 1;
      activeRequest := null;
      face := face.(error := Some(REQUEST_CANCELLED), finalResponse := None, phase := CancelledPhase, status := Cancelled);
      turns := PatchTurns(turns, active.turnId,
                          Patch(status := Some(Cancelled), phase := Some(CancelledPhase), error := Some(Some(REQUEST_CANCELLED)),
                                finalResponse := Some(None)));
    }

    method Reset()
      requires Valid()
      modifies this, activeRequest
      ensures Valid() && started == old(started) && View() == HookState.Reset(old(View()))
    {
      if activeRequest != null {
        activeRequest.aborted := true;
        OneRequestChanged(activeRequest);
      }
      requestSequence := requestSequence + 1;
      activeRequest := null;
      turns := [];
      face := face.(status := Idle, phase := IdlePhase, statusMessage := None, evidencePreview := Arr([]), deltaText := "",
                    finalResponse := None, error := None, events := []);
    }
  }
}
