/** From the host agent's events to the turn the user sees: what the relay emits, read by the
    browser and delivered to the hook. */
module QueryToHook {
  import opened Wrappers
  import opened JsonValues
  import opened QueryContract
  import opened BackendSse
  import opened BrowserSchema
  import opened EndToEnd
  import HookRequests
  import HookRuns
  import HookState

  /** The display phase of a status event's phase text. */
  type PhaseOf = Option<string> -> HookState.Phase

  function TextUnder(fields: seq<Field>, key: string): Option<string> {
    match Get(fields, key)
    case Some(Str(text)) => Some(text)
    case _ => None
  }

  function ResponseOf(data: Json): HookState.Response
    requires data.Obj?
  {
    HookState.Response(if Get(data.fields, "evidence").Some? then Get(data.fields, "evidence").value else Arr([]), data)
  }

  /** The event that the hook is given for data the schema accepts. */
  function FrameOf(kind: string, data: Json, phaseOf: PhaseOf): HookState.Frame
    requires Shown(kind, data)
  {
    if kind == "status" then
      var phase, message := TextUnder(data.fields, "phase"), TextUnder(data.fields, "message");
      HookState.StatusFrame(phaseOf(phase), phase, message)
    else if kind == "evidence" then HookState.EvidenceFrame(data)
    else if kind == "delta" then
      HookState.DeltaFrame(if data.Str? then data.text else Get(data.fields, "text").value.text)
    else if kind == "tool_call" || kind == "tool_result" then HookState.ToolFrame(kind == "tool_result", data)
    else HookState.FinalFrame(ResponseOf(data))
  }

  function StreamSchema(phaseOf: PhaseOf): (string, Json) -> Option<HookState.Frame> {
    (kind, data) => if Shown(kind, data) then Some(FrameOf(kind, data, phaseOf)) else None
  }

  lemma SchemaKnows(phaseOf: PhaseOf)
    ensures Knows(StreamSchema(phaseOf))
  {
    hide Shown, FrameOf;
  }

  /** Among the events of the stream only a `final` ends it. */
  lemma FrameEnds(kind: string, data: Json, phaseOf: PhaseOf)
    requires Shown(kind, data)
    ensures HookRuns.Ends(FrameOf(kind, data, phaseOf)) <==> kind == "final"
    ensures kind == "final" ==> data.Obj? && FrameOf(kind, data, phaseOf) == HookState.FinalFrame(ResponseOf(data))
  {
    KindsApart();
    hide ShownStatus, ShownEvidenceList, ShownDelta, ResponseOf;
  }

  /** What the hook is given of an accepted event, key by key. */
  lemma FrameOfSays(kind: string, data: Json, phaseOf: PhaseOf)
    requires Shown(kind, data)
    ensures kind == "status" ==>
              && data.Obj? && FrameOf(kind, data, phaseOf).StatusFrame?
              && var frame := FrameOf(kind, data, phaseOf);
                 && frame.phase == phaseOf(frame.rawPhase)
                 && (Get(data.fields, "phase") == if frame.rawPhase.Some? then Some(Str(frame.rawPhase.value)) else None)
                 && (Get(data.fields, "message") == if frame.message.Some? then Some(Str(frame.message.value)) else None)
    ensures kind == "evidence" ==> FrameOf(kind, data, phaseOf) == HookState.EvidenceFrame(data)
    ensures kind == "delta" ==>
              && FrameOf(kind, data, phaseOf).DeltaFrame?
              && var text := Str(FrameOf(kind, data, phaseOf).text);
                 data == text || (data.Obj? && Get(data.fields, "text") == Some(text))
    ensures kind == "tool_call" ==> FrameOf(kind, data, phaseOf) == HookState.ToolFrame(false, data)
    ensures kind == "tool_result" ==> FrameOf(kind, data, phaseOf) == HookState.ToolFrame(true, data)
    ensures kind == "final" ==>
              && data.Obj? && FrameOf(kind, data, phaseOf).FinalFrame?
              && var response := FrameOf(kind, data, phaseOf).response;
                 && response.body == data
                 && response.evidence == if Get(data.fields, "evidence") == None then Arr([]) else Get(data.fields, "evidence").value
  {
    KindLengths();
    KindsApart();
    FrameEnds(kind, data, phaseOf);
    hide Get, ShownEvidenceList, ShownResponse;
  }

  lemma KindLengths()
    ensures "evidence" != "status" && "delta" != "status" && "delta" != "evidence"
    ensures "tool_call" != "status" && "tool_call" != "evidence" && "tool_call" != "delta" && "tool_call" != "tool_result"
    ensures "tool_result" != "status" && "tool_result" != "evidence" && "tool_result" != "delta"
  {
    assert |"evidence"| == 8 && |"status"| == 6 && |"delta"| == 5 && |"tool_call"| == 9 && |"tool_result"| == 11;
  }

  // ----- The events read, and how they end -----

  lemma ReadEvent(frame: WireEvent, seen: Json -> Json, phaseOf: PhaseOf, event: HookState.Frame)
    requires Judged(frame, seen, StreamSchema(phaseOf)) == Some(event)
    ensures HookRuns.Ends(event) <==> frame.kind == "final"
    ensures frame.kind == "final" ==> seen(frame.data).Obj? && event == HookState.FinalFrame(ResponseOf(seen(frame.data)))
  {
    assert Shown(frame.kind, seen(frame.data));
    FrameEnds(frame.kind, seen(frame.data), phaseOf);
    hide Shown, FrameOf, ResponseOf;
  }

  /** One `final`, and it is the last. */
  ghost predicate FinalIsLast(frames: seq<WireEvent>) {
    frames != [] && forall i | 0 <= i < |frames| :: frames[i].kind == "final" <==> i == |frames| - 1
  }

  /** If all of it was read, the last event read is the relayed `final`; if the reader threw, no
      event read ended the stream. */
  lemma ReadEnds(frames: seq<WireEvent>, seen: Json -> Json, phaseOf: PhaseOf, events: seq<HookState.Frame>, threw: bool)
    requires ReadsUpToRefusal(frames, seen, StreamSchema(phaseOf), events, threw) && FinalIsLast(frames)
    ensures HookRequests.EndsOnce(events)
    ensures threw ==> events == [] || !HookRuns.Ends(HookRuns.Last(events))
    ensures !threw ==>
              && events != [] && seen(frames[|frames| - 1].data).Obj?
              && HookRuns.Last(events) == HookState.FinalFrame(ResponseOf(seen(frames[|frames| - 1].data)))
  {
    hide StreamSchema, Judged, ResponseOf;
    forall k | 0 <= k < |events|
      ensures HookRuns.Ends(events[k]) <==> k == |frames| - 1
      ensures k == |frames| - 1 ==>
                seen(frames[k].data).Obj? && events[k] == HookState.FinalFrame(ResponseOf(seen(frames[k].data)))
    {
      ReadEvent(frames[k], seen, phaseOf, events[k]);
    }
  }

  // ----- The face in the end -----

  lemma {:induction false} LastEventShows(face: HookState.Face, events: seq<HookState.Frame>)
    requires events != []
    ensures HookRequests.FaceAfter(face, events) ==
              HookRuns.DeliveredFace(HookRequests.FaceAfter(face, events[..|events| - 1]), HookRuns.Last(events))
    decreases |events|
  {
    hide HookRuns.DeliveredFace;
    var init := events[..|events| - 1];
    if |events| > 1 {
      LastEventShows(HookRuns.DeliveredFace(face, events[0]), events[1..]);
      assert events[1..][..|events| - 2] == init[1..];
    } else {
      assert events[1..] == [];
    }
  }

  lemma {:induction false} EventsAppend(face: HookState.Face, events: seq<HookState.Frame>)
    ensures HookRequests.FaceAfter(face, events).events == face.events + events
    decreases |events|
  {
    if events != [] {
      var next := HookRuns.DeliveredFace(face, events[0]);
      EventsAppend(next, events[1..]);
      assert next.events == face.events + [events[0]];
      assert (face.events + [events[0]]) + events[1..] == face.events + events;
    }
  }

  /** The face of a turn whose stream was read to its end, or was cut off by an exception. */
  lemma FaceInTheEnd(face: HookState.Face, events: seq<HookState.Frame>, failure: Option<string>)
    ensures var end := HookRequests.FinalFace(face, events, failure);
            && end.events == face.events + events
            && (events != [] && HookRuns.Last(events).FinalFrame? ==>
                 end.status == HookState.Status.Completed && end.finalResponse == Some(HookRuns.Last(events).response))
            && ((events == [] || !HookRuns.Ends(HookRuns.Last(events))) && failure.Some? ==>
                 end.status == HookState.Errored && end.error == failure && end.finalResponse.None?)
  {
    EventsAppend(face, events);
    if events != [] {
      LastEventShows(face, events);
    }
    hide HookRequests.FaceAfter;
  }

  lemma TopShowsLast(s: HookState.State)
    requires HookRuns.Inv(s) && s.turns != []
    ensures s.face == HookRuns.Last(s.turns).face
  {
  }

  // ----- Main result -----

  /** `start` opens a turn whose request awaits its stream. */
  lemma StartAwaits(s: HookState.State, query: string)
    requires HookRuns.Inv(s) && query != ""
    ensures var after := HookState.Start(s, query);
            && HookRequests.Awaiting(after, |s.requests|)
            && |after.turns| == |s.turns| + 1 && HookRuns.Last(after.turns).face == HookState.CONNECTING_FACE
  {
    HookRuns.StepKeepsInv(s, HookState.DoStart(query));
  }

  /** A run of the hook in which request `i` waits first and is then given these events and the
      end of its stream, with any callbacks of other requests in between, while nothing
      supersedes, withdraws or times it out. */
  ghost predicate Plays(s: HookState.State, i: nat, actions: seq<HookState.Action>, after: HookState.State,
                        events: seq<HookState.Frame>, threw: bool, failure: Option<string>) {
    && HookRequests.Awaiting(s, i) && HookRuns.Runs(s, actions, after) && HookRequests.Undisturbed(actions, i)
    && HookRequests.Own(actions, i) == HookRequests.Course(i, events, failure) && (threw ==> failure.Some?)
  }

  /** The last turn, and the top level with it, lists exactly the events read. It is complete,
      with `final` as its response, if `complete`; otherwise it failed with the exception. */
  ghost predicate Answered(s: HookState.State, after: HookState.State, events: seq<HookState.Frame>, complete: bool,
                           final: Json, failure: Option<string>) {
    && |after.turns| == |s.turns| > 0
    && var face := HookRuns.Last(after.turns).face;
       && face.events == HookRuns.Last(s.turns).face.events + events && after.face == face
       && if complete then
            face.status == HookState.Status.Completed && final.Obj? && face.finalResponse == Some(ResponseOf(final))
          else face.status == HookState.Errored && face.error == failure && face.finalResponse.None?
  }

  /** One answer, as the user sees it: the browser reads a stream up to what its schema refuses,
      and the hook is given what was read. The turn is complete, with the stream's final as its
      response, if and only if the schema accepts all of the stream. */
  lemma TurnShowsTheStream(frames: seq<WireEvent>, seen: Json -> Json, phaseOf: PhaseOf, events: seq<HookState.Frame>,
                           threw: bool, s: HookState.State, i: nat, actions: seq<HookState.Action>,
                           after: HookState.State, failure: Option<string>)
    requires Faithful(seen) && FinalIsLast(frames)
    requires ReadsUpToRefusal(frames, seen, StreamSchema(phaseOf), events, threw)
    requires Plays(s, i, actions, after, events, threw, failure)
    ensures Answered(s, after, events, forall k | 0 <= k < |frames| :: Shown(frames[k].kind, frames[k].data),
                     seen(frames[|frames| - 1].data), failure)
  {
    SchemaKnows(phaseOf);
    ThrowsIffRefused(frames, seen, StreamSchema(phaseOf), events, threw);
    ReadEnds(frames, seen, phaseOf, events, threw);
    HookRequests.TurnFollowsItsStream(s, i, actions, after, events, failure);
    TopShowsLast(after);
    hide HookRuns.Inv, HookRequests.FinalFace, ResponseOf, Shown;
    FaceInTheEnd(HookRuns.Last(s.turns).face, events, failure);
  }

  /** For what the relay emits: the turn is complete exactly when the upstream is readable. */
  lemma TurnIsCompleteIff(request: Relay.Request, upstream: seq<WireEvent>, ending: Ending, exception: string,
                          host: Relay.Host, seen: Json -> Json, phaseOf: PhaseOf, events: seq<HookState.Frame>,
                          threw: bool, s: HookState.State, i: nat, actions: seq<HookState.Action>,
                          after: HookState.State, failure: Option<string>)
    requires Faithful(seen)
    requires ReadsUpToRefusal(Relay.Relayed(request, upstream, ending, exception, host), seen, StreamSchema(phaseOf), events,
                              threw)
    requires Plays(s, i, actions, after, events, threw, failure)
    ensures Answered(s, after, events, UpstreamReadable(upstream),
                     seen(Relay.Conclusion(request, upstream, ending, exception, host)), failure)
  {
    var frames := Relay.Relayed(request, upstream, ending, exception, host);
    FinalIsRelayedLast(request, upstream, ending, exception, host);
    RelayedShownIff(request, upstream, ending, exception, host);
    assert frames != [];
    hide Relay.Relayed, Relay.Conclusion, UpstreamReadable, ReadsUpToRefusal, Shown, FinalIsLast, Faithful, Plays, Answered;
    TurnShowsTheStream(frames, seen, phaseOf, events, threw, s, i, actions, after, failure);
  }

  lemma FinalIsRelayedLast(request: Relay.Request, upstream: seq<WireEvent>, ending: Ending, exception: string,
                           host: Relay.Host)
    ensures var frames := Relay.Relayed(request, upstream, ending, exception, host);
            FinalIsLast(frames) && frames[|frames| - 1].data == Relay.Conclusion(request, upstream, ending, exception, host)
  {
    Relay.ExactlyOneFinal(request, upstream, ending, exception, host);
    hide Relay.Conclusion, ValidQueryResponse;
  }

  /** Without a configured host agent the turn is always complete, with the fallback. */
  lemma UnconfiguredIsComplete(request: Relay.Request, seen: Json -> Json, phaseOf: PhaseOf,
                               events: seq<HookState.Frame>, threw: bool, s: HookState.State, i: nat,
                               actions: seq<HookState.Action>, after: HookState.State, failure: Option<string>)
    requires Faithful(seen)
    requires ReadsUpToRefusal([WireEvent("final", Relay.Fallback(request, Relay.UNCONFIGURED))], seen, StreamSchema(phaseOf),
                              events, threw)
    requires Plays(s, i, actions, after, events, threw, failure)
    ensures Answered(s, after, events, true, seen(Relay.Fallback(request, Relay.UNCONFIGURED)), failure)
  {
    var frames := [WireEvent("final", Relay.Fallback(request, Relay.UNCONFIGURED))];
    Delivery.FallbackIsShown(request, Relay.UNCONFIGURED);
    hide Relay.Fallback, ReadsUpToRefusal, Shown, Faithful, Plays, Answered;
    TurnShowsTheStream(frames, seen, phaseOf, events, threw, s, i, actions, after, failure);
  }
}
