/** The hook's promises, for every run from its first render. */
module HookGuarantees {
  import opened Wrappers
  import opened JsonValues
  import opened HookState
  import opened HookRuns

  /** At most one turn is connecting or streaming: the last one, and only while an active
      request without a terminal stands behind it. */
  lemma AtMostOneLiveTurn(actions: seq<Action>, s: State, k: nat)
    requires Runs(INITIAL, actions, s) && k < |s.turns|
    ensures Shaped(s)
    ensures Live(s.turns[k].face) <==>
              k == |s.turns| - 1 && s.active.Some? && s.requests[s.active.value].terminal.None?
    ensures Live(s.turns[k].face) ==> s.turns[k].id == s.requests[s.active.value].turnId
  {
    ReachableInv(actions, s);
  }

  /** A turn that is complete, failed or cancelled looks the same after any further run
      without a reset, and no turn disappears, changes its query or loses an event. */
  lemma FinishedTurnsAreFinal(earlier: seq<Action>, s: State, later: seq<Action>, after: State)
    requires Runs(INITIAL, earlier, s) && Runs(s, later, after) && DoReset !in later
    ensures FinishedStay(s, after)
  {
    ReachableInv(earlier, s);
    RunsKeepInv(s, later, after);
  }

  /** The top-level state is the last turn's; every turn shows exactly what its events said. */
  lemma MirrorAndStory(actions: seq<Action>, s: State)
    requires Runs(INITIAL, actions, s)
    ensures s.turns == [] ==> s.face == IDLE_FACE
    ensures s.turns != [] ==> s.face == Last(s.turns).face
    ensures forall k | 0 <= k < |s.turns| :: Tells(s.turns[k].face)
  {
    ReachableInv(actions, s);
  }

  // ----- Fencing -----

  /** The request was superseded, withdrawn, or has its terminal. */
  predicate Stale(s: State, i: nat)
    requires Shaped(s) && i < |s.requests|
  {
    !IsCurrent(s, i) || s.requests[i].terminal.Some?
  }

  predicate ActsFor(a: Action, i: nat) {
    a == DoTimeout(i) || (a.DoDeliver? && a.request == i) || (a.DoEnd? && a.request == i)
  }

  lemma StaleIsSilent(s: State, a: Action, i: nat)
    requires Inv(s) && i < |s.requests| && Stale(s, i) && Enabled(s, a) && ActsFor(a, i)
    ensures Step(s, a).turns == s.turns && Step(s, a).face == s.face
    ensures Step(s, a).active.Some? ==> Step(s, a).active == s.active
  {
    OnlyTheActiveIsCurrent(s, i);
  }

  lemma OnlyTheLatestIsFresh(s: State, i: nat)
    requires Inv(s) && i < |s.requests|
    ensures !Stale(s, i) <==> s.active == Some(i) && s.requests[i].terminal.None?
  {
    OnlyTheActiveIsCurrent(s, i);
  }

  /** The slot is only ever emptied or given to a new request, and a terminal, once set, stays. */
  ghost predicate SlotMovesForward(before: State, after: State, i: nat)
    requires i < |before.requests|
  {
    && |before.requests| <= |after.requests|
    && (after.active.None? || after.active == before.active || after.active == Some(|before.requests|))
    && (before.requests[i].terminal.Some? ==> after.requests[i].terminal.Some?)
  }

  lemma SlotAfterStart(s: State, query: string, i: nat)
    requires Shaped(s) && i < |s.requests|
    ensures SlotMovesForward(s, Start(s, query), i)
  {
  }

  lemma SlotAfterDeliver(s: State, j: nat, frame: Frame, i: nat)
    requires Shaped(s) && i < |s.requests| && j < |s.requests|
    ensures SlotMovesForward(s, Deliver(s, j, frame), i)
  {
    if IsCurrent(s, j) && s.requests[j].terminal.None? {
      var seen := See(s, j, frame);
      assert SlotMovesForward(s, seen, i);
      assert SlotMovesForward(seen, React(seen, j, frame), i);
    }
  }

  lemma SlotAfterOthers(s: State, a: Action, i: nat)
    requires Shaped(s) && i < |s.requests| && Enabled(s, a) && !a.DoStart? && !a.DoDeliver?
    ensures SlotMovesForward(s, Step(s, a), i)
  {
  }

  lemma StaleStays(s: State, a: Action, i: nat)
    requires Inv(s) && i < |s.requests| && Stale(s, i) && Enabled(s, a)
    ensures i < |Step(s, a).requests| && Shaped(Step(s, a)) && Stale(Step(s, a), i)
  {
    match a {
      case DoStart(query) => SlotAfterStart(s, query, i);
      case DoDeliver(j, frame) => SlotAfterDeliver(s, j, frame, i);
      case _ => SlotAfterOthers(s, a, i);
    }
    StepKeepsInv(s, a);
    StaleAfter(s, Step(s, a), i);
  }

  lemma StaleAfter(before: State, after: State, i: nat)
    requires Inv(before) && Inv(after) && i < |before.requests| && Stale(before, i) && SlotMovesForward(before, after, i)
    ensures Stale(after, i)
  {
    OnlyTheLatestIsFresh(before, i);
    OnlyTheLatestIsFresh(after, i);
  }

  lemma {:induction false} StaleForever(s: State, actions: seq<Action>, after: State, i: nat)
    requires Inv(s) && i < |s.requests| && Stale(s, i) && Runs(s, actions, after)
    ensures Inv(after) && i < |after.requests| && Stale(after, i)
    decreases |actions|
  {
    if actions != [] {
      StaleStays(s, actions[0], i);
      StepKeepsInv(s, actions[0]);
      StaleForever(Step(s, actions[0]), actions[1..], after, i);
    }
  }

  /** Whatever happens in between, an event, end or timeout that arrives for a stale request
      leaves every turn and the whole top-level state as they are. */
  lemma LateCallbacksAreIgnored(earlier: seq<Action>, s: State, later: seq<Action>, after: State, a: Action, i: nat)
    requires Runs(INITIAL, earlier, s) && Runs(s, later, after)
    requires Shaped(s) && i < |s.requests| && Stale(s, i)
    requires Enabled(after, a) && ActsFor(a, i)
    ensures Shaped(after) && Step(after, a).turns == after.turns && Step(after, a).face == after.face
  {
    ReachableInv(earlier, s);
    StaleForever(s, later, after, i);
    StaleIsSilent(after, a, i);
  }

  /** A new start, a cancel or a reset makes every request made so far stale. */
  lemma FencesRaise(s: State, a: Action, i: nat)
    requires Inv(s) && i < |s.requests| && (a.DoCancel? || a.DoReset? || (a.DoStart? && a.query != ""))
    ensures Shaped(Step(s, a)) && i < |Step(s, a).requests| && Stale(Step(s, a), i)
  {
    StepKeepsInv(s, a);
    OnlyTheLatestIsFresh(Step(s, a), i);
  }

  // ----- Progress of the request that is not stale -----

  /** An event of the fresh request is never lost: it is the next event of the last turn. */
  lemma FreshEventIsAppended(s: State, i: nat, frame: Frame)
    requires Inv(s) && i < |s.requests| && !Stale(s, i) && Enabled(s, DoDeliver(i, frame))
    ensures var after := Deliver(s, i, frame);
            && |after.turns| == |s.turns| > 0
            && Last(after.turns).face.events == Last(s.turns).face.events + [frame]
            && (Live(Last(after.turns).face) <==> !Ends(frame))
  {
    OnlyTheLatestIsFresh(s, i);
    DeliverIsMoved(s, frame);
    OneLive(s);
  }

  lemma OneLive(s: State)
    requires Inv(s) && s.active.Some? && s.requests[s.active.value].terminal.None?
    ensures s.turns != [] && Live(Last(s.turns).face)
  {
    assert s.turns[|s.turns| - 1] == Last(s.turns);
  }

  /** No turn can spin forever: behind a live turn the timer is still armed, and when it
      fires the turn fails with the timeout message and keeps what it had shown. */
  lemma LiveTurnsCanTimeOut(s: State)
    requires Inv(s) && s.turns != [] && Live(Last(s.turns).face)
    ensures s.active.Some? && Enabled(s, DoTimeout(s.active.value))
    ensures var after := Timeout(s, s.active.value);
            && |after.turns| == |s.turns|
            && Last(after.turns).face ==
                 Last(s.turns).face.(status := Errored, phase := ErrorPhase, error := Some(REQUEST_TIMED_OUT))
            && after.face == Last(after.turns).face
  {
    assert s.turns[|s.turns| - 1] == Last(s.turns);
    FinishIsMoved(s, TimedOut, REQUEST_TIMED_OUT);
  }

  /** The catch block's `cancelled` branch is dead: an aborted request is no longer current,
      so its abort error changes nothing, and any other exception is shown as an error. */
  lemma CatchNeverCancels(s: State, i: nat, text: string)
    requires Inv(s) && i < |s.requests| && s.requests[i].stage != Done
    ensures var after := End(s, i, Some(text));
            if Stale(s, i) then
              after.turns == s.turns && after.face == s.face && after.requests[i].terminal == s.requests[i].terminal
            else
              !s.requests[i].aborted && after.requests[i].terminal == Some(ErrorReached) && after.face.error == Some(text)
              && after.face.status == Errored
  {
    OnlyTheLatestIsFresh(s, i);
    if !Stale(s, i) {
      FinishIsMoved(s, ErrorReached, text);
    }
  }

  // ----- What start, cancel and reset show -----

  /** The turn was withdrawn with this message, and otherwise looks as before. */
  ghost predicate WithdrawnAs(before: Turn, after: Turn, text: string) {
    && after.id == before.id && after.query == before.query
    && after.face == before.face.(status := Cancelled, phase := CancelledPhase, error := Some(text))
  }

  /** A start opens a turn with its own query and nothing in it, and withdraws the turn that was
      still live; every other turn stays. A start without a query does nothing. */
  lemma StartShows(s: State, query: string)
    requires Inv(s)
    ensures query == "" ==> Start(s, query) == s
    ensures query != "" ==>
              var after := Start(s, query);
              && |after.turns| == |s.turns| + 1
              && var newest := Last(after.turns);
                 && newest.query == query && newest.face.events == [] && newest.face.deltaText == ""
                 && newest.face.status == Connecting && newest.face.phase == ConnectingPhase
                 && newest.face.statusMessage.None? && newest.face.finalResponse.None? && newest.face.error.None?
                 && newest.face.evidencePreview == Arr([]) && after.face == newest.face
                 && (forall k | 0 <= k < |s.turns| :: s.turns[k].id != newest.id)
                 && forall k | 0 <= k < |s.turns| ::
                      if Live(s.turns[k].face) then
                        WithdrawnAs(s.turns[k], after.turns[k], "Host Agent request cancelled by a newer request.")
                      else after.turns[k] == s.turns[k]
  {
    if query != "" {
      StepKeepsInv(s, DoStart(query));
      hide AllTell;
    }
  }

  /** A cancel withdraws the live turn, and changes no other; without one it does nothing. */
  lemma CancelShows(s: State)
    requires Inv(s)
    ensures var after := Cancel(s);
            if s.turns != [] && Live(Last(s.turns).face) then
              && |after.turns| == |s.turns| && after.turns[..|s.turns| - 1] == s.turns[..|s.turns| - 1]
              && WithdrawnAs(Last(s.turns), Last(after.turns), "Host Agent request cancelled.")
              && after.face == Last(after.turns).face
            else after == s
  {
    if s.turns != [] {
      assert Last(s.turns) == s.turns[|s.turns| - 1];
      assert Tells(Last(s.turns).face);
    }
  }

  /** A reset leaves nothing to see. */
  lemma ResetShows(s: State)
    requires Shaped(s)
    ensures var after := Reset(s);
            && after.turns == [] && after.active.None?
            && after.face.status == Idle && after.face.phase == IdlePhase && after.face.events == []
            && after.face.deltaText == "" && after.face.evidencePreview == Arr([]) && after.face.statusMessage.None?
            && after.face.finalResponse.None? && after.face.error.None?
  {
  }

  // ----- Texts -----

  /** An error event's code is shown if it is 1 to 80 harmless characters; the event's own code
      goes before a nested one. */
  lemma ErrorTextSays(code: Option<string>, nested: Option<string>)
    ensures var chosen := if code.Some? then code else nested;
            ErrorText(code, nested) ==
              if chosen.Some? && 0 < |chosen.value| < 81
                 && forall k | 0 <= k < |chosen.value| ::
                      var c := chosen.value[k];
                      'a' <= c <= 'z' || 'A' <= c <= 'Z' || '0' <= c <= '9' || c == '_' || c == '.' || c == ':' || c == '-'
              then "Host Agent stream error: " + chosen.value
              else "Host Agent stream error."
  {
    var text := if code.Some? then code.value else if nested.Some? then nested.value else "";
    assert (forall c <- text :: CodeChar(c)) <==> forall k | 0 <= k < |text| :: CodeChar(text[k]);
  }

  /** A status event is shown by its message, or by its phase when it has none. */
  lemma StatusIsShown(s: State, i: nat, phase: Phase, rawPhase: Option<string>, message: Option<string>)
    requires Inv(s) && i < |s.requests| && !Stale(s, i)
    ensures var after := Deliver(s, i, StatusFrame(phase, rawPhase, message));
            && |after.turns| == |s.turns| > 0
            && var face := Last(after.turns).face;
               && face.status == Streaming && face.phase == phase
               && (message.Some? ==> face.statusMessage == message)
               && (message.None? ==> face.statusMessage == rawPhase)
  {
    OnlyTheLatestIsFresh(s, i);
    DeliverIsMoved(s, StatusFrame(phase, rawPhase, message));
    ActiveFace(s);
  }

  /** A stream that ends without a terminal event fails its turn, and says so. */
  lemma EndIsShown(s: State, i: nat)
    requires Inv(s) && i < |s.requests| && !Stale(s, i) && s.requests[i].stage != Done
    ensures var after := End(s, i, None);
            && |after.turns| == |s.turns| > 0
            && Last(after.turns).face
               == Last(s.turns).face.(status := Errored, phase := ErrorPhase,
                                      error := Some("Host Agent stream ended before a final response."))
  {
    OnlyTheLatestIsFresh(s, i);
    ActiveFace(s);
    FinishIsMoved(s, ErrorReached, STREAM_ENDED);
  }
}
