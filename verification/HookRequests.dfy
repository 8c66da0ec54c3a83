/** What one request does to its turn, whatever else happens to the hook meanwhile: the events
    of its stream and then its end, with callbacks of older requests in between. */
module HookRequests {
  import opened Wrappers
  import opened HookState
  import opened HookRuns
  import opened HookGuarantees

  /** The request is the active one and its loop waits for the next event. */
  ghost predicate Awaiting(s: State, i: nat) {
    Inv(s) && s.active == Some(i) && s.requests[i].terminal.None? && s.requests[i].stage == Listening
  }

  /** Nothing that supersedes, withdraws or times out request `i`. */
  predicate Harmless(a: Action, i: nat) {
    match a
    case DoStart(query) => query == ""
    case DoTimeout(j) => j != i
    case DoCancel => false
    case DoReset => false
    case _ => true
  }

  predicate Undisturbed(actions: seq<Action>, i: nat) {
    forall k | 0 <= k < |actions| :: Harmless(actions[k], i)
  }

  predicate OfRequest(a: Action, i: nat) {
    (a.DoDeliver? || a.DoEnd?) && a.request == i
  }

  /** What the run holds for request `i`, in order. */
  function Own(actions: seq<Action>, i: nat): seq<Action> {
    if actions == [] then []
    else (if OfRequest(actions[0], i) then [actions[0]] else []) + Own(actions[1..], i)
  }

  function Deliveries(i: nat, events: seq<Frame>): (actions: seq<Action>)
    ensures |actions| == |events|
  {
    seq(|events|, k requires 0 <= k < |events| => DoDeliver(i, events[k]))
  }

  /** The stream's events and then its end. */
  function Course(i: nat, events: seq<Frame>, failure: Option<string>): seq<Action> {
    Deliveries(i, events) + [DoEnd(i, failure)]
  }

  function FaceAfter(face: Face, events: seq<Frame>): Face
    decreases |events|
  {
    if events == [] then face else FaceAfter(DeliveredFace(face, events[0]), events[1..])
  }

  /** What the turn shows in the end: a stream that did not end itself is a failure. */
  function FinalFace(face: Face, events: seq<Frame>, failure: Option<string>): Face {
    if events != [] && Ends(Last(events)) then FaceAfter(face, events)
    else FailedFace(FaceAfter(face, events), if failure.Some? then failure.value else STREAM_ENDED)
  }

  /** Only the last event may end the stream. */
  predicate EndsOnce(events: seq<Frame>) {
    forall k | 0 <= k < |events| - 1 :: !Ends(events[k])
  }

  // ----- Others -----

  /** While no other request is active, callbacks of others change nothing of this one's. */
  lemma OthersAreQuiet(s: State, a: Action, i: nat)
    requires Inv(s) && i < |s.requests| && (s.active.None? || s.active == Some(i))
    requires Enabled(s, a) && Harmless(a, i) && !OfRequest(a, i)
    ensures var after := Step(s, a);
            && Inv(after) && after.turns == s.turns && after.face == s.face && after.active == s.active
            && |after.requests| == |s.requests| && after.requests[i] == s.requests[i]
  {
    StepKeepsInv(s, a);
    if !a.DoStart? {
      OnlyTheActiveIsCurrent(s, a.request);
    }
  }

  lemma UndisturbedRest(actions: seq<Action>, i: nat)
    requires actions != [] && Undisturbed(actions, i)
    ensures Harmless(actions[0], i) && Undisturbed(actions[1..], i)
  {
    assert forall k | 0 <= k < |actions[1..]| :: actions[1..][k] == actions[k + 1];
  }

  /** Once the request is stale, the rest of an undisturbed run shows nothing more. */
  lemma {:induction false} QuietRest(s: State, actions: seq<Action>, after: State, i: nat)
    requires Inv(s) && i < |s.requests| && Stale(s, i) && (s.active.None? || s.active == Some(i))
    requires Runs(s, actions, after) && Undisturbed(actions, i)
    ensures Inv(after) && after.turns == s.turns && after.face == s.face
    decreases |actions|
  {
    if actions != [] {
      var a := actions[0];
      assert Harmless(a, i);
      StepKeepsInv(s, a);
      if OfRequest(a, i) {
        StaleIsSilent(s, a, i);
        StaleStays(s, a, i);
      } else {
        OthersAreQuiet(s, a, i);
        OnlyTheLatestIsFresh(s, i);
        OnlyTheLatestIsFresh(Step(s, a), i);
      }
      UndisturbedRest(actions, i);
      QuietRest(Step(s, a), actions[1..], after, i);
    }
  }

  // ----- Its own steps -----

  lemma OneMoreEvent(s: State, i: nat, event: Frame)
    requires Awaiting(s, i)
    ensures Enabled(s, DoDeliver(i, event))
    ensures var after := Step(s, DoDeliver(i, event));
            && Inv(after) && |after.turns| == |s.turns| > 0 && after.active == Some(i) && i < |after.requests|
            && Last(after.turns).face == DeliveredFace(Last(s.turns).face, event)
            && (if Ends(event) then Stale(after, i) else Awaiting(after, i))
  {
    DeliverIsMoved(s, event);
    DeliverKeeps(s, i, event);
    ActiveFace(s);
    OnlyTheLatestIsFresh(Deliver(s, i, event), i);
  }

  lemma EndsUnfinished(s: State, i: nat, failure: Option<string>)
    requires Awaiting(s, i)
    ensures Enabled(s, DoEnd(i, failure))
    ensures var after := Step(s, DoEnd(i, failure));
            && Inv(after) && |after.turns| == |s.turns| > 0 && after.active.None? && i < |after.requests| && Stale(after, i)
            && Last(after.turns).face
               == FailedFace(Last(s.turns).face, if failure.Some? then failure.value else STREAM_ENDED)
  {
    EndKeeps(s, i, failure);
    ActiveFace(s);
    FinishIsMoved(s, ErrorReached, if failure.Some? then failure.value else STREAM_ENDED);
  }

  lemma OthersWait(s: State, a: Action, i: nat)
    requires Awaiting(s, i) && Enabled(s, a) && Harmless(a, i) && !OfRequest(a, i)
    ensures Awaiting(Step(s, a), i) && Step(s, a).turns == s.turns
  {
    OthersAreQuiet(s, a, i);
  }

  lemma NoEvents(face: Face, failure: Option<string>)
    ensures FinalFace(face, [], failure) == FailedFace(face, if failure.Some? then failure.value else STREAM_ENDED)
  {
  }

  lemma SameHead<T>(x: T, xs: seq<T>, y: T, ys: seq<T>)
    requires [x] + xs == [y] + ys
    ensures x == y && xs == ys
  {
    assert ([x] + xs)[0] == x && ([x] + xs)[1..] == xs && ([y] + ys)[0] == y && ([y] + ys)[1..] == ys;
  }

  lemma CourseRest(i: nat, events: seq<Frame>, failure: Option<string>)
    ensures events == [] ==> Course(i, events, failure) == [DoEnd(i, failure)]
    ensures events != [] ==>
              Course(i, events, failure) == [DoDeliver(i, events[0])] + Course(i, events[1..], failure)
  {
    if events != [] {
      assert Deliveries(i, events) == [DoDeliver(i, events[0])] + Deliveries(i, events[1..]);
    }
  }

  lemma FinalFaceRest(face: Face, events: seq<Frame>, failure: Option<string>)
    requires events != [] && EndsOnce(events)
    ensures EndsOnce(events[1..])
    ensures Ends(events[0]) ==> events == [events[0]] && FinalFace(face, events, failure) == DeliveredFace(face, events[0])
    ensures !Ends(events[0]) ==>
              FinalFace(face, events, failure) == FinalFace(DeliveredFace(face, events[0]), events[1..], failure)
  {
    hide DeliveredFace, FailedFace;
    var rest := events[1..];
    forall k | 0 <= k < |rest| - 1
      ensures !Ends(rest[k])
    {
      assert rest[k] == events[k + 1];
    }
    if rest == [] {
      assert FaceAfter(face, events) == FaceAfter(DeliveredFace(face, events[0]), []);
    } else {
      assert Last(rest) == Last(events);
    }
  }

  /** The turn of a request that nothing supersedes shows exactly what its stream's events and
      its end make of it, whatever callbacks of other requests come in between. */
  lemma {:induction false} TurnFollowsItsStream(s: State, i: nat, actions: seq<Action>, after: State, events: seq<Frame>,
                                                failure: Option<string>)
    requires Awaiting(s, i) && Runs(s, actions, after) && Undisturbed(actions, i)
    requires Own(actions, i) == Course(i, events, failure) && EndsOnce(events)
    ensures Inv(after) && |after.turns| == |s.turns| > 0
    ensures Last(after.turns).face == FinalFace(Last(s.turns).face, events, failure)
    decreases |actions|
  {
    hide Inv, FinalFace, DeliveredFace, FailedFace, Step;
    CourseRest(i, events, failure);
    var a := actions[0];
    var next := Step(s, a);
    UndisturbedRest(actions, i);
    if !OfRequest(a, i) {
      assert [] + Own(actions[1..], i) == Own(actions[1..], i);
      OthersWait(s, a, i);
      TurnFollowsItsStream(next, i, actions[1..], after, events, failure);
    } else if events == [] {
      SameHead(a, Own(actions[1..], i), DoEnd(i, failure), []);
      EndsUnfinished(s, i, failure);
      QuietRest(next, actions[1..], after, i);
      NoEvents(Last(s.turns).face, failure);
    } else {
      SameHead(a, Own(actions[1..], i), DoDeliver(i, events[0]), Course(i, events[1..], failure));
      OneMoreEvent(s, i, events[0]);
      FinalFaceRest(Last(s.turns).face, events, failure);
      if Ends(events[0]) {
        QuietRest(next, actions[1..], after, i);
      } else {
        TurnFollowsItsStream(next, i, actions[1..], after, events[1..], failure);
      }
    }
  }
}
