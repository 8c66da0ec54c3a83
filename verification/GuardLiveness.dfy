/** Every guarded call finishes: a bound on the steps of any run, and progress in every state. */
module GuardLiveness {
  import opened Wrappers
  import opened EventLoop
  import opened GuardState
  import opened GuardMachine
  import opened GuardThreads
  import opened GuardRecords
  import opened GuardCounts
  import opened GuardOwners
  import opened GuardHistory
  import opened GuardRuns
  import opened GuardOffers
  import opened GuardGuarantees

  const LIFT := 12

  /** How many steps a thread may still take before its record's generation ends; a waiter on
      a dead generation has to come round once more. */
  function Rank(th: Thread, dead: bool): nat {
    match th.stage
    case Waiting(_) => if dead then 12 else 5
    case Woken(_) => if dead then 11 else 4
    case Leaving(_, reply) => if reply.Retry? then 10 else 3
    case Entering => 10
    case Reserving => 9
    case Preparing(_) => 5
    case Dispatched(_) => 4
    case Aborting(_, _) => 3
    case Completing(_, _) => 3
    case _ => 0
  }

  ghost predicate OnDead(c: Config, th: Thread) {
    !c.shared.closed && th.stage.Waits() && th.stage.on < |c.shared.heap| && Dead(c.shared.heap[th.stage.on])
  }

  /** Every unfinished call pays for the generation it may end: one lift for each thread. */
  ghost function Potential(c: Config, i: nat): nat
    requires i < |c.threads|
  {
    if c.threads[i].stage.Done() then 0
    else (LIFT + 1) * |c.threads| + Rank(c.threads[i], OnDead(c, c.threads[i]))
  }

  ghost function Potentials(c: Config): seq<nat> {
    seq(|c.threads|, i requires 0 <= i < |c.threads| => Potential(c, i))
  }

  function Sum(xs: seq<nat>): nat {
    if xs == [] then 0 else Sum(xs[..|xs| - 1]) + xs[|xs| - 1]
  }

  ghost function Measure(c: Config): nat {
    Sum(Potentials(c))
  }

  lemma {:induction false} SumBounds(xs: seq<nat>, ys: seq<nat>, lift: nat)
    requires |xs| == |ys| && forall i | 0 <= i < |xs| :: ys[i] <= xs[i] + lift
    ensures Sum(ys) <= Sum(xs) + lift * |xs|
  {
    if xs != [] {
      SumBounds(xs[..|xs| - 1], ys[..|ys| - 1], lift);
    }
  }

  lemma {:induction false} SumUpdate(xs: seq<nat>, t: nat, x: nat)
    requires t < |xs|
    ensures Sum(xs[t := x]) == Sum(xs) - xs[t] + x
    ensures xs[t] <= Sum(xs)
  {
    var n := |xs| - 1;
    if t == n {
      assert xs[t := x][..n] == xs[..n];
    } else {
      assert xs[t := x][..n] == xs[..n][t := x];
      SumUpdate(xs[..n], t, x);
    }
  }

  lemma SumDrops(xs: seq<nat>, ys: seq<nat>, t: nat)
    requires t < |xs| == |ys| && ys[t] < xs[t]
    requires forall i | 0 <= i < |xs| :: ys[i] <= xs[i]
    ensures Sum(ys) < Sum(xs)
  {
    SumBounds(xs[t := ys[t]], ys, 0);
    SumUpdate(xs, t, ys[t]);
  }

  lemma SumPays(xs: seq<nat>, ys: seq<nat>, t: nat, lift: nat)
    requires t < |xs| == |ys| && ys[t] == 0 && xs[t] >= (lift + 1) * |xs|
    requires forall i | 0 <= i < |xs| && i != t :: ys[i] <= xs[i] + lift
    ensures Sum(ys) < Sum(xs)
  {
    SumBounds(xs[t := 0], ys, lift);
    SumUpdate(xs, t, 0);
    assert (lift + 1) * |xs| == lift * |xs| + |xs|;
  }

  ghost predicate StepReady(c: Config, a: Action) {
    Inv(c) && Scoped(c) && Enabled(c, a)
  }

  /** The generation of record `r` ended without an answer, in an open guard. */
  predicate Ended(s: Shared, r: nat)
    requires r < |s.heap|
  {
    !s.closed && Dead(s.heap[r])
  }

  /** Only a failed preparation ends a generation without an answer. */
  lemma RecordsStayAlive(c: Config, a: Action, r: nat)
    requires StepReady(c, a) && r < |c.shared.heap| && !a.Abort?
    ensures r < |Next(c, a).shared.heap|
    ensures Ended(Next(c, a).shared, r) ==> Ended(c.shared, r)
  {
    match a
    case TryReserve(t) => ReserveAlive(c, t, r);
    case Commit(t) => CommitAnswersOrSleeps(c, t, r);
    case CancelCall(id, p) => CancelAlive(c, id, p, r);
    case Leave(t) => LeaveAlive(c, t, r);
    case ReleaseCall(id) => ReleaseAlive(c, id);
    case CloseCall => CloseAlive(c, r);
    case Call(_, _, _) =>
    case Peek(_) =>
    case _ => WalkAlive(c, a);
  }

  lemma ReserveAlive(c: Config, t: nat, r: nat)
    requires StepReady(c, TryReserve(t)) && r < |c.shared.heap|
    ensures var s' := NextReserve(c, t).shared; r < |s'.heap| && (Ended(s', r) ==> Ended(c.shared, r))
  {
    ReserveShape(c.limits, c.shared, c.threads[t].id, c.threads[t].digest, r);
    ReserveConfig(c, t);
    hide NextReserve, Reserve, Inv;
  }

  lemma CancelAlive(c: Config, id: string, p: Option<string>, r: nat)
    requires StepReady(c, CancelCall(id, p)) && r < |c.shared.heap|
    ensures var s' := NextCancel(c, id, p).shared; r < |s'.heap| && (Ended(s', r) ==> Ended(c.shared, r))
  {
    CancelShape(c.limits, c.shared, id, p, r);
    CancelConfig(c, id, p);
    hide NextCancel, Cancel, Inv, Fits;
  }

  lemma ReleaseAlive(c: Config, id: string)
    requires Scoped(c)
    ensures NextRelease(c, id).shared == c.shared.(records := NextRelease(c, id).shared.records)
  {
    ReleaseConfig(c, id);
  }

  lemma CloseAlive(c: Config, r: nat)
    requires r < |c.shared.heap|
    ensures var s' := Closed(c).shared; r < |s'.heap| && (Ended(s', r) ==> Ended(c.shared, r))
  {
  }

  lemma LeaveAlive(c: Config, t: nat, r: nat)
    requires Scoped(c) && Enabled(c, Leave(t)) && r < |c.shared.heap|
    ensures var s' := NextLeave(c, t).shared; r < |s'.heap| && (Ended(s', r) ==> Ended(c.shared, r))
  {
  }

  lemma WalkAlive(c: Config, a: Action)
    requires Scoped(c) && Enabled(c, a) && Walks(a)
    ensures Next(c, a).shared == c.shared
  {
  }

  lemma CommitAnswersOrSleeps(c: Config, t: nat, r: nat)
    requires StepReady(c, Commit(t)) && r < |c.shared.heap|
    ensures var s' := NextCommit(c, t).shared; r < |s'.heap| && (Ended(s', r) ==> Ended(c.shared, r))
  {
    var th := c.threads[t];
    assert ThreadOk(c, th) && RecordOk(c, r);
    OwnRecord(c, th);
    CompleteShape(c.limits, c.shared, th.id, th.stage.on, th.stage.verdict);
    CommitConfig(c, t);
    hide NextCommit, Complete, Inv, ThreadOk, Fits, OversizeFits;
  }

  /** A resting thread's rank does not rise unless a generation ends. */
  lemma RestingRank(c: Config, a: Action, i: nat)
    requires StepReady(c, a) && i < |c.threads| && !(a.OfThread() && a.t == i)
    requires |Next(c, a).threads| == |c.threads| && Next(c, a).threads[i] == c.threads[i]
    ensures Potential(Next(c, a), i) <= Potential(c, i) + if a.Abort? then LIFT else 0
  {
    var th := c.threads[i];
    SleepsOnRecord(c, th, i);
    if th.stage.Waits() && !a.Abort? {
      RecordsStayAlive(c, a, th.stage.on);
    }
    hide Next, Inv, Enabled, Scoped;
  }

  lemma SleepsOnRecord(c: Config, th: Thread, i: nat)
    requires Inv(c) && i < |c.threads| && th == c.threads[i]
    ensures th.stage.Waits() ==> th.stage.on < |c.shared.heap|
  {
    assert ThreadOk(c, th);
  }

  lemma ThreadsStand(c: Config, a: Action)
    requires StepReady(c, a) && !a.Call?
    ensures |Next(c, a).threads| == |c.threads|
    ensures forall i | 0 <= i < |c.threads| && !(a.OfThread() && a.t == i) :: Next(c, a).threads[i] == c.threads[i]
  {
    NobodyIsAdded(c, a);
    forall i | 0 <= i < |c.threads| && !(a.OfThread() && a.t == i)
      ensures Next(c, a).threads[i] == c.threads[i]
    {
      OthersStay(c, a, i);
    }
    hide Inv, Next;
  }

  /** The thread that moves gets closer to its end. */
  lemma MovingRank(c: Config, a: Action)
    requires StepReady(c, a) && a.OfThread() && |Next(c, a).threads| == |c.threads|
    ensures Potential(Next(c, a), a.t) < Potential(c, a.t)
    ensures a.Abort? ==> Potential(Next(c, a), a.t) == 0 && Potential(c, a.t) >= (LIFT + 1) * |c.threads|
  {
    EverythingReady(c, a);
    hide Inv, Scoped, OwnersReady, HistoryReady, GuardThreads.Ready, Next, Potential;
    match a
    case TryReserve(t) => ReserveRank(c, t);
    case Leave(t) => LeaveRank(c, t);
    case Abort(t) => AbortRank(c, t);
    case Commit(t) => CommitRank(c, t);
    case _ => WalkRank(c, a);
  }

  lemma AbortRank(c: Config, t: nat)
    requires StepReady(c, Abort(t)) && GuardThreads.Ready(c, Abort(t))
    ensures |Next(c, Abort(t)).threads| == |c.threads|
    ensures Potential(Next(c, Abort(t)), t) == 0 && Potential(c, t) >= (LIFT + 1) * |c.threads| > 0
  {
    hide Inv;
    AbortConfig(c, t);
    hide NextAbort, OnDead;
  }

  lemma CommitRank(c: Config, t: nat)
    requires StepReady(c, Commit(t)) && GuardThreads.Ready(c, Commit(t))
    ensures |Next(c, Commit(t)).threads| == |c.threads|
    ensures Potential(Next(c, Commit(t)), t) < Potential(c, t)
  {
    hide Inv;
    CommitConfig(c, t);
    hide NextCommit, OnDead;
  }

  lemma ReserveRank(c: Config, t: nat)
    requires StepReady(c, TryReserve(t)) && OwnersReady(c, TryReserve(t))
    ensures |NextReserve(c, t).threads| == |c.threads|
    ensures Potential(NextReserve(c, t), t) < Potential(c, t)
  {
    var c' := NextReserve(c, t);
    ReserveConfig(c, t);
    ReserveStage(c, t);
    var stage' := c'.threads[t].stage;
    if stage'.Waiting? {
      ReserveLimits(c.limits, c.shared, c.threads[t].id, c.threads[t].digest);
      ReserveWaiters(c.limits, c.shared, c.threads[t].id, c.threads[t].digest);
      RegisteredInFlight(c.limits, c.shared, c.threads[t].id, c.threads[t].digest);
    } else {
      ReserveOutcome(c, t);
    }
  }

  lemma RegisteredInFlight(l: Limits, s: Shared, id: string, digest: Digest)
    requires s.Scoped()
    ensures var (s', reply) := Reserve(l, s, id, digest);
            reply.Registered? ==> reply.waitsOn < |s'.heap| && s'.heap[reply.waitsOn].inFlight
  {
  }

  lemma ReserveOutcome(c: Config, t: nat)
    requires Scoped(c) && Enabled(c, TryReserve(t))
    ensures var stage' := NextReserve(c, t).threads[t].stage;
            stage'.Waiting? || stage'.Preparing? || stage'.Done()
  {
  }

  lemma LeaveRank(c: Config, t: nat)
    requires StepReady(c, Leave(t))
    ensures |NextLeave(c, t).threads| == |c.threads|
    ensures Potential(NextLeave(c, t), t) < Potential(c, t)
  {
  }

  lemma WalkRank(c: Config, a: Action)
    requires StepReady(c, a) && Walks(a)
    ensures |Next(c, a).threads| == |c.threads|
    ensures Potential(Next(c, a), a.t) < Potential(c, a.t)
  {
    WalkShape(c, a);
    WalksOn(c, a);
    OnwardRank(c, a);
    hide Inv, Scoped, Enabled, Next, Onward, Rank;
  }

  lemma WalksOn(c: Config, a: Action)
    requires StepReady(c, a) && Walks(a)
    ensures ThreadOk(c, c.threads[a.t])
    ensures a.Read? ==> c.threads[a.t].stage.on < |c.shared.heap| && RecordOk(c, c.threads[a.t].stage.on)
  {
    hide CountsOk, HistoryOk, OwnersOk;
    assert ThreadOk(c, c.threads[a.t]);
    if a.Read? {
      assert RecordOk(c, c.threads[a.t].stage.on);
    }
  }

  lemma OnwardRank(c: Config, a: Action)
    requires Scoped(c) && Enabled(c, a) && Walks(a) && ThreadOk(c, c.threads[a.t])
    requires a.Read? ==> RecordOk(c, c.threads[a.t].stage.on)
    ensures var th := c.threads[a.t];
            var th' := th.(stage := Onward(c, a));
            !th.stage.Done() && Rank(th', OnDead(c, th')) < Rank(th, OnDead(c, th))
  {
  }

  /** Steps of calls cost measure; calls of the other methods cost nothing. */
  lemma StepLowersMeasure(c: Config, a: Action)
    requires StepReady(c, a) && !a.Call?
    ensures Measure(Next(c, a)) <= Measure(c) - if a.OfThread() then 1 else 0
  {
    ThreadsStand(c, a);
    if a.OfThread() {
      MovingRank(c, a);
    }
    forall i | 0 <= i < |c.threads| && !(a.OfThread() && a.t == i)
      ensures Potential(Next(c, a), i) <= Potential(c, i) + if a.Abort? then LIFT else 0
    {
      RestingRank(c, a, i);
    }
    var t := if a.OfThread() then Some(a.t) else None;
    assert a.OfThread() ==> a.t < |c.threads|;
    assert a.Abort? ==> a.OfThread();
    hide StepReady, Inv, Scoped, Enabled, Next, Rank, OnDead, Potential;
    StepCosts(Potentials(c), Potentials(Next(c, a)), t, a.Abort?);
  }

  lemma StepCosts(xs: seq<nat>, ys: seq<nat>, t: Option<nat>, aborts: bool)
    requires |xs| == |ys| && (t.Some? ==> t.value < |xs| && ys[t.value] < xs[t.value]) && (aborts ==> t.Some?)
    requires aborts ==> ys[t.value] == 0 && xs[t.value] >= (LIFT + 1) * |xs|
    requires forall i | 0 <= i < |xs| && t != Some(i) :: ys[i] <= xs[i] + if aborts then LIFT else 0
    ensures Sum(ys) <= Sum(xs) - if t.Some? then 1 else 0
  {
    if t.None? {
      SumBounds(xs, ys, 0);
    } else if aborts {
      SumPays(xs, ys, t.value, LIFT);
    } else {
      SumDrops(xs, ys, t.value);
    }
  }

  function ThreadSteps(actions: seq<Action>): nat {
    if actions == [] then 0 else (if actions[0].OfThread() then 1 else 0) + ThreadSteps(actions[1..])
  }

  /** Any run that admits no further calls, whatever cancels, releases and closes it contains,
      takes at most `Measure` steps of the calls already made. */
  lemma {:induction false} RunsAreBounded(l: Limits, c: Config, actions: seq<Action>, c': Config)
    requires Reachable(l, c) && Steps(c, actions, c') && forall a <- actions :: !a.Call?
    ensures ThreadSteps(actions) + Measure(c') <= Measure(c)
    decreases |actions|
  {
    if actions != [] {
      ReachableInv(l, c);
      StepLowersMeasure(c, actions[0]);
      ReachableNext(l, c, actions[0]);
      RunsAreBounded(l, Next(c, actions[0]), actions[1..], c');
    }
  }

  /** The bound is quadratic in the number of calls. */
  lemma MeasureIsQuadratic(c: Config)
    ensures Measure(c) <= |c.threads| * (13 * |c.threads| + 12)
  {
    var n := |c.threads|;
    var zeros := seq(n, _ => 0);
    SumOfZeros(n);
    SumBounds(zeros, Potentials(c), 13 * n + 12);
    assert (13 * n + 12) * n == n * (13 * n + 12);
  }

  lemma {:induction false} SumOfZeros(n: nat)
    ensures Sum(seq(n, _ => 0)) == 0
  {
    if n > 0 {
      assert seq(n, _ => 0)[..n - 1] == seq(n - 1, _ => 0);
      SumOfZeros(n - 1);
    }
  }

  // ----- Progress -----

  /** The action an unfinished thread that is not asleep can take by itself. */
  ghost function OwnMove(th: Thread, t: nat): Action {
    match th.stage
    case Entering => Enter(t)
    case Reserving => TryReserve(t)
    case Waiting(_) => WakeUp(t)
    case Woken(_) => Read(t)
    case Leaving(_, _) => Leave(t)
    case Preparing(_) => CallBinding(t)
    case Aborting(_, _) => Abort(t)
    case Dispatched(_) => Finish(t, Stream([], Finished))
    case _ => Commit(t)
  }

  /** No state is stuck: an unfinished call can move, or another one can, unless it sleeps on a
      record that nobody owns. */
  lemma SomebodyMoves(l: Limits, actions: seq<Action>, c: Config, i: nat)
    requires Steps(Init(l), actions, c) && i < |c.threads| && !c.threads[i].stage.Done()
    ensures (exists a: Action :: a.OfThread() && Enabled(c, a)) || (Asleep(c, i) && !Owned(c, c.threads[i].stage.on))
  {
    RunIsTraced(l, actions, c);
    ReachableInv(l, c);
    SleepsOnRecord(c, c.threads[i], i);
    hide Inv, Steps, Reachable, Traced, Sound, Scoped;
    if Asleep(c, i) && Owned(c, c.threads[i].stage.on) {
      var j: int :| OwnerOf(c, j, c.threads[i].stage.on);
      OwnerMoves(c, j);
    } else if !Asleep(c, i) {
      AwakeMoves(c, i);
    }
  }

  lemma AwakeMoves(c: Config, i: nat)
    requires i < |c.threads| && !c.threads[i].stage.Done() && !Asleep(c, i)
    requires c.threads[i].stage.Waits() ==> c.threads[i].stage.on < |c.shared.heap|
    ensures exists a: Action :: a.OfThread() && Enabled(c, a)
  {
    assert Enabled(c, OwnMove(c.threads[i], i)) && OwnMove(c.threads[i], i).OfThread();
  }

  lemma OwnerMoves(c: Config, j: nat)
    requires j < |c.threads| && c.threads[j].stage.Owner()
    ensures exists a: Action :: a.OfThread() && Enabled(c, a)
  {
    assert Enabled(c, OwnMove(c.threads[j], j)) && OwnMove(c.threads[j], j).OfThread();
  }

  /** A run that can go no further leaves a call unfinished only asleep, and only if the run lost
      an owner of the call's id or offered the id a terminal that cannot be sized; otherwise it
      has finished every call. By the bound above every run gets there. */
  lemma QuiescentMeansFinished(l: Limits, actions: seq<Action>, c: Config, i: nat)
    requires Steps(Init(l), actions, c) && i < |c.threads|
    requires forall a: Action | a.OfThread() :: !Enabled(c, a)
    ensures !c.threads[i].stage.Done() ==>
              && Asleep(c, i) && !Owned(c, c.threads[i].stage.on)
              && (LosesOwner(actions, c.threads[i].id) || OffersUnsizable(l, actions, c.threads[i].id))
  {
    if !c.threads[i].stage.Done() {
      SomebodyMoves(l, actions, c, i);
      SleepingWaiters(l, actions, c, i);
    }
  }
}
