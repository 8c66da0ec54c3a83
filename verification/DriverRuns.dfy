/** The session guard over this binding: what strands a waiter when every stream comes from the
    HTTP/SSE driver. */
module DriverRuns {
  import opened Wrappers
  import opened EventLoop
  import opened GuardState
  import opened GuardMachine
  import opened GuardRuns
  import opened GuardOffers
  import opened GuardGuarantees
  import opened GuardLiveness
  import opened HttpSseDriver

  /** What the driver makes of some frames of some invocation. */
  ghost predicate FromDriver(stream: Stream) {
    exists inv, sizes, frames :: stream == Driven(inv, sizes, frames)
  }

  /** Every binding call of the run is answered by the driver. */
  ghost predicate DriverRun(actions: seq<Action>) {
    forall k | 0 <= k < |actions| && actions[k].Finish? :: FromDriver(actions[k].stream)
  }

  ghost predicate InterruptsAt(actions: seq<Action>, k: int, id: string) {
    0 <= k < |actions| && actions[k].Interrupt? && IsCaller(actions, actions[k].t, id)
  }

  /** Some call for `id` is interrupted before its binding is called. */
  ghost predicate InterruptsOwner(actions: seq<Action>, id: string) {
    exists k :: InterruptsAt(actions, k, id)
  }

  /** The driver's streams finish or raise an `Exception`: there is always a verdict. */
  lemma DriverIsReportable(id: string, stream: Stream)
    requires FromDriver(stream)
    ensures !Unreportable(id, stream)
  {
  }

  /** So no owner is lost after dispatch: only an interrupt before it loses one. */
  lemma OnlyInterruptsLoseOwners(actions: seq<Action>, id: string)
    requires DriverRun(actions)
    ensures LosesOwner(actions, id) <==> InterruptsOwner(actions, id)
  {
    if k :| InterruptsAt(actions, k, id) {
      assert LosesAt(actions, k, id);
    }
    if k :| LosesAt(actions, k, id) {
      if actions[k].Finish? {
        DriverIsReportable(id, actions[k].stream);
      }
      assert InterruptsAt(actions, k, id);
    }
  }

  /** A sleeper over this binding: in flight its record is owned unless a call of its id was
      interrupted before dispatch; out of flight the run offered a terminal without a size. */
  lemma DriverSleepers(l: Limits, actions: seq<Action>, c: Config, i: int)
    requires Steps(Init(l), actions, c) && DriverRun(actions) && Asleep(c, i)
    ensures var r, id := c.threads[i].stage.on, c.threads[i].id;
            r < |c.shared.heap| &&
            if c.shared.heap[r].inFlight then Owned(c, r) <==> !InterruptsOwner(actions, id)
            else !Owned(c, r) && OffersUnsizable(l, actions, id)
  {
    SleepingWaiters(l, actions, c, i);
    OnlyInterruptsLoseOwners(actions, c.threads[i].id);
  }

  /** A run over this binding that can go no further leaves a call unfinished only for these two
      reasons. */
  lemma DriverQuiescence(l: Limits, actions: seq<Action>, c: Config, i: nat)
    requires Steps(Init(l), actions, c) && DriverRun(actions) && i < |c.threads|
    requires forall a: Action | a.OfThread() :: !Enabled(c, a)
    requires !c.threads[i].stage.Done()
    ensures Asleep(c, i) && (InterruptsOwner(actions, c.threads[i].id) || OffersUnsizable(l, actions, c.threads[i].id))
  {
    QuiescentMeansFinished(l, actions, c, i);
    OnlyInterruptsLoseOwners(actions, c.threads[i].id);
  }

  /** The second of two callers is stranded if and only if the terminal that the first one's
      frames lead to cannot be sized. */
  lemma DriverStrandsIff(l: Limits, inv: Invocation, sizes: Sizes, frames: seq<WireFrame>, digest: Digest)
    returns (c: Config)
    requires inv.requestId != "" && l.maxRetained > 0 && OversizeFits(l, inv.requestId)
    ensures Reachable(l, c) && |c.threads| == 2 && c.threads[0].stage.Done() && Dispatch(inv.requestId) in c.history
    ensures Evaluate(inv.requestId, None, Driven(inv, sizes, frames)).Some?
    ensures (Asleep(c, 1) && forall a: Action | a.OfThread() :: !Enabled(c, a)) <==>
              l.size(Evaluate(inv.requestId, None, Driven(inv, sizes, frames)).value.candidate).None?
  {
    var id, stream := inv.requestId, Driven(inv, sizes, frames);
    DriverIsReportable(id, stream);
    NoVerdictIff(id, None, stream);
    hide Driven, Unreportable, Evaluate;
    c := SecondCallerStrandedIff(l, id, digest, stream);
  }
}
