/** Waiter counts stay exact, and every record in flight has exactly one owner or lost it to
    an exception. */
module GuardCounts {
  import opened Wrappers
  import opened GuardState
  import opened GuardMachine
  import opened GuardThreads

  function Weight(th: Thread, r: nat): nat {
    if th.stage.Waits() && th.stage.on == r then 1 else 0
  }

  lemma {:induction false} CountAfterMove(threads: seq<Thread>, t: nat, th: Thread, r: nat)
    requires t < |threads|
    ensures WaitersOn(threads[t := th], r) == WaitersOn(threads, r) - Weight(threads[t], r) + Weight(th, r)
    ensures WaitersOn(threads, r) >= Weight(threads[t], r)
  {
    var n := |threads| - 1;
    if t == n {
      assert threads[t := th][..n] == threads[..n];
    } else {
      assert threads[t := th][..n] == threads[..n][t := th];
      CountAfterMove(threads[..n], t, th, r);
    }
  }

  lemma {:induction false} NobodyWaits(threads: seq<Thread>, r: nat)
    requires forall i | 0 <= i < |threads| :: Weight(threads[i], r) == 0
    ensures WaitersOn(threads, r) == 0
  {
    if threads != [] {
      NobodyWaits(threads[..|threads| - 1], r);
    }
  }

  /** The counts follow when the only waiter count that moves is the mover's own. */
  lemma CountsFollow(c: Config, c': Config, t: nat)
    requires CountsOk(c) && ThreadsOk(c) && t < |c.threads|
    requires |c'.threads| == |c.threads| && c'.threads == c.threads[t := c'.threads[t]]
    requires |c.shared.heap| <= |c'.shared.heap|
    requires forall r | 0 <= r < |c.shared.heap| ::
               c'.shared.heap[r].waiters == c.shared.heap[r].waiters - Weight(c.threads[t], r) + Weight(c'.threads[t], r)
    requires forall r | |c.shared.heap| <= r < |c'.shared.heap| ::
               c'.shared.heap[r].waiters == 0 == Weight(c'.threads[t], r)
    ensures CountsOk(c')
  {
    forall r: nat | r < |c'.shared.heap|
      ensures c'.shared.heap[r].waiters == WaitersOn(c'.threads, r)
    {
      CountAfterMove(c.threads, t, c'.threads[t], r);
      if r >= |c.shared.heap| {
        forall i | 0 <= i < |c.threads|
          ensures Weight(c.threads[i], r) == 0
        {
          assert ThreadOk(c, c.threads[i]);
        }
        NobodyWaits(c.threads, r);
      }
    }
  }

  /** No thread moved and no waiter count changed. */
  lemma CountsStand(c: Config, c': Config)
    requires CountsOk(c) && ThreadsOk(c) && c'.threads == c.threads && |c.shared.heap| <= |c'.shared.heap|
    requires forall r | 0 <= r < |c.shared.heap| :: c'.shared.heap[r].waiters == c.shared.heap[r].waiters
    requires forall r | |c.shared.heap| <= r < |c'.shared.heap| :: c'.shared.heap[r].waiters == 0
    ensures CountsOk(c')
  {
    forall r: nat | r < |c'.shared.heap|
      ensures c'.shared.heap[r].waiters == WaitersOn(c'.threads, r)
    {
      if r >= |c.shared.heap| {
        forall i | 0 <= i < |c.threads|
          ensures Weight(c.threads[i], r) == 0
        {
          assert ThreadOk(c, c.threads[i]);
        }
        NobodyWaits(c.threads, r);
      }
    }
  }

  /** Reserving moves a waiter count exactly when it registers a waiter. */
  lemma ReserveWaiters(l: Limits, s: Shared, id: string, digest: Digest)
    requires s.Scoped()
    ensures var (s', reply) := Reserve(l, s, id, digest);
            && |s.heap| <= |s'.heap|
            && (reply.Registered? ==> reply.waitsOn < |s.heap|)
            && (forall r | 0 <= r < |s.heap| :: s'.heap[r].waiters == s.heap[r].waiters + if reply == Registered(r) then 1 else 0)
            && (forall r | |s.heap| <= r < |s'.heap| :: s'.heap[r].waiters == 0)
  {
  }

  lemma ReserveStage(c: Config, t: nat)
    requires Scoped(c) && Enabled(c, TryReserve(t))
    ensures var c' := NextReserve(c, t);
            var reply := Reserve(c.limits, c.shared, c.threads[t].id, c.threads[t].digest).1;
            && c'.threads == c.threads[t := c'.threads[t]]
            && (reply.Registered? <==> c'.threads[t].stage.Waits())
            && (reply.Registered? ==> c'.threads[t].stage == Waiting(reply.waitsOn))
  {
  }

  lemma CountsAfterReserve(c: Config, t: nat)
    requires CountsOk(c) && ThreadsOk(c) && RecordsOk(c) && Scoped(c) && Enabled(c, TryReserve(t))
    ensures CountsOk(NextReserve(c, t))
  {
    ReserveConfig(c, t);
    ReserveStage(c, t);
    ReserveWaiters(c.limits, c.shared, c.threads[t].id, c.threads[t].digest);
    CountsFollow(c, NextReserve(c, t), t);
  }

  lemma CountsAfterLeave(c: Config, t: nat)
    requires CountsOk(c) && ThreadsOk(c) && Scoped(c) && Enabled(c, Leave(t))
    ensures CountsOk(NextLeave(c, t))
    ensures c.shared.heap[c.threads[t].stage.on].waiters > 0
  {
    CountAfterMove(c.threads, t, c.threads[t], c.threads[t].stage.on);
    CountsFollow(c, NextLeave(c, t), t);
  }

  lemma CountsAfterAbort(c: Config, t: nat)
    requires CountsOk(c) && ThreadsOk(c) && Scoped(c) && Enabled(c, Abort(t))
    ensures CountsOk(NextAbort(c, t))
  {
    AbortConfig(c, t);
    hide NextAbort;
    CountsFollow(c, NextAbort(c, t), t);
  }

  lemma CountsAfterCommit(c: Config, t: nat)
    requires CountsOk(c) && ThreadsOk(c) && Scoped(c) && Enabled(c, Commit(t))
    ensures CountsOk(NextCommit(c, t))
  {
    var th := c.threads[t];
    CompleteShape(c.limits, c.shared, th.id, th.stage.on, th.stage.verdict);
    CommitConfig(c, t);
    hide NextCommit, Complete, Fits, OversizeFits;
    CountsFollow(c, NextCommit(c, t), t);
  }

  lemma CountsAfterWalk(c: Config, a: Action)
    requires CountsOk(c) && ThreadsOk(c) && Scoped(c) && Enabled(c, a) && Walks(a)
    ensures CountsOk(Next(c, a))
  {
    WalkShape(c, a);
    CountsFollow(c, Next(c, a), a.t);
  }

  lemma CountsAfterCall(c: Config, a: Action)
    requires CountsOk(c) && Scoped(c) && Enabled(c, a) && a.Call?
    ensures CountsOk(Next(c, a))
  {
    var c' := Next(c, a);
    assert c'.threads[..|c.threads|] == c.threads;
  }

  lemma CountsAfterCancel(c: Config, id: string, p: Option<string>)
    requires CountsOk(c) && ThreadsOk(c) && Scoped(c)
    ensures CountsOk(NextCancel(c, id, p))
  {
    var c' := NextCancel(c, id, p);
    CancelConfig(c, id, p);
    CancelCreates(c.limits, c.shared, id, p);
    hide NextCancel, Cancel, Fits, OversizeFits;
    forall r | 0 <= r < |c.shared.heap|
      ensures c'.shared.heap[r].waiters == c.shared.heap[r].waiters
    {
      CancelShape(c.limits, c.shared, id, p, r);
    }
    CountsStand(c, c');
  }

  lemma CountsAfterRelease(c: Config, id: string)
    requires CountsOk(c) && ThreadsOk(c) && Scoped(c)
    ensures CountsOk(NextRelease(c, id))
  {
    ReleaseConfig(c, id);
    hide NextRelease;
    CountsStand(c, NextRelease(c, id));
  }

  lemma CountsAfterClose(c: Config)
    requires CountsOk(c) && ThreadsOk(c) && Scoped(c)
    ensures CountsOk(Closed(c))
  {
    CountsStand(c, Closed(c));
  }

  lemma CountsAfterPeek(c: Config, id: string)
    requires CountsOk(c) && ThreadsOk(c) && Scoped(c)
    ensures CountsOk(Next(c, Peek(id)))
  {
    CountsStand(c, Next(c, Peek(id)));
  }

  lemma CountsKept(c: Config, a: Action)
    requires CountsOk(c) && ThreadsOk(c) && RecordsOk(c) && Scoped(c) && Enabled(c, a)
    ensures CountsOk(Next(c, a))
  {
    hide CountsOk, ThreadsOk, RecordsOk;
    match a
    case TryReserve(t) => CountsAfterReserve(c, t);
    case Leave(t) => CountsAfterLeave(c, t);
    case Abort(t) => CountsAfterAbort(c, t);
    case Commit(t) => CountsAfterCommit(c, t);
    case Call(_, _, _) => CountsAfterCall(c, a);
    case CancelCall(id, p) => CountsAfterCancel(c, id, p);
    case ReleaseCall(id) => CountsAfterRelease(c, id);
    case CloseCall => CountsAfterClose(c);
    case Peek(id) => CountsAfterPeek(c, id);
    case _ => CountsAfterWalk(c, a);
  }
}
