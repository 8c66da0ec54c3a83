/** Every action keeps record ownership: one owner at most, and a live record in flight is
    owned unless its owner was lost. */
module GuardOwners {
  import opened Wrappers
  import opened EventLoop
  import opened GuardState
  import opened GuardMachine
  import opened GuardThreads
  import opened GuardRecords

  ghost predicate SameOwnership(c: Config, c': Config, i: int)
    requires 0 <= i < |c.threads| && i < |c'.threads|
  {
    && c'.threads[i].stage.Owner() == c.threads[i].stage.Owner()
    && (c.threads[i].stage.Owner() ==> c'.threads[i].stage.on == c.threads[i].stage.on)
  }

  ghost predicate InFlight(c: Config, id: string) {
    id in c.shared.records && c.shared.records[id] < |c.shared.heap| && c.shared.heap[c.shared.records[id]].inFlight
  }

  ghost predicate LiveIdle(c: Config, id: string) {
    id in c.shared.records && c.shared.records[id] < |c.shared.heap| && Idle(c.shared.heap[c.shared.records[id]])
  }

  /** A record other than `but` is live and in flight in `c'` only if it already was, live and
      idle only if it already was or its orphaning is on record. */
  ghost predicate NoNews(c: Config, c': Config, but: int) {
    && (forall id <- c'.shared.records | InFlight(c', id) && c'.shared.records[id] != but ::
          InFlight(c, id) && c.shared.records[id] == c'.shared.records[id])
    && (forall id <- c'.shared.records | LiveIdle(c', id) :: LiveIdle(c, id) || Orphaned(id) in c'.history)
    && (forall id: string | Orphaned(id) in c.history :: Orphaned(id) in c'.history)
  }

  ghost predicate SameLoss(c: Config, c': Config) {
    forall r: nat :: Abandoned(r) in c'.history <==> Abandoned(r) in c.history
  }

  /** A record whose owner was lost stays in flight under its id. */
  ghost predicate LossStays(c: Config, c': Config) {
    forall r: nat | Abandoned(r) in c.history :: OwnerSafe(c, c', r)
  }

  lemma IdleStaysAccounted(c: Config, c': Config, but: int, id: string)
    requires OwnersOk(c) && NoNews(c, c', but) && LiveIdle(c', id)
    ensures Orphaned(id) in c'.history
  {
    if LiveIdle(c, id) {
      assert Accounted(c, id, c.shared.records[id]);
    }
  }

  lemma FlightStaysAccounted(c: Config, c': Config, but: int, id: string)
    requires OwnersOk(c) && NoNews(c, c', but) && InFlight(c', id) && c'.shared.records[id] != but
    requires forall i, r: nat | OwnerOf(c, i, r) && r != but :: OwnerOf(c', i, r)
    requires forall r: nat | Abandoned(r) in c.history :: Abandoned(r) in c'.history
    ensures Owned(c', c'.shared.records[id]) || Abandoned(c'.shared.records[id]) in c'.history
  {
    var r := c'.shared.records[id];
    assert Accounted(c, id, r);
    if Owned(c, r) {
      var i :| OwnerOf(c, i, r);
      assert OwnerOf(c', i, r);
    }
  }

  lemma LostStaysLost(c: Config, c': Config, r: nat)
    requires OwnersOk(c) && LossStays(c, c') && Abandoned(r) in c.history
    ensures Lost(c', r)
  {
    assert Lost(c, r) && OwnerSafe(c, c', r);
  }

  lemma OwnersStand(c: Config, c': Config)
    requires OwnersOk(c) && |c.threads| <= |c'.threads|
    requires forall i | 0 <= i < |c.threads| :: SameOwnership(c, c', i)
    requires forall i | |c.threads| <= i < |c'.threads| :: !c'.threads[i].stage.Owner()
    requires NoNews(c, c', -1) && SameLoss(c, c') && LossStays(c, c')
    ensures OwnersOk(c')
  {
    forall i, r: nat
      ensures OwnerOf(c', i, r) <==> OwnerOf(c, i, r)
    {
      assert 0 <= i < |c.threads| ==> SameOwnership(c, c', i);
    }
    forall id <- c'.shared.records
      ensures Accounted(c', id, c'.shared.records[id])
    {
      if InFlight(c', id) { FlightStaysAccounted(c, c', -1, id); }
      if LiveIdle(c', id) { IdleStaysAccounted(c, c', -1, id); }
    }
    forall r: nat | Abandoned(r) in c'.history ensures Lost(c', r) { LostStaysLost(c, c', r); }
  }

  /** The owner of `r` is gone; `r` is out of flight, or its loss is on record. */
  lemma OwnerLeaves(c: Config, c': Config, t: nat, r: nat)
    requires OwnersOk(c) && OwnerOf(c, t, r) && |c.threads| == |c'.threads|
    requires !c'.threads[t].stage.Owner()
    requires forall i | 0 <= i < |c.threads| && i != t :: SameOwnership(c, c', i)
    requires NoNews(c, c', r) && LossStays(c, c')
    requires forall q: nat | q != r :: Abandoned(q) in c'.history <==> Abandoned(q) in c.history
    requires if Abandoned(r) in c'.history then Lost(c', r)
             else forall id <- c'.shared.records | InFlight(c', id) :: c'.shared.records[id] != r
    ensures OwnersOk(c')
  {
    forall i, q: nat
      ensures OwnerOf(c', i, q) <==> OwnerOf(c, i, q) && i != t
    {
      assert 0 <= i < |c.threads| && i != t ==> SameOwnership(c, c', i);
    }
    forall id <- c'.shared.records
      ensures Accounted(c', id, c'.shared.records[id])
    {
      if InFlight(c', id) && c'.shared.records[id] != r { FlightStaysAccounted(c, c', r, id); }
      if LiveIdle(c', id) { IdleStaysAccounted(c, c', r, id); }
    }
    forall q: nat | Abandoned(q) in c'.history && q != r ensures Lost(c', q) { LostStaysLost(c, c', q); }
  }

  /** A thread that owned nothing now owns `r`, which no thread owned: a new record, or one
      that was idle. */
  lemma OwnerArrives(c: Config, c': Config, t: nat, r: nat)
    requires OwnersOk(c) && t < |c.threads| == |c'.threads| && !c.threads[t].stage.Owner()
    requires OwnerOf(c', t, r) && forall i :: !OwnerOf(c, i, r)
    requires forall i | 0 <= i < |c.threads| && i != t :: SameOwnership(c, c', i)
    requires Abandoned(r) !in c.history && NoNews(c, c', r) && SameLoss(c, c') && LossStays(c, c')
    ensures OwnersOk(c')
  {
    forall i, q: nat
      ensures OwnerOf(c', i, q) <==> OwnerOf(c, i, q) || (i == t && q == r)
    {
      assert 0 <= i < |c.threads| && i != t ==> SameOwnership(c, c', i);
    }
    forall id <- c'.shared.records
      ensures Accounted(c', id, c'.shared.records[id])
    {
      if InFlight(c', id) && c'.shared.records[id] != r { FlightStaysAccounted(c, c', r, id); }
      if LiveIdle(c', id) { IdleStaysAccounted(c, c', r, id); }
    }
    forall q: nat | Abandoned(q) in c'.history ensures Lost(c', q) { LostStaysLost(c, c', q); }
  }

  ghost predicate OwnersReady(c: Config, a: Action) {
    ThreadsOk(c) && OwnersOk(c) && MovesSafely(c, a)
  }

  // ----- Reserving -----

  /** Reserving leaves every record's flight alone but the one it gives to the caller. */
  lemma ReserveFlight(l: Limits, s: Shared, id: string, digest: Digest)
    requires s.Scoped()
    ensures var (s', reply) := Reserve(l, s, id, digest);
            && |s.heap| <= |s'.heap|
            && (reply.Owns? ==>
                  && reply.owned < |s'.heap| && (reply.owned < |s.heap| ==> Idle(s.heap[reply.owned]))
                  && (reply.owned < |s.heap| ==> id in s.records && s.records[id] == reply.owned && !s.closed))
            && (forall r | 0 <= r < |s.heap| && !(reply.Owns? && reply.owned == r) ::
                  s'.heap[r].inFlight == s.heap[r].inFlight && s'.heap[r].terminal == s.heap[r].terminal)
            && (|s'.heap| > |s.heap| ==> reply == Owns(|s.heap|))
            && (reply.Owns? ==> s'.heap[reply.owned].inFlight)
            && (forall other <- s'.records ::
                  (other in s.records && s'.records[other] == s.records[other]) || s'.records[other] == |s.heap|)
  {
    hide OversizeFits, LimitError;
  }

  lemma ReserveMoves(c: Config, t: nat)
    requires Scoped(c) && Enabled(c, TryReserve(t))
    ensures var c' := NextReserve(c, t);
            var reply := Reserve(c.limits, c.shared, c.threads[t].id, c.threads[t].digest).1;
            && |c'.threads| == |c.threads|
            && (c'.threads[t].stage.Owner() <==> reply.Owns?)
            && (reply.Owns? ==> c'.threads[t].stage == Preparing(reply.owned))
            && (c'.history == c.history
                || exists x :: c'.history == c.history + [Answered(c.threads[t].id, Some(c.threads[t].digest), x)])
  {
    hide Reserve;
  }

  lemma ReserveNoNews(c: Config, t: nat, but: int)
    requires SharedOk(c) && Scoped(c) && Enabled(c, TryReserve(t))
    requires var reply := Reserve(c.limits, c.shared, c.threads[t].id, c.threads[t].digest).1;
             but == if reply.Owns? then reply.owned else -1
    ensures NoNews(c, NextReserve(c, t), but)
  {
    hide Reserve, NextReserve, OversizeFits, RecordOk, Dead;
    var th := c.threads[t];
    ReserveConfig(c, t);
    ReserveMoves(c, t);
    ReserveFlight(c.limits, c.shared, th.id, th.digest);
    hide Enabled, Scoped;
    FlightHolds(c, NextReserve(c, t), but);
  }

  lemma FlightHolds(c: Config, c': Config, but: int)
    requires |c.shared.heap| <= |c'.shared.heap| && c.history <= c'.history
    requires forall r | 0 <= r < |c.shared.heap| && r != but ::
               c'.shared.heap[r].inFlight == c.shared.heap[r].inFlight && c'.shared.heap[r].terminal == c.shared.heap[r].terminal
    requires |c'.shared.heap| > |c.shared.heap| ==> but == |c.shared.heap|
    requires c.shared.Scoped()
    requires 0 <= but < |c'.shared.heap| ==> c'.shared.heap[but].inFlight
    requires forall other <- c'.shared.records ::
               (other in c.shared.records && c'.shared.records[other] == c.shared.records[other])
               || c'.shared.records[other] == |c.shared.heap|
    ensures NoNews(c, c', but)
  {
  }

  lemma ReserveLoses(c: Config, t: nat)
    requires OwnersReady(c, TryReserve(t))
    ensures SameLoss(c, NextReserve(c, t)) && LossStays(c, NextReserve(c, t))
  {
    ReserveMoves(c, t);
    var c' := NextReserve(c, t);
    forall r: nat | Abandoned(r) in c.history
      ensures OwnerSafe(c, c', r)
    {
      assert Lost(c, r);
      ReserveKeeps(c, t, r);
    }
    hide NextReserve;
  }

  lemma NobodyOwnsIdle(c: Config, r: nat, i: int)
    requires ThreadsOk(c) && (r < |c.shared.heap| ==> Idle(c.shared.heap[r]))
    ensures !OwnerOf(c, i, r)
  {
    assert 0 <= i < |c.threads| ==> ThreadOk(c, c.threads[i]);
  }

  lemma NobodyLostIdle(c: Config, r: nat)
    requires OwnersOk(c) && (r < |c.shared.heap| ==> Idle(c.shared.heap[r]))
    ensures Abandoned(r) !in c.history
  {
    assert Abandoned(r) in c.history ==> Lost(c, r);
  }

  /** A reservation gives its caller a record nobody owns, or leaves ownership alone. */
  lemma OwnersFollow(c: Config, c': Config, t: nat, owned: Option<nat>)
    requires OwnersOk(c) && ThreadsOk(c) && t < |c.threads| == |c'.threads| && !c.threads[t].stage.Owner()
    requires forall i | 0 <= i < |c.threads| && i != t :: c'.threads[i] == c.threads[i]
    requires match owned
             case None => !c'.threads[t].stage.Owner() && NoNews(c, c', -1)
             case Some(r) => OwnerOf(c', t, r) && (r < |c.shared.heap| ==> Idle(c.shared.heap[r])) && NoNews(c, c', r)
    requires SameLoss(c, c') && LossStays(c, c')
    ensures OwnersOk(c')
  {
    hide NoNews, SameLoss, LossStays, ThreadOk;
    if owned.Some? {
      forall i ensures !OwnerOf(c, i, owned.value) { NobodyOwnsIdle(c, owned.value, i); }
      NobodyLostIdle(c, owned.value);
      OwnerArrives(c, c', t, owned.value);
    } else {
      OwnersStand(c, c');
    }
  }

  lemma OwnersAfterReserve(c: Config, t: nat)
    requires OwnersReady(c, TryReserve(t))
    ensures OwnersOk(NextReserve(c, t))
  {
    hide NextReserve, Reserve, NoNews, SameLoss, LossStays, OversizeFits, ThreadOk, RecordOk, OwnersOk;
    var th := c.threads[t];
    var reply := Reserve(c.limits, c.shared, th.id, th.digest).1;
    var owned := if reply.Owns? then Some(reply.owned) else None;
    ReserveConfig(c, t);
    ReserveMoves(c, t);
    ReserveFlight(c.limits, c.shared, th.id, th.digest);
    ReserveLoses(c, t);
    ReserveNoNews(c, t, if reply.Owns? then reply.owned else -1);
    OwnersFollow(c, NextReserve(c, t), t, owned);
  }

  // ----- The other steps -----

  lemma LeaveShape(c: Config, t: nat)
    requires Scoped(c) && Enabled(c, Leave(t))
    ensures var c' := NextLeave(c, t);
            && |c'.threads| == |c.threads| && !c'.threads[t].stage.Owner()
            && (forall i | 0 <= i < |c.threads| && i != t :: c'.threads[i] == c.threads[i])
            && c'.shared.records == c.shared.records && |c'.shared.heap| == |c.shared.heap|
            && (forall r | 0 <= r < |c.shared.heap| ::
                  && c'.shared.heap[r].inFlight == c.shared.heap[r].inFlight
                  && c'.shared.heap[r].terminal == c.shared.heap[r].terminal)
            && (c'.history == c.history || exists id, digest, x :: c'.history == c.history + [Answered(id, digest, x)])
  {
  }

  lemma OwnersAfterLeave(c: Config, t: nat)
    requires OwnersReady(c, Leave(t))
    ensures OwnersOk(NextLeave(c, t))
  {
    var c' := NextLeave(c, t);
    LeaveShape(c, t);
    forall r: nat | Abandoned(r) in c.history
      ensures OwnerSafe(c, c', r)
    {
      assert Lost(c, r);
      LeaveKeeps(c, t, r);
    }
    hide NextLeave;
    OwnersStand(c, c');
  }

  /** What an owner's last step does to the records and to the history. */
  ghost predicate LastStep(c: Config, c': Config, t: nat, r: nat) {
    && |c'.shared.heap| == |c.shared.heap|
    && (forall q | 0 <= q < |c.shared.heap| && q != r :: c'.shared.heap[q] == c.shared.heap[q])
    && (forall id <- c'.shared.records :: id in c.shared.records && c'.shared.records[id] == c.shared.records[id])
    && (forall id <- c'.shared.records | InFlight(c', id) :: c'.shared.records[id] != r)
    && (forall id <- c'.shared.records | LiveIdle(c', id) && c'.shared.records[id] == r :: Orphaned(id) in c'.history)
    && c.history <= c'.history && SameLoss(c, c')
  }

  lemma AbortIsLast(c: Config, t: nat)
    requires OwnersReady(c, Abort(t))
    ensures LastStep(c, NextAbort(c, t), t, c.threads[t].stage.on)
  {
    hide ReleasePreDispatch, NextAbort, ThreadOk, SharedOk, OwnersOk, ThreadsOk, Scoped, Dead;
    var th := c.threads[t];
    var r := th.stage.on;
    OwnRecord(c, th);
    var c' := NextAbort(c, t);
    AbortShape(c.shared, th.id, r);
    AbortConfig(c, t);
    LiveUnder(c, th.id, r);
    hide Enabled;
    assert c.history <= c'.history && SameLoss(c, c');
    hide SameLoss;
    LastStepFrom(c, c', t, th.id, r);
  }

  lemma CommitIsLast(c: Config, t: nat)
    requires OwnersReady(c, Commit(t))
    ensures LastStep(c, NextCommit(c, t), t, c.threads[t].stage.on)
  {
    hide Complete, NextCommit, Fits, OversizeFits, ThreadOk, SharedOk, OwnersOk, ThreadsOk, Scoped;
    var th := c.threads[t];
    var r := th.stage.on;
    LiveRecord(c, th);
    var c' := NextCommit(c, t);
    CompleteShape(c.limits, c.shared, th.id, r, th.stage.verdict);
    CommitConfig(c, t);
    LiveUnder(c, th.id, r);
    hide Enabled;
    assert c.history <= c'.history && SameLoss(c, c');
    hide SameLoss;
    LastStepFrom(c, c', t, th.id, r);
  }

  /** Only its own id leads to a record in the dictionary. */
  lemma LiveUnder(c: Config, id: string, r: nat)
    requires SharedOk(c) && r < |c.names| && c.names[r] == id
    ensures c.shared.closed ==> c.shared.records == map[]
    ensures forall other <- c.shared.records | c.shared.records[other] == r :: other == id
  {
    hide RecordOk, OversizeFits;
  }

  /** Before it completes, an owner's record is its id's only live one, within the limits. */
  lemma LiveRecord(c: Config, th: Thread)
    requires SharedOk(c) && ThreadOk(c, th) && th.stage.Completing?
    ensures th.stage.verdict.candidate.requestId == th.id && th.stage.on < |c.names| && c.names[th.stage.on] == th.id
    ensures th.stage.on < |c.shared.heap| && (c.shared.closed ==> c.shared.records == map[])
    ensures !c.shared.closed ==>
              th.id in c.shared.records && c.shared.records[th.id] == th.stage.on && OversizeFits(c.limits, th.id)
    ensures forall id <- c.shared.records | c.shared.records[id] == th.stage.on :: id == th.id
  {
    hide OversizeFits, RecordOk;
  }

  lemma LastStepFrom(c: Config, c': Config, t: nat, id: string, r: nat)
    requires r < |c.shared.heap| == |c'.shared.heap|
    requires forall other <- c'.shared.records :: other in c.shared.records && c'.shared.records[other] == c.shared.records[other]
    requires forall q | 0 <= q < |c.shared.heap| && q != r :: c'.shared.heap[q] == c.shared.heap[q]
    requires c.shared.closed ==> c.shared.records == map[]
    requires forall other <- c.shared.records | c.shared.records[other] == r :: other == id
    requires id in c'.shared.records && c'.shared.records[id] == r ==>
               !c'.shared.heap[r].inFlight && (Idle(c'.shared.heap[r]) ==> Orphaned(id) in c'.history)
    requires c.history <= c'.history && SameLoss(c, c')
    ensures LastStep(c, c', t, r)
  {
  }

  lemma LastStepLoses(c: Config, c': Config, t: nat, r: nat)
    requires OwnersOk(c) && OwnerOf(c, t, r) && forall q: nat | q < |c.shared.heap| && q != r :: OwnerSafe(c, c', q)
    ensures LossStays(c, c')
  {
    forall q: nat | Abandoned(q) in c.history
      ensures OwnerSafe(c, c', q)
    {
      assert Lost(c, q) && q != r;
    }
  }

  lemma OwnerTakesLastStep(c: Config, c': Config, t: nat, r: nat)
    requires OwnersOk(c) && OwnerOf(c, t, r) && |c.threads| == |c'.threads| && !c'.threads[t].stage.Owner()
    requires forall i | 0 <= i < |c.threads| && i != t :: c'.threads[i] == c.threads[i]
    requires LastStep(c, c', t, r) && LossStays(c, c')
    ensures OwnersOk(c')
  {
    assert NoNews(c, c', r);
    assert Abandoned(r) !in c'.history;
    OwnerLeaves(c, c', t, r);
  }

  lemma OwnersAfterAbort(c: Config, t: nat)
    requires OwnersReady(c, Abort(t))
    ensures OwnersOk(NextAbort(c, t))
  {
    var c', r := NextAbort(c, t), c.threads[t].stage.on;
    AbortConfig(c, t);
    AbortIsLast(c, t);
    forall q: nat | q < |c.shared.heap| && q != r ensures OwnerSafe(c, c', q) { AbortKeeps(c, t, q); }
    assert OwnerOf(c, t, r);
    hide NextAbort, LastStep;
    LastStepLoses(c, c', t, r);
    OwnerTakesLastStep(c, c', t, r);
  }

  lemma OwnersAfterCommit(c: Config, t: nat)
    requires OwnersReady(c, Commit(t))
    ensures OwnersOk(NextCommit(c, t))
  {
    var c', r := NextCommit(c, t), c.threads[t].stage.on;
    CommitConfig(c, t);
    CommitIsLast(c, t);
    forall q: nat | q < |c.shared.heap| && q != r ensures OwnerSafe(c, c', q) { CommitKeeps(c, t, q); }
    assert OwnerOf(c, t, r);
    hide NextCommit, LastStep;
    LastStepLoses(c, c', t, r);
    OwnerTakesLastStep(c, c', t, r);
  }

  lemma OwnersAfterWalk(c: Config, a: Action)
    requires OwnersReady(c, a) && Walks(a)
    ensures OwnersOk(Next(c, a))
  {
    WalkShape(c, a);
    WalkStands(c, a);
    WalkLoss(c, a);
    var th := c.threads[a.t];
    assert Onward(c, a) == Escaped ==> ThreadOk(c, th);
    hide Next, NoNews, LossStays, SharedOk, ThreadsOk, Enabled, Scoped, Walks;
    if Onward(c, a) == Escaped {
      OwnRecord(c, th);
      hide ThreadOk, Onward;
      OwnerEscapes(c, Next(c, a), a.t, th.stage.on, Onward(c, a));
    } else {
      hide Onward, ThreadOk;
      OwnerWalks(c, Next(c, a), a.t, Onward(c, a));
    }
  }

  lemma OwnerEscapes(c: Config, c': Config, t: nat, r: nat, stage: Stage)
    requires OwnersOk(c) && OwnerOf(c, t, r) && stage == Escaped
    requires c' == c.(threads := Moved(c.threads, t, stage), history := c.history + [Abandoned(r)])
    requires r < |c.shared.heap| == |c.names| && c.shared.heap[r].inFlight && Current(c, c.names[r], r)
    requires NoNews(c, c', r) && LossStays(c, c')
    ensures OwnersOk(c')
  {
    hide NoNews, LossStays;
    OwnerLeaves(c, c', t, r);
  }

  lemma OwnerWalks(c: Config, c': Config, t: nat, stage: Stage)
    requires OwnersOk(c) && t < |c.threads| && stage.Owner() == c.threads[t].stage.Owner()
    requires stage.Owner() ==> stage.on == c.threads[t].stage.on
    requires c' == c.(threads := Moved(c.threads, t, stage), history := c'.history)
    requires NoNews(c, c', -1) && LossStays(c, c') && SameLoss(c, c')
    ensures OwnersOk(c')
  {
    hide NoNews, LossStays, SameLoss;
    OwnersStand(c, c');
  }

  /** A walk loses an owner, or leaves ownership and losses alone. */
  lemma WalkLoss(c: Config, a: Action)
    requires Scoped(c) && Enabled(c, a) && Walks(a)
    ensures var c', th := Next(c, a), c.threads[a.t];
            if Onward(c, a) == Escaped then
              th.stage.Owner() && c'.history == c.history + [Abandoned(th.stage.on)]
            else
              && th.stage.Owner() == Onward(c, a).Owner() && (th.stage.Owner() ==> Onward(c, a).on == th.stage.on)
              && (c'.history == c.history || c'.history == c.history + [Dispatch(th.id)])
              && SameLoss(c, c')
  {
    hide Evaluate;
  }

  lemma WalkStands(c: Config, a: Action)
    requires OwnersReady(c, a) && Walks(a)
    ensures forall but: int :: NoNews(c, Next(c, a), but)
    ensures LossStays(c, Next(c, a))
  {
    var c' := Next(c, a);
    WalkShape(c, a);
    hide Next, Onward;
    forall r: nat | Abandoned(r) in c.history
      ensures OwnerSafe(c, c', r)
    {
      assert Lost(c, r);
    }
  }

  lemma CancelFlight(c: Config, id: string, p: Option<string>)
    requires SharedOk(c) && Scoped(c)
    ensures var c' := NextCancel(c, id, p);
            && c'.threads == c.threads
            && (forall other <- c'.shared.records | InFlight(c', other) ::
                  InFlight(c, other) && c.shared.records[other] == c'.shared.records[other])
            && (forall other <- c'.shared.records | LiveIdle(c', other) :: LiveIdle(c, other) || Orphaned(other) in c'.history)
            && c.history <= c'.history && SameLoss(c, c')
  {
    var c' := NextCancel(c, id, p);
    CancelConfig(c, id, p);
    CancelCreates(c.limits, c.shared, id, p);
    hide NextCancel, Cancel, Fits, OversizeFits;
    forall other <- c'.shared.records | c'.shared.records[other] < |c.shared.heap|
      ensures InFlight(c', other) ==> InFlight(c, other)
      ensures LiveIdle(c', other) ==> LiveIdle(c, other)
    {
      CancelShape(c.limits, c.shared, id, p, c'.shared.records[other]);
    }
  }

  lemma OwnersAfterCancel(c: Config, id: string, p: Option<string>)
    requires OwnersReady(c, CancelCall(id, p))
    ensures OwnersOk(NextCancel(c, id, p))
  {
    var c' := NextCancel(c, id, p);
    CancelFlight(c, id, p);
    forall r: nat | Abandoned(r) in c.history
      ensures OwnerSafe(c, c', r)
    {
      assert Lost(c, r);
      CancelKeeps(c, id, p, r);
    }
    hide NextCancel, Cancel;
    OwnersStand(c, c');
  }

  lemma OwnersAfterRelease(c: Config, id: string)
    requires OwnersReady(c, ReleaseCall(id))
    ensures OwnersOk(NextRelease(c, id))
  {
    var c' := NextRelease(c, id);
    forall r: nat | Abandoned(r) in c.history
      ensures OwnerSafe(c, c', r)
    {
      assert Lost(c, r);
      ReleaseKeeps(c, id, r);
    }
    OwnersStand(c, c');
  }

  lemma OwnersAfterClose(c: Config)
    requires OwnersReady(c, CloseCall)
    ensures OwnersOk(Closed(c))
  {
    var c' := Closed(c);
    forall r: nat | Abandoned(r) in c.history
      ensures OwnerSafe(c, c', r)
    {
      assert Lost(c, r);
      CloseKeeps(c, r);
    }
    OwnersStand(c, c');
  }

  lemma OwnersAfterCall(c: Config, a: Action)
    requires OwnersReady(c, a) && a.Call?
    ensures OwnersOk(Next(c, a))
  {
    assert forall r: nat | Abandoned(r) in c.history :: Lost(c, r);
    hide ThreadsOk, SharedOk;
    OwnersStand(c, Next(c, a));
  }

  lemma OwnersAfterPeek(c: Config, id: string)
    requires OwnersReady(c, Peek(id))
    ensures OwnersOk(Next(c, Peek(id)))
  {
    assert forall r: nat | Abandoned(r) in c.history :: Lost(c, r);
    hide ThreadsOk, SharedOk;
    OwnersStand(c, Next(c, Peek(id)));
  }

  lemma OwnersKept(c: Config, a: Action)
    requires OwnersReady(c, a)
    ensures OwnersOk(Next(c, a))
  {
    hide OwnersReady, OwnersOk;
    match a
    case TryReserve(t) => OwnersAfterReserve(c, t);
    case Leave(t) => OwnersAfterLeave(c, t);
    case Abort(t) => OwnersAfterAbort(c, t);
    case Commit(t) => OwnersAfterCommit(c, t);
    case CancelCall(id, p) => OwnersAfterCancel(c, id, p);
    case ReleaseCall(id) => OwnersAfterRelease(c, id);
    case CloseCall => OwnersAfterClose(c);
    case Call(_, _, _) => OwnersAfterCall(c, a);
    case Peek(id) => OwnersAfterPeek(c, id);
    case _ => OwnersAfterWalk(c, a);
  }
}
