/** Every action keeps the record, dictionary and retention invariants. */
module GuardRecords {
  import opened Wrappers
  import opened GuardState
  import opened GuardMachine
  import opened GuardThreads

  ghost predicate MovesSafely(c: Config, a: Action) {
    && SharedOk(c) && Scoped(c) && Enabled(c, a)
    && (a.OfThread() ==> ThreadOk(c, c.threads[a.t]))
  }

  lemma RecordsAfterReserve(c: Config, t: nat)
    requires MovesSafely(c, TryReserve(t))
    ensures RecordsOk(NextReserve(c, t))
  {
    var c', th := NextReserve(c, t), c.threads[t];
    ReserveConfig(c, t);
    ReserveLimits(c.limits, c.shared, th.id, th.digest);
    hide Reserve, NextReserve, Fits, OversizeFits;
    forall r | 0 <= r < |c'.shared.heap|
      ensures RecordOk(c', r)
    {
      if r < |c.shared.heap| {
        assert RecordOk(c, r);
        ReserveShape(c.limits, c.shared, th.id, th.digest, r);
      }
    }
  }

  /** The dictionary keeps its entries, or gains one for a new record within the limits. */
  lemma BoundGrows(c: Config, c': Config, id: string)
    requires SharedOk(c) && c'.limits == c.limits && Grows(c.shared, c'.shared, id)
    requires c'.bound == if c.shared.closed then c.bound else c'.shared.records
    requires c'.names == if |c'.shared.heap| > |c.shared.heap| then c.names + [id] else c.names
    requires forall r | 0 <= r < |c.shared.heap| :: Dead(c'.shared.heap[r]) ==> Dead(c.shared.heap[r])
    requires |c'.shared.heap| > |c.shared.heap| ==>
               && |c.shared.records| < c.limits.maxRetained && OversizeFits(c.limits, id)
               && !Dead(c'.shared.heap[|c.shared.heap|])
    ensures BoundOk(c')
  {
    hide OversizeFits, Dead;
  }

  lemma BoundAfterReserve(c: Config, t: nat)
    requires MovesSafely(c, TryReserve(t))
    ensures BoundOk(NextReserve(c, t))
  {
    var th := c.threads[t];
    ReserveConfig(c, t);
    ReserveLimits(c.limits, c.shared, th.id, th.digest);
    hide Reserve, NextReserve, Fits, OversizeFits;
    forall r | 0 <= r < |c.shared.heap|
      ensures Dead(NextReserve(c, t).shared.heap[r]) ==> Dead(c.shared.heap[r])
    {
      ReserveShape(c.limits, c.shared, th.id, th.digest, r);
    }
    BoundGrows(c, NextReserve(c, t), th.id);
  }

  lemma ReserveLimits(l: Limits, s: Shared, id: string, digest: Digest)
    requires s.Scoped()
    ensures var s' := Reserve(l, s, id, digest).0;
            && Grows(s, s', id)
            && (|s'.heap| > |s.heap| ==>
                  && |s.records| < l.maxRetained && OversizeFits(l, id)
                  && s'.heap[|s.heap|] == Record(Some(digest), true, 0, false, None))
  {
    hide OversizeFits, LimitError;
  }

  lemma RecordsAfterLeave(c: Config, t: nat)
    requires MovesSafely(c, Leave(t))
    ensures RecordsOk(NextLeave(c, t))
  {
    var c' := NextLeave(c, t);
    hide Fits, OversizeFits;
    forall r | 0 <= r < |c'.shared.heap|
      ensures RecordOk(c', r)
    {
      assert RecordOk(c, r);
    }
  }

  lemma BoundAfterLeave(c: Config, t: nat)
    requires MovesSafely(c, Leave(t))
    ensures BoundOk(NextLeave(c, t))
  {
    hide OversizeFits;
    BoundGrows(c, NextLeave(c, t), c.threads[t].id);
  }

  lemma RecordsAfterAbort(c: Config, t: nat)
    requires MovesSafely(c, Abort(t))
    ensures RecordsOk(NextAbort(c, t))
  {
    var c' := NextAbort(c, t);
    AbortConfig(c, t);
    hide NextAbort, Fits, OversizeFits;
    forall r | 0 <= r < |c'.shared.heap|
      ensures RecordOk(c', r)
    {
      assert RecordOk(c, r);
    }
  }

  lemma BoundAfterAbort(c: Config, t: nat)
    requires MovesSafely(c, Abort(t))
    ensures BoundOk(NextAbort(c, t))
  {
    AbortConfig(c, t);
    RemovalShrinks(c.shared.records, c.threads[t].id);
    AbortShape(c.shared, c.threads[t].id, c.threads[t].stage.on);
    hide NextAbort, ReleasePreDispatch, Fits, OversizeFits;
    BoundShrinks(c, NextAbort(c, t), c.threads[t].id);
  }

  /** The dictionary stays, or loses one id; the records it keeps did not die. */
  lemma BoundShrinks(c: Config, c': Config, id: string)
    requires SharedOk(c) && c'.limits == c.limits && c'.names == c.names && |c'.shared.heap| == |c.shared.heap|
    requires c'.shared.closed == c.shared.closed
    requires c'.bound == if c.shared.closed then c.bound else c'.shared.records
    requires c'.shared.records == c.shared.records || c'.shared.records == c.shared.records - {id}
    requires |c'.shared.records| <= |c.shared.records|
    requires forall other <- c'.shared.records ::
               Dead(c'.shared.heap[c.shared.records[other]]) ==> Dead(c.shared.heap[c.shared.records[other]])
    ensures BoundOk(c')
  {
    hide OversizeFits, Dead;
  }

  lemma RemovalShrinks(m: map<string, nat>, id: string)
    ensures |m - {id}| <= |m|
  {
    assert (m - {id}).Keys == m.Keys - {id};
    assert |m.Keys - {id}| <= |m.Keys|;
  }

  lemma RecordsAfterCommit(c: Config, t: nat)
    requires MovesSafely(c, Commit(t))
    ensures RecordsOk(NextCommit(c, t))
  {
    var c', th := NextCommit(c, t), c.threads[t];
    CompleteShape(c.limits, c.shared, th.id, th.stage.on, th.stage.verdict);
    CommitConfig(c, t);
    hide NextCommit, Complete, Fits, OversizeFits;
    forall r | 0 <= r < |c'.shared.heap|
      ensures RecordOk(c', r)
    {
      assert RecordOk(c, r);
    }
  }

  lemma BoundAfterCommit(c: Config, t: nat)
    requires MovesSafely(c, Commit(t))
    ensures BoundOk(NextCommit(c, t))
  {
    var c', th := NextCommit(c, t), c.threads[t];
    CompleteShape(c.limits, c.shared, th.id, th.stage.on, th.stage.verdict);
    CommitConfig(c, t);
    hide NextCommit, Complete, Fits, OversizeFits;
    assert RecordOk(c, th.stage.on);
    BoundShrinks(c, c', "");
  }

  lemma RecordsAfterCancel(c: Config, id: string, p: Option<string>)
    requires MovesSafely(c, CancelCall(id, p))
    ensures RecordsOk(NextCancel(c, id, p))
  {
    var c' := NextCancel(c, id, p);
    CancelConfig(c, id, p);
    CancelCreates(c.limits, c.shared, id, p);
    hide NextCancel, Cancel, Fits, OversizeFits;
    forall r | 0 <= r < |c'.shared.heap|
      ensures RecordOk(c', r)
    {
      if r < |c.shared.heap| {
        assert RecordOk(c, r);
        CancelShape(c.limits, c.shared, id, p, r);
      }
    }
  }

  lemma BoundAfterCancel(c: Config, id: string, p: Option<string>)
    requires MovesSafely(c, CancelCall(id, p))
    ensures BoundOk(NextCancel(c, id, p))
  {
    var c' := NextCancel(c, id, p);
    CancelConfig(c, id, p);
    CancelCreates(c.limits, c.shared, id, p);
    hide NextCancel, Cancel, Fits, OversizeFits;
    forall r | 0 <= r < |c.shared.heap|
      ensures Dead(c'.shared.heap[r]) ==> Dead(c.shared.heap[r])
    {
      CancelShape(c.limits, c.shared, id, p, r);
    }
    BoundGrows(c, c', id);
  }

  lemma RecordsAfterRelease(c: Config, id: string)
    requires MovesSafely(c, ReleaseCall(id))
    ensures RecordsOk(NextRelease(c, id)) && BoundOk(NextRelease(c, id))
  {
    var c' := NextRelease(c, id);
    ReleaseConfig(c, id);
    RemovalShrinks(c.shared.records, id);
    hide NextRelease, Release, Fits, OversizeFits;
    forall r | 0 <= r < |c'.shared.heap|
      ensures RecordOk(c', r)
    {
      assert RecordOk(c, r);
    }
    BoundShrinks(c, c', id);
  }

  lemma RecordsAfterClose(c: Config)
    requires MovesSafely(c, CloseCall)
    ensures RecordsOk(Closed(c)) && BoundOk(Closed(c))
  {
    var c' := Closed(c);
    forall r | 0 <= r < |c'.shared.heap|
      ensures RecordOk(c', r)
    {
      assert RecordOk(c, r);
    }
  }

  lemma RecordsKept(c: Config, a: Action)
    requires MovesSafely(c, a)
    ensures RecordsOk(Next(c, a)) && BoundOk(Next(c, a))
  {
    hide MovesSafely, RecordsOk, BoundOk;
    match a
    case TryReserve(t) => RecordsAfterReserve(c, t); BoundAfterReserve(c, t);
    case Leave(t) => RecordsAfterLeave(c, t); BoundAfterLeave(c, t);
    case Abort(t) => RecordsAfterAbort(c, t); BoundAfterAbort(c, t);
    case Commit(t) => RecordsAfterCommit(c, t); BoundAfterCommit(c, t);
    case CancelCall(id, p) => RecordsAfterCancel(c, id, p); BoundAfterCancel(c, id, p);
    case ReleaseCall(id) => RecordsAfterRelease(c, id);
    case CloseCall => RecordsAfterClose(c);
    case Call(_, _, _) => RecordsStand(c, a);
    case Peek(_) => RecordsStand(c, a);
    case _ => RecordsAfterWalk(c, a);
  }

  lemma RecordsStand(c: Config, a: Action)
    requires MovesSafely(c, a) && (a.Call? || a.Peek?)
    ensures RecordsOk(Next(c, a)) && BoundOk(Next(c, a))
  {
    hide RecordsOk, BoundOk;
    SameRecords(c, Next(c, a));
  }

  lemma RecordsAfterWalk(c: Config, a: Action)
    requires MovesSafely(c, a) && Walks(a)
    ensures RecordsOk(Next(c, a)) && BoundOk(Next(c, a))
  {
    hide RecordsOk, BoundOk;
    WalkShape(c, a);
    hide Next;
    SameRecords(c, Next(c, a));
  }

  lemma SameRecords(c: Config, c': Config)
    requires SharedOk(c)
    requires c'.shared == c.shared && c'.bound == c.bound && c'.names == c.names && c'.limits == c.limits
    ensures RecordsOk(c') && BoundOk(c')
  {
    forall r | 0 <= r < |c'.shared.heap|
      ensures RecordOk(c', r)
    {
      assert RecordOk(c, r);
    }
  }
}
