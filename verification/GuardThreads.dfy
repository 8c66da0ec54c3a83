/** Every action keeps what each thread relies on. */
module GuardThreads {
  import opened Wrappers
  import opened NeutralContract
  import opened EventLoop
  import opened GuardState
  import opened GuardMachine

  ghost predicate SharedOk(c: Config) {
    RecordsOk(c) && BoundOk(c) && c.shared.Scoped()
  }

  lemma BoundScoped(c: Config)
    requires BoundOk(c)
    ensures c.shared.Scoped()
  {
  }

  lemma InvScoped(c: Config)
    requires ThreadsOk(c) && BoundOk(c)
    ensures Scoped(c)
  {
    forall i | 0 <= i < |c.threads|
      ensures c.threads[i].stage.Waits() || c.threads[i].stage.Owner() ==> c.threads[i].stage.on < |c.shared.heap|
    {
      assert ThreadOk(c, c.threads[i]);
    }
  }

  /** Where a waiter may sleep. */
  ghost predicate Pending(v: View) {
    v.current && v.record.terminal.None? && !v.closed
  }

  /** What may happen to a record under a thread that does not move, whatever it is doing. */
  ghost predicate KeptForAll(v: View, v': View) {
    && (v.record.digest.Some? ==> v'.record.digest == v.record.digest)
    && (v.closed ==> v'.closed)
    && (v.record.wake ==> v'.record.wake)
    && (v.record.terminal.Some? ==> v'.record.terminal == v.record.terminal)
    && (Dead(v.record) ==> Dead(v'.record))
    && (v.record.terminal.Some? && !v.record.inFlight ==> !v'.record.inFlight)
    && (v'.record.terminal.Some? && v.record.terminal.None? ==> v'.current)
  }

  ghost predicate KeptForOwner(v: View, v': View) {
    v.current && v.record.inFlight ==> v'.current && v'.record.inFlight
  }

  ghost predicate KeptForWaiter(v: View, v': View) {
    && (v.current && v.record.terminal.Some? ==> v'.current)
    && (!v'.record.wake && Pending(v) ==> Pending(v'))
  }

  lemma StageKept(th: Thread, v: View, v': View)
    requires StageOk(th, v) && KeptForAll(v, v')
    requires th.stage.Owner() ==> KeptForOwner(v, v')
    requires th.stage.Waits() ==> KeptForWaiter(v, v')
    requires th.stage.Owner() || th.stage.Waits()
    ensures StageOk(th, v')
  {
  }

  ghost predicate SameRecordNamed(c: Config, c': Config, r: nat) {
    r < |c.shared.heap| <= |c'.shared.heap| && |c.names| == |c.shared.heap| && |c'.names| == |c'.shared.heap|
    && c'.names[r] == c.names[r]
  }

  ghost predicate Before(c: Config, c': Config, r: nat) {
    SameRecordNamed(c, c', r) && KeptForAll(ViewOf(c, c.names[r], r), ViewOf(c', c.names[r], r))
  }

  ghost predicate OwnerSafe(c: Config, c': Config, r: nat) {
    SameRecordNamed(c, c', r) && KeptForOwner(ViewOf(c, c.names[r], r), ViewOf(c', c.names[r], r))
  }

  ghost predicate WaiterSafe(c: Config, c': Config, r: nat) {
    SameRecordNamed(c, c', r) && KeptForWaiter(ViewOf(c, c.names[r], r), ViewOf(c', c.names[r], r))
  }

  lemma ThreadKept(c: Config, c': Config, th: Thread)
    requires ThreadOk(c, th)
    requires th.stage.Owner() || th.stage.Waits() ==> Before(c, c', th.stage.on)
    requires th.stage.Owner() ==> OwnerSafe(c, c', th.stage.on)
    requires th.stage.Waits() ==> WaiterSafe(c, c', th.stage.on)
    ensures ThreadOk(c', th)
  {
    if th.stage.Owner() || th.stage.Waits() {
      StageKept(th, ViewOf(c, th.id, th.stage.on), ViewOf(c', th.id, th.stage.on));
    }
  }

  // ----- Effects on one record -----

  /** The dictionary stays, or gains the id for a new last record. */
  ghost predicate Grows(s: Shared, s': Shared, id: string) {
    && s'.closed == s.closed
    && if |s'.heap| == |s.heap| then s'.records == s.records
       else |s'.heap| == |s.heap| + 1 && !s.closed && id !in s.records && s'.records == s.records[id := |s.heap|]
  }

  /** An existing record changes its digest once, its waiters, and when idle it may be taken over. */
  lemma ReserveShape(l: Limits, s: Shared, id: string, digest: Digest, r: nat)
    requires s.Scoped() && r < |s.heap|
    ensures var s' := Reserve(l, s, id, digest).0;
            && Grows(s, s', id)
            && s'.heap[r].terminal == s.heap[r].terminal
            && (s.heap[r].digest.Some? ==> s'.heap[r].digest == s.heap[r].digest)
            && (s'.heap[r] == s.heap[r] || (!s.closed && id in s.records && s.records[id] == r))
            && (s'.heap[r].inFlight != s.heap[r].inFlight || s'.heap[r].wake != s.heap[r].wake ==>
                  Idle(s.heap[r]) && s'.heap[r].inFlight && !s'.heap[r].wake)
  {
    hide OversizeFits, LimitError;
  }

  lemma ReserveConfig(c: Config, t: nat)
    requires Scoped(c) && t < |c.threads| && |c.names| == |c.shared.heap|
    ensures var c' := NextReserve(c, t);
            var s' := Reserve(c.limits, c.shared, c.threads[t].id, c.threads[t].digest).0;
            && c'.shared == s' && c'.limits == c.limits
            && c'.bound == (if s'.closed then c.bound else s'.records)
            && c'.names == (if |s'.heap| > |c.shared.heap| then c.names + [c.threads[t].id] else c.names)
            && |c'.threads| == |c.threads| && c'.threads[t].id == c.threads[t].id
            && (forall i | 0 <= i < |c.threads| && i != t :: c'.threads[i] == c.threads[i])
  {
    hide Reserve;
  }

  lemma ReserveKeeps(c: Config, t: nat, r: nat)
    requires SharedOk(c) && Scoped(c) && Enabled(c, TryReserve(t)) && r < |c.shared.heap|
    ensures var c' := NextReserve(c, t); Before(c, c', r) && OwnerSafe(c, c', r) && WaiterSafe(c, c', r)
  {
    var th := c.threads[t];
    RecordFacts(c, r);
    ReserveShape(c.limits, c.shared, th.id, th.digest, r);
    ReserveConfig(c, t);
    hide Reserve, NextReserve, SharedOk, Scoped, Enabled, RecordOk;
    ReservationMoves(c, NextReserve(c, t), r, th.id);
  }

  lemma ReservationMoves(c: Config, c': Config, r: nat, id: string)
    requires r < |c.shared.heap| == |c.names| && Grows(c.shared, c'.shared, id)
    requires c'.names == if |c'.shared.heap| > |c.shared.heap| then c.names + [id] else c.names
    requires c'.bound == if c'.shared.closed then c.bound else c'.shared.records
    requires !c.shared.closed ==> c.bound == c.shared.records
    requires forall other <- c.bound | c.bound[other] == r ::
               c.names[r] == other && (Dead(c.shared.heap[r]) ==> c.shared.closed)
    requires var x, x' := c.shared.heap[r], c'.shared.heap[r];
             && x'.terminal == x.terminal && (x.digest.Some? ==> x'.digest == x.digest)
             && (x' == x || (!c.shared.closed && id in c.shared.records && c.shared.records[id] == r))
             && (x'.inFlight != x.inFlight || x'.wake != x.wake ==> Idle(x) && x'.inFlight && !x'.wake)
    ensures Before(c, c', r) && OwnerSafe(c, c', r) && WaiterSafe(c, c', r)
  {
  }

  /** What the record invariants say about one record. */
  lemma RecordFacts(c: Config, r: nat)
    requires SharedOk(c) && r < |c.shared.heap|
    ensures RecordOk(c, r) && |c.names| == |c.shared.heap|
    ensures if c.shared.closed then c.shared.records == map[] else c.bound == c.shared.records
    ensures forall id <- c.bound | c.bound[id] == r :: c.names[r] == id && (Dead(c.shared.heap[r]) ==> c.shared.closed)
  {
    hide Fits, OversizeFits, RecordOk;
  }

  /** A step that keeps the dictionary and the names keeps what threads rely on if it changes the
      record only as they tolerate. */
  lemma RecordMoves(c: Config, c': Config, r: nat)
    requires r < |c.shared.heap| == |c.names| && |c'.shared.heap| == |c.shared.heap| && c'.names == c.names
    requires c'.bound == c.bound && c'.shared.closed == c.shared.closed
    requires var x, x' := c.shared.heap[r], c'.shared.heap[r];
             && x'.digest == x.digest && (x.wake ==> x'.wake)
             && (x.terminal.Some? ==> x'.terminal == x.terminal)
             && (x'.terminal.Some? && x.terminal.None? ==> Current(c, c.names[r], r))
             && (Dead(x) ==> Dead(x')) && (!x.inFlight ==> !x'.inFlight)
             && (!x'.wake && x.terminal.None? ==> x'.terminal.None?)
    ensures Before(c, c', r) && WaiterSafe(c, c', r)
    ensures (c.shared.heap[r].inFlight ==> c'.shared.heap[r].inFlight) ==> OwnerSafe(c, c', r)
  {
  }

  lemma LeaveKeeps(c: Config, t: nat, r: nat)
    requires SharedOk(c) && Scoped(c) && Enabled(c, Leave(t)) && r < |c.shared.heap|
    ensures var c' := NextLeave(c, t); Before(c, c', r) && OwnerSafe(c, c', r) && WaiterSafe(c, c', r)
  {
    RecordFacts(c, r);
    LeaveRecords(c, t);
    hide NextLeave, SharedOk, Scoped, Enabled, RecordOk, Before, OwnerSafe, WaiterSafe;
    RecordMoves(c, NextLeave(c, t), r);
  }

  lemma LeaveRecords(c: Config, t: nat)
    requires Scoped(c) && Enabled(c, Leave(t))
    ensures var c' := NextLeave(c, t);
            && c'.names == c.names && c'.shared.closed == c.shared.closed && c'.shared.records == c.shared.records
            && c'.bound == (if c.shared.closed then c.bound else c.shared.records)
            && |c'.shared.heap| == |c.shared.heap|
            && forall r | 0 <= r < |c.shared.heap| ::
                 c'.shared.heap[r] == c.shared.heap[r].(waiters := c'.shared.heap[r].waiters)
  {
  }

  lemma AbortConfig(c: Config, t: nat)
    requires t < |c.threads| && c.threads[t].stage.Aborting? && c.threads[t].stage.on < |c.shared.heap|
    ensures var c', th := NextAbort(c, t), c.threads[t];
            var s' := ReleasePreDispatch(c.shared, th.id, th.stage.on).0;
            && c'.shared == s' && c'.limits == c.limits && c'.names == c.names
            && c'.bound == (if s'.closed then c.bound else s'.records)
            && |c'.threads| == |c.threads| && c'.threads[t].id == th.id && c'.threads[t].stage.Done()
            && (forall i | 0 <= i < |c.threads| && i != t :: c'.threads[i] == c.threads[i])
            && (c'.history == c.history || exists x :: c'.history == c.history + [Answered(th.id, Some(th.digest), x)])
  {
  }

  lemma AbortKeeps(c: Config, t: nat, r: nat)
    requires SharedOk(c) && Scoped(c) && Enabled(c, Abort(t)) && ThreadOk(c, c.threads[t]) && r < |c.shared.heap|
    ensures var c' := NextAbort(c, t);
            Before(c, c', r) && WaiterSafe(c, c', r) && (r != c.threads[t].stage.on ==> OwnerSafe(c, c', r))
  {
    var th := c.threads[t];
    RecordFacts(c, r);
    AbortConfig(c, t);
    OwnRecord(c, th);
    AbortShape(c.shared, th.id, th.stage.on);
    hide NextAbort, ReleasePreDispatch, SharedOk, ThreadOk, Scoped, Enabled, Fits;
    AbortMoves(c, NextAbort(c, t), r, th.id, th.stage.on);
  }

  lemma OwnRecord(c: Config, th: Thread)
    requires ThreadOk(c, th) && th.stage.Owner()
    ensures th.stage.on < |c.shared.heap| == |c.names| && c.names[th.stage.on] == th.id
    ensures th.id in c.bound && c.bound[th.id] == th.stage.on && c.shared.heap[th.stage.on].inFlight
    ensures c.shared.heap[th.stage.on].digest == Some(th.digest)
  {
  }

  /** A failed preparation wakes its record and forgets it, unless a terminal won. */
  lemma AbortShape(s: Shared, id: string, r: nat)
    requires r < |s.heap|
    ensures var s' := ReleasePreDispatch(s, id, r).0;
            && s'.closed == s.closed && |s'.heap| == |s.heap|
            && (forall q | 0 <= q < |s.heap| && q != r :: s'.heap[q] == s.heap[q])
            && if s.closed || id !in s.records || s.records[id] != r then s' == s
               else
                 && s'.heap[r] == s.heap[r].(inFlight := false, wake := true)
                 && s'.records == if s.heap[r].terminal.Some? then s.records else s.records - {id}
  {
  }

  lemma AbortMoves(c: Config, c': Config, r: nat, id: string, own: nat)
    requires r < |c.shared.heap| == |c.names| && |c'.shared.heap| == |c.shared.heap| && c'.names == c.names
    requires own < |c.shared.heap| && c.names[own] == id && RecordOk(c, r)
    requires c'.shared.closed == c.shared.closed && c'.bound == if c.shared.closed then c.bound else c'.shared.records
    requires !c.shared.closed ==> c.bound == c.shared.records
    requires forall q | 0 <= q < |c.shared.heap| && q != own :: c'.shared.heap[q] == c.shared.heap[q]
    requires if c.shared.closed || id !in c.shared.records || c.shared.records[id] != own then c'.shared == c.shared
             else
               && c'.shared.heap[own] == c.shared.heap[own].(inFlight := false, wake := true)
               && c'.shared.records ==
                    if c.shared.heap[own].terminal.Some? then c.shared.records else c.shared.records - {id}
    ensures Before(c, c', r) && WaiterSafe(c, c', r) && (r != own ==> OwnerSafe(c, c', r))
  {
    hide Fits;
  }

  /** Completion clears the flight of its own live record; that record is answered within the
      limits and woken, or left idle and asleep. */
  lemma CompleteShape(l: Limits, s: Shared, id: string, r: nat, v: Verdict)
    requires r < |s.heap|
    ensures var (s', reply) := Complete(l, s, id, r, v);
            && s'.closed == s.closed && s'.records == s.records && |s'.heap| == |s.heap|
            && (forall q | 0 <= q < |s.heap| && q != r :: s'.heap[q] == s.heap[q])
            && if s.closed || id !in s.records || s.records[id] != r then
                 s' == s && reply == CompleteRefused(SessionClosed)
               else
                 && s'.heap[r] == s.heap[r].(inFlight := false, terminal := s'.heap[r].terminal, wake := s'.heap[r].wake)
                 && (s.heap[r].terminal.Some? ==> s'.heap[r].terminal == s.heap[r].terminal)
                 && (s'.heap[r].terminal.Some? ==> s'.heap[r].wake && reply.Answer?)
                 && (s'.heap[r].terminal.Some? && s.heap[r].terminal.None? ==> Fits(l, s'.heap[r].terminal.value))
                 && (s'.heap[r].terminal.None? ==> s'.heap[r].wake == s.heap[r].wake && reply.CompleteRefused?)
                 && (s'.heap[r].terminal.None? && OversizeFits(l, v.candidate.requestId) ==>
                       l.size(v.candidate).None? && reply == CompleteRefused(SizeFailure))
  {
  }

  lemma CommitConfig(c: Config, t: nat)
    requires t < |c.threads| && c.threads[t].stage.Completing? && c.threads[t].stage.on < |c.shared.heap|
    ensures var c', th := NextCommit(c, t), c.threads[t];
            var (s', reply) := Complete(c.limits, c.shared, th.id, th.stage.on, th.stage.verdict);
            && c'.shared == s' && c'.limits == c.limits
            && c'.bound == (if s'.closed then c.bound else s'.records)
            && c'.names == (if |s'.heap| > |c.shared.heap| then c.names + [th.id] else c.names)
            && |c'.threads| == |c.threads| && c'.threads[t].id == th.id && c'.threads[t].stage.Done()
            && (forall i | 0 <= i < |c.threads| && i != t :: c'.threads[i] == c.threads[i])
            && match reply
               case CompleteRefused(code) =>
                 c'.history == c.history + if code == SizeFailure then [Orphaned(th.id)] else []
               case Answer(events) =>
                 c'.history == c.history + if events == [] then [] else [Answered(th.id, Some(th.digest), Last(events))]
  {
    hide Complete;
  }

  lemma CommitKeeps(c: Config, t: nat, r: nat)
    requires SharedOk(c) && Scoped(c) && Enabled(c, Commit(t)) && ThreadOk(c, c.threads[t]) && r < |c.shared.heap|
    ensures var c' := NextCommit(c, t);
            Before(c, c', r) && WaiterSafe(c, c', r) && (r != c.threads[t].stage.on ==> OwnerSafe(c, c', r))
  {
    var th := c.threads[t];
    RecordFacts(c, r);
    OwnRecord(c, th);
    CompleteShape(c.limits, c.shared, th.id, th.stage.on, th.stage.verdict);
    CommitConfig(c, t);
    hide Complete, NextCommit, Fits, OversizeFits, SharedOk, ThreadOk, Scoped, Enabled, RecordOk, Before, WaiterSafe, OwnerSafe;
    RecordMoves(c, NextCommit(c, t), r);
  }

  /** A cancel answers the id's record within the limits and wakes it, or leaves it as it is;
      a record it creates is answered too, or left idle and asleep. */
  lemma CancelShape(l: Limits, s: Shared, id: string, p: Option<string>, r: nat)
    requires s.Scoped() && r < |s.heap|
    ensures var s' := Cancel(l, s, id, p).0;
            && Grows(s, s', id)
            && (s'.heap[r] == s.heap[r]
                || (!s.closed && id in s.records && s.records[id] == r && s.heap[r].terminal.None?
                    && s'.heap[r].terminal.Some? && Fits(l, s'.heap[r].terminal.value)
                    && s'.heap[r] == s.heap[r].(wake := true, terminal := s'.heap[r].terminal)))
  {
    hide Bounded, LimitError, OversizeFits;
    CancelBounds(l, id, p);
  }

  lemma CancelBounds(l: Limits, id: string, p: Option<string>)
    ensures Bounded(l, CancelEvent(id, p)).Ok? ==> Fits(l, Bounded(l, CancelEvent(id, p)).value)
    ensures Bounded(l, CancelEvent(id, p)).Err? && OversizeFits(l, id) ==> l.size(CancelEvent(id, p)).None?
  {
  }

  lemma CancelCreates(l: Limits, s: Shared, id: string, p: Option<string>)
    requires s.Scoped()
    ensures var (s', reply) := Cancel(l, s, id, p);
            && Grows(s, s', id)
            && (|s'.heap| > |s.heap| ==>
                  && id != "" && |s.records| < l.maxRetained && OversizeFits(l, id)
                  && var record := s'.heap[|s.heap|];
                     && record.digest.None? && !record.inFlight && record.waiters == 0
                     && (record.terminal.Some? ==> record.wake && Fits(l, record.terminal.value) && reply.Outcome?)
                     && (record.terminal.None? ==>
                           !record.wake && reply.CancelRefused? && l.size(CancelEvent(id, p)).None?))
            && (reply.Outcome? ==> id in s'.records && s'.heap[s'.records[id]].terminal == Some(reply.terminal))
  {
    hide Bounded, LimitError, OversizeFits;
    CancelBounds(l, id, p);
  }

  lemma CancelConfig(c: Config, id: string, p: Option<string>)
    requires Scoped(c)
    ensures var c' := NextCancel(c, id, p);
            var (s', reply) := Cancel(c.limits, c.shared, id, p);
            && c'.shared == s' && c'.limits == c.limits && c'.threads == c.threads
            && c'.bound == (if s'.closed then c.bound else s'.records)
            && c'.names == (if |s'.heap| > |c.shared.heap| then c.names + [id] else c.names)
            && c'.history == c.history + CancelMarks(id, reply, |s'.heap| > |c.shared.heap|)
  {
    hide Cancel;
  }

  lemma CancelKeeps(c: Config, id: string, p: Option<string>, r: nat)
    requires SharedOk(c) && Scoped(c) && r < |c.shared.heap|
    ensures var c' := NextCancel(c, id, p); Before(c, c', r) && OwnerSafe(c, c', r) && WaiterSafe(c, c', r)
  {
    RecordFacts(c, r);
    CancelShape(c.limits, c.shared, id, p, r);
    CancelConfig(c, id, p);
    hide Cancel, NextCancel, SharedOk, Scoped, RecordOk, Fits;
    CancelMoves(c, NextCancel(c, id, p), r, id);
  }

  lemma CancelMoves(c: Config, c': Config, r: nat, id: string)
    requires r < |c.shared.heap| == |c.names| && Grows(c.shared, c'.shared, id)
    requires c'.names == if |c'.shared.heap| > |c.shared.heap| then c.names + [id] else c.names
    requires c'.bound == if c'.shared.closed then c.bound else c'.shared.records
    requires !c.shared.closed ==> c.bound == c.shared.records
    requires forall other <- c.bound | c.bound[other] == r ::
               c.names[r] == other && (Dead(c.shared.heap[r]) ==> c.shared.closed)
    requires var x, x' := c.shared.heap[r], c'.shared.heap[r];
             x' == x
             || (!c.shared.closed && id in c.shared.records && c.shared.records[id] == r && x.terminal.None?
                 && x'.terminal.Some? && x' == x.(wake := true, terminal := x'.terminal))
    ensures Before(c, c', r) && OwnerSafe(c, c', r) && WaiterSafe(c, c', r)
  {
  }

  lemma ReleaseConfig(c: Config, id: string)
    requires Scoped(c)
    ensures var c' := NextRelease(c, id);
            && c'.limits == c.limits && c'.threads == c.threads && c'.names == c.names
            && c'.shared == c.shared.(records := c'.shared.records)
            && (c'.shared.records == c.shared.records || c'.shared.records == c.shared.records - {id})
            && c'.bound == (if c.shared.closed then c.bound else c'.shared.records)
  {
  }

  lemma ReleaseKeeps(c: Config, id: string, r: nat)
    requires SharedOk(c) && Scoped(c) && r < |c.shared.heap|
    ensures var c' := NextRelease(c, id);
            && Before(c, c', r) && OwnerSafe(c, c', r)
            && (c.shared.heap[r].waiters > 0 ==> WaiterSafe(c, c', r))
  {
    assert RecordOk(c, r);
  }

  function Closed(c: Config): Config {
    After(c, Close(c.shared), "", c.threads, [])
  }

  lemma CloseKeeps(c: Config, r: nat)
    requires SharedOk(c) && Scoped(c) && r < |c.shared.heap|
    ensures var c' := Closed(c); Before(c, c', r) && OwnerSafe(c, c', r) && WaiterSafe(c, c', r)
  {
    assert RecordOk(c, r);
    if Current(c, c.names[r], r) && !c.shared.closed {
      assert c.shared.records[c.names[r]] in c.shared.records.Values;
    }
  }

  // ----- All threads, action by action -----

  ghost predicate Ready(c: Config, a: Action) {
    ThreadsOk(c) && SharedOk(c) && CountsOk(c) && OwnersOk(c) && Scoped(c) && Enabled(c, a)
  }

  lemma ReservedThreadOk(c: Config, t: nat)
    requires SharedOk(c) && Scoped(c) && Enabled(c, TryReserve(t)) && ThreadOk(c, c.threads[t])
    ensures ThreadOk(NextReserve(c, t), NextReserve(c, t).threads[t])
  {
    var c', th := NextReserve(c, t), c.threads[t];
    var reply := Reserve(c.limits, c.shared, th.id, th.digest).1;
    ReservationHolds(c.limits, c.shared, th.id, th.digest);
    ReserveConfig(c, t);
    ReserveStages(c, t);
    hide NextReserve, Reserve, RecordOk, Dead, Enabled, Scoped, OversizeFits;
    ReservationOk(c, c', th, c'.threads[t],
                  if reply.Owns? then reply.owned else if reply.Registered? then reply.waitsOn else 0);
  }

  lemma ReservationOk(c: Config, c': Config, th: Thread, th': Thread, r: nat)
    requires th.id != "" && th' == th.(stage := th'.stage) && SharedOk(c) && Grows(c.shared, c'.shared, th.id)
    requires c'.names == if |c'.shared.heap| > |c.shared.heap| then c.names + [th.id] else c.names
    requires c'.bound == if c'.shared.closed then c.bound else c'.shared.records
    requires th'.stage.Done() || th'.stage == Waiting(r) || th'.stage == Preparing(r)
    requires !th'.stage.Done() ==>
               && r < |c'.shared.heap| && c'.shared.heap[r].digest == Some(th.digest)
               && th.id in c'.shared.records && c'.shared.records[th.id] == r && !c'.shared.closed
               && c'.shared.heap[r].inFlight && c'.shared.heap[r].terminal.None?
    ensures ThreadOk(c', th')
  {
    hide OversizeFits, RecordOk, Dead;
  }

  /** The record a reservation names is the id's live record, in flight and without a terminal. */
  lemma ReservationHolds(l: Limits, s: Shared, id: string, digest: Digest)
    requires s.Scoped()
    ensures var (s', reply) := Reserve(l, s, id, digest);
            && Grows(s, s', id)
            && (reply.Registered? || reply.Owns? ==>
              var r := if reply.Owns? then reply.owned else reply.waitsOn;
              && r < |s'.heap| && s'.heap[r].digest == Some(digest)
              && id in s'.records && s'.records[id] == r && !s'.closed
              && s'.heap[r].inFlight && s'.heap[r].terminal.None?)
  {
    hide OversizeFits, LimitError;
  }

  lemma ReserveStages(c: Config, t: nat)
    requires Scoped(c) && t < |c.threads|
    ensures var th' := NextReserve(c, t).threads[t];
            && th' == c.threads[t].(stage := th'.stage)
            && match Reserve(c.limits, c.shared, c.threads[t].id, c.threads[t].digest).1
               case Registered(r) => th'.stage == Waiting(r)
               case Owns(r) => th'.stage == Preparing(r)
               case _ => th'.stage.Done()
  {
    hide Reserve;
  }

  /** One thread moved; the records under the others changed only as they tolerate. */
  lemma RestingThreads(c: Config, c': Config, t: nat)
    requires ThreadsOk(c) && OwnersOk(c) && t < |c.threads| == |c'.threads|
    requires forall i | 0 <= i < |c.threads| && i != t :: c'.threads[i] == c.threads[i]
    requires ThreadOk(c', c'.threads[t])
    requires forall r | 0 <= r < |c.shared.heap| ::
               && Before(c, c', r) && WaiterSafe(c, c', r)
               && (OwnerSafe(c, c', r) || OwnerOf(c, t, r))
    ensures ThreadsOk(c')
  {
    forall i | 0 <= i < |c'.threads|
      ensures ThreadOk(c', c'.threads[i])
    {
      assert ThreadOk(c, c.threads[i]);
      var stage := c.threads[i].stage;
      if i != t && (stage.Owner() || stage.Waits()) {
        assert Before(c, c', stage.on);
        if stage.Owner() {
          assert OwnerOf(c, i, stage.on);
        }
        ThreadKept(c, c', c.threads[i]);
      }
    }
  }

  lemma DoneThreadOk(c: Config, th: Thread, c': Config, th': Thread)
    requires ThreadOk(c, th) && th'.id == th.id && th'.stage.Done()
    ensures ThreadOk(c', th')
  {
  }

  lemma ThreadsAfterReserve(c: Config, t: nat)
    requires Ready(c, TryReserve(t))
    ensures ThreadsOk(NextReserve(c, t))
  {
    hide NextReserve, Reserve, Before, WaiterSafe, OwnerSafe, ThreadOk, RecordOk, OwnerOf, WaitersOn, OversizeFits;
    var c' := NextReserve(c, t);
    assert ThreadOk(c, c.threads[t]);
    forall r | 0 <= r < |c.shared.heap|
      ensures Before(c, c', r) && WaiterSafe(c, c', r) && OwnerSafe(c, c', r)
    {
      ReserveKeeps(c, t, r);
    }
    ReserveConfig(c, t);
    ReservedThreadOk(c, t);
    RestingThreads(c, c', t);
  }

  lemma ThreadsAfterLeave(c: Config, t: nat)
    requires Ready(c, Leave(t))
    ensures ThreadsOk(NextLeave(c, t))
  {
    var c' := NextLeave(c, t);
    LeaveConfig(c, t);
    hide NextLeave, Before, WaiterSafe, OwnerSafe, ThreadOk, RecordOk, OwnerOf, WaitersOn, OversizeFits;
    assert ThreadOk(c, c.threads[t]);
    forall r | 0 <= r < |c.shared.heap|
      ensures Before(c, c', r) && WaiterSafe(c, c', r) && OwnerSafe(c, c', r)
    {
      LeaveKeeps(c, t, r);
    }
    LeftThreadOk(c, c.threads[t], c', c'.threads[t]);
    RestingThreads(c, c', t);
  }

  lemma LeaveConfig(c: Config, t: nat)
    requires Scoped(c) && Enabled(c, Leave(t))
    ensures var c' := NextLeave(c, t);
            && |c'.threads| == |c.threads| && c'.threads[t].id == c.threads[t].id
            && (c'.threads[t].stage.Done() || c'.threads[t].stage == Reserving)
            && (forall i | 0 <= i < |c.threads| && i != t :: c'.threads[i] == c.threads[i])
  {
  }

  lemma LeftThreadOk(c: Config, th: Thread, c': Config, th': Thread)
    requires ThreadOk(c, th) && th'.id == th.id && (th'.stage.Done() || th'.stage == Reserving)
    ensures ThreadOk(c', th')
  {
  }

  lemma ThreadsAfterAbort(c: Config, t: nat)
    requires Ready(c, Abort(t))
    ensures ThreadsOk(NextAbort(c, t))
  {
    var c' := NextAbort(c, t);
    assert c.threads[t].stage.Owner();
    AbortConfig(c, t);
    hide NextAbort, ReleasePreDispatch, Before, WaiterSafe, OwnerSafe, ThreadOk, RecordOk, WaitersOn, OversizeFits;
    assert ThreadOk(c, c.threads[t]);
    forall r | 0 <= r < |c.shared.heap|
      ensures Before(c, c', r) && WaiterSafe(c, c', r) && (OwnerSafe(c, c', r) || OwnerOf(c, t, r))
    {
      AbortKeeps(c, t, r);
    }
    DoneThreadOk(c, c.threads[t], c', c'.threads[t]);
    RestingThreads(c, c', t);
  }

  lemma ThreadsAfterCommit(c: Config, t: nat)
    requires Ready(c, Commit(t))
    ensures ThreadsOk(NextCommit(c, t))
  {
    var c' := NextCommit(c, t);
    assert c.threads[t].stage.Owner();
    CommitConfig(c, t);
    hide NextCommit, Complete, Before, WaiterSafe, OwnerSafe, ThreadOk, RecordOk, WaitersOn, OversizeFits;
    assert ThreadOk(c, c.threads[t]);
    forall r | 0 <= r < |c.shared.heap|
      ensures Before(c, c', r) && WaiterSafe(c, c', r) && (OwnerSafe(c, c', r) || OwnerOf(c, t, r))
    {
      CommitKeeps(c, t, r);
    }
    DoneThreadOk(c, c.threads[t], c', c'.threads[t]);
    RestingThreads(c, c', t);
  }

  lemma ThreadsAfterCancel(c: Config, id: string, p: Option<string>)
    requires Ready(c, CancelCall(id, p))
    ensures ThreadsOk(NextCancel(c, id, p))
  {
    var c' := NextCancel(c, id, p);
    forall i | 0 <= i < |c'.threads|
      ensures ThreadOk(c', c'.threads[i])
    {
      assert ThreadOk(c, c.threads[i]);
      if c.threads[i].stage.Owner() || c.threads[i].stage.Waits() {
        CancelKeeps(c, id, p, c.threads[i].stage.on);
        ThreadKept(c, c', c.threads[i]);
      }
    }
  }

  lemma ThreadsAfterRelease(c: Config, id: string)
    requires Ready(c, ReleaseCall(id))
    ensures ThreadsOk(NextRelease(c, id))
  {
    var c' := NextRelease(c, id);
    forall i | 0 <= i < |c'.threads|
      ensures ThreadOk(c', c'.threads[i])
    {
      assert ThreadOk(c, c.threads[i]);
      if c.threads[i].stage.Owner() || c.threads[i].stage.Waits() {
        ReleaseKeeps(c, id, c.threads[i].stage.on);
        if c.threads[i].stage.Waits() { WaiterCounted(c.threads, i); }
        ThreadKept(c, c', c.threads[i]);
      }
    }
  }

  lemma ThreadsAfterClose(c: Config)
    requires Ready(c, CloseCall)
    ensures ThreadsOk(Closed(c))
  {
    var c' := Closed(c);
    forall i | 0 <= i < |c'.threads|
      ensures ThreadOk(c', c'.threads[i])
    {
      assert ThreadOk(c, c.threads[i]);
      if c.threads[i].stage.Owner() || c.threads[i].stage.Waits() {
        CloseKeeps(c, c.threads[i].stage.on);
        ThreadKept(c, c', c.threads[i]);
      }
    }
  }

  /** Moves that leave the shared state alone. */
  predicate Walks(a: Action) {
    a.Enter? || a.WakeUp? || a.Read? || a.FailPreparing? || a.Interrupt? || a.CallBinding? || a.Finish?
  }

  /** Where such a move leads. */
  ghost function Onward(c: Config, a: Action): Stage
    requires Scoped(c) && Enabled(c, a) && Walks(a)
  {
    var th := c.threads[a.t];
    match a
    case Enter(_) => if c.shared.closed then Raised(SessionClosed) else Reserving
    case WakeUp(_) => Woken(th.stage.on)
    case Read(_) => Leaving(th.stage.on, ReadRecord(c.shared, th.stage.on))
    case FailPreparing(_, code) => Aborting(th.stage.on, code)
    case Interrupt(_) => Escaped
    case CallBinding(_) => Dispatched(th.stage.on)
    case Finish(_, stream) =>
      match Evaluate(th.id, th.provenance, stream)
      case Some(verdict) => Completing(th.stage.on, verdict)
      case None => Escaped
  }

  lemma WalkShape(c: Config, a: Action)
    requires Scoped(c) && Enabled(c, a) && Walks(a)
    ensures Next(c, a) == c.(threads := Moved(c.threads, a.t, Onward(c, a)), history := Next(c, a).history)
    ensures c.history <= Next(c, a).history
  {
  }

  lemma OnwardOk(c: Config, a: Action)
    requires Ready(c, a) && Walks(a)
    ensures ThreadOk(c, c.threads[a.t].(stage := Onward(c, a)))
  {
    hide Evaluate, IsTerminal, ValidEvent, OversizeFits;
    var th := c.threads[a.t];
    assert ThreadOk(c, th);
    match a
    case Read(_) => assert RecordOk(c, th.stage.on);
    case Finish(_, stream) => VerdictIsOk(th.id, th.provenance, stream);
    case _ =>
  }

  lemma VerdictIsOk(id: string, provenance: Option<string>, stream: Stream)
    requires id != ""
    ensures match Evaluate(id, provenance, stream) case Some(verdict) => VerdictOk(id, verdict) case None => true
  {
    if Evaluate(id, provenance, stream).Some? {
      CandidateIsAValidTerminal(id, provenance, stream);
    }
  }

  lemma ThreadsAfterWalk(c: Config, a: Action)
    requires Ready(c, a) && Walks(a)
    ensures ThreadsOk(Next(c, a))
  {
    var c' := Next(c, a);
    WalkShape(c, a);
    OnwardOk(c, a);
    forall i | 0 <= i < |c'.threads|
      ensures ThreadOk(c', c'.threads[i])
    {
      assert ThreadOk(c, c.threads[i]);
      assert ThreadOk(c, c'.threads[i]);
    }
  }

  lemma ThreadsKept(c: Config, a: Action)
    requires Ready(c, a)
    ensures ThreadsOk(Next(c, a))
  {
    hide Ready, ThreadsOk;
    match a
    case TryReserve(t) => ThreadsAfterReserve(c, t);
    case Leave(t) => ThreadsAfterLeave(c, t);
    case Abort(t) => ThreadsAfterAbort(c, t);
    case Commit(t) => ThreadsAfterCommit(c, t);
    case CancelCall(id, p) => ThreadsAfterCancel(c, id, p);
    case ReleaseCall(id) => ThreadsAfterRelease(c, id);
    case CloseCall => ThreadsAfterClose(c);
    case Call(_, _, _) => ThreadsAfterCall(c, a);
    case Peek(id) => ThreadsAfterPeek(c, id);
    case _ => ThreadsAfterWalk(c, a);
  }

  lemma ThreadsAfterCall(c: Config, a: Action)
    requires Ready(c, a) && a.Call?
    ensures ThreadsOk(Next(c, a))
  {
    var c' := Next(c, a);
    forall i | 0 <= i < |c'.threads|
      ensures ThreadOk(c', c'.threads[i])
    {
      if i < |c.threads| {
        assert ThreadOk(c, c.threads[i]);
      }
    }
  }

  lemma ThreadsAfterPeek(c: Config, id: string)
    requires Ready(c, Peek(id))
    ensures ThreadsOk(Next(c, Peek(id)))
  {
    var c' := Next(c, Peek(id));
    forall i | 0 <= i < |c'.threads|
      ensures ThreadOk(c', c'.threads[i])
    {
      assert ThreadOk(c, c.threads[i]);
    }
  }

  lemma OneOwner(c: Config, t: nat, i: nat)
    requires OwnersOk(c) && t < |c.threads| && i < |c.threads| && i != t
    requires c.threads[t].stage.Owner() && c.threads[i].stage.Owner()
    ensures c.threads[i].stage.on != c.threads[t].stage.on
  {
    assert OwnerOf(c, t, c.threads[t].stage.on);
    assert c.threads[i].stage.on == c.threads[t].stage.on ==> OwnerOf(c, i, c.threads[t].stage.on);
  }

  lemma {:induction false} WaiterCounted(threads: seq<Thread>, i: nat)
    requires i < |threads| && threads[i].stage.Waits()
    ensures WaitersOn(threads, threads[i].stage.on) > 0
  {
    if i < |threads| - 1 {
      WaiterCounted(threads[..|threads| - 1], i);
    }
  }
}
