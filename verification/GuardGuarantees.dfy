/** What the session guard guarantees in every reachable state, over every interleaving of
    `invoke`, `cancel`, `release`, `close` and `terminal_for` calls. */
module GuardGuarantees {
  import opened Wrappers
  import opened NeutralContract
  import opened EventLoop
  import opened GuardState
  import opened GuardMachine
  import opened GuardThreads
  import opened GuardCounts
  import opened GuardOwners
  import opened GuardHistory
  import opened GuardRuns
  import opened GuardOffers

  /** Between two binding calls for an id, the id was released or its record was orphaned; and
      while a cancellation that came before any reservation is in force there is none. */
  lemma AtMostOneDispatch(l: Limits, c: Config, i: int, j: int)
    requires Reachable(l, c) && 0 <= i < j < |c.history| && c.history[j].Dispatch?
    ensures c.history[i] == c.history[j] ==>
              exists k | i < k < j :: c.history[k] == Freed(c.history[j].id) || c.history[k] == Orphaned(c.history[j].id)
    ensures c.history[i] == CancelledFirst(c.history[j].id) ==> exists k | i < k < j :: c.history[k] == Freed(c.history[j].id)
  {
    ReachableInv(l, c);
    assert Compatible(c.history, i, j);
  }

  /** A run whose streams and cancels offer the id only terminals that can be sized calls the
      id's binding at most once between two releases. */
  lemma SizableRunsDispatchOnce(l: Limits, actions: seq<Action>, c: Config, i: int, j: int)
    requires Steps(Init(l), actions, c) && 0 <= i < j < |c.history|
    requires c.history[i].Dispatch? && c.history[j] == c.history[i] && !OffersUnsizable(l, actions, c.history[i].id)
    ensures exists k | i < k < j :: c.history[k] == Freed(c.history[j].id)
  {
    RunIsTraced(l, actions, c);
    AtMostOneDispatch(l, c, i, j);
  }

  /** All callers answered for an id without a release in between were given the same
      terminal, and those of them that called `invoke` sent the same content. */
  lemma Agreement(l: Limits, c: Config, i: int, j: int)
    requires Reachable(l, c) && 0 <= i < j < |c.history|
    requires c.history[i].Answered? && c.history[j].Answered? && c.history[i].id == c.history[j].id
    requires forall k | i < k < j :: c.history[k] != Freed(c.history[i].id)
    ensures c.history[i].terminal == c.history[j].terminal
    ensures c.history[i].digest.Some? && c.history[j].digest.Some? ==> c.history[i].digest == c.history[j].digest
  {
    ReachableInv(l, c);
    assert Compatible(c.history, i, j);
  }

  /** The history misses no answer: a call that returns adds its last event in the same step. */
  lemma ReturnsAreRecorded(l: Limits, c: Config, a: Action)
    requires Reachable(l, c) && Scoped(c) && Enabled(c, a) && a.OfThread()
    ensures Recorded(c, Next(c, a), a.t)
  {
    ReachableInv(l, c);
    var th := c.threads[a.t];
    assert ThreadOk(c, th);
    match a
    case Commit(t) => CommitStores(c.limits, c.shared, th.id, th.stage.on, th.stage.verdict); CommitReturns(c, t);
    case TryReserve(t) => ReserveReturns(c, t);
    case Leave(t) => LeaveReturns(c, t);
    case Abort(t) => AbortReturns(c, t);
    case _ => WalkDoesNotReturn(c, a);
  }

  ghost predicate Recorded(c: Config, c': Config, t: nat)
    requires t < |c.threads|
  {
    && |c'.threads| == |c.threads|
    && (c'.threads[t].stage.Returned? ==>
          && c'.threads[t].stage.events != []
          && c'.history == c.history + [Answered(c.threads[t].id, Some(c.threads[t].digest), Last(c'.threads[t].stage.events))])
  }

  lemma CommitReturns(c: Config, t: nat)
    requires Scoped(c) && Enabled(c, Commit(t))
    requires var th := c.threads[t];
             var reply := Complete(c.limits, c.shared, th.id, th.stage.on, th.stage.verdict).1;
             reply.Answer? ==> reply.events != []
    ensures Recorded(c, NextCommit(c, t), t)
  {
  }

  lemma ReserveReturns(c: Config, t: nat)
    requires Scoped(c) && Enabled(c, TryReserve(t))
    ensures Recorded(c, NextReserve(c, t), t)
  {
  }

  lemma LeaveReturns(c: Config, t: nat)
    requires Scoped(c) && Enabled(c, Leave(t))
    ensures Recorded(c, NextLeave(c, t), t)
  {
  }

  lemma AbortReturns(c: Config, t: nat)
    requires Scoped(c) && Enabled(c, Abort(t))
    ensures Recorded(c, NextAbort(c, t), t)
  {
  }

  lemma WalkDoesNotReturn(c: Config, a: Action)
    requires Scoped(c) && Enabled(c, a) && Walks(a)
    ensures |Next(c, a).threads| == |c.threads| && !Next(c, a).threads[a.t].stage.Returned?
  {
  }

  /** A terminal once written is never rewritten, a digest once bound never rebound, and a
      set wake flag never cleared. */
  lemma {:induction false} WriteOnce(l: Limits, c: Config, actions: seq<Action>, c': Config, r: nat)
    requires Reachable(l, c) && Steps(c, actions, c') && r < |c.shared.heap|
    ensures r < |c'.shared.heap|
    ensures c.shared.heap[r].terminal.Some? ==> c'.shared.heap[r].terminal == c.shared.heap[r].terminal
    ensures c.shared.heap[r].digest.Some? ==> c'.shared.heap[r].digest == c.shared.heap[r].digest
    ensures c.shared.heap[r].wake ==> c'.shared.heap[r].wake
    decreases |actions|
  {
    if actions != [] {
      ReachableInv(l, c);
      RecordEvolves(c, actions[0], r);
      ReachableNext(l, c, actions[0]);
      WriteOnce(l, Next(c, actions[0]), actions[1..], c', r);
    }
  }

  lemma ReachableNext(l: Limits, c: Config, a: Action)
    requires Reachable(l, c) && Scoped(c) && Enabled(c, a)
    ensures Reachable(l, Next(c, a))
  {
    var before :| Steps(Init(l), before, c);
    assert Steps(Next(c, a), [a][1..], Next(c, a));
    assert Steps(c, [a], Next(c, a));
    StepsConcat(Init(l), before, c, [a], Next(c, a));
  }

  lemma RecordEvolves(c: Config, a: Action, r: nat)
    requires Inv(c) && Scoped(c) && Enabled(c, a) && r < |c.shared.heap|
    ensures Before(c, Next(c, a), r)
  {
    EverythingReady(c, a);
    match a
    case TryReserve(t) => ReserveKeeps(c, t, r);
    case Leave(t) => LeaveKeeps(c, t, r);
    case Abort(t) => AbortKeeps(c, t, r);
    case Commit(t) => CommitKeeps(c, t, r);
    case CancelCall(id, p) => CancelKeeps(c, id, p, r);
    case ReleaseCall(id) => ReleaseKeeps(c, id, r);
    case CloseCall => CloseKeeps(c, r);
    case Call(_, _, _) => Untouched(c, Next(c, a), r);
    case Peek(_) => Untouched(c, Next(c, a), r);
    case _ => WalkShape(c, a); Untouched(c, Next(c, a), r);
  }

  lemma Untouched(c: Config, c': Config, r: nat)
    requires SharedOk(c) && r < |c.shared.heap|
    requires c'.shared == c.shared && c'.bound == c.bound && c'.names == c.names
    ensures Before(c, c', r)
  {
  }

  /** Waiter counts are exact for every record ever created, live or not. */
  lemma WaiterCountsAreExact(l: Limits, c: Config, r: nat)
    requires Reachable(l, c) && r < |c.shared.heap|
    ensures c.shared.heap[r].waiters == WaitersOn(c.threads, r)
  {
    ReachableInv(l, c);
  }

  /** So the count never underflows; and a reservation takes over a live record only when that
      record was orphaned: idle, unanswered and asleep. Otherwise owning means having created. */
  lemma DefensiveBranches(l: Limits, c: Config, t: nat)
    requires Reachable(l, c) && t < |c.threads|
    ensures c.threads[t].stage.Leaving? ==>
              c.threads[t].stage.on < |c.shared.heap| && Unregister(c.shared, c.threads[t].stage.on).1
    ensures c.threads[t].stage.Reserving? ==>
              c.shared.Scoped() &&
              match Reserve(c.limits, c.shared, c.threads[t].id, c.threads[t].digest).1
              case Owns(r) =>
                if r == |c.shared.heap| then c.threads[t].id !in c.shared.records
                else r < |c.shared.heap| && Idle(c.shared.heap[r]) && !c.shared.heap[r].wake
                     && Orphaned(c.threads[t].id) in c.history
              case _ => true
  {
    ReachableInv(l, c);
    if c.threads[t].stage.Leaving? {
      CountsAfterLeave(c, t);
    }
    if c.threads[t].stage.Reserving? {
      TakesOver(c, t);
    }
  }

  lemma TakesOver(c: Config, t: nat)
    requires Inv(c) && Scoped(c) && t < |c.threads| && c.threads[t].stage.Reserving?
    ensures match Reserve(c.limits, c.shared, c.threads[t].id, c.threads[t].digest).1
            case Owns(r) =>
              if r == |c.shared.heap| then c.threads[t].id !in c.shared.records
              else r < |c.shared.heap| && Idle(c.shared.heap[r]) && !c.shared.heap[r].wake
                   && Orphaned(c.threads[t].id) in c.history
            case _ => true
  {
    var th := c.threads[t];
    ReserveFlight(c.limits, c.shared, th.id, th.digest);
    OwnsNew(c.limits, c.shared, th.id, th.digest);
    var reply := Reserve(c.limits, c.shared, th.id, th.digest).1;
    hide Reserve, ThreadsOk, CountsOk, HistoryOk, RecordsOk, OversizeFits;
    if reply.Owns? && reply.owned < |c.shared.heap| {
      assert Accounted(c, th.id, reply.owned);
      assert Dead(c.shared.heap[c.bound[th.id]]) ==> c.shared.closed;
    }
  }

  lemma OwnsNew(l: Limits, s: Shared, id: string, digest: Digest)
    requires s.Scoped()
    ensures match Reserve(l, s, id, digest).1
            case Owns(r) => r == |s.heap| ==> id !in s.records
            case _ => true
    ensures match Reserve(l, s, id, digest).1 case Owns(r) => r <= |s.heap| case _ => true
  {
    hide OversizeFits, LimitError;
  }

  /** A release removes no record that some call still owns or waits on. */
  lemma ReleaseIsSafe(l: Limits, c: Config, id: string, t: nat)
    requires Reachable(l, c) && t < |c.threads|
    ensures c.shared.Scoped()
    ensures Release(c.shared, id).1 == Released && (c.threads[t].stage.Owner() || c.threads[t].stage.Waits()) ==>
              id in c.shared.records && c.threads[t].stage.on != c.shared.records[id]
  {
    ReachableInv(l, c);
    assert ThreadOk(c, c.threads[t]);
    if c.threads[t].stage.Waits() {
      WaiterCounted(c.threads, t);
    }
  }

  /** The dictionary respects its capacity and every stored terminal the byte limit; since the
      sanitized replacement was checked before insertion, bounding a terminal of a retained id
      raises if and only if that terminal cannot be sized. */
  lemma RetentionIsBounded(l: Limits, c: Config, r: nat, id: string, candidate: Event)
    requires Reachable(l, c) && candidate.requestId == id
    ensures |c.shared.records| <= l.maxRetained
    ensures r < |c.shared.heap| && c.shared.heap[r].terminal.Some? ==> Fits(l, c.shared.heap[r].terminal.value)
    ensures id in c.shared.records ==> (Bounded(l, candidate).Ok? <==> l.size(candidate).Some?)
  {
    ReachableInv(l, c);
    if r < |c.shared.heap| {
      assert RecordOk(c, r);
    }
  }

  // ----- No waiter is stranded -----

  ghost predicate Asleep(c: Config, i: int) {
    && 0 <= i < |c.threads| && c.threads[i].stage.Waiting?
    && c.threads[i].stage.on < |c.shared.heap| && !c.shared.heap[c.threads[i].stage.on].wake
  }

  /** A sleeping waiter's record is its id's live one, unanswered, in an open guard, and at most
      one call owns it. A record in flight is owned, so that its owner has to wake the waiter, if
      and only if the run lost no owner of the id; a record out of flight is owned by nobody, and
      the run offered the id a terminal that cannot be sized. */
  lemma SleepingWaiters(l: Limits, actions: seq<Action>, c: Config, i: int)
    requires Steps(Init(l), actions, c) && Asleep(c, i)
    ensures var r, id := c.threads[i].stage.on, c.threads[i].id;
            && !c.shared.closed && id in c.shared.records && c.shared.records[id] == r && c.shared.heap[r].terminal.None?
            && (forall j, k | OwnerOf(c, j, r) && OwnerOf(c, k, r) :: j == k)
            && (if c.shared.heap[r].inFlight then Owned(c, r) <==> !LosesOwner(actions, id)
                else !Owned(c, r) && OffersUnsizable(l, actions, id))
  {
    RunIsTraced(l, actions, c);
    ReachableInv(l, c);
    assert ThreadOk(c, c.threads[i]);
    SleepersRecord(c, i);
    hide Inv, Reachable;
    var r, id := c.threads[i].stage.on, c.threads[i].id;
    LossesAreActions(l, actions, c, id);
    if !c.shared.heap[r].inFlight {
      OrphansAreOffered(l, actions, c, id);
    }
  }

  lemma SleepersRecord(c: Config, i: int)
    requires Inv(c) && Asleep(c, i)
    ensures var r, id := c.threads[i].stage.on, c.threads[i].id;
            && !c.shared.closed && id in c.shared.records && c.shared.records[id] == r && c.shared.heap[r].terminal.None?
            && (forall j, k | OwnerOf(c, j, r) && OwnerOf(c, k, r) :: j == k)
            && (if c.shared.heap[r].inFlight then
                  Owned(c, r) <==> !exists q: nat :: Abandoned(q) in c.history && q < |c.names| && c.names[q] == id
                else (forall j :: !OwnerOf(c, j, r)) && Orphaned(id) in c.history)
  {
    hide CountsOk, HistoryOk, RecordsOk;
    var r, id := c.threads[i].stage.on, c.threads[i].id;
    assert ThreadOk(c, c.threads[i]);
    assert Accounted(c, id, r);
    forall j ensures !c.shared.heap[r].inFlight ==> !OwnerOf(c, j, r) {
      if !c.shared.heap[r].inFlight { NobodyOwnsIdle(c, r, j); }
    }
    forall q: nat | Abandoned(q) in c.history && q < |c.names| && c.names[q] == id
      ensures q == r
    {
      assert Lost(c, q);
    }
    if Owned(c, r) {
      var j :| OwnerOf(c, j, r);
      assert Abandoned(r) !in c.history;
    }
  }

  /** So no waiter is stranded in a run that loses no owner of its id and offers the id only
      terminals that can be sized: exactly one live call has to wake it. */
  lemma NoWaiterIsStranded(l: Limits, actions: seq<Action>, c: Config, i: int)
    requires Steps(Init(l), actions, c) && Asleep(c, i)
    requires !LosesOwner(actions, c.threads[i].id) && !OffersUnsizable(l, actions, c.threads[i].id)
    ensures exists j :: OwnerOf(c, j, c.threads[i].stage.on)
                        && forall k | OwnerOf(c, k, c.threads[i].stage.on) :: k == j
  {
    SleepingWaiters(l, actions, c, i);
    var j :| OwnerOf(c, j, c.threads[i].stage.on);
  }

  // ----- The failing runs -----

  /** A stream that strands a second caller: the owner is lost, or its record orphaned. */
  ghost predicate Strands(l: Limits, id: string, stream: Stream) {
    Unreportable(id, stream) || UnsizableOffer(l, id, None, stream)
  }

  /** Two calls of one request, of which the first dispatches and its binding answers with
      `stream`: afterwards the second sleeps, and no call can take a step, if and only if the
      stream is unreportable or leads to a terminal that cannot be sized. Only a cancel of the
      id or a close still wakes it. */
  lemma SecondCallerStrandedIff(l: Limits, id: string, digest: Digest, stream: Stream) returns (c: Config)
    requires id != "" && l.maxRetained > 0 && OversizeFits(l, id)
    ensures Reachable(l, c) && |c.threads| == 2 && c.threads[0].stage.Done() && Dispatch(id) in c.history
    ensures (Asleep(c, 1) && forall a: Action | a.OfThread() :: !Enabled(c, a)) <==> Strands(l, id, stream)
  {
    var verdict := Evaluate(id, None, stream);
    NoVerdictIff(id, None, stream);
    var record := Record(Some(digest), true, 1, false, None);
    c := AfterDispatch(l, id, digest);
    if verdict.None? {
      c := LoseOwner(l, id, digest, stream, c);
    } else {
      c := AnswersOrOrphans(l, id, digest, stream, c);
      if Strands(l, id, stream) {
        NothingMoves(c);
      } else {
        assert Enabled(c, WakeUp(1)) && WakeUp(1).OfThread();
      }
    }
  }

  lemma AfterDispatch(l: Limits, id: string, digest: Digest) returns (c: Config)
    requires id != "" && l.maxRetained > 0 && OversizeFits(l, id)
    ensures Reachable(l, c) && Scoped(c)
    ensures c == TwoCalls(l, id, digest, Dispatched(0), Waiting(0), [Record(Some(digest), true, 1, false, None)], [Dispatch(id)])
  {
    c := TwoReserve(l, id, digest);
    c := Extend(l, c, CallBinding(0));
  }

  lemma LoseOwner(l: Limits, id: string, digest: Digest, stream: Stream, before: Config) returns (c: Config)
    requires Reachable(l, before) && Scoped(before) && Evaluate(id, None, stream).None?
    requires before ==
               TwoCalls(l, id, digest, Dispatched(0), Waiting(0), [Record(Some(digest), true, 1, false, None)], [Dispatch(id)])
    ensures Reachable(l, c) && |c.threads| == 2 && c.threads[0].stage.Done() && Dispatch(id) in c.history
    ensures Asleep(c, 1) && forall a: Action | a.OfThread() :: !Enabled(c, a)
  {
    hide Evaluate;
    c := Extend(l, before, Finish(0, stream));
    assert c == TwoCalls(l, id, digest, Escaped, Waiting(0), [Record(Some(digest), true, 1, false, None)],
                         [Dispatch(id), Abandoned(0)]);
    assert c.history[0] == Dispatch(id);
    NothingMoves(c);
  }

  /** Neither a finished call nor one asleep can take a step. */
  lemma NothingMoves(c: Config)
    requires |c.threads| == 2 && c.threads[0].stage.Done() && Asleep(c, 1)
    ensures forall a: Action | a.OfThread() :: !Enabled(c, a)
  {
    forall a: Action | a.OfThread()
      ensures !Enabled(c, a)
    {
      assert a.t == 0 || a.t == 1 || a.t >= 2;
    }
  }

  /** The owner completes: its record is answered and woken, or orphaned. */
  lemma AnswersOrOrphans(l: Limits, id: string, digest: Digest, stream: Stream, before: Config) returns (c: Config)
    requires id != "" && OversizeFits(l, id) && Evaluate(id, None, stream).Some?
    requires Reachable(l, before) && Scoped(before)
    requires before ==
               TwoCalls(l, id, digest, Dispatched(0), Waiting(0), [Record(Some(digest), true, 1, false, None)], [Dispatch(id)])
    ensures Reachable(l, c) && Scoped(c) && |c.threads| == 2 && c.threads[0].stage.Done() && Dispatch(id) in c.history
    ensures c.threads[1].stage == Waiting(0) && |c.shared.heap| == 1
    ensures c.shared.heap[0].wake <==> !UnsizableOffer(l, id, None, stream)
    ensures UnsizableOffer(l, id, None, stream) ==>
              c == TwoCalls(l, id, digest, Raised(SizeFailure), Waiting(0), [Record(Some(digest), false, 1, false, None)],
                            [Dispatch(id), Orphaned(id)])
  {
    var verdict := Evaluate(id, None, stream).value;
    CandidateIsAValidTerminal(id, None, stream);
    hide Evaluate, ValidEvent, IsTerminal;
    c := Extend(l, before, Finish(0, stream));
    assert c == TwoCalls(l, id, digest, Completing(0, verdict), Waiting(0), [Record(Some(digest), true, 1, false, None)],
                         [Dispatch(id)]);
    c := Commits(l, id, digest, verdict, c);
  }

  lemma Commits(l: Limits, id: string, digest: Digest, verdict: Verdict, before: Config) returns (c: Config)
    requires id != "" && OversizeFits(l, id) && verdict.candidate.requestId == id
    requires Reachable(l, before) && Scoped(before)
    requires before == TwoCalls(l, id, digest, Completing(0, verdict), Waiting(0),
                                [Record(Some(digest), true, 1, false, None)], [Dispatch(id)])
    ensures Reachable(l, c) && Scoped(c) && |c.threads| == 2 && c.threads[0].stage.Done() && Dispatch(id) in c.history
    ensures c.threads[1].stage == Waiting(0) && |c.shared.heap| == 1
    ensures c.shared.heap[0].wake <==> l.size(verdict.candidate).Some?
    ensures l.size(verdict.candidate).None? ==>
              c == TwoCalls(l, id, digest, Raised(SizeFailure), Waiting(0), [Record(Some(digest), false, 1, false, None)],
                            [Dispatch(id), Orphaned(id)])
  {
    assert before.shared.records[id] == 0;
    c := Extend(l, before, Commit(0));
    CompleteShape(l, before.shared, id, 0, verdict);
    CommitConfig(before, 0);
    SizedCompletes(l, before.shared, id, 0, verdict);
    hide NextCommit, Complete, OversizeFits, Fits;
    assert c.history[0] == Dispatch(id);
    if l.size(verdict.candidate).None? {
      RefusedCommit(before, 0);
    }
  }

  lemma RefusedCommit(c: Config, t: nat)
    requires Scoped(c) && Enabled(c, Commit(t))
    ensures var th := c.threads[t];
            match Complete(c.limits, c.shared, th.id, th.stage.on, th.stage.verdict).1
            case CompleteRefused(code) => NextCommit(c, t).threads == Moved(c.threads, t, Raised(code))
            case _ => true
  {
    hide Complete;
  }

  lemma SizedCompletes(l: Limits, s: Shared, id: string, r: nat, v: Verdict)
    requires r < |s.heap| && !s.closed && id in s.records && s.records[id] == r && s.heap[r].terminal.None?
    requires v.candidate.requestId == id && OversizeFits(l, id)
    ensures Complete(l, s, id, r, v).0.heap[r].terminal.Some? <==> l.size(v.candidate).Some?
  {
  }

  // ----- At most once, exactly -----

  /** Every valid terminal of the id can be sized. */
  ghost predicate Sizable(l: Limits, id: string) {
    forall e: Event | IsTerminal(e) && ValidEvent(e) && e.requestId == id :: l.size(e).Some?
  }

  /** Some reachable history calls the id's binding twice with no release in between. */
  ghost predicate DispatchesTwice(l: Limits, id: string) {
    exists c, i, j :: TwiceIn(l, c, id, i, j)
  }

  ghost predicate TwiceIn(l: Limits, c: Config, id: string, i: int, j: int) {
    && Reachable(l, c) && 0 <= i < j < |c.history| && c.history[i] == c.history[j] == Dispatch(id)
    && forall k | i < k < j :: c.history[k] != Freed(id)
  }

  /** At most one binding call between releases, for exactly the ids all of whose valid
      terminals can be sized. */
  lemma AtMostOnceIffSizable(l: Limits, id: string)
    requires id != "" && l.maxRetained > 0 && OversizeFits(l, id)
    ensures !DispatchesTwice(l, id) <==> Sizable(l, id)
  {
    if DispatchesTwice(l, id) && Sizable(l, id) {
      var c, i, j :| TwiceIn(l, c, id, i, j);
      var actions :| Steps(Init(l), actions, c);
      SizableOffers(l, actions, id);
      SizableRunsDispatchOnce(l, actions, c, i, j);
    }
    if !Sizable(l, id) {
      var e: Event :| IsTerminal(e) && ValidEvent(e) && e.requestId == id && l.size(e).None?;
      OneEventIsOffered(id, e);
      var c := Redispatched(l, id, "", OneEvent(e));
      assert c.history[0] == Dispatch(id) == c.history[2] && c.history[1] == Orphaned(id);
      assert TwiceIn(l, c, id, 0, 2);
    }
  }

  function OneEvent(e: Event): Stream {
    Stream([Shaped(e)], Finished)
  }

  lemma OneEventIsOffered(id: string, e: Event)
    requires IsTerminal(e) && ValidEvent(e) && e.requestId == id
    ensures Evaluate(id, None, OneEvent(e)).Some? && Evaluate(id, None, OneEvent(e)).value.candidate == e
  {
    hide ValidEvent;
    assert TerminalAt(OneEvent(e).items, 0);
    OffersExactlyTheGrammar(id, None, OneEvent(e));
  }

  lemma SizableOffers(l: Limits, actions: seq<Action>, id: string)
    requires Sizable(l, id) && id != ""
    ensures !OffersUnsizable(l, actions, id)
  {
    forall k ensures !OffersAt(l, actions, k, id) {
      if 0 <= k < |actions| {
        match actions[k]
        case Finish(t, stream) =>
          if IsCaller(actions, t, id) { SizableOffer(l, id, Callers(actions)[t].provenance, stream); }
        case CancelCall(other, provenance) =>
          assert CancelEvent(id, provenance).requestId == id && ValidEvent(CancelEvent(id, provenance));
        case _ =>
      }
    }
  }

  lemma SizableOffer(l: Limits, id: string, provenance: Option<string>, stream: Stream)
    requires Sizable(l, id) && id != ""
    ensures !UnsizableOffer(l, id, provenance, stream)
  {
    if Evaluate(id, provenance, stream).Some? {
      CandidateIsAValidTerminal(id, provenance, stream);
    }
  }

  /** The run: the first caller's terminal cannot be sized, and a later call with the same
      content finds the orphaned record. */
  lemma FindsOrphan(l: Limits, id: string, digest: Digest, stream: Stream) returns (c: Config)
    requires id != "" && l.maxRetained > 0 && OversizeFits(l, id) && UnsizableOffer(l, id, None, stream)
    ensures Reachable(l, c) && Scoped(c) && c.history == [Dispatch(id), Orphaned(id)]
    ensures |c.threads| == 3 && c.threads[2].id == id && Enabled(c, TryReserve(2)) && TakesOverAt(c, id, 2)
    ensures NextReserve(c, 2).threads[2].stage == Preparing(0) && NextReserve(c, 2).history == c.history
  {
    c := AfterDispatch(l, id, digest);
    c := AnswersOrOrphans(l, id, digest, stream, c);
    hide UnsizableOffer;
    c := Extend(l, c, Action.Call(id, digest, None));
    c := Extend(l, c, Enter(2));
  }

  /** It takes the record over and dispatches again. */
  lemma Redispatched(l: Limits, id: string, digest: Digest, stream: Stream) returns (c: Config)
    requires id != "" && l.maxRetained > 0 && OversizeFits(l, id) && UnsizableOffer(l, id, None, stream)
    ensures Reachable(l, c) && c.history == [Dispatch(id), Orphaned(id), Dispatch(id)]
  {
    c := FindsOrphan(l, id, digest, stream);
    hide NextReserve, UnsizableOffer;
    c := Extend(l, c, TryReserve(2));
    c := Extend(l, c, CallBinding(2));
  }

  /** Thread `t` reserves `id` and will be given a record that already exists. */
  ghost predicate TakesOverAt(c: Config, id: string, t: nat) {
    && Scoped(c) && t < |c.threads| && c.threads[t].stage.Reserving? && c.threads[t].id == id
    && var reply := Reserve(c.limits, c.shared, id, c.threads[t].digest).1;
       reply.Owns? && reply.owned < |c.shared.heap|
  }

  /** The branch that takes over a live idle record is dead for exactly the same ids. */
  lemma TakeOverIffUnsizable(l: Limits, id: string)
    requires id != "" && l.maxRetained > 0 && OversizeFits(l, id)
    ensures (exists c, t :: Reachable(l, c) && TakesOverAt(c, id, t)) <==> !Sizable(l, id)
  {
    if c, t :| Reachable(l, c) && TakesOverAt(c, id, t) {
      DefensiveBranches(l, c, t);
      var actions :| Steps(Init(l), actions, c);
      OrphansAreOffered(l, actions, c, id);
      if Sizable(l, id) {
        SizableOffers(l, actions, id);
      }
    }
    if !Sizable(l, id) {
      var e: Event :| IsTerminal(e) && ValidEvent(e) && e.requestId == id && l.size(e).None?;
      OneEventIsOffered(id, e);
      var c := FindsOrphan(l, id, "", OneEvent(e));
    }
  }

  /** Two calls of one request, at most one record. */
  function TwoCalls(l: Limits, id: string, digest: Digest, first: Stage, second: Stage,
                    heap: seq<Record>, history: seq<Mark>): Config {
    var records := if heap == [] then map[] else map[id := 0];
    Config(l, Shared(false, records, heap), [Thread(id, digest, None, first), Thread(id, digest, None, second)],
           records, if heap == [] then [] else [id], history)
  }

  lemma TwoReserve(l: Limits, id: string, digest: Digest) returns (c: Config)
    requires id != "" && l.maxRetained > 0 && OversizeFits(l, id)
    ensures Reachable(l, c) && Scoped(c)
    ensures c == TwoCalls(l, id, digest, Preparing(0), Waiting(0), [Record(Some(digest), true, 1, false, None)], [])
  {
    c := TwoEnter(l, id, digest);
    c := Extend(l, c, TryReserve(0));
    assert c == TwoCalls(l, id, digest, Preparing(0), Reserving, [Record(Some(digest), true, 0, false, None)], []);
    c := Extend(l, c, TryReserve(1));
  }

  lemma TwoEnter(l: Limits, id: string, digest: Digest) returns (c: Config)
    requires id != ""
    ensures Reachable(l, c) && Scoped(c)
    ensures c == TwoCalls(l, id, digest, Reserving, Reserving, [], [])
  {
    assert Steps(Init(l), [], Init(l));
    c := Extend(l, Init(l), Action.Call(id, digest, None));
    c := Extend(l, c, Action.Call(id, digest, None));
    c := Extend(l, c, Enter(0));
    c := Extend(l, c, Enter(1));
  }

  lemma Extend(l: Limits, c: Config, a: Action) returns (c': Config)
    requires Reachable(l, c) && Scoped(c) && Enabled(c, a)
    ensures c' == Next(c, a) && Reachable(l, c') && Scoped(c')
  {
    c' := Next(c, a);
    ReachableNext(l, c, a);
    ReachableInv(l, c');
  }
}
