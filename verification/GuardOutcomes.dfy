/** What a lookup finds, and what each of the guard's other calls comes to, told from the history,
    the calls under way and the fields of the id's record, for every reachable state. */
module GuardOutcomes {
  import opened Wrappers
  import opened NeutralContract
  import opened GuardState
  import opened GuardMachine
  import opened GuardThreads
  import opened GuardCounts
  import opened GuardHistory
  import opened GuardRuns
  import opened GuardGuarantees
  import opened GuardAnswers

  // ----- Every stored terminal was handed out -----

  /** Entry `i` handed out terminal `x` for the id, which was not freed since. */
  ghost predicate Told(h: seq<Mark>, i: int, id: string, x: Event) {
    && 0 <= i < |h| && h[i].Answered? && h[i].id == id && h[i].terminal == x
    && forall k | i < k < |h| :: h[k] != Freed(id)
  }

  ghost predicate Holds(s: Shared, id: string, x: Event) {
    id in s.records && s.records[id] < |s.heap| && s.heap[s.records[id]].terminal == Some(x)
  }

  ghost predicate AllTold(c: Config) {
    forall id, x | Holds(c.shared, id, x) :: exists i :: Told(c.history, i, id, x)
  }

  /** A terminal held after a step was held before it, and its id was not freed by it, or the step
      hands it out. */
  ghost predicate HeldOrTold(s: Shared, s': Shared, marks: seq<Mark>) {
    forall id, x | Holds(s', id, x) ::
      && Freed(id) !in marks
      && (Holds(s, id, x) || exists k :: 0 <= k < |marks| && marks[k].Answered? && marks[k].id == id && marks[k].terminal == x)
  }

  lemma ToldGrows(c: Config, c': Config, marks: seq<Mark>)
    requires AllTold(c) && c'.history == c.history + marks && HeldOrTold(c.shared, c'.shared, marks)
    ensures AllTold(c')
  {
    hide Holds;
    forall id, x | Holds(c'.shared, id, x)
      ensures exists i :: Told(c'.history, i, id, x)
    {
      if Holds(c.shared, id, x) {
        var i :| Told(c.history, i, id, x);
        StillTold(c.history, marks, i, id, x);
      } else {
        var k :| 0 <= k < |marks| && marks[k].Answered? && marks[k].id == id && marks[k].terminal == x;
        assert Told(c'.history, |c.history| + k, id, x);
      }
    }
  }

  lemma StillTold(h: seq<Mark>, marks: seq<Mark>, i: int, id: string, x: Event)
    requires Told(h, i, id, x) && Freed(id) !in marks
    ensures Told(h + marks, i, id, x)
  {
    forall k | i < k < |h + marks| ensures (h + marks)[k] != Freed(id) {
      assert (h + marks)[k] == if k < |h| then h[k] else marks[k - |h|];
    }
  }

  lemma ReserveTells(c: Config, t: nat)
    requires HistoryReady(c, TryReserve(t)) && AllTold(c)
    ensures AllTold(NextReserve(c, t))
  {
    var marks := ReserveMarks(c, t);
    var c', th := NextReserve(c, t), c.threads[t];
    ReserveConfig(c, t);
    hide NextReserve, Reserve, SharedOk, ThreadsOk, HistoryOk;
    forall r | 0 <= r < |c.shared.heap| ensures c'.shared.heap[r].terminal == c.shared.heap[r].terminal {
      ReserveShape(c.limits, c.shared, th.id, th.digest, r);
    }
    ReserveAdds(c.limits, c.shared, th.id, th.digest);
    ToldGrows(c, c', marks);
  }

  lemma ReserveAdds(l: Limits, s: Shared, id: string, digest: Digest)
    requires s.Scoped()
    ensures var s' := Reserve(l, s, id, digest).0;
            Grows(s, s', id) && (|s'.heap| > |s.heap| ==> s'.heap[|s.heap|].terminal.None?)
  {
    hide OversizeFits, LimitError;
  }

  lemma LeaveTells(c: Config, t: nat)
    requires HistoryReady(c, Leave(t)) && AllTold(c)
    ensures AllTold(NextLeave(c, t))
  {
    var marks := LeaveMarks(c, t);
    LeaveRecords(c, t);
    hide NextLeave, SharedOk, ThreadsOk, HistoryOk;
    ToldGrows(c, NextLeave(c, t), marks);
  }

  lemma AbortTells(c: Config, t: nat)
    requires HistoryReady(c, Abort(t)) && AllTold(c)
    ensures AllTold(NextAbort(c, t))
  {
    var marks := AbortMarks(c, t);
    AbortConfig(c, t);
    AbortShape(c.shared, c.threads[t].id, c.threads[t].stage.on);
    hide NextAbort, ReleasePreDispatch, SharedOk, ThreadsOk, HistoryOk;
    ToldGrows(c, NextAbort(c, t), marks);
  }

  lemma CommitTells(c: Config, t: nat)
    requires HistoryReady(c, Commit(t)) && AllTold(c)
    ensures AllTold(NextCommit(c, t))
  {
    var marks := CommitMarks(c, t);
    var c', th := NextCommit(c, t), c.threads[t];
    var reply := Complete(c.limits, c.shared, th.id, th.stage.on, th.stage.verdict).1;
    CommitHolds(c, t);
    CommitConfig(c, t);
    hide NextCommit, Complete, SharedOk, ThreadsOk, HistoryOk, OwnersOk;
    assert c'.history[|c.history|..] == marks;
    if reply.Answer? && reply.events != [] {
      assert marks[0] == Answered(th.id, Some(th.digest), Last(reply.events));
    }
    ToldGrows(c, c', marks);
  }

  lemma CommitHolds(c: Config, t: nat)
    requires HistoryReady(c, Commit(t))
    ensures var th := c.threads[t];
            var (s', reply) := Complete(c.limits, c.shared, th.id, th.stage.on, th.stage.verdict);
            forall id, x | Holds(s', id, x) ::
              Holds(c.shared, id, x) || (id == th.id && reply.Answer? && reply.events != [] && x == Last(reply.events))
  {
    var th := c.threads[t];
    assert VerdictOk(th.id, th.stage.verdict) by {
      assert ThreadOk(c, th);
    }
    CompleteShape(c.limits, c.shared, th.id, th.stage.on, th.stage.verdict);
    CommitStores(c.limits, c.shared, th.id, th.stage.on, th.stage.verdict);
    RecordFacts(c, th.stage.on);
    OwnRecord(c, th);
    hide Complete, SharedOk, ThreadsOk, ThreadOk, HistoryOk, OwnersOk, RecordOk, OversizeFits, Fits;
  }

  lemma CancelTells(c: Config, id: string, p: Option<string>)
    requires HistoryReady(c, CancelCall(id, p)) && AllTold(c)
    ensures AllTold(NextCancel(c, id, p))
  {
    var marks := CancelAdds(c, id, p);
    var c' := NextCancel(c, id, p);
    var reply := Cancel(c.limits, c.shared, id, p).1;
    CancelConfig(c, id, p);
    OwnIds(c, id);
    CancelHolds(c.limits, c.shared, id, p);
    hide NextCancel, Cancel, SharedOk, ThreadsOk, HistoryOk;
    assert c'.history[|c.history|..] == marks;
    if reply.Outcome? {
      assert marks[|marks| - 1] == Answered(id, None, reply.terminal);
    }
    ToldGrows(c, c', marks);
  }

  /** No two ids share a live record. */
  lemma OwnIds(c: Config, id: string)
    requires SharedOk(c)
    ensures id in c.shared.records ==>
              forall other <- c.shared.records :: c.shared.records[other] == c.shared.records[id] ==> other == id
  {
    hide RecordOk, OversizeFits;
  }

  lemma CancelHolds(l: Limits, s: Shared, id: string, p: Option<string>)
    requires s.Scoped()
    requires id in s.records ==> forall other <- s.records :: s.records[other] == s.records[id] ==> other == id
    ensures var (s', reply) := Cancel(l, s, id, p);
            forall other, x | Holds(s', other, x) :: Holds(s, other, x) || (other == id && reply == Outcome(x))
  {
    hide Bounded, LimitError, OversizeFits;
  }

  lemma ReleaseTells(c: Config, id: string)
    requires Scoped(c) && AllTold(c)
    ensures AllTold(NextRelease(c, id))
  {
    ToldGrows(c, NextRelease(c, id), if Release(c.shared, id).1.Released? then [Freed(id)] else []);
  }

  lemma PeekTells(c: Config, id: string)
    requires Scoped(c) && AllTold(c)
    ensures AllTold(Next(c, Peek(id)))
  {
    ToldGrows(c, Next(c, Peek(id)), match TerminalFor(c.shared, id) { case Some(x) => [Answered(id, None, x)] case None => [] });
  }

  lemma WalkTells(c: Config, a: Action)
    requires HistoryReady(c, a) && Walks(a) && AllTold(c)
    ensures AllTold(Next(c, a))
  {
    var marks := WalkMarks(c, a);
    WalkShape(c, a);
    hide Next, SharedOk, ThreadsOk, HistoryOk;
    assert forall id :: Freed(id) !in marks;
    ToldGrows(c, Next(c, a), marks);
  }

  lemma StepTells(c: Config, a: Action)
    requires HistoryReady(c, a) && AllTold(c)
    ensures AllTold(Next(c, a))
  {
    hide AllTold, SharedOk, ThreadsOk, OwnersOk, HistoryOk;
    match a
    case TryReserve(t) => ReserveTells(c, t);
    case Leave(t) => LeaveTells(c, t);
    case Abort(t) => AbortTells(c, t);
    case Commit(t) => CommitTells(c, t);
    case CancelCall(id, p) => CancelTells(c, id, p);
    case ReleaseCall(id) => ReleaseTells(c, id);
    case Peek(id) => PeekTells(c, id);
    case CloseCall => ClosedTells(c);
    case Call(_, _, _) => CallTells(c, a);
    case _ => WalkTells(c, a);
  }

  lemma ClosedTells(c: Config)
    requires AllTold(c)
    ensures AllTold(Closed(c))
  {
    ToldGrows(c, Closed(c), []);
  }

  lemma CallTells(c: Config, a: Action)
    requires Scoped(c) && Enabled(c, a) && a.Call? && AllTold(c)
    ensures AllTold(Next(c, a))
  {
    ToldGrows(c, Next(c, a), []);
  }

  lemma {:induction false} RunTells(c: Config, actions: seq<Action>, c': Config)
    requires Inv(c) && AllTold(c) && Steps(c, actions, c')
    ensures AllTold(c')
    decreases |actions|
  {
    hide AllTold, Next, Inv;
    if actions != [] {
      EverythingReady(c, actions[0]);
      StepTells(c, actions[0]);
      StepKeepsInv(c, actions[0]);
      RunTells(Next(c, actions[0]), actions[1..], c');
    }
  }

  /** A lookup finds exactly the terminal that was handed out for the id and not freed since, if
      the guard is open. */
  lemma LookupIff(l: Limits, c: Config, id: string, x: Event)
    requires Reachable(l, c)
    ensures c.shared.Scoped()
    ensures TerminalFor(c.shared, id) == Some(x) <==> !c.shared.closed && exists i :: Told(c.history, i, id, x)
  {
    ReachableInv(l, c);
    var actions :| Steps(Init(l), actions, c);
    RunTells(Init(l), actions, c);
    LookupFinds(c, id, x);
  }

  lemma LookupFinds(c: Config, id: string, x: Event)
    requires Inv(c) && AllTold(c) && c.shared.Scoped()
    ensures TerminalFor(c.shared, id) == Some(x) <==> !c.shared.closed && exists i :: Told(c.history, i, id, x)
  {
    hide ThreadsOk, OwnersOk, CountsOk, RecordsOk;
    if TerminalFor(c.shared, id) == Some(x) {
      assert Holds(c.shared, id, x);
    }
    if exists i :: Told(c.history, i, id, x) {
      var i :| Told(c.history, i, id, x);
      assert InForce(c.history, i, id);
      assert MarkOk(c, c.history[i]);
    }
  }

  // ----- What each call comes to -----

  ghost predicate WaitedOn(c: Config, r: nat) {
    exists i :: 0 <= i < |c.threads| && c.threads[i].stage.Waits() && c.threads[i].stage.on == r
  }

  lemma WaitedOnIff(c: Config, r: nat)
    requires CountsOk(c) && r < |c.shared.heap|
    ensures c.shared.heap[r].waiters != 0 <==> WaitedOn(c, r)
  {
    if WaitedOn(c, r) {
      var i :| 0 <= i < |c.threads| && c.threads[i].stage.Waits() && c.threads[i].stage.on == r;
      WaiterCounted(c.threads, i);
    } else {
      NobodyWaits(c.threads, r);
    }
  }

  /** A release frees its id exactly when the id is retained, its record is not in flight and no
      call waits on it; a lookup then finds nothing. Otherwise it changes nothing and says why. */
  lemma ReleaseFrees(l: Limits, c: Config, id: string)
    requires Reachable(l, c) && Scoped(c)
    ensures var c', reply, records := Next(c, ReleaseCall(id)), Release(c.shared, id).1, c.shared.records;
            if id == "" then reply == ReleaseRefused(EmptyRequestId) && c' == c
            else if id !in records then reply == Absent && c' == c
            else if c.shared.heap[records[id]].inFlight || WaitedOn(c, records[id]) then
              reply == ReleaseRefused(RequestInFlight) && c' == c
            else
              && reply == Released && c'.history == c.history + [Freed(id)] && TerminalFor(c'.shared, id) == None
              && c'.shared == c.shared.(records := c'.shared.records) && c'.shared.records.Keys == records.Keys - {id}
              && forall other <- c'.shared.records :: c'.shared.records[other] == records[other]
  {
    ReachableInv(l, c);
    hide Reachable, Sound, ThreadsOk, OwnersOk, HistoryOk, RecordsOk;
    if id in c.shared.records {
      WaitedOnIff(c, c.shared.records[id]);
    }
  }

  /** Why no sanitized replacement can be kept for the id. */
  ghost predicate NoReplacement(l: Limits, id: string, code: Code) {
    exists e :: SaysOversize(e, id) &&
      if l.size(e).None? then code == SizeFailure else l.size(e).value > l.maxBytes && code == TerminalLimitInvalid
  }

  lemma NoReplacementIff(l: Limits, id: string, code: Code)
    ensures NoReplacement(l, id, code) <==> !OversizeFits(l, id) && LimitError(l, id) == code
  {
    assert SaysOversize(Oversize(id), id);
    assert forall e | SaysOversize(e, id) :: e == Oversize(id);
  }

  /** What keeps the guard from retaining a new id. */
  ghost predicate NoRoom(l: Limits, s: Shared, id: string, code: Code) {
    if |s.records| >= l.maxRetained then code == SessionCapacity else NoReplacement(l, id, code)
  }

  lemma NoRoomIff(l: Limits, s: Shared, id: string)
    ensures forall code :: NoRoom(l, s, id, code) <==>
              if |s.records| >= l.maxRetained then code == SessionCapacity else !OversizeFits(l, id) && code == LimitError(l, id)
  {
    forall code ensures NoReplacement(l, id, code) <==> !OversizeFits(l, id) && LimitError(l, id) == code {
      NoReplacementIff(l, id, code);
    }
  }

  /** The terminal that was handed out for the id and not freed since, if there is one. */
  ghost predicate StandsTold(h: seq<Mark>, id: string, told: Option<Event>) {
    match told
    case Some(x) => exists i :: Told(h, i, id, x)
    case None => forall i, x :: !Told(h, i, id, x)
  }

  lemma LookupFindsTold(l: Limits, c: Config, id: string, told: Option<Event>)
    requires Reachable(l, c) && !c.shared.closed && StandsTold(c.history, id, told) && c.shared.Scoped()
    ensures TerminalFor(c.shared, id) == told
  {
    hide Reachable, Told;
    match told
    case Some(x) => LookupIff(l, c, id, x);
    case None =>
      match TerminalFor(c.shared, id)
      case Some(x) => LookupIff(l, c, id, x);
      case None =>
  }

  /** A call that tries to reserve its id in an open guard is refused if the id is retained for
      other content; returns at once exactly when a terminal was handed out for the id and not
      freed since; waits while the record is in flight; and otherwise prepares its own binding
      call, on a new record if the id is not retained and there is room. */
  ghost predicate Decides(l: Limits, s: Shared, id: string, digest: Digest, told: Option<Event>, stage: Stage) {
    if s.closed then stage == Raised(SessionClosed)
    else if id !in s.records then
      if stage.Raised? then NoRoom(l, s, id, stage.code)
      else stage == Preparing(|s.heap|) && forall code :: !NoRoom(l, s, id, code)
    else if s.records[id] >= |s.heap| then false
    else
      var record := s.heap[s.records[id]];
      if record.digest.Some? && record.digest != Some(digest) then stage == Raised(RequestIdReuse)
      else if told.Some? then stage == Returned([told.value])
      else stage == if record.inFlight then Waiting(s.records[id]) else Preparing(s.records[id])
  }

  lemma ReserveDecides(l: Limits, c: Config, t: nat, told: Option<Event>)
    requires Reachable(l, c) && Scoped(c) && Enabled(c, TryReserve(t)) && StandsTold(c.history, c.threads[t].id, told)
    ensures var c', th := Next(c, TryReserve(t)), c.threads[t];
            && t < |c'.threads| && Decides(l, c.shared, th.id, th.digest, told, c'.threads[t].stage)
            && (c'.threads[t].stage.Raised? ==> c'.shared == c.shared)
            && c'.shared.Scoped() && forall id :: TerminalFor(c'.shared, id) == TerminalFor(c.shared, id)
  {
    var th := c.threads[t];
    ReachableInv(l, c);
    ReserveMovesTo(c, t);
    hide Inv, Sound, Reachable, StandsTold, Decides, Reserve, TerminalFor, Next;
    if !c.shared.closed {
      LookupFindsTold(l, c, th.id, told);
    }
    ReserveSays(l, c.shared, th.id, th.digest, told);
    ReserveFinds(l, c.shared, th.id, th.digest);
  }

  lemma ReserveMovesTo(c: Config, t: nat)
    requires Scoped(c) && Enabled(c, TryReserve(t))
    ensures var c', th := Next(c, TryReserve(t)), c.threads[t];
            var (s', reply) := Reserve(c.limits, c.shared, th.id, th.digest);
            c'.shared == s' && t < |c'.threads| && c'.threads[t].stage == StageFor(reply)
  {
    hide Reserve;
  }

  function StageFor(reply: ReserveReply<nat>): Stage {
    match reply
    case Refused(code) => Raised(code)
    case Cached(x) => Returned([x])
    case Registered(r) => Waiting(r)
    case Owns(r) => Preparing(r)
  }

  lemma ReserveSays(l: Limits, s: Shared, id: string, digest: Digest, told: Option<Event>)
    requires s.Scoped() && (!s.closed ==> TerminalFor(s, id) == told)
    ensures var (s', reply) := Reserve(l, s, id, digest);
            Decides(l, s, id, digest, told, StageFor(reply)) && (reply.Refused? ==> s' == s)
  {
    NoRoomIff(l, s, id);
    hide NoRoom, OversizeFits, LimitError;
  }

  lemma ReserveFinds(l: Limits, s: Shared, id: string, digest: Digest)
    requires s.Scoped()
    ensures var s' := Reserve(l, s, id, digest).0;
            s'.Scoped() && forall other :: TerminalFor(s', other) == TerminalFor(s, other)
  {
    hide OversizeFits, LimitError;
  }

  /** A woken call, from its read of the record to its leaving it, whatever happens in between:
      closing refuses it, the record's terminal answers it, and otherwise it tries again. */
  lemma WaiterGets(l: Limits, c0: Config, t: nat, between: seq<Action>, c: Config)
    requires Reachable(l, c0) && Scoped(c0) && Enabled(c0, Read(t))
    requires Steps(Next(c0, Read(t)), between, c) && Rests(between, t)
    requires Scoped(c) && Enabled(c, Leave(t))
    ensures var on, c' := c0.threads[t].stage.on, Next(c, Leave(t));
            && on < |c0.shared.heap| && on < |c.shared.heap| && on < |c'.shared.heap| && t < |c'.threads|
            && c'.threads[t].stage == (if c0.shared.closed then Raised(SessionClosed)
                                       else match c0.shared.heap[on].terminal
                                            case Some(x) => Returned([x])
                                            case None => Reserving)
            && c'.shared.heap[on].waiters + 1 == c.shared.heap[on].waiters
  {
    assert t < |c0.threads| && c0.threads[t].stage.Woken?;
    ReadAt(c0, t);
    var all := [Read(t)] + between;
    assert all[0] == Read(t) && all[1..] == between;
    hide Enabled, Scoped, Next, Steps, Reachable, Rests;
    RestingCall(Next(c0, Read(t)), between, c, t);
    ReachableRun(l, c0, all, c);
    DefensiveBranches(l, c, t);
    LeaveAt(c, t);
  }

  lemma ReadAt(c: Config, t: nat)
    requires Scoped(c) && Enabled(c, Read(t))
    ensures var on, c' := c.threads[t].stage.on, Next(c, Read(t));
            && on < |c.shared.heap| && t < |c'.threads| && c'.threads[t].stage.Leaving? && c'.threads[t].stage.on == on
            && match c'.threads[t].stage.reply
               case WaitRefused(code) => c.shared.closed && code == SessionClosed
               case Winner(x) => !c.shared.closed && c.shared.heap[on].terminal == Some(x)
               case Retry => !c.shared.closed && c.shared.heap[on].terminal == None
  {
  }

  lemma LeaveAt(c: Config, t: nat)
    requires Scoped(c) && Enabled(c, Leave(t))
    requires Unregister(c.shared, c.threads[t].stage.on).1
    ensures var on, c' := c.threads[t].stage.on, Next(c, Leave(t));
            && on < |c'.shared.heap| && t < |c'.threads|
            && c'.shared.heap[on].waiters + 1 == c.shared.heap[on].waiters
            && c'.threads[t].stage == match c.threads[t].stage.reply
                                      case Winner(x) => Returned([x])
                                      case WaitRefused(code) => Raised(code)
                                      case Retry => Reserving
  {
  }

  /** A call whose preparation failed raises its own error and frees its id, unless the guard
      closed or a terminal won meanwhile. */
  lemma PreparationFails(l: Limits, c: Config, t: nat)
    requires Reachable(l, c) && Scoped(c) && Enabled(c, Abort(t))
    ensures var c', th := Next(c, Abort(t)), c.threads[t];
            && t < |c'.threads| && c'.shared.Scoped()
            && if c.shared.closed then c'.threads[t].stage == Raised(SessionClosed) && c'.shared == c.shared
               else match TerminalFor(c.shared, th.id)
                    case Some(x) => c'.threads[t].stage == Returned([x]) && TerminalFor(c'.shared, th.id) == Some(x)
                    case None =>
                      && c'.threads[t].stage == Raised(th.stage.code)
                      && c'.shared.records.Keys == c.shared.records.Keys - {th.id}
  {
    ReachableInv(l, c);
    hide Reachable, Sound, OwnersOk, HistoryOk, CountsOk, RecordOk, OversizeFits;
    OwnRecord(c, c.threads[t]) by {
      assert ThreadOk(c, c.threads[t]);
    }
  }

  /** A cancel returns the terminal already handed out for the id, or else settles the id with its
      own event, kept or replaced by size, which a lookup then finds; no other id is touched. */
  lemma CancelSettles(l: Limits, c: Config, id: string, p: Option<string>, told: Option<Event>)
    requires Reachable(l, c) && Scoped(c) && StandsTold(c.history, id, told)
    ensures var c', reply := Next(c, CancelCall(id, p)), Cancel(l, c.shared, id, p).1;
            && c'.shared.Scoped()
            && (forall other | other != id :: TerminalFor(c'.shared, other) == TerminalFor(c.shared, other))
            && if id == "" then reply == CancelRefused(EmptyRequestId) && c'.shared == c.shared
               else if c.shared.closed then reply == CancelRefused(SessionClosed) && c'.shared == c.shared
               else if told.Some? then reply == Outcome(told.value) && c'.shared == c.shared
               else if id !in c'.shared.records then
                 c'.shared == c.shared && reply.CancelRefused? && NoRoom(l, c.shared, id, reply.code)
               else
                 && (id !in c.shared.records ==> forall code :: !NoRoom(l, c.shared, id, code))
                 && Settled(l, id, p, reply, TerminalFor(c'.shared, id))
  {
    ReachableInv(l, c);
    CancelReady(c, id);
    CancelMovesTo(c, id, p);
    hide Inv, Reachable, Sound, StandsTold, Cancel, TerminalFor, NoRoom, Settled, OversizeFits, Next;
    if !c.shared.closed {
      LookupFindsTold(l, c, id, told);
    }
    CancelSays(l, c.shared, id, p);
  }

  lemma CancelMovesTo(c: Config, id: string, p: Option<string>)
    requires Scoped(c)
    ensures Next(c, CancelCall(id, p)).shared == Cancel(c.limits, c.shared, id, p).0
  {
    hide Cancel;
  }

  lemma CancelReady(c: Config, id: string)
    requires Inv(c) && c.shared.Scoped()
    ensures id in c.shared.records ==> OversizeFits(c.limits, id)
    ensures id in c.shared.records ==>
              forall other <- c.shared.records :: c.shared.records[other] == c.shared.records[id] ==> other == id
  {
    hide ThreadsOk, OwnersOk, HistoryOk, CountsOk, RecordOk, OversizeFits;
    OwnIds(c, id);
  }

  ghost predicate Settled(l: Limits, id: string, p: Option<string>, reply: CancelReply, found: Option<Event>) {
    exists offered :: SaysCancelled(offered, id, p) &&
      if l.size(offered).None? then reply == CancelRefused(SizeFailure) && found == None
      else reply.Outcome? && KeptOrReplaced(l, offered, reply.terminal) && found == Some(reply.terminal)
  }

  lemma SettledBy(l: Limits, id: string, p: Option<string>, reply: CancelReply, found: Option<Event>)
    requires OversizeFits(l, id)
    requires match Bounded(l, CancelEvent(id, p))
             case Ok(kept) => reply == Outcome(kept) && found == Some(kept)
             case Err(code) => reply == CancelRefused(code) && found == None
    ensures Settled(l, id, p, reply, found)
  {
    BoundedSays(l, CancelEvent(id, p));
    assert SaysCancelled(CancelEvent(id, p), id, p);
    hide Bounded, SaysCancelled, KeptOrReplaced;
  }

  lemma CancelSays(l: Limits, s: Shared, id: string, p: Option<string>)
    requires s.Scoped() && (id in s.records ==> OversizeFits(l, id))
    requires id in s.records ==> forall other <- s.records :: s.records[other] == s.records[id] ==> other == id
    ensures var (s', reply) := Cancel(l, s, id, p);
            && s'.Scoped()
            && (forall other | other != id :: TerminalFor(s', other) == TerminalFor(s, other))
            && if id == "" then reply == CancelRefused(EmptyRequestId) && s' == s
               else if s.closed then reply == CancelRefused(SessionClosed) && s' == s
               else if TerminalFor(s, id).Some? then reply == Outcome(TerminalFor(s, id).value) && s' == s
               else if id !in s'.records then s' == s && reply.CancelRefused? && NoRoom(l, s, id, reply.code)
               else
                 && (id !in s.records ==> forall code :: !NoRoom(l, s, id, code))
                 && Settled(l, id, p, reply, TerminalFor(s', id))
  {
    NoRoomIff(l, s, id);
    hide NoRoom, OversizeFits, LimitError, Bounded, Settled;
    var (s', reply) := Cancel(l, s, id, p);
    if id != "" && !s.closed && TerminalFor(s, id).None? && id in s'.records {
      SettledBy(l, id, p, reply, TerminalFor(s', id));
    }
  }
}
