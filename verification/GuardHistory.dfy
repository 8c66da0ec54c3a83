/** What the history promises about the present state, and about its own earlier entries. */
module GuardHistory {
  import opened Wrappers
  import opened NeutralContract
  import opened EventLoop
  import opened GuardState
  import opened GuardMachine
  import opened GuardThreads
  import opened GuardRecords
  import opened GuardOwners

  ghost predicate About(m: Mark, id: string) {
    (m.Dispatch? || m.Answered? || m.CancelledFirst?) && m.id == id
  }

  /** The id keeps its record. */
  ghost predicate IdKept(c: Config, c': Config, id: string) {
    id in c.bound ==> Current(c', id, c.bound[id]) && Before(c, c', c.bound[id])
  }

  /** Nothing new prepares to dispatch under the id, and its record does not become idle. */
  ghost predicate DispatchKept(c: Config, c': Config, id: string) {
    id in c.bound ==>
      && NoNewOwner(c, c', id)
      && c.bound[id] < |c.shared.heap| <= |c'.shared.heap|
      && (Idle(c'.shared.heap[c.bound[id]]) && !c'.shared.closed ==> Idle(c.shared.heap[c.bound[id]]) && !c.shared.closed)
  }

  ghost predicate NoNewOwner(c: Config, c': Config, id: string) {
    forall i | 0 <= i < |c'.threads| && c'.threads[i].id == id && c'.threads[i].stage.BeforeDispatch() ::
      i < |c.threads| && c.threads[i].id == id && c.threads[i].stage.BeforeDispatch()
  }

  ghost predicate MarkKeeps(c: Config, c': Config, m: Mark, id: string) {
    IdKept(c, c', id) && (m.Dispatch? ==> DispatchKept(c, c', id))
  }

  lemma MarkKept(c: Config, c': Config, m: Mark, id: string)
    requires SharedOk(c) && About(m, id) && MarkOk(c, m) && MarkKeeps(c, c', m, id)
    ensures MarkOk(c', m)
  {
    hide OversizeFits, RecordOk;
  }

  /** Whether a mark about `id` may stop being in force. */
  predicate Ends(m: Mark, id: string, marks: seq<Mark>) {
    Freed(id) in marks || (m.Dispatch? && Orphaned(id) in marks)
  }

  /** The history grows by marks that hold now; older marks still hold unless these end them. */
  lemma HistoryGrows(c: Config, c': Config, marks: seq<Mark>)
    requires SharedOk(c) && HistoryOk(c) && c'.history == c.history + marks
    requires forall k | 0 <= k < |marks| :: MarkOk(c', marks[k])
    requires forall i, id | 0 <= i < |c.history| && About(c.history[i], id) && MarkOk(c, c.history[i]) ::
               Ends(c.history[i], id, marks) || MarkKeeps(c, c', c.history[i], id)
    ensures HistoryOk(c')
  {
    hide MarkOk, MarkKeeps, SharedOk;
    forall i | 0 <= i < |c'.history| && (c'.history[i].Dispatch? || c'.history[i].Answered? || c'.history[i].CancelledFirst?)
      ensures InForce(c'.history, i, c'.history[i].id) ==> MarkOk(c', c'.history[i])
    {
      var m := c'.history[i];
      if i >= |c.history| {
        assert m == marks[i - |c.history|];
      } else if InForce(c'.history, i, m.id) {
        OldMark(c, c', marks, i);
        MarkKept(c, c', m, m.id);
      }
    }
  }

  lemma OldMark(c: Config, c': Config, marks: seq<Mark>, i: nat)
    requires HistoryOk(c) && c'.history == c.history + marks && i < |c.history|
    requires var m := c.history[i]; (m.Dispatch? || m.Answered? || m.CancelledFirst?) && InForce(c'.history, i, m.id)
    ensures c'.history[i] == c.history[i] && MarkOk(c, c.history[i]) && About(c.history[i], c.history[i].id)
    ensures !Ends(c.history[i], c.history[i].id, marks)
  {
    hide MarkOk;
    var m := c.history[i];
    assert c'.history[i] == m;
    assert InForce(c.history, i, m.id) by {
      assert forall k | i < k < |c.history| :: c.history[k] == c'.history[k];
    }
    forall k | 0 <= k < |marks|
      ensures marks[k] != Freed(m.id) && (m.Dispatch? ==> marks[k] != Orphaned(m.id))
    {
      assert c'.history[|c.history| + k] == marks[k];
    }
  }

  ghost predicate HistoryReady(c: Config, a: Action) {
    ThreadsOk(c) && OwnersOk(c) && HistoryOk(c) && MovesSafely(c, a)
  }

  // ----- What each step keeps for an id -----

  lemma BoundId(c: Config, id: string)
    requires SharedOk(c) && id in c.bound
    ensures c.bound[id] < |c.shared.heap| == |c.names| && c.names[c.bound[id]] == id
    ensures !c.shared.closed ==> id in c.shared.records && c.shared.records[id] == c.bound[id]
  {
    hide OversizeFits, RecordOk;
  }

  lemma ReserveKeepsIds(c: Config, t: nat, id: string)
    requires HistoryReady(c, TryReserve(t))
    ensures IdKept(c, NextReserve(c, t), id)
    ensures id in c.bound && c.bound[id] < |c.shared.heap| && (Idle(c.shared.heap[c.bound[id]]) ==> c.shared.closed) ==>
              DispatchKept(c, NextReserve(c, t), id)
  {
    if id in c.bound {
      var th := c.threads[t];
      BoundId(c, id);
      ReserveConfig(c, t);
      ReserveMoves(c, t);
      ReserveFlight(c.limits, c.shared, th.id, th.digest);
      ReserveLimits(c.limits, c.shared, th.id, th.digest);
      ReserveKeeps(c, t, c.bound[id]);
      hide NextReserve, Reserve, Before, OversizeFits, RecordOk, ThreadOk, OwnersOk, HistoryOk;
      if Idle(c.shared.heap[c.bound[id]]) ==> c.shared.closed {
        ReservedUnder(c, NextReserve(c, t), t, id);
      }
    }
  }

  /** A reservation prepares a dispatch only under an id whose record is new or was idle. */
  lemma ReservedUnder(c: Config, c': Config, t: nat, id: string)
    requires t < |c.threads| == |c'.threads| && c'.threads[t].id == c.threads[t].id && id in c.bound
    requires forall i | 0 <= i < |c.threads| && i != t :: c'.threads[i] == c.threads[i]
    requires c.bound[id] < |c.shared.heap| <= |c'.shared.heap| && c'.shared.closed == c.shared.closed
    requires !c.shared.closed ==> id in c.shared.records && c.shared.records[id] == c.bound[id]
    requires c'.threads[t].stage.BeforeDispatch() ==>
               && !c.shared.closed
               && (c.threads[t].id in c.shared.records ==>
                     var r := c.shared.records[c.threads[t].id]; r < |c.shared.heap| && Idle(c.shared.heap[r]))
    requires Idle(c'.shared.heap[c.bound[id]]) ==> Idle(c.shared.heap[c.bound[id]])
    requires Idle(c.shared.heap[c.bound[id]]) ==> c.shared.closed
    ensures DispatchKept(c, c', id)
  {
  }

  lemma LeaveKeepsIds(c: Config, t: nat, id: string)
    requires HistoryReady(c, Leave(t))
    ensures IdKept(c, NextLeave(c, t), id) && DispatchKept(c, NextLeave(c, t), id)
  {
    if id in c.bound {
      BoundId(c, id);
      LeaveKeeps(c, t, c.bound[id]);
      LeaveShape(c, t);
      LeaveConfig(c, t);
      LeaveRecords(c, t);
      hide NextLeave, Before, SharedOk, ThreadsOk, OwnersOk, HistoryOk, ThreadOk, Enabled, Scoped;
      RestsUnder(c, NextLeave(c, t), t, id);
    }
  }

  /** The mover prepares nothing, and the id's record stays as idle as it was. */
  lemma RestsUnder(c: Config, c': Config, t: nat, id: string)
    requires t < |c.threads| == |c'.threads| && id in c.bound
    requires forall i | 0 <= i < |c.threads| && i != t :: c'.threads[i] == c.threads[i]
    requires c'.threads[t].stage.BeforeDispatch() ==>
               c.threads[t].stage.BeforeDispatch() && c'.threads[t].id == c.threads[t].id
    requires c.bound[id] < |c.shared.heap| <= |c'.shared.heap| && (c.shared.closed ==> c'.shared.closed)
    requires Idle(c'.shared.heap[c.bound[id]]) && !c'.shared.closed ==> Idle(c.shared.heap[c.bound[id]])
    requires Current(c', id, c.bound[id]) && Before(c, c', c.bound[id])
    ensures IdKept(c, c', id) && DispatchKept(c, c', id)
  {
    hide Before;
  }

  /** The step that ends an owner's call changes its own record and no other. */
  lemma AbortKeepsIds(c: Config, t: nat, id: string)
    requires HistoryReady(c, Abort(t))
    requires id != c.threads[t].id || (id in c.bound && c.shared.heap[c.bound[id]].terminal.Some?)
    ensures IdKept(c, NextAbort(c, t), id) && DispatchKept(c, NextAbort(c, t), id)
  {
    if id in c.bound {
      var th := c.threads[t];
      BoundId(c, id);
      OwnRecord(c, th);
      AbortConfig(c, t);
      AbortKeeps(c, t, c.bound[id]);
      AbortShape(c.shared, th.id, th.stage.on);
      ClosedRecords(c);
      hide NextAbort, ReleasePreDispatch, Before, OwnersOk, HistoryOk, ThreadOk, ThreadsOk, SharedOk, Enabled, Scoped;
      RestsUnder(c, NextAbort(c, t), t, id);
    }
  }

  lemma ClosedRecords(c: Config)
    requires SharedOk(c)
    ensures if c.shared.closed then c.shared.records == map[] else c.bound == c.shared.records
  {
    hide RecordOk, OversizeFits;
  }

  /** Completing keeps every id's record; a dispatch is kept too unless its record is orphaned. */
  lemma CommitKeepsIds(c: Config, t: nat, id: string)
    requires HistoryReady(c, Commit(t))
    ensures IdKept(c, NextCommit(c, t), id)
    ensures DispatchKept(c, NextCommit(c, t), id) || NextCommit(c, t).history == c.history + [Orphaned(id)]
  {
    if id in c.bound {
      hide NextCommit, Complete, Before, OwnersOk, HistoryOk, ThreadOk, SharedOk, OversizeFits, Fits;
      var th := c.threads[t];
      BoundId(c, id);
      OwnRecord(c, th);
      LiveRecord(c, th);
      CommitKeeps(c, t, c.bound[id]);
      CompleteShape(c.limits, c.shared, th.id, th.stage.on, th.stage.verdict);
      CommitConfig(c, t);
      Committed(c, NextCommit(c, t), t, id, th.stage.on);
    }
  }

  lemma Committed(c: Config, c': Config, t: nat, id: string, r: nat)
    requires t < |c.threads| == |c'.threads| && c'.threads[t].stage.Done() && id in c.bound
    requires forall i | 0 <= i < |c.threads| && i != t :: c'.threads[i] == c.threads[i]
    requires c.bound[id] < |c.shared.heap| == |c'.shared.heap| == |c.names| && r < |c.names|
    requires c.names[c.bound[id]] == id && c.names[r] == c.threads[t].id
    requires c'.shared.closed == c.shared.closed && c'.bound == c.bound
    requires forall q | 0 <= q < |c.shared.heap| && q != r :: c'.shared.heap[q] == c.shared.heap[q]
    requires Idle(c'.shared.heap[r]) && !c.shared.closed ==> c'.history == c.history + [Orphaned(c.threads[t].id)]
    requires Before(c, c', c.bound[id])
    ensures IdKept(c, c', id) && (DispatchKept(c, c', id) || c'.history == c.history + [Orphaned(id)])
  {
    hide Before;
  }

  lemma WalkKeepsIds(c: Config, a: Action, id: string)
    requires HistoryReady(c, a) && Walks(a)
    ensures IdKept(c, Next(c, a), id) && DispatchKept(c, Next(c, a), id)
  {
    if id in c.bound {
      hide IdKept, DispatchKept, ThreadsOk, OwnersOk, HistoryOk, SharedOk, ThreadOk, Evaluate;
      BoundId(c, id);
      WalkShape(c, a);
      WalkPrepares(c, a);
      hide Next, Onward, Walks, Scoped;
      WalkedUnder(c, Next(c, a), a.t, Onward(c, a), id);
    } else {
      hide Next, HistoryReady, Before, Current;
      UnboundIsKept(c, Next(c, a), id);
    }
  }

  lemma UnboundIsKept(c: Config, c': Config, id: string)
    requires id !in c.bound
    ensures IdKept(c, c', id) && DispatchKept(c, c', id)
  {
  }

  lemma WalkedUnder(c: Config, c': Config, t: nat, stage: Stage, id: string)
    requires t < |c.threads| && c' == c.(threads := Moved(c.threads, t, stage), history := c'.history)
    requires stage.BeforeDispatch() ==> c.threads[t].stage.BeforeDispatch()
    requires id in c.bound && c.bound[id] < |c.shared.heap| == |c.names| && c.names[c.bound[id]] == id
    ensures IdKept(c, c', id) && DispatchKept(c, c', id)
  {
    StandsBefore(c, c', id);
    hide Before;
    RestsUnder(c, c', t, id);
  }

  lemma StandsBefore(c: Config, c': Config, id: string)
    requires id in c.bound && c.bound[id] < |c.shared.heap| == |c.names| && c.names[c.bound[id]] == id
    requires c'.shared == c.shared && c'.bound == c.bound && c'.names == c.names
    ensures Current(c', id, c.bound[id]) && Before(c, c', c.bound[id])
  {
  }

  lemma WalkPrepares(c: Config, a: Action)
    requires Scoped(c) && Enabled(c, a) && Walks(a)
    ensures Onward(c, a).BeforeDispatch() ==> c.threads[a.t].stage.BeforeDispatch()
  {
  }

  lemma CancelKeepsIds(c: Config, other: string, p: Option<string>, id: string)
    requires HistoryReady(c, CancelCall(other, p))
    ensures IdKept(c, NextCancel(c, other, p), id) && DispatchKept(c, NextCancel(c, other, p), id)
  {
    if id in c.bound {
      BoundId(c, id);
      CancelConfig(c, other, p);
      CancelKeeps(c, other, p, c.bound[id]);
      CancelShape(c.limits, c.shared, other, p, c.bound[id]);
      hide NextCancel, Cancel, Before, ThreadsOk, OwnersOk, HistoryOk, RecordOk, OversizeFits, Fits;
    }
  }

  lemma ReleaseKeepsIds(c: Config, other: string, id: string)
    requires HistoryReady(c, ReleaseCall(other))
    ensures (IdKept(c, NextRelease(c, other), id) && DispatchKept(c, NextRelease(c, other), id))
            || NextRelease(c, other).history == c.history + [Freed(id)]
  {
    if id in c.bound {
      BoundId(c, id);
      ReleaseKeeps(c, other, c.bound[id]);
      hide Before, ThreadsOk, OwnersOk, HistoryOk, RecordOk, OversizeFits;
    }
  }

  lemma CloseKeepsIds(c: Config, id: string)
    requires HistoryReady(c, CloseCall)
    ensures IdKept(c, Closed(c), id) && DispatchKept(c, Closed(c), id)
  {
    if id in c.bound {
      BoundId(c, id);
      CloseKeeps(c, c.bound[id]);
      hide Before, ThreadsOk, OwnersOk, HistoryOk, RecordOk, OversizeFits;
    }
  }

  // ----- The history invariant, action by action -----

  lemma HistoryAfterReserve(c: Config, t: nat)
    requires HistoryReady(c, TryReserve(t))
    ensures HistoryOk(NextReserve(c, t))
  {
    var c' := NextReserve(c, t);
    forall i, id | 0 <= i < |c.history| && About(c.history[i], id) && MarkOk(c, c.history[i])
      ensures MarkKeeps(c, c', c.history[i], id)
    {
      ReserveKeepsIds(c, t, id);
    }
    var marks := ReserveMarks(c, t);
    hide NextReserve, MarkOk, MarkKeeps, SharedOk, HistoryOk;
    HistoryGrows(c, c', marks);
  }

  lemma ReserveMarks(c: Config, t: nat) returns (marks: seq<Mark>)
    requires HistoryReady(c, TryReserve(t))
    ensures var c' := NextReserve(c, t);
            && c'.history == c.history + marks
            && forall k | 0 <= k < |marks| :: MarkOk(c', marks[k]) && !marks[k].Dispatch? && !marks[k].Freed?
  {
    var th := c.threads[t];
    var reply := Reserve(c.limits, c.shared, th.id, th.digest).1;
    marks := if reply.Cached? then [Answered(th.id, Some(th.digest), reply.terminal)] else [];
  }

  lemma HistoryAfterLeave(c: Config, t: nat)
    requires HistoryReady(c, Leave(t))
    ensures HistoryOk(NextLeave(c, t))
  {
    var c' := NextLeave(c, t);
    forall id ensures IdKept(c, c', id) && DispatchKept(c, c', id) { LeaveKeepsIds(c, t, id); }
    var marks := LeaveMarks(c, t);
    HistoryGrows(c, c', marks);
  }

  lemma LeaveMarks(c: Config, t: nat) returns (marks: seq<Mark>)
    requires HistoryReady(c, Leave(t))
    ensures var c' := NextLeave(c, t);
            && c'.history == c.history + marks
            && forall k | 0 <= k < |marks| :: MarkOk(c', marks[k]) && !marks[k].Dispatch? && !marks[k].Freed?
  {
    var th := c.threads[t];
    marks := if th.stage.reply.Winner? && Unregister(c.shared, th.stage.on).1
             then [Answered(th.id, Some(th.digest), th.stage.reply.terminal)] else [];
  }

  lemma HistoryAfterAbort(c: Config, t: nat)
    requires HistoryReady(c, Abort(t))
    ensures HistoryOk(NextAbort(c, t))
  {
    var c' := NextAbort(c, t);
    forall i, id | 0 <= i < |c.history| && About(c.history[i], id) && MarkOk(c, c.history[i])
      ensures MarkKeeps(c, c', c.history[i], id)
    {
      assert c.threads[t].stage.BeforeDispatch();
      AbortKeepsIds(c, t, id);
    }
    var marks := AbortMarks(c, t);
    HistoryGrows(c, c', marks);
  }

  lemma AbortMarks(c: Config, t: nat) returns (marks: seq<Mark>)
    requires HistoryReady(c, Abort(t))
    ensures var c' := NextAbort(c, t);
            && c'.history == c.history + marks
            && forall k | 0 <= k < |marks| :: MarkOk(c', marks[k]) && !marks[k].Dispatch? && !marks[k].Freed?
  {
    hide OversizeFits, RecordOk, OwnersOk, HistoryOk;
    var th := c.threads[t];
    var reply := ReleasePreDispatch(c.shared, th.id, th.stage.on).1;
    marks := if reply.Won? then [Answered(th.id, Some(th.digest), reply.terminal)] else [];
  }

  lemma HistoryAfterCommit(c: Config, t: nat)
    requires HistoryReady(c, Commit(t))
    ensures HistoryOk(NextCommit(c, t))
  {
    hide NextCommit, MarkOk, MarkKeeps, SharedOk, HistoryOk, ThreadsOk, OwnersOk, ThreadOk;
    var marks := CommitMarks(c, t);
    forall i, id | 0 <= i < |c.history| && About(c.history[i], id) && MarkOk(c, c.history[i])
      ensures Ends(c.history[i], id, marks) || MarkKeeps(c, NextCommit(c, t), c.history[i], id)
    {
      CommitKeepsMark(c, t, c.history[i], id, marks);
    }
    HistoryGrows(c, NextCommit(c, t), marks);
  }

  lemma CommitKeepsMark(c: Config, t: nat, m: Mark, id: string, marks: seq<Mark>)
    requires HistoryReady(c, Commit(t)) && About(m, id) && NextCommit(c, t).history == c.history + marks
    ensures Ends(m, id, marks) || MarkKeeps(c, NextCommit(c, t), m, id)
  {
    hide NextCommit, IdKept, DispatchKept, SharedOk, HistoryOk, ThreadsOk, OwnersOk, ThreadOk;
    CommitKeepsIds(c, t, id);
    if NextCommit(c, t).history == c.history + [Orphaned(id)] {
      assert (c.history + marks)[|c.history|..] == marks && (c.history + [Orphaned(id)])[|c.history|..] == [Orphaned(id)];
    }
  }

  /** Completion answers with the stored terminal, last in whatever list it returns. */
  lemma CommitStores(l: Limits, s: Shared, id: string, r: nat, v: Verdict)
    requires r < |s.heap| && VerdictOk(id, v)
    ensures var (s', reply) := Complete(l, s, id, r, v);
            reply.Answer? ==>
              && reply.events != [] && r < |s'.heap| && s'.heap[r].terminal == Some(Last(reply.events))
              && s'.heap[r].digest == s.heap[r].digest
              && !s'.closed && s'.records == s.records && id in s.records && s.records[id] == r
  {
  }

  lemma CommitMarks(c: Config, t: nat) returns (marks: seq<Mark>)
    requires HistoryReady(c, Commit(t))
    ensures var c' := NextCommit(c, t);
            && c'.history == c.history + marks
            && forall k | 0 <= k < |marks| :: MarkOk(c', marks[k]) && !marks[k].Dispatch? && !marks[k].Freed?
  {
    hide NextCommit, Complete, OwnersOk, HistoryOk, Fits, OversizeFits;
    var th := c.threads[t];
    OwnRecord(c, th);
    assert c.shared.heap[th.stage.on].digest == Some(th.digest) && VerdictOk(th.id, th.stage.verdict) by {
      assert ThreadOk(c, th);
    }
    hide ThreadOk, SharedOk, VerdictOk;
    CommitStores(c.limits, c.shared, th.id, th.stage.on, th.stage.verdict);
    CommitConfig(c, t);
    var reply := Complete(c.limits, c.shared, th.id, th.stage.on, th.stage.verdict).1;
    match reply
    case CompleteRefused(code) => marks := if code == SizeFailure then [Orphaned(th.id)] else [];
    case Answer(events) =>
      marks := [Answered(th.id, Some(th.digest), Last(events))];
      AnswerOk(NextCommit(c, t), th, th.stage.on, Last(events));
  }

  lemma AnswerOk(c: Config, th: Thread, r: nat, terminal: Event)
    requires th.id in c.bound && c.bound[th.id] == r < |c.shared.heap|
    requires c.shared.heap[r].terminal == Some(terminal) && c.shared.heap[r].digest == Some(th.digest)
    ensures MarkOk(c, Answered(th.id, Some(th.digest), terminal))
  {
  }

  lemma HistoryAfterWalk(c: Config, a: Action)
    requires HistoryReady(c, a) && Walks(a)
    ensures HistoryOk(Next(c, a))
  {
    hide IdKept, DispatchKept, ThreadsOk, OwnersOk, HistoryOk, SharedOk, ThreadOk;
    forall id ensures IdKept(c, Next(c, a), id) && DispatchKept(c, Next(c, a), id) { WalkKeepsIds(c, a, id); }
    var marks := WalkAdds(c, a);
    hide Next, MarkOk, Scoped;
    HistoryGrows(c, Next(c, a), marks);
  }

  lemma WalkAdds(c: Config, a: Action) returns (marks: seq<Mark>)
    requires HistoryReady(c, a) && Walks(a)
    ensures Next(c, a).history == c.history + marks
    ensures forall k | 0 <= k < |marks| :: MarkOk(Next(c, a), marks[k])
  {
    hide ThreadsOk, OwnersOk, HistoryOk, SharedOk, ThreadOk, Evaluate;
    var th := c.threads[a.t];
    if a.CallBinding? {
      marks := [Dispatch(th.id)];
      DispatchMarkOk(c, a.t);
    } else {
      marks := if Onward(c, a) == Escaped then [Abandoned(th.stage.on)] else [];
    }
  }

  lemma DispatchMarkOk(c: Config, t: nat)
    requires HistoryReady(c, CallBinding(t))
    ensures MarkOk(Next(c, CallBinding(t)), Dispatch(c.threads[t].id))
  {
    var c' := Next(c, CallBinding(t));
    forall i | 0 <= i < |c'.threads| && c'.threads[i].stage.BeforeDispatch()
      ensures c'.threads[i].id != c.threads[t].id
    {
      assert i != t && c'.threads[i] == c.threads[i];
      assert ThreadOk(c, c.threads[i]);
      OneOwner(c, t, i);
    }
  }

  lemma HistoryAfterCancel(c: Config, id: string, p: Option<string>)
    requires HistoryReady(c, CancelCall(id, p))
    ensures HistoryOk(NextCancel(c, id, p))
  {
    var c' := NextCancel(c, id, p);
    forall other ensures IdKept(c, c', other) && DispatchKept(c, c', other) { CancelKeepsIds(c, id, p, other); }
    var marks := CancelAdds(c, id, p);
    HistoryGrows(c, c', marks);
  }

  lemma CancelAdds(c: Config, id: string, p: Option<string>) returns (marks: seq<Mark>)
    requires HistoryReady(c, CancelCall(id, p))
    ensures var c' := NextCancel(c, id, p);
            && c'.history == c.history + marks
            && forall k | 0 <= k < |marks| :: MarkOk(c', marks[k]) && !marks[k].Dispatch? && !marks[k].Freed?
  {
    var (s, reply) := Cancel(c.limits, c.shared, id, p);
    CancelConfig(c, id, p);
    CancelCreates(c.limits, c.shared, id, p);
    CancelClosed(c.limits, c.shared, id, p);
    hide NextCancel, Cancel, ThreadsOk, SharedOk, OwnersOk, HistoryOk, Fits, OversizeFits;
    marks := CancelMarks(id, reply, |s.heap| > |c.shared.heap|);
  }

  lemma CancelClosed(l: Limits, s: Shared, id: string, p: Option<string>)
    requires s.Scoped()
    ensures var (s', reply) := Cancel(l, s, id, p);
            reply.Outcome? ==> !s'.closed && id in s'.records && s'.records[id] < |s'.heap|
    ensures var (s', reply) := Cancel(l, s, id, p); |s'.heap| > |s.heap| ==> s'.records[id] == |s.heap|
  {
    CancelCreates(l, s, id, p);
    hide Bounded, LimitError, OversizeFits, Fits;
  }

  lemma HistoryAfterRelease(c: Config, id: string)
    requires HistoryReady(c, ReleaseCall(id))
    ensures HistoryOk(NextRelease(c, id))
  {
    var c' := NextRelease(c, id);
    var marks := if Release(c.shared, id).1.Released? then [Freed(id)] else [];
    forall other
      ensures Freed(other) in marks || (IdKept(c, c', other) && DispatchKept(c, c', other))
    {
      ReleaseKeepsIds(c, id, other);
      if c'.history == c.history + [Freed(other)] {
        assert c'.history[|c.history|] == Freed(other);
        assert marks == [Freed(other)];
      }
    }
    HistoryGrows(c, c', marks);
  }

  lemma HistoryAfterClose(c: Config)
    requires HistoryReady(c, CloseCall)
    ensures HistoryOk(Closed(c))
  {
    var c' := Closed(c);
    forall id ensures IdKept(c, c', id) && DispatchKept(c, c', id) { CloseKeepsIds(c, id); }
    HistoryGrows(c, c', []);
  }

  lemma HistoryAfterPeek(c: Config, id: string)
    requires HistoryReady(c, Peek(id))
    ensures HistoryOk(Next(c, Peek(id)))
  {
    var c' := Next(c, Peek(id));
    forall other ensures IdKept(c, c', other) && DispatchKept(c, c', other) {
      if other in c.bound { BoundId(c, other); }
    }
    HistoryGrows(c, c', match TerminalFor(c.shared, id) { case Some(x) => [Answered(id, None, x)] case None => [] });
  }

  lemma HistoryAfterCall(c: Config, a: Action)
    requires HistoryReady(c, a) && a.Call?
    ensures HistoryOk(Next(c, a))
  {
    var c' := Next(c, a);
    forall other ensures IdKept(c, c', other) && DispatchKept(c, c', other) {
      if other in c.bound { BoundId(c, other); }
    }
    HistoryGrows(c, c', []);
  }

  lemma HistoryKept(c: Config, a: Action)
    requires HistoryReady(c, a)
    ensures HistoryOk(Next(c, a))
  {
    hide HistoryReady, HistoryOk;
    match a
    case TryReserve(t) => HistoryAfterReserve(c, t);
    case Leave(t) => HistoryAfterLeave(c, t);
    case Abort(t) => HistoryAfterAbort(c, t);
    case Commit(t) => HistoryAfterCommit(c, t);
    case CancelCall(id, p) => HistoryAfterCancel(c, id, p);
    case ReleaseCall(id) => HistoryAfterRelease(c, id);
    case CloseCall => HistoryAfterClose(c);
    case Call(_, _, _) => HistoryAfterCall(c, a);
    case Peek(id) => HistoryAfterPeek(c, id);
    case _ => HistoryAfterWalk(c, a);
  }
}
