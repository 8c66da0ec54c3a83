/** Runs of the session guard: any number of `invoke` calls, with
    cancel, release, close and terminal_for calls between any two of their steps. */
module GuardRuns {
  import opened Wrappers
  import opened EventLoop
  import opened GuardState
  import opened GuardMachine
  import opened GuardThreads
  import opened GuardRecords
  import opened GuardCounts
  import opened GuardOwners
  import opened GuardHistory

  function Init(l: Limits): Config {
    Config(l, Fresh, [], map[], [], [])
  }

  ghost predicate Steps(c: Config, actions: seq<Action>, c': Config)
    decreases |actions|
  {
    if actions == [] then c' == c
    else Scoped(c) && Enabled(c, actions[0]) && Steps(Next(c, actions[0]), actions[1..], c')
  }

  ghost predicate Reachable(l: Limits, c: Config) {
    exists actions :: Steps(Init(l), actions, c)
  }

  // ----- The history is sound -----

  ghost predicate FreedBetween(h: seq<Mark>, i: int, j: int, id: string)
    requires 0 <= i && j <= |h|
  {
    exists k | i < k < j :: h[k] == Freed(id)
  }

  /** What entry `i` says about its id has ended before entry `j`. */
  ghost predicate EndedBetween(h: seq<Mark>, i: int, j: int, id: string)
    requires 0 <= i < |h| && j <= |h|
  {
    exists k | i < k < j :: h[k] == Freed(id) || (h[i].Dispatch? && h[k] == Orphaned(id))
  }

  /** Two entries of the history, the earlier first, never contradict each other: a second
      binding call needs a release or an orphaned record in between, a binding call after a
      cancellation that came first needs a release, and without a release all answers carry
      one terminal and all `invoke` callers one digest. */
  ghost predicate Compatible(h: seq<Mark>, i: int, j: int)
    requires 0 <= i < j < |h|
  {
    && ((h[i].Dispatch? || h[i].CancelledFirst?) && h[j].Dispatch? && h[i].id == h[j].id ==>
          EndedBetween(h, i, j, h[i].id))
    && (h[i].Answered? && h[j].Answered? && h[i].id == h[j].id && !FreedBetween(h, i, j, h[i].id) ==>
          && h[i].terminal == h[j].terminal
          && (h[i].digest.Some? && h[j].digest.Some? ==> h[i].digest == h[j].digest))
  }

  ghost predicate Sound(h: seq<Mark>) {
    forall i, j | 0 <= i < j < |h| :: Compatible(h, i, j)
  }

  ghost predicate Ready(c: Config, a: Action) {
    Inv(c) && Enabled(c, a)
  }

  lemma EverythingReady(c: Config, a: Action)
    requires Ready(c, a)
    ensures Scoped(c) && GuardThreads.Ready(c, a) && HistoryReady(c, a) && OwnersReady(c, a)
  {
    BoundScoped(c);
    InvScoped(c);
    if a.OfThread() {
      assert ThreadOk(c, c.threads[a.t]);
    }
  }

  lemma NewMarks(c: Config, a: Action) returns (marks: seq<Mark>)
    requires HistoryReady(c, a)
    ensures Next(c, a).history == c.history + marks
    ensures forall k | 0 <= k < |marks| :: marks[k].Dispatch? ==> a.CallBinding? && marks == [Dispatch(c.threads[a.t].id)]
    ensures forall k | 0 <= k < |marks| :: marks[k].Freed? ==> |marks| == 1
  {
    hide MarkOk, NextReserve, NextLeave, NextAbort, NextCommit, NextCancel, ThreadsOk, OwnersOk, HistoryOk, SharedOk, ThreadOk, Close;
    match a
    case TryReserve(t) => marks := ReserveMarks(c, t);
    case Leave(t) => marks := LeaveMarks(c, t);
    case Abort(t) => marks := AbortMarks(c, t);
    case Commit(t) => marks := CommitMarks(c, t);
    case CancelCall(id, p) => marks := CancelAdds(c, id, p);
    case ReleaseCall(id) => marks := if Release(c.shared, id).1.Released? then [Freed(id)] else [];
    case CloseCall => marks := [];
    case Call(_, _, _) => marks := [];
    case Peek(id) => marks := match TerminalFor(c.shared, id) { case Some(x) => [Answered(id, None, x)] case None => [] };
    case _ => marks := WalkMarks(c, a);
  }

  lemma WalkMarks(c: Config, a: Action) returns (marks: seq<Mark>)
    requires HistoryReady(c, a) && Walks(a)
    ensures Next(c, a).history == c.history + marks
    ensures a.CallBinding? ==> marks == [Dispatch(c.threads[a.t].id)]
    ensures !a.CallBinding? ==> forall k | 0 <= k < |marks| :: marks[k].Abandoned?
  {
    marks := if a.CallBinding? then [Dispatch(c.threads[a.t].id)]
             else if Onward(c, a) == Escaped then [Abandoned(c.threads[a.t].stage.on)] else [];
  }

  lemma StepKeepsInv(c: Config, a: Action)
    requires Ready(c, a)
    ensures Scoped(c) && Inv(Next(c, a))
  {
    EverythingReady(c, a);
    ThreadsKept(c, a);
    RecordsKept(c, a);
    CountsKept(c, a);
    OwnersKept(c, a);
    HistoryKept(c, a);
  }

  /** The first half of `Compatible`. */
  ghost predicate DispatchSafe(h: seq<Mark>, i: int, j: int)
    requires 0 <= i < j < |h|
  {
    (h[i].Dispatch? || h[i].CancelledFirst?) && h[j].Dispatch? && h[i].id == h[j].id ==> EndedBetween(h, i, j, h[i].id)
  }

  lemma StepKeepsSound(c: Config, a: Action)
    requires Ready(c, a) && Sound(c.history)
    ensures Scoped(c) && Sound(Next(c, a).history)
  {
    StepKeepsInv(c, a);
    EverythingReady(c, a);
    var marks := NewMarks(c, a);
    forall i, j | 0 <= i < j < |c.history + marks| && |c.history| <= j
      ensures DispatchSafe(c.history + marks, i, j)
    {
      NewDispatchSafe(c, a, marks, i, j);
    }
    SoundGrows(c, Next(c, a), marks);
  }

  lemma NewDispatchSafe(c: Config, a: Action, marks: seq<Mark>, i: int, j: int)
    requires Ready(c, a) && Scoped(c) && 0 <= i < j < |c.history + marks| && |c.history| <= j
    requires forall k | 0 <= k < |marks| :: marks[k].Dispatch? ==> a.CallBinding? && marks == [Dispatch(c.threads[a.t].id)]
    ensures DispatchSafe(c.history + marks, i, j)
  {
    assert (c.history + marks)[j] == marks[j - |c.history|];
    var m := (c.history + marks)[i];
    if marks[j - |c.history|].Dispatch? && (m.Dispatch? || m.CancelledFirst?) && m.id == marks[0].id {
      DispatchIsFirst(c, a, i);
    }
  }

  lemma SoundGrows(c: Config, c': Config, marks: seq<Mark>)
    requires Sound(c.history) && HistoryOk(c') && c'.history == c.history + marks
    requires forall k | 0 <= k < |marks| :: marks[k].Freed? ==> |marks| == 1
    requires forall i, j | 0 <= i < j < |c'.history| && |c.history| <= j :: DispatchSafe(c'.history, i, j)
    ensures Sound(c'.history)
  {
    forall i, j | 0 <= i < j < |c'.history|
      ensures Compatible(c'.history, i, j)
    {
      if j < |c.history| {
        assert Compatible(c.history, i, j);
        OldPair(c.history, marks, i, j);
      } else {
        assert DispatchSafe(c'.history, i, j);
        NewPair(c, c', marks, i, j);
      }
    }
  }

  lemma NewPair(c: Config, c': Config, marks: seq<Mark>, i: int, j: int)
    requires HistoryOk(c') && c'.history == c.history + marks && |c.history| <= j && 0 <= i < j < |c'.history|
    requires forall k | 0 <= k < |marks| :: marks[k].Freed? ==> |marks| == 1
    requires DispatchSafe(c'.history, i, j)
    ensures Compatible(c'.history, i, j)
  {
    var h' := c'.history;
    assert h'[j] == marks[j - |c.history|];
    if h'[i].Answered? && h'[j].Answered? && h'[i].id == h'[j].id && !FreedBetween(h', i, j, h'[i].id) {
      forall k | j <= k < |h'| ensures !h'[k].Freed? { assert h'[k] == marks[k - |c.history|]; }
      AnswersAgree(c', i, j);
    }
  }

  /** Two answers still in force name the one terminal the id's record holds. */
  lemma AnswersAgree(c: Config, i: int, j: int)
    requires HistoryOk(c) && 0 <= i < j < |c.history|
    requires c.history[i].Answered? && c.history[j].Answered? && c.history[i].id == c.history[j].id
    requires !FreedBetween(c.history, i, j, c.history[i].id)
    requires forall k | j <= k < |c.history| :: !c.history[k].Freed?
    ensures Compatible(c.history, i, j)
  {
    var h := c.history;
    assert InForce(h, i, h[i].id) && InForce(h, j, h[j].id);
    assert MarkOk(c, h[i]) && MarkOk(c, h[j]);
  }

  lemma OldPair(h: seq<Mark>, marks: seq<Mark>, i: int, j: int)
    requires 0 <= i < j < |h| && Compatible(h, i, j)
    ensures Compatible(h + marks, i, j)
  {
    var h' := h + marks;
    assert h'[i] == h[i] && h'[j] == h[j];
    assert forall k | i < k < j :: h'[k] == h[k];
    forall id
      ensures FreedBetween(h, i, j, id) <==> FreedBetween(h', i, j, id)
      ensures EndedBetween(h, i, j, id) <==> EndedBetween(h', i, j, id)
    {
    }
  }

  /** The binding is called only when no live call or early cancellation is on record. */
  lemma DispatchIsFirst(c: Config, a: Action, i: nat)
    requires Ready(c, a) && Scoped(c) && a.CallBinding? && i < |c.history|
    requires c.history[i].Dispatch? || c.history[i].CancelledFirst?
    requires c.history[i].id == c.threads[a.t].id
    ensures Next(c, a).history == c.history + [Dispatch(c.threads[a.t].id)]
    ensures EndedBetween(Next(c, a).history, i, |c.history|, c.history[i].id)
  {
    var id := c.history[i].id;
    assert ThreadOk(c, c.threads[a.t]);
    assert c.threads[a.t].stage.BeforeDispatch();
    assert !MarkOk(c, c.history[i]);
    assert !InForce(c.history, i, id);
    var k :| i < k < |c.history| && (c.history[k] == Freed(id) || (c.history[i].Dispatch? && c.history[k] == Orphaned(id)));
    assert Next(c, a).history[k] == c.history[k] && Next(c, a).history[i] == c.history[i];
  }

  // ----- Threads at rest -----

  /** A step touches no call but its own. */
  lemma OthersStay(c: Config, a: Action, t: nat)
    requires Scoped(c) && Enabled(c, a) && t < |c.threads| && !(a.OfThread() && a.t == t)
    ensures t < |Next(c, a).threads| && Next(c, a).threads[t] == c.threads[t]
  {
    hide Reserve, Complete, ReleasePreDispatch, Unregister, GuardState.Cancel, Release, Close, TerminalFor, Evaluate, ReadRecord;
  }

  lemma NobodyIsAdded(c: Config, a: Action)
    requires Scoped(c) && Enabled(c, a) && !a.Call?
    ensures |Next(c, a).threads| == |c.threads|
  {
    hide Reserve, Complete, ReleasePreDispatch, Unregister, GuardState.Cancel, Release, Close, TerminalFor, Evaluate, ReadRecord;
  }

  // ----- Every run -----

  lemma {:induction false} StepsKeepInv(c: Config, actions: seq<Action>, c': Config)
    requires Inv(c) && Sound(c.history) && Steps(c, actions, c')
    ensures Inv(c') && Sound(c'.history) && c'.limits == c.limits
    decreases |actions|
  {
    if actions != [] {
      StepKeepsInv(c, actions[0]);
      StepKeepsSound(c, actions[0]);
      StepKeepsLimits(c, actions[0]);
      StepsKeepInv(Next(c, actions[0]), actions[1..], c');
    }
  }

  lemma StepKeepsLimits(c: Config, a: Action)
    requires Scoped(c) && Enabled(c, a)
    ensures Next(c, a).limits == c.limits
  {
  }

  lemma ReachableInv(l: Limits, c: Config)
    requires Reachable(l, c)
    ensures Inv(c) && Sound(c.history) && Scoped(c) && c.limits == l
  {
    var actions :| Steps(Init(l), actions, c);
    StepsKeepInv(Init(l), actions, c);
    BoundScoped(c);
    InvScoped(c);
  }

  lemma {:induction false} StepsConcat(c: Config, first: seq<Action>, c1: Config, second: seq<Action>, c2: Config)
    requires Steps(c, first, c1) && Steps(c1, second, c2)
    ensures Steps(c, first + second, c2)
    decreases |first|
  {
    if first == [] {
      assert first + second == second;
    } else {
      assert (first + second)[1..] == first[1..] + second;
      StepsConcat(Next(c, first[0]), first[1..], c1, second, c2);
    }
  }
}
