/** What a run's actions say about its history: an owner is lost exactly where the run holds
    an interrupt or an unreportable stream, and a record is orphaned only where it offers a
    terminal that cannot be sized. */
module GuardOffers {
  import opened Wrappers
  import opened EventLoop
  import opened GuardState
  import opened GuardMachine
  import opened GuardThreads
  import opened GuardOwners
  import opened GuardHistory
  import opened GuardRuns

  /** The `invoke` calls of a run, oldest first: thread `t` is the call at position `t`. */
  function Callers(actions: seq<Action>): seq<Action> {
    if actions == [] then []
    else Callers(actions[..|actions| - 1]) + if actions[|actions| - 1].Call? then [actions[|actions| - 1]] else []
  }

  predicate IsCaller(actions: seq<Action>, t: nat, id: string) {
    t < |Callers(actions)| && Callers(actions)[t].Call? && Callers(actions)[t].id == id
  }

  /** The terminal that the stream leads to cannot be sized. */
  predicate UnsizableOffer(l: Limits, id: string, provenance: Option<string>, stream: Stream) {
    Evaluate(id, provenance, stream).Some? && l.size(Evaluate(id, provenance, stream).value.candidate).None?
  }

  ghost predicate LosesAt(actions: seq<Action>, k: int, id: string) {
    0 <= k < |actions| &&
    match actions[k]
    case Interrupt(t) => IsCaller(actions, t, id)
    case Finish(t, stream) => IsCaller(actions, t, id) && Unreportable(id, stream)
    case _ => false
  }

  /** Some owner's call for `id` is left by an exception that `invoke` does not handle. */
  ghost predicate LosesOwner(actions: seq<Action>, id: string) {
    exists k :: LosesAt(actions, k, id)
  }

  ghost predicate OffersAt(l: Limits, actions: seq<Action>, k: int, id: string) {
    0 <= k < |actions| &&
    match actions[k]
    case Finish(t, stream) => IsCaller(actions, t, id) && UnsizableOffer(l, id, Callers(actions)[t].provenance, stream)
    case CancelCall(other, provenance) => other == id && l.size(CancelEvent(id, provenance)).None?
    case _ => false
  }

  /** Some stream or cancel of the run offers a terminal for `id` that cannot be sized. */
  ghost predicate OffersUnsizable(l: Limits, actions: seq<Action>, id: string) {
    exists k :: OffersAt(l, actions, k, id)
  }

  // ----- Runs grow at the end -----

  lemma CallersMore(actions: seq<Action>, a: Action)
    ensures Callers(actions + [a]) == Callers(actions) + if a.Call? then [a] else []
  {
    assert (actions + [a])[..|actions + [a]| - 1] == actions;
  }

  lemma LosesMore(actions: seq<Action>, a: Action, id: string)
    ensures LosesOwner(actions, id) ==> LosesOwner(actions + [a], id)
    ensures LosesOwner(actions + [a], id) && InRange(actions) ==> LosesOwner(actions, id) || LosesAt(actions + [a], |actions|, id)
  {
    CallersMore(actions, a);
    hide Unreportable;
    if k :| LosesAt(actions, k, id) {
      assert (actions + [a])[k] == actions[k];
      assert LosesAt(actions + [a], k, id);
    }
    if LosesOwner(actions + [a], id) && InRange(actions) {
      var k :| LosesAt(actions + [a], k, id);
      if k < |actions| {
        assert (actions + [a])[k] == actions[k] && Ranged(actions, k);
        assert LosesAt(actions, k, id);
      }
    }
  }

  lemma OffersMore(l: Limits, actions: seq<Action>, a: Action, id: string)
    ensures OffersUnsizable(l, actions, id) ==> OffersUnsizable(l, actions + [a], id)
  {
    CallersMore(actions, a);
    hide UnsizableOffer;
    if k :| OffersAt(l, actions, k, id) {
      assert (actions + [a])[k] == actions[k];
      assert OffersAt(l, actions + [a], k, id);
    }
  }

  ghost predicate Ranged(actions: seq<Action>, k: int)
    requires 0 <= k < |actions|
  {
    actions[k].Interrupt? || actions[k].Finish? ==> actions[k].t < |Callers(actions)|
  }

  /** Every interrupt and every stream belongs to a call made in the run. */
  ghost predicate InRange(actions: seq<Action>) {
    forall k | 0 <= k < |actions| :: Ranged(actions, k)
  }

  // ----- The run and the state it leads to -----

  /** An owner of a record of `id` was lost. */
  ghost predicate LossOf(c: Config, id: string) {
    exists r: nat :: LossAt(c, id, r)
  }

  ghost predicate LossAt(c: Config, id: string, r: nat) {
    Abandoned(r) in c.history && r < |c.names| && c.names[r] == id
  }

  ghost predicate SameCallers(actions: seq<Action>, c: Config) {
    && |Callers(actions)| == |c.threads|
    && forall t | 0 <= t < |c.threads| ::
         && Callers(actions)[t].Call? && c.threads[t].id == Callers(actions)[t].id
         && c.threads[t].provenance == Callers(actions)[t].provenance
  }

  /** A verdict that cannot be sized comes from a stream of the run. */
  ghost predicate OfferedBy(actions: seq<Action>, c: Config) {
    forall t | 0 <= t < |c.threads| && c.threads[t].stage.Completing? ::
      c.limits.size(c.threads[t].stage.verdict.candidate).None? ==> OffersUnsizable(c.limits, actions, c.threads[t].id)
  }

  ghost predicate Traced(actions: seq<Action>, c: Config) {
    && InRange(actions) && SameCallers(actions, c) && OfferedBy(actions, c)
    && (forall id: string | Orphaned(id) in c.history :: OffersUnsizable(c.limits, actions, id))
    && (forall id: string :: LosesOwner(actions, id) <==> LossOf(c, id))
  }

  // ----- Steps -----

  ghost predicate KeepsCallers(c: Config, c': Config) {
    && |c.threads| == |c'.threads|
    && forall t | 0 <= t < |c.threads| ::
         && c'.threads[t].id == c.threads[t].id && c'.threads[t].provenance == c.threads[t].provenance
         && (c'.threads[t].stage.Completing? ==> c'.threads[t].stage == c.threads[t].stage)
  }

  /** The marks of a step that can tell of a loss or of an orphaned record. */
  ghost predicate Tells(c: Config, c': Config, a: Action, marks: seq<Mark>) {
    && c'.history == c.history + marks && c.names <= c'.names && c'.limits == c.limits
    && (forall k | 0 <= k < |marks| :: !marks[k].Abandoned?)
    && (forall k | 0 <= k < |marks| && marks[k].Orphaned? ::
          (a.CancelCall? && marks[k].id == a.id && c.limits.size(CancelEvent(a.id, a.provenance)).None?)
          || (a.Commit? && a.t < |c.threads| && marks[k].id == c.threads[a.t].id && c.threads[a.t].stage.Completing?
              && c.limits.size(c.threads[a.t].stage.verdict.candidate).None?))
  }

  lemma TellsOfReserve(c: Config, t: nat) returns (marks: seq<Mark>)
    requires HistoryReady(c, TryReserve(t))
    ensures KeepsCallers(c, NextReserve(c, t)) && Tells(c, NextReserve(c, t), TryReserve(t), marks)
  {
    hide ThreadsOk, OwnersOk, HistoryOk, RecordOk, ThreadOk, OversizeFits;
    ReserveConfig(c, t);
    ReserveMoves(c, t);
    ReserveStages(c, t);
    hide NextReserve, Reserve;
    var c' := NextReserve(c, t);
    marks := c'.history[|c.history|..];
  }

  lemma TellsOfLeave(c: Config, t: nat) returns (marks: seq<Mark>)
    requires HistoryReady(c, Leave(t))
    ensures KeepsCallers(c, NextLeave(c, t)) && Tells(c, NextLeave(c, t), Leave(t), marks)
  {
    hide ThreadsOk, OwnersOk, HistoryOk, RecordOk, ThreadOk, OversizeFits;
    LeaveConfig(c, t);
    LeaveShape(c, t);
    marks := NextLeave(c, t).history[|c.history|..];
  }

  lemma TellsOfAbort(c: Config, t: nat) returns (marks: seq<Mark>)
    requires HistoryReady(c, Abort(t))
    ensures KeepsCallers(c, NextAbort(c, t)) && Tells(c, NextAbort(c, t), Abort(t), marks)
  {
    hide ThreadsOk, OwnersOk, HistoryOk, RecordOk, ThreadOk, OversizeFits;
    AbortConfig(c, t);
    marks := NextAbort(c, t).history[|c.history|..];
  }

  lemma TellsOfCommit(c: Config, t: nat) returns (marks: seq<Mark>)
    requires HistoryReady(c, Commit(t))
    ensures KeepsCallers(c, NextCommit(c, t)) && Tells(c, NextCommit(c, t), Commit(t), marks)
  {
    hide ThreadsOk, OwnersOk, HistoryOk, SharedOk, ThreadOk, OversizeFits, Fits, Complete, NextCommit;
    var th := c.threads[t];
    LiveRecord(c, th);
    CommitConfig(c, t);
    CommitProvenance(c, t);
    CompleteShape(c.limits, c.shared, th.id, th.stage.on, th.stage.verdict);
    hide Scoped;
    marks := NextCommit(c, t).history[|c.history|..];
  }

  lemma CommitProvenance(c: Config, t: nat)
    requires Scoped(c) && Enabled(c, Commit(t))
    ensures NextCommit(c, t).threads[t].provenance == c.threads[t].provenance
    ensures NextCommit(c, t).threads[t].stage.Done()
  {
    hide Complete;
  }

  lemma TellsOfCancel(c: Config, id: string, p: Option<string>) returns (marks: seq<Mark>)
    requires HistoryReady(c, CancelCall(id, p))
    ensures KeepsCallers(c, NextCancel(c, id, p)) && Tells(c, NextCancel(c, id, p), CancelCall(id, p), marks)
  {
    hide ThreadsOk, OwnersOk, HistoryOk, RecordOk, OversizeFits, Fits, Cancel;
    CancelConfig(c, id, p);
    CancelCreates(c.limits, c.shared, id, p);
    hide NextCancel;
    var (s, reply) := Cancel(c.limits, c.shared, id, p);
    marks := CancelMarks(id, reply, |s.heap| > |c.shared.heap|);
  }

  /** Steps of calls other than those that end the preparation or the binding call. */
  predicate Settles(a: Action) {
    a.Interrupt? || a.Finish? || a.Call?
  }

  lemma TellsOfStep(c: Config, a: Action) returns (marks: seq<Mark>)
    requires HistoryReady(c, a) && !Settles(a)
    ensures KeepsCallers(c, Next(c, a)) && Tells(c, Next(c, a), a, marks)
  {
    match a
    case TryReserve(t) => marks := TellsOfReserve(c, t);
    case Leave(t) => marks := TellsOfLeave(c, t);
    case Abort(t) => marks := TellsOfAbort(c, t);
    case Commit(t) => marks := TellsOfCommit(c, t);
    case CancelCall(id, p) => marks := TellsOfCancel(c, id, p);
    case _ => marks := TellsOfRest(c, a);
  }

  lemma TellsOfRest(c: Config, a: Action) returns (marks: seq<Mark>)
    requires HistoryReady(c, a) && !Settles(a)
    requires !a.TryReserve? && !a.Leave? && !a.Abort? && !a.Commit? && !a.CancelCall?
    ensures KeepsCallers(c, Next(c, a)) && Tells(c, Next(c, a), a, marks)
  {
    hide ThreadsOk, OwnersOk, HistoryOk, SharedOk, ThreadOk, Evaluate, Close;
    marks := match a
             case ReleaseCall(id) => if Release(c.shared, id).1.Released? then [Freed(id)] else []
             case Peek(id) => (match TerminalFor(c.shared, id) case Some(x) => [Answered(id, None, x)] case None => [])
             case CallBinding(t) => [Dispatch(c.threads[t].id)]
             case _ => [];
  }

  // ----- The trace survives each step -----

  ghost predicate NamedLosses(c: Config) {
    forall r: nat | Abandoned(r) in c.history :: r < |c.names|
  }

  lemma LossesAreNamed(c: Config)
    requires OwnersOk(c)
    ensures NamedLosses(c)
  {
    assert forall r: nat | Abandoned(r) in c.history :: Lost(c, r);
  }

  lemma RangeMore(actions: seq<Action>, c: Config, a: Action)
    requires InRange(actions) && SameCallers(actions, c) && Enabled(c, a)
    ensures InRange(actions + [a])
  {
    CallersMore(actions, a);
    var longer := actions + [a];
    forall k | 0 <= k < |longer|
      ensures Ranged(longer, k)
    {
      if k < |actions| {
        assert Ranged(actions, k);
      }
    }
  }

  lemma TracedQuietly(actions: seq<Action>, c: Config, a: Action, c': Config, marks: seq<Mark>)
    requires Traced(actions, c) && NamedLosses(c) && Enabled(c, a) && !Settles(a)
    requires KeepsCallers(c, c') && Tells(c, c', a, marks)
    ensures Traced(actions + [a], c')
  {
    hide OffersUnsizable, LosesOwner, LossOf;
    RangeMore(actions, c, a);
    CallersMore(actions, a);
    forall t | 0 <= t < |c'.threads| && c'.threads[t].stage.Completing?
      ensures c'.limits.size(c'.threads[t].stage.verdict.candidate).None? ==>
                OffersUnsizable(c'.limits, actions + [a], c'.threads[t].id)
    {
      OffersMore(c.limits, actions, a, c.threads[t].id);
    }
    forall id: string | Orphaned(id) in c'.history
      ensures OffersUnsizable(c'.limits, actions + [a], id)
    {
      OrphanedAsOffered(actions, c, a, c', marks, id);
    }
    forall id: string
      ensures LosesOwner(actions + [a], id) <==> LossOf(c', id)
    {
      QuietLoss(actions, c, a, c', marks, id);
    }
  }

  lemma OrphanedAsOffered(actions: seq<Action>, c: Config, a: Action, c': Config, marks: seq<Mark>, id: string)
    requires Traced(actions, c) && Tells(c, c', a, marks) && Orphaned(id) in c'.history
    ensures OffersUnsizable(c'.limits, actions + [a], id)
  {
    OffersMore(c.limits, actions, a, id);
    if Orphaned(id) in marks {
      if a.CancelCall? {
        assert (actions + [a])[|actions|] == a;
        assert OffersAt(c.limits, actions + [a], |actions|, id);
      }
    } else {
      assert Orphaned(id) in c.history;
    }
  }

  lemma QuietLoss(actions: seq<Action>, c: Config, a: Action, c': Config, marks: seq<Mark>, id: string)
    requires InRange(actions) && (LosesOwner(actions, id) <==> LossOf(c, id)) && !Settles(a) && Tells(c, c', a, marks)
    requires NamedLosses(c)
    ensures LosesOwner(actions + [a], id) <==> LossOf(c', id)
  {
    LosesMore(actions, a, id);
    assert (actions + [a])[|actions|] == a;
    hide LosesOwner;
    if r: nat :| LossAt(c, id, r) {
      assert LossAt(c', id, r);
    }
    if r: nat :| LossAt(c', id, r) {
      assert Abandoned(r) in c.history;
      assert LossAt(c, id, r);
    }
  }

  lemma TracedCall(actions: seq<Action>, c: Config, a: Action)
    requires Traced(actions, c) && NamedLosses(c) && Scoped(c) && Enabled(c, a) && a.Call?
    ensures Traced(actions + [a], Next(c, a))
  {
    var c' := Next(c, a);
    hide OffersUnsizable, LosesOwner, LossOf;
    RangeMore(actions, c, a);
    CallersMore(actions, a);
    forall t | 0 <= t < |c'.threads| && c'.threads[t].stage.Completing?
      ensures c'.limits.size(c'.threads[t].stage.verdict.candidate).None? ==>
                OffersUnsizable(c'.limits, actions + [a], c'.threads[t].id)
    {
      OffersMore(c.limits, actions, a, c.threads[t].id);
    }
    forall id: string | Orphaned(id) in c'.history
      ensures OffersUnsizable(c'.limits, actions + [a], id)
    {
      OffersMore(c.limits, actions, a, id);
    }
    forall id: string
      ensures LosesOwner(actions + [a], id) <==> LossOf(c', id)
    {
      SameLossOf(c, c', id);
      LosesMore(actions, a, id);
      assert (actions + [a])[|actions|] == a;
      assert !LosesAt(actions + [a], |actions|, id);
    }
  }

  lemma SameLossOf(c: Config, c': Config, id: string)
    requires c'.history == c.history && c'.names == c.names
    ensures LossOf(c', id) <==> LossOf(c, id)
  {
    if r: nat :| LossAt(c, id, r) { assert LossAt(c', id, r); }
    if r: nat :| LossAt(c', id, r) { assert LossAt(c, id, r); }
  }

  /** An interrupt or an unreportable stream is what escapes, and nothing else does. */
  ghost predicate SettledShape(c: Config, c': Config, a: Action)
    requires a.Interrupt? || a.Finish?
  {
    && a.t < |c.threads| == |c'.threads| && c'.names == c.names && c'.limits == c.limits
    && (forall t | 0 <= t < |c.threads| && t != a.t :: c'.threads[t] == c.threads[t])
    && var th := c.threads[a.t];
       && (th.stage.Preparing? || th.stage.Dispatched?)
       && c'.threads[a.t] == th.(stage := c'.threads[a.t].stage)
       && th.stage.on < |c.names| && c.names[th.stage.on] == th.id
       && if a.Interrupt? || Unreportable(th.id, a.stream) then
            c'.history == c.history + [Abandoned(th.stage.on)] && !c'.threads[a.t].stage.Completing?
          else
            && c'.history == c.history && c'.threads[a.t].stage.Completing?
            && Evaluate(th.id, th.provenance, a.stream) == Some(c'.threads[a.t].stage.verdict)
  }

  lemma SettleShape(c: Config, a: Action)
    requires HistoryReady(c, a) && (a.Interrupt? || a.Finish?)
    ensures SettledShape(c, Next(c, a), a)
  {
    hide SharedOk, ThreadsOk, OwnersOk, HistoryOk, Unreportable, Evaluate, ThreadOk;
    var th := c.threads[a.t];
    OwnRecord(c, th);
    if a.Finish? {
      NoVerdictIff(th.id, th.provenance, a.stream);
    }
    hide Scoped;
  }

  lemma TracedSettle(actions: seq<Action>, c: Config, c': Config, a: Action)
    requires Traced(actions, c) && Enabled(c, a) && (a.Interrupt? || a.Finish?) && SettledShape(c, c', a)
    ensures Traced(actions + [a], c')
  {
    hide Enabled, OffersUnsizable, LosesOwner, LossOf, Unreportable, Evaluate, UnsizableOffer;
    RangeMore(actions, c, a);
    CallersMore(actions, a);
    forall t | 0 <= t < |c'.threads| && c'.threads[t].stage.Completing?
      ensures c'.limits.size(c'.threads[t].stage.verdict.candidate).None? ==>
                OffersUnsizable(c'.limits, actions + [a], c'.threads[t].id)
    {
      OffersMore(c.limits, actions, a, c.threads[t].id);
      if t == a.t {
        OfferedNow(actions, c, c', a);
      }
    }
    forall id: string | Orphaned(id) in c'.history
      ensures OffersUnsizable(c'.limits, actions + [a], id)
    {
      assert Orphaned(id) in c.history;
      OffersMore(c.limits, actions, a, id);
    }
    forall id: string
      ensures LosesOwner(actions + [a], id) <==> LossOf(c', id)
    {
      LostNow(actions, c, c', a, id);
    }
  }

  lemma OfferedNow(actions: seq<Action>, c: Config, c': Config, a: Action)
    requires SameCallers(actions, c) && Enabled(c, a) && (a.Interrupt? || a.Finish?) && |c'.threads| == |c.threads|
    requires a.t < |c.threads| && c'.threads[a.t].id == c.threads[a.t].id && c'.threads[a.t].stage.Completing?
    requires var th := c.threads[a.t];
             a.Finish? && Evaluate(th.id, th.provenance, a.stream) == Some(c'.threads[a.t].stage.verdict)
    ensures c.limits.size(c'.threads[a.t].stage.verdict.candidate).None? ==>
              OffersUnsizable(c.limits, actions + [a], c'.threads[a.t].id)
  {
    hide Evaluate;
    CallersMore(actions, a);
    if c.limits.size(c'.threads[a.t].stage.verdict.candidate).None? {
      assert (actions + [a])[|actions|] == a;
      assert OffersAt(c.limits, actions + [a], |actions|, c.threads[a.t].id);
    }
  }

  lemma LostNow(actions: seq<Action>, c: Config, c': Config, a: Action, id: string)
    requires InRange(actions) && SameCallers(actions, c) && Enabled(c, a) && (a.Interrupt? || a.Finish?)
    requires LosesOwner(actions, id) <==> LossOf(c, id)
    requires c'.names == c.names && a.t < |c.threads|
    requires c.threads[a.t].stage.Preparing? || c.threads[a.t].stage.Dispatched?
    requires var th := c.threads[a.t];
             && th.stage.on < |c.names| && c.names[th.stage.on] == th.id
             && c'.history == c.history
                + if a.Interrupt? || Unreportable(th.id, a.stream) then [Abandoned(th.stage.on)] else []
    ensures LosesOwner(actions + [a], id) <==> LossOf(c', id)
  {
    hide Unreportable;
    CallersMore(actions, a);
    LosesMore(actions, a, id);
    var th := c.threads[a.t];
    assert (actions + [a])[|actions|] == a;
    assert LosesAt(actions + [a], |actions|, id) <==> th.id == id && (a.Interrupt? || Unreportable(id, a.stream));
    if LosesAt(actions + [a], |actions|, id) {
      assert LossAt(c', id, th.stage.on);
    }
    if r: nat :| LossAt(c, id, r) {
      assert LossAt(c', id, r);
    }
    if r: nat :| LossAt(c', id, r) {
      assert Abandoned(r) in c.history ==> LossAt(c, id, r);
    }
  }

  // ----- Every run -----

  lemma TracedStep(actions: seq<Action>, c: Config, a: Action)
    requires Traced(actions, c) && Inv(c) && Scoped(c) && Enabled(c, a)
    ensures Traced(actions + [a], Next(c, a))
  {
    EverythingReady(c, a);
    LossesAreNamed(c);
    var c' := Next(c, a);
    hide Traced, NamedLosses, Next, Inv, SettledShape, KeepsCallers, Tells;
    if a.Call? {
      TracedCall(actions, c, a);
    } else if a.Interrupt? || a.Finish? {
      SettleShape(c, a);
      TracedSettle(actions, c, Next(c, a), a);
    } else {
      var marks := TellsOfStep(c, a);
      TracedQuietly(actions, c, a, Next(c, a), marks);
    }
  }

  lemma {:induction false} TracedRun(past: seq<Action>, c: Config, actions: seq<Action>, c': Config)
    requires Traced(past, c) && Inv(c) && Steps(c, actions, c')
    ensures Traced(past + actions, c')
    decreases |actions|
  {
    hide Traced, Inv;
    if actions == [] {
      assert past + actions == past;
    } else {
      StepKeepsInv(c, actions[0]);
      TracedStep(past, c, actions[0]);
      assert past + actions == (past + [actions[0]]) + actions[1..];
      TracedRun(past + [actions[0]], Next(c, actions[0]), actions[1..], c');
    }
  }

  lemma RunIsTraced(l: Limits, actions: seq<Action>, c: Config)
    requires Steps(Init(l), actions, c)
    ensures Reachable(l, c) && c.limits == l && Traced(actions, c)
  {
    assert Callers([]) == [];
    assert forall id: string :: !LosesOwner([], id) && !LossOf(Init(l), id);
    TracedRun([], Init(l), actions, c);
    assert [] + actions == actions;
    ReachableInv(l, c);
  }

  // ----- Main results -----

  /** The history records the loss of an owner of `id` exactly when the run holds an interrupt
      of one of its calls before dispatch, or gives one of them an unreportable stream. */
  lemma LossesAreActions(l: Limits, actions: seq<Action>, c: Config, id: string)
    requires Steps(Init(l), actions, c)
    ensures LosesOwner(actions, id) <==> exists r: nat :: Abandoned(r) in c.history && r < |c.names| && c.names[r] == id
  {
    RunIsTraced(l, actions, c);
    if r: nat :| LossAt(c, id, r) {
      assert Abandoned(r) in c.history && r < |c.names| && c.names[r] == id;
    }
    if r: nat :| Abandoned(r) in c.history && r < |c.names| && c.names[r] == id {
      assert LossAt(c, id, r);
    }
  }

  /** A record of `id` is orphaned only in a run that offers `id` a terminal without a size. */
  lemma OrphansAreOffered(l: Limits, actions: seq<Action>, c: Config, id: string)
    requires Steps(Init(l), actions, c) && Orphaned(id) in c.history
    ensures OffersUnsizable(l, actions, id)
  {
    RunIsTraced(l, actions, c);
  }
}
