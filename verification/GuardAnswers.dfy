/** What callers of the guard get, told from the streams, the records and the history, for every
    reachable state. */
module GuardAnswers {
  import opened Wrappers
  import opened JsonValues
  import opened NeutralContract
  import opened EventLoop
  import opened GuardState
  import opened GuardMachine
  import opened GuardThreads
  import opened GuardRuns
  import opened GuardGuarantees

  // ----- The guard's own events -----

  /** The sanitized replacement of a terminal that is too large. */
  predicate SaysOversize(e: Event, id: string) {
    && e.ErrorEvent? && e.requestId == id && e.sequence == 0 && e.code == TerminalOversize && e.layer == BindingLayer
    && e.safeMessage == "Binding terminal exceeded the retention limit." && e.retryable == false && e.detail == Null
    && e.provenanceRef == None && e.effectKnown == false && e.presentation == Failed && e.outcome == Unknown
  }

  /** What a cancel stores. */
  predicate SaysCancelled(e: Event, id: string, provenance: Option<string>) {
    && e.ErrorEvent? && e.requestId == id && e.sequence == 0 && e.code == Cancelled && e.layer == SessionLayer
    && e.safeMessage == "Request canceled." && e.retryable == false && e.detail == Null
    && e.provenanceRef == provenance && e.effectKnown == false && e.presentation == Canceled && e.outcome == Unknown
  }

  /** What becomes of an offered terminal: kept if it fits, replaced if it is too large. */
  predicate KeptOrReplaced(l: Limits, offered: Event, kept: Event) {
    && l.size(offered).Some?
    && if l.size(offered).value <= l.maxBytes then kept == offered else SaysOversize(kept, offered.requestId)
  }

  lemma BoundedSays(l: Limits, offered: Event)
    requires OversizeFits(l, offered.requestId)
    ensures match Bounded(l, offered)
            case Ok(kept) => KeptOrReplaced(l, offered, kept) && Fits(l, kept)
            case Err(code) => l.size(offered).None? && code == SizeFailure
  {
  }

  // ----- The owner's answer -----

  /** No step of call `t`. */
  predicate Rests(actions: seq<Action>, t: nat) {
    forall k | 0 <= k < |actions| :: !(actions[k].OfThread() && actions[k].t == t)
  }

  lemma {:induction false} RestingCall(c: Config, actions: seq<Action>, c': Config, t: nat)
    requires Steps(c, actions, c') && t < |c.threads| && Rests(actions, t)
    ensures t < |c'.threads| && c'.threads[t] == c.threads[t]
    decreases |actions|
  {
    hide Next, Scoped, Enabled;
    if actions != [] {
      assert !(actions[0].OfThread() && actions[0].t == t);
      OthersStay(c, actions[0], t);
      forall k | 0 <= k < |actions[1..]|
        ensures !(actions[1..][k].OfThread() && actions[1..][k].t == t)
      {
        assert actions[1..][k] == actions[k + 1];
      }
      RestingCall(Next(c, actions[0]), actions[1..], c', t);
    }
  }

  /** The list is what the stream yielded, event for event. */
  predicate AreItems(events: seq<Event>, items: seq<Raw>) {
    |events| == |items| && forall k | 0 <= k < |items| :: items[k] == Shaped(events[k])
  }

  /** What the owner of `record` gets for its stream, and what the record then holds. */
  ghost predicate OwnerGets(l: Limits, id: string, provenance: Option<string>, stream: Stream, closed: bool, record: Record,
                            after: Record, stage: Stage)
  {
    if closed then stage == Raised(SessionClosed) && after == record
    else if record.terminal.Some? then stage == Returned([record.terminal.value]) && after.terminal == record.terminal
    else if stream.ending.Finished? && WellFormed(id, stream.items) then
      OwnAnswer(l, stream.items, after, stage)
    else ReportedAnswer(l, Evaluate(id, provenance, stream), after, stage)
  }

  /** A good stream: all its events, if its terminal fits. */
  ghost predicate OwnAnswer(l: Limits, items: seq<Raw>, after: Record, stage: Stage)
    requires items != [] && items[|items| - 1].Shaped?
  {
    var last := items[|items| - 1].event;
    if l.size(last).None? then stage == Raised(SizeFailure) && after.terminal.None?
    else
      && stage.Returned? && after.terminal.Some? && KeptOrReplaced(l, last, after.terminal.value)
      && if l.size(last).value <= l.maxBytes then AreItems(stage.events, items)
         else stage.events == [after.terminal.value]
  }

  /** Any other: the one event that reports it. */
  ghost predicate ReportedAnswer(l: Limits, verdict: Option<Verdict>, after: Record, stage: Stage) {
    && verdict.Some? && verdict.value.events.None?
    && if l.size(verdict.value.candidate).None? then stage == Raised(SizeFailure) && after.terminal.None?
       else
         && after.terminal.Some? && KeptOrReplaced(l, verdict.value.candidate, after.terminal.value)
         && stage == Returned([after.terminal.value])
  }

  lemma CompleteGets(l: Limits, s: Shared, id: string, provenance: Option<string>, r: nat, stream: Stream, v: Verdict)
    requires id != "" && r < |s.heap| && OversizeFits(l, id) && Evaluate(id, provenance, stream) == Some(v)
    requires !s.closed ==> id in s.records && s.records[id] == r
    ensures var (s', reply) := Complete(l, s, id, r, v);
            r < |s'.heap| && OwnerGets(l, id, provenance, stream, s.closed, s.heap[r], s'.heap[r], StageOf(reply))
  {
    hide Evaluate, ValidEvent, Bounded, KeptOrReplaced, AreItems, IsTerminal, WellFormed;
    CandidateIsAValidTerminal(id, provenance, stream);
    OffersExactlyTheGrammar(id, provenance, stream);
    BoundedSays(l, v.candidate);
    if stream.ending.Finished? && WellFormed(id, stream.items) {
      EventsAreItems(id, stream.items);
    }
  }

  lemma EventsAreItems(id: string, items: seq<Raw>)
    requires WellFormed(id, items)
    ensures AreItems(EventsOf(items), items)
  {
  }

  function StageOf(reply: CompleteReply): Stage {
    match reply
    case CompleteRefused(code) => Raised(code)
    case Answer(events) => Returned(events)
  }

  /** A call about to commit the verdict on its stream. */
  ghost predicate Judged(c: Config, t: nat, stream: Stream) {
    && t < |c.threads| && c.threads[t].stage.Completing?
    && Evaluate(c.threads[t].id, c.threads[t].provenance, stream) == Some(c.threads[t].stage.verdict)
  }

  lemma CommitGets(l: Limits, c: Config, t: nat, stream: Stream)
    requires Reachable(l, c) && Scoped(c) && Enabled(c, Commit(t)) && Judged(c, t, stream)
    ensures var th, c' := c.threads[t], Next(c, Commit(t));
            && th.stage.on < |c.shared.heap| && th.stage.on < |c'.shared.heap| && t < |c'.threads|
            && OwnerGets(l, th.id, th.provenance, stream, c.shared.closed, c.shared.heap[th.stage.on],
                         c'.shared.heap[th.stage.on], c'.threads[t].stage)
  {
    ReachableInv(l, c);
    CommitReady(c, t);
    var th := c.threads[t];
    hide Inv, Sound, Scoped, Reachable, Complete, NextCommit, OwnerGets, Evaluate, OversizeFits;
    CompleteGets(l, c.shared, th.id, th.provenance, th.stage.on, stream, th.stage.verdict);
    CommitMoves(c, t);
  }

  /** A dispatched call, from the stream its binding yields to its commit, whatever happens in
      between. In an open guard, if its record is still unanswered, the stream finishes, is well
      formed and its terminal fits, the call returns exactly the events of its stream; if the
      record was answered meanwhile, or the stream is rejected, exactly the record's one
      terminal. */
  lemma CallReturnsItsStream(l: Limits, c0: Config, t: nat, stream: Stream, between: seq<Action>, c: Config)
    requires Reachable(l, c0) && Scoped(c0) && Enabled(c0, Finish(t, stream))
    requires Steps(Next(c0, Finish(t, stream)), between, c) && Rests(between, t)
    requires Scoped(c) && Enabled(c, Commit(t))
    ensures var th, c' := c0.threads[t], Next(c, Commit(t));
            && th.stage.on < |c.shared.heap| && th.stage.on < |c'.shared.heap| && t < |c'.threads|
            && OwnerGets(l, th.id, th.provenance, stream, c.shared.closed, c.shared.heap[th.stage.on],
                         c'.shared.heap[th.stage.on], c'.threads[t].stage)
  {
    hide Enabled, Scoped, Next, Evaluate, OwnerGets, Steps, Reachable, Rests;
    AboutToCommit(c, t);
    var all := [Finish(t, stream)] + between;
    assert all[0] == Finish(t, stream) && all[1..] == between;
    FinishedAt(c0, t, stream);
    RestingCall(Next(c0, Finish(t, stream)), between, c, t);
    ReachableRun(l, c0, all, c);
    CommitGets(l, c, t, stream);
  }

  lemma AboutToCommit(c: Config, t: nat)
    requires Enabled(c, Commit(t))
    ensures t < |c.threads| && c.threads[t].stage.Completing?
  {
  }

  lemma FinishedAt(c: Config, t: nat, stream: Stream)
    requires Scoped(c) && Enabled(c, Finish(t, stream))
    ensures t < |c.threads| && c.threads[t].stage.Dispatched?
    ensures var c' := Next(c, Finish(t, stream));
            && t < |c'.threads|
            && c'.threads[t] == c.threads[t].(stage := match Evaluate(c.threads[t].id, c.threads[t].provenance, stream)
                                                        case Some(verdict) => Completing(c.threads[t].stage.on, verdict)
                                                        case None => Escaped)
  {
    hide Evaluate;
  }

  lemma ReachableRun(l: Limits, c: Config, actions: seq<Action>, c': Config)
    requires Reachable(l, c) && actions != [] && Scoped(c) && Enabled(c, actions[0])
    requires Steps(Next(c, actions[0]), actions[1..], c')
    ensures Reachable(l, c')
  {
    var before :| Steps(Init(l), before, c);
    StepsConcat(Init(l), before, c, actions, c');
  }

  lemma CommitReady(c: Config, t: nat)
    requires Inv(c) && Scoped(c) && Enabled(c, Commit(t))
    ensures var th := c.threads[t];
            && th.id != "" && th.stage.on < |c.shared.heap|
            && th.id in c.bound && c.bound[th.id] == th.stage.on && OversizeFits(c.limits, th.id)
            && (!c.shared.closed ==> th.id in c.shared.records && c.shared.records[th.id] == th.stage.on)
  {
    hide OversizeFits, RecordsOk, OwnersOk, CountsOk, HistoryOk;
    assert ThreadOk(c, c.threads[t]);
    OwnRecord(c, c.threads[t]);
  }

  lemma CommitMoves(c: Config, t: nat)
    requires Scoped(c) && Enabled(c, Commit(t))
    ensures var th, c' := c.threads[t], Next(c, Commit(t));
            var (s', reply) := Complete(c.limits, c.shared, th.id, th.stage.on, th.stage.verdict);
            && c'.shared == s' && t < |c'.threads|
            && c'.threads[t].stage == StageOf(reply)
  {
    hide Complete;
  }

  // ----- Everybody else's answer -----

  /** Whatever returns, returns the terminal of its id's record last; and only an owner's own
      commit returns more than that one event. */
  lemma ReturnsTheTerminal(l: Limits, c: Config, a: Action)
    requires Reachable(l, c) && Scoped(c) && Enabled(c, a) && a.OfThread()
    requires a.t < |Next(c, a).threads| && Next(c, a).threads[a.t].stage.Returned?
    ensures var c', id := Next(c, a), c.threads[a.t].id;
            var events := c'.threads[a.t].stage.events;
            && events != [] && id in c'.bound && c'.bound[id] < |c'.shared.heap|
            && c'.shared.heap[c'.bound[id]].terminal == Some(Last(events))
            && (!a.Commit? ==> events == [Last(events)])
  {
    hide Next, Inv, Reachable, Sound, Enabled, Scoped;
    ReturnsAreRecorded(l, c, a);
    ReachableInv(l, c);
    StepKeepsInv(c, a);
    if !a.Commit? {
      SingleUnlessCommit(c, a);
    }
    RecordedIsHeld(c, Next(c, a), a.t);
  }

  lemma RecordedIsHeld(c: Config, c': Config, t: nat)
    requires t < |c.threads| && Recorded(c, c', t) && Inv(c') && c'.threads[t].stage.Returned?
    ensures var events, id := c'.threads[t].stage.events, c.threads[t].id;
            && events != [] && id in c'.bound && c'.bound[id] < |c'.shared.heap|
            && c'.shared.heap[c'.bound[id]].terminal == Some(Last(events))
  {
    var th := c.threads[t];
    hide Inv;
    LastMarkOk(c', c.history, Answered(th.id, Some(th.digest), Last(c'.threads[t].stage.events)));
  }

  /** What was recorded last holds. */
  lemma LastMarkOk(c: Config, before: seq<Mark>, mark: Mark)
    requires Inv(c) && c.history == before + [mark] && mark.Answered?
    ensures MarkOk(c, mark)
  {
    hide MarkOk, ThreadsOk, RecordsOk, BoundOk, OwnersOk, CountsOk;
    var k := |before|;
    assert c.history[k] == mark && InForce(c.history, k, mark.id);
  }

  lemma SingleUnlessCommit(c: Config, a: Action)
    requires Scoped(c) && Enabled(c, a) && a.OfThread() && !a.Commit?
    requires a.t < |Next(c, a).threads| && Next(c, a).threads[a.t].stage.Returned?
    ensures |Next(c, a).threads[a.t].stage.events| == 1
  {
    hide Reserve, ReleasePreDispatch, Unregister, Evaluate, ReadRecord;
  }
}
