/** Every interleaving of the guard's calls, one lock-protected section (or one wait, or one
    binding call) at a time. */
module GuardMachine {
  import opened Wrappers
  import opened NeutralContract
  import opened EventLoop
  import opened GuardState

  /** How far one `invoke` call has come. */
  datatype Stage =
    | Entering
    | Reserving
    | Waiting(on: nat)
    | Woken(on: nat)
    | Leaving(on: nat, reply: WaitReply)
    | Preparing(on: nat)
    | Aborting(on: nat, code: Code)
    | Dispatched(on: nat)
    | Completing(on: nat, verdict: Verdict)
    | Returned(events: seq<Event>)
    | Raised(code: Code)
    | Escaped
  {
    predicate Waits() { Waiting? || Woken? || Leaving? }

    predicate Owner() { Preparing? || Aborting? || Dispatched? || Completing? }

    /** An owner whose binding has not been called. */
    predicate BeforeDispatch() { Preparing? || Aborting? }

    predicate Done() { Returned? || Raised? || Escaped? }
  }

  datatype Thread = Thread(id: string, digest: Digest, provenance: Option<string>, stage: Stage)

  /** What the history records: a binding call, a terminal handed to a caller (with the
      digest of an `invoke` caller), a cancel that created its record, a successful release,
      an owner lost to an exception that `invoke` does not handle, and a record left live
      without owner or terminal because sizing its terminal raised. */
  datatype Mark =
    | Dispatch(id: string)
    | Answered(id: string, digest: Option<Digest>, terminal: Event)
    | CancelledFirst(id: string)
    | Freed(id: string)
    | Abandoned(record: nat)
    | Orphaned(id: string)

  /** `bound`, `names` and `history` are auxiliary: the dictionary as it was when the guard
      closed, the request id each record was created under, and the marks so far. */
  datatype Config = Config(limits: Limits, shared: Shared, threads: seq<Thread>,
                           bound: map<string, nat>, names: seq<string>, history: seq<Mark>)

  datatype Action =
    | Call(id: string, digest: Digest, provenance: Option<string>)
    | Enter(t: nat)
    | TryReserve(t: nat)
    | WakeUp(t: nat)
    | Read(t: nat)
    | Leave(t: nat)
    | FailPreparing(t: nat, code: Code)
    | Interrupt(t: nat)
    | CallBinding(t: nat)
    | Finish(t: nat, stream: Stream)
    | Abort(t: nat)
    | Commit(t: nat)
    | CancelCall(id: string, provenance: Option<string>)
    | ReleaseCall(id: string)
    | CloseCall
    | Peek(id: string)
  {
    /** A step of an `invoke` call, as against a new call or a call of another method. */
    predicate OfThread() {
      !Call? && !CancelCall? && !ReleaseCall? && !CloseCall? && !Peek?
    }
  }

  ghost predicate Enabled(c: Config, a: Action) {
    if a.Call? then a.id != ""
    else if !a.OfThread() then true
    else if a.t >= |c.threads| then false
    else
      var stage := c.threads[a.t].stage;
      match a
      case Enter(_) => stage.Entering?
      case TryReserve(_) => stage.Reserving?
      case WakeUp(_) => stage.Waiting? && stage.on < |c.shared.heap| && c.shared.heap[stage.on].wake
      case Read(_) => stage.Woken?
      case Leave(_) => stage.Leaving?
      case FailPreparing(_, _) => stage.Preparing?
      case Interrupt(_) => stage.Preparing?
      case CallBinding(_) => stage.Preparing?
      case Finish(_, _) => stage.Dispatched?
      case Abort(_) => stage.Aborting?
      case Commit(_) => stage.Completing?
  }

  ghost predicate Scoped(c: Config) {
    && c.shared.Scoped()
    && forall i | 0 <= i < |c.threads| ::
         c.threads[i].stage.Waits() || c.threads[i].stage.Owner() ==> c.threads[i].stage.on < |c.shared.heap|
  }

  function Moved(threads: seq<Thread>, t: nat, stage: Stage): seq<Thread>
    requires t < |threads|
  {
    threads[t := threads[t].(stage := stage)]
  }

  function After(c: Config, s: Shared, id: string, threads: seq<Thread>, marks: seq<Mark>): Config {
    Config(c.limits, s, threads,
           if s.closed then c.bound else s.records,
           if |s.heap| > |c.shared.heap| then c.names + [id] else c.names,
           c.history + marks)
  }

  /** One thread moves and the shared state stays. */
  function Walk(c: Config, t: nat, stage: Stage, marks: seq<Mark>): Config
    requires t < |c.threads|
  {
    c.(threads := Moved(c.threads, t, stage), history := c.history + marks)
  }

  function Last(events: seq<Event>): Event
    requires events != []
  {
    events[|events| - 1]
  }

  ghost function Next(c: Config, a: Action): Config
    requires Scoped(c) && Enabled(c, a)
  {
    match a
    case Call(id, digest, provenance) => c.(threads := c.threads + [Thread(id, digest, provenance, Entering)])
    case Enter(t) => Walk(c, t, if c.shared.closed then Raised(SessionClosed) else Reserving, [])
    case TryReserve(t) => NextReserve(c, t)
    case WakeUp(t) => Walk(c, t, Woken(c.threads[t].stage.on), [])
    case Read(t) => Walk(c, t, Leaving(c.threads[t].stage.on, ReadRecord(c.shared, c.threads[t].stage.on)), [])
    case Leave(t) => NextLeave(c, t)
    case FailPreparing(t, code) => Walk(c, t, Aborting(c.threads[t].stage.on, code), [])
    case Interrupt(t) => Walk(c, t, Escaped, [Abandoned(c.threads[t].stage.on)])
    case CallBinding(t) => Walk(c, t, Dispatched(c.threads[t].stage.on), [Dispatch(c.threads[t].id)])
    case Finish(t, stream) =>
      var th := c.threads[t];
      (match Evaluate(th.id, th.provenance, stream)
       case Some(verdict) => Walk(c, t, Completing(th.stage.on, verdict), [])
       case None => Walk(c, t, Escaped, [Abandoned(th.stage.on)]))
    case Abort(t) => NextAbort(c, t)
    case Commit(t) => NextCommit(c, t)
    case CancelCall(id, provenance) => NextCancel(c, id, provenance)
    case ReleaseCall(id) => NextRelease(c, id)
    case CloseCall => After(c, Close(c.shared), "", c.threads, [])
    case Peek(id) =>
      c.(history := c.history + match TerminalFor(c.shared, id) { case Some(x) => [Answered(id, None, x)] case None => [] })
  }

  ghost function NextReserve(c: Config, t: nat): Config
    requires Scoped(c) && t < |c.threads|
  {
    var th := c.threads[t];
    var (s, reply) := Reserve(c.limits, c.shared, th.id, th.digest);
    match reply
    case Refused(code) => After(c, s, th.id, Moved(c.threads, t, Raised(code)), [])
    case Cached(x) => After(c, s, th.id, Moved(c.threads, t, Returned([x])), [Answered(th.id, Some(th.digest), x)])
    case Registered(r) => After(c, s, th.id, Moved(c.threads, t, Waiting(r)), [])
    case Owns(r) => After(c, s, th.id, Moved(c.threads, t, Preparing(r)), [])
  }

  ghost function NextLeave(c: Config, t: nat): Config
    requires t < |c.threads| && c.threads[t].stage.Leaving? && c.threads[t].stage.on < |c.shared.heap|
  {
    var th := c.threads[t];
    var (s, counted) := Unregister(c.shared, th.stage.on);
    if !counted then After(c, s, th.id, Moved(c.threads, t, Raised(WaiterUnderflow)), [])
    else
      match th.stage.reply
      case Winner(x) => After(c, s, th.id, Moved(c.threads, t, Returned([x])), [Answered(th.id, Some(th.digest), x)])
      case WaitRefused(code) => After(c, s, th.id, Moved(c.threads, t, Raised(code)), [])
      case Retry => After(c, s, th.id, Moved(c.threads, t, Reserving), [])
  }

  ghost function NextAbort(c: Config, t: nat): Config
    requires t < |c.threads| && c.threads[t].stage.Aborting? && c.threads[t].stage.on < |c.shared.heap|
  {
    var th := c.threads[t];
    var (s, reply) := ReleasePreDispatch(c.shared, th.id, th.stage.on);
    match reply
    case AbortRefused(code) => After(c, s, th.id, Moved(c.threads, t, Raised(code)), [])
    case Won(x) => After(c, s, th.id, Moved(c.threads, t, Returned([x])), [Answered(th.id, Some(th.digest), x)])
    case Forgotten => After(c, s, th.id, Moved(c.threads, t, Raised(th.stage.code)), [])
  }

  ghost function NextCommit(c: Config, t: nat): Config
    requires t < |c.threads| && c.threads[t].stage.Completing? && c.threads[t].stage.on < |c.shared.heap|
  {
    var th := c.threads[t];
    var (s, reply) := Complete(c.limits, c.shared, th.id, th.stage.on, th.stage.verdict);
    match reply
    case CompleteRefused(code) =>
      After(c, s, th.id, Moved(c.threads, t, Raised(code)), if code == SizeFailure then [Orphaned(th.id)] else [])
    case Answer(events) =>
      After(c, s, th.id, Moved(c.threads, t, Returned(events)),
            if events == [] then [] else [Answered(th.id, Some(th.digest), Last(events))])
  }

  ghost function NextCancel(c: Config, id: string, provenance: Option<string>): Config
    requires Scoped(c)
  {
    var (s, reply) := Cancel(c.limits, c.shared, id, provenance);
    After(c, s, id, c.threads,
          CancelMarks(id, reply, |s.heap| > |c.shared.heap|))
  }

  function CancelMarks(id: string, reply: CancelReply, created: bool): seq<Mark> {
    match reply
    case Outcome(x) => (if created then [CancelledFirst(id)] else []) + [Answered(id, None, x)]
    case CancelRefused(_) => if created then [Orphaned(id)] else []
  }

  ghost function NextRelease(c: Config, id: string): Config
    requires Scoped(c)
  {
    var (s, reply) := Release(c.shared, id);
    After(c, s, id, c.threads, if reply.Released? then [Freed(id)] else [])
  }

  // ----- The invariant -----

  /** No later entry ends what entry `i` says about its id: a release does, and for a binding
      call also a record left orphaned. */
  ghost predicate InForce(history: seq<Mark>, i: int, id: string)
    requires 0 <= i < |history|
  {
    forall k | i < k < |history| :: history[k] != Freed(id) && (history[i].Dispatch? ==> history[k] != Orphaned(id))
  }

  ghost predicate Current(c: Config, id: string, r: nat) {
    id in c.bound && c.bound[id] == r
  }

  predicate Idle(record: Record) {
    !record.inFlight && record.terminal.None?
  }

  /** A generation that ended, and woke its waiters, before its binding was called. */
  predicate Dead(record: Record) {
    Idle(record) && record.wake
  }

  ghost predicate VerdictOk(id: string, v: Verdict) {
    && v.candidate.requestId == id
    && (v.events.Some? ==> v.events.value != [] && Last(v.events.value) == v.candidate)
  }

  /** All a thread depends on: its record, whether the dictionary maps (or mapped, at close)
      its id to that record, and whether the guard is closed. */
  datatype View = View(record: Record, current: bool, closed: bool)

  ghost function ViewOf(c: Config, id: string, r: nat): View
    requires r < |c.shared.heap|
  {
    View(c.shared.heap[r], Current(c, id, r), c.shared.closed)
  }

  ghost predicate StageOk(th: Thread, v: View) {
    && v.record.digest == Some(th.digest)
    && match th.stage
       case Waiting(_) =>
         && (v.record.terminal.Some? ==> v.current)
         && (!v.record.wake ==> !v.closed && v.current && v.record.terminal.None?)
       case Woken(_) => (v.record.terminal.Some? ==> v.current) && v.record.wake
       case Leaving(_, Winner(x)) => v.current && v.record.terminal == Some(x)
       case Leaving(_, Retry) => Dead(v.record)
       case Leaving(_, WaitRefused(_)) => v.closed
       case Completing(_, verdict) => v.current && v.record.inFlight && VerdictOk(th.id, verdict)
       case _ => v.current && v.record.inFlight
  }

  ghost predicate ThreadOk(c: Config, th: Thread) {
    && th.id != ""
    && (th.stage.Waits() || th.stage.Owner() ==>
          && th.stage.on < |c.shared.heap| == |c.names|
          && c.names[th.stage.on] == th.id
          && StageOk(th, ViewOf(c, th.id, th.stage.on)))
  }

  ghost predicate ThreadsOk(c: Config) {
    forall i | 0 <= i < |c.threads| :: ThreadOk(c, c.threads[i])
  }

  ghost predicate RecordOk(c: Config, r: nat)
    requires r < |c.shared.heap|
  {
    var record := c.shared.heap[r];
    && (record.wake && record.terminal.None? ==> c.shared.closed || !record.inFlight)
    && (record.terminal.Some? ==> Fits(c.limits, record.terminal.value))
  }

  ghost predicate RecordsOk(c: Config) {
    && |c.names| == |c.shared.heap|
    && (forall r | 0 <= r < |c.shared.heap| :: RecordOk(c, r))
  }

  ghost predicate BoundOk(c: Config) {
    && (if c.shared.closed then c.shared.records == map[] else c.bound == c.shared.records)
    && |c.shared.records| <= c.limits.maxRetained
    && (forall id <- c.bound ::
          && c.bound[id] < |c.shared.heap| == |c.names|
          && c.names[c.bound[id]] == id
          && (Dead(c.shared.heap[c.bound[id]]) ==> c.shared.closed)
          && OversizeFits(c.limits, id))
  }

  ghost predicate OwnerOf(c: Config, i: int, r: nat) {
    0 <= i < |c.threads| && c.threads[i].stage.Owner() && c.threads[i].stage.on == r
  }

  ghost predicate Owned(c: Config, r: nat) {
    exists i :: OwnerOf(c, i, r)
  }

  ghost predicate OwnersOk(c: Config) {
    && (forall i, j, r: nat | OwnerOf(c, i, r) && OwnerOf(c, j, r) :: i == j)
    && (forall i, r: nat | OwnerOf(c, i, r) :: Abandoned(r) !in c.history)
    && (forall r: nat | Abandoned(r) in c.history :: Lost(c, r))
    && (forall id <- c.shared.records :: Accounted(c, id, c.shared.records[id]))
  }

  /** A record whose owner was lost stays in flight, and stays its id's record. */
  ghost predicate Lost(c: Config, r: nat) {
    r < |c.shared.heap| == |c.names| && c.shared.heap[r].inFlight && Current(c, c.names[r], r)
  }

  /** A live record in flight has its owner or lost it; an idle one was orphaned. */
  ghost predicate Accounted(c: Config, id: string, r: nat) {
    && (r < |c.shared.heap| && c.shared.heap[r].inFlight ==> Owned(c, r) || Abandoned(r) in c.history)
    && (r < |c.shared.heap| && Idle(c.shared.heap[r]) ==> Orphaned(id) in c.history)
  }

  function WaitersOn(threads: seq<Thread>, r: nat): nat {
    if threads == [] then 0
    else WaitersOn(threads[..|threads| - 1], r)
         + if threads[|threads| - 1].stage.Waits() && threads[|threads| - 1].stage.on == r then 1 else 0
  }

  ghost predicate CountsOk(c: Config) {
    forall r | 0 <= r < |c.shared.heap| :: c.shared.heap[r].waiters == WaitersOn(c.threads, r)
  }

  ghost predicate MarkOk(c: Config, m: Mark) {
    match m
    case Dispatch(id) =>
      && id in c.bound && c.bound[id] < |c.shared.heap|
      && (Idle(c.shared.heap[c.bound[id]]) ==> c.shared.closed)
      && forall i | 0 <= i < |c.threads| && c.threads[i].stage.BeforeDispatch() :: c.threads[i].id != id
    case Answered(id, digest, x) =>
      && id in c.bound && c.bound[id] < |c.shared.heap|
      && c.shared.heap[c.bound[id]].terminal == Some(x)
      && (digest.Some? ==> c.shared.heap[c.bound[id]].digest == digest)
    case CancelledFirst(id) =>
      && id in c.bound && c.bound[id] < |c.shared.heap|
      && c.shared.heap[c.bound[id]].terminal.Some? && !c.shared.heap[c.bound[id]].inFlight
    case _ => true
  }

  ghost predicate HistoryOk(c: Config) {
    forall i | 0 <= i < |c.history| ::
      c.history[i].Dispatch? || c.history[i].Answered? || c.history[i].CancelledFirst? ==>
        (InForce(c.history, i, c.history[i].id) ==> MarkOk(c, c.history[i]))
  }

  ghost predicate Inv(c: Config) {
    ThreadsOk(c) && RecordsOk(c) && BoundOk(c) && OwnersOk(c) && CountsOk(c) && HistoryOk(c)
  }
}
