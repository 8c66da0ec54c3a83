/** The session guard's shared state as a value, and each lock-protected body as a function
    on it. A record is named by its position in `heap`, which lists every record ever
    created; `records` is the live dictionary. */
module GuardState {
  import opened Wrappers
  import opened JsonValues
  import opened NeutralContract
  import opened EventLoop

  type Digest = string

  /** Constructor arguments; `size` is the byte length of a terminal's JSON text, or nothing
      when writing that text raises: an envelope may hold a lone surrogate or an integer with
      more digits than the writer allows. */
  datatype Limits = Limits(maxRetained: nat, maxBytes: nat, size: Event -> Option<nat>)

  datatype Record = Record(digest: Option<Digest>, inFlight: bool, waiters: nat, wake: bool, terminal: Option<Event>)

  datatype Shared = Shared(closed: bool, records: map<string, nat>, heap: seq<Record>)
  {
    ghost predicate Scoped() {
      forall id <- records :: records[id] < |heap|
    }

    function Set(r: nat, record: Record): Shared
      requires r < |heap|
    {
      this.(heap := heap[r := record])
    }
  }

  const Fresh := Shared(false, map[], [])

  function Oversize(id: string): Event {
    ErrorEvent(id, 0, TerminalOversize, BindingLayer, "Binding terminal exceeded the retention limit.",
               false, Null, None, false, Failed, Unknown)
  }

  function CancelEvent(id: string, provenance: Option<string>): Event {
    ErrorEvent(id, 0, Cancelled, SessionLayer, "Request canceled.", false, Null, provenance, false, Canceled, Unknown)
  }

  /** The event can be sized, and its size is within the limit. */
  predicate Fits(l: Limits, e: Event) {
    l.size(e).Some? && l.size(e).value <= l.maxBytes
  }

  predicate OversizeFits(l: Limits, id: string) {
    Fits(l, Oversize(id))
  }

  /** What `_ensure_terminal_limit` raises when the sanitized replacement does not fit. */
  function LimitError(l: Limits, id: string): Code {
    if l.size(Oversize(id)).None? then SizeFailure else TerminalLimitInvalid
  }

  /** `_bounded_terminal`: the candidate, its sanitized replacement, or what it raises. */
  function Bounded(l: Limits, candidate: Event): Result<Event, Code> {
    if l.size(candidate).None? then Err(SizeFailure)
    else if Fits(l, candidate) then Ok(candidate)
    else if OversizeFits(l, candidate.requestId) then Ok(Oversize(candidate.requestId))
    else Err(LimitError(l, candidate.requestId))
  }

  // ----- _reserve -----

  datatype ReserveReply<R> =
    | Refused(code: Code)
    | Cached(terminal: Event)
    | Registered(waitsOn: R)
    | Owns(owned: R)

  function Reserve(l: Limits, s: Shared, id: string, digest: Digest): (Shared, ReserveReply<nat>)
    requires s.Scoped()
  {
    if s.closed then (s, Refused(SessionClosed))
    else if id in s.records then
      var r := s.records[id];
      var record := s.heap[r];
      if record.digest.Some? && record.digest.value != digest then (s, Refused(RequestIdReuse))
      else
        var bound := record.(digest := Some(digest));
        if record.terminal.Some? then (s.Set(r, bound), Cached(record.terminal.value))
        else if record.inFlight then (s.Set(r, bound.(waiters := record.waiters + 1)), Registered(r))
        else (s.Set(r, bound.(inFlight := true, wake := false)), Owns(r))
    else if |s.records| >= l.maxRetained then (s, Refused(SessionCapacity))
    else if !OversizeFits(l, id) then (s, Refused(LimitError(l, id)))
    else
      var r := |s.heap|;
      (Shared(false, s.records[id := r], s.heap + [Record(Some(digest), true, 0, false, None)]), Owns(r))
  }

  // ----- _wait_for_registered_record: the two locked sections after the wait -----

  datatype WaitReply = Winner(terminal: Event) | Retry | WaitRefused(code: Code)

  function ReadRecord(s: Shared, r: nat): WaitReply
    requires r < |s.heap|
  {
    if s.closed then WaitRefused(SessionClosed)
    else if s.heap[r].terminal.Some? then Winner(s.heap[r].terminal.value)
    else Retry
  }

  /** The `finally` block; the flag is false for the underflow it defends against. */
  function Unregister(s: Shared, r: nat): (Shared, bool)
    requires r < |s.heap|
  {
    if s.heap[r].waiters == 0 then (s, false)
    else (s.Set(r, s.heap[r].(waiters := s.heap[r].waiters - 1)), true)
  }

  // ----- _release_pre_dispatch -----

  datatype AbortReply = AbortRefused(code: Code) | Won(terminal: Event) | Forgotten

  function ReleasePreDispatch(s: Shared, id: string, r: nat): (Shared, AbortReply)
    requires r < |s.heap|
  {
    if s.closed then (s, AbortRefused(SessionClosed))
    else if !(id in s.records && s.records[id] == r) then (s, AbortRefused(SessionClosed))
    else
      var record := s.heap[r].(inFlight := false, wake := true);
      if record.terminal.Some? then (s.Set(r, record), Won(record.terminal.value))
      else (s.Set(r, record).(records := s.records - {id}), Forgotten)
  }

  // ----- _complete -----

  datatype CompleteReply = CompleteRefused(code: Code) | Answer(events: seq<Event>)

  function Complete(l: Limits, s: Shared, id: string, r: nat, v: Verdict): (Shared, CompleteReply)
    requires r < |s.heap|
  {
    if s.closed then (s, CompleteRefused(SessionClosed))
    else if !(id in s.records && s.records[id] == r) then (s, CompleteRefused(SessionClosed))
    else
      var record := s.heap[r].(inFlight := false);
      if record.terminal.Some? then
        (s.Set(r, record.(wake := true)), Answer([record.terminal.value]))
      else
        match Bounded(l, v.candidate)
        // raised after `in_flight` was cleared and before `terminal` and `wake` are set
        case Err(code) => (s.Set(r, record), CompleteRefused(code))
        case Ok(winner) =>
          (s.Set(r, record.(terminal := Some(winner), wake := true)),
           // the candidate itself was stored exactly when it was not replaced
           Answer(if Fits(l, v.candidate) && v.events.Some? then v.events.value else [winner]))
  }

  // ----- cancel, release, close, terminal_for -----

  datatype CancelReply = CancelRefused(code: Code) | Outcome(terminal: Event)

  function Cancel(l: Limits, s: Shared, id: string, provenance: Option<string>): (Shared, CancelReply)
    requires s.Scoped()
  {
    if id == "" then (s, CancelRefused(EmptyRequestId))
    else if s.closed then (s, CancelRefused(SessionClosed))
    else if id in s.records then
      var r := s.records[id];
      if s.heap[r].terminal.Some? then (s, Outcome(s.heap[r].terminal.value))
      else Settle(l, s, r, CancelEvent(id, provenance))
    else if |s.records| >= l.maxRetained then (s, CancelRefused(SessionCapacity))
    else if !OversizeFits(l, id) then (s, CancelRefused(LimitError(l, id)))
    else
      var r := |s.heap|;
      Settle(l, Shared(false, s.records[id := r], s.heap + [Record(None, false, 0, false, None)]), r,
             CancelEvent(id, provenance))
  }

  function Settle(l: Limits, s: Shared, r: nat, candidate: Event): (Shared, CancelReply)
    requires r < |s.heap|
  {
    match Bounded(l, candidate)
    case Err(code) => (s, CancelRefused(code))
    case Ok(winner) => (s.Set(r, s.heap[r].(terminal := Some(winner), wake := true)), Outcome(winner))
  }

  datatype ReleaseReply = ReleaseRefused(code: Code) | Released | Absent

  function Release(s: Shared, id: string): (Shared, ReleaseReply)
    requires s.Scoped()
  {
    if id == "" then (s, ReleaseRefused(EmptyRequestId))
    else if id !in s.records then (s, Absent)
    else if s.heap[s.records[id]].inFlight || s.heap[s.records[id]].waiters != 0 then
      (s, ReleaseRefused(RequestInFlight))
    else (s.(records := s.records - {id}), Released)
  }

  function Close(s: Shared): Shared {
    if s.closed then s
    else Shared(true, map[], seq(|s.heap|, r requires 0 <= r < |s.heap| =>
      if r in s.records.Values then s.heap[r].(wake := true) else s.heap[r]))
  }

  function TerminalFor(s: Shared, id: string): Option<Event>
    requires s.Scoped()
  {
    if s.closed || id !in s.records then None else s.heap[s.records[id]].terminal
  }
}
