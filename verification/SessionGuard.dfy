/** The guard object itself: its dictionary, its records, and the bodies it runs under its
    lock. Each body is proved to be the step that the interleaving proofs reason about. */
module SessionGuard {
  import opened Wrappers
  import opened NeutralContract
  import opened EventLoop
  import opened GuardState

  class RequestRecord {
    /** The position among all records the guard ever created. */
    ghost const serial: nat

    var digest: Option<Digest>
    var inFlight: bool
    var registeredWaiters: nat
    var wake: bool
    var terminal: Option<Event>

    constructor (digest: Option<Digest>, inFlight: bool, ghost serial: nat)
      ensures this.serial == serial
      ensures State() == Record(digest, inFlight, 0, false, None)
    {
      this.digest := digest;
      this.inFlight := inFlight;
      this.registeredWaiters := 0;
      this.wake := false;
      this.terminal := None;
      this.serial := serial;
    }

    ghost function State(): Record
      reads this
    {
      Record(digest, inFlight, registeredWaiters, wake, terminal)
    }
  }

  class NeutralSessionGuard {
    const limits: Limits
    var closed: bool
    var records: map<string, RequestRecord>
    ghost var created: seq<RequestRecord>

    ghost predicate Valid()
      reads this, created
    {
      && (forall i | 0 <= i < |created| :: created[i].serial == i)
      && (forall id <- records :: records[id].serial < |created| && created[records[id].serial] == records[id])
      && (closed ==> records == map[])
    }

    ghost predicate Mine(record: RequestRecord)
      reads this
    {
      record.serial < |created| && created[record.serial] == record
    }

    ghost function View(): (s: Shared)
      requires Valid()
      reads this, created
      ensures s.Scoped()
    {
      Shared(closed, map id | id in records :: records[id].serial,
             seq(|created|, i requires 0 <= i < |created| reads this, created => created[i].State()))
    }

    /** One record changed and the dictionary did not. */
    twostate lemma OneRecordChanged(record: RequestRecord)
      requires old(Valid()) && Valid() && old(Mine(record))
      requires created == old(created) && records == old(records) && closed == old(closed)
      requires forall other <- created | other != record :: other.State() == old(other.State())
      ensures View() == old(View()).Set(record.serial, record.State())
    {
      assert View().records == old(View()).records;
      assert View().heap == old(View()).heap[record.serial := record.State()];
    }

    constructor (limits: Limits)
      ensures Valid() && View() == Fresh && this.limits == limits && created == []
    {
      this.limits := limits;
      this.closed := false;
      this.records := map[];
      this.created := [];
    }

    method Reserve(id: string, digest: Digest) returns (reply: ReserveReply<RequestRecord>)
      requires Valid()
      modifies this, created
      ensures Valid() && old(created) <= created && fresh(created[|old(created)|..])
      ensures (View(), Numbered(reply)) == GuardState.Reserve(limits, old(View()), id, digest)
      ensures reply.Registered? ==> Mine(reply.waitsOn)
      ensures reply.Owns? ==> Mine(reply.owned)
    {
      if closed {
        return Refused(SessionClosed);
      }
      if id in records {
        reply := ReserveExisting(id, digest);
        return;
      }
      SameSize();
      if |records| >= limits.maxRetained {
        return Refused(SessionCapacity);
      }
      if !OversizeFits(limits, id) {
        return Refused(LimitError(limits, id));
      }
      var record := Insert(id, Some(digest), true);
      return Owns(record);
    }

    /** The part of `_reserve` for an id already in the dictionary. */
    method ReserveExisting(id: string, digest: Digest) returns (reply: ReserveReply<RequestRecord>)
      requires Valid() && !closed && id in records
      modifies records[id]
      ensures Valid()
      ensures (View(), Numbered(reply)) == GuardState.Reserve(limits, old(View()), id, digest)
      ensures reply.Registered? ==> Mine(reply.waitsOn)
      ensures reply.Owns? ==> Mine(reply.owned)
    {
      var record := records[id];
      if record.digest.Some? && record.digest.value != digest {
        return Refused(RequestIdReuse);
      }
      if record.digest.None? {
        record.digest := Some(digest);
      }
      if record.terminal.Some? {
        reply := Cached(record.terminal.value);
      } else if record.inFlight {
        record.registeredWaiters := record.registeredWaiters + 1;
        reply := Registered(record);
      } else {
        record.inFlight := true;
        record.wake := false;
        reply := Owns(record);
      }
      OneRecordChanged(record);
    }

    /** The record a reply names, by number. */
    ghost function Numbered(reply: ReserveReply<RequestRecord>): ReserveReply<nat> {
      match reply
      case Refused(code) => Refused(code)
      case Cached(terminal) => Cached(terminal)
      case Registered(record) => Registered(record.serial)
      case Owns(record) => Owns(record.serial)
    }

    /** `self._records[id] = _RequestRecord(...)`. */
    method Insert(id: string, digest: Option<Digest>, inFlight: bool) returns (record: RequestRecord)
      requires Valid() && !closed
      modifies this
      ensures Valid() && fresh(record) && created == old(created) + [record] && Mine(record)
      ensures !closed && records == old(records)[id := record] && record.serial == |old(created)|
      ensures View() == Shared(false, old(View()).records[id := |old(created)|],
                               old(View()).heap + [Record(digest, inFlight, 0, false, None)])
    {
      record := new RequestRecord(digest, inFlight, |created|);
      created := created + [record];
      records := records[id := record];
    }

    lemma SameSize()
      requires Valid()
      ensures |View().records| == |records|
    {
      assert View().records.Keys == records.Keys;
    }

    /** The locked read after the wait. */
    method ReadRecord(record: RequestRecord) returns (reply: WaitReply)
      requires Valid() && Mine(record)
      ensures reply == GuardState.ReadRecord(View(), record.serial)
    {
      if closed {
        return WaitRefused(SessionClosed);
      }
      return if record.terminal.Some? then Winner(record.terminal.value) else Retry;
    }

    /** The locked `finally` block; false stands for the error it would raise. */
    method Unregister(record: RequestRecord) returns (counted: bool)
      requires Valid() && Mine(record)
      modifies record
      ensures Valid()
      ensures (View(), counted) == GuardState.Unregister(old(View()), record.serial)
    {
      if record.registeredWaiters <= 0 {
        return false;
      }
      record.registeredWaiters := record.registeredWaiters - 1;
      OneRecordChanged(record);
      return true;
    }

    method ReleasePreDispatch(id: string, record: RequestRecord) returns (reply: AbortReply)
      requires Valid() && Mine(record)
      modifies this, record
      ensures Valid() && created == old(created)
      ensures (View(), reply) == GuardState.ReleasePreDispatch(old(View()), id, record.serial)
    {
      if closed {
        return AbortRefused(SessionClosed);
      }
      if id !in records || records[id] != record {
        return AbortRefused(SessionClosed);
      }
      record.inFlight := false;
      if record.terminal.Some? {
        record.wake := true;
        OneRecordChanged(record);
        return Won(record.terminal.value);
      }
      records := records - {id};
      record.wake := true;
      assert View().records == old(View()).records - {id};
      assert View().heap == old(View()).heap[record.serial := record.State()];
      return Forgotten;
    }

    method Complete(id: string, record: RequestRecord, verdict: Verdict) returns (reply: CompleteReply)
      requires Valid() && Mine(record)
      modifies record
      ensures Valid()
      ensures (View(), reply) == GuardState.Complete(limits, old(View()), id, record.serial, verdict)
    {
      if closed {
        return CompleteRefused(SessionClosed);
      }
      if id !in records || records[id] != record {
        return CompleteRefused(SessionClosed);
      }
      record.inFlight := false;
      var stored := false;
      if record.terminal.None? {
        var bounded := Bounded(limits, verdict.candidate);
        if bounded.Err? {
          OneRecordChanged(record);
          return CompleteRefused(bounded.error);
        }
        record.terminal := Some(bounded.value);
        stored := Fits(limits, verdict.candidate);
      }
      record.wake := true;
      OneRecordChanged(record);
      return Answer(if stored && verdict.events.Some? then verdict.events.value else [record.terminal.value]);
    }

    method Cancel(id: string, provenance: Option<string>) returns (reply: CancelReply)
      requires Valid()
      modifies this, created
      ensures Valid() && old(created) <= created && fresh(created[|old(created)|..])
      ensures (View(), reply) == GuardState.Cancel(limits, old(View()), id, provenance)
    {
      if id == "" {
        return CancelRefused(EmptyRequestId);
      }
      if closed {
        return CancelRefused(SessionClosed);
      }
      var record: RequestRecord;
      if id in records {
        record := records[id];
        if record.terminal.Some? {
          return Outcome(record.terminal.value);
        }
      } else {
        SameSize();
        if |records| >= limits.maxRetained {
          return CancelRefused(SessionCapacity);
        }
        if !OversizeFits(limits, id) {
          return CancelRefused(LimitError(limits, id));
        }
        record := Insert(id, None, false);
      }
      reply := Settle(record, CancelEvent(id, provenance));
    }

    method Settle(record: RequestRecord, candidate: Event) returns (reply: CancelReply)
      requires Valid() && Mine(record)
      modifies record
      ensures Valid()
      ensures (View(), reply) == GuardState.Settle(limits, old(View()), record.serial, candidate)
    {
      var bounded := Bounded(limits, candidate);
      if bounded.Err? {
        return CancelRefused(bounded.error);
      }
      record.terminal := Some(bounded.value);
      record.wake := true;
      OneRecordChanged(record);
      return Outcome(bounded.value);
    }

    method TerminalFor(id: string) returns (terminal: Option<Event>)
      requires Valid()
      ensures terminal == GuardState.TerminalFor(View(), id)
    {
      if closed {
        return None;
      }
      return if id in records then records[id].terminal else None;
    }

    method Release(id: string) returns (reply: ReleaseReply)
      requires Valid()
      modifies this
      ensures Valid() && created == old(created)
      ensures (View(), reply) == GuardState.Release(old(View()), id)
    {
      if id == "" {
        return ReleaseRefused(EmptyRequestId);
      }
      if id !in records {
        return Absent;
      }
      if records[id].inFlight || records[id].registeredWaiters != 0 {
        return ReleaseRefused(RequestInFlight);
      }
      records := records - {id};
      assert View().records == old(View()).records - {id};
      assert View().heap == old(View()).heap;
      return Released;
    }

    method WakeAll(live: set<RequestRecord>, ghost before: seq<Record>)
      requires Valid() && before == View().heap
      requires forall record <- live :: Mine(record)
      modifies live
      ensures Valid()
      ensures forall i | 0 <= i < |created| ::
                created[i].State() == if created[i] in live then before[i].(wake := true) else before[i]
    {
      var asleep := live;
      while asleep != {}
        invariant asleep <= live
        invariant forall i | 0 <= i < |created| ::
                    created[i].State() == if created[i] in live && created[i] !in asleep then before[i].(wake := true)
                                          else before[i]
        decreases |asleep|
      {
        var record :| record in asleep;
        record.wake := true;
        asleep := asleep - {record};
      }
    }

    /** Every record of the old dictionary woke up, and no other changed. */
    twostate lemma Awake(live: set<RequestRecord>)
      requires old(Valid()) && Valid() && created == old(created) && closed && records == map[]
      requires !old(closed) && live == old(records).Values
      requires forall i | 0 <= i < |created| ::
                 created[i].State() == if created[i] in live then old(created[i].State()).(wake := true)
                                       else old(created[i].State())
      ensures View() == GuardState.Close(old(View()))
    {
      forall i | 0 <= i < |created|
        ensures created[i] in live <==> i in old(View()).records.Values
      {
        if created[i] in live {
          var id :| id in old(records) && old(records)[id] == created[i];
          assert id in old(View()).records && old(View()).records[id] == i;
        }
        if i in old(View()).records.Values {
          var id :| id in old(View()).records && old(View()).records[id] == i;
          assert id in old(records) && old(records)[id] in live;
        }
      }
    }

    method Close()
      requires Valid()
      modifies this, created
      ensures Valid() && created == old(created)
      ensures View() == GuardState.Close(old(View()))
    {
      if closed {
        return;
      }
      ghost var before := View().heap;
      var live := records.Values;
      assert forall record <- live :: Mine(record);
      closed := true;
      records := map[];
      WakeAll(live, before);
      Awake(live);
    }
  }
}
