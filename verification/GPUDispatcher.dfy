/**
 The dispatcher as it is written: an object whose methods update the record
 table, the queue, the owner and the records in place. Each method is one block
 under the condition variable and is proved to do exactly what the state
 machine's step of the same name does to the ledger.
 */
module Dispatcher {
  import opened Prelude
  import opened Leases
  import P = Protocol

  class LeaseRecord {
    const requestId: string
    const service: string
    const waitTimeout: int
    const createdAt: int
    const queueDeadline: int
    var state: LeaseState
    var cancelRequested: bool
    var terminalTarget: Option<LeaseState>
    var activeDeadline: Option<int>
    var terminalAt: Option<int>
    var error: Option<string>

    constructor (requestId: string, service: string, waitTimeout: int, createdAt: int, queueDeadline: int,
                 state: LeaseState := Queued, terminalAt: Option<int> := None)
      ensures this.requestId == requestId
      ensures Value() == Lease(service, waitTimeout, createdAt, queueDeadline, state, false,
                               None, None, terminalAt, None)
    {
      this.requestId, this.service, this.waitTimeout := requestId, service, waitTimeout;
      this.createdAt, this.queueDeadline := createdAt, queueDeadline;
      this.state, this.terminalAt := state, terminalAt;
      cancelRequested, terminalTarget, activeDeadline, error := false, None, None, None;
    }

    function Value(): Lease
      reads this
    {
      Lease(service, waitTimeout, createdAt, queueDeadline, state, cancelRequested,
            terminalTarget, activeDeadline, terminalAt, error)
    }

    function Snapshot(): (s: P.Snapshot)
      reads this
      ensures s == P.Snap(requestId, Value())
    {
      P.Snapshot(requestId, service, state, error)
    }
  }

  class GPUDispatcher {
    const cfg: Config
    var records: map<string, LeaseRecord>
    var queue: seq<string>
    var current: Option<string>
    var mode: P.Mode
    var reason: Option<string>

    /** The values of the filed records. */
    ghost var table: Table

    /** Records are filed under their own id, so no two ids share a record; the
        current id names a record; the table holds their values. */
    ghost predicate Valid()
      reads this`records, this`current, this`table, records.Values
    {
      && table.Keys == records.Keys
      && (forall id | id in records :: records[id].requestId == id && records[id].Value() == table[id])
      && (current.Some? ==> current.value in records)
    }

    ghost function Value(): P.Ledger
      reads this
    {
      P.Ledger(table, queue, current, mode, reason)
    }

    /** Records are not replaced: an id that stays filed keeps its record object. */
    twostate predicate SameObjects()
      reads this`records
    {
      forall id | id in records && id in old(records) :: records[id] == old(records[id])
    }

    /** The owner, and with it the record that the worker may be carrying, stays in place. */
    twostate predicate OwnerStays()
      reads this`records, this`current
    {
      current == old(current)
      && (current.Some? && current.value in old(records) ==>
            current.value in records && records[current.value] == old(records[current.value]))
    }

    constructor (cfg: Config)
      ensures this.cfg == cfg && Valid() && records == map[]
      ensures Value() == P.Ledger(map[], [], None, P.Reconciling, None)
    {
      this.cfg := cfg;
      records, queue, current, mode, reason := map[], [], None, P.Reconciling, None;
      table := map[];
    }

    /** A dispatcher is made of positive budgets only. */
    static method Create(cfg: Config) returns (dispatcher: GPUDispatcher?)
      ensures dispatcher == null <==> !cfg.Positive()
      ensures dispatcher != null ==>
        && fresh(dispatcher) && dispatcher.cfg == cfg && dispatcher.Valid()
        && dispatcher.Value() == P.Ledger(map[], [], None, P.Reconciling, None)
    {
      var budgets := [cfg.maxQueueWait, cfg.startup, cfg.active, cfg.cleanup, cfg.retention];
      for i := 0 to |budgets|
        invariant forall j | 0 <= j < i :: 0 < budgets[j]
      {
        if budgets[i] <= 0 {
          return null;
        }
      }
      assert 0 < budgets[0] && 0 < budgets[1] && 0 < budgets[2] && 0 < budgets[3] && 0 < budgets[4];
      if cfg.maxRecords <= 0 {
        return null;
      }
      dispatcher := new GPUDispatcher(cfg);
    }

    method Ready() returns (report: P.Report, epoch: string, protocol: int)
      requires Valid()
      ensures report == P.ReadyReport(Value()) && epoch == cfg.epoch && protocol == P.PROTOCOL_VERSION
    {
      epoch, protocol := cfg.epoch, P.PROTOCOL_VERSION;
      if mode == P.Ready {
        report := P.Report(true, if current.Some? && current.value != "" then "busy" else "idle", None);
        return;
      }
      report := P.Report(false, if mode == P.Reconciling then "reconciling" else "degraded", reason);
    }

    /** Writing one filed record, and its entry in the table, keeps the files in order. */
    twostate lemma OneRecordChanged(id: string)
      requires old(Valid()) && records == old(records) && id in records
      requires forall x | x in records && x != id :: unchanged(records[x])
      requires table == old(table)[id := records[id].Value()]
      requires current.Some? ==> current.value in records
      ensures Valid()
    {
    }

    method MarkTerminal(record: LeaseRecord, state: LeaseState, now: int)
      modifies record
      ensures record.Value() == Leases.MarkTerminal(old(record.Value()), state, now)
    {
      record.state := state;
      record.terminalAt := Some(now);
      record.activeDeadline := None;
    }

    /** The first loop of the pruning: which ids have to go. */
    method CollectStale(now: int) returns (stale: seq<string>)
      requires Valid()
      ensures forall id :: id in stale <==>
        id in table && Stale(cfg, table[id], now) && current != Some(id)
    {
      stale := [];
      var rest := records.Keys;
      while rest != {}
        invariant rest <= records.Keys
        invariant forall id :: id in stale <==>
          id in records && id !in rest && Stale(cfg, records[id].Value(), now) && current != Some(id)
      {
        var id :| id in rest;
        var record := records[id];
        if Terminal(record.state) && record.terminalAt.Some?
           && now - record.terminalAt.value >= cfg.retention && current != Some(id)
        {
          stale := stale + [id];
        }
        rest := rest - {id};
      }
    }

    method PruneTerminal(now: int)
      requires Valid()
      modifies this`records, this`table
      ensures Valid() && SameObjects() && records.Keys <= old(records.Keys)
      ensures table == Prune(cfg, old(table), current, now)
    {
      ghost var t := table;
      var stale := CollectStale(now);
      DropNone(t);
      for i := 0 to |stale|
        invariant Valid() && SameObjects() && records.Keys <= old(records.Keys)
        invariant table == Drop(t, stale[..i])
      {
        DropOneMore(t, stale[..i], stale[i]);
        assert stale[..i + 1] == stale[..i] + [stale[i]];
        Forget(stale[i]);
      }
      assert stale[..|stale|] == stale;
      StaleDropped(t, stale, now);
    }

    /** `records.pop(id, None)`, for any record but the owner's. */
    method Forget(id: string)
      requires Valid() && current != Some(id)
      modifies this`records, this`table
      ensures Valid() && SameObjects() && records == old(records) - {id}
      ensures table == old(table) - {id}
    {
      records := records - {id};
      table := table - {id};
    }

    static ghost function Drop(t: Table, ids: seq<string>): Table {
      map id | id in t && id !in ids :: t[id]
    }

    lemma DropNone(t: Table)
      ensures Drop(t, []) == t
    {
    }

    lemma DropOneMore(t: Table, ids: seq<string>, id: string)
      ensures Drop(t, ids + [id]) == Drop(t, ids) - {id}
    {
    }

    lemma StaleDropped(t: Table, stale: seq<string>, now: int)
      requires forall id :: id in stale <==> id in t && Stale(cfg, t[id], now) && current != Some(id)
      ensures Drop(t, stale) == Prune(cfg, t, current, now)
    {
    }

    lemma SweepOneMore(t: Table, q: seq<string>, id: string, now: int)
      ensures Sweep(q + [id], t, now) == Sweep([id], Sweep(q, t, now), now)
    {
    }

    method ExpireOne(id: string, now: int)
      requires Valid()
      modifies this`table, records.Values
      ensures Valid() && table == Sweep([id], old(table), now)
    {
      if id in records && records[id].state == Queued && now >= records[id].queueDeadline {
        MarkTerminal(records[id], Expired, now);
        table := table[id := records[id].Value()];
        OneRecordChanged(id);
      }
    }

    method ExpireQueued(now: int)
      requires Valid()
      modifies this`table, records.Values
      ensures Valid()
      ensures Value() == old(Value()).(table := Sweep(queue, old(table), now))
    {
      assert table == Sweep([], table, now);
      for i := 0 to |queue|
        invariant Valid()
        invariant table == Sweep(queue[..i], old(table), now)
      {
        SweepOneMore(old(table), queue[..i], queue[i], now);
        assert queue[..i + 1] == queue[..i] + [queue[i]];
        ExpireOne(queue[i], now);
      }
      assert queue[..|queue|] == queue;
    }

    /** One round of the pop loop: `done` when the popped entry is live. */
    method PopOne(now: int) returns (record: LeaseRecord?)
      requires Valid() && queue != []
      modifies this`queue, this`table, records.Values
      ensures Valid() && queue == old(queue)[1..]
      ensures record == null ==> Pop(table, queue, now) == Pop(old(table), old(queue), now)
      ensures record != null ==>
        && old(queue)[0] in records && records[old(queue)[0]] == record && table == old(table)
        && Pop(old(table), old(queue), now) == Popped(table, queue, Some(old(queue)[0]))
    {
      var id := queue[0];
      queue := queue[1..];
      if id !in records || records[id].state != Queued {
        return null;
      }
      if now >= records[id].queueDeadline {
        MarkTerminal(records[id], Expired, now);
        table := table[id := records[id].Value()];
        OneRecordChanged(id);
        return null;
      }
      record := records[id];
    }

    method NextQueued(now: int) returns (record: LeaseRecord?)
      requires Valid()
      modifies this`queue, this`table, records.Values
      ensures Valid()
      ensures var p := Pop(old(table), old(queue), now);
        && table == p.table && queue == p.queue
        && (record == null <==> p.next == None)
        && (record != null ==> p.next.value in records && records[p.next.value] == record)
    {
      record := null;
      while queue != [] && record == null
        invariant Valid()
        invariant var p := Pop(old(table), old(queue), now);
          if record == null then Pop(table, queue, now) == p
          else p.next.Some? && p.next.value in records && records[p.next.value] == record
               && table == p.table && queue == p.queue
        decreases |queue|
      {
        record := PopOne(now);
      }
    }

    method NextWait(now: int) returns (span: int)
      requires Valid()
      ensures span == Leases.NextWait(table, queue, current, now)
    {
      var deadlines: seq<int> := [];
      if current.Some? {
        var record := records[current.value];
        if record.state == Active && record.activeDeadline.Some? {
          deadlines := deadlines + [record.activeDeadline.value];
        }
      }
      for i := 0 to |queue|
        invariant deadlines == OwnerDeadline(table, current) + QueueDeadlines(table, queue[..i])
      {
        DeadlinesOfOneMore(table, queue[..i], queue[i]);
        assert queue[..i] + [queue[i]] == queue[..i + 1];
        if queue[i] in records && records[queue[i]].state == Queued {
          deadlines := deadlines + [records[queue[i]].queueDeadline];
        }
      }
      assert queue[..|queue|] == queue;
      if deadlines == [] {
        return LONGEST_SLEEP;
      }
      span := Max(MILLI, Min(LONGEST_SLEEP, Least(deadlines) - now));
    }

    lemma SizeOfTable()
      requires Valid()
      ensures |records| == |table|
    {
      assert |records| == |records.Keys| && |table| == |table.Keys|;
    }

    method Submit(service: string, requestId: string, epoch: string, waitTimeout: int, now: int)
      returns (answer: P.Answer, notify: bool)
      requires Valid()
      modifies this`records, this`table, this`queue
      ensures Valid() && SameObjects()
      ensures OwnerStays()
      ensures var r := P.Submit(cfg, old(Value()), now, service, requestId, epoch, waitTimeout);
        Value() == r.ledger && answer == r.answer && notify == r.notify
    {
      hide Prune;
      notify := false;
      if epoch != cfg.epoch {
        return P.Refused(P.StaleEpoch), false;
      }
      if mode != P.Ready {
        return P.Refused(P.NotReady), false;
      }
      if service !in cfg.services {
        return P.Refused(P.UnknownService), false;
      }
      if waitTimeout <= 0 || waitTimeout > cfg.maxQueueWait {
        return P.Refused(P.BadWaitTimeout), false;
      }
      if requestId in records {
        var existing := records[requestId];
        if existing.service != service {
          return P.Refused(P.LeaseConflict), false;
        }
        if Terminal(existing.state) {
          return P.Accepted(existing.Snapshot()), false;
        }
        if existing.waitTimeout != waitTimeout {
          return P.Refused(P.LeaseConflict), false;
        }
        return P.Accepted(existing.Snapshot()), false;
      }
      answer, notify := Admit(service, requestId, waitTimeout, now);
    }

    /** The part of `submit` that follows the lookup of an unknown id. */
    method Admit(service: string, requestId: string, waitTimeout: int, now: int)
      returns (answer: P.Answer, notify: bool)
      requires Valid() && requestId !in records
      modifies this`records, this`table, this`queue
      ensures Valid() && SameObjects()
      ensures OwnerStays()
      ensures var kept := Prune(cfg, old(table), current, now);
        if |kept| >= cfg.maxRecords
        then table == kept && queue == old(queue) && answer == P.Refused(P.NotReady) && !notify
        else var l := NewLease(service, waitTimeout, now);
             && table == kept[requestId := l] && queue == old(queue) + [requestId]
             && answer == P.Accepted(P.Snap(requestId, l)) && notify
    {
      hide Prune, NewLease, P.Snap, Valid, LeaseRecord.Value;
      var room := MakeRoom(now);
      if !room {
        return P.Refused(P.NotReady), false;
      }
      queue := queue + [requestId];
      answer := FileNew(service, requestId, waitTimeout, now);
      notify := true;
    }

    method FileNew(service: string, requestId: string, waitTimeout: int, now: int) returns (answer: P.Answer)
      requires Valid() && requestId !in records
      modifies this`records, this`table
      ensures Valid() && SameObjects() && records.Keys == old(records.Keys) + {requestId}
      ensures OwnerStays()
      ensures table == old(table)[requestId := NewLease(service, waitTimeout, now)]
      ensures answer == P.Accepted(P.Snap(requestId, NewLease(service, waitTimeout, now)))
    {
      var record := new LeaseRecord(requestId, service, waitTimeout, now, now + waitTimeout);
      FileRecord(record);
      answer := P.Accepted(record.Snapshot());
    }

    /** Prunes, and says whether the table can take one more record. */
    method MakeRoom(now: int) returns (room: bool)
      requires Valid()
      modifies this`records, this`table
      ensures Valid() && SameObjects() && records.Keys <= old(records.Keys)
      ensures OwnerStays()
      ensures table == Prune(cfg, old(table), current, now)
      ensures room <==> |table| < cfg.maxRecords
    {
      hide Prune;
      PruneTerminal(now);
      SizeOfTable();
      room := |records| < cfg.maxRecords;
    }

    method FileRecord(record: LeaseRecord)
      requires Valid() && record.requestId !in records
      modifies this`records, this`table
      ensures Valid() && SameObjects() && records == old(records)[record.requestId := record]
      ensures table == old(table)[record.requestId := record.Value()]
    {
      records := records[record.requestId := record];
      table := table[record.requestId := record.Value()];
    }

    method GetLease(requestId: string, epoch: string) returns (answer: P.Answer)
      requires Valid()
      ensures answer == P.GetLease(cfg, Value(), requestId, epoch)
    {
      if epoch != cfg.epoch {
        return P.Refused(P.StaleEpoch);
      }
      if requestId !in records {
        return P.Refused(P.LeaseNotFound);
      }
      answer := P.Accepted(records[requestId].Snapshot());
    }

    method Release(service: string, requestId: string, epoch: string, now: int)
      returns (answer: P.Answer, notify: bool)
      requires Valid()
      modifies this`records, this`table, records.Values
      ensures Valid() && SameObjects()
      ensures var r := P.RequestStop(cfg, old(Value()), now, service, requestId, epoch, Released);
        Value() == r.ledger && answer == r.answer && notify == r.notify
    {
      answer, notify := RequestStop(service, requestId, epoch, Released, now);
    }

    method Cancel(service: string, requestId: string, epoch: string, now: int)
      returns (answer: P.Answer, notify: bool)
      requires Valid()
      modifies this`records, this`table, records.Values
      ensures Valid() && SameObjects()
      ensures var r := P.RequestStop(cfg, old(Value()), now, service, requestId, epoch, Cancelled);
        Value() == r.ledger && answer == r.answer && notify == r.notify
    {
      answer, notify := RequestStop(service, requestId, epoch, Cancelled, now);
    }

    method RequestStop(service: string, requestId: string, epoch: string, target: LeaseState, now: int)
      returns (answer: P.Answer, notify: bool)
      requires Valid()
      modifies this`records, this`table, records.Values
      ensures Valid() && SameObjects()
      ensures OwnerStays()
      ensures var r := P.RequestStop(cfg, old(Value()), now, service, requestId, epoch, target);
        Value() == r.ledger && answer == r.answer && notify == r.notify
    {
      hide Prune;
      notify := false;
      if epoch != cfg.epoch {
        return P.Refused(P.StaleEpoch), false;
      }
      if requestId !in records {
        if target != Cancelled {
          return P.Refused(P.LeaseNotFound), false;
        }
        if service !in cfg.services {
          return P.Refused(P.UnknownService), false;
        }
        answer := LeaveTombstone(service, requestId, now);
        return answer, false;
      }
      var record := records[requestId];
      if record.service != service {
        return P.Refused(P.LeaseConflict), false;
      }
      if Terminal(record.state) {
        return P.Accepted(record.Snapshot()), false;
      }
      answer := StopFiled(requestId, target, now);
      notify := true;
    }

    /** Stops a filed record that is still live, in place. */
    method StopFiled(requestId: string, target: LeaseState, now: int) returns (answer: P.Answer)
      requires Valid() && requestId in records && !Terminal(records[requestId].state)
      modifies this`table, records[requestId]
      ensures Valid()
      ensures var l := P.StopLease(old(table[requestId]), target, now);
        table == old(table)[requestId := l] && answer == P.Accepted(P.Snap(requestId, l))
    {
      var record := records[requestId];
      StopRecord(record, target, now);
      table := table[requestId := record.Value()];
      OneRecordChanged(requestId);
      answer := P.Accepted(record.Snapshot());
    }

    /** A cancel that comes before its acquire blocks the id. */
    method LeaveTombstone(service: string, requestId: string, now: int) returns (answer: P.Answer)
      requires Valid() && requestId !in records
      modifies this`records, this`table
      ensures Valid() && SameObjects()
      ensures OwnerStays()
      ensures var kept := Prune(cfg, old(table), current, now);
        if |kept| >= cfg.maxRecords
        then table == kept && answer == P.Refused(P.NotReady)
        else table == kept[requestId := Tombstone(service, now)]
             && answer == P.Accepted(P.Snap(requestId, Tombstone(service, now)))
    {
      hide Prune;
      var room := MakeRoom(now);
      if !room {
        return P.Refused(P.NotReady);
      }
      var tombstone := new LeaseRecord(requestId, service, 0, now, now, Cancelled, Some(now));
      FileRecord(tombstone);
      answer := P.Accepted(tombstone.Snapshot());
    }

    method StopRecord(record: LeaseRecord, target: LeaseState, now: int)
      requires !Terminal(record.state)
      modifies record
      ensures record.Value() == P.StopLease(old(record.Value()), target, now)
    {
      if record.state == Queued {
        MarkTerminal(record, target, now);
      } else if record.state == Starting {
        record.cancelRequested := true;
        record.terminalTarget := Some(target);
      } else if record.state == Active {
        record.state := Stopping;
        record.terminalTarget := Some(target);
      } else if record.terminalTarget == None {
        record.terminalTarget := Some(target);
      }
    }

    /** The block at the head of the worker loop. The record it returns is the
        one the worker carries into the unlocked engine operation. */
    method WorkerTurn(now: int) returns (verdict: P.Verdict, record: LeaseRecord?)
      requires Valid()
      modifies this`records, this`table, this`queue, this`current, records.Values
      ensures Valid() && SameObjects()
      ensures P.Turn(cfg, old(Value()), now) == P.Turned(Value(), verdict)
      ensures !verdict.Crash?
      ensures verdict.DoStart? || verdict.DoStop? ==>
        record != null && current == Some(record.requestId) && records[record.requestId] == record
    {
      hide Prune, Sweep, P.TurnSettled;
      Settle(now);
      verdict, record := TurnSettled(now);
    }

    method TurnSettled(now: int) returns (verdict: P.Verdict, record: LeaseRecord?)
      requires Valid()
      modifies this`table, this`queue, this`current, records.Values
      ensures Valid()
      ensures P.TurnSettled(old(Value()), now) == P.Turned(Value(), verdict)
      ensures !verdict.Crash?
      ensures verdict.DoStart? || verdict.DoStop? ==>
        record != null && current == Some(record.requestId) && records[record.requestId] == record
    {
      hide Pop, Leases.NextWait;
      if mode != P.Ready {
        return P.Sleep(LONGEST_SLEEP), null;
      }
      if current.Some? {
        record := OwnerTurn(now);
        if record.state == Stopping {
          return P.DoStop(record.requestId), record;
        }
      } else {
        record := IdleTurn(now);
        if record != null {
          return P.DoStart(record.requestId), record;
        }
      }
      var span := NextWait(now);
      verdict := P.Sleep(span);
    }

    method Settle(now: int)
      requires Valid()
      modifies this`records, this`table, records.Values
      ensures Valid() && SameObjects() && records.Keys <= old(records.Keys)
      ensures table == Prune(cfg, Sweep(queue, old(table), now), current, now)
    {
      hide Prune, Sweep;
      ExpireQueued(now);
      PruneTerminal(now);
    }

    method OwnerTurn(now: int) returns (record: LeaseRecord)
      requires Valid() && current.Some?
      modifies this`table, records[current.value]
      ensures Valid() && record == records[current.value]
      ensures table == old(table)[current.value := P.ExpireOwner(old(table)[current.value], now)]
    {
      record := records[current.value];
      if record.state == Active && record.activeDeadline.Some? && now >= record.activeDeadline.value {
        record.state := Stopping;
        record.terminalTarget := Some(Expired);
      }
      table := table[current.value := records[current.value].Value()];
      OneRecordChanged(current.value);
    }

    method IdleTurn(now: int) returns (record: LeaseRecord?)
      requires Valid() && current == None
      modifies this`table, this`queue, this`current, records.Values
      ensures Valid()
      ensures var p := Pop(old(table), old(queue), now);
        && queue == p.queue && current == p.next
        && (record == null <==> p.next == None)
        && (p.next == None ==> table == p.table)
        && (p.next.Some? ==>
              && p.next.value in p.table && record == records[p.next.value]
              && table == p.table[p.next.value := p.table[p.next.value].(state := Starting)])
    {
      hide Pop;
      record := NextQueued(now);
      label popped:
      if record != null {
        record.state := Starting;
        current := Some(record.requestId);
        table := table[record.requestId := records[record.requestId].Value()];
        OneRecordChanged@popped(record.requestId);
      }
    }

    /** The block that ends `_perform_start`. */
    method FinishStart(record: LeaseRecord, outcome: P.StartOutcome, now: int)
      requires Valid() && current == Some(record.requestId) && records[record.requestId] == record
      modifies this`table, this`current, this`mode, this`reason, record
      ensures Valid() && records == old(records)
      ensures Value() == P.FinishStart(cfg, old(Value()), record.requestId, outcome, now)
    {
      match outcome
      case Uncertain(m) => StartIsUncertain(record, m, now);
      case StartFailed(m) => StartHasFailed(record, m, now);
      case Started => StartIsDone(record, now);
    }

    /** The handler of a cleanup error: the owner keeps the GPU for good. */
    method StartIsUncertain(record: LeaseRecord, message: string, now: int)
      requires Valid() && current == Some(record.requestId) && records[record.requestId] == record
      modifies this`table, this`mode, this`reason, record
      ensures Valid()
      ensures Value() == P.FinishStart(cfg, old(Value()), record.requestId, P.Uncertain(message), now)
    {
      FailRecord(record, message, now);
      mode := P.Degraded;
      reason := Some("startup cleanup uncertain for " + record.requestId + ": " + message);
      table := table[record.requestId := record.Value()];
      OneRecordChanged(record.requestId);
    }

    /** The handler of every other error. */
    method StartHasFailed(record: LeaseRecord, message: string, now: int)
      requires Valid() && current == Some(record.requestId) && records[record.requestId] == record
      modifies this`table, this`current, record
      ensures Valid()
      ensures Value() == P.FinishStart(cfg, old(Value()), record.requestId, P.StartFailed(message), now)
    {
      FailRecord(record, message, now);
      current := None;
      table := table[record.requestId := record.Value()];
      OneRecordChanged(record.requestId);
    }

    method StartIsDone(record: LeaseRecord, now: int)
      requires Valid() && current == Some(record.requestId) && records[record.requestId] == record
      modifies this`table, record
      ensures Valid()
      ensures Value() == P.FinishStart(cfg, old(Value()), record.requestId, P.Started, now)
    {
      MarkStarted(record, now);
      table := table[record.requestId := record.Value()];
      OneRecordChanged(record.requestId);
    }

    method FailRecord(record: LeaseRecord, message: string, now: int)
      modifies record
      ensures record.Value() == Leases.MarkTerminal(old(record.Value()).(error := Some(message)), Failed, now)
    {
      record.error := Some(message);
      MarkTerminal(record, Failed, now);
    }

    method MarkStarted(record: LeaseRecord, now: int)
      modifies record
      ensures record.Value() == P.StartedLease(cfg, old(record.Value()), now)
    {
      if record.cancelRequested {
        record.state := Stopping;
        if record.terminalTarget == None {
          record.terminalTarget := Some(Cancelled);
        }
      } else {
        record.state := Active;
        record.activeDeadline := Some(now + cfg.active);
      }
    }

    /** The block that ends `_perform_stop`. */
    method FinishStop(record: LeaseRecord, outcome: P.StopOutcome, now: int)
      requires Valid() && current == Some(record.requestId) && records[record.requestId] == record
      modifies this`table, this`current, this`mode, this`reason, record
      ensures Valid() && records == old(records)
      ensures Value() == P.FinishStop(old(Value()), record.requestId, outcome, now)
    {
      match outcome {
        case StopFailed(m) =>
          record.error := Some(m);
          mode := P.Degraded;
          reason := Some("cleanup failed for " + record.requestId + ": " + m);
        case Stopped =>
          MarkTerminal(record, if record.terminalTarget == None then Released else record.terminalTarget.value, now);
          current := None;
      }
      table := table[record.requestId := records[record.requestId].Value()];
      OneRecordChanged(record.requestId);
    }

    /** The block that ends the reconciliation at startup. */
    method FinishReconcile(outcome: P.StopOutcome)
      requires Valid()
      modifies this`mode, this`reason
      ensures Valid() && Value() == P.FinishReconcile(old(Value()), outcome)
    {
      match outcome
      case Stopped => mode := P.Ready;
      case StopFailed(m) =>
        mode := P.Degraded;
        reason := Some("reconciliation failed: " + m);
    }
  }
}
