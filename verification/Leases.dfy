/**
 One lease record, the dispatcher's budgets, and the pure bookkeeping over the
 record table: expiry sweep, pruning of old tombstones, the pop loop over the
 queue and the length of the worker's sleep.

 All times are whole microseconds of one monotonic clock.
 */
module Leases {
  import opened Prelude

  const MILLI := 1000
  const SECOND := 1000 * MILLI
  const LONGEST_SLEEP := 50 * MILLI

  datatype LeaseState = Queued | Starting | Active | Stopping | Released | Cancelled | Expired | Failed

  predicate Terminal(s: LeaseState) {
    s == Released || s == Cancelled || s == Expired || s == Failed
  }

  /** How far a lease has climbed; terminal states are the top. */
  function Rank(s: LeaseState): nat {
    match s
    case Queued => 0
    case Starting => 1
    case Active => 2
    case Stopping => 3
    case _ => 4
  }

  datatype Lease = Lease(
    service: string,
    waitTimeout: int,
    createdAt: int,
    queueDeadline: int,
    state: LeaseState,
    cancelRequested: bool,
    terminalTarget: Option<LeaseState>,
    activeDeadline: Option<int>,
    terminalAt: Option<int>,
    error: Option<string>)

  type Table = map<string, Lease>

  /** Constructor arguments of the dispatcher, and what it asks of its engine manager. */
  datatype Config = Config(
    maxQueueWait: int,
    startup: int,
    active: int,
    cleanup: int,
    retention: int,
    maxRecords: int,
    engineCleanup: int,
    services: set<string>,
    epoch: string)
  {
    /** What the dispatcher accepts at its construction. */
    predicate Positive() {
      0 < maxQueueWait && 0 < startup && 0 < active && 0 < cleanup && 0 < retention && 0 < maxRecords
    }

    predicate Valid() {
      Positive() && 0 < engineCleanup
    }

    /** The longest time from a grant to the moment the GPU is given up. */
    function MaxHold(): int {
      startup + Max(active + MILLI - 1 + cleanup, engineCleanup)
    }
  }

  function NewLease(service: string, wait: int, now: int): Lease {
    Lease(service, wait, now, now + wait, Queued, false, None, None, None, None)
  }

  function Tombstone(service: string, now: int): Lease {
    Lease(service, 0, now, now, Cancelled, false, None, None, Some(now), None)
  }

  function MarkTerminal(l: Lease, s: LeaseState, now: int): Lease {
    l.(state := s, terminalAt := Some(now), activeDeadline := None)
  }

  predicate Overdue(l: Lease, now: int) {
    l.state == Queued && now >= l.queueDeadline
  }

  /** Every overdue record named by the queue expires. */
  function Sweep(queue: seq<string>, t: Table, now: int): Table {
    map id | id in t ::
      if id in queue && Overdue(t[id], now) then MarkTerminal(t[id], Expired, now) else t[id]
  }

  predicate Stale(cfg: Config, l: Lease, now: int) {
    Terminal(l.state) && l.terminalAt.Some? && now - l.terminalAt.value >= cfg.retention
  }

  /** Tombstones past their retention leave the table; the owner's record never does. */
  function Prune(cfg: Config, t: Table, current: Option<string>, now: int): Table {
    map id | id in t && !(Stale(cfg, t[id], now) && current != Some(id)) :: t[id]
  }

  datatype Popped = Popped(table: Table, queue: seq<string>, next: Option<string>)

  /** Pops until a live request turns up, expiring overdue ones on the way. */
  function Pop(t: Table, queue: seq<string>, now: int): Popped {
    if queue == [] then Popped(t, [], None)
    else
      var id := queue[0];
      if id !in t || t[id].state != Queued then Pop(t, queue[1..], now)
      else if now >= t[id].queueDeadline then
        Pop(t[id := MarkTerminal(t[id], Expired, now)], queue[1..], now)
      else Popped(t, queue[1..], Some(id))
  }

  function QueueDeadlines(t: Table, queue: seq<string>): seq<int> {
    if queue == [] then []
    else
      (if queue[0] in t && t[queue[0]].state == Queued then [t[queue[0]].queueDeadline] else [])
      + QueueDeadlines(t, queue[1..])
  }

  function OwnerDeadline(t: Table, current: Option<string>): seq<int> {
    if current.Some? && current.value in t
       && t[current.value].state == Active && t[current.value].activeDeadline.Some?
    then [t[current.value].activeDeadline.value]
    else []
  }

  function Least(s: seq<int>): (m: int)
    requires s != []
    ensures m in s && forall x | x in s :: m <= x
  {
    if |s| == 1 then s[0]
    else
      assert s == [s[0]] + s[1..];
      Min(s[0], Least(s[1..]))
  }

  /** How long the worker sleeps when nothing is due. */
  function NextWait(t: Table, queue: seq<string>, current: Option<string>, now: int): int {
    var deadlines := OwnerDeadline(t, current) + QueueDeadlines(t, queue);
    if deadlines == [] then LONGEST_SLEEP
    else Max(MILLI, Min(LONGEST_SLEEP, Least(deadlines) - now))
  }

  lemma {:induction false} DeadlinesOfOneMore(t: Table, q: seq<string>, id: string)
    ensures QueueDeadlines(t, q + [id]) == QueueDeadlines(t, q) + QueueDeadlines(t, [id])
  {
    if q == [] {
      assert q + [id] == [id];
    } else {
      DeadlinesOfOneMore(t, q[1..], id);
      assert (q + [id])[1..] == q[1..] + [id];
    }
  }

  lemma {:induction false} QueueDeadlinesHolds(t: Table, queue: seq<string>, id: string)
    requires id in queue && id in t && t[id].state == Queued
    ensures t[id].queueDeadline in QueueDeadlines(t, queue)
  {
    if queue[0] != id {
      assert id in queue[1..];
      QueueDeadlinesHolds(t, queue[1..], id);
    }
  }

  lemma {:induction false} QueueDeadlinesSound(t: Table, queue: seq<string>, x: int)
    requires x in QueueDeadlines(t, queue)
    ensures exists id :: id in queue && id in t && t[id].state == Queued && t[id].queueDeadline == x
  {
    if x !in QueueDeadlines(t, queue[1..]) {
      assert queue[0] in queue && t[queue[0]].queueDeadline == x;
    } else {
      QueueDeadlinesSound(t, queue[1..], x);
    }
  }

  /** No record named by the queue is overdue. */
  ghost predicate Settled(t: Table, queue: seq<string>, now: int) {
    forall id | id in queue && id in t :: !Overdue(t[id], now)
  }

  lemma SweptIsSettled(cfg: Config, t: Table, queue: seq<string>, current: Option<string>, now: int)
    ensures Settled(Prune(cfg, Sweep(queue, t, now), current, now), queue, now)
  {
  }

  /** Once the sweep has run at the same instant the expiry test inside the pop
      loop never fires: popping changes no record, drops a prefix of the queue
      holding nothing live but its last entry, and hands out that entry. */
  lemma {:induction false} PopSplits(t: Table, queue: seq<string>, now: int) returns (k: nat)
    requires Settled(t, queue, now)
    ensures k <= |queue|
    ensures Pop(t, queue, now).table == t
    ensures Pop(t, queue, now).queue == queue[k..]
    ensures Pop(t, queue, now).next == None ==> k == |queue|
    ensures Pop(t, queue, now).next.Some? ==>
      var id := Pop(t, queue, now).next.value;
      k > 0 && queue[k - 1] == id && id in t && t[id].state == Queued && now < t[id].queueDeadline
    ensures forall i | 0 <= i < (if Pop(t, queue, now).next == None then k else k - 1) ::
      queue[i] !in t || t[queue[i]].state != Queued
  {
    if queue == [] {
      k := 0;
    } else {
      var id := queue[0];
      assert id in queue;
      if id !in t || t[id].state != Queued {
        assert forall x | x in queue[1..] :: x in queue;
        var k' := PopSplits(t, queue[1..], now);
        k := k' + 1;
      } else {
        k := 1;
      }
    }
  }
}
