/**
 The invariant of every step of the lease protocol, and the proof that it is
 inductive: who may own the GPU, what the worker carries across an unlocked
 engine call, and how far the clock can have moved since the owner was granted.
 */
module Invariant {
  import opened Prelude
  import opened Leases
  import opened Protocol

  predicate LeaseOk(cfg: Config, now: int, l: Lease) {
    && l.createdAt <= now
    && 0 <= l.waitTimeout <= cfg.maxQueueWait
    && l.queueDeadline == l.createdAt + l.waitTimeout
    && l.service in cfg.services
    && (Terminal(l.state) <==> l.terminalAt.Some?)
    && (l.terminalAt.Some? ==> l.createdAt <= l.terminalAt.value <= now)
    && (l.state == Active ==> l.activeDeadline.Some?)
    && (l.state == Stopping ==> l.terminalTarget.Some?)
    && (l.terminalTarget.Some? ==> Terminal(l.terminalTarget.value))
    && (l.cancelRequested ==> l.terminalTarget.Some?)
  }

  predicate Owning(s: LeaseState) {
    s == Starting || s == Active || s == Stopping
  }

  /** Record table and queue. */
  ghost predicate TableOk(cfg: Config, s: State) {
    && (forall id | id in s.d.table :: LeaseOk(cfg, s.now, s.d.table[id]))
    && (forall id | id in s.d.table && s.d.table[id].state == Queued :: id in s.d.queue)
  }

  /** Only the current id owns; it names a record; a terminal owner means degraded. */
  ghost predicate OwnerOk(s: State) {
    && (forall id | id in s.d.table && Owning(s.d.table[id].state) :: s.d.current == Some(id))
    && (s.d.current.Some? ==>
          && s.d.current.value in s.d.table
          && var l := s.d.table[s.d.current.value];
             Owning(l.state) || (s.d.mode == Degraded && l.state == Failed))
  }

  /** The worker is where the ledger says it is. */
  ghost predicate WorkerOk(s: State) {
    && (s.d.mode == Reconciling <==> s.worker.Reconcile?)
    && (s.worker.Reconcile? ==> s.d.current == None && s.d.queue == [])
    && (s.worker.Gone? ==> s.d.mode == Degraded)
    && (s.worker.InStart? ==> s.d.mode == Ready && s.d.current == Some(s.worker.id))
    && (s.worker.InStop? ==> s.d.mode == Ready && s.d.current == Some(s.worker.id))
    && (s.d.mode == Ready && s.d.current.Some? && s.d.current.value in s.d.table ==>
          var st := s.d.table[s.d.current.value].state;
          && (st == Starting <==> s.worker.InStart?)
          && (s.worker.InStop? ==> st == Stopping))
    && (s.worker.Wait? ==> s.now <= s.worker.wakeAt <= s.now + LONGEST_SLEEP)
  }

  /** The owner was granted at `granted` or before: what its record and the worker show. */
  predicate OwnedSince(cfg: Config, s: State, id: string, granted: int)
    requires id in s.d.table
  {
    var l := s.d.table[id];
    var stopBy := granted + cfg.startup + cfg.active + MILLI - 1;
    && WithinLimit(cfg, s.worker, s.now)
    && (s.worker.InStart? ==> s.worker.since <= granted)
    && (l.state == Active && l.activeDeadline.Some? ==>
          && l.activeDeadline.value <= granted + cfg.startup + cfg.active
          && (s.worker.Wait? ==> s.worker.wakeAt < l.activeDeadline.value + MILLI))
    && (l.state == Stopping && s.worker.Wait? ==> s.worker.wakeAt == s.now <= stopBy)
    && (s.worker.InStop? ==> s.worker.since <= stopBy)
  }

  /** Deadlines of the owner and of the sleeping worker. */
  ghost predicate TimesOk(cfg: Config, s: State) {
    && WithinLimit(cfg, s.worker, s.now)
    && (s.d.mode == Ready ==>
          && (s.d.current.Some? && s.d.current.value in s.d.table ==>
                OwnedSince(cfg, s, s.d.current.value, s.d.table[s.d.current.value].queueDeadline - 1))
          && (s.worker.Wait? ==>
                && (s.d.current == None && s.d.queue != [] ==> s.worker.wakeAt == s.now)
                && (forall id | id in s.d.table && s.d.table[id].state == Queued ::
                      s.worker.wakeAt == s.now || s.worker.wakeAt < s.d.table[id].queueDeadline + MILLI)))
  }

  ghost predicate Inv(cfg: Config, s: State) {
    TableOk(cfg, s) && OwnerOk(s) && WorkerOk(s) && TimesOk(cfg, s)
  }

  lemma InitInv(cfg: Config, s: State)
    requires cfg.Valid() && Init(s)
    ensures Inv(cfg, s)
  {
  }

  lemma TickInv(cfg: Config, s: State, span: int)
    requires cfg.Valid() && Inv(cfg, s) && Enabled(cfg, s, Tick(span))
    ensures Inv(cfg, Next(cfg, s, Tick(span)))
  {
  }

  /** `t'` is `t` with some records dropped and some queued ones expired, the owner untouched. */
  ghost predicate Aged(t: Table, current: Option<string>, now: int, t': Table) {
    && t'.Keys <= t.Keys
    && (forall id | id in t' ::
          t'[id] == t[id] || (t[id].state == Queued && t'[id] == MarkTerminal(t[id], Expired, now)))
    && (current.Some? && current.value in t ==> current.value in t' && t'[current.value] == t[current.value])
  }

  function WithTable(s: State, t: Table): State {
    s.(d := s.d.(table := t))
  }

  lemma AgedTable(cfg: Config, s: State, t: Table)
    requires TableOk(cfg, s) && Aged(s.d.table, s.d.current, s.now, t)
    ensures TableOk(cfg, WithTable(s, t))
  {
  }

  /** Ageing the table keeps the whole invariant. */
  lemma AgedInv(cfg: Config, s: State, t: Table)
    requires Inv(cfg, s) && Aged(s.d.table, s.d.current, s.now, t)
    ensures Inv(cfg, WithTable(s, t))
  {
    AgedTable(cfg, s, t);
  }

  lemma PruneInv(cfg: Config, s: State)
    requires Inv(cfg, s)
    ensures Inv(cfg, WithTable(s, Prune(cfg, s.d.table, s.d.current, s.now)))
  {
    AgedInv(cfg, s, Prune(cfg, s.d.table, s.d.current, s.now));
  }

  /** Replacing or adding one record keeps the table in order. */
  lemma PutTable(cfg: Config, s: State, id: string, l: Lease, queue: seq<string>)
    requires TableOk(cfg, s) && LeaseOk(cfg, s.now, l)
    requires forall x | x in s.d.queue && x != id :: x in queue
    requires l.state == Queued ==> id in queue
    ensures TableOk(cfg, s.(d := s.d.(table := s.d.table[id := l], queue := queue)))
  {
  }

  lemma SubmitInv(cfg: Config, s: State, service: string, id: string, epoch: string, wait: int)
    requires cfg.Valid() && Inv(cfg, s)
    ensures Inv(cfg, Notify(s, Submit(cfg, s.d, s.now, service, id, epoch, wait)))
  {
    PruneInv(cfg, s);
    var r := Submit(cfg, s.d, s.now, service, id, epoch, wait);
    if r.notify {
      var kept := Prune(cfg, s.d.table, s.d.current, s.now);
      var s1 := s.(d := s.d.(table := kept));
      var l := NewLease(service, wait, s.now);
      PutTable(cfg, s1, id, l, s.d.queue + [id]);
    }
  }

  lemma StopCallInv(cfg: Config, s: State, service: string, id: string, epoch: string, target: LeaseState)
    requires cfg.Valid() && Inv(cfg, s) && (target == Released || target == Cancelled)
    ensures Inv(cfg, Notify(s, RequestStop(cfg, s.d, s.now, service, id, epoch, target)))
  {
    PruneInv(cfg, s);
    var r := RequestStop(cfg, s.d, s.now, service, id, epoch, target);
    if r.notify {
      StopLiveInv(cfg, s, id, target);
    } else if id !in s.d.table && r.answer.Accepted? {
      var s1 := s.(d := s.d.(table := Prune(cfg, s.d.table, s.d.current, s.now)));
      PutTable(cfg, s1, id, Tombstone(service, s.now), s.d.queue);
    }
  }

  lemma StopLiveInv(cfg: Config, s: State, id: string, target: LeaseState)
    requires cfg.Valid() && Inv(cfg, s) && (target == Released || target == Cancelled)
    requires id in s.d.table && !Terminal(s.d.table[id].state)
    ensures Inv(cfg, State(s.now, s.d.(table := s.d.table[id := StopLease(s.d.table[id], target, s.now)]),
                           if s.worker.Wait? then Wait(s.now) else s.worker))
  {
    var l' := StopLease(s.d.table[id], target, s.now);
    PutTable(cfg, s, id, l', s.d.queue);
  }

  /** The table after the sweep and the pruning that open every turn. */
  function Settle(cfg: Config, s: State): Table {
    Prune(cfg, Sweep(s.d.queue, s.d.table, s.now), s.d.current, s.now)
  }

  lemma SettleAges(cfg: Config, s: State)
    requires Inv(cfg, s)
    ensures Aged(s.d.table, s.d.current, s.now, Settle(cfg, s))
  {
    assert s.d.current.Some? ==> s.d.table[s.d.current.value].state != Queued;
  }

  lemma SettleInv(cfg: Config, s: State)
    requires Inv(cfg, s)
    ensures Inv(cfg, WithTable(s, Settle(cfg, s)))
    ensures Settled(Settle(cfg, s), s.d.queue, s.now)
    ensures forall id | id in Settle(cfg, s) && Settle(cfg, s)[id].state == Queued ::
      id in s.d.queue && s.now < Settle(cfg, s)[id].queueDeadline
  {
    SettleAges(cfg, s);
    AgedInv(cfg, s, Settle(cfg, s));
    SweptIsSettled(cfg, s.d.table, s.d.queue, s.d.current, s.now);
  }

  /** The sleep is never longer than 50 ms and overshoots no live deadline by a millisecond. */
  lemma NextWaitBounds(t: Table, queue: seq<string>, current: Option<string>, now: int)
    requires forall id | id in queue && id in t && t[id].state == Queued :: now < t[id].queueDeadline
    requires forall x | x in OwnerDeadline(t, current) :: now < x
    ensures 0 < NextWait(t, queue, current, now) <= LONGEST_SLEEP
    ensures forall id | id in queue && id in t && t[id].state == Queued ::
      now + NextWait(t, queue, current, now) < t[id].queueDeadline + MILLI
    ensures forall x | x in OwnerDeadline(t, current) :: now + NextWait(t, queue, current, now) < x + MILLI
  {
    var deadlines := OwnerDeadline(t, current) + QueueDeadlines(t, queue);
    forall id | id in queue && id in t && t[id].state == Queued
      ensures t[id].queueDeadline in deadlines
    {
      QueueDeadlinesHolds(t, queue, id);
    }
    forall x | x in QueueDeadlines(t, queue) ensures now < x {
      QueueDeadlinesSound(t, queue, x);
    }
  }

  /** A sleep shorter than the longest ends, rounded up to a millisecond, at one of the deadlines. */
  lemma NextWaitIsNeeded(t: Table, queue: seq<string>, current: Option<string>, now: int)
    ensures var span := NextWait(t, queue, current, now);
      || span == LONGEST_SLEEP
      || (exists x :: x in OwnerDeadline(t, current) && span == Max(MILLI, x - now))
      || (exists id :: id in queue && id in t && t[id].state == Queued && span == Max(MILLI, t[id].queueDeadline - now))
  {
    var owned, waiting := OwnerDeadline(t, current), QueueDeadlines(t, queue);
    if owned + waiting != [] && NextWait(t, queue, current, now) != LONGEST_SLEEP {
      var x := Least(owned + waiting);
      assert x in owned || x in waiting;
      if x !in owned {
        QueueDeadlinesSound(t, queue, x);
      }
    }
  }

  /** Going to sleep for a span that overshoots no live deadline. */
  lemma SleepInv(cfg: Config, s: State, span: int)
    requires Inv(cfg, s) && s.worker.Wait? && 0 < span <= LONGEST_SLEEP
    requires s.d.mode == Ready ==>
      && (s.d.current == None ==> s.d.queue == [])
      && (s.d.current.Some? ==>
            var l := s.d.table[s.d.current.value];
            l.state == Active && s.now + span < l.activeDeadline.value + MILLI)
      && (forall id | id in s.d.table && s.d.table[id].state == Queued ::
            s.now + span < s.d.table[id].queueDeadline + MILLI)
    ensures Inv(cfg, State(s.now, s.d, Wait(s.now + span)))
  {
  }

  /** Taking the GPU away from an owner whose time is up, or who gave it up. */
  lemma OwnerStopsInv(cfg: Config, s: State, id: string)
    requires cfg.Valid() && Inv(cfg, s) && s.worker.Wait? && s.d.mode == Ready && s.d.current == Some(id)
    requires ExpireOwner(s.d.table[id], s.now).state == Stopping
    ensures Inv(cfg, State(s.now, s.d.(table := s.d.table[id := ExpireOwner(s.d.table[id], s.now)]),
                           InStop(id, s.now)))
  {
    PutTable(cfg, s, id, ExpireOwner(s.d.table[id], s.now), s.d.queue);
  }

  /** A turn while the GPU is owned, in terms of the settled table. */
  lemma TurnOwnedIs(cfg: Config, s: State, id: string)
    requires s.worker.Wait? && s.d.mode == Ready && s.d.current == Some(id)
    requires id in s.d.table && s.d.table[id].state != Queued
    ensures id in Settle(cfg, s) && Settle(cfg, s)[id] == s.d.table[id]
    ensures var l := ExpireOwner(s.d.table[id], s.now);
      Next(cfg, s, WorkerTurn) ==
        if l.state == Stopping
        then State(s.now, s.d.(table := Settle(cfg, s)[id := l]), InStop(id, s.now))
        else State(s.now, s.d.(table := Settle(cfg, s)),
                   Wait(s.now + NextWait(Settle(cfg, s), s.d.queue, s.d.current, s.now)))
  {
    var t := Settle(cfg, s);
    assert t[id := t[id]] == t;
  }

  lemma TurnOwnedInv(cfg: Config, s: State, id: string)
    requires cfg.Valid() && Inv(cfg, s) && s.worker.Wait? && s.d.mode == Ready && s.d.current == Some(id)
    ensures Inv(cfg, Next(cfg, s, WorkerTurn))
  {
    TurnOwnedIs(cfg, s, id);
    SettleInv(cfg, s);
    var s1 := WithTable(s, Settle(cfg, s));
    if ExpireOwner(s.d.table[id], s.now).state == Stopping {
      OwnerStopsInv(cfg, s1, id);
    } else {
      NextWaitBounds(s1.d.table, s.d.queue, s.d.current, s.now);
      SleepInv(cfg, s1, NextWait(s1.d.table, s.d.queue, s.d.current, s.now));
    }
  }

  /** Entry `k` of the queue is the first one that names a live request. */
  ghost predicate FirstLive(t: Table, queue: seq<string>, k: int, now: int) {
    && 0 <= k < |queue| && queue[k] in t && t[queue[k]].state == Queued && now < t[queue[k]].queueDeadline
    && (forall i | 0 <= i < k :: queue[i] !in t || t[queue[i]].state != Queued)
  }

  ghost predicate NoneLive(t: Table, queue: seq<string>) {
    forall id | id in t && id in queue :: t[id].state != Queued
  }

  /** The worker begins to start request `id`, with `queue` left behind it. */
  function Begin(s: State, t: Table, id: string, queue: seq<string>): State
    requires id in t
  {
    State(s.now, s.d.(table := t[id := t[id].(state := Starting)], queue := queue, current := Some(id)),
          InStart(id, s.now))
  }

  /** A turn while the GPU is free, in terms of the settled table: the first
      live request starts, or the queue empties (`k` is then -1). */
  lemma TurnIdleIs(cfg: Config, s: State) returns (k: int)
    requires s.worker.Wait? && s.d.mode == Ready && s.d.current == None
    ensures var t := Settle(cfg, s);
      if k < 0
      then NoneLive(t, s.d.queue)
           && Next(cfg, s, WorkerTurn)
              == State(s.now, s.d.(table := t, queue := []), Wait(s.now + NextWait(t, [], None, s.now)))
      else FirstLive(t, s.d.queue, k, s.now)
           && Next(cfg, s, WorkerTurn) == Begin(s, t, s.d.queue[k], s.d.queue[k + 1..])
  {
    SweptIsSettled(cfg, s.d.table, s.d.queue, s.d.current, s.now);
    var t := Settle(cfg, s);
    var n := PopSplits(t, s.d.queue, s.now);
    if Pop(t, s.d.queue, s.now).next == None {
      assert s.d.queue[n..] == [];
      k := -1;
    } else {
      k := n - 1;
    }
  }

  lemma TurnIdleInv(cfg: Config, s: State)
    requires cfg.Valid() && Inv(cfg, s) && s.worker.Wait? && s.d.mode == Ready && s.d.current == None
    ensures Inv(cfg, Next(cfg, s, WorkerTurn))
  {
    var k := TurnIdleIs(cfg, s);
    SettleInv(cfg, s);
    if k < 0 {
      QueueEmptiesInv(cfg, WithTable(s, Settle(cfg, s)));
    } else {
      BeginInv(cfg, WithTable(s, Settle(cfg, s)), k);
    }
  }

  lemma QueueEmptiesInv(cfg: Config, s: State)
    requires cfg.Valid() && Inv(cfg, s) && s.worker.Wait? && s.d.mode == Ready && s.d.current == None
    requires NoneLive(s.d.table, s.d.queue)
    ensures Inv(cfg, State(s.now, s.d.(queue := []), Wait(s.now + NextWait(s.d.table, [], None, s.now))))
  {
    NextWaitBounds(s.d.table, [], None, s.now);
    SleepInv(cfg, s.(d := s.d.(queue := [])), NextWait(s.d.table, [], None, s.now));
  }

  lemma BeginInv(cfg: Config, s: State, k: int)
    requires cfg.Valid() && Inv(cfg, s) && s.worker.Wait? && s.d.mode == Ready && s.d.current == None
    requires FirstLive(s.d.table, s.d.queue, k, s.now)
    ensures Inv(cfg, Begin(s, s.d.table, s.d.queue[k], s.d.queue[k + 1..]))
  {
    var rest := s.d.queue[k + 1..];
    forall x | x in s.d.table && s.d.table[x].state == Queued && x != s.d.queue[k]
      ensures x in rest
    {
      var i :| 0 <= i < |s.d.queue| && s.d.queue[i] == x;
      assert rest[i - k - 1] == x;
    }
    PopStartsInv(cfg, s, s.d.queue[k], rest);
  }

  /** Handing the GPU to a live queued request. */
  lemma PopStartsInv(cfg: Config, s: State, id: string, queue: seq<string>)
    requires cfg.Valid() && Inv(cfg, s) && s.worker.Wait? && s.d.mode == Ready && s.d.current == None
    requires id in s.d.table && s.d.table[id].state == Queued && s.now < s.d.table[id].queueDeadline
    requires forall x | x in s.d.table && s.d.table[x].state == Queued && x != id :: x in queue
    ensures Inv(cfg, Begin(s, s.d.table, id, queue))
  {
  }

  lemma TurnInv(cfg: Config, s: State)
    requires cfg.Valid() && Inv(cfg, s) && Enabled(cfg, s, WorkerTurn)
    ensures Inv(cfg, Next(cfg, s, WorkerTurn))
  {
    if s.d.mode != Ready {
      SettleInv(cfg, s);
    } else if s.d.current.Some? {
      TurnOwnedInv(cfg, s, s.d.current.value);
    } else {
      TurnIdleInv(cfg, s);
    }
  }

  lemma StartDoneInv(cfg: Config, s: State, o: StartOutcome)
    requires cfg.Valid() && Inv(cfg, s) && Enabled(cfg, s, StartDone(o))
    ensures Inv(cfg, Next(cfg, s, StartDone(o)))
  {
    var s' := Next(cfg, s, StartDone(o));
    var id := s.worker.id;
    PutTable(cfg, s, id, s'.d.table[id], s.d.queue);
  }

  lemma StopDoneInv(cfg: Config, s: State, o: StopOutcome)
    requires cfg.Valid() && Inv(cfg, s) && Enabled(cfg, s, StopDone(o))
    ensures Inv(cfg, Next(cfg, s, StopDone(o)))
  {
    var s' := Next(cfg, s, StopDone(o));
    var id := s.worker.id;
    PutTable(cfg, s, id, s'.d.table[id], s.d.queue);
  }

  /** The invariant is inductive: every step of every participant keeps it. */
  lemma StepInv(cfg: Config, s: State, a: Action)
    requires cfg.Valid() && Inv(cfg, s) && Enabled(cfg, s, a)
    ensures Inv(cfg, Next(cfg, s, a))
  {
    match a
    case Tick(span) => TickInv(cfg, s, span);
    case SubmitCall(service, id, epoch, wait) => SubmitInv(cfg, s, service, id, epoch, wait);
    case StopCall(service, id, epoch, target) => StopCallInv(cfg, s, service, id, epoch, target);
    case WorkerTurn => TurnInv(cfg, s);
    case StartDone(o) => StartDoneInv(cfg, s, o);
    case StopDone(o) => StopDoneInv(cfg, s, o);
    case ReconcileDone(o) =>
  }

  lemma {:induction false} RunInv(cfg: Config, states: seq<State>, acts: seq<Action>, i: nat)
    requires cfg.Valid() && IsRun(cfg, states, acts) && Inv(cfg, states[0]) && i < |states|
    ensures Inv(cfg, states[i])
  {
    if i > 0 {
      RunInv(cfg, states, acts, i - 1);
      StepInv(cfg, states[i - 1], acts[i - 1]);
    }
  }

  // ---- The table never outgrows its capacity ----

  lemma PruneShrinks(cfg: Config, t: Table, current: Option<string>, now: int)
    ensures var kept := Prune(cfg, t, current, now);
      |kept| <= |t| && kept.Keys <= t.Keys
  {
    var kept := Prune(cfg, t, current, now);
    assert kept.Keys <= t.Keys;
    SubsetSize(kept.Keys, t.Keys);
  }

  lemma {:induction false} SubsetSize<T>(a: set<T>, b: set<T>)
    requires a <= b
    ensures |a| <= |b|
  {
    if a != {} {
      var x :| x in a;
      SubsetSize(a - {x}, b - {x});
    }
  }

  lemma AgedShrinks(s: State, t: Table)
    requires Aged(s.d.table, s.d.current, s.now, t)
    ensures |t| <= |s.d.table|
  {
    SubsetSize(t.Keys, s.d.table.Keys);
    assert |t| == |t.Keys| && |s.d.table| == |s.d.table.Keys|;
  }

  lemma PutSize(t: Table, id: string, l: Lease)
    ensures |t[id := l]| == if id in t then |t| else |t| + 1
  {
    assert id in t ==> t[id := l].Keys == t.Keys;
    assert |t[id := l]| == |t[id := l].Keys| && |t| == |t.Keys|;
  }

  lemma SubmitKeepsCapacity(cfg: Config, s: State, service: string, id: string, epoch: string, wait: int)
    requires |s.d.table| <= cfg.maxRecords
    ensures |Submit(cfg, s.d, s.now, service, id, epoch, wait).ledger.table| <= cfg.maxRecords
  {
    PruneShrinks(cfg, s.d.table, s.d.current, s.now);
    PutSize(Prune(cfg, s.d.table, s.d.current, s.now), id, NewLease(service, wait, s.now));
    hide Prune;
  }

  lemma StopKeepsCapacity(cfg: Config, s: State, service: string, id: string, epoch: string, target: LeaseState)
    requires |s.d.table| <= cfg.maxRecords
    ensures |RequestStop(cfg, s.d, s.now, service, id, epoch, target).ledger.table| <= cfg.maxRecords
  {
    PruneShrinks(cfg, s.d.table, s.d.current, s.now);
    PutSize(Prune(cfg, s.d.table, s.d.current, s.now), id, Tombstone(service, s.now));
    if id in s.d.table {
      PutSize(s.d.table, id, StopLease(s.d.table[id], target, s.now));
    }
    hide Prune, StopLease;
  }

  lemma EngineKeepsCapacity(cfg: Config, s: State, a: Action)
    requires Enabled(cfg, s, a) && (a.StartDone? || a.StopDone?)
    ensures |Next(cfg, s, a).d.table| == |s.d.table|
  {
    PutSize(s.d.table, s.worker.id, Next(cfg, s, a).d.table[s.worker.id]);
    hide StartedLease, WithinLimit;
  }

  /** No step takes the table past `maxRecords`. */
  lemma StepKeepsCapacity(cfg: Config, s: State, a: Action)
    requires Inv(cfg, s) && Enabled(cfg, s, a) && |s.d.table| <= cfg.maxRecords
    ensures |Next(cfg, s, a).d.table| <= cfg.maxRecords
  {
    hide Inv, Submit, RequestStop, Turn, FinishStart, FinishStop, WithinLimit;
    match a
    case SubmitCall(service, id, epoch, wait) => SubmitKeepsCapacity(cfg, s, service, id, epoch, wait);
    case StopCall(service, id, epoch, target) => StopKeepsCapacity(cfg, s, service, id, epoch, target);
    case WorkerTurn => TurnKeepsCapacity(cfg, s);
    case StartDone(_) => EngineKeepsCapacity(cfg, s, a);
    case StopDone(_) => EngineKeepsCapacity(cfg, s, a);
    case _ =>
  }

  /** Nor does any run. */
  lemma {:induction false} RunKeepsCapacity(cfg: Config, states: seq<State>, acts: seq<Action>, i: nat)
    requires cfg.Valid() && IsRun(cfg, states, acts) && Inv(cfg, states[0]) && i < |states|
    requires |states[0].d.table| <= cfg.maxRecords
    ensures |states[i].d.table| <= cfg.maxRecords
  {
    hide Inv, Next, Enabled;
    if i > 0 {
      RunKeepsCapacity(cfg, states, acts, i - 1);
      RunInv(cfg, states, acts, i - 1);
      assert Enabled(cfg, states[i - 1], acts[i - 1]);
      StepKeepsCapacity(cfg, states[i - 1], acts[i - 1]);
    }
  }

  lemma TurnKeepsCapacity(cfg: Config, s: State)
    requires Inv(cfg, s) && s.worker.Wait?
    ensures |Next(cfg, s, WorkerTurn).d.table| <= |s.d.table|
  {
    SettleAges(cfg, s);
    AgedShrinks(s, Settle(cfg, s));
    if s.d.mode == Ready {
      if s.d.current.Some? {
        TurnOwnedIs(cfg, s, s.d.current.value);
        hide Next, Settle, Inv, NextWait;
        PutSize(Settle(cfg, s), s.d.current.value, ExpireOwner(s.d.table[s.d.current.value], s.now));
      } else {
        var k := TurnIdleIs(cfg, s);
        hide Next, Settle, Inv, NextWait;
        if k >= 0 {
          var id := s.d.queue[k];
          PutSize(Settle(cfg, s), id, Settle(cfg, s)[id].(state := Starting));
        }
      }
    }
  }
}
