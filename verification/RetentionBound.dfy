/**
 The retention that `QueueRoom` asks for is exact: with less, a run exists in
 which an id is admitted again behind its own stale queue entry, and may then
 jump ahead of a request that was admitted earlier.
 */
module RetentionBound {
  import opened Prelude
  import opened Leases
  import opened Protocol
  import opened Invariant
  import opened Runs
  import opened QueueRoom
  import opened QueueOrder

  ghost predicate Reaches(cfg: Config, s: State, s': State) {
    exists states, acts :: IsRun(cfg, states, acts) && states[0] == s && states[|acts|] == s'
  }

  ghost predicate Reachable(cfg: Config, s: State) {
    exists s0 :: Init(s0) && Reaches(cfg, s0, s)
  }

  lemma Extend(cfg: Config, s: State, a: Action)
    requires Reachable(cfg, s) && Enabled(cfg, s, a)
    ensures Reachable(cfg, Next(cfg, s, a))
  {
    hide Enabled, Next;
    var s0 :| Init(s0) && Reaches(cfg, s0, s);
    var states, acts :| IsRun(cfg, states, acts) && states[0] == s0 && states[|acts|] == s;
    var states', acts' := states + [Next(cfg, s, a)], acts + [a];
    forall i | 0 <= i < |acts'|
      ensures Enabled(cfg, states'[i], acts'[i]) && states'[i + 1] == Next(cfg, states'[i], acts'[i])
    {
      if i < |acts| {
        StepAt(cfg, states, acts, i);
      }
    }
    assert IsRun(cfg, states', acts');
  }

  lemma ReachableInv(cfg: Config, s: State)
    requires cfg.Valid() && Reachable(cfg, s)
    ensures Inv(cfg, s) && (Retains(cfg) ==> Tidy(cfg, s))
  {
    hide Enabled, Next;
    var s0 :| Init(s0) && Reaches(cfg, s0, s);
    var states, acts :| IsRun(cfg, states, acts) && states[0] == s0 && states[|acts|] == s;
    InitInv(cfg, s0);
    RunInv(cfg, states, acts, |acts|);
    if Retains(cfg) {
      RunTidy(cfg, states, acts, |acts|);
    }
  }

  /** Letting time pass, if any is left. */
  lemma PassTo(cfg: Config, s: State, t: int) returns (s': State)
    requires Reachable(cfg, s) && s.now <= t && WithinLimit(cfg, s.worker, t)
    ensures Reachable(cfg, s') && s' == s.(now := t)
  {
    if t == s.now {
      s' := s;
    } else {
      Extend(cfg, s, Tick(t - s.now));
      s' := s.(now := t);
    }
  }

  /** The request that was admitted and cancelled at time 0. */
  function Dead(cfg: Config, svc: string): Lease {
    MarkTerminal(NewLease(svc, cfg.maxQueueWait, 0), Cancelled, 0)
  }

  lemma InitReachable(cfg: Config, s: State)
    requires Init(s)
    ensures Reachable(cfg, s)
  {
    var none: seq<Action> := [];
    assert IsRun(cfg, [s], none) && [s][|none|] == s;
    assert Reaches(cfg, s, s);
  }

  // ---- The requests of the run ----

  /** The ids of the owners: all different, and none of them one of "b", "c" and "e". */
  function Name(k: nat): (id: string)
    ensures |id| == k + 1 && id[0] == 'o'
  {
    seq(k + 1, _ => 'o')
  }

  function Names(m: nat): set<string> {
    set i: nat | i < m :: Name(i)
  }

  lemma {:induction false} NamesSize(m: nat)
    ensures |Names(m)| <= m
  {
    if m == 0 {
      assert Names(0) == {};
    } else {
      NamesSize(m - 1);
      assert Names(m) == Names(m - 1) + {Name(m - 1)};
    }
  }

  lemma NamesDiffer(i: nat, j: nat)
    requires i != j
    ensures Name(i) != Name(j)
  {
    assert |Name(i)| != |Name(j)|;
  }

  function Fresh0(cfg: Config, svc: string): Lease {
    NewLease(svc, cfg.maxQueueWait, 0)
  }

  /** The first `m` requests, all waiting. */
  function Crowd(cfg: Config, svc: string, m: nat): Table {
    map id | id in Names(m) :: Fresh0(cfg, svc)
  }

  function Line(k: nat, m: nat): seq<string>
    requires k <= m
    decreases m - k
  {
    if k == m then [] else [Name(k)] + Line(k + 1, m)
  }

  lemma {:induction false} LineGrows(k: nat, m: nat)
    requires k <= m
    ensures Line(k, m + 1) == Line(k, m) + [Name(m)]
    decreases m - k
  {
    hide Name;
    if k < m {
      LineGrows(k + 1, m);
      assert [Name(k)] + (Line(k + 1, m) + [Name(m)]) == ([Name(k)] + Line(k + 1, m)) + [Name(m)];
    } else {
      assert Line(m + 1, m + 1) == [];
    }
  }

  lemma SizeOf(t: Table, keys: set<string>)
    requires t.Keys <= keys
    ensures |t| <= |keys|
  {
    SubsetSize(t.Keys, keys);
    assert |t| == |t.Keys|;
  }

  /** Admission of an id whose record is absent. */
  lemma SubmitFresh(cfg: Config, s: State, svc: string, id: string) returns (s': State)
    requires cfg.Valid() && Reachable(cfg, s) && s.d.mode == Ready && svc in cfg.services && id !in s.d.table
    requires |Prune(cfg, s.d.table, s.d.current, s.now)| < cfg.maxRecords
    ensures Reachable(cfg, s')
    ensures s' == State(s.now,
      s.d.(table := Prune(cfg, s.d.table, s.d.current, s.now)[id := NewLease(svc, cfg.maxQueueWait, s.now)],
           queue := s.d.queue + [id]),
      if s.worker.Wait? then Wait(s.now) else s.worker)
  {
    var a := SubmitCall(svc, id, cfg.epoch, cfg.maxQueueWait);
    Extend(cfg, s, a);
    s' := Next(cfg, s, a);
  }

  lemma ReadyAtOnce(cfg: Config) returns (s: State)
    requires cfg.Valid()
    ensures Reachable(cfg, s) && s == State(0, Ledger(map[], [], None, Ready, None), Wait(0))
  {
    var s0 := State(0, Ledger(map[], [], None, Reconciling, None), Reconcile(0));
    InitReachable(cfg, s0);
    Extend(cfg, s0, ReconcileDone(Stopped));
    s := Next(cfg, s0, ReconcileDone(Stopped));
  }

  lemma CrowdIsYoung(cfg: Config, svc: string, m: nat)
    ensures Prune(cfg, Crowd(cfg, svc, m), None, 0) == Crowd(cfg, svc, m)
  {
  }

  /** All owners-to-be are admitted at time 0. */
  lemma {:induction false} Crowded(cfg: Config, svc: string, m: nat) returns (s: State)
    requires cfg.Valid() && svc in cfg.services && m <= cfg.maxRecords
    ensures Reachable(cfg, s) && s == State(0, Ledger(Crowd(cfg, svc, m), Line(0, m), None, Ready, None), Wait(0))
  {
    if m == 0 {
      s := ReadyAtOnce(cfg);
      assert Crowd(cfg, svc, 0) == map[];
    } else {
      var before := Crowded(cfg, svc, m - 1);
      CrowdGrows(cfg, svc, m);
      NamesSize(m - 1);
      SizeOf(before.d.table, Names(m - 1));
      CrowdIsYoung(cfg, svc, m - 1);
      hide Crowd, Reachable, Name, Names, Prune, Line;
      s := SubmitFresh(cfg, before, svc, Name(m - 1));
      LineGrows(0, m - 1);
    }
  }

  lemma CrowdGrows(cfg: Config, svc: string, m: nat)
    requires 0 < m
    ensures Name(m - 1) !in Crowd(cfg, svc, m - 1)
    ensures Crowd(cfg, svc, m) == Crowd(cfg, svc, m - 1)[Name(m - 1) := Fresh0(cfg, svc)]
  {
    forall i: nat | i < m - 1 ensures Name(i) != Name(m - 1) {
      NamesDiffer(i, m - 1);
    }
    assert Names(m) == Names(m - 1) + {Name(m - 1)};
  }

  // ---- The scenes ----

  /** The entry of `e` stands behind the owners from `k` on, who still wait; earlier ones may be gone. */
  ghost predicate Behind(cfg: Config, svc: string, n: nat, k: nat, s: State)
    requires k <= n + 1
  {
    && s.d.mode == Ready && s.d.queue == Line(k, n + 1) + ["e"]
    && s.d.table.Keys <= Names(n + 1) + {"e"}
    && (forall i: nat | k <= i <= n :: Name(i) in s.d.table && s.d.table[Name(i)] == Fresh0(cfg, svc))
    && ("e" in s.d.table ==> s.d.table["e"] == Dead(cfg, svc))
  }

  /** The GPU is free, and the worker is about to hand it to owner `k`. */
  ghost predicate Open(cfg: Config, svc: string, n: nat, k: nat, s: State)
    requires k <= n
  {
    Behind(cfg, svc, n, k, s) && s.d.current == None && s.worker == Wait(s.now)
  }

  /** Owner `k` has the GPU. */
  ghost predicate Held(cfg: Config, svc: string, n: nat, k: nat, s: State)
    requires k <= n
  {
    && Behind(cfg, svc, n, k + 1, s) && s.d.current == Some(Name(k))
    && Name(k) in s.d.table && s.d.table[Name(k)].service == svc
  }

  /** Nobody who waits is overdue. */
  predicate InTime(cfg: Config, n: nat, k: nat, t: int) {
    k < n ==> t < cfg.maxQueueWait
  }

  /** `e` is admitted behind everybody and cancelled at once. */
  lemma Opening(cfg: Config, svc: string, n: nat) returns (s: State)
    requires cfg.Valid() && svc in cfg.services && n + 2 <= cfg.maxRecords
    ensures Reachable(cfg, s) && Open(cfg, svc, n, 0, s) && s.now == 0
  {
    var s1 := Crowded(cfg, svc, n + 1);
    NamesSize(n + 1);
    SizeOf(s1.d.table, Names(n + 1));
    assert Prune(cfg, s1.d.table, None, 0) == s1.d.table;
    assert "e" !in s1.d.table;
    var s2 := SubmitFresh(cfg, s1, svc, "e");
    s := CancelQueued(cfg, s2, svc, "e");
  }

  lemma CancelQueued(cfg: Config, s: State, svc: string, id: string) returns (s': State)
    requires Reachable(cfg, s) && Waiting(s, id) && s.d.table[id].service == svc
    ensures Reachable(cfg, s')
    ensures s' == State(s.now, s.d.(table := s.d.table[id := MarkTerminal(s.d.table[id], Cancelled, s.now)]),
                        if s.worker.Wait? then Wait(s.now) else s.worker)
  {
    var a := StopCall(svc, id, cfg.epoch, Cancelled);
    Extend(cfg, s, a);
    s' := Next(cfg, s, a);
  }

  /** Sweeping and pruning change nobody who waits in time, and no owner. */
  lemma SettleBehind(cfg: Config, svc: string, n: nat, k: nat, s: State)
    requires cfg.Valid() && k <= n + 1 && Behind(cfg, svc, n, k, s) && (k <= n ==> s.now < cfg.maxQueueWait)
    ensures Behind(cfg, svc, n, k, WithTable(s, Settle(cfg, s)))
  {
    var t := Settle(cfg, s);
    assert t.Keys <= s.d.table.Keys;
    assert "e" in t ==> t["e"] == Dead(cfg, svc);
    hide Name, Names, Line;
    forall i: nat | k <= i <= n
      ensures Name(i) in t && t[Name(i)] == Fresh0(cfg, svc)
    {
      assert s.d.table[Name(i)] == Fresh0(cfg, svc);
    }
  }

  lemma TakesFirst(cfg: Config, s: State, id: string, rest: seq<string>)
    requires cfg.Valid() && Inv(cfg, s) && s.worker.Wait? && s.d.mode == Ready && s.d.current == None
    requires s.d.queue == [id] + rest && id in Settle(cfg, s) && Settle(cfg, s)[id].state == Queued
    ensures Next(cfg, s, WorkerTurn) == Begin(s, Settle(cfg, s), id, rest)
  {
    var j := TurnIdleIs(cfg, s);
    hide Next, Inv, Settle;
    assert s.d.queue[0] == id && id in s.d.queue;
    assert j == 0;
    assert s.d.queue[1..] == rest;
  }

  /** Owner `k` is the first live entry. */
  lemma FirstInLine(cfg: Config, svc: string, n: nat, k: nat, s: State)
    requires cfg.Valid() && Inv(cfg, s) && k <= n && Open(cfg, svc, n, k, s) && s.now < cfg.maxQueueWait
    ensures Next(cfg, s, WorkerTurn) == Begin(s, Settle(cfg, s), Name(k), Line(k + 1, n + 1) + ["e"])
  {
    hide Next, Inv, Settle, Names, Name;
    SettleBehind(cfg, svc, n, k, s);
    assert s.d.queue == [Name(k)] + (Line(k + 1, n + 1) + ["e"]);
    TakesFirst(cfg, s, Name(k), Line(k + 1, n + 1) + ["e"]);
  }

  /** The turn that grants owner `k`. */
  lemma Grant(cfg: Config, svc: string, n: nat, k: nat, s: State) returns (s': State)
    requires cfg.Valid() && Reachable(cfg, s) && k <= n && Open(cfg, svc, n, k, s) && s.now < cfg.maxQueueWait
    ensures Reachable(cfg, s') && Held(cfg, svc, n, k, s') && s'.now == s.now && s'.worker == InStart(Name(k), s.now)
    ensures s'.d.table[Name(k)] == Fresh0(cfg, svc).(state := Starting)
  {
    hide Next, Inv, Settle, Reachable, Name, Names, Line;
    ReachableInv(cfg, s);
    Extend(cfg, s, WorkerTurn);
    SettleBehind(cfg, svc, n, k, s);
    FirstInLine(cfg, svc, n, k, s);
    s' := Next(cfg, s, WorkerTurn);
    forall i: nat | k + 1 <= i <= n
      ensures Name(i) != Name(k)
    {
      NamesDiffer(i, k);
    }
  }

  // ---- One tenure of any length ----

  lemma PassHeld(cfg: Config, svc: string, n: nat, k: nat, s: State, t: int) returns (s': State)
    requires Reachable(cfg, s) && k <= n && Held(cfg, svc, n, k, s) && s.now <= t && WithinLimit(cfg, s.worker, t)
    ensures Reachable(cfg, s') && Held(cfg, svc, n, k, s') && s' == s.(now := t)
  {
    hide Reachable, Name, Names, Line;
    s' := PassTo(cfg, s, t);
  }

  lemma SceneTurn(cfg: Config, svc: string, n: nat, k: nat, s: State)
    requires cfg.Valid() && Inv(cfg, s) && k <= n && Held(cfg, svc, n, k, s) && s.worker.Wait?
    requires s.d.table[Name(k)].state == Active && s.d.table[Name(k)].activeDeadline.Some?
    requires s.now < s.d.table[Name(k)].activeDeadline.value && InTime(cfg, n, k, s.now)
    ensures var s' := Next(cfg, s, WorkerTurn);
      && Held(cfg, svc, n, k, s') && s'.d.table[Name(k)] == s.d.table[Name(k)] && s'.now == s.now && s'.worker.Wait?
      && s'.worker.wakeAt > s.now
      && (s.d.table[Name(k)].activeDeadline.value == s.now + 1 ==> s'.worker.wakeAt == s.now + MILLI)
  {
    hide Next, Inv, Settle, NextWait, Name, Names, Line;
    TurnOwnedIs(cfg, s, Name(k));
    SettleBehind(cfg, svc, n, k + 1, s);
    var t := Settle(cfg, s);
    WaitLeast(t, s.d.queue, s.d.current, s.now);
    assert OwnerDeadline(t, s.d.current) == [s.d.table[Name(k)].activeDeadline.value];
  }

  lemma WaitLeast(t: Table, queue: seq<string>, current: Option<string>, now: int)
    ensures var span := NextWait(t, queue, current, now);
      span > 0 && (now + 1 in OwnerDeadline(t, current) ==> span == MILLI)
  {
  }

  /** An active owner lets the clock reach any moment before its deadline. */
  lemma {:induction false} Idle(cfg: Config, svc: string, n: nat, k: nat, s: State, t: int) returns (s': State)
    requires cfg.Valid() && Reachable(cfg, s) && k <= n && Held(cfg, svc, n, k, s) && s.worker.Wait?
    requires s.d.table[Name(k)].state == Active && s.d.table[Name(k)].activeDeadline.Some?
    requires s.now <= t < s.d.table[Name(k)].activeDeadline.value && InTime(cfg, n, k, t)
    ensures Reachable(cfg, s') && Held(cfg, svc, n, k, s') && s'.now == t && s'.worker.Wait?
    ensures s'.d.table[Name(k)] == s.d.table[Name(k)]
    decreases t - s.now, if s.worker.Wait? && s.worker.wakeAt > s.now then 0 else 1
  {
    hide Reachable, Inv, Next, Name, Names, Line, Behind;
    ReachableInv(cfg, s);
    if s.now == t {
      s' := s;
    } else if s.worker.wakeAt > s.now {
      var s1 := PassHeld(cfg, svc, n, k, s, Min(t, s.worker.wakeAt));
      s' := Idle(cfg, svc, n, k, s1, t);
    } else {
      Extend(cfg, s, WorkerTurn);
      SceneTurn(cfg, svc, n, k, s);
      s' := Idle(cfg, svc, n, k, Next(cfg, s, WorkerTurn), t);
    }
  }

  /** The turn that stops an owner whose time is up or who was asked to stop. */
  lemma StopTurn(cfg: Config, svc: string, n: nat, k: nat, s: State) returns (s': State)
    requires cfg.Valid() && Reachable(cfg, s) && k <= n && Held(cfg, svc, n, k, s) && s.worker.Wait?
    requires ExpireOwner(s.d.table[Name(k)], s.now).state == Stopping && InTime(cfg, n, k, s.now)
    ensures Reachable(cfg, s') && Held(cfg, svc, n, k, s') && s'.now == s.now && s'.worker == InStop(Name(k), s.now)
    ensures s'.d.table.Keys == Settle(cfg, s).Keys
  {
    hide Next, Settle, Reachable, Name, Names, Line;
    Extend(cfg, s, WorkerTurn);
    assert s.d.table[Name(k)].state != Queued;
    TurnOwnedIs(cfg, s, Name(k));
    SettleBehind(cfg, svc, n, k + 1, s);
    s' := Next(cfg, s, WorkerTurn);
    OthersKept(cfg, svc, n, k, WithTable(s, Settle(cfg, s)), s');
  }

  /** Changing the owner's record alone keeps the scene. */
  lemma OthersKept(cfg: Config, svc: string, n: nat, k: nat, s: State, s': State)
    requires k <= n && Behind(cfg, svc, n, k + 1, s) && Name(k) in s.d.table
    requires s'.d.mode == Ready && s'.d.queue == s.d.queue && s'.d.table.Keys == s.d.table.Keys
    requires forall id | id in s.d.table && id != Name(k) :: s'.d.table[id] == s.d.table[id]
    ensures Behind(cfg, svc, n, k + 1, s')
  {
    forall i: nat | k + 1 <= i <= n
      ensures Name(i) in s'.d.table && s'.d.table[Name(i)] == Fresh0(cfg, svc)
    {
      NamesDiffer(i, k);
    }
  }

  /** The end of the engine operation frees the GPU for the next owner. */
  lemma Finish(cfg: Config, svc: string, n: nat, k: nat, s: State) returns (s': State)
    requires cfg.Valid() && Reachable(cfg, s) && k < n && Held(cfg, svc, n, k, s)
    requires (s.worker.InStart? || s.worker.InStop?) && s.worker.id == Name(k)
    ensures Reachable(cfg, s') && Open(cfg, svc, n, k + 1, s') && s'.now == s.now
  {
    var done := if s.worker.InStart? then StartDone(StartFailed("no health")) else StopDone(Stopped);
    Extend(cfg, s, done);
    s' := Next(cfg, s, done);
    OthersKept(cfg, svc, n, k, s, s');
  }

  /** The start of the owner ends well. */
  lemma GoActive(cfg: Config, svc: string, n: nat, k: nat, s: State) returns (s': State)
    requires cfg.Valid() && Reachable(cfg, s) && k <= n && Held(cfg, svc, n, k, s)
    requires s.worker.InStart? && s.worker.id == Name(k) && s.now <= s.worker.since + cfg.startup
    requires s.d.table[Name(k)] == Fresh0(cfg, svc).(state := Starting)
    ensures Reachable(cfg, s') && Held(cfg, svc, n, k, s') && s'.now == s.now && s'.worker == Wait(s.now)
    ensures s'.d.table[Name(k)].state == Active && s'.d.table[Name(k)].activeDeadline == Some(s.now + cfg.active)
  {
    hide Reachable, Turn, Submit, RequestStop, Names, Line;
    Extend(cfg, s, StartDone(Started));
    s' := Next(cfg, s, StartDone(Started));
    OthersKept(cfg, svc, n, k, s, s');
  }

  /** A release makes an active owner give up at once. */
  lemma Release(cfg: Config, svc: string, n: nat, k: nat, s: State) returns (s': State)
    requires cfg.Valid() && Reachable(cfg, s) && k <= n && Held(cfg, svc, n, k, s) && s.worker.Wait?
    requires s.d.table[Name(k)].state == Active && InTime(cfg, n, k, s.now)
    ensures Reachable(cfg, s') && Held(cfg, svc, n, k, s') && s'.now == s.now && s'.worker == InStop(Name(k), s.now)
  {
    var a := StopCall(svc, Name(k), cfg.epoch, Released);
    Extend(cfg, s, a);
    var s1 := Next(cfg, s, a);
    OthersKept(cfg, svc, n, k, s, s1);
    s' := StopTurn(cfg, svc, n, k, s1);
  }

  /** From the start of the tenure of owner `k` to the last wake-up before its deadline. */
  lemma UntilDue(cfg: Config, svc: string, n: nat, k: nat, s: State) returns (s': State)
    requires cfg.Valid() && Reachable(cfg, s) && k <= n && Held(cfg, svc, n, k, s)
      && s.worker == InStart(Name(k), s.now)
    requires s.d.table[Name(k)] == Fresh0(cfg, svc).(state := Starting)
    requires InTime(cfg, n, k, s.now + cfg.startup + cfg.active - 1)
    ensures var due := s.now + cfg.startup + cfg.active;
      && Reachable(cfg, s') && Held(cfg, svc, n, k, s') && s'.now == due - 1 && s'.worker == Wait(due - 1 + MILLI)
      && s'.d.table[Name(k)].state == Active && s'.d.table[Name(k)].activeDeadline == Some(due)
  {
    var due := s.now + cfg.startup + cfg.active;
    hide Reachable, Inv, Next, Name, Names, Line, Behind;
    var s1 := PassHeld(cfg, svc, n, k, s, s.now + cfg.startup);
    var s2 := GoActive(cfg, svc, n, k, s1);
    var s3 := Idle(cfg, svc, n, k, s2, due - 1);
    ReachableInv(cfg, s3);
    Extend(cfg, s3, WorkerTurn);
    SceneTurn(cfg, svc, n, k, s3);
    s' := Next(cfg, s3, WorkerTurn);
  }

  /** Owner `k` still has the GPU at time `t`, and an engine operation that ends its tenure is under way. */
  lemma Engaged(cfg: Config, svc: string, n: nat, k: nat, s: State, t: int) returns (s': State)
    requires cfg.Valid() && Reachable(cfg, s) && k <= n && Held(cfg, svc, n, k, s)
      && s.worker == InStart(Name(k), s.now)
    requires s.d.table[Name(k)] == Fresh0(cfg, svc).(state := Starting)
    requires s.now <= t <= s.now + cfg.MaxHold() && InTime(cfg, n, k, t)
    ensures Reachable(cfg, s') && Held(cfg, svc, n, k, s') && s'.now == t
    ensures (s'.worker.InStart? || s'.worker.InStop?) && s'.worker.id == Name(k)
  {
    hide Reachable, Inv, Next, Name, Names, Line, Behind;
    var due := s.now + cfg.startup + cfg.active;
    if t <= s.now + cfg.startup + cfg.engineCleanup {
      s' := PassHeld(cfg, svc, n, k, s, t);
    } else if t < due {
      var s1 := PassHeld(cfg, svc, n, k, s, s.now + cfg.startup);
      var s2 := GoActive(cfg, svc, n, k, s1);
      var s3 := Idle(cfg, svc, n, k, s2, t);
      s' := Release(cfg, svc, n, k, s3);
    } else {
      var s1 := UntilDue(cfg, svc, n, k, s);
      var s2 := PassHeld(cfg, svc, n, k, s1, Min(t, due - 1 + MILLI));
      if t < due - 1 + MILLI {
        s' := Release(cfg, svc, n, k, s2);
      } else {
        var s3 := StopTurn(cfg, svc, n, k, s2);
        s' := PassHeld(cfg, svc, n, k, s3, t);
      }
    }
  }

  /** As `Engaged`, after the last turn that could end the tenure; the operation may last for the rest of it. */
  lemma LateHold(cfg: Config, svc: string, n: nat, k: nat, s: State, t: int) returns (s': State)
    requires cfg.Valid() && Reachable(cfg, s) && k <= n && Held(cfg, svc, n, k, s)
      && s.worker == InStart(Name(k), s.now)
    requires s.d.table[Name(k)] == Fresh0(cfg, svc).(state := Starting)
    requires InTime(cfg, n, k, s.now + cfg.MaxHold()) && s.now + LastTurn(cfg) <= t <= s.now + cfg.MaxHold()
    ensures Reachable(cfg, s') && Held(cfg, svc, n, k, s') && s'.now == t
    ensures (s'.worker.InStart? || s'.worker.InStop?) && s'.worker.id == Name(k)
    ensures WithinLimit(cfg, s'.worker, s.now + cfg.MaxHold())
  {
    hide Reachable, Inv, Next, Name, Names, Line, Behind;
    if cfg.engineCleanup >= cfg.active + MILLI - 1 + cfg.cleanup {
      s' := PassHeld(cfg, svc, n, k, s, t);
    } else {
      var due := s.now + cfg.startup + cfg.active;
      var s1 := UntilDue(cfg, svc, n, k, s);
      var s2 := PassHeld(cfg, svc, n, k, s1, due - 1 + MILLI);
      var s3 := StopTurn(cfg, svc, n, k, s2);
      s' := PassHeld(cfg, svc, n, k, s3, t);
    }
  }

  // ---- The chain of owners ----

  /** When owner `k` is granted: each holds the GPU as long as it can, up to `last`. */
  function GrantTime(cfg: Config, k: nat, last: int): int {
    Min(k * cfg.MaxHold(), last)
  }

  lemma GrantTimes(cfg: Config, k: nat, last: int)
    requires cfg.Valid() && 0 <= last
    ensures 0 <= GrantTime(cfg, k, last) <= GrantTime(cfg, k + 1, last) <= GrantTime(cfg, k, last) + cfg.MaxHold()
  {
    OneLess(k + 1, cfg.MaxHold());
    NotNegative(k, cfg.MaxHold());
  }

  lemma {:induction false} HandedDown(cfg: Config, svc: string, n: nat, k: nat, last: int) returns (s: State)
    requires cfg.Valid() && svc in cfg.services && n + 2 <= cfg.maxRecords && k <= n
    requires 0 <= last < cfg.maxQueueWait
    ensures Reachable(cfg, s) && Open(cfg, svc, n, k, s) && s.now == GrantTime(cfg, k, last)
  {
    hide Reachable, Inv, Next, Name, Names, Line, Behind;
    if k == 0 {
      s := Opening(cfg, svc, n);
    } else {
      GrantTimes(cfg, k - 1, last);
      var s1 := HandedDown(cfg, svc, n, k - 1, last);
      var s2 := Grant(cfg, svc, n, k - 1, s1);
      var s3 := Engaged(cfg, svc, n, k - 1, s2, GrantTime(cfg, k, last));
      s := Finish(cfg, svc, n, k - 1, s3);
    }
  }

  /** The last owner holds the GPU late in its longest tenure; the entry of `e` is still there. */
  lemma EntryLingers(cfg: Config, svc: string, n: nat, last: int, t: int) returns (s: State)
    requires cfg.Valid() && svc in cfg.services && n + 2 <= cfg.maxRecords
    requires 0 <= last < cfg.maxQueueWait && last <= n * cfg.MaxHold()
    requires last + LastTurn(cfg) <= t <= last + cfg.MaxHold()
    ensures Reachable(cfg, s) && Held(cfg, svc, n, n, s) && s.now == t
    ensures (s.worker.InStart? || s.worker.InStop?) && s.worker.id == Name(n)
    ensures WithinLimit(cfg, s.worker, last + cfg.MaxHold())
  {
    hide Reachable, Inv, Next, Name, Names, Line, Behind;
    var s1 := HandedDown(cfg, svc, n, n, last);
    var s2 := Grant(cfg, svc, n, n, s1);
    s := LateHold(cfg, svc, n, n, s2, t);
  }

  lemma NamesAnd(n: nat, more: set<string>)
    ensures |Names(n + 1) + more| <= n + 1 + |more|
  {
    NamesSize(n + 1);
    assert Names(n + 1) + more == Names(n + 1) + (more - Names(n + 1));
    SubsetSize(more - Names(n + 1), more);
  }

  /** By the end of the longest tenure the tombstone of `e` can be pruned. */
  lemma ClearsE(cfg: Config, svc: string, n: nat, s: State)
    requires cfg.Valid() && cfg.retention <= s.now && s.d.current != Some("e")
    requires "e" in s.d.table ==> s.d.table["e"] == Dead(cfg, svc)
    ensures "e" !in Prune(cfg, s.d.table, s.d.current, s.now)
  {
  }

  /** An admission, in terms of the ids that may be in the table. */
  lemma AdmitTo(cfg: Config, svc: string, id: string, s: State, keys: set<string>) returns (s': State)
    requires cfg.Valid() && Reachable(cfg, s) && s.d.mode == Ready && svc in cfg.services && id !in s.d.table
    requires Prune(cfg, s.d.table, s.d.current, s.now).Keys <= keys && |keys| < cfg.maxRecords && !s.worker.Wait?
    requires s.d.current.Some? ==> s.d.current.value in s.d.table
    ensures Reachable(cfg, s') && s'.now == s.now && s'.worker == s.worker
    ensures s'.d.mode == Ready && s'.d.current == s.d.current && s'.d.queue == s.d.queue + [id]
    ensures s'.d.table.Keys <= keys + {id} && id in s'.d.table && s'.d.table.Keys <= s.d.table.Keys + {id}
    ensures s'.d.table[id] == NewLease(svc, cfg.maxQueueWait, s.now)
    ensures KeepsYoung(cfg, s, s')
  {
    SizeOf(Prune(cfg, s.d.table, s.d.current, s.now), keys);
    hide Reachable;
    s' := SubmitFresh(cfg, s, svc, id);
  }

  /** Only stale records have gone, and nothing else has changed but for new ids. */
  ghost predicate KeepsYoung(cfg: Config, s: State, s': State) {
    && (forall x | x in s'.d.table && x in s.d.table :: s'.d.table[x] == s.d.table[x])
    && (forall x | x in s.d.table && !Terminal(s.d.table[x].state) :: x in s'.d.table)
    && (s.d.current.Some? ==> s.d.current.value in s'.d.table)
  }

  lemma PruneKeys(cfg: Config, t: Table, current: Option<string>, now: int)
    ensures Prune(cfg, t, current, now).Keys <= t.Keys
  {
  }

  /** Behind the last owner only the entry of `e` is left. */
  lemma LastInLine(cfg: Config, svc: string, n: nat, s: State)
    requires Held(cfg, svc, n, n, s)
    ensures s.d.mode == Ready && s.d.queue == ["e"] && s.d.current == Some(Name(n)) && Name(n) in s.d.table
    ensures Name(n) != "e" && s.d.table.Keys <= Names(n + 1) + {"e"}
    ensures "e" in s.d.table ==> s.d.table["e"] == Dead(cfg, svc)
  {
    assert Name(n)[0] == 'o';
    hide Name;
  }

  /** The admission of `b` prunes the tombstone of `e`. */
  lemma ReplacesE(cfg: Config, svc: string, n: nat, s: State) returns (s': State)
    requires cfg.Valid() && Reachable(cfg, s) && svc in cfg.services && n + 2 <= cfg.maxRecords
    requires Held(cfg, svc, n, n, s) && !s.worker.Wait? && cfg.retention <= s.now
    ensures Reachable(cfg, s') && s'.now == s.now && s'.worker == s.worker && s'.d.mode == Ready
    ensures s'.d.queue == ["e", "b"] && s'.d.table.Keys <= Names(n + 1) + {"b"}
    ensures s'.d.current == Some(Name(n)) && Name(n) in s'.d.table
    ensures "b" in s'.d.table && s'.d.table["b"] == NewLease(svc, cfg.maxQueueWait, s.now)
  {
    LastInLine(cfg, svc, n, s);
    OtherIds(n);
    ClearsE(cfg, svc, n, s);
    NamesAnd(n, {});
    assert Names(n + 1) + {} == Names(n + 1);
    hide Reachable, Names, Name, Line, Held, Behind;
    PruneKeys(cfg, s.d.table, s.d.current, s.now);
    s' := AdmitTo(cfg, svc, "b", s, Names(n + 1));
  }

  /** The tombstone of `e` is pruned by another submission, and `e` is admitted again behind its own stale entry. */
  lemma TwiceInQueue(cfg: Config, svc: string, n: nat, last: int) returns (s: State)
    requires cfg.Valid() && svc in cfg.services && n + 3 <= cfg.maxRecords
    requires 0 <= last < cfg.maxQueueWait && last <= n * cfg.MaxHold()
    requires cfg.retention <= last + cfg.MaxHold()
    ensures Reachable(cfg, s) && !Distinct(s.d.queue)
  {
    HoldIsLonger(cfg);
    hide Reachable, Prune, Name, Names, Config.MaxHold, LastTurn, Held, KeepsYoung;
    var s1 := EntryLingers(cfg, svc, n, last, last + cfg.MaxHold());
    var s2 := ReplacesE(cfg, svc, n, s1);
    OtherIds(n);
    PruneKeys(cfg, s2.d.table, s2.d.current, s2.now);
    NamesAnd(n, {"b"});
    s := AdmitTo(cfg, svc, "e", s2, Names(n + 1) + {"b"});
    assert s.d.queue == ["e", "b", "e"];
    assert s.d.queue[0] == s.d.queue[2];
  }

  lemma HoldIsLonger(cfg: Config)
    requires cfg.Valid()
    ensures 0 < LastTurn(cfg) < cfg.MaxHold()
  {
  }

  /** A turn prunes what a call would, with all that is overdue in the queue. */
  lemma TurnClearsE(cfg: Config, svc: string, n: nat, s: State)
    requires cfg.Valid() && cfg.retention <= s.now && s.d.current != Some("e")
    requires "e" in s.d.table ==> s.d.table["e"] == Dead(cfg, svc)
    ensures "e" !in Settle(cfg, s) && Settle(cfg, s).Keys <= s.d.table.Keys
  {
  }

  /** The turn that meets the last owner's deadline prunes the tombstone of `e`, and takes no place in the table. */
  lemma PrunedByTurn(cfg: Config, svc: string, n: nat, last: int) returns (s: State)
    requires cfg.Valid() && svc in cfg.services && n + 2 <= cfg.maxRecords
    requires 0 <= last < cfg.maxQueueWait && last <= n * cfg.MaxHold()
    requires cfg.retention <= last + LastTurn(cfg)
    ensures Reachable(cfg, s) && !Distinct(s.d.queue)
  {
    var due := last + cfg.startup + cfg.active;
    hide Reachable, Inv, Next, Enabled, Prune, Name, Names, Line, Config.MaxHold, Settle;
    var s1 := HandedDown(cfg, svc, n, n, last);
    var s2 := Grant(cfg, svc, n, n, s1);
    var s3 := UntilDue(cfg, svc, n, n, s2);
    var s4 := PassHeld(cfg, svc, n, n, s3, due - 1 + MILLI);
    var s5 := StopTurn(cfg, svc, n, n, s4);
    OtherIds(n);
    TurnClearsE(cfg, svc, n, s4);
    PruneKeys(cfg, s5.d.table, s5.d.current, s5.now);
    NamesAnd(n, {});
    assert Names(n + 1) + {} == Names(n + 1);
    s := AdmitTo(cfg, svc, "e", s5, Names(n + 1));
    assert s5.d.queue == ["e"];
    assert s.d.queue == ["e", "e"];
    assert s.d.queue[0] == s.d.queue[1];
  }

  /** Where the table holds two records, `b` clears away the tombstone of `e`, and `e` in its turn that of `b`. */
  lemma PlaceTakenTwice(cfg: Config, svc: string) returns (s: State)
    requires cfg.Valid() && svc in cfg.services && cfg.maxRecords == 2
    requires LastTurn(cfg) <= cfg.retention && 2 * cfg.retention <= cfg.MaxHold()
    ensures Reachable(cfg, s) && !Distinct(s.d.queue)
  {
    hide Reachable, Prune, Name, Names, Config.MaxHold, LastTurn, Held, KeepsYoung;
    var s1 := EntryLingers(cfg, svc, 0, 0, cfg.retention);
    var s2 := ReplacesE(cfg, svc, 0, s1);
    var s3 := CancelQueued(cfg, s2, svc, "b");
    var s4 := PassTo(cfg, s3, 2 * cfg.retention);
    OtherIds(0);
    NamesAnd(0, {});
    assert Names(1) + {} == Names(1);
    PrunesEnded(cfg, s4, "b");
    s := AdmitTo(cfg, svc, "e", s4, Names(1));
    assert s.d.queue == ["e", "b", "e"];
    assert s.d.queue[0] == s.d.queue[2];
  }

  lemma PrunesEnded(cfg: Config, s: State, id: string)
    requires id in s.d.table && Stale(cfg, s.d.table[id], s.now) && s.d.current != Some(id)
    ensures Prune(cfg, s.d.table, s.d.current, s.now).Keys <= s.d.table.Keys - {id}
  {
  }

  lemma OtherIds(n: nat)
    ensures "e" !in Names(n + 1) && "b" !in Names(n + 1) && "c" !in Names(n + 1)
    ensures Name(n) in Names(n + 1) && Line(n + 1, n + 1) == []
  {
  }

  /** A cancel for an unknown id leaves a tombstone and prunes the table. */
  lemma CancelUnknown(cfg: Config, svc: string, id: string, s: State, keys: set<string>) returns (s': State)
    requires Reachable(cfg, s) && id !in s.d.table && svc in cfg.services && !s.worker.Wait?
    requires Prune(cfg, s.d.table, s.d.current, s.now).Keys <= keys && |keys| < cfg.maxRecords
    requires s.d.current.Some? ==> s.d.current.value in s.d.table
    ensures Reachable(cfg, s') && s'.now == s.now && s'.worker == s.worker
    ensures s'.d.mode == s.d.mode && s'.d.current == s.d.current && s'.d.queue == s.d.queue
    ensures s'.d.table.Keys <= keys + {id} && KeepsYoung(cfg, s, s')
  {
    SizeOf(Prune(cfg, s.d.table, s.d.current, s.now), keys);
    var a := StopCall(svc, id, cfg.epoch, Cancelled);
    Extend(cfg, s, a);
    s' := Next(cfg, s, a);
    hide Reachable;
  }

  /** `b` waits behind the stale entry of `e`; the owner's time is up. */
  ghost predicate Waning(cfg: Config, svc: string, n: nat, s: State) {
    && s.d.mode == Ready && s.d.current == Some(Name(n)) && Name(n) in s.d.table
    && (s.worker.InStart? || s.worker.InStop?) && s.worker.id == Name(n)
    && "b" in s.d.table && s.d.table["b"] == NewLease(svc, cfg.maxQueueWait, s.now - 1)
  }

  lemma AdmitsB(cfg: Config, svc: string, n: nat, last: int) returns (s: State)
    requires cfg.Valid() && svc in cfg.services && n + 4 <= cfg.maxRecords
    requires 0 <= last < cfg.maxQueueWait && last <= n * cfg.MaxHold()
    ensures Reachable(cfg, s) && Waning(cfg, svc, n, s) && s.d.queue == ["e", "b"] && s.now == last + cfg.MaxHold()
    ensures s.d.table.Keys <= Names(n + 1) + {"e"} + {"b"}
    ensures "e" in s.d.table ==> s.d.table["e"] == Dead(cfg, svc)
  {
    HoldIsLonger(cfg);
    hide Reachable, Inv, Next, Enabled, Prune, Name, Names, Line, Config.MaxHold;
    var s1 := EntryLingers(cfg, svc, n, last, last + cfg.MaxHold() - 1);
    OtherIds(n);
    NamesAnd(n, {"e"});
    PruneKeys(cfg, s1.d.table, s1.d.current, s1.now);
    var s2 := AdmitTo(cfg, svc, "b", s1, Names(n + 1) + {"e"});
    s := PassTo(cfg, s2, s2.now + 1);
  }

  lemma WaningKept(cfg: Config, svc: string, n: nat, s: State, s': State)
    requires Waning(cfg, svc, n, s) && KeepsYoung(cfg, s, s')
    requires s'.now == s.now && s'.worker == s.worker && s'.d.mode == Ready && s'.d.current == s.d.current
    ensures Waning(cfg, svc, n, s')
  {
    hide Name;
  }

  /** `b` is admitted; one tick later another call clears the tombstone of `e` away, and `e` is admitted again. */
  lemma Readmitted(cfg: Config, svc: string, n: nat, last: int) returns (s: State)
    requires cfg.Valid() && svc in cfg.services && n + 4 <= cfg.maxRecords
    requires 0 <= last < cfg.maxQueueWait && last <= n * cfg.MaxHold()
    requires cfg.retention <= last + cfg.MaxHold()
    ensures Reachable(cfg, s) && Waning(cfg, svc, n, s) && s.d.queue == ["e", "b", "e"]
    ensures "e" in s.d.table && s.d.table["e"] == NewLease(svc, cfg.maxQueueWait, s.now)
  {
    hide Reachable, Inv, Next, Enabled, Prune, Names, Line, Config.MaxHold;
    var s3 := AdmitsB(cfg, svc, n, last);
    var ids := Names(n + 1);
    OtherIds(n);
    assert Name(n)[0] == 'o';
    hide Name, KeepsYoung;
    ClearsE(cfg, svc, n, s3);
    PruneKeys(cfg, s3.d.table, s3.d.current, s3.now);
    NamesAnd(n, {"b"});
    var s4 := CancelUnknown(cfg, svc, "c", s3, ids + {"b"});
    WaningKept(cfg, svc, n, s3, s4);
    PruneKeys(cfg, s4.d.table, s4.d.current, s4.now);
    NamesAnd(n, {"b", "c"});
    assert ids + {"b"} + {"c"} == ids + {"b", "c"};
    s := AdmitTo(cfg, svc, "e", s4, ids + {"b", "c"});
    WaningKept(cfg, svc, n, s4, s);
  }

  /** The owner gives up, and the next turn grants `e`, admitted after `b`. */
  lemma Overtaken(cfg: Config, svc: string, n: nat, last: int) returns (s: State)
    requires cfg.Valid() && svc in cfg.services && n + 4 <= cfg.maxRecords && 1 < cfg.maxQueueWait
    requires 0 <= last < cfg.maxQueueWait && last <= n * cfg.MaxHold()
    requires cfg.retention <= last + cfg.MaxHold()
    ensures Reachable(cfg, s)
    ensures Enabled(cfg, s, WorkerTurn) && !GrantInOrder(s, Next(cfg, s, WorkerTurn), "e")
  {
    var s1 := Readmitted(cfg, svc, n, last);
    assert Name(n)[0] == 'o';
    assert s1.d.queue[0] == s1.d.queue[2] == "e";
    var done := if s1.worker.InStart? then StartDone(StartFailed("no health")) else StopDone(Stopped);
    Extend(cfg, s1, done);
    s := Next(cfg, s1, done);
    assert s.d.queue[0] == s.d.queue[2] == "e" && s.d.queue[1] == "b";
    assert s.d.table["e"] == s1.d.table["e"] && s.d.table["b"] == s1.d.table["b"];
    var k := TurnIdleIs(cfg, s);
    var t := Settle(cfg, s);
    assert "e" in s.d.queue && "b" in s.d.queue;
    assert t["e"] == s.d.table["e"] && t["b"] == s.d.table["b"];
    assert k == 0;
    var s' := Next(cfg, s, WorkerTurn);
    assert Grants(s, s', "e") && s'.d.table["b"].state == Queued;
    assert CreatedAt(s'.d.table, "b") < CreatedAt(s'.d.table, "e");
  }

  /** Every reachable queue is free of duplicates and every grant follows the order of admission. */
  ghost predicate FirstComeFirstServed(cfg: Config) {
    && (forall s | Reachable(cfg, s) :: Distinct(s.d.queue))
    && (forall s, a, id | Reachable(cfg, s) && Enabled(cfg, s, a) :: GrantInOrder(s, Next(cfg, s, a), id))
  }

  /** With too little retention a run breaks the order, whichever part of `Retains` fails. */
  lemma TooLittleRetention(cfg: Config, svc: string)
    requires cfg.Valid() && svc in cfg.services && !Retains(cfg)
    ensures !FirstComeFirstServed(cfg)
  {
    var hold, places := cfg.MaxHold(), cfg.maxRecords;
    HoldIsLonger(cfg);
    OneLess(places - 2, hold);
    NotNegative(Max(0, places - 3), hold);
    NotNegative(Max(0, places - 2), hold);
    NotPositive(Min(0, places - 2), hold);
    hide Enabled, Next, GrantInOrder, Reachable, Config.MaxHold, LastTurn;
    if cfg.retention <= TableTime(cfg) {
      var s := TwiceInQueue(cfg, svc, places - 3, Min(cfg.maxQueueWait - 1, (places - 3) * hold));
    } else if cfg.retention <= Min(cfg.maxQueueWait - 1, TableTime(cfg)) + LastTurn(cfg) {
      var s := PrunedByTurn(cfg, svc, places - 2, Min(cfg.maxQueueWait - 1, TableTime(cfg)));
    } else {
      var s := PlaceTakenTwice(cfg, svc);
    }
  }

  /**
   The bound is exact: a dispatcher serves in order of admission, over all runs,
   if and only if it has no service at all or its retention outlives the longest
   stay of a queue entry, be that bounded by the queue wait or by the table.
   */
  lemma RetentionIsExact(cfg: Config)
    requires cfg.Valid()
    ensures FirstComeFirstServed(cfg) <==> cfg.services == {} || Retains(cfg)
  {
    hide FirstComeFirstServed, Retains;
    if cfg.services == {} {
      NothingToServe(cfg);
    } else if Retains(cfg) {
      RetentionSuffices(cfg);
    } else {
      var svc :| svc in cfg.services;
      TooLittleRetention(cfg, svc);
    }
  }

  /** Without services nothing is ever admitted. */
  lemma NothingToServe(cfg: Config)
    requires cfg.Valid() && cfg.services == {}
    ensures FirstComeFirstServed(cfg)
  {
    forall s | Reachable(cfg, s) ensures s.d.queue == [] && s.d.table == map[] {
      hide Next, Enabled;
      var s0 :| Init(s0) && Reaches(cfg, s0, s);
      var states, acts :| IsRun(cfg, states, acts) && states[0] == s0 && states[|acts|] == s;
      StaysEmpty(cfg, states, acts, |acts|);
    }
    forall s, a, id | Reachable(cfg, s) && Enabled(cfg, s, a) ensures GrantInOrder(s, Next(cfg, s, a), id) {
      ReachableInv(cfg, s);
      if Grants(s, Next(cfg, s, a), id) {
        GrantIs(cfg, s, a, id);
      }
    }
  }

  lemma {:induction false} StaysEmpty(cfg: Config, states: seq<State>, acts: seq<Action>, i: nat)
    requires cfg.Valid() && cfg.services == {} && IsRun(cfg, states, acts) && Init(states[0]) && i < |states|
    ensures Inv(cfg, states[i]) && states[i].d.queue == [] && states[i].d.table == map[]
  {
    InitInv(cfg, states[0]);
    if i > 0 {
      StaysEmpty(cfg, states, acts, i - 1);
      StepInv(cfg, states[i - 1], acts[i - 1]);
      EmptyStep(cfg, states[i - 1], acts[i - 1]);
    }
  }

  lemma EmptyStep(cfg: Config, s: State, a: Action)
    requires cfg.Valid() && cfg.services == {} && Inv(cfg, s) && Enabled(cfg, s, a)
    requires s.d.queue == [] && s.d.table == map[]
    ensures Next(cfg, s, a).d.queue == [] && Next(cfg, s, a).d.table == map[]
  {
    match a
    case WorkerTurn => assert Settle(cfg, s) == map[];
    case _ =>
  }

  /** Enough retention suffices for every configuration. */
  lemma RetentionSuffices(cfg: Config)
    requires cfg.Valid() && Retains(cfg)
    ensures FirstComeFirstServed(cfg)
  {
    hide Enabled, Next, GrantInOrder;
    forall s | Reachable(cfg, s) ensures Distinct(s.d.queue) {
      ReachableInv(cfg, s);
    }
    forall s, a, id | Reachable(cfg, s) && Enabled(cfg, s, a) ensures GrantInOrder(s, Next(cfg, s, a), id) {
      ReachableInv(cfg, s);
      GrantsAreInOrder(cfg, s, a, id);
    }
  }

  /** The budgets of the deployed dispatcher. */
  function Production(services: set<string>, epoch: string): Config {
    Config(30 * SECOND, 120 * SECOND, 330 * SECOND, 60 * SECOND, 600 * SECOND, 4096, 60 * SECOND, services, epoch)
  }

  lemma ProductionServesInOrder(services: set<string>, epoch: string)
    ensures Production(services, epoch).Valid() && FirstComeFirstServed(Production(services, epoch))
  {
    RetentionSuffices(Production(services, epoch));
  }
}
