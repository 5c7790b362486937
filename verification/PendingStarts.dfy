/**
 The assumption of GPU exclusion, made exact. A dispatcher that boots while a
 `docker start` of an earlier process is still pending can start a second
 service beside the late one, as soon as there is a second service that can be
 started; otherwise it never does.
 */
module PendingStarts {
  import opened Prelude
  import opened Docker
  import opened Engines
  import opened EngineProofs
  import opened Leases
  import opened Protocol
  import opened Invariant
  import opened GpuExclusion
  import opened LoneService

  /** Every command works at once, and nothing happens by itself. */
  function Calm(): Oracle {
    (k: nat, cmd: Command) => Choice(0, Drift({}, {}), Works, true, Drift({}, {}))
  }

  lemma CalmStopOne(w: World, deadline: int, container: string)
    requires w.now < deadline && w.running <= w.installed
    ensures var r := StopOne(Calm(), w, deadline, container);
      && r.1 && r.0.now == w.now && r.0.installed == w.installed && r.0.pending == w.pending
      && r.0.starts == w.starts && r.0.running == w.running - {container}
  {
  }

  lemma {:induction false} CalmStopAll(w: World, deadline: int, containers: seq<string>)
    requires w.now < deadline && w.running <= w.installed
    ensures var r := StopAll(Calm(), w, deadline, containers);
      && r.1 == [] && r.0.now == w.now && r.0.installed == w.installed && r.0.pending == w.pending
      && r.0.starts == w.starts && r.0.running == w.running - (set c | c in containers)
    decreases |containers|
  {
    hide StopOne;
    if containers != [] {
      CalmStopOne(w, deadline, containers[0]);
      CalmStopAll(StopOne(Calm(), w, deadline, containers[0]).0, deadline, containers[1..]);
    }
  }

  lemma CalmReconcile(w: World, timeout: int)
    requires 0 < timeout && w.running <= w.installed && w.running <= ManagedScope()
    ensures var r := ReconcileAll(Calm(), w, timeout);
      && r.1 == Stopped && r.0.now == w.now && r.0.installed == w.installed && r.0.pending == w.pending
      && r.0.starts == w.starts && r.0.running == {}
  {
    hide StopAll, Reverse, Managed;
    ReverseMembers(Managed());
    CalmStopAll(w, w.now + timeout, Reverse(Managed()));
  }

  /** No time passes, and the record of starts only grows. */
  predicate Steady(w: World, w': World) {
    w'.now == w.now && w.starts <= w'.starts
  }

  lemma CalmBringUp(w: World, deadline: int, container: string)
    requires w.now < deadline
    ensures var r := BringUp(Calm(), w, deadline, container);
      && Steady(w, r.0) && r.0.installed == w.installed && r.0.pending == w.pending
      && (container in w.installed ==> r.1 == Ok(()) && r.0.running == w.running + {container})
      && (container in w.installed && container !in w.running ==>
            r.0.starts == w.starts + [StartEvent(container, w.running)])
  {
    var s := InspectState(Calm(), w, deadline, container);
    assert s.0.running == w.running && s.0.starts == w.starts && s.0.now == w.now;
    assert s.0.running + s.0.pending * {} == w.running;
  }

  lemma CalmWait(cfg: EngineConfig, w: World, deadline: int, c: Component)
    requires w.now < deadline
    ensures var r := WaitHealthy(Calm(), cfg, w, deadline, c, cfg.healthAttempts);
      && r.0.now == w.now && r.0.starts == w.starts && r.0.installed == w.installed
      && r.0.running == w.running && r.0.pending == w.pending
      && (0 < cfg.healthAttempts ==> r.1 == Ok(()))
  {
  }

  /** With every container in place and time to check, all of them come up. */
  lemma {:induction false} CalmStartComponents(cfg: EngineConfig, w: World, deadline: int, cs: seq<Component>)
    requires w.now < deadline
    ensures var r := StartComponents(Calm(), cfg, w, deadline, cs);
      && Steady(w, r.0)
      && (0 < cfg.healthAttempts && (forall c | c in cs :: c.container in w.installed) ==>
            r.1 == Ok(()) && r.0.running >= w.running && forall c | c in cs :: c.container in r.0.running)
    decreases |cs|
  {
    hide BringUp, WaitHealthy;
    if cs != [] {
      var up := BringUp(Calm(), w, deadline, cs[0].container);
      CalmBringUp(w, deadline, cs[0].container);
      if up.1.Ok? {
        CalmWait(cfg, up.0, deadline, cs[0]);
        var healthy := WaitHealthy(Calm(), cfg, up.0, deadline, cs[0], cfg.healthAttempts);
        if healthy.1.Ok? {
          CalmStartComponents(cfg, healthy.0, deadline, cs[1..]);
        }
      }
    }
  }

  /** Starting a service begins with a `docker start` of its first container beside whatever runs. */
  lemma CalmFirstStart(cfg: EngineConfig, w: World, deadline: int, cs: seq<Component>)
    requires w.now < deadline && cs != [] && cs[0].container in w.installed && cs[0].container !in w.running
    ensures w.starts + [StartEvent(cs[0].container, w.running)]
            <= StartComponents(Calm(), cfg, w, deadline, cs).0.starts
  {
    hide BringUp, WaitHealthy;
    var up := BringUp(Calm(), w, deadline, cs[0].container);
    CalmBringUp(w, deadline, cs[0].container);
    CalmWait(cfg, up.0, deadline, cs[0]);
    var healthy := WaitHealthy(Calm(), cfg, up.0, deadline, cs[0], cfg.healthAttempts);
    CalmStartComponents(cfg, healthy.0, deadline, cs[1..]);
  }

  lemma {:induction false} CalmStopSteady(w: World, deadline: int, containers: seq<string>)
    requires w.now < deadline
    ensures var r := StopAll(Calm(), w, deadline, containers);
      r.0.now == w.now && r.0.starts == w.starts
    decreases |containers|
  {
    hide StopOne;
    if containers != [] {
      CalmStopOneSteady(w, deadline, containers[0]);
      CalmStopSteady(StopOne(Calm(), w, deadline, containers[0]).0, deadline, containers[1..]);
    }
  }

  lemma CalmStopOneSteady(w: World, deadline: int, container: string)
    requires w.now < deadline
    ensures var r := StopOne(Calm(), w, deadline, container);
      r.0.now == w.now && r.0.starts == w.starts
  {
  }

  lemma CalmStart(cfg: EngineConfig, w: World, service: string, timeout: int)
    requires Startable(w, service) && 0 < timeout && 0 < cfg.cleanup
    ensures var r := StartService(Calm(), cfg, w, service, timeout);
      && r.0.now == w.now
      && (Components(service)[0].container !in w.running ==>
            w.starts + [StartEvent(Components(service)[0].container, w.running)] <= r.0.starts)
  {
    var cs := Components(service);
    hide HasService, Components, StartComponents, StopAll;
    CalmStartComponents(cfg, w, w.now + timeout, cs);
    if cs[0].container !in w.running {
      CalmFirstStart(cfg, w, w.now + timeout, cs);
    }
    var up := StartComponents(Calm(), cfg, w, w.now + timeout, cs);
    CalmStopSteady(up.0, up.0.now + cfg.cleanup, Reverse(Names(cs)));
  }

  /** Every request that is submitted carries one of these ids. */
  ghost predicate Submits(ms: seq<Move>, ids: iset<string>) {
    forall m | m in ms && m.Protocol? && m.a.SubmitCall? :: m.a.id in ids
  }

  /** Some history from `z0`, with requests of these ids only, leads to `z`. */
  ghost predicate Extends(cfg: Setup, ids: iset<string>, z0: System, z: System) {
    exists zs, ms :: IsHistory(cfg, zs, ms) && Submits(ms, ids) && zs[0] == z0 && zs[|ms|] == z
  }

  lemma ExtendHistory(cfg: Setup, ids: iset<string>, z0: System, z: System, m: Move)
    requires Extends(cfg, ids, z0, z) && CanMove(cfg, z, m)
    requires m.Protocol? && m.a.SubmitCall? ==> m.a.id in ids
    ensures Extends(cfg, ids, z0, After(cfg, z, m))
  {
    hide CanMove, After;
    var zs, ms :| IsHistory(cfg, zs, ms) && Submits(ms, ids) && zs[0] == z0 && zs[|ms|] == z;
    var zs', ms' := zs + [After(cfg, z, m)], ms + [m];
    forall i | 0 <= i < |ms'|
      ensures CanMove(cfg, zs'[i], ms'[i]) && zs'[i + 1] == After(cfg, zs'[i], ms'[i])
    {
      if i < |ms| {
        MoveAt(cfg, zs, ms, i);
      }
    }
    assert IsHistory(cfg, zs', ms') && Submits(ms', ids);
  }

  lemma NoMoves(cfg: Setup, ids: iset<string>, z: System)
    ensures Extends(cfg, ids, z, z)
  {
    var none: seq<Move> := [];
    assert IsHistory(cfg, [z], none) && Submits(none, ids) && [z][|none|] == z;
  }

  /** Reconciliation succeeds at once; what was pending still is. */
  lemma Reconciled(cfg: Setup, ids: iset<string>, z0: System) returns (z: System)
    requires cfg.Valid() && Boots(z0)
    ensures Extends(cfg, ids, z0, z)
    ensures z.s == State(z0.s.now, Ledger(map[], [], None, Ready, None), Wait(z0.s.now))
    ensures z.w.running == {} && z.w.pending == z0.w.pending && z.w.installed == z0.w.installed
    ensures z.w.starts == [] && z.w.now == z0.s.now
  {
    hide ReconcileAll, ManagedScope;
    NoMoves(cfg, ids, z0);
    CalmReconcile(z0.w, cfg.lease.cleanup);
    ExtendHistory(cfg, ids, z0, z0, EngineEnds(Calm()));
    z := After(cfg, z0, EngineEnds(Calm()));
  }

  /** Reconciliation succeeds, and then the late start of `c` lands. */
  lemma LateStartLands(cfg: Setup, ids: iset<string>, z0: System, c: string) returns (z: System)
    requires cfg.Valid() && Boots(z0) && c in z0.w.pending
    ensures Extends(cfg, ids, z0, z)
    ensures z.s == State(z0.s.now, Ledger(map[], [], None, Ready, None), Wait(z0.s.now))
    ensures z.w.running == {c} && z.w.installed == z0.w.installed && z.w.starts == [] && z.w.now == z0.s.now
  {
    var z1 := Reconciled(cfg, ids, z0);
    var land := Drifts(Drift({}, {c}));
    hide Boots, Extends;
    ExtendHistory(cfg, ids, z0, z1, land);
    z := After(cfg, z1, land);
    assert z1.w.pending * {c} == {c};
  }

  /** A request `id` for `service` is granted the GPU. */
  lemma GrantFirst(cfg: Setup, ids: iset<string>, z0: System, z: System, service: string, id: string)
    returns (z': System)
    requires cfg.Valid() && Extends(cfg, ids, z0, z) && HasService(service) && id in ids
    requires z.s == State(z.s.now, Ledger(map[], [], None, Ready, None), Wait(z.s.now)) && z.w.now == z.s.now
    ensures Extends(cfg, ids, z0, z') && z'.w == z.w && z'.s.now == z.s.now
    ensures z'.s.worker == InStart(id, z.s.now) && z'.s.d.mode == Ready && z'.s.d.current == Some(id)
    ensures id in z'.s.d.table && z'.s.d.table[id].service == service
  {
    hide HasService, Extends;
    var wait := cfg.lease.maxQueueWait;
    var l := NewLease(service, wait, z.s.now);
    var submit := SubmitCall(service, id, cfg.lease.epoch, wait);
    assert service in cfg.lease.services;
    assert Prune(cfg.lease, map[], None, z.s.now) == map[];
    ExtendHistory(cfg, ids, z0, z, Protocol(submit));
    var z1 := After(cfg, z, Protocol(submit));
    assert z1.s == State(z.s.now, Ledger(map[id := l], [id], None, Ready, None), Wait(z.s.now));
    ExtendHistory(cfg, ids, z0, z1, Protocol(WorkerTurn));
    assert Settle(cfg.lease, z1.s) == map[id := l];
    z' := After(cfg, z1, Protocol(WorkerTurn));
  }

  /** `service` starts although the late container `c` of another service runs. */
  lemma SharedGpu(cfg: Setup, ids: iset<string>, z0: System, c: string, service: string, id: string) returns (z: System)
    requires cfg.Valid() && Boots(z0) && c in z0.w.pending && id in ids
    requires Startable(z0.w, service) && service != ServiceOf(c)
    ensures Extends(cfg, ids, z0, z) && !NoOtherServiceSeen(z.w.starts)
  {
    var z1 := LateStartLands(cfg, ids, z0, c);
    FirstBelongs(service);
    hide Components, HasService, ServiceOf, Extends, Boots, NoOtherServiceSeen;
    var z2 := GrantFirst(cfg, ids, z0, z1, service, id);
    z := StartBeside(cfg, ids, z0, z2, c, service, id);
  }

  lemma StartBeside(cfg: Setup, ids: iset<string>, z0: System, z: System, c: string, service: string, id: string)
    returns (z': System)
    requires cfg.Valid() && Extends(cfg, ids, z0, z)
    requires z.s.worker == InStart(id, z.s.now) && z.w.now == z.s.now
    requires id in z.s.d.table && z.s.d.table[id].service == service && Startable(z.w, service)
    requires z.w.running == {c} && z.w.starts == []
    requires ServiceOf(c) != ServiceOf(Components(service)[0].container)
    ensures Extends(cfg, ids, z0, z') && !NoOtherServiceSeen(z'.w.starts)
  {
    hide Components, HasService, ServiceOf, StartService, Extends;
    var first := Components(service)[0].container;
    CalmStart(cfg.engine, z.w, service, cfg.lease.startup);
    assert CanMove(cfg, z, EngineEnds(Calm()));
    ExtendHistory(cfg, ids, z0, z, EngineEnds(Calm()));
    z' := After(cfg, z, EngineEnds(Calm()));
    assert [StartEvent(first, {c})] <= z'.w.starts;
    assert z'.w.starts[0] == StartEvent(first, {c});
    assert c in z'.w.starts[0].seen;
  }

  lemma FirstBelongs(service: string)
    requires HasService(service) && |Components(service)| > 0
    ensures ServiceOf(Components(service)[0].container) == service
  {
    assert Components(service)[0].container in Scope(service);
    ScopeDecidesService(service, Components(service)[0].container);
  }

  // ---- A dispatcher that nobody asks for anything ----

  /** Nobody waits, nobody owns, and nothing was ever started. */
  ghost predicate Untouched(cfg: Setup, z: System) {
    Inv(cfg.lease, z.s) && z.s.d.queue == [] && z.s.d.current == None && z.w.starts == []
  }

  lemma StepUntouched(cfg: Config, s: State, a: Action)
    requires cfg.Valid() && Inv(cfg, s) && Enabled(cfg, s, a) && !a.SubmitCall?
    requires s.d.queue == [] && s.d.current == None
    ensures Next(cfg, s, a).d.queue == [] && Next(cfg, s, a).d.current == None
  {
    match a
    case WorkerTurn =>
      if s.d.mode == Ready {
        var k := TurnIdleIs(cfg, s);
        hide Next, Settle, Inv;
      }
    case _ => hide Turn, Submit, Prune;
  }

  /** Without an owner the only engine operation is the reconciliation, which starts nothing. */
  lemma ReconcilesOnly(cfg: Setup, z: System, oracle: Oracle)
    requires Inv(cfg.lease, z.s) && z.s.d.current == None && InEngine(z.s.worker)
    requires z.s.worker.Reconcile? || z.s.worker.id in z.s.d.table
    ensures var r := EngineResult(cfg, z, oracle); r.0.starts == z.w.starts && !r.1.SubmitCall?
  {
    hide ReconcileAll, StartService, StopService, TableOk, TimesOk;
    assert z.s.worker.Reconcile?;
    ReconcileStartsNothing(oracle, z.w, cfg.lease.cleanup);
  }

  lemma ReconcileStartsNothing(oracle: Oracle, w: World, timeout: int)
    ensures ReconcileAll(oracle, w, timeout).0.starts == w.starts
  {
    hide StopAll, Managed, Reverse;
    StopAllStartsNothing(oracle, w, w.now + timeout, Reverse(Managed()));
  }

  lemma MoveUntouched(cfg: Setup, z: System, m: Move)
    requires cfg.Valid() && Untouched(cfg, z) && CanMove(cfg, z, m) && !(m.Protocol? && m.a.SubmitCall?)
    ensures Untouched(cfg, After(cfg, z, m))
  {
    hide Next, Enabled, Inv, EngineResult;
    MovesRefineProtocol(cfg, z, m);
    if m.EngineEnds? {
      ReconcilesOnly(cfg, z, m.oracle);
    }
    if StepOf(cfg, z, m).Some? {
      StepInv(cfg.lease, z.s, StepOf(cfg, z, m).value);
      StepUntouched(cfg.lease, z.s, StepOf(cfg, z, m).value);
    }
  }

  lemma {:induction false} HistoryUntouched(cfg: Setup, zs: seq<System>, ms: seq<Move>, i: nat)
    requires cfg.Valid() && IsHistory(cfg, zs, ms) && Submits(ms, iset{}) && Boots(zs[0]) && i < |zs|
    ensures Untouched(cfg, zs[i])
  {
    if i == 0 {
      InitInv(cfg.lease, zs[0].s);
      hide Inv;
    } else {
      hide CanMove, After, Untouched, Boots;
      HistoryUntouched(cfg, zs, ms, i - 1);
      MoveAt(cfg, zs, ms, i - 1);
      MoveUntouched(cfg, zs[i - 1], ms[i - 1]);
    }
  }

  /**
   No `docker start` of any history of a booting dispatcher finds a container of
   another service running, if and only if nobody ever submits a request or
   nothing is at risk at boot: no start of an earlier process is pending beside
   another service that could be started.
   */
  lemma ExclusionIsExact(cfg: Setup, ids: iset<string>, z0: System)
    requires cfg.Valid() && Boots(z0)
    ensures ids == iset{} || !AtRisk(z0.w)
      <==> forall z | Extends(cfg, ids, z0, z) :: NoOtherServiceSeen(z.w.starts)
  {
    hide Boots, NoOtherServiceSeen, Startable;
    if ids == iset{} {
      forall z | Extends(cfg, ids, z0, z) ensures NoOtherServiceSeen(z.w.starts) {
        NothingStarted(cfg, ids, z0, z);
      }
    } else if !AtRisk(z0.w) {
      forall z | Extends(cfg, ids, z0, z) ensures NoOtherServiceSeen(z.w.starts) {
        hide IsHistory;
        var zs, ms :| IsHistory(cfg, zs, ms) && Submits(ms, ids) && zs[0] == z0 && zs[|ms|] == z;
        LastIndex(cfg, zs, ms);
        LateStartsStayAlone(cfg, zs, ms, |ms|);
      }
    } else {
      var c, service :| c in z0.w.pending && Startable(z0.w, service) && service != ServiceOf(c);
      var id :| id in ids;
      var z := SharedGpu(cfg, ids, z0, c, service, id);
    }
  }

  lemma NothingStarted(cfg: Setup, ids: iset<string>, z0: System, z: System)
    requires cfg.Valid() && Boots(z0) && ids == iset{} && Extends(cfg, ids, z0, z)
    ensures NoOtherServiceSeen(z.w.starts)
  {
    hide Boots, CanMove, After, Inv;
    var zs, ms :| IsHistory(cfg, zs, ms) && Submits(ms, ids) && zs[0] == z0 && zs[|ms|] == z;
    HistoryUntouched(cfg, zs, ms, |ms|);
  }

  /**
   The other half of exclusion. In every history nothing runs without an owner
   while the dispatcher is ready, if and only if no start is pending at boot,
   whichever service it is for.
   */
  lemma NothingUnownedIsExact(cfg: Setup, ids: iset<string>, z0: System)
    requires cfg.Valid() && Boots(z0)
    ensures z0.w.pending == {}
      <==> forall z | Extends(cfg, ids, z0, z) && z.s.d.mode == Ready && z.s.d.current == None :: z.w.running == {}
  {
    hide Boots;
    if z0.w.pending == {} {
      forall z | Extends(cfg, ids, z0, z) && z.s.d.mode == Ready && z.s.d.current == None ensures z.w.running == {} {
        hide IsHistory;
        var zs, ms :| IsHistory(cfg, zs, ms) && Submits(ms, ids) && zs[0] == z0 && zs[|ms|] == z;
        LastIndex(cfg, zs, ms);
        GpuIsExclusive(cfg, zs, ms, |ms|);
      }
    } else {
      var c :| c in z0.w.pending;
      var z := LateStartLands(cfg, ids, z0, c);
      assert c in z.w.running;
    }
  }

  lemma LastIndex(cfg: Setup, zs: seq<System>, ms: seq<Move>)
    requires IsHistory(cfg, zs, ms)
    ensures |zs| == |ms| + 1
  {
  }
}
