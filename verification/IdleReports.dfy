/**
 What a report of ready and idle is worth. It is false in two ways: a start left
 over from an earlier process can land under it; and the dispatcher takes an owner
 with an empty id for no owner, while nothing refuses an empty id. Otherwise an
 idle report means that nothing runs.
 */
module IdleReports {
  import opened Prelude
  import opened Docker
  import opened Engines
  import opened EngineProofs
  import opened Leases
  import opened Protocol
  import opened Invariant
  import opened GpuExclusion
  import opened LoneService
  import opened PendingStarts

  const IDLE := Report(true, "idle", None)

  /** Whoever waits or owns was submitted. */
  ghost predicate Known(s: State, ids: iset<string>) {
    && (forall id | id in s.d.queue :: id in ids)
    && (s.d.current.Some? ==> s.d.current.value in ids)
  }

  lemma StepKnows(cfg: Config, s: State, a: Action, ids: iset<string>)
    requires cfg.Valid() && Inv(cfg, s) && Enabled(cfg, s, a) && Known(s, ids)
    requires a.SubmitCall? ==> a.id in ids
    ensures Known(Next(cfg, s, a), ids)
  {
    match a
    case WorkerTurn =>
      if s.d.mode == Ready {
        if s.d.current.Some? {
          TurnOwnedIs(cfg, s, s.d.current.value);
        } else {
          var k := TurnIdleIs(cfg, s);
        }
      }
      hide Next, Settle;
    case _ => hide Turn, Prune;
  }

  lemma {:induction false} HistoryKnows(cfg: Setup, zs: seq<System>, ms: seq<Move>, ids: iset<string>, i: nat)
    requires cfg.Valid() && IsHistory(cfg, zs, ms) && Submits(ms, ids) && i < |zs|
    requires Inv(cfg.lease, zs[0].s) && Known(zs[0].s, ids)
    ensures Inv(cfg.lease, zs[i].s) && Known(zs[i].s, ids)
  {
    hide CanMove, After, Inv, Known, Next, Enabled;
    if i > 0 {
      HistoryKnows(cfg, zs, ms, ids, i - 1);
      MoveAt(cfg, zs, ms, i - 1);
      MoveKnows(cfg, zs[i - 1], ms[i - 1], ids);
    }
  }

  lemma MoveKnows(cfg: Setup, z: System, m: Move, ids: iset<string>)
    requires cfg.Valid() && CanMove(cfg, z, m) && Inv(cfg.lease, z.s) && Known(z.s, ids)
    requires m.Protocol? && m.a.SubmitCall? ==> m.a.id in ids
    ensures Inv(cfg.lease, After(cfg, z, m).s) && Known(After(cfg, z, m).s, ids)
  {
    hide Inv, Known, Next, Enabled, StartService, StopService, ReconcileAll;
    match m
    case Protocol(a) =>
      StepInv(cfg.lease, z.s, a);
      StepKnows(cfg.lease, z.s, a, ids);
    case Drifts(_) =>
    case EngineEnds(oracle) =>
      var a := EngineResult(cfg, z, oracle).1;
      StepInv(cfg.lease, z.s, a);
      StepKnows(cfg.lease, z.s, a, ids);
  }

  /** With nothing pending at boot and no empty ids an idle report is true: nothing runs. */
  lemma IdleIsTrue(cfg: Setup, zs: seq<System>, ms: seq<Move>, ids: iset<string>, i: nat)
    requires cfg.Valid() && IsHistory(cfg, zs, ms) && Submits(ms, ids) && "" !in ids
    requires Boots(zs[0]) && zs[0].w.pending == {} && i < |zs|
    requires ReadyReport(zs[i].s.d) == IDLE
    ensures zs[i].w.running == {}
  {
    hide IsHistory, Submits, Inv;
    GpuIsExclusive(cfg, zs, ms, i);
    InitInv(cfg.lease, zs[0].s);
    HistoryKnows(cfg, zs, ms, ids, i);
  }

  /** All containers of the service exist. */
  predicate Complete(w: World, service: string) {
    HasService(service) && forall c | c in Components(service) :: c.container in w.installed
  }

  /** The owner with the empty id: its engine runs, and the report says idle. */
  lemma IdleWhileRunning(cfg: Setup, ids: iset<string>, z0: System, service: string) returns (z: System)
    requires cfg.Valid() && Boots(z0) && "" in ids && Complete(z0.w, service) && 0 < cfg.engine.healthAttempts
    ensures Extends(cfg, ids, z0, z) && ReadyReport(z.s.d) == IDLE && z.w.running != {}
  {
    hide Components, HasService, Extends, Boots, ReadyReport;
    var z1 := Reconciled(cfg, ids, z0);
    var z2 := GrantFirst(cfg, ids, z0, z1, service, "");
    z := ComesUp(cfg, ids, z0, z2, service);
  }

  lemma CalmComesUp(cfg: EngineConfig, w: World, service: string, timeout: int)
    requires Complete(w, service) && 0 < timeout && 0 < cfg.healthAttempts
    ensures var r := StartService(Calm(), cfg, w, service, timeout);
      r.1 == Started && r.0.now == w.now && r.0.running != {}
  {
    hide Components, HasService, StartComponents, StopService, Calm;
    ServicesHaveComponents(service);
    var cs := Components(service);
    CalmStartComponents(cfg, w, w.now + timeout, cs);
    assert cs[0] in cs;
    assert cs[0].container in StartComponents(Calm(), cfg, w, w.now + timeout, cs).0.running;
  }

  /** The start of the owner with the empty id ends well. */
  lemma ComesUp(cfg: Setup, ids: iset<string>, z0: System, z: System, service: string) returns (z': System)
    requires cfg.Valid() && Extends(cfg, ids, z0, z) && Complete(z.w, service) && 0 < cfg.engine.healthAttempts
    requires z.s.worker == InStart("", z.s.now) && z.w.now == z.s.now
    requires z.s.d.mode == Ready && z.s.d.current == Some("")
    requires "" in z.s.d.table && z.s.d.table[""].service == service
    ensures Extends(cfg, ids, z0, z') && ReadyReport(z'.s.d) == IDLE && z'.w.running != {}
  {
    CalmComesUp(cfg.engine, z.w, service, cfg.lease.startup);
    hide Complete, StartService, Extends;
    StartReportFits(cfg, z, Calm());
    ExtendHistory(cfg, ids, z0, z, EngineEnds(Calm()));
    z' := After(cfg, z, EngineEnds(Calm()));
    hide Next;
    StartedKeepsOwner(cfg.lease, z.s);
  }

  lemma StartReportFits(cfg: Setup, z: System, oracle: Oracle)
    requires z.s.worker.InStart? && z.s.worker.id in z.s.d.table && z.s.worker.since == z.s.now
    requires cfg.Valid() && EngineResult(cfg, z, oracle).0.now == z.s.now && EngineResult(cfg, z, oracle).1.StartDone?
    ensures CanMove(cfg, z, EngineEnds(oracle))
  {
    hide EngineResult;
  }

  lemma StartedKeepsOwner(cfg: Config, s: State)
    requires Enabled(cfg, s, StartDone(Started)) && s.d.mode == Ready
    ensures var s' := Next(cfg, s, StartDone(Started)); s'.d.mode == Ready && s'.d.current == s.d.current
  {
  }

  // ---- Where no start can succeed ----

  /** Some service can be brought up: all its containers exist, and health is checked at least once. */
  ghost predicate CanComeUp(cfg: EngineConfig, w: World) {
    0 < cfg.healthAttempts && exists service :: Complete(w, service)
  }

  lemma {:induction false} StartedIsComplete(oracle: Oracle, cfg: EngineConfig, w: World, deadline: int,
                                             cs: seq<Component>)
    requires Installed(w) && StartComponents(oracle, cfg, w, deadline, cs).1.Ok?
    ensures cs != [] ==> 0 < cfg.healthAttempts
    ensures forall c | c in cs :: c.container in w.installed
    decreases |cs|
  {
    hide BringUp, WaitHealthy, Installed;
    if cs != [] {
      var up := BringUp(oracle, w, deadline, cs[0].container);
      if cs[0].container !in w.installed {
        MissingFails(oracle, w, deadline, cs[0].container);
      }
      BringUpInstalled(oracle, w, deadline, cs[0].container);
      var healthy := WaitHealthy(oracle, cfg, up.0, deadline, cs[0], cfg.healthAttempts);
      WaitInstalled(oracle, cfg, up.0, deadline, cs[0], cfg.healthAttempts);
      NoAttempts(oracle, cfg, up.0, deadline, cs[0]);
      StartedIsComplete(oracle, cfg, healthy.0, deadline, cs[1..]);
    }
  }

  lemma NoAttempts(oracle: Oracle, cfg: EngineConfig, w: World, deadline: int, c: Component)
    ensures WaitHealthy(oracle, cfg, w, deadline, c, cfg.healthAttempts).1.Ok? ==> 0 < cfg.healthAttempts
  {
    hide Probe;
  }

  /** Only a service that can be brought up is ever reported started. */
  lemma StartedCanComeUp(oracle: Oracle, cfg: EngineConfig, w: World, service: string, timeout: int)
    requires Installed(w) && StartService(oracle, cfg, w, service, timeout).1 == Started
    ensures CanComeUp(cfg, w)
  {
    hide Components, HasService, StartComponents, StopService, Installed;
    ServicesHaveComponents(service);
    StartedIsComplete(oracle, cfg, w, w.now + timeout, Components(service));
    assert Complete(w, service);
  }

  /** Nothing can come up, and nothing runs while the dispatcher is ready. */
  ghost predicate Bare(cfg: Setup, z: System) {
    GpuInv(cfg, z) && !CanComeUp(cfg.engine, z.w) && (z.s.d.mode == Ready ==> z.w.running == {})
  }

  lemma SameCanComeUp(cfg: EngineConfig, w: World, w': World)
    requires w'.installed == w.installed && CanComeUp(cfg, w')
    ensures CanComeUp(cfg, w)
  {
    var service :| Complete(w', service);
    assert Complete(w, service);
  }

  lemma MoveBare(cfg: Setup, z: System, m: Move)
    requires cfg.Valid() && Bare(cfg, z) && CanMove(cfg, z, m)
    ensures Bare(cfg, After(cfg, z, m))
  {
    MoveGpu(cfg, z, m);
    var z' := After(cfg, z, m);
    match m {
      case Protocol(a) => ModeStays(cfg, z, a);
      case Drifts(_) =>
        WaitsWhenReconciled(cfg, z);
        hide Inv, Scope, ManagedScope, Exclusive;
      case EngineEnds(oracle) => EngineEndBare(cfg, z, oracle);
    }
    hide Inv, GpuInv, Next, Enabled, EngineResult, Complete;
    if CanComeUp(cfg.engine, z'.w) {
      SameCanComeUp(cfg.engine, z.w, z'.w);
    }
  }

  lemma ModeStays(cfg: Setup, z: System, a: Action)
    requires cfg.Valid() && GpuInv(cfg, z) && CanMove(cfg, z, Protocol(a))
    ensures After(cfg, z, Protocol(a)).s.d.mode == z.s.d.mode
  {
    if a.WorkerTurn? {
      TurnOwner(cfg.lease, z.s);
    } else {
      CallKeepsOwner(cfg.lease, z.s, a);
    }
    hide Inv, Next, Enabled, Scope, ManagedScope, Exclusive;
  }

  lemma EngineEndBare(cfg: Setup, z: System, oracle: Oracle)
    requires cfg.Valid() && Bare(cfg, z) && CanMove(cfg, z, EngineEnds(oracle))
    ensures var z' := After(cfg, z, EngineEnds(oracle));
      z'.w.installed == z.w.installed && (z'.s.d.mode == Ready ==> z'.w.running == {})
  {
    EngineModes(cfg, z, oracle);
    hide Inv, Scope, ManagedScope, Exclusive, StartService, StopService, ReconcileAll, CanComeUp, WithinLimit;
    hide HasService;
    if z.s.worker.Reconcile? {
      ReconcileEffect(oracle, z.w, cfg.lease.cleanup);
    } else if z.s.worker.InStop? {
      EngineOwner(cfg, z);
      StopEffect(oracle, z.w, z.s.d.table[z.s.worker.id].service, cfg.lease.cleanup);
    } else {
      StartEndBare(cfg, z, oracle);
    }
  }

  lemma StartEndBare(cfg: Setup, z: System, oracle: Oracle)
    requires cfg.Valid() && Bare(cfg, z) && CanMove(cfg, z, EngineEnds(oracle)) && z.s.worker.InStart?
    ensures var z' := After(cfg, z, EngineEnds(oracle));
      z'.w.installed == z.w.installed && (z'.s.d.mode == Ready ==> z'.w.running == {})
  {
    EngineOwner(cfg, z);
    hide Inv, Scope, ManagedScope, Exclusive, StartService, CanComeUp, WithinLimit, HasService, Next;
    var service := z.s.d.table[z.s.worker.id].service;
    StartEffect(oracle, cfg.engine, z.w, service, cfg.lease.startup);
    var o := StartService(oracle, cfg.engine, z.w, service, cfg.lease.startup).1;
    if o == Started {
      StartedCanComeUp(oracle, cfg.engine, z.w, service, cfg.lease.startup);
    } else if o.Uncertain? {
      UncertainDegrades(cfg.lease, z.s, o);
    }
  }

  lemma UncertainDegrades(cfg: Config, s: State, o: StartOutcome)
    requires Enabled(cfg, s, StartDone(o)) && o.Uncertain?
    ensures Next(cfg, s, StartDone(o)).d.mode == Degraded
  {
  }

  lemma {:induction false} HistoryBare(cfg: Setup, zs: seq<System>, ms: seq<Move>, i: nat)
    requires cfg.Valid() && IsHistory(cfg, zs, ms) && Bare(cfg, zs[0]) && i < |zs|
    ensures Bare(cfg, zs[i])
  {
    hide Bare, CanMove, After;
    if i > 0 {
      HistoryBare(cfg, zs, ms, i - 1);
      MoveAt(cfg, zs, ms, i - 1);
      MoveBare(cfg, zs[i - 1], ms[i - 1]);
    }
  }

  // ---- The exact condition ----

  /** Nothing is pending from an earlier process, and no owner with the empty id can have an engine. */
  ghost predicate Reliable(cfg: Setup, ids: iset<string>, w: World) {
    w.pending == {} && ("" !in ids || !CanComeUp(cfg.engine, w))
  }

  lemma ReliableIdle(cfg: Setup, zs: seq<System>, ms: seq<Move>, ids: iset<string>, i: nat)
    requires cfg.Valid() && IsHistory(cfg, zs, ms) && Submits(ms, ids) && i < |zs|
    requires Boots(zs[0]) && Reliable(cfg, ids, zs[0].w) && ReadyReport(zs[i].s.d) == IDLE
    ensures zs[i].w.running == {}
  {
    if "" !in ids {
      hide IsHistory, Submits, Boots, CanComeUp;
      IdleIsTrue(cfg, zs, ms, ids, i);
    } else {
      BootInv(cfg, zs[0]);
      hide GpuInv, CanComeUp, IsHistory;
      assert zs[0].s.d.mode == Reconciling;
      HistoryBare(cfg, zs, ms, i);
    }
  }

  /**
   Idle reports are true in every history of a booting dispatcher if and only if
   no `docker start` of an earlier process is pending at boot and either no
   request has the empty id or no service can be brought up at all.
   */
  lemma IdleIsExact(cfg: Setup, ids: iset<string>, z0: System)
    requires cfg.Valid() && Boots(z0)
    ensures Reliable(cfg, ids, z0.w)
      <==> forall z | Extends(cfg, ids, z0, z) && ReadyReport(z.s.d) == IDLE :: z.w.running == {}
  {
    hide Boots, Complete;
    if Reliable(cfg, ids, z0.w) {
      forall z | Extends(cfg, ids, z0, z) && ReadyReport(z.s.d) == IDLE ensures z.w.running == {} {
        hide IsHistory, Reliable;
        var zs, ms :| IsHistory(cfg, zs, ms) && Submits(ms, ids) && zs[0] == z0 && zs[|ms|] == z;
        LastIndex(cfg, zs, ms);
        ReliableIdle(cfg, zs, ms, ids, |ms|);
      }
    } else if z0.w.pending != {} {
      var c :| c in z0.w.pending;
      var z := LateStartLands(cfg, ids, z0, c);
      assert ReadyReport(z.s.d) == IDLE && c in z.w.running;
    } else {
      var service :| Complete(z0.w, service);
      var z := IdleWhileRunning(cfg, ids, z0, service);
    }
  }
}
