/**
 Starts left over from an earlier process, the harmless case. If every pending
 container belongs to each service that could be started at all, the late starts
 land beside their own service only, and the GPU is never shared.
 */
module LoneService {
  import opened Prelude
  import opened Docker
  import opened Engines
  import opened EngineProofs
  import opened Protocol
  import opened Invariant
  import opened GpuExclusion

  /** The first container of the service exists, so a `docker start` for the service can be issued. */
  predicate Startable(w: World, service: string) {
    HasService(service) && |Components(service)| > 0 && Components(service)[0].container in w.installed
  }

  /** A pending container could land while another service is started. */
  ghost predicate AtRisk(w: World) {
    exists c, service :: c in w.pending && Startable(w, service) && service != ServiceOf(c)
  }

  // ---- Operations that issue no start ----

  /** Nothing starts; what runs afterwards ran before or was pending. */
  predicate Shrinks(w: World, w': World) {
    && w'.installed == w.installed && w'.starts == w.starts
    && w'.pending <= w.pending && w'.running <= w.running + w.pending
  }

  lemma ExecShrinks(oracle: Oracle, w: World, cmd: Command, timeout: int)
    requires !cmd.Start?
    ensures Shrinks(w, Exec(oracle, w, cmd, timeout).0)
  {
  }

  /** A definite answer other than running is true of a container that is not pending. */
  lemma InspectShrinks(oracle: Oracle, w: World, deadline: int, container: string)
    requires w.running <= w.installed
    ensures var r := InspectState(oracle, w, deadline, container);
      && Shrinks(w, r.0)
      && (r.1.Ok? && r.1.value != Running && container !in w.pending ==> container !in r.0.running)
      && (container !in w.installed && r.1.Ok? ==> r.1.value == Missing)
  {
  }

  lemma StopOneShrinks(oracle: Oracle, w: World, deadline: int, container: string)
    requires Installed(w)
    ensures var r := StopOne(oracle, w, deadline, container);
      Shrinks(w, r.0) && (r.1 && container !in w.pending ==> container !in r.0.running)
  {
    hide InspectState, Exec;
    InspectShrinks(oracle, w, deadline, container);
    var s := InspectState(oracle, w, deadline, container);
    ExecShrinks(oracle, s.0, Stop(container), Min(deadline - s.0.now, deadline - s.0.now));
    var r := RunBounded(oracle, s.0, deadline, Stop(container), deadline - s.0.now);
    InspectShrinks(oracle, r.0, deadline, container);
  }

  lemma {:induction false} StopAllShrinks(oracle: Oracle, w: World, deadline: int, containers: seq<string>)
    requires Installed(w)
    ensures var r := StopAll(oracle, w, deadline, containers);
      && Shrinks(w, r.0)
      && (r.1 == [] ==> forall c | c in containers && c !in w.pending :: c !in r.0.running)
    decreases |containers|
  {
    hide StopOne;
    if containers != [] {
      StopOneShrinks(oracle, w, deadline, containers[0]);
      var one := StopOne(oracle, w, deadline, containers[0]);
      StopAllShrinks(oracle, one.0, deadline, containers[1..]);
    }
  }

  lemma StopShrinks(oracle: Oracle, w: World, service: string, timeout: int)
    requires Installed(w)
    ensures Shrinks(w, StopService(oracle, w, service, timeout).0)
  {
    hide StopAll, Components;
    StopAllShrinks(oracle, w, w.now + timeout, Reverse(Names(Components(service))));
  }

  /** After a reconciliation that reports success only what was pending can run. */
  lemma ReconcileLeavesPending(oracle: Oracle, w: World, timeout: int)
    requires Installed(w) && Within(w, ManagedScope())
    ensures var r := ReconcileAll(oracle, w, timeout);
      Shrinks(w, r.0) && (r.1 == Stopped ==> r.0.running <= w.pending)
  {
    hide StopAll, Reverse, Managed;
    ReverseMembers(Managed());
    StopAllShrinks(oracle, w, w.now + timeout, Reverse(Managed()));
    var r := StopAll(oracle, w, w.now + timeout, Reverse(Managed()));
    if r.1 == [] {
      forall c | c in r.0.running ensures c in w.pending {
        assert c in ManagedScope();
      }
    }
  }

  lemma MissingFails(oracle: Oracle, w: World, deadline: int, container: string)
    requires Installed(w) && container !in w.installed
    ensures var up := BringUp(oracle, w, deadline, container);
      up.1.Err? && Shrinks(w, up.0) && Installed(up.0)
  {
    hide InspectState;
    InspectShrinks(oracle, w, deadline, container);
  }

  lemma FirstFails(oracle: Oracle, cfg: EngineConfig, w: World, deadline: int, cs: seq<Component>)
    requires cs != [] && BringUp(oracle, w, deadline, cs[0].container).1.Err?
    ensures StartComponents(oracle, cfg, w, deadline, cs) == BringUp(oracle, w, deadline, cs[0].container)
  {
    hide BringUp, WaitHealthy;
  }

  lemma ShrinksTwice(w: World, w1: World, w2: World)
    requires Shrinks(w, w1) && Shrinks(w1, w2)
    ensures Shrinks(w, w2)
  {
  }

  lemma FirstMissing(oracle: Oracle, cfg: EngineConfig, w: World, service: string, timeout: int)
    requires Installed(w) && HasService(service)
    requires |Components(service)| > 0 && Components(service)[0].container !in w.installed
    ensures Shrinks(w, StartService(oracle, cfg, w, service, timeout).0)
  {
    hide Components, StopService, BringUp, HasService, Shrinks, StartComponents, Installed;
    var cs, deadline := Components(service), w.now + timeout;
    MissingFails(oracle, w, deadline, cs[0].container);
    FirstFails(oracle, cfg, w, deadline, cs);
    var up := BringUp(oracle, w, deadline, cs[0].container);
    StopShrinks(oracle, up.0, service, cfg.cleanup);
    ShrinksTwice(w, up.0, StopService(oracle, up.0, service, cfg.cleanup).0);
  }

  /** A service whose first container does not exist is not started at all. */
  lemma UnstartableShrinks(oracle: Oracle, cfg: EngineConfig, w: World, service: string, timeout: int)
    requires Installed(w) && !Startable(w, service)
    ensures Shrinks(w, StartService(oracle, cfg, w, service, timeout).0)
  {
    if HasService(service) {
      ServicesHaveComponents(service);
      hide Components, HasService, StartService, Shrinks, Installed;
      FirstMissing(oracle, cfg, w, service, timeout);
    } else {
      hide Components, StartComponents, StopService;
    }
  }

  lemma ServicesHaveComponents(service: string)
    requires HasService(service)
    ensures |Components(service)| > 0
  {
  }

  // ---- The invariant ----

  /** Only `lone` can be started, and what is or may come up is its own once the dispatcher is ready. */
  ghost predicate LoneInv(cfg: Setup, z: System, lone: string) {
    && Inv(cfg.lease, z.s) && Installed(z.w)
    && (forall service | Startable(z.w, service) :: service == lone)
    && (if Startable(z.w, lone)
        then OwnStarts(z.w, lone)
             && (z.s.d.mode == Reconciling ==> z.w.pending <= Scope(lone) && Within(z.w, ManagedScope()))
             && (z.s.d.mode == Ready ==> Within(z.w, Scope(lone)))
        else z.w.starts == [])
  }

  ghost predicate OwnStarts(w: World, lone: string) {
    forall i | 0 <= i < |w.starts| :: w.starts[i].container in Scope(lone) && w.starts[i].seen <= Scope(lone)
  }

  lemma ShrinkKeepsLone(cfg: Setup, z: System, lone: string, s': State, w': World)
    requires LoneInv(cfg, z, lone) && Inv(cfg.lease, s') && Shrinks(z.w, w')
    requires s'.d.mode == Degraded || s'.d.mode == z.s.d.mode
      || (z.s.d.mode == Reconciling && w'.running <= z.w.pending)
    ensures LoneInv(cfg, System(s', w'), lone)
  {
    hide Inv, Scope, Components, HasService, ManagedScope;
    assert forall service :: Startable(w', service) == Startable(z.w, service);
  }

  lemma EngineEndLone(cfg: Setup, z: System, lone: string, oracle: Oracle)
    requires cfg.Valid() && LoneInv(cfg, z, lone) && CanMove(cfg, z, EngineEnds(oracle))
    ensures LoneInv(cfg, After(cfg, z, EngineEnds(oracle)), lone)
  {
    StepInv(cfg.lease, z.s, EngineResult(cfg, z, oracle).1);
    EngineModes(cfg, z, oracle);
    hide Inv, StartService, StopService, ReconcileAll, LoneInv, WithinLimit, ManagedScope;
    var z' := After(cfg, z, EngineEnds(oracle));
    if z.s.worker.Reconcile? {
      ReconcileEndLone(cfg, z, lone, oracle);
    } else if z.s.worker.InStop? {
      LoneIsInstalled(cfg, z, lone);
      StopShrinks(oracle, z.w, z.s.d.table[z.s.worker.id].service, cfg.lease.cleanup);
      ShrinkKeepsLone(cfg, z, lone, z'.s, z'.w);
    } else {
      LoneIsInstalled(cfg, z, lone);
      var service := z.s.d.table[z.s.worker.id].service;
      if Startable(z.w, service) {
        OwnStartEnds(cfg, z, lone, oracle);
      } else {
        UnstartableShrinks(oracle, cfg.engine, z.w, service, cfg.lease.startup);
        ShrinkKeepsLone(cfg, z, lone, z'.s, z'.w);
      }
    }
  }

  lemma LoneIsInstalled(cfg: Setup, z: System, lone: string)
    requires LoneInv(cfg, z, lone)
    ensures Installed(z.w) && Inv(cfg.lease, z.s)
  {
  }

  /** The modes around the end of an engine operation. */
  lemma EngineModes(cfg: Setup, z: System, oracle: Oracle)
    requires cfg.Valid() && Inv(cfg.lease, z.s) && CanMove(cfg, z, EngineEnds(oracle))
    ensures var r := EngineResult(cfg, z, oracle);
      var m := Next(cfg.lease, z.s, r.1).d.mode;
      && (z.s.worker.Reconcile? <==> z.s.d.mode == Reconciling)
      && (!z.s.worker.Reconcile? ==> z.s.d.mode == Ready && (m == Ready || m == Degraded))
      && (z.s.worker.Reconcile? ==> m == if r.1.stop == Stopped then Ready else Degraded)
  {
    hide StartService, StopService, ReconcileAll;
  }

  lemma ReconcileEndLone(cfg: Setup, z: System, lone: string, oracle: Oracle)
    requires cfg.Valid() && LoneInv(cfg, z, lone) && CanMove(cfg, z, EngineEnds(oracle)) && z.s.worker.Reconcile?
    requires z.s.d.mode == Reconciling && Inv(cfg.lease, After(cfg, z, EngineEnds(oracle)).s)
    ensures LoneInv(cfg, After(cfg, z, EngineEnds(oracle)), lone)
  {
    hide Inv, ReconcileAll, WithinLimit, ManagedScope, Scope, Startable;
    var z' := After(cfg, z, EngineEnds(oracle));
    if Startable(z.w, lone) {
      ReconcileLeavesPending(oracle, z.w, cfg.lease.cleanup);
    } else {
      ReconcileShrinks(oracle, z.w, cfg.lease.cleanup);
    }
    SameServices(z.w, z'.w);
  }

  lemma ReconcileShrinks(oracle: Oracle, w: World, timeout: int)
    requires Installed(w)
    ensures Shrinks(w, ReconcileAll(oracle, w, timeout).0)
  {
    hide StopAll, Managed, Reverse;
    StopAllShrinks(oracle, w, w.now + timeout, Reverse(Managed()));
  }

  lemma SameServices(w: World, w': World)
    requires w'.installed == w.installed
    ensures forall service :: Startable(w', service) == Startable(w, service)
  {
  }

  lemma OwnStartEnds(cfg: Setup, z: System, lone: string, oracle: Oracle)
    requires cfg.Valid() && LoneInv(cfg, z, lone) && CanMove(cfg, z, EngineEnds(oracle)) && z.s.worker.InStart?
    requires z.s.d.mode == Ready && Startable(z.w, z.s.d.table[z.s.worker.id].service)
    requires var s' := After(cfg, z, EngineEnds(oracle)).s;
      Inv(cfg.lease, s') && (s'.d.mode == Ready || s'.d.mode == Degraded)
    ensures LoneInv(cfg, After(cfg, z, EngineEnds(oracle)), lone)
  {
    hide Inv, StartService, WithinLimit, ManagedScope, Scope, Startable;
    var z' := After(cfg, z, EngineEnds(oracle));
    OwnStartContained(oracle, cfg.engine, z.w, lone, cfg.lease.startup);
    StartInstalled(oracle, cfg.engine, z.w, lone, cfg.lease.startup);
    SameServices(z.w, z'.w);
    forall i | 0 <= i < |z'.w.starts|
      ensures z'.w.starts[i].container in Scope(lone) && z'.w.starts[i].seen <= Scope(lone)
    {
      if i < |z.w.starts| {
        assert z'.w.starts[i] == z.w.starts[i];
      }
    }
  }

  lemma OwnStartContained(oracle: Oracle, cfg: EngineConfig, w: World, service: string, timeout: int)
    requires Within(w, Scope(service)) && Installed(w)
    ensures Contained(w, StartService(oracle, cfg, w, service, timeout).0, Scope(service))
  {
    hide Components, StartComponents, StopService, HasService, Scope;
    CoversScope(service);
    StartComponentsContained(oracle, cfg, w, w.now + timeout, Components(service), Scope(service));
    StartComponentsInstalled(oracle, cfg, w, w.now + timeout, Components(service));
    var up := StartComponents(oracle, cfg, w, w.now + timeout, Components(service));
    StopShrinks(oracle, up.0, service, cfg.cleanup);
  }

  lemma ProtocolMoveLone(cfg: Setup, z: System, lone: string, a: Action)
    requires cfg.Valid() && LoneInv(cfg, z, lone) && CanMove(cfg, z, Protocol(a))
    ensures LoneInv(cfg, After(cfg, z, Protocol(a)), lone)
  {
    StepInv(cfg.lease, z.s, a);
    if a.WorkerTurn? {
      TurnOwner(cfg.lease, z.s);
    } else {
      CallKeepsOwner(cfg.lease, z.s, a);
    }
    hide Inv, Next, Enabled, Scope, ManagedScope, Components, HasService;
    var z' := After(cfg, z, Protocol(a));
    assert forall service :: Startable(z'.w, service) == Startable(z.w, service);
  }

  lemma DriftLone(cfg: Setup, z: System, lone: string, d: Drift)
    requires cfg.Valid() && LoneInv(cfg, z, lone) && CanMove(cfg, z, Drifts(d))
    ensures LoneInv(cfg, After(cfg, z, Drifts(d)), lone)
  {
    ShrinkKeepsLone(cfg, z, lone, z.s, Drifted(z.w, d));
  }

  lemma {:induction false} HistoryLone(cfg: Setup, zs: seq<System>, ms: seq<Move>, lone: string, i: nat)
    requires cfg.Valid() && IsHistory(cfg, zs, ms) && LoneInv(cfg, zs[0], lone) && i < |zs|
    ensures LoneInv(cfg, zs[i], lone)
  {
    hide LoneInv, CanMove, After;
    if i > 0 {
      HistoryLone(cfg, zs, ms, lone, i - 1);
      MoveAt(cfg, zs, ms, i - 1);
      match ms[i - 1]
      case Protocol(a) => ProtocolMoveLone(cfg, zs[i - 1], lone, a);
      case Drifts(d) => DriftLone(cfg, zs[i - 1], lone, d);
      case EngineEnds(oracle) => EngineEndLone(cfg, zs[i - 1], lone, oracle);
    }
  }

  /** A booting dispatcher with something pending, but nothing at risk. */
  lemma BootIsLone(cfg: Setup, z: System, c: string)
    requires cfg.Valid() && Boots(z) && c in z.w.pending && !AtRisk(z.w)
    ensures LoneInv(cfg, z, ServiceOf(c))
  {
    InitInv(cfg.lease, z.s);
    hide Inv, ServiceOf, Components, HasService, ManagedScope;
    var lone := ServiceOf(c);
    if Startable(z.w, lone) {
      forall d | d in z.w.pending ensures d in Scope(lone) {
        assert ServiceOf(d) == lone;
        assert d in ManagedScope();
        ScopeHolds(d);
      }
    }
  }

  lemma ScopeHolds(c: string)
    requires c in ManagedScope()
    ensures HasService(ServiceOf(c)) && c in Scope(ServiceOf(c))
  {
    hide Scope, ServiceOf, HasService, ManagedScope;
    ManagedIsEveryScope(c);
    var service :| HasService(service) && c in Scope(service);
    ScopeDecidesService(service, c);
  }

  /** Without a risk at boot every history keeps the GPU exclusive. */
  lemma LateStartsStayAlone(cfg: Setup, zs: seq<System>, ms: seq<Move>, i: nat)
    requires cfg.Valid() && IsHistory(cfg, zs, ms) && Boots(zs[0]) && !AtRisk(zs[0].w) && i < |zs|
    ensures NoOtherServiceSeen(zs[i].w.starts)
  {
    hide CanMove, After, Scope, HasService, ServiceOf, AtRisk, Boots;
    if zs[0].w.pending == {} {
      GpuIsExclusive(cfg, zs, ms, i);
    } else {
      var c :| c in zs[0].w.pending;
      BootIsLone(cfg, zs[0], c);
      HistoryLone(cfg, zs, ms, ServiceOf(c), i);
      forall k, d | 0 <= k < |zs[i].w.starts| && d in zs[i].w.starts[k].seen
        ensures ServiceOf(d) == ServiceOf(zs[i].w.starts[k].container)
      {
        ScopeDecidesService(ServiceOf(c), d);
        ScopeDecidesService(ServiceOf(c), zs[i].w.starts[k].container);
      }
    }
  }
}
