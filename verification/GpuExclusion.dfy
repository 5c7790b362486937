/**
 The dispatcher composed with its engine manager and the container world: two
 services never share the GPU.

 An engine operation is one step of the composed machine. It begins when the
 worker drops the lock and its effect is entered when the worker takes the lock
 again, at the moment at which the operation really ends; every `docker start`
 it issued is in the world's log, with everything that ran at that moment.
 Client calls fall in between. Outside engine operations containers die, and
 pending starts land, at any time.
 */
module GpuExclusion {
  import opened Prelude
  import opened Docker
  import opened Engines
  import opened EngineProofs
  import opened Leases
  import opened Protocol
  import opened Invariant
  import R = Runs

  datatype Setup = Setup(lease: Config, engine: EngineConfig) {
    ghost predicate Valid() {
      && lease.Valid() && lease.engineCleanup == engine.cleanup
      && (forall s :: s in lease.services <==> HasService(s))
    }
  }

  datatype System = System(s: State, w: World)

  datatype Move = Protocol(a: Action) | Drifts(d: Drift) | EngineEnds(oracle: Oracle)

  predicate InEngine(k: Worker) {
    k.InStart? || k.InStop? || k.Reconcile?
  }

  /** Where the running engine operation ends, and with which report. */
  function EngineResult(cfg: Setup, z: System, oracle: Oracle): (World, Action)
    requires InEngine(z.s.worker) && (z.s.worker.Reconcile? || z.s.worker.id in z.s.d.table)
  {
    if z.s.worker.Reconcile? then
      var r := ReconcileAll(oracle, z.w, cfg.lease.cleanup);
      (r.0, ReconcileDone(r.1))
    else
      var service := z.s.d.table[z.s.worker.id].service;
      if z.s.worker.InStart? then
        var r := StartService(oracle, cfg.engine, z.w, service, cfg.lease.startup);
        (r.0, StartDone(r.1))
      else
        var r := StopService(oracle, z.w, service, cfg.lease.cleanup);
        (r.0, StopDone(r.1))
  }

  predicate CanMove(cfg: Setup, z: System, m: Move) {
    match m
    case Protocol(a) => (a.Tick? || a.SubmitCall? || a.StopCall? || a.WorkerTurn?) && Enabled(cfg.lease, z.s, a)
    case Drifts(_) => !InEngine(z.s.worker)
    case EngineEnds(oracle) =>
      && InEngine(z.s.worker) && (z.s.worker.Reconcile? || z.s.worker.id in z.s.d.table)
      && z.s.now == EngineResult(cfg, z, oracle).0.now
      && Enabled(cfg.lease, z.s, EngineResult(cfg, z, oracle).1)
  }

  function After(cfg: Setup, z: System, m: Move): System
    requires CanMove(cfg, z, m)
  {
    match m
    case Protocol(a) =>
      var s' := Next(cfg.lease, z.s, a);
      System(s', if a.WorkerTurn? then z.w.(now := s'.now) else z.w)
    case Drifts(d) => z.(w := Drifted(z.w, d))
    case EngineEnds(oracle) =>
      var r := EngineResult(cfg, z, oracle);
      System(Next(cfg.lease, z.s, r.1), r.0)
  }

  ghost predicate IsHistory(cfg: Setup, zs: seq<System>, ms: seq<Move>) {
    && |zs| == |ms| + 1
    && (forall i | 0 <= i < |ms| :: CanMove(cfg, zs[i], ms[i]) && zs[i + 1] == After(cfg, zs[i], ms[i]))
  }

  /** The dispatcher starts up in any world of managed containers, orphans included. */
  ghost predicate Boots(z: System) {
    && Init(z.s) && z.w.now == z.s.now && z.w.starts == []
    && Installed(z.w) && Within(z.w, ManagedScope())
  }

  // ---- The invariant ----

  /** Each recorded start saw nothing but containers of its own service. */
  ghost predicate Exclusive(starts: seq<StartEvent>) {
    forall i | 0 <= i < |starts| ::
      exists service :: HasService(service) && starts[i].container in Scope(service) && starts[i].seen <= Scope(service)
  }

  ghost predicate GpuInv(cfg: Setup, z: System) {
    && Inv(cfg.lease, z.s)
    && Installed(z.w) && Exclusive(z.w.starts)
    && (InEngine(z.s.worker) ==> z.w.now == z.s.worker.since)
    && (z.s.d.mode == Reconciling ==> z.w.pending == {} && Within(z.w, ManagedScope()))
    && (z.s.d.mode == Ready ==>
          && z.w.pending == {}
          && (z.s.d.current == None ==> z.w.running == {})
          && (z.s.d.current.Some? && z.s.d.current.value in z.s.d.table ==>
                z.w.running <= Scope(z.s.d.table[z.s.d.current.value].service)))
  }

  lemma BootInv(cfg: Setup, z: System)
    requires cfg.Valid() && Boots(z) && z.w.pending == {}
    ensures GpuInv(cfg, z)
  {
    InitInv(cfg.lease, z.s);
    hide Inv, ManagedScope, Scope, HasService;
  }

  lemma ExclusiveGrows(w: World, w': World, service: string)
    requires HasService(service) && Exclusive(w.starts) && StartsWithin(w, w', Scope(service))
    ensures Exclusive(w'.starts)
  {
    hide Scope, HasService;
    forall i | 0 <= i < |w'.starts|
      ensures exists s :: HasService(s) && w'.starts[i].container in Scope(s) && w'.starts[i].seen <= Scope(s)
    {
      if i < |w.starts| {
        assert w'.starts[i] == w.starts[i];
      }
    }
  }

  lemma DriftGpu(cfg: Setup, z: System, d: Drift)
    requires GpuInv(cfg, z) && CanMove(cfg, z, Drifts(d))
    ensures GpuInv(cfg, After(cfg, z, Drifts(d)))
  {
    hide Inv, Scope, Exclusive, ManagedScope;
    WaitsWhenReconciled(cfg, z);
  }

  lemma WaitsWhenReconciled(cfg: Setup, z: System)
    requires Inv(cfg.lease, z.s) && !InEngine(z.s.worker)
    ensures z.s.d.mode != Reconciling
  {
  }

  /** Client calls and the clock change neither the owner nor its service. */
  lemma CallKeepsOwner(cfg: Config, s: State, a: Action)
    requires cfg.Valid() && Inv(cfg, s) && Enabled(cfg, s, a) && (a.Tick? || a.SubmitCall? || a.StopCall?)
    ensures var s' := Next(cfg, s, a);
      && s'.d.current == s.d.current && s'.d.mode == s.d.mode
      && (InEngine(s'.worker) <==> InEngine(s.worker)) && (InEngine(s.worker) ==> s'.worker == s.worker)
      && (s.d.current.Some? && s.d.mode == Ready ==>
            && s.d.current.value in s.d.table && s.d.current.value in s'.d.table
            && s'.d.table[s.d.current.value].service == s.d.table[s.d.current.value].service)
  {
    StepInv(cfg, s, a);
    if s.d.current.Some? && s.d.mode == Ready {
      R.StepClimbs(cfg, s, a, s.d.current.value);
    }
  }

  lemma CallGpu(cfg: Setup, z: System, a: Action)
    requires cfg.Valid() && GpuInv(cfg, z) && CanMove(cfg, z, Protocol(a)) && !a.WorkerTurn?
    ensures GpuInv(cfg, After(cfg, z, Protocol(a)))
  {
    hide Inv, Next, Enabled, Scope, Exclusive;
    CallKeepsOwner(cfg.lease, z.s, a);
    StepInv(cfg.lease, z.s, a);
  }

  /** A turn keeps the owner, or hands a free GPU to a waiting request. */
  lemma TurnOwner(cfg: Config, s: State)
    requires cfg.Valid() && Inv(cfg, s) && s.worker.Wait?
    ensures var s' := Next(cfg, s, WorkerTurn);
      && s'.d.mode == s.d.mode && s'.now == s.now
      && (InEngine(s'.worker) ==> !s'.worker.Reconcile? && s'.worker.since == s.now)
      && (s.d.mode == Ready ==>
            if s.d.current.Some?
            then s'.d.current == s.d.current
                 && s.d.current.value in s.d.table && s.d.current.value in s'.d.table
                 && s'.d.table[s.d.current.value].service == s.d.table[s.d.current.value].service
            else s'.d.current.Some? ==> s'.d.current.value in s'.d.table)
  {
    StepInv(cfg, s, WorkerTurn);
    if s.d.mode == Ready {
      if s.d.current.Some? {
        TurnOwnedIs(cfg, s, s.d.current.value);
      } else {
        var k := TurnIdleIs(cfg, s);
      }
    }
  }

  lemma TurnGpu(cfg: Setup, z: System)
    requires cfg.Valid() && GpuInv(cfg, z) && CanMove(cfg, z, Protocol(WorkerTurn))
    ensures GpuInv(cfg, After(cfg, z, Protocol(WorkerTurn)))
  {
    WaitsWhenReconciled(cfg, z);
    assert z.s.worker.Wait?;
    hide Inv, Next, Scope, Exclusive;
    TurnOwner(cfg.lease, z.s);
    StepInv(cfg.lease, z.s, WorkerTurn);
  }

  /** What the worker is doing, and for whom. */
  lemma EngineOwner(cfg: Setup, z: System)
    requires cfg.Valid() && Inv(cfg.lease, z.s) && (z.s.worker.InStart? || z.s.worker.InStop?)
    ensures z.s.d.mode == Ready && z.s.d.current == Some(z.s.worker.id) && z.s.worker.id in z.s.d.table
    ensures HasService(z.s.d.table[z.s.worker.id].service)
  {
  }

  lemma StartEndsGpu(cfg: Setup, z: System, oracle: Oracle)
    requires cfg.Valid() && GpuInv(cfg, z) && CanMove(cfg, z, EngineEnds(oracle)) && z.s.worker.InStart?
    ensures GpuInv(cfg, After(cfg, z, EngineEnds(oracle)))
  {
    EngineOwner(cfg, z);
    hide Inv, Scope, Exclusive, StartService, HasService, WithinLimit;
    var service := z.s.d.table[z.s.worker.id].service;
    var r := StartService(oracle, cfg.engine, z.w, service, cfg.lease.startup);
    StartEffect(oracle, cfg.engine, z.w, service, cfg.lease.startup);
    StartInstalled(oracle, cfg.engine, z.w, service, cfg.lease.startup);
    ExclusiveGrows(z.w, r.0, service);
    StepInv(cfg.lease, z.s, StartDone(r.1));
  }

  lemma StopEndsGpu(cfg: Setup, z: System, oracle: Oracle)
    requires cfg.Valid() && GpuInv(cfg, z) && CanMove(cfg, z, EngineEnds(oracle)) && z.s.worker.InStop?
    ensures GpuInv(cfg, After(cfg, z, EngineEnds(oracle)))
  {
    EngineOwner(cfg, z);
    hide Inv, Scope, Exclusive, StopService, HasService, WithinLimit;
    var service := z.s.d.table[z.s.worker.id].service;
    var r := StopService(oracle, z.w, service, cfg.lease.cleanup);
    StopEffect(oracle, z.w, service, cfg.lease.cleanup);
    StopInstalled(oracle, z.w, service, cfg.lease.cleanup);
    ExclusiveGrows(z.w, r.0, service);
    StepInv(cfg.lease, z.s, StopDone(r.1));
  }

  lemma ReconcileEndsGpu(cfg: Setup, z: System, oracle: Oracle)
    requires cfg.Valid() && GpuInv(cfg, z) && CanMove(cfg, z, EngineEnds(oracle)) && z.s.worker.Reconcile?
    ensures GpuInv(cfg, After(cfg, z, EngineEnds(oracle)))
  {
    ReconcilesEmpty(cfg, z);
    hide Inv, Scope, Exclusive, ReconcileAll, WithinLimit;
    var r := ReconcileAll(oracle, z.w, cfg.lease.cleanup);
    ReconcileEffect(oracle, z.w, cfg.lease.cleanup);
    StepInv(cfg.lease, z.s, ReconcileDone(r.1));
  }

  lemma ReconcilesEmpty(cfg: Setup, z: System)
    requires Inv(cfg.lease, z.s) && z.s.worker.Reconcile?
    ensures z.s.d.mode == Reconciling && z.s.d.current == None
  {
  }

  lemma MoveGpu(cfg: Setup, z: System, m: Move)
    requires cfg.Valid() && GpuInv(cfg, z) && CanMove(cfg, z, m)
    ensures GpuInv(cfg, After(cfg, z, m))
  {
    match m
    case Drifts(d) => DriftGpu(cfg, z, d);
    case Protocol(a) =>
      if a.WorkerTurn? {
        TurnGpu(cfg, z);
      } else {
        CallGpu(cfg, z, a);
      }
    case EngineEnds(oracle) =>
      if z.s.worker.InStart? {
        StartEndsGpu(cfg, z, oracle);
      } else if z.s.worker.InStop? {
        StopEndsGpu(cfg, z, oracle);
      } else {
        ReconcileEndsGpu(cfg, z, oracle);
      }
  }

  lemma {:induction false} HistoryGpu(cfg: Setup, zs: seq<System>, ms: seq<Move>, i: nat)
    requires cfg.Valid() && IsHistory(cfg, zs, ms) && GpuInv(cfg, zs[0]) && i < |zs|
    ensures GpuInv(cfg, zs[i])
  {
    hide GpuInv, CanMove, After;
    if i > 0 {
      HistoryGpu(cfg, zs, ms, i - 1);
      MoveAt(cfg, zs, ms, i - 1);
      MoveGpu(cfg, zs[i - 1], ms[i - 1]);
    }
  }

  lemma MoveAt(cfg: Setup, zs: seq<System>, ms: seq<Move>, k: nat)
    requires IsHistory(cfg, zs, ms) && k < |ms|
    ensures CanMove(cfg, zs[k], ms[k]) && zs[k + 1] == After(cfg, zs[k], ms[k])
  {
    hide CanMove, After;
  }

  // ---- The main theorem ----

  /** The service a managed container belongs to. */
  function ServiceOf(container: string): string {
    if container == "ai-stt" then "stt"
    else if container == "ai-tts" then "tts"
    else if container == "ai-llm" then "llm"
    else if container == "ai-embeddings" then "embeddings"
    else if container == "ai-reranker" then "reranker"
    else "ocr"
  }

  /** No container belongs to two services. */
  lemma ScopeDecidesService(service: string, container: string)
    requires HasService(service) && container in Scope(service)
    ensures ServiceOf(container) == service
  {
  }

  /** While a service was being started, nothing of another service ran. */
  ghost predicate NoOtherServiceSeen(starts: seq<StartEvent>) {
    forall i, c | 0 <= i < |starts| && c in starts[i].seen :: ServiceOf(c) == ServiceOf(starts[i].container)
  }

  /**
   GPU exclusion. In every history that begins with no start pending from an
   earlier process, whatever orphans run, whatever fails, times out, dies or
   lands late: no `docker start` is issued while a container of another service
   runs; and while the dispatcher is ready nothing runs without an owner, and
   everything that runs belongs to the owner's service.
   */
  lemma GpuIsExclusive(cfg: Setup, zs: seq<System>, ms: seq<Move>, i: nat)
    requires cfg.Valid() && IsHistory(cfg, zs, ms) && Boots(zs[0]) && zs[0].w.pending == {} && i < |zs|
    ensures NoOtherServiceSeen(zs[i].w.starts)
    ensures zs[i].s.d.mode == Ready ==>
      match zs[i].s.d.current
      case None => zs[i].w.running == {}
      case Some(id) => id in zs[i].s.d.table && zs[i].w.running <= Scope(zs[i].s.d.table[id].service)
  {
    hide CanMove, After, Scope, HasService, ServiceOf;
    BootInv(cfg, zs[0]);
    HistoryGpu(cfg, zs, ms, i);
    forall k, c | 0 <= k < |zs[i].w.starts| && c in zs[i].w.starts[k].seen
      ensures ServiceOf(c) == ServiceOf(zs[i].w.starts[k].container)
    {
      var e := zs[i].w.starts[k];
      var service :| HasService(service) && e.container in Scope(service) && e.seen <= Scope(service);
      ScopeDecidesService(service, c);
      ScopeDecidesService(service, e.container);
    }
  }

  /** The engine manager keeps the time bounds that the lease protocol counts
      on: its operation always ends within the worker's limit, and the report
      it brings back is one the protocol accepts at that moment. */
  lemma EngineKeepsProtocolBounds(cfg: Setup, z: System, oracle: Oracle)
    requires cfg.Valid() && GpuInv(cfg, z) && InEngine(z.s.worker)
    ensures z.s.worker.Reconcile? || z.s.worker.id in z.s.d.table
    ensures var r := EngineResult(cfg, z, oracle);
      && z.s.worker.since <= r.0.now && WithinLimit(cfg.lease, z.s.worker, r.0.now)
      && (z.s.now == r.0.now ==> Enabled(cfg.lease, z.s, r.1))
  {
    hide StartService, StopService, ReconcileAll, Scope, ManagedScope, Exclusive, TimesOk, TableOk;
    if z.s.worker.Reconcile? {
      StopDeadline(oracle, z.w, "", cfg.lease.cleanup);
    } else {
      var service := z.s.d.table[z.s.worker.id].service;
      StartDeadline(oracle, cfg.engine, z.w, service, cfg.lease.startup);
      StopDeadline(oracle, z.w, service, cfg.lease.cleanup);
    }
  }

  /** The protocol step that a move is; only the drift of the containers is none. */
  function StepOf(cfg: Setup, z: System, m: Move): Option<Action>
    requires CanMove(cfg, z, m)
  {
    match m
    case Protocol(a) => Some(a)
    case Drifts(_) => None
    case EngineEnds(oracle) => Some(EngineResult(cfg, z, oracle).1)
  }

  /** Forgetting the containers, every move is a step of the lease protocol or no step at all. */
  lemma MovesRefineProtocol(cfg: Setup, z: System, m: Move)
    requires CanMove(cfg, z, m)
    ensures StepOf(cfg, z, m) == None ==> After(cfg, z, m).s == z.s
    ensures StepOf(cfg, z, m).Some? ==>
      var a := StepOf(cfg, z, m).value;
      Enabled(cfg.lease, z.s, a) && After(cfg, z, m).s == Next(cfg.lease, z.s, a)
  {
    hide Next, Enabled, EngineResult;
  }
}
