/**
 What the engine operations guarantee for every behaviour of the container
 world: their deadlines, the containers they may touch, the certainty of a
 successful stop, and the patience of the health window.
 */
module EngineProofs {
  import opened Prelude
  import opened Docker
  import opened Engines
  import P = Protocol

  // ---- Deadlines ----

  lemma RunTime(oracle: Oracle, w: World, deadline: int, cmd: Command, most: int)
    requires 0 < most || deadline <= w.now
    ensures var w' := RunBounded(oracle, w, deadline, cmd, most).0;
      w.now <= w'.now <= Max(w.now, deadline)
  {
  }

  lemma InspectTime(oracle: Oracle, w: World, deadline: int, container: string)
    ensures var w' := InspectState(oracle, w, deadline, container).0;
      w.now <= w'.now <= Max(w.now, deadline)
  {
    RunTime(oracle, w, deadline, Inspect(container), COMMAND_TIMEOUT);
  }

  lemma ProbeTime(oracle: Oracle, cfg: EngineConfig, w: World, deadline: int, c: Component)
    ensures var w' := Probe(oracle, cfg, w, deadline, c).0;
      w.now <= w'.now <= Max(w.now, deadline)
  {
    hide RunBounded, InspectState;
    RunTime(oracle, w, deadline, Curl(c.healthUrl), HEALTH_TIMEOUT);
    InspectTime(oracle, RunBounded(oracle, w, deadline, Curl(c.healthUrl), HEALTH_TIMEOUT).0, deadline, c.container);
  }

  lemma {:induction false} WaitTime(oracle: Oracle, cfg: EngineConfig, w: World, deadline: int, c: Component,
                                    attempts: nat)
    ensures var w' := WaitHealthy(oracle, cfg, w, deadline, c, attempts).0;
      w.now <= w'.now <= Max(w.now, deadline)
    decreases attempts
  {
    hide Probe;
    if attempts > 0 {
      ProbeTime(oracle, cfg, w, deadline, c);
      WaitTime(oracle, cfg, Probe(oracle, cfg, w, deadline, c).0, deadline, c, attempts - 1);
    }
  }

  lemma BringUpTime(oracle: Oracle, w: World, deadline: int, container: string)
    ensures var w' := BringUp(oracle, w, deadline, container).0;
      w.now <= w'.now <= Max(w.now, deadline)
  {
    hide RunBounded, InspectState;
    InspectTime(oracle, w, deadline, container);
    RunTime(oracle, InspectState(oracle, w, deadline, container).0, deadline, Start(container), COMMAND_TIMEOUT);
  }

  lemma {:induction false} StartComponentsTime(oracle: Oracle, cfg: EngineConfig, w: World, deadline: int,
                                               components: seq<Component>)
    ensures var w' := StartComponents(oracle, cfg, w, deadline, components).0;
      w.now <= w'.now <= Max(w.now, deadline)
    decreases |components|
  {
    hide BringUp, WaitHealthy;
    if components != [] {
      var up := BringUp(oracle, w, deadline, components[0].container);
      BringUpTime(oracle, w, deadline, components[0].container);
      WaitTime(oracle, cfg, up.0, deadline, components[0], cfg.healthAttempts);
      var healthy := WaitHealthy(oracle, cfg, up.0, deadline, components[0], cfg.healthAttempts);
      StartComponentsTime(oracle, cfg, healthy.0, deadline, components[1..]);
    }
  }

  lemma StopOneTime(oracle: Oracle, w: World, deadline: int, container: string)
    ensures var w' := StopOne(oracle, w, deadline, container).0;
      w.now <= w'.now <= Max(w.now, deadline)
  {
    hide RunBounded, InspectState;
    InspectTime(oracle, w, deadline, container);
    var s := InspectState(oracle, w, deadline, container);
    RunTime(oracle, s.0, deadline, Stop(container), deadline - s.0.now);
    InspectTime(oracle, RunBounded(oracle, s.0, deadline, Stop(container), deadline - s.0.now).0, deadline, container);
  }

  lemma {:induction false} StopAllTime(oracle: Oracle, w: World, deadline: int, containers: seq<string>)
    ensures var w' := StopAll(oracle, w, deadline, containers).0;
      w.now <= w'.now <= Max(w.now, deadline)
    decreases |containers|
  {
    hide StopOne;
    if containers != [] {
      StopOneTime(oracle, w, deadline, containers[0]);
      StopAllTime(oracle, StopOne(oracle, w, deadline, containers[0]).0, deadline, containers[1..]);
    }
  }

  /** `stop` and `reconcile` end by their timeout, however the commands behave. */
  lemma StopDeadline(oracle: Oracle, w: World, service: string, timeout: int)
    requires 0 < timeout
    ensures w.now <= StopService(oracle, w, service, timeout).0.now <= w.now + timeout
    ensures w.now <= ReconcileAll(oracle, w, timeout).0.now <= w.now + timeout
  {
    hide StopAll, Managed, Components, Reverse, Names, HasService;
    StopAllTime(oracle, w, w.now + timeout, Reverse(Names(Components(service))));
    StopAllTime(oracle, w, w.now + timeout, Reverse(Managed()));
  }

  /** `start` succeeds only by its timeout, and fails by its timeout plus the cleanup budget. */
  lemma StartDeadline(oracle: Oracle, cfg: EngineConfig, w: World, service: string, timeout: int)
    requires 0 < timeout && 0 < cfg.cleanup
    ensures var r := StartService(oracle, cfg, w, service, timeout);
      && w.now <= r.0.now <= w.now + timeout + cfg.cleanup
      && (r.1 == P.Started ==> r.0.now <= w.now + timeout)
  {
    hide StartComponents, StopService, ReconcileAll, Components, HasService;
    StartComponentsTime(oracle, cfg, w, w.now + timeout, Components(service));
    StopDeadline(oracle, StartComponents(oracle, cfg, w, w.now + timeout, Components(service)).0, service, cfg.cleanup);
  }

  // ---- Footprint ----

  /** Everything that runs, or may still come up, lies in `scope`. */
  predicate Within(w: World, scope: set<string>) {
    w.running <= scope && w.pending <= scope
  }

  /** The starts issued between `w` and `w'` concern `scope`, and nothing outside it ran meanwhile. */
  ghost predicate StartsWithin(w: World, w': World, scope: set<string>) {
    && w.starts <= w'.starts
    && (forall i | |w.starts| <= i < |w'.starts| ::
          w'.starts[i].container in scope && w'.starts[i].seen <= scope)
  }

  predicate Touches(cmd: Command, scope: set<string>) {
    (cmd.Start? || cmd.Stop?) ==> cmd.container in scope
  }

  /** What one operation may do while it works on `scope`. */
  ghost predicate Contained(w: World, w': World, scope: set<string>) {
    && w'.installed == w.installed
    && Within(w', scope) && StartsWithin(w, w', scope)
  }

  lemma ExecContained(oracle: Oracle, w: World, cmd: Command, timeout: int, scope: set<string>)
    requires Within(w, scope) && Touches(cmd, scope)
    ensures var r := Exec(oracle, w, cmd, timeout);
      && Contained(w, r.0, scope)
      && (w.pending == {} && !(cmd.Start? && r.1 == CommandTimeout) ==> r.0.pending == {})
      && (!cmd.Start? && w.pending == {} ==> r.0.running <= w.running)
  {
  }

  lemma RunContained(oracle: Oracle, w: World, deadline: int, cmd: Command, most: int, scope: set<string>)
    requires Within(w, scope) && Touches(cmd, scope)
    ensures var r := RunBounded(oracle, w, deadline, cmd, most);
      && Contained(w, r.0, scope)
      && (w.pending == {} && !(cmd.Start? && r.1 == Ok(CommandTimeout)) ==> r.0.pending == {})
      && (!cmd.Start? && w.pending == {} ==> r.0.running <= w.running)
  {
    hide Exec;
    ExecContained(oracle, w, cmd, Min(deadline - w.now, most), scope);
  }

  /** An inspection starts nothing, and a definite answer is true of some moment during it. */
  lemma InspectContained(oracle: Oracle, w: World, deadline: int, container: string, scope: set<string>)
    requires Within(w, scope)
    ensures var r := InspectState(oracle, w, deadline, container);
      && Contained(w, r.0, scope)
      && (w.pending == {} ==> r.0.pending == {} && r.0.running <= w.running)
      && (w.pending == {} && w.running <= w.installed && r.1.Ok? && r.1.value != Running ==> container !in r.0.running)
  {
    RunContained(oracle, w, deadline, Inspect(container), COMMAND_TIMEOUT, scope);
  }

  lemma SleptContained(oracle: Oracle, w: World, span: int, scope: set<string>)
    requires Within(w, scope)
    ensures Contained(w, Slept(oracle, w, span), scope)
    ensures w.pending == {} ==> Slept(oracle, w, span).pending == {} && Slept(oracle, w, span).running <= w.running
  {
  }

  lemma ProbeContained(oracle: Oracle, cfg: EngineConfig, w: World, deadline: int, c: Component, scope: set<string>)
    requires Within(w, scope)
    ensures var r := Probe(oracle, cfg, w, deadline, c);
      && Contained(w, r.0, scope)
      && (w.pending == {} ==> r.0.pending == {})
      && (r.1.Err? ==> r.1.error != StartTimedOut)
  {
    hide RunBounded, InspectState, Slept;
    RunContained(oracle, w, deadline, Curl(c.healthUrl), HEALTH_TIMEOUT, scope);
    var w1 := RunBounded(oracle, w, deadline, Curl(c.healthUrl), HEALTH_TIMEOUT).0;
    InspectContained(oracle, w1, deadline, c.container, scope);
    InspectError(oracle, w1, deadline, c.container);
    var w2 := InspectState(oracle, w1, deadline, c.container).0;
    SleptContained(oracle, w2, Min(cfg.healthInterval, deadline - w2.now), scope);
  }

  lemma InspectError(oracle: Oracle, w: World, deadline: int, container: string)
    ensures var r := InspectState(oracle, w, deadline, container).1;
      r.Err? ==> r.error == StateUnknown
  {
  }

  lemma {:induction false} WaitContained(oracle: Oracle, cfg: EngineConfig, w: World, deadline: int, c: Component,
                                         attempts: nat, scope: set<string>)
    requires Within(w, scope)
    ensures var r := WaitHealthy(oracle, cfg, w, deadline, c, attempts);
      && Contained(w, r.0, scope)
      && (w.pending == {} ==> r.0.pending == {})
      && (r.1.Err? ==> r.1.error != StartTimedOut)
    decreases attempts
  {
    hide Probe;
    if attempts > 0 {
      ProbeContained(oracle, cfg, w, deadline, c, scope);
      WaitContained(oracle, cfg, Probe(oracle, cfg, w, deadline, c).0, deadline, c, attempts - 1, scope);
    }
  }

  lemma BringUpContained(oracle: Oracle, w: World, deadline: int, container: string, scope: set<string>)
    requires Within(w, scope) && container in scope
    ensures var r := BringUp(oracle, w, deadline, container);
      && Contained(w, r.0, scope)
      && (w.pending == {} && r.1 != Err(StartTimedOut) ==> r.0.pending == {})
  {
    hide RunBounded, InspectState;
    InspectContained(oracle, w, deadline, container, scope);
    InspectError(oracle, w, deadline, container);
    RunContained(oracle, InspectState(oracle, w, deadline, container).0, deadline,
                 Start(container), COMMAND_TIMEOUT, scope);
  }

  ghost predicate Covers(scope: set<string>, components: seq<Component>) {
    forall i | 0 <= i < |components| :: components[i].container in scope
  }

  /** Starting touches only its own containers; without a timed-out
      `docker start` nothing is left pending. */
  lemma {:induction false} StartComponentsContained(oracle: Oracle, cfg: EngineConfig, w: World, deadline: int,
                                                    components: seq<Component>, scope: set<string>)
    requires Within(w, scope) && Covers(scope, components)
    ensures var r := StartComponents(oracle, cfg, w, deadline, components);
      && Contained(w, r.0, scope)
      && (w.pending == {} && r.1 != Err(StartTimedOut) ==> r.0.pending == {})
    decreases |components|
  {
    hide BringUp, WaitHealthy;
    if components != [] {
      var up := BringUp(oracle, w, deadline, components[0].container);
      BringUpContained(oracle, w, deadline, components[0].container, scope);
      if up.1.Ok? {
        WaitContained(oracle, cfg, up.0, deadline, components[0], cfg.healthAttempts, scope);
        var healthy := WaitHealthy(oracle, cfg, up.0, deadline, components[0], cfg.healthAttempts);
        if healthy.1.Ok? {
          StartComponentsContained(oracle, cfg, healthy.0, deadline, components[1..], scope);
        }
      }
    }
  }

  /** What is down stays down while nothing is pending and nobody starts anything. */
  lemma StopOneContained(oracle: Oracle, w: World, deadline: int, container: string, scope: set<string>)
    requires Within(w, scope) && container in scope
    ensures var r := StopOne(oracle, w, deadline, container);
      && Contained(w, r.0, scope)
      && (w.pending == {} ==> r.0.pending == {} && r.0.running <= w.running)
      && (w.pending == {} && w.running <= w.installed && r.1 ==> container !in r.0.running)
  {
    hide RunBounded, InspectState;
    InspectContained(oracle, w, deadline, container, scope);
    var s := InspectState(oracle, w, deadline, container);
    RunContained(oracle, s.0, deadline, Stop(container), deadline - s.0.now, scope);
    InspectContained(oracle, RunBounded(oracle, s.0, deadline, Stop(container), deadline - s.0.now).0,
                     deadline, container, scope);
  }

  lemma {:induction false} StopAllContained(oracle: Oracle, w: World, deadline: int, containers: seq<string>,
                                            scope: set<string>)
    requires Within(w, scope) && forall i | 0 <= i < |containers| :: containers[i] in scope
    ensures var r := StopAll(oracle, w, deadline, containers);
      && Contained(w, r.0, scope)
      && (w.pending == {} ==> r.0.pending == {} && r.0.running <= w.running)
      && (w.pending == {} && w.running <= w.installed && r.1 == [] ==>
            forall c | c in containers :: c !in r.0.running)
    decreases |containers|
  {
    hide StopOne;
    if containers != [] {
      StopOneContained(oracle, w, deadline, containers[0], scope);
      var one := StopOne(oracle, w, deadline, containers[0]);
      StopAllContained(oracle, one.0, deadline, containers[1..], scope);
      var rest := StopAll(oracle, one.0, deadline, containers[1..]);
      if w.pending == {} && w.running <= w.installed && one.1 && rest.1 == [] {
        forall c | c in containers ensures c !in rest.0.running {
          assert c == containers[0] || c in containers[1..];
        }
      }
    }
  }

  /** The containers of a service. */
  function Scope(service: string): set<string> {
    set i | 0 <= i < |Components(service)| :: Components(service)[i].container
  }

  lemma ReverseMembers(s: seq<string>)
    ensures forall x :: x in Reverse(s) <==> x in s
  {
    forall x | x in s ensures x in Reverse(s) {
      var i :| 0 <= i < |s| && s[i] == x;
      assert Reverse(s)[|s| - 1 - i] == x;
    }
  }

  lemma NamesAre(service: string)
    ensures forall x :: x in Reverse(Names(Components(service))) <==> x in Scope(service)
  {
    hide Components;
    var cs := Components(service);
    ReverseMembers(Names(cs));
    forall x | x in Scope(service) ensures x in Names(cs) {
      var i :| 0 <= i < |cs| && cs[i].container == x;
      assert Names(cs)[i] == x;
    }
  }

  /** A successful stop leaves the whole service down, if it had the GPU for itself and nothing was pending. */
  lemma StopEffect(oracle: Oracle, w: World, service: string, timeout: int)
    requires Within(w, Scope(service))
    ensures var r := StopService(oracle, w, service, timeout);
      && Contained(w, r.0, Scope(service))
      && (w.pending == {} ==> r.0.pending == {} && r.0.running <= w.running)
      && (w.pending == {} && w.running <= w.installed && r.1 == P.Stopped ==> r.0.running == {})
  {
    hide Components, StopAll, HasService, Reverse, Names, Scope;
    var cs := Reverse(Names(Components(service)));
    NamesAre(service);
    StopAllContained(oracle, w, w.now + timeout, cs, Scope(service));
    if StopService(oracle, w, service, timeout).1 == P.Stopped && w.pending == {} && w.running <= w.installed {
      var r := StopAll(oracle, w, w.now + timeout, cs);
      forall c ensures c !in r.0.running {
        if c in Scope(service) {
          assert c in cs;
        }
      }
    }
  }

  function ManagedScope(): set<string> {
    set c | c in Managed()
  }

  lemma {:induction false} AddNewMembers(seen: seq<string>, names: seq<string>)
    ensures forall c :: c in AddNew(seen, names) <==> c in seen || c in names
    decreases |names|
  {
    if names != [] {
      AddNewMembers(if names[0] in seen then seen else seen + [names[0]], names[1..]);
    }
  }

  lemma {:induction false} CollectMembers(seen: seq<string>, services: seq<string>, c: string)
    ensures c in Collect(seen, services) <==> c in seen || exists s :: s in services && c in Scope(s)
    decreases |services|
  {
    hide Components, Scope;
    if services != [] {
      var names := Names(Components(services[0]));
      AddNewMembers(seen, names);
      CollectMembers(AddNew(seen, names), services[1..], c);
      NamesAre(services[0]);
      ReverseMembers(names);
    }
  }

  /** The managed containers are those of the services, no more and no less. */
  lemma ManagedIsEveryScope(c: string)
    ensures c in ManagedScope() <==> exists s :: HasService(s) && c in Scope(s)
  {
    hide Components, Scope, SERVICE_NAMES;
    CollectMembers([], SERVICE_NAMES, c);
  }

  /** A successful reconciliation leaves nothing running, whatever ran before. */
  lemma ReconcileEffect(oracle: Oracle, w: World, timeout: int)
    requires Within(w, ManagedScope()) && w.pending == {} && w.running <= w.installed
    ensures var r := ReconcileAll(oracle, w, timeout);
      && r.0.installed == w.installed && r.0.starts == w.starts
      && r.0.pending == {} && r.0.running <= w.running
      && (r.1 == P.Stopped ==> r.0.running == {})
  {
    hide StopAll, Reverse, Managed;
    var cs := Reverse(Managed());
    ReverseMembers(Managed());
    StopAllContained(oracle, w, w.now + timeout, cs, ManagedScope());
    StopAllStartsNothing(oracle, w, w.now + timeout, cs);
    var r := StopAll(oracle, w, w.now + timeout, cs);
    if r.1 == [] {
      forall c ensures c !in r.0.running {
        if c in ManagedScope() {
          assert c in cs;
        }
      }
    }
  }

  /** Stopping issues no `docker start`. */
  lemma {:induction false} StopAllStartsNothing(oracle: Oracle, w: World, deadline: int, containers: seq<string>)
    ensures StopAll(oracle, w, deadline, containers).0.starts == w.starts
    decreases |containers|
  {
    hide StopOne;
    if containers != [] {
      StopOneStartsNothing(oracle, w, deadline, containers[0]);
      StopAllStartsNothing(oracle, StopOne(oracle, w, deadline, containers[0]).0, deadline, containers[1..]);
    }
  }

  lemma StopOneStartsNothing(oracle: Oracle, w: World, deadline: int, container: string)
    ensures StopOne(oracle, w, deadline, container).0.starts == w.starts
  {
  }

  /**
   The outcomes of a start. It touches only its own containers. On success and
   on a clean failure nothing is pending; after a clean failure nothing runs.
   */
  lemma StartEffect(oracle: Oracle, cfg: EngineConfig, w: World, service: string, timeout: int)
    requires Within(w, Scope(service)) && w.pending == {} && w.running <= w.installed
    ensures var r := StartService(oracle, cfg, w, service, timeout);
      && Contained(w, r.0, Scope(service))
      && (r.1 == P.Started ==> r.0.pending == {})
      && (r.1.StartFailed? && HasService(service) ==> r.0.pending == {} && r.0.running == {})
  {
    hide Components, StopService, StartComponents, HasService, Scope;
    CoversScope(service);
    StartComponentsContained(oracle, cfg, w, w.now + timeout, Components(service), Scope(service));
    StartComponentsInstalled(oracle, cfg, w, w.now + timeout, Components(service));
    var up := StartComponents(oracle, cfg, w, w.now + timeout, Components(service));
    StopEffect(oracle, up.0, service, cfg.cleanup);
  }

  lemma CoversScope(service: string)
    ensures Covers(Scope(service), Components(service))
  {
  }

  // ---- Only installed containers run ----

  ghost predicate Installed(w: World) {
    w.running <= w.installed && w.pending <= w.installed
  }

  ghost predicate StaysInstalled(w: World, w': World) {
    Installed(w') && w'.installed == w.installed
  }

  lemma ExecInstalled(oracle: Oracle, w: World, cmd: Command, timeout: int)
    requires Installed(w)
    ensures StaysInstalled(w, Exec(oracle, w, cmd, timeout).0)
  {
  }

  lemma InspectInstalled(oracle: Oracle, w: World, deadline: int, container: string)
    requires Installed(w)
    ensures StaysInstalled(w, InspectState(oracle, w, deadline, container).0)
  {
    hide Exec;
    ExecInstalled(oracle, w, Inspect(container), Min(deadline - w.now, COMMAND_TIMEOUT));
  }

  lemma ProbeInstalled(oracle: Oracle, cfg: EngineConfig, w: World, deadline: int, c: Component)
    requires Installed(w)
    ensures StaysInstalled(w, Probe(oracle, cfg, w, deadline, c).0)
  {
    hide Exec, InspectState;
    ExecInstalled(oracle, w, Curl(c.healthUrl), Min(deadline - w.now, HEALTH_TIMEOUT));
    var w1 := RunBounded(oracle, w, deadline, Curl(c.healthUrl), HEALTH_TIMEOUT).0;
    InspectInstalled(oracle, w1, deadline, c.container);
  }

  lemma {:induction false} WaitInstalled(oracle: Oracle, cfg: EngineConfig, w: World, deadline: int, c: Component,
                                         attempts: nat)
    requires Installed(w)
    ensures StaysInstalled(w, WaitHealthy(oracle, cfg, w, deadline, c, attempts).0)
    decreases attempts
  {
    hide Probe;
    if attempts > 0 {
      ProbeInstalled(oracle, cfg, w, deadline, c);
      WaitInstalled(oracle, cfg, Probe(oracle, cfg, w, deadline, c).0, deadline, c, attempts - 1);
    }
  }

  lemma BringUpInstalled(oracle: Oracle, w: World, deadline: int, container: string)
    requires Installed(w)
    ensures StaysInstalled(w, BringUp(oracle, w, deadline, container).0)
  {
    hide Exec, InspectState;
    InspectInstalled(oracle, w, deadline, container);
    var w1 := InspectState(oracle, w, deadline, container).0;
    ExecInstalled(oracle, w1, Start(container), Min(deadline - w1.now, COMMAND_TIMEOUT));
  }

  lemma {:induction false} StartComponentsInstalled(oracle: Oracle, cfg: EngineConfig, w: World, deadline: int,
                                                    components: seq<Component>)
    requires Installed(w)
    ensures StaysInstalled(w, StartComponents(oracle, cfg, w, deadline, components).0)
    decreases |components|
  {
    hide BringUp, WaitHealthy;
    if components != [] {
      BringUpInstalled(oracle, w, deadline, components[0].container);
      var up := BringUp(oracle, w, deadline, components[0].container);
      WaitInstalled(oracle, cfg, up.0, deadline, components[0], cfg.healthAttempts);
      var healthy := WaitHealthy(oracle, cfg, up.0, deadline, components[0], cfg.healthAttempts);
      StartComponentsInstalled(oracle, cfg, healthy.0, deadline, components[1..]);
    }
  }

  lemma StopOneInstalled(oracle: Oracle, w: World, deadline: int, container: string)
    requires Installed(w)
    ensures StaysInstalled(w, StopOne(oracle, w, deadline, container).0)
  {
    hide Exec, InspectState;
    InspectInstalled(oracle, w, deadline, container);
    var w1 := InspectState(oracle, w, deadline, container).0;
    ExecInstalled(oracle, w1, Stop(container), Min(deadline - w1.now, deadline - w1.now));
    var w2 := RunBounded(oracle, w1, deadline, Stop(container), deadline - w1.now).0;
    InspectInstalled(oracle, w2, deadline, container);
  }

  lemma {:induction false} StopAllInstalled(oracle: Oracle, w: World, deadline: int, containers: seq<string>)
    requires Installed(w)
    ensures StaysInstalled(w, StopAll(oracle, w, deadline, containers).0)
    decreases |containers|
  {
    hide StopOne;
    if containers != [] {
      StopOneInstalled(oracle, w, deadline, containers[0]);
      StopAllInstalled(oracle, StopOne(oracle, w, deadline, containers[0]).0, deadline, containers[1..]);
    }
  }

  lemma StopInstalled(oracle: Oracle, w: World, service: string, timeout: int)
    requires Installed(w)
    ensures StaysInstalled(w, StopService(oracle, w, service, timeout).0)
  {
    hide StopAll, Components, HasService;
    StopAllInstalled(oracle, w, w.now + timeout, Reverse(Names(Components(service))));
  }

  lemma StartInstalled(oracle: Oracle, cfg: EngineConfig, w: World, service: string, timeout: int)
    requires Installed(w)
    ensures StaysInstalled(w, StartService(oracle, cfg, w, service, timeout).0)
  {
    hide StartComponents, StopService, Components, HasService;
    StartComponentsInstalled(oracle, cfg, w, w.now + timeout, Components(service));
    StopInstalled(oracle, StartComponents(oracle, cfg, w, w.now + timeout, Components(service)).0,
                  service, cfg.cleanup);
  }

  // ---- The health window ----

  /** The container never dies and every inspection of it works. */
  ghost predicate StaysInspectable(oracle: Oracle, container: string) {
    forall k: nat, cmd: Command ::
      && container !in oracle(k, cmd).before.die && container !in oracle(k, cmd).after.die
      && (cmd == Inspect(container) ==> oracle(k, cmd).luck == Works)
  }

  lemma ProbePatient(oracle: Oracle, cfg: EngineConfig, w: World, deadline: int, c: Component)
    requires StaysInspectable(oracle, c.container) && 0 <= cfg.healthInterval
    requires c.container in w.running && c.container in w.installed
    ensures var r := Probe(oracle, cfg, w, deadline, c);
      && c.container in r.0.running && r.0.installed == w.installed
      && (r.1.Err? ==> r.0.now >= deadline)
      && (r.1 == Ok(false) ==> r.0.now >= Min(deadline, w.now + cfg.healthInterval))
      && r.0.now >= w.now
  {
    ProbeTime(oracle, cfg, w, deadline, c);
    var k := w.commands;
    var up := RunBounded(oracle, w, deadline, Curl(c.healthUrl), HEALTH_TIMEOUT);
    assert c.container !in oracle(k, Curl(c.healthUrl)).before.die;
    assert c.container in up.0.running;
    var s := InspectState(oracle, up.0, deadline, c.container);
    assert oracle(up.0.commands, Inspect(c.container)).luck == Works;
    assert s.1 == Ok(Running) || s.0.now >= deadline;
    assert c.container !in oracle(s.0.commands, Curl("")).before.die;
  }

  /**
   Patience. While the container stays up and inspectable, the health wait ends
   in success or not before the deadline, provided that attempts * interval
   covers the time that was left when the wait began.
   */
  lemma {:induction false} Patience(oracle: Oracle, cfg: EngineConfig, w: World, deadline: int, c: Component,
                                    attempts: nat)
    requires StaysInspectable(oracle, c.container) && 0 <= cfg.healthInterval
    requires c.container in w.running && c.container in w.installed
    requires attempts * cfg.healthInterval >= deadline - w.now
    ensures var r := WaitHealthy(oracle, cfg, w, deadline, c, attempts);
      r.1 == Ok(()) || r.0.now >= deadline
    decreases attempts
  {
    if attempts > 0 {
      hide Probe;
      ProbePatient(oracle, cfg, w, deadline, c);
      var r := Probe(oracle, cfg, w, deadline, c);
      if r.1 == Ok(false) {
        OneLess(attempts, cfg.healthInterval);
        if r.0.now >= deadline {
          WaitTime(oracle, cfg, r.0, deadline, c, attempts - 1);
        } else {
          Patience(oracle, cfg, r.0, deadline, c, attempts - 1);
        }
      }
    }
  }

  /** A world in which every command is instantaneous and no health check ever passes. */
  function NeverHealthy(): Oracle {
    (k: nat, cmd: Command) =>
      Choice(0, Drift({}, {}), if cmd.Curl? then Fails else Works, true, Drift({}, {}))
  }

  lemma NeverHealthyProbe(cfg: EngineConfig, w: World, deadline: int, c: Component)
    requires 0 <= cfg.healthInterval < deadline - w.now && c.container in w.running && c.container in w.installed
    ensures var r := Probe(NeverHealthy(), cfg, w, deadline, c);
      && r.1 == Ok(false) && r.0.now == w.now + cfg.healthInterval
      && c.container in r.0.running && c.container in r.0.installed
  {
  }

  lemma {:induction false} GivesUpEarly(cfg: EngineConfig, w: World, deadline: int, c: Component, attempts: nat)
    requires 0 <= cfg.healthInterval && c.container in w.running && c.container in w.installed
    requires attempts * cfg.healthInterval < deadline - w.now
    ensures var r := WaitHealthy(NeverHealthy(), cfg, w, deadline, c, attempts);
      r.1 != Ok(()) && r.0.now == w.now + attempts * cfg.healthInterval
    decreases attempts
  {
    if attempts > 0 {
      OneLess(attempts, cfg.healthInterval);
      NotNegative(attempts - 1, cfg.healthInterval);
      var r := Probe(NeverHealthy(), cfg, w, deadline, c);
      NeverHealthyProbe(cfg, w, deadline, c);
      hide Probe;
      GivesUpEarly(cfg, r.0, deadline, c, attempts - 1);
    }
  }

  /**
   The health window is exactly right: a running, inspectable container is
   never abandoned before the deadline, in any world, if and only if
   health_attempts * health_interval covers the remaining time.
   */
  lemma PatienceIsExact(cfg: EngineConfig, w: World, deadline: int, c: Component)
    requires 0 <= cfg.healthInterval && c.container in w.running && c.container in w.installed
    ensures cfg.healthAttempts * cfg.healthInterval >= deadline - w.now <==>
      forall oracle | StaysInspectable(oracle, c.container) ::
        var r := WaitHealthy(oracle, cfg, w, deadline, c, cfg.healthAttempts);
        r.1 == Ok(()) || r.0.now >= deadline
  {
    hide WaitHealthy;
    if cfg.healthAttempts * cfg.healthInterval >= deadline - w.now {
      forall oracle | StaysInspectable(oracle, c.container)
        ensures var r := WaitHealthy(oracle, cfg, w, deadline, c, cfg.healthAttempts);
          r.1 == Ok(()) || r.0.now >= deadline
      {
        Patience(oracle, cfg, w, deadline, c, cfg.healthAttempts);
      }
    } else {
      GivesUpEarly(cfg, w, deadline, c, cfg.healthAttempts);
      assert StaysInspectable(NeverHealthy(), c.container);
    }
  }
}
