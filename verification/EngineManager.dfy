/**
 The engine manager: starts, health-checks and stops the containers of one
 service under a deadline. The functions say what each operation does to the
 world; the methods of the class are the operations as they are written.
 */
module Engines {
  import opened Prelude
  import opened Docker
  import P = Protocol
  import L = Leases

  datatype Component = Component(container: string, healthUrl: string)

  const SERVICE_NAMES: seq<string> := ["stt", "tts", "llm", "embeddings", "reranker", "ocr"]

  function Components(service: string): seq<Component> {
    if service == "stt" then [Component("ai-stt", "http://ai-stt:8000/health")]
    else if service == "tts" then [Component("ai-tts", "http://ai-tts:5002/")]
    else if service == "llm" then [Component("ai-llm", "http://ai-llm:8080/health")]
    else if service == "embeddings" then [Component("ai-embeddings", "http://ai-embeddings:8080/health")]
    else if service == "reranker" then [Component("ai-reranker", "http://ai-reranker:8080/health")]
    else if service == "ocr" then
      [Component("ai-ocr-vlm", "http://ai-ocr-vlm:8080/health"),
       Component("ai-ocr-api", "http://ai-ocr-api:8080/health")]
    else []
  }

  predicate HasService(service: string) {
    service in SERVICE_NAMES
  }

  function Names(components: seq<Component>): (names: seq<string>)
    ensures |names| == |components|
    ensures forall i | 0 <= i < |names| :: names[i] == components[i].container
  {
    if components == [] then [] else [components[0].container] + Names(components[1..])
  }

  function Reverse(s: seq<string>): (r: seq<string>)
    ensures |r| == |s| && forall i | 0 <= i < |s| :: r[i] == s[|s| - 1 - i]
  {
    if s == [] then [] else Reverse(s[1..]) + [s[0]]
  }

  /** The names that are not there yet, added at the end. */
  function AddNew(seen: seq<string>, names: seq<string>): seq<string>
    decreases |names|
  {
    if names == [] then seen
    else AddNew(if names[0] in seen then seen else seen + [names[0]], names[1..])
  }

  function Collect(seen: seq<string>, services: seq<string>): seq<string>
    decreases |services|
  {
    if services == [] then seen else Collect(AddNew(seen, Names(Components(services[0]))), services[1..])
  }

  /** Every managed container, each once, in the order of the service table. */
  function Managed(): seq<string> {
    Collect([], SERVICE_NAMES)
  }

  datatype EngineConfig = EngineConfig(healthAttempts: nat, healthInterval: int, cleanup: int)

  datatype Condition = Running | Halted | Missing

  datatype Problem =
    | DeadlineExceeded
    | StateUnknown
    | ContainerMissing
    | Died
    | Unhealthy
    | CommandError
    | StartTimedOut

  // ---- What the operations do ----

  function RunBounded(oracle: Oracle, w: World, deadline: int, cmd: Command, most: int)
    : (World, Result<Reply, Problem>)
  {
    if deadline - w.now <= 0 then (w, Err(DeadlineExceeded))
    else
      var r := Exec(oracle, w, cmd, Min(deadline - w.now, most));
      (r.0, Ok(r.1))
  }

  const COMMAND_TIMEOUT := 10 * L.SECOND
  const HEALTH_TIMEOUT := 6 * L.SECOND

  function InspectState(oracle: Oracle, w: World, deadline: int, container: string)
    : (World, Result<Condition, Problem>)
  {
    var r := RunBounded(oracle, w, deadline, Inspect(container), COMMAND_TIMEOUT);
    (r.0,
     if r.1.Err? then Err(StateUnknown)
     else match r.1.value
       case Output(text) =>
         if text == "true" then Ok(Running) else if text == "false" then Ok(Halted) else Err(StateUnknown)
       case CommandFailed(noSuchObject) => if noSuchObject then Ok(Missing) else Err(StateUnknown)
       case _ => Err(StateUnknown))
  }

  /** One probe, and what follows when it fails; `Ok(true)` is healthy, `Ok(false)` is try again. */
  function Probe(oracle: Oracle, cfg: EngineConfig, w: World, deadline: int, c: Component)
    : (World, Result<bool, Problem>)
  {
    var r := RunBounded(oracle, w, deadline, Curl(c.healthUrl), HEALTH_TIMEOUT);
    if r.1.Ok? && r.1.value.Output? then (r.0, Ok(true))
    else
      var s := InspectState(oracle, r.0, deadline, c.container);
      if s.1.Err? then (s.0, Err(s.1.error))
      else if s.1.value != Running then (s.0, Err(Died))
      else if deadline - s.0.now <= 0 then (s.0, Err(DeadlineExceeded))
      else if cfg.healthInterval == 0 then (s.0, Ok(false))
      else (Slept(oracle, s.0, Min(cfg.healthInterval, deadline - s.0.now)), Ok(false))
  }

  function WaitHealthy(oracle: Oracle, cfg: EngineConfig, w: World, deadline: int, c: Component, attempts: nat)
    : (World, Result<(), Problem>)
    decreases attempts
  {
    if attempts == 0 then (w, Err(Unhealthy))
    else
      var r := Probe(oracle, cfg, w, deadline, c);
      if r.1.Err? then (r.0, Err(r.1.error))
      else if r.1.value then (r.0, Ok(()))
      else WaitHealthy(oracle, cfg, r.0, deadline, c, attempts - 1)
  }

  /** Brings one container up, without waiting for its health. */
  function BringUp(oracle: Oracle, w: World, deadline: int, container: string): (World, Result<(), Problem>) {
    var s := InspectState(oracle, w, deadline, container);
    if s.1.Err? then (s.0, Err(s.1.error))
    else match s.1.value
      case Missing => (s.0, Err(ContainerMissing))
      case Running => (s.0, Ok(()))
      case Halted =>
        var r := RunBounded(oracle, s.0, deadline, Start(container), COMMAND_TIMEOUT);
        (r.0,
         if r.1.Err? then Err(r.1.error)
         else match r.1.value
           case Output(_) => Ok(())
           case CommandTimeout => Err(StartTimedOut)
           case _ => Err(CommandError))
  }

  function StartComponents(oracle: Oracle, cfg: EngineConfig, w: World, deadline: int, components: seq<Component>)
    : (World, Result<(), Problem>)
    decreases |components|
  {
    if components == [] then (w, Ok(()))
    else
      var up := BringUp(oracle, w, deadline, components[0].container);
      if up.1.Err? then up
      else
        var healthy := WaitHealthy(oracle, cfg, up.0, deadline, components[0], cfg.healthAttempts);
        if healthy.1.Err? then healthy
        else StartComponents(oracle, cfg, healthy.0, deadline, components[1..])
  }

  /** Stops one container and verifies it; the flag says whether that is certain. */
  function StopOne(oracle: Oracle, w: World, deadline: int, container: string): (World, bool) {
    var s := InspectState(oracle, w, deadline, container);
    if s.1.Err? then (s.0, false)
    else if s.1.value != Running then (s.0, true)
    else
      var r := RunBounded(oracle, s.0, deadline, Stop(container), deadline - s.0.now);
      if r.1.Err? || !r.1.value.Output? then (r.0, false)
      else
        var v := InspectState(oracle, r.0, deadline, container);
        (v.0, v.1.Ok? && v.1.value != Running)
  }

  /** Every container is attempted; the result lists those that are uncertain. */
  function StopAll(oracle: Oracle, w: World, deadline: int, containers: seq<string>): (World, seq<string>)
    decreases |containers|
  {
    if containers == [] then (w, [])
    else
      var one := StopOne(oracle, w, deadline, containers[0]);
      var rest := StopAll(oracle, one.0, deadline, containers[1..]);
      (rest.0, (if one.1 then [] else [containers[0]]) + rest.1)
  }

  const CLEANUP_MESSAGE := "engine cleanup could not be verified"

  function StopContainers(oracle: Oracle, w: World, containers: seq<string>, timeout: int): (World, P.StopOutcome) {
    var r := StopAll(oracle, w, w.now + timeout, containers);
    (r.0, if r.1 == [] then P.Stopped else P.StopFailed(CLEANUP_MESSAGE))
  }

  function StopService(oracle: Oracle, w: World, service: string, timeout: int): (World, P.StopOutcome) {
    if !HasService(service) then (w, P.StopFailed("Unknown service"))
    else StopContainers(oracle, w, Reverse(Names(Components(service))), timeout)
  }

  function ReconcileAll(oracle: Oracle, w: World, timeout: int): (World, P.StopOutcome) {
    StopContainers(oracle, w, Reverse(Managed()), timeout)
  }

  function StartService(oracle: Oracle, cfg: EngineConfig, w: World, service: string, timeout: int)
    : (World, P.StartOutcome)
  {
    if !HasService(service) then (w, P.StartFailed("Unknown service"))
    else
      var up := StartComponents(oracle, cfg, w, w.now + timeout, Components(service));
      if up.1.Ok? then (up.0, P.Started)
      else
        var down := StopService(oracle, up.0, service, cfg.cleanup);
        (down.0,
         if down.1 != P.Stopped then P.Uncertain("startup failed; cleanup also failed")
         else if up.1.error == StartTimedOut then P.Uncertain("docker start timed out")
         else P.StartFailed("startup failed"))
  }

  // ---- The operations as they are written ----

  class EngineManager {
    const runner: Runner
    const cfg: EngineConfig

    constructor (runner: Runner, cfg: EngineConfig)
      ensures this.runner == runner && this.cfg == cfg
    {
      this.runner, this.cfg := runner, cfg;
    }

    method Remaining(deadline: int) returns (r: Result<int, Problem>)
      ensures r == if deadline - runner.world.now <= 0 then Err(DeadlineExceeded) else Ok(deadline - runner.world.now)
    {
      var remaining := deadline - runner.world.now;
      if remaining <= 0 {
        return Err(DeadlineExceeded);
      }
      r := Ok(remaining);
    }

    method Run(deadline: int, cmd: Command, most: int) returns (r: Result<Reply, Problem>)
      modifies runner
      ensures (runner.world, r) == RunBounded(runner.oracle, old(runner.world), deadline, cmd, most)
    {
      var remaining := Remaining(deadline);
      if remaining.Err? {
        return Err(remaining.error);
      }
      var reply := runner.Run(cmd, Min(remaining.value, most));
      r := Ok(reply);
    }

    method Inspect(container: string, deadline: int) returns (r: Result<Condition, Problem>)
      modifies runner
      ensures (runner.world, r) == InspectState(runner.oracle, old(runner.world), deadline, container)
    {
      var reply := Run(deadline, Command.Inspect(container), COMMAND_TIMEOUT);
      if reply.Err? {
        return Err(StateUnknown);
      }
      match reply.value
      case CommandFailed(noSuchObject) => r := if noSuchObject then Ok(Missing) else Err(StateUnknown);
      case Output(text) =>
        if text == "true" {
          r := Ok(Running);
        } else if text == "false" {
          r := Ok(Halted);
        } else {
          r := Err(StateUnknown);
        }
      case _ => r := Err(StateUnknown);
    }

    method ProbeOnce(c: Component, deadline: int) returns (r: Result<bool, Problem>)
      modifies runner
      ensures (runner.world, r) == Probe(runner.oracle, cfg, old(runner.world), deadline, c)
    {
      var reply := Run(deadline, Curl(c.healthUrl), HEALTH_TIMEOUT);
      if reply.Ok? && reply.value.Output? {
        return Ok(true);
      }
      var state := Inspect(c.container, deadline);
      if state.Err? {
        return Err(state.error);
      }
      if state.value != Running {
        return Err(Died);
      }
      var remaining := Remaining(deadline);
      if remaining.Err? {
        return Err(remaining.error);
      }
      if cfg.healthInterval != 0 {
        runner.Sleep(Min(cfg.healthInterval, remaining.value));
      }
      r := Ok(false);
    }

    method WaitUntilHealthy(c: Component, deadline: int) returns (r: Result<(), Problem>)
      modifies runner
      ensures (runner.world, r)
        == WaitHealthy(runner.oracle, cfg, old(runner.world), deadline, c, cfg.healthAttempts)
    {
      hide Probe;
      for attempt := 0 to cfg.healthAttempts
        invariant WaitHealthy(runner.oracle, cfg, runner.world, deadline, c, cfg.healthAttempts - attempt)
          == WaitHealthy(runner.oracle, cfg, old(runner.world), deadline, c, cfg.healthAttempts)
      {
        var probe := ProbeOnce(c, deadline);
        if probe.Err? {
          return Err(probe.error);
        }
        if probe.value {
          return Ok(());
        }
      }
      r := Err(Unhealthy);
    }

    method BringUpOne(container: string, deadline: int) returns (r: Result<(), Problem>)
      modifies runner
      ensures (runner.world, r) == BringUp(runner.oracle, old(runner.world), deadline, container)
    {
      var state := Inspect(container, deadline);
      if state.Err? {
        return Err(state.error);
      }
      if state.value == Missing {
        return Err(ContainerMissing);
      }
      if state.value == Halted {
        var reply := Run(deadline, Command.Start(container), COMMAND_TIMEOUT);
        if reply.Err? {
          return Err(reply.error);
        }
        if !reply.value.Output? {
          return Err(if reply.value.CommandTimeout? then StartTimedOut else CommandError);
        }
      }
      r := Ok(());
    }

    /** The body of the `try` in `start`. */
    method StartEach(service: string, deadline: int) returns (r: Result<(), Problem>)
      modifies runner
      ensures (runner.world, r)
        == StartComponents(runner.oracle, cfg, old(runner.world), deadline, Components(service))
    {
      hide Components, BringUp, WaitHealthy;
      var components := Components(service);
      for i := 0 to |components|
        invariant StartComponents(runner.oracle, cfg, runner.world, deadline, components[i..])
          == StartComponents(runner.oracle, cfg, old(runner.world), deadline, components)
      {
        var up := BringUpOne(components[i].container, deadline);
        if up.Err? {
          return Err(up.error);
        }
        var healthy := WaitUntilHealthy(components[i], deadline);
        if healthy.Err? {
          return Err(healthy.error);
        }
        assert components[i..][1..] == components[i + 1..];
      }
      r := Ok(());
    }

    method Start(service: string, timeout: int) returns (outcome: P.StartOutcome)
      modifies runner
      ensures (runner.world, outcome) == StartService(runner.oracle, cfg, old(runner.world), service, timeout)
    {
      hide Components, StartComponents, StopService, HasService;
      if !HasService(service) {
        return P.StartFailed("Unknown service");
      }
      var deadline := runner.world.now + timeout;
      var up := StartEach(service, deadline);
      if up.Ok? {
        return P.Started;
      }
      var down := Stop(service, cfg.cleanup);
      if down != P.Stopped {
        return P.Uncertain("startup failed; cleanup also failed");
      }
      if up.error == StartTimedOut {
        return P.Uncertain("docker start timed out");
      }
      outcome := P.StartFailed("startup failed");
    }

    method Stop(service: string, timeout: int) returns (outcome: P.StopOutcome)
      modifies runner
      ensures (runner.world, outcome) == StopService(runner.oracle, old(runner.world), service, timeout)
    {
      hide Components, StopAll, Reverse, Names, HasService;
      if !HasService(service) {
        return P.StopFailed("Unknown service");
      }
      var deadline := runner.world.now + timeout;
      outcome := StopComponents(Reverse(Names(Components(service))), deadline);
    }

    /** The two loops over the service table. */
    method CollectManaged() returns (containers: seq<string>)
      ensures containers == Managed()
    {
      hide Components, Names, SERVICE_NAMES;
      containers := [];
      for i := 0 to |SERVICE_NAMES|
        invariant Collect(containers, SERVICE_NAMES[i..]) == Managed()
      {
        var names := Names(Components(SERVICE_NAMES[i]));
        ghost var before := containers;
        for j := 0 to |names|
          invariant AddNew(containers, names[j..]) == AddNew(before, names)
        {
          assert names[j..][1..] == names[j + 1..];
          if names[j] !in containers {
            containers := containers + [names[j]];
          }
        }
        assert SERVICE_NAMES[i..][1..] == SERVICE_NAMES[i + 1..];
      }
    }

    /** Stops every managed container, in reverse order of the service table. */
    method Reconcile(timeout: int) returns (outcome: P.StopOutcome)
      modifies runner
      ensures (runner.world, outcome) == ReconcileAll(runner.oracle, old(runner.world), timeout)
    {
      hide StopAll, Reverse, Managed;
      var deadline := runner.world.now + timeout;
      var containers := CollectManaged();
      outcome := StopComponents(Reverse(containers), deadline);
    }

    method StopComponents(containers: seq<string>, deadline: int) returns (outcome: P.StopOutcome)
      modifies runner
      ensures var r := StopAll(runner.oracle, old(runner.world), deadline, containers);
        runner.world == r.0 && outcome == if r.1 == [] then P.Stopped else P.StopFailed(CLEANUP_MESSAGE)
    {
      hide StopOne;
      var errors: seq<string> := [];
      ghost var whole := StopAll(runner.oracle, runner.world, deadline, containers);
      for i := 0 to |containers|
        invariant var rest := StopAll(runner.oracle, runner.world, deadline, containers[i..]);
          whole.0 == rest.0 && whole.1 == errors + rest.1
      {
        assert containers[i..][1..] == containers[i + 1..];
        var certain := StopVerified(containers[i], deadline);
        errors := errors + if certain then [] else [containers[i]];
      }
      outcome := if errors == [] then P.Stopped else P.StopFailed(CLEANUP_MESSAGE);
    }

    method StopVerified(container: string, deadline: int) returns (certain: bool)
      modifies runner
      ensures (runner.world, certain) == StopOne(runner.oracle, old(runner.world), deadline, container)
    {
      var state := Inspect(container, deadline);
      if state.Err? {
        return false;
      }
      if state.value != Running {
        return true;
      }
      var reply := Run(deadline, Command.Stop(container), deadline - runner.world.now);
      if reply.Err? || !reply.value.Output? {
        return false;
      }
      state := Inspect(container, deadline);
      certain := state.Ok? && state.value != Running;
    }
  }
}
