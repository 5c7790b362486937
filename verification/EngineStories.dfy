/**
 What the engine operations have their runner do, told by the log of commands
 alone: which commands were run, in which order, with which limits, and how
 their answers decide the outcome. Nothing here says how the operations are
 written.
 */
module EngineStories {
  import opened Prelude
  import opened Docker
  import opened Engines
  import opened EngineProofs
  import opened LoneService
  import P = Protocol

  // ---- Limits ----

  const MICROSECONDS := 1_000_000

  /** No command is run after the deadline. Inspections and starts get ten seconds, health checks
      six, stops all that is left, and none gets more than what is left. */
  predicate Timely(e: Executed, deadline: int) {
    && e.at < deadline
    && e.limit == match e.cmd
         case Curl(_) => Min(deadline - e.at, 6 * MICROSECONDS)
         case Stop(_) => deadline - e.at
         case _ => Min(deadline - e.at, 10 * MICROSECONDS)
  }

  /** Somebody may answer at the address. */
  ghost predicate Answers(oracle: Oracle, url: string) {
    exists k: nat :: oracle(k, Curl(url)).luck == Works || oracle(k, Curl(url)).luck == Garbled
  }

  /** What is found running runs, what was started runs, what is missing or halted does not; and a health check
      that works was answered. */
  ghost predicate Honest(oracle: Oracle, e: Executed) {
    match e.cmd
    case Inspect(c) =>
      (e.reply == Output("true") ==> c in e.running) && (e.reply == Output("false") ==> c !in e.running)
    case Start(c) => e.reply.Output? ==> c in e.running
    case Curl(url) => e.reply.Output? ==> Answers(oracle, url)
    case _ => true
  }

  /** The commands told are what was run between the two worlds, each within its limit. */
  ghost predicate Tells(oracle: Oracle, told: seq<Executed>, w: World, w': World, deadline: int) {
    w'.log == w.log + told && w.now <= w'.now && forall e | e in told :: Timely(e, deadline) && Honest(oracle, e)
  }

  // ---- What an answer means ----

  predicate FoundRunning(e: Executed, container: string) {
    e.cmd == Inspect(container) && e.reply == Output("true")
  }

  predicate FoundHalted(e: Executed, container: string) {
    e.cmd == Inspect(container) && e.reply == Output("false")
  }

  predicate FoundDown(e: Executed, container: string) {
    FoundHalted(e, container) || (e.cmd == Inspect(container) && e.reply == CommandFailed(true))
  }

  predicate Worked(e: Executed, cmd: Command) {
    e.cmd == cmd && e.reply.Output?
  }

  // ---- A component that comes up ----

  /** Health checks that end well: each one that failed was followed by the sight of the container running. */
  predicate Healthy(told: seq<Executed>, c: Component)
    decreases |told|
  {
    && told != [] && told[0].cmd == Curl(c.healthUrl)
    && if told[0].reply.Output? then |told| == 1
       else |told| >= 2 && FoundRunning(told[1], c.container) && Healthy(told[2..], c)
  }

  /** The container was running, or was halted and then started; then it became healthy. */
  predicate Brought(told: seq<Executed>, c: Component) {
    && told != []
    && if FoundHalted(told[0], c.container)
       then |told| >= 2 && Worked(told[1], Start(c.container)) && Healthy(told[2..], c)
       else FoundRunning(told[0], c.container) && Healthy(told[1..], c)
  }

  /** One component after the other. */
  ghost predicate AllBrought(told: seq<Executed>, cs: seq<Component>)
    decreases |cs|
  {
    if cs == [] then told == []
    else exists k | 0 <= k <= |told| :: Brought(told[..k], cs[0]) && AllBrought(told[k..], cs[1..])
  }

  // ---- A component that does not ----

  /** Health checks that end badly: no time is left, no attempt is left, or the container is not seen running. */
  predicate Unwell(told: seq<Executed>, c: Component, attempts: int, over: bool)
    decreases |told|
  {
    if attempts <= 0 then told == []
    else if told == [] then over
    else
      && told[0].cmd == Curl(c.healthUrl) && !told[0].reply.Output?
      && if |told| == 1 then over
         else
           && told[1].cmd == Inspect(c.container)
           && if FoundRunning(told[1], c.container)
              then (|told| == 2 && over) || Unwell(told[2..], c, attempts - 1, over)
              else |told| == 2
  }

  /** The container is missing or its state unknown, or it cannot be started, or it never becomes healthy. */
  predicate Fruitless(told: seq<Executed>, c: Component, attempts: int, over: bool) {
    if told == [] then over
    else
      && told[0].cmd == Inspect(c.container)
      && if FoundRunning(told[0], c.container) then Unwell(told[1..], c, attempts, over)
         else if !FoundHalted(told[0], c.container) then |told| == 1
         else if |told| == 1 then over
         else
           && told[1].cmd == Start(c.container)
           && if told[1].reply.Output? then Unwell(told[2..], c, attempts, over) else |told| == 2
  }

  /** Some component does not come up, and those before it do. */
  ghost predicate SomeFruitless(told: seq<Executed>, cs: seq<Component>, attempts: int, over: bool)
    decreases |cs|
  {
    && cs != []
    && (Fruitless(told, cs[0], attempts, over)
        || exists k | 0 <= k <= |told| ::
             Brought(told[..k], cs[0]) && SomeFruitless(told[k..], cs[1..], attempts, over))
  }

  /** The last command was a `docker start` that timed out: it may still take effect. */
  predicate EndsInDoubt(told: seq<Executed>) {
    told != [] && told[|told| - 1].cmd.Start? && told[|told| - 1].reply == CommandTimeout
  }

  // ---- A container that is stopped ----

  /** It is inspected; if it runs it is stopped and inspected again. The stop is
      certain exactly if the last word is that it is down. Nothing is left out but for want of time. */
  predicate StopTried(told: seq<Executed>, container: string, certain: bool, over: bool) {
    if told == [] then over && !certain
    else
      && told[0].cmd == Inspect(container)
      && if !FoundRunning(told[0], container) then |told| == 1 && certain == FoundDown(told[0], container)
         else if |told| == 1 then over && !certain
         else
           && told[1].cmd == Stop(container)
           && if !told[1].reply.Output? then |told| == 2 && !certain
              else if |told| == 2 then over && !certain
              else |told| == 3 && told[2].cmd == Inspect(container) && certain == FoundDown(told[2], container)
  }

  /** Each container is tried, in this order, whatever came of the others; `doubtful` are the uncertain ones. */
  ghost predicate AllTried(told: seq<Executed>, containers: seq<string>, doubtful: seq<string>, over: bool)
    decreases |containers|
  {
    if containers == [] then told == [] && doubtful == []
    else
      exists k, certain | 0 <= k <= |told| ::
        && StopTried(told[..k], containers[0], certain, over)
        && (certain || (doubtful != [] && doubtful[0] == containers[0]))
        && AllTried(told[k..], containers[1..], if certain then doubtful else doubtful[1..], over)
  }

  // ---- The steps tell their stories ----

  lemma NothingTold(oracle: Oracle, w: World, deadline: int)
    ensures Tells(oracle, [], w, w, deadline) && !EndsInDoubt([])
  {
  }

  lemma TellsOn(oracle: Oracle, one: seq<Executed>, rest: seq<Executed>, w: World, w1: World, w2: World, deadline: int)
    requires Tells(oracle, one, w, w1, deadline) && Tells(oracle, rest, w1, w2, deadline)
    ensures Tells(oracle, one + rest, w, w2, deadline)
    ensures EndsInDoubt(one + rest) <==> if rest == [] then EndsInDoubt(one) else EndsInDoubt(rest)
  {
    assert rest == [] ==> one + rest == one;
    assert w.log + (one + rest) == (w.log + one) + rest;
  }

  lemma ExecIsHonest(oracle: Oracle, w: World, cmd: Command, timeout: int)
    ensures var r := Exec(oracle, w, cmd, timeout);
      && |r.0.log| == |w.log| + 1 && Honest(oracle, r.0.log[|w.log|])
  {
    assert oracle(w.commands, cmd) == oracle(w.commands, cmd);
  }

  lemma RunTells(oracle: Oracle, w: World, deadline: int, cmd: Command, most: int) returns (told: seq<Executed>)
    requires most == match cmd
      case Curl(_) => 6 * MICROSECONDS
      case Stop(_) => deadline - w.now
      case _ => 10 * MICROSECONDS
    ensures var r := RunBounded(oracle, w, deadline, cmd, most);
      && Tells(oracle, told, w, r.0, deadline)
      && (told == [] <==> w.now >= deadline)
      && (if r.1.Err? then told == [] && r.0.now >= deadline && r.1.error == DeadlineExceeded
          else |told| == 1 && told[0].cmd == cmd && told[0].reply == r.1.value)
  {
    if deadline - w.now <= 0 {
      told := [];
    } else {
      told := [Exec(oracle, w, cmd, Min(deadline - w.now, most)).0.log[|w.log|]];
      ExecIsHonest(oracle, w, cmd, Min(deadline - w.now, most));
    }
  }

  lemma InspectTells(oracle: Oracle, w: World, deadline: int, container: string) returns (told: seq<Executed>)
    ensures var r := InspectState(oracle, w, deadline, container);
      && Tells(oracle, told, w, r.0, deadline)
      && (told == [] <==> w.now >= deadline)
      && (if told == [] then r.0.now >= deadline && r.1 == Err(StateUnknown)
          else
            && |told| == 1 && told[0].cmd == Inspect(container)
            && (r.1 == Ok(Running) <==> FoundRunning(told[0], container))
            && (r.1 == Ok(Halted) <==> FoundHalted(told[0], container))
            && (r.1.Ok? && r.1.value != Running <==> FoundDown(told[0], container))
            && (r.1.Err? ==> r.1.error == StateUnknown))
  {
    told := RunTells(oracle, w, deadline, Inspect(container), COMMAND_TIMEOUT);
    hide RunBounded;
  }

  lemma ProbeTells(oracle: Oracle, cfg: EngineConfig, w: World, deadline: int, c: Component, attempts: nat)
    returns (told: seq<Executed>)
    requires 0 < attempts
    ensures var r := Probe(oracle, cfg, w, deadline, c);
      && Tells(oracle, told, w, r.0, deadline)
      && (r.1 == Ok(true) ==> |told| == 1 && Worked(told[0], Curl(c.healthUrl)))
      && (r.1 == Ok(false) ==>
            && |told| == 2 && told[0].cmd == Curl(c.healthUrl) && !told[0].reply.Output?
            && FoundRunning(told[1], c.container))
      && (r.1.Err? ==> r.1.error != StartTimedOut && Unwell(told, c, attempts, r.0.now >= deadline))
  {
    hide RunBounded, InspectState;
    var probe := RunTells(oracle, w, deadline, Curl(c.healthUrl), HEALTH_TIMEOUT);
    var r := RunBounded(oracle, w, deadline, Curl(c.healthUrl), HEALTH_TIMEOUT);
    if r.1.Ok? && r.1.value.Output? {
      told := probe;
    } else {
      var look := InspectTells(oracle, r.0, deadline, c.container);
      told := probe + look;
      assert probe != [] ==> told[0] == probe[0];
      assert probe != [] && look != [] ==> told[1] == look[0];
    }
  }

  lemma {:induction false} WaitTells(oracle: Oracle, cfg: EngineConfig, w: World, deadline: int, c: Component,
                                     attempts: nat)
    returns (told: seq<Executed>)
    ensures var r := WaitHealthy(oracle, cfg, w, deadline, c, attempts);
      && Tells(oracle, told, w, r.0, deadline)
      && (r.1.Ok? ==> Healthy(told, c) && |told| < 2 * attempts)
      && (r.1.Err? ==> r.1.error != StartTimedOut && Unwell(told, c, attempts, r.0.now >= deadline))
    decreases attempts
  {
    hide Probe;
    if attempts == 0 {
      told := [];
    } else {
      var first := ProbeTells(oracle, cfg, w, deadline, c, attempts);
      var p := Probe(oracle, cfg, w, deadline, c);
      if p.1 == Ok(false) {
        var rest := WaitTells(oracle, cfg, p.0, deadline, c, attempts - 1);
        told := first + rest;
        assert told[2..] == rest;
      } else {
        told := first;
      }
    }
  }

  lemma BringUpTells(oracle: Oracle, w: World, deadline: int, container: string) returns (told: seq<Executed>)
    ensures var r := BringUp(oracle, w, deadline, container);
      && Tells(oracle, told, w, r.0, deadline)
      && (r.1.Ok? ==>
            || (|told| == 1 && FoundRunning(told[0], container))
            || (|told| == 2 && FoundHalted(told[0], container) && Worked(told[1], Start(container))))
      && (r.1.Err? ==>
            && (r.1.error == StartTimedOut <==> EndsInDoubt(told))
            && if told == [] then r.0.now >= deadline
               else
                 && told[0].cmd == Inspect(container) && !FoundRunning(told[0], container)
                 && if |told| == 1 then !FoundHalted(told[0], container) || r.0.now >= deadline
                    else
                      && |told| == 2 && FoundHalted(told[0], container)
                      && told[1].cmd == Start(container) && !told[1].reply.Output?)
  {
    hide RunBounded, InspectState;
    told := InspectTells(oracle, w, deadline, container);
    var s := InspectState(oracle, w, deadline, container);
    if s.1 == Ok(Halted) {
      var start := RunTells(oracle, s.0, deadline, Start(container), COMMAND_TIMEOUT);
      told := told + start;
    }
  }

  /** One component: brought up, and waited for. */
  lemma OneTells(oracle: Oracle, cfg: EngineConfig, w: World, deadline: int, c: Component) returns (told: seq<Executed>)
    ensures var up := BringUp(oracle, w, deadline, c.container);
      var r := if up.1.Err? then up else WaitHealthy(oracle, cfg, up.0, deadline, c, cfg.healthAttempts);
      && Tells(oracle, told, w, r.0, deadline)
      && (r.1.Ok? ==> Brought(told, c) && !EndsInDoubt(told))
      && (r.1.Err? ==>
            && Fruitless(told, c, cfg.healthAttempts, r.0.now >= deadline)
            && (r.1.error == StartTimedOut <==> EndsInDoubt(told)))
  {
    hide BringUp, WaitHealthy, Healthy, Unwell;
    told := BringUpTells(oracle, w, deadline, c.container);
    var up := BringUp(oracle, w, deadline, c.container);
    if up.1.Ok? {
      var wait := WaitTells(oracle, cfg, up.0, deadline, c, cfg.healthAttempts);
      var healthy := WaitHealthy(oracle, cfg, up.0, deadline, c, cfg.healthAttempts);
      if healthy.1.Ok? {
        HealthyNoDoubt(wait, c);
      } else {
        NoDoubt(wait, c, cfg.healthAttempts, healthy.0.now >= deadline);
      }
      var one := told + wait;
      assert one[|told|..] == wait && one[0] == told[0];
      told := one;
    }
  }

  lemma {:induction false} HealthyNoDoubt(told: seq<Executed>, c: Component)
    requires Healthy(told, c)
    ensures !EndsInDoubt(told)
    decreases |told|
  {
    if |told| > 1 {
      HealthyNoDoubt(told[2..], c);
    }
  }

  lemma {:induction false} StartTells(oracle: Oracle, cfg: EngineConfig, w: World, deadline: int, cs: seq<Component>)
    returns (told: seq<Executed>)
    ensures var r := StartComponents(oracle, cfg, w, deadline, cs);
      && Tells(oracle, told, w, r.0, deadline)
      && (r.1.Ok? ==> AllBrought(told, cs) && !EndsInDoubt(told))
      && (r.1.Err? ==>
            && SomeFruitless(told, cs, cfg.healthAttempts, r.0.now >= deadline)
            && (r.1.error == StartTimedOut <==> EndsInDoubt(told)))
    decreases |cs|
  {
    hide BringUp, WaitHealthy, Brought, Fruitless, EndsInDoubt, Tells;
    NothingTold(oracle, w, deadline);
    if cs == [] {
      told := [];
    } else {
      told := OneTells(oracle, cfg, w, deadline, cs[0]);
      var up := BringUp(oracle, w, deadline, cs[0].container);
      var healthy := WaitHealthy(oracle, cfg, up.0, deadline, cs[0], cfg.healthAttempts);
      if up.1.Ok? && healthy.1.Ok? {
        var one := told;
        var rest := StartTells(oracle, cfg, healthy.0, deadline, cs[1..]);
        told := one + rest;
        var last := StartComponents(oracle, cfg, healthy.0, deadline, cs[1..]);
        TellsOn(oracle, one, rest, w, healthy.0, last.0, deadline);
        assert told[..|one|] == one && told[|one|..] == rest;
      }
    }
  }

  lemma {:induction false} NoDoubt(told: seq<Executed>, c: Component, attempts: int, over: bool)
    requires Unwell(told, c, attempts, over)
    ensures !EndsInDoubt(told)
    decreases |told|
  {
    if |told| > 2 {
      NoDoubt(told[2..], c, attempts - 1, over);
    }
  }

  // ---- Stopping ----

  lemma StopOneTells(oracle: Oracle, w: World, deadline: int, container: string) returns (told: seq<Executed>)
    ensures var r := StopOne(oracle, w, deadline, container);
      Tells(oracle, told, w, r.0, deadline) && StopTried(told, container, r.1, r.0.now >= deadline)
  {
    hide RunBounded, InspectState;
    told := InspectTells(oracle, w, deadline, container);
    var s := InspectState(oracle, w, deadline, container);
    if s.1 == Ok(Running) {
      var stop := RunTells(oracle, s.0, deadline, Stop(container), deadline - s.0.now);
      var r := RunBounded(oracle, s.0, deadline, Stop(container), deadline - s.0.now);
      var first := told;
      told := told + stop;
      if r.1.Ok? && r.1.value.Output? {
        var look := InspectTells(oracle, r.0, deadline, container);
        assert look != [] ==> (told + look)[2] == look[0];
        told := told + look;
      }
      assert told[0] == first[0] && (stop != [] ==> told[1] == stop[0]);
    }
  }

  /** The time that was over for one container is over in the end. */
  lemma OverStays(told: seq<Executed>, container: string, certain: bool, over: bool, later: bool)
    requires StopTried(told, container, certain, over) && (over ==> later)
    ensures StopTried(told, container, certain, later)
  {
  }

  lemma {:induction false} StopTells(oracle: Oracle, w: World, deadline: int, containers: seq<string>)
    returns (told: seq<Executed>)
    ensures var r := StopAll(oracle, w, deadline, containers);
      && Tells(oracle, told, w, r.0, deadline) && AllTried(told, containers, r.1, r.0.now >= deadline)
    decreases |containers|
  {
    hide StopOne, StopTried, Tells;
    if containers == [] {
      told := [];
      NothingTold(oracle, w, deadline);
    } else {
      var one := StopOneTells(oracle, w, deadline, containers[0]);
      var first := StopOne(oracle, w, deadline, containers[0]);
      var rest := StopTells(oracle, first.0, deadline, containers[1..]);
      var last := StopAll(oracle, first.0, deadline, containers[1..]);
      told := one + rest;
      TellsOn(oracle, one, rest, w, first.0, last.0, deadline);
      LaterIs(oracle, rest, first.0, last.0, deadline);
      OverStays(one, containers[0], first.1, first.0.now >= deadline, last.0.now >= deadline);
      assert told[..|one|] == one && told[|one|..] == rest;
      ghost var doubtful := (if first.1 then [] else [containers[0]]) + last.1;
      assert !first.1 ==> doubtful[1..] == last.1;
      assert first.1 ==> doubtful == last.1;
    }
  }

  lemma LaterIs(oracle: Oracle, told: seq<Executed>, w: World, w': World, deadline: int)
    requires Tells(oracle, told, w, w', deadline)
    ensures w.now <= w'.now
  {
  }

  /** The containers of a service, last one first. */
  predicate LastFirst(service: string, containers: seq<string>) {
    var cs := Components(service);
    |containers| == |cs| && forall i | 0 <= i < |cs| :: containers[i] == cs[|cs| - 1 - i].container
  }

  /**
   The whole story of `stop`: every container of the service is tried, the last
   one first, and it reports success exactly if every one of them is certainly down.
   */
  lemma StopIsTold(oracle: Oracle, w: World, service: string, timeout: int)
    returns (told: seq<Executed>, containers: seq<string>, doubtful: seq<string>)
    requires HasService(service)
    ensures var r := StopService(oracle, w, service, timeout);
      && Tells(oracle, told, w, r.0, w.now + timeout) && LastFirst(service, containers)
      && AllTried(told, containers, doubtful, r.0.now >= w.now + timeout)
      && (r.1 == P.Stopped <==> doubtful == [])
  {
    hide StopAll, Components, HasService;
    containers := Reverse(Names(Components(service)));
    told := StopTells(oracle, w, w.now + timeout, containers);
    doubtful := StopAll(oracle, w, w.now + timeout, containers).1;
  }

  const EVERY_CONTAINER: seq<string> :=
    ["ai-ocr-api", "ai-ocr-vlm", "ai-reranker", "ai-embeddings", "ai-llm", "ai-tts", "ai-stt"]

  lemma AddOne(seen: seq<string>, name: string)
    requires name !in seen
    ensures AddNew(seen, [name]) == seen + [name]
  {
    assert [name][1..] == [];
    assert AddNew(seen + [name], []) == seen + [name];
  }

  lemma CollectOne(seen: seq<string>, service: string, container: string, rest: seq<string>)
    requires Names(Components(service)) == [container] && container !in seen
    ensures Collect(seen, [service] + rest) == Collect(seen + [container], rest)
  {
    AddOne(seen, container);
    hide Components, Names, AddNew;
    assert ([service] + rest)[1..] == rest && ([service] + rest)[0] == service;
  }

  lemma CollectLast(seen: seq<string>)
    requires "ai-ocr-vlm" !in seen && "ai-ocr-api" !in seen
    ensures Collect(seen, ["ocr"]) == seen + ["ai-ocr-vlm", "ai-ocr-api"]
  {
    var names := Names(Components("ocr"));
    assert names == ["ai-ocr-vlm", "ai-ocr-api"];
    hide Components, Names;
    AddOne(seen + ["ai-ocr-vlm"], "ai-ocr-api");
    assert names[1..] == ["ai-ocr-api"];
    assert seen + ["ai-ocr-vlm"] + ["ai-ocr-api"] == seen + ["ai-ocr-vlm", "ai-ocr-api"];
    assert AddNew(seen, names) == AddNew(seen + ["ai-ocr-vlm"], names[1..]);
    hide AddNew;
    assert ["ocr"][1..] == [];
  }

  lemma SingleContainers()
    ensures Names(Components("stt")) == ["ai-stt"] && Names(Components("tts")) == ["ai-tts"]
    ensures Names(Components("llm")) == ["ai-llm"] && Names(Components("embeddings")) == ["ai-embeddings"]
    ensures Names(Components("reranker")) == ["ai-reranker"]
  {
  }

  const IN_ORDER: seq<string> := ["ai-stt", "ai-tts", "ai-llm", "ai-embeddings", "ai-reranker"]

  lemma ManagedInOrder()
    ensures Managed() == IN_ORDER + ["ai-ocr-vlm", "ai-ocr-api"]
  {
    hide Collect, AddNew, Names, Components;
    SingleContainers();
    var all := IN_ORDER;
    var s4 := ["reranker"] + ["ocr"];
    var s3 := ["embeddings"] + s4;
    var s2 := ["llm"] + s3;
    var s1 := ["tts"] + s2;
    assert SERVICE_NAMES == ["stt"] + s1;
    assert all[..1] == [] + ["ai-stt"] && all[..2] == all[..1] + ["ai-tts"] && all[..3] == all[..2] + ["ai-llm"];
    assert all[..4] == all[..3] + ["ai-embeddings"] && all == all[..4] + ["ai-reranker"];
    hide SERVICE_NAMES;
    CollectOne([], "stt", "ai-stt", s1);
    CollectOne(all[..1], "tts", "ai-tts", s2);
    CollectOne(all[..2], "llm", "ai-llm", s3);
    CollectOne(all[..3], "embeddings", "ai-embeddings", s4);
    CollectOne(all[..4], "reranker", "ai-reranker", ["ocr"]);
    CollectLast(all);
  }

  lemma EveryContainerIsManaged()
    ensures Reverse(Managed()) == EVERY_CONTAINER
  {
    hide Managed, Reverse;
    ManagedInOrder();
    var r := Reverse(Managed());
    assert r == [r[0], r[1], r[2], r[3], r[4], r[5], r[6]];
  }

  /** The whole story of `reconcile`: each of the seven containers is tried, in this order. */
  lemma ReconcileIsTold(oracle: Oracle, w: World, timeout: int) returns (told: seq<Executed>, doubtful: seq<string>)
    ensures var r := ReconcileAll(oracle, w, timeout);
      && Tells(oracle, told, w, r.0, w.now + timeout)
      && AllTried(told, EVERY_CONTAINER, doubtful, r.0.now >= w.now + timeout)
      && (r.1 == P.Stopped <==> doubtful == [])
  {
    hide StopAll, StopOne, StopTried, AllTried, Tells, Reverse, Managed, EVERY_CONTAINER;
    EveryContainerIsManaged();
    told := StopTells(oracle, w, w.now + timeout, EVERY_CONTAINER);
    doubtful := StopAll(oracle, w, w.now + timeout, EVERY_CONTAINER).1;
  }

  /**
   The whole story of `start`. It reports success exactly when every component,
   one after the other, was brought up and answered its own health check.
   Otherwise some component was fruitless for one of the reasons given; then every
   container of the service is tried to be stopped, last one first, under a
   deadline of its own; and the outcome is uncertain exactly if one of them is not
   certainly down or the last command of the attempt was a start that timed out.
   */
  lemma StartIsTold(oracle: Oracle, cfg: EngineConfig, w: World, service: string, timeout: int)
    returns (up: seq<Executed>, turn: World, down: seq<Executed>, containers: seq<string>, doubtful: seq<string>)
    requires HasService(service)
    ensures var r := StartService(oracle, cfg, w, service, timeout);
      && Tells(oracle, up, w, turn, w.now + timeout)
      && (r.1 == P.Started <==> AllBrought(up, Components(service)))
      && (if r.1 == P.Started then turn == r.0
          else
            && SomeFruitless(up, Components(service), cfg.healthAttempts, turn.now >= w.now + timeout)
            && Tells(oracle, down, turn, r.0, turn.now + cfg.cleanup) && LastFirst(service, containers)
            && AllTried(down, containers, doubtful, r.0.now >= turn.now + cfg.cleanup)
            && (r.1.Uncertain? <==> doubtful != [] || EndsInDoubt(up)))
  {
    hide StartComponents, StopService, Components, HasService;
    up := StartTells(oracle, cfg, w, w.now + timeout, Components(service));
    turn := StartComponents(oracle, cfg, w, w.now + timeout, Components(service)).0;
    down, containers, doubtful := StopIsTold(oracle, turn, service, cfg.cleanup);
    if AllBrought(up, Components(service)) {
      NotBoth(up, Components(service), cfg.healthAttempts, turn.now >= w.now + timeout);
    }
  }

  // ---- No story is both a success and a failure ----

  lemma {:induction false} HealthyOnce(told: seq<Executed>, c: Component, k: nat, j: nat)
    requires k <= |told| && j <= |told| && Healthy(told[..k], c) && Healthy(told[..j], c)
    ensures k == j
    decreases |told|
  {
    if !told[0].reply.Output? {
      assert told[..k][2..] == told[2..][..k - 2] && told[..j][2..] == told[2..][..j - 2];
      HealthyOnce(told[2..], c, k - 2, j - 2);
    }
  }

  lemma {:induction false} HealthyNotUnwell(told: seq<Executed>, c: Component, k: nat, attempts: int, over: bool)
    requires k <= |told| && Healthy(told[..k], c)
    ensures !Unwell(told, c, attempts, over)
    decreases |told|
  {
    if !told[0].reply.Output? {
      assert told[..k][2..] == told[2..][..k - 2];
      HealthyNotUnwell(told[2..], c, k - 2, attempts - 1, over);
    }
  }

  lemma BroughtOnce(told: seq<Executed>, c: Component, k: nat, j: nat)
    requires k <= |told| && j <= |told| && Brought(told[..k], c) && Brought(told[..j], c)
    ensures k == j
  {
    var first := if FoundHalted(told[0], c.container) then 2 else 1;
    hide Healthy;
    assert told[..k][first..] == told[first..][..k - first] && told[..j][first..] == told[first..][..j - first];
    HealthyOnce(told[first..], c, k - first, j - first);
  }

  lemma BroughtNotFruitless(told: seq<Executed>, c: Component, k: nat, attempts: int, over: bool)
    requires k <= |told| && Brought(told[..k], c)
    ensures !Fruitless(told, c, attempts, over)
  {
    var first := if FoundHalted(told[0], c.container) then 2 else 1;
    assert told[..k][first..] == told[first..][..k - first];
    HealthyNotUnwell(told[first..], c, k - first, attempts, over);
    hide Healthy, Unwell;
    assert told[..k][0] == told[0] && (first == 2 ==> told[..k][1] == told[1]);
    assert k > first by { HealthyAnswers(told[first..][..k - first], c); }
  }

  lemma {:induction false} NotBoth(told: seq<Executed>, cs: seq<Component>, attempts: int, over: bool)
    requires AllBrought(told, cs)
    ensures !SomeFruitless(told, cs, attempts, over)
    decreases |cs|
  {
    hide Brought, Fruitless;
    if cs != [] {
      var k :| 0 <= k <= |told| && Brought(told[..k], cs[0]) && AllBrought(told[k..], cs[1..]);
      BroughtNotFruitless(told, cs[0], k, attempts, over);
      if j :| 0 <= j <= |told| && Brought(told[..j], cs[0]) && SomeFruitless(told[j..], cs[1..], attempts, over) {
        BroughtOnce(told, cs[0], k, j);
        NotBoth(told[k..], cs[1..], attempts, over);
      }
    }
  }

  // ---- What a success is worth ----

  /** At one command of these the container ran, at another its own health check was answered. */
  ghost predicate RanAndAnswered(told: seq<Executed>, c: Component) {
    && (exists e :: e in told && c.container in e.running
          && (e.cmd == Inspect(c.container) || e.cmd == Start(c.container)))
    && (exists e :: e in told && Worked(e, Curl(c.healthUrl)))
  }

  lemma {:induction false} HealthyAnswers(told: seq<Executed>, c: Component)
    requires Healthy(told, c)
    ensures told != [] && Worked(told[|told| - 1], Curl(c.healthUrl))
    decreases |told|
  {
    if |told| > 1 {
      HealthyAnswers(told[2..], c);
    }
  }

  lemma BroughtRanAndAnswered(oracle: Oracle, told: seq<Executed>, c: Component)
    requires Brought(told, c) && forall e | e in told :: Honest(oracle, e)
    ensures RanAndAnswered(told, c)
  {
    hide Healthy, Answers;
    var first := if FoundHalted(told[0], c.container) then 2 else 1;
    HealthyAnswers(told[first..], c);
    var last := told[first..][|told[first..]| - 1];
    assert last == told[|told| - 1];
    assert Worked(last, Curl(c.healthUrl)) && last in told;
    var e := told[first - 1];
    assert e in told && c.container in e.running;
  }

  lemma {:induction false} AllRanAndAnswered(oracle: Oracle, told: seq<Executed>, cs: seq<Component>)
    requires AllBrought(told, cs) && forall e | e in told :: Honest(oracle, e)
    ensures forall c | c in cs :: RanAndAnswered(told, c)
    decreases |cs|
  {
    hide Brought, Honest;
    if cs != [] {
      var k :| 0 <= k <= |told| && Brought(told[..k], cs[0]) && AllBrought(told[k..], cs[1..]);
      BroughtRanAndAnswered(oracle, told[..k], cs[0]);
      AllRanAndAnswered(oracle, told[k..], cs[1..]);
      forall c | c in cs ensures RanAndAnswered(told, c) {
        assert c == cs[0] || c in cs[1..];
        StillRanAndAnswered(if c == cs[0] then told[..k] else told[k..], told, c);
      }
    }
  }

  lemma StillRanAndAnswered(part: seq<Executed>, told: seq<Executed>, c: Component)
    requires RanAndAnswered(part, c) && forall e | e in part :: e in told
    ensures RanAndAnswered(told, c)
  {
  }

  /** A start that reports success has seen every component of the service run and answer its own health check. */
  lemma StartedIsServed(oracle: Oracle, cfg: EngineConfig, w: World, service: string, timeout: int)
    returns (told: seq<Executed>)
    requires StartService(oracle, cfg, w, service, timeout).1 == P.Started
    ensures HasService(service) && StartService(oracle, cfg, w, service, timeout).0.log == w.log + told
    ensures forall c | c in Components(service) ::
      RanAndAnswered(told, c) && Answers(oracle, c.healthUrl)
  {
    hide StartComponents, StopService, Components, HasService;
    var turn, down, containers, doubtful;
    told, turn, down, containers, doubtful := StartIsTold(oracle, cfg, w, service, timeout);
    hide StartService, AllBrought, RanAndAnswered, Timely;
    AllRanAndAnswered(oracle, told, Components(service));
    forall c | c in Components(service) ensures Answers(oracle, c.healthUrl) {
      HasAnswered(oracle, told, c);
    }
  }

  lemma HasAnswered(oracle: Oracle, told: seq<Executed>, c: Component)
    requires RanAndAnswered(told, c) && forall e | e in told :: Honest(oracle, e)
    ensures Answers(oracle, c.healthUrl)
  {
    hide Answers;
  }

  // ---- A service that can be started is ----

  /** Inspections, starts and health checks of these components work. */
  ghost predicate Obliging(oracle: Oracle, cs: seq<Component>) {
    forall c, k: nat, cmd: Command | c in cs ::
      cmd == Inspect(c.container) || cmd == Start(c.container) || cmd == Curl(c.healthUrl) ==>
        oracle(k, cmd).luck == Works
  }

  lemma ObligingOne(oracle: Oracle, w: World, deadline: int, cs: seq<Component>, c: Component, cmd: Command, most: int)
    requires Obliging(oracle, cs) && c in cs && c.container in w.installed
    requires cmd == Inspect(c.container) || cmd == Start(c.container) || cmd == Curl(c.healthUrl)
    ensures var r := RunBounded(oracle, w, deadline, cmd, most);
      && r.0.installed == w.installed
      && (w.now < deadline ==> r.1.Ok? && r.1.value.Output?)
      && (w.now < deadline && cmd.Inspect? ==> r.1.value == Output("true") || r.1.value == Output("false"))
  {
    assert oracle(w.commands, cmd).luck == Works;
  }

  lemma ObligingBringUp(oracle: Oracle, w: World, deadline: int, cs: seq<Component>, c: Component)
    requires Obliging(oracle, cs) && c in cs && c.container in w.installed
    ensures var r := BringUp(oracle, w, deadline, c.container);
      && r.0.installed == w.installed && (r.1.Ok? || r.0.now >= deadline)
  {
    ObligingOne(oracle, w, deadline, cs, c, Inspect(c.container), COMMAND_TIMEOUT);
    hide RunBounded, Obliging;
    BringUpTime(oracle, w, deadline, c.container);
    var s := InspectState(oracle, w, deadline, c.container);
    ObligingOne(oracle, s.0, deadline, cs, c, Start(c.container), COMMAND_TIMEOUT);
  }

  lemma ObligingWait(oracle: Oracle, cfg: EngineConfig, w: World, deadline: int, cs: seq<Component>, c: Component)
    requires Obliging(oracle, cs) && c in cs && c.container in w.installed && 0 < cfg.healthAttempts
    ensures var r := WaitHealthy(oracle, cfg, w, deadline, c, cfg.healthAttempts);
      && r.0.now >= w.now && (r.0.now < deadline ==> r.1.Ok? && r.0.installed == w.installed)
  {
    WaitTime(oracle, cfg, w, deadline, c, cfg.healthAttempts);
    ObligingOne(oracle, w, deadline, cs, c, Curl(c.healthUrl), HEALTH_TIMEOUT);
    hide RunBounded, Obliging, InspectState;
  }

  lemma {:induction false} ObligingComponents(oracle: Oracle, cfg: EngineConfig, w: World, deadline: int,
                                              cs: seq<Component>)
    requires Obliging(oracle, cs) && 0 < cfg.healthAttempts && forall c | c in cs :: c.container in w.installed
    ensures var r := StartComponents(oracle, cfg, w, deadline, cs); r.1.Ok? || r.0.now >= deadline
    decreases |cs|
  {
    hide BringUp, WaitHealthy;
    if cs != [] {
      var up := BringUp(oracle, w, deadline, cs[0].container);
      ObligingBringUp(oracle, w, deadline, cs, cs[0]);
      ObligingWait(oracle, cfg, up.0, deadline, cs, cs[0]);
      var healthy := WaitHealthy(oracle, cfg, up.0, deadline, cs[0], cfg.healthAttempts);
      assert forall c | c in cs[1..] :: c in cs;
      if healthy.0.now < deadline {
        ObligingComponents(oracle, cfg, healthy.0, deadline, cs[1..]);
      } else {
        StartComponentsTime(oracle, cfg, healthy.0, deadline, cs[1..]);
      }
    }
  }

  /** A service whose containers exist and whose commands work is started, or its time runs out. */
  lemma ObligingStarts(oracle: Oracle, cfg: EngineConfig, w: World, service: string, timeout: int)
    requires HasService(service) && Obliging(oracle, Components(service)) && 0 < cfg.healthAttempts
    requires forall c | c in Components(service) :: c.container in w.installed
    ensures var r := StartService(oracle, cfg, w, service, timeout);
      r.1 == P.Started || r.0.now >= w.now + timeout
  {
    hide StartComponents, StopService, Components, HasService, Obliging, StopAll;
    ObligingComponents(oracle, cfg, w, w.now + timeout, Components(service));
    var up := StartComponents(oracle, cfg, w, w.now + timeout, Components(service)).0;
    LaterStopped(oracle, up, service, cfg.cleanup);
  }

  lemma LaterStopped(oracle: Oracle, w: World, service: string, timeout: int)
    ensures StopService(oracle, w, service, timeout).0.now >= w.now
  {
    hide StopAll, Components;
    StopAllTime(oracle, w, w.now + timeout, Reverse(Names(Components(service))));
  }

  // ---- A container that can be stopped is ----

  /** Inspections and stops of this container work. */
  ghost predicate Obeys(oracle: Oracle, container: string) {
    forall k: nat, cmd: Command ::
      && (cmd == Inspect(container) ==> oracle(k, cmd).luck == Works)
      && (cmd == Stop(container) ==> oracle(k, cmd).luck == Works && oracle(k, cmd).effect)
  }

  lemma InspectObeys(oracle: Oracle, w: World, deadline: int, container: string)
    requires Obeys(oracle, container) && container !in w.pending && Installed(w) && w.now < deadline
    ensures var r := InspectState(oracle, w, deadline, container);
      && r.1.Ok? && container !in r.0.pending && Installed(r.0)
      && (container !in w.running ==> r.1.value != Running)
      && (r.1.value != Running ==> container !in r.0.running)
  {
    assert oracle(w.commands, Inspect(container)).luck == Works;
  }

  lemma StopObeys(oracle: Oracle, w: World, deadline: int, container: string)
    requires Obeys(oracle, container) && container !in w.pending && Installed(w) && w.now < deadline
    ensures var r := RunBounded(oracle, w, deadline, Stop(container), deadline - w.now);
      && container !in r.0.pending && Installed(r.0)
      && (container in w.installed ==> container !in r.0.running && r.1.Ok? && r.1.value.Output?)
  {
    assert oracle(w.commands, Stop(container)).luck == Works;
  }

  /** Whatever happened before, if time is left a container that obeys goes down, and that is certain. */
  lemma StopOneReaches(oracle: Oracle, w: World, deadline: int, container: string)
    requires Obeys(oracle, container) && container !in w.pending && Installed(w)
    ensures var r := StopOne(oracle, w, deadline, container);
      r.0.now < deadline ==> r.1 && container !in r.0.running
  {
    StopOneTime(oracle, w, deadline, container);
    InspectTime(oracle, w, deadline, container);
    var s := InspectState(oracle, w, deadline, container);
    RunTime(oracle, s.0, deadline, Stop(container), deadline - s.0.now);
    var stop := RunBounded(oracle, s.0, deadline, Stop(container), deadline - s.0.now);
    InspectTime(oracle, stop.0, deadline, container);
    if StopOne(oracle, w, deadline, container).0.now < deadline {
      InspectObeys(oracle, w, deadline, container);
      if s.1 == Ok(Running) {
        InspectedIsInstalled(oracle, w, deadline, container);
        hide InspectState, RunBounded, Obeys;
        StopObeys(oracle, s.0, deadline, container);
        InspectObeys(oracle, stop.0, deadline, container);
      }
    }
  }

  lemma InspectedIsInstalled(oracle: Oracle, w: World, deadline: int, container: string)
    requires InspectState(oracle, w, deadline, container).1 == Ok(Running) && Obeys(oracle, container)
    ensures container in InspectState(oracle, w, deadline, container).0.installed
  {
    assert oracle(w.commands, Inspect(container)).luck == Works;
  }

  lemma {:induction false} StopAllReaches(oracle: Oracle, w: World, deadline: int, containers: seq<string>,
                                          container: string)
    requires Obeys(oracle, container) && container !in w.pending && Installed(w) && container in containers
    ensures var r := StopAll(oracle, w, deadline, containers);
      r.0.now < deadline ==> container !in r.0.running && container !in r.1
    decreases |containers|
  {
    hide StopOne, Obeys;
    var one := StopOne(oracle, w, deadline, containers[0]);
    var rest := StopAll(oracle, one.0, deadline, containers[1..]);
    StopOneShrinks(oracle, w, deadline, containers[0]);
    StopOneInstalled(oracle, w, deadline, containers[0]);
    StopAllTime(oracle, one.0, deadline, containers[1..]);
    StopAllShrinks(oracle, one.0, deadline, containers[1..]);
    if container in containers[1..] {
      StopAllReaches(oracle, one.0, deadline, containers[1..], container);
    } else {
      DoubtfulWereTried(oracle, one.0, deadline, containers[1..]);
    }
    if container == containers[0] {
      StopOneReaches(oracle, w, deadline, container);
    }
  }

  lemma {:induction false} DoubtfulWereTried(oracle: Oracle, w: World, deadline: int, containers: seq<string>)
    ensures forall c | c in StopAll(oracle, w, deadline, containers).1 :: c in containers
    decreases |containers|
  {
    hide StopOne;
    if containers != [] {
      DoubtfulWereTried(oracle, StopOne(oracle, w, deadline, containers[0]).0, deadline, containers[1..]);
    }
  }

  /**
   A stop reaches every container. If a stop ends before its deadline, each
   container of the service whose own inspections and stops work, and which no
   start is pending for, is down, whatever happened to the others; and the
   same is true of a reconciliation and every managed container.
   */
  lemma StopReaches(oracle: Oracle, w: World, service: string, timeout: int, container: string)
    requires HasService(service) && Obeys(oracle, container) && container !in w.pending && Installed(w)
    ensures var r := StopService(oracle, w, service, timeout);
      container in Scope(service) && r.0.now < w.now + timeout ==> container !in r.0.running
    ensures var r := ReconcileAll(oracle, w, timeout);
      container in ManagedScope() && r.0.now < w.now + timeout ==> container !in r.0.running
  {
    hide StopAll, Components, HasService, Reverse, Names, Managed, Scope, Obeys;
    if container in Scope(service) {
      NamesAre(service);
      StopAllReaches(oracle, w, w.now + timeout, Reverse(Names(Components(service))), container);
    }
    if container in ManagedScope() {
      ReverseMembers(Managed());
      StopAllReaches(oracle, w, w.now + timeout, Reverse(Managed()), container);
    }
  }

  /** The cleanup of a failed start reaches every container in the same way. */
  lemma FailedStartReaches(oracle: Oracle, cfg: EngineConfig, w: World, service: string, timeout: int,
                           container: string)
    returns (turn: World)
    requires HasService(service) && Obeys(oracle, container) && Installed(w) && container in Scope(service)
    ensures w.now <= turn.now <= w.now + Max(0, timeout)
    ensures var r := StartService(oracle, cfg, w, service, timeout);
      r.1 != P.Started && container !in turn.pending && r.0.now < turn.now + cfg.cleanup ==> container !in r.0.running
  {
    hide StartComponents, StopService, Components, HasService, Scope, Obeys;
    StartComponentsTime(oracle, cfg, w, w.now + timeout, Components(service));
    StartComponentsInstalled(oracle, cfg, w, w.now + timeout, Components(service));
    turn := StartComponents(oracle, cfg, w, w.now + timeout, Components(service)).0;
    if container !in turn.pending {
      StopReaches(oracle, turn, service, cfg.cleanup, container);
    }
  }
}
