/**
 The container world the engine manager acts on, as a value, and the object that
 runs commands against it. Everything the manager cannot control is decided by
 an oracle: how long a command takes (never longer than its timeout), whether it
 works, fails or times out, and which containers die meanwhile. A `docker start`
 that timed out leaves a pending start, which may land at any later moment.
 Nobody else starts containers, and a successful inspection tells the truth.
 */
module Docker {
  import opened Prelude

  datatype Command = Inspect(container: string) | Start(container: string) | Stop(container: string) | Curl(url: string)

  /** What happens to the containers by themselves. */
  datatype Drift = Drift(die: set<string>, land: set<string>)

  datatype Luck = Works | Garbled | Fails | TimesOut | Breaks

  /** The environment's decisions about one command. */
  datatype Choice = Choice(delay: int, before: Drift, luck: Luck, effect: bool, after: Drift)

  type Oracle = (nat, Command) -> Choice

  /** A `docker start`, with every container that ran at some moment between its issue and its effect. */
  datatype StartEvent = StartEvent(container: string, seen: set<string>)

  datatype Reply = Output(text: string) | CommandFailed(noSuchObject: bool) | CommandTimeout | OtherError

  /** A command that was run: when, with which limit, what came back, and what ran when it took effect. */
  datatype Executed = Executed(cmd: Command, at: int, limit: int, reply: Reply, running: set<string>)

  datatype World = World(
    now: int,
    installed: set<string>,
    running: set<string>,
    pending: set<string>,
    commands: nat,
    starts: seq<StartEvent>,
    log: seq<Executed>)

  function Drifted(w: World, d: Drift): World {
    w.(running := w.running + w.pending * d.land - d.die, pending := w.pending - d.land)
  }

  /** The time a command takes: whatever the environment likes, within the timeout. */
  function Spent(delay: int, timeout: int): int {
    Max(0, Min(delay, timeout))
  }

  function Effect(w: World, cmd: Command, c: Choice): World {
    match cmd
    case Start(x) =>
      if x !in w.installed then w
      else if c.luck == TimesOut
      then w.(running := if c.effect then w.running + {x} else w.running, pending := w.pending + {x})
      else w.(running := if c.luck == Works || c.luck == Garbled || c.effect then w.running + {x} else w.running)
    case Stop(x) => w.(running := if c.effect then w.running - {x} else w.running)
    case _ => w
  }

  function Answer(w: World, cmd: Command, luck: Luck): Reply {
    match luck
    case TimesOut => CommandTimeout
    case Breaks => OtherError
    case Fails => CommandFailed(cmd.Inspect? && cmd.container !in w.installed)
    case Garbled => if !cmd.Curl? && cmd.container !in w.installed then CommandFailed(cmd.Inspect?) else Output("?")
    case Works =>
      if cmd.Curl? then Output("")
      else if cmd.container !in w.installed then CommandFailed(cmd.Inspect?)
      else if cmd.Inspect? then Output(if cmd.container in w.running then "true" else "false")
      else Output("")
  }

  function Exec(oracle: Oracle, w: World, cmd: Command, timeout: int): (World, Reply) {
    var c := oracle(w.commands, cmd);
    var w1 := Drifted(w, c.before);
    var w2 := Effect(w1, cmd, c);
    var w3 := Drifted(w2, c.after);
    var starts :=
      if cmd.Start? then w.starts + [StartEvent(cmd.container, w.running + w.pending * c.before.land)]
      else w.starts;
    var reply := Answer(w1, cmd, c.luck);
    (w3.(now := w.now + Spent(c.delay, timeout), commands := w.commands + 1, starts := starts,
         log := w.log + [Executed(cmd, w.now, timeout, reply, w2.running)]),
     reply)
  }

  /** `time.sleep`: exactly the given span passes. */
  function Slept(oracle: Oracle, w: World, span: int): World {
    var c := oracle(w.commands, Curl(""));
    Drifted(w, c.before).(now := w.now + Max(0, span), commands := w.commands + 1)
  }

  /** The runner object: it owns the world and changes it in place. */
  class Runner {
    const oracle: Oracle
    var world: World

    constructor (oracle: Oracle, world: World)
      ensures this.oracle == oracle && this.world == world
    {
      this.oracle, this.world := oracle, world;
    }

    method Run(cmd: Command, timeout: int) returns (reply: Reply)
      modifies this
      ensures (world, reply) == Exec(oracle, old(world), cmd, timeout)
    {
      var r := Exec(oracle, world, cmd, timeout);
      world, reply := r.0, r.1;
    }

    method Sleep(span: int)
      modifies this
      ensures world == Slept(oracle, old(world), span)
    {
      world := Slept(oracle, world, span);
    }
  }
}
