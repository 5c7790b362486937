/**
 Administrator processes that run at the same time. Each takes the registry lock,
 reads the file, writes what it worked out from that reading, and lets go; it may
 die anywhere, and the operating system then releases its lock.
 */
module RegistryLock {
  import opened Prelude
  import opened Registry
  import opened RegistryHistory

  datatype Phase =
    | Idle
    | Locked(e: Entered)
    | HasRead(e: Entered, seen: Option<Checked>)
    | Done

  /** The file, the holder of the lock, the phase of every process, and the
      commits made so far in the order in which the file was replaced. */
  datatype World = World(file: Option<Checked>, holder: Option<nat>, procs: map<nat, Phase>, log: seq<Entered>)

  datatype Action =
    | Take(p: nat, e: Entered)
    | Read(p: nat)
    | Write(p: nat)
    | Release(p: nat)

  function PhaseOf(w: World, p: nat): Phase {
    if p in w.procs then w.procs[p] else Idle
  }

  ghost predicate Enabled(w: World, a: Action) {
    match a
    case Take(p, _) => w.holder == None && PhaseOf(w, p).Idle?
    case Read(p) => PhaseOf(w, p).Locked?
    case Write(p) => PhaseOf(w, p).HasRead?
    case Release(p) => !PhaseOf(w, p).Idle?
  }

  /** One step. The write works on what the process read, not on what the file
      holds now; a release ends the command or a process that died. */
  ghost function Next(ts: Timestamps, w: World, a: Action): World
    requires Enabled(w, a)
  {
    match a
    case Take(p, e) => w.(holder := Some(p), procs := w.procs[p := Locked(e)])
    case Read(p) => w.(procs := w.procs[p := HasRead(PhaseOf(w, p).e, w.file)])
    case Write(p) =>
      var e, seen := PhaseOf(w, p).e, PhaseOf(w, p).seen;
      if Commits(ts, seen, e) then
        w.(file := Do(ts, seen, e), procs := w.procs[p := Done], log := w.log + [e])
      else w.(procs := w.procs[p := Done])
    case Release(p) =>
      w.(holder := if w.holder == Some(p) then None else w.holder, procs := w.procs - {p})
  }

  ghost predicate IsRun(ts: Timestamps, run: seq<World>, acts: seq<Action>) {
    && |run| == |acts| + 1
    && (forall k | 0 <= k < |acts| :: Enabled(run[k], acts[k]) && run[k + 1] == Next(ts, run[k], acts[k]))
  }

  /** At rest: nobody holds the lock. */
  ghost predicate Quiet(w: World) {
    w.holder == None && w.procs == map[] && w.log == []
  }

  /** Only the holder is under way, and what it has read is still what the file holds. */
  ghost predicate Exclusive(w: World) {
    forall p: nat | p in w.procs ::
      && !w.procs[p].Idle? && w.holder == Some(p)
      && (w.procs[p].HasRead? ==> w.procs[p].seen == w.file)
  }

  /** The file is what the committed commands, one after the other, make of `start`. */
  ghost predicate SerialSoFar(ts: Timestamps, start: Option<Checked>, w: World) {
    && Exclusive(w) && Kept(ts, start) && Kept(ts, w.file)
    && w.file == Serial(ts, start, w.log)
    && (forall i | 0 <= i < |w.log| :: Commits(ts, Serial(ts, start, w.log[..i]), w.log[i]))
    && RevisionOf(w.file) == RevisionOf(start) + |w.log|
  }

  lemma StepExclusive(ts: Timestamps, w: World, a: Action)
    requires Exclusive(w) && Enabled(w, a)
    ensures Exclusive(Next(ts, w, a))
  {
    hide Do, Commits;
  }

  /** A write replaces what the file holds, because that is still what the process read. */
  lemma WriteIs(ts: Timestamps, w: World, a: Action)
    requires Exclusive(w) && Enabled(w, a)
    ensures var w' := Next(ts, w, a);
      if a.Write? && Commits(ts, w.file, PhaseOf(w, a.p).e)
      then w'.file == Do(ts, w.file, PhaseOf(w, a.p).e) && w'.log == w.log + [PhaseOf(w, a.p).e]
      else w'.file == w.file && w'.log == w.log
  {
    hide Do, Commits;
  }

  lemma StepIsSerial(ts: Timestamps, start: Option<Checked>, w: World, a: Action)
    requires SerialSoFar(ts, start, w) && Enabled(w, a) && !ts("")
    ensures SerialSoFar(ts, start, Next(ts, w, a))
  {
    hide Do, Commits, CheckedOk, Exclusive, Next, Serial;
    StepExclusive(ts, w, a);
    WriteIs(ts, w, a);
    if a.Write? && Commits(ts, w.file, PhaseOf(w, a.p).e) {
      DoKeeps(ts, w.file, PhaseOf(w, a.p).e);
      LogGrows(ts, start, w, PhaseOf(w, a.p).e);
    }
  }

  lemma LogGrows(ts: Timestamps, start: Option<Checked>, w: World, e: Entered)
    requires SerialSoFar(ts, start, w) && Commits(ts, w.file, e)
    ensures var log := w.log + [e];
      && Serial(ts, start, log) == Do(ts, w.file, e)
      && (forall i | 0 <= i < |log| :: Commits(ts, Serial(ts, start, log[..i]), log[i]))
  {
    hide Do, Commits, CheckedOk, Exclusive;
    var log := w.log + [e];
    assert log[..|w.log|] == w.log;
    assert forall i | 0 <= i < |w.log| :: log[..i] == w.log[..i];
  }

  /** Every interleaving amounts to the committed commands one after the other:
      each of them commits in that order too, nothing is lost, and the revision
      counts them. */
  lemma {:induction false} InterleavingIsSerial(ts: Timestamps, run: seq<World>, acts: seq<Action>)
    requires IsRun(ts, run, acts) && Quiet(run[0]) && Kept(ts, run[0].file) && !ts("")
    ensures var w := run[|acts|];
      && Exclusive(w) && Kept(ts, w.file)
      && w.file == Serial(ts, run[0].file, w.log)
      && (forall i | 0 <= i < |w.log| :: Commits(ts, Serial(ts, run[0].file, w.log[..i]), w.log[i]))
      && RevisionOf(w.file) == RevisionOf(run[0].file) + |w.log|
    decreases |acts|
  {
    hide Do, Commits, CheckedOk, Next, Enabled;
    if acts != [] {
      var n := |acts| - 1;
      InterleavingIsSerial(ts, run[..n + 1], acts[..n]);
      StepIsSerial(ts, run[0].file, run[n], acts[n]);
    }
  }
}
