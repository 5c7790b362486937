/**
 The theorems about runs of the lease protocol hold of the composed system: every
 history of dispatcher and containers, with the containers forgotten, is a run.
 */
module HistoryRuns {
  import opened Prelude
  import opened Leases
  import opened Protocol
  import opened Invariant
  import opened GpuExclusion
  import R = Runs

  /** A run, and where in it each state of the history is. */
  datatype Trace = Trace(states: seq<State>, acts: seq<Action>, at: seq<nat>)

  /** The trace of the first `i` moves. */
  ghost predicate Traces(cfg: Setup, zs: seq<System>, ms: seq<Move>, i: nat, t: Trace)
    requires IsHistory(cfg, zs, ms) && i <= |ms|
  {
    && IsRun(cfg.lease, t.states, t.acts) && |t.at| == i + 1
    && t.at[0] == 0 && t.at[i] == |t.acts|
    && (forall k | 0 <= k <= i :: t.at[k] < |t.states| && t.states[t.at[k]] == zs[k].s)
    && (forall k | 0 <= k < i :: StepsAt(cfg, zs, ms, k, t))
  }

  /** A move that is a step takes one action of the run; any other takes none. */
  ghost predicate StepsAt(cfg: Setup, zs: seq<System>, ms: seq<Move>, k: nat, t: Trace)
    requires IsHistory(cfg, zs, ms) && k < |ms| && k + 1 < |t.at|
  {
    match StepOf(cfg, zs[k], ms[k])
    case None => t.at[k + 1] == t.at[k]
    case Some(a) => t.at[k + 1] == t.at[k] + 1 && t.at[k] < |t.acts| && t.acts[t.at[k]] == a
  }

  lemma {:induction false} HistoryIsRun(cfg: Setup, zs: seq<System>, ms: seq<Move>, i: nat) returns (t: Trace)
    requires IsHistory(cfg, zs, ms) && i <= |ms|
    ensures Traces(cfg, zs, ms, i, t)
  {
    if i == 0 {
      t := Trace([zs[0].s], [], [0]);
    } else {
      var before := HistoryIsRun(cfg, zs, ms, i - 1);
      MoveAt(cfg, zs, ms, i - 1);
      MovesRefineProtocol(cfg, zs[i - 1], ms[i - 1]);
      t := Extended(cfg, zs, ms, i, before);
      TraceGrows(cfg, zs, ms, i, before);
    }
  }

  ghost function Extended(cfg: Setup, zs: seq<System>, ms: seq<Move>, i: nat, t: Trace): Trace
    requires IsHistory(cfg, zs, ms) && 0 < i <= |ms| && |t.at| == i
  {
    match StepOf(cfg, zs[i - 1], ms[i - 1])
    case None => t.(at := t.at + [t.at[i - 1]])
    case Some(a) => Trace(t.states + [zs[i].s], t.acts + [a], t.at + [t.at[i - 1] + 1])
  }

  lemma TraceGrows(cfg: Setup, zs: seq<System>, ms: seq<Move>, i: nat, t: Trace)
    requires IsHistory(cfg, zs, ms) && 0 < i <= |ms| && Traces(cfg, zs, ms, i - 1, t)
    requires match StepOf(cfg, zs[i - 1], ms[i - 1])
      case None => zs[i].s == zs[i - 1].s
      case Some(a) => Enabled(cfg.lease, zs[i - 1].s, a) && zs[i].s == Next(cfg.lease, zs[i - 1].s, a)
    ensures Traces(cfg, zs, ms, i, Extended(cfg, zs, ms, i, t))
  {
    hide StepOf, Next, Enabled, CanMove, After;
    var t' := Extended(cfg, zs, ms, i, t);
    forall k | 0 <= k < |t'.acts|
      ensures Enabled(cfg.lease, t'.states[k], t'.acts[k])
        && t'.states[k + 1] == Next(cfg.lease, t'.states[k], t'.acts[k])
    {
      if k < |t.acts| {
        R.StepAt(cfg.lease, t.states, t.acts, k);
      }
    }
    forall k | 0 <= k < i
      ensures StepsAt(cfg, zs, ms, k, t')
    {
      if k < i - 1 {
        assert StepsAt(cfg, zs, ms, k, t);
      }
    }
  }

  lemma {:induction false} PositionsAscend(cfg: Setup, zs: seq<System>, ms: seq<Move>, n: nat, t: Trace, i: nat, j: nat)
    requires IsHistory(cfg, zs, ms) && n <= |ms| && Traces(cfg, zs, ms, n, t) && i <= j <= n
    ensures t.at[i] <= t.at[j]
    decreases j - i
  {
    hide IsHistory, StepOf, IsRun;
    if i < j {
      PositionsAscend(cfg, zs, ms, n, t, i, j - 1);
      assert StepsAt(cfg, zs, ms, j - 1, t);
    }
  }

  /** No position of the run is skipped: each is that of some state of the history. */
  lemma {:induction false} StateAt(cfg: Setup, zs: seq<System>, ms: seq<Move>, n: nat, t: Trace, i: nat, j: nat, r: nat)
    returns (k: nat)
    requires IsHistory(cfg, zs, ms) && n <= |ms| && Traces(cfg, zs, ms, n, t) && i <= j <= n
    requires t.at[i] <= r <= t.at[j]
    ensures i <= k <= j && t.at[k] == r && r < |t.states| && zs[k].s == t.states[r]
    decreases j - i
  {
    hide IsHistory, StepOf, IsRun;
    k := j;
    if r < t.at[j] {
      assert StepsAt(cfg, zs, ms, j - 1, t);
      k := StateAt(cfg, zs, ms, n, t, i, j - 1, r);
    }
  }

  /** Bounded ownership in the composed system. */
  lemma BoundedOwnership(cfg: Setup, zs: seq<System>, ms: seq<Move>, id: string, i: nat, j: nat)
    requires cfg.lease.Valid() && IsHistory(cfg, zs, ms) && Inv(cfg.lease, zs[0].s) && i < j < |zs|
    requires R.Grants(zs[i].s, zs[i + 1].s, id)
    requires zs[j].s.now > zs[i].s.now + cfg.lease.MaxHold()
    ensures exists k :: i < k <= j && (zs[k].s.d.current != Some(id) || zs[k].s.d.mode != Ready)
  {
    hide IsHistory, StepOf, Inv, Config.MaxHold, IsRun;
    HistoryLength(cfg, zs, ms);
    var t := HistoryIsRun(cfg, zs, ms, j);
    assert StepsAt(cfg, zs, ms, i, t);
    PositionsAscend(cfg, zs, ms, j, t, i + 1, j);
    R.BoundedOwnership(cfg.lease, t.states, t.acts, id, t.at[i], t.at[j]);
    var r :| t.at[i] < r <= t.at[j] && (t.states[r].d.current != Some(id) || t.states[r].d.mode != Ready);
    var k := StateAt(cfg, zs, ms, j, t, i + 1, j, r);
  }

  /** Stop requests are final in the composed system. */
  lemma StopIsFinal(cfg: Setup, zs: seq<System>, ms: seq<Move>, i: nat, j: nat)
    requires cfg.lease.Valid() && IsHistory(cfg, zs, ms) && Inv(cfg.lease, zs[0].s) && i < j < |zs|
    requires i < |ms| && ms[i].Protocol? && R.AcceptsStop(cfg.lease, zs[i].s, ms[i].a)
    requires forall k | i < k <= j :: ms[i].a.id in zs[k].s.d.table
    ensures zs[j].s.d.table[ms[i].a.id].state != Active
  {
    hide IsHistory, Inv, IsRun, RequestStop;
    HistoryLength(cfg, zs, ms);
    var t := HistoryIsRun(cfg, zs, ms, j);
    assert StepsAt(cfg, zs, ms, i, t);
    PositionsAscend(cfg, zs, ms, j, t, i + 1, j);
    forall r | t.at[i] < r <= t.at[j] ensures ms[i].a.id in t.states[r].d.table {
      var k := StateAt(cfg, zs, ms, j, t, i + 1, j, r);
    }
    R.StopIsFinal(cfg.lease, t.states, t.acts, t.at[i], t.at[j]);
  }

  lemma HistoryLength(cfg: Setup, zs: seq<System>, ms: seq<Move>)
    requires IsHistory(cfg, zs, ms)
    ensures |zs| == |ms| + 1
  {
  }
}
