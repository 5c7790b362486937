/**
 First come, first served: with enough retention every grant goes to the earliest
 admission among the requests that wait, and nobody is overtaken.
 */
module QueueOrder {
  import opened Prelude
  import opened Leases
  import opened Protocol
  import opened Invariant
  import opened QueueRoom
  import opened Runs

  /** The grant goes to the earliest admission among all that are still waiting. */
  ghost predicate GrantInOrder(s: State, s': State, id: string) {
    Grants(s, s', id) && id in s'.d.table ==>
      forall x | x in s'.d.table && s'.d.table[x].state == Queued ::
        CreatedAt(s'.d.table, id) <= CreatedAt(s'.d.table, x)
  }

  lemma GrantsAreInOrder(cfg: Config, s: State, a: Action, id: string)
    requires cfg.Valid() && Retains(cfg) && Inv(cfg, s) && Tidy(cfg, s) && Enabled(cfg, s, a)
    ensures GrantInOrder(s, Next(cfg, s, a), id)
  {
    if Grants(s, Next(cfg, s, a), id) {
      GrantIs(cfg, s, a, id);
      StepInv(cfg, s, a);
      GrantStaysReady(cfg, s);
      GrantIsNormal(cfg, s, a, id);
      var s' := Next(cfg, s, a);
      hide Next, Enabled;
      assert forall x | x in s'.d.table && s'.d.table[x].state == Queued :: x in s'.d.queue;
    }
  }

  lemma GrantStaysReady(cfg: Config, s: State)
    requires cfg.Valid() && Inv(cfg, s) && s.worker.Wait? && s.d.mode == Ready && s.d.current == None
    ensures Next(cfg, s, WorkerTurn).d.mode == Ready
  {
    var k := TurnIdleIs(cfg, s);
  }

  /** `x` stands before `y` in the queue. */
  ghost predicate Ahead(s: State, x: string, y: string) {
    exists i, j :: 0 <= i < j < |s.d.queue| && s.d.queue[i] == x && s.d.queue[j] == y
  }

  predicate Waiting(s: State, id: string) {
    id in s.d.table && s.d.table[id].state == Queued
  }

  lemma AdmittedLast(cfg: Config, s: State, a: Action, x: string)
    requires Inv(cfg, s) && Admits(cfg, s, a) && Waiting(s, x)
    ensures Ahead(Next(cfg, s, a), x, a.id)
  {
    var i :| 0 <= i < |s.d.queue| && s.d.queue[i] == x;
    var q := Next(cfg, s, a).d.queue;
    assert q == s.d.queue + [a.id];
    assert q[i] == x && q[|q| - 1] == a.id;
  }

  lemma OrderKept(cfg: Config, s: State, a: Action, x: string, y: string)
    requires cfg.Valid() && Retains(cfg) && Inv(cfg, s) && Tidy(cfg, s) && Enabled(cfg, s, a) && Ahead(s, x, y)
    requires Waiting(Next(cfg, s, a), x) && Waiting(Next(cfg, s, a), y)
    ensures Ahead(Next(cfg, s, a), x, y)
  {
    if a == WorkerTurn && s.d.mode == Ready {
      TurnKeepsOrder(cfg, s, x, y);
    } else {
      QueueOnlyGrows(cfg, s, a);
      var i, j :| 0 <= i < j < |s.d.queue| && s.d.queue[i] == x && s.d.queue[j] == y;
      var q := Next(cfg, s, a).d.queue;
      assert q[i] == x && q[j] == y;
    }
  }

  lemma QueueOnlyGrows(cfg: Config, s: State, a: Action)
    requires Enabled(cfg, s, a) && !(a == WorkerTurn && s.d.mode == Ready)
    ensures s.d.queue <= Next(cfg, s, a).d.queue
  {
  }

  lemma TurnKeepsOrder(cfg: Config, s: State, x: string, y: string)
    requires cfg.Valid() && Inv(cfg, s) && s.worker.Wait? && s.d.mode == Ready && Ahead(s, x, y)
    requires Waiting(Next(cfg, s, WorkerTurn), x)
    ensures Ahead(Next(cfg, s, WorkerTurn), x, y)
  {
    var i, j :| 0 <= i < j < |s.d.queue| && s.d.queue[i] == x && s.d.queue[j] == y;
    var q := Next(cfg, s, WorkerTurn).d.queue;
    if s.d.current.Some? {
      TurnOwnedIs(cfg, s, s.d.current.value);
      assert q[i] == x && q[j] == y;
    } else {
      var k := TurnIdleIs(cfg, s);
      assert k >= 0 && i > k;
      hide Next, Settle, Inv;
      assert q[i - k - 1] == x && q[j - k - 1] == y;
    }
  }

  lemma AheadMeansFirst(cfg: Config, s: State, a: Action, x: string, y: string)
    requires cfg.Valid() && Inv(cfg, s) && Tidy(cfg, s) && Enabled(cfg, s, a) && Ahead(s, x, y)
    requires Grants(s, Next(cfg, s, a), y)
    ensures !Waiting(Next(cfg, s, a), x)
  {
    GrantIs(cfg, s, a, y);
    var k := TurnIdleIs(cfg, s);
    assert k >= 0 && s.d.queue[k] == y;
    var i, j :| 0 <= i < j < |s.d.queue| && s.d.queue[i] == x && s.d.queue[j] == y;
    assert j == k;
  }

  lemma {:induction false} AheadAlong(cfg: Config, states: seq<State>, acts: seq<Action>, x: string, i: nat, j: nat)
    requires cfg.Valid() && Retains(cfg) && IsRun(cfg, states, acts) && i < j < |states|
    requires Inv(cfg, states[0]) && Tidy(cfg, states[0])
    requires Admits(cfg, states[i], acts[i]) && Waiting(states[i], x)
    requires forall k | i < k <= j :: Waiting(states[k], x) && Waiting(states[k], acts[i].id)
    ensures Ahead(states[j], x, acts[i].id)
  {
    hide Next, Enabled, Inv, Tidy, Ahead;
    RunTidy(cfg, states, acts, j - 1);
    StepAt(cfg, states, acts, j - 1);
    if j == i + 1 {
      AdmittedLast(cfg, states[i], acts[i], x);
    } else {
      AheadAlong(cfg, states, acts, x, i, j - 1);
      OrderKept(cfg, states[j - 1], acts[j - 1], x, acts[i].id);
    }
  }

  /**
   First come, first served. If `x` was waiting when `y` was admitted and both
   kept waiting since, then a step that grants `y` leaves `x` out of the queue:
   `x` has expired at that very instant. Nobody overtakes a live request.
   */
  lemma NoOvertaking(cfg: Config, states: seq<State>, acts: seq<Action>, x: string, i: nat, j: nat)
    requires cfg.Valid() && Retains(cfg) && IsRun(cfg, states, acts) && i < j < |acts|
    requires Inv(cfg, states[0]) && Tidy(cfg, states[0])
    requires Admits(cfg, states[i], acts[i]) && Waiting(states[i], x)
    requires forall k | i < k <= j :: Waiting(states[k], x) && Waiting(states[k], acts[i].id)
    requires Grants(states[j], states[j + 1], acts[i].id)
    ensures !Waiting(states[j + 1], x)
  {
    hide Next, Enabled, Inv, Tidy, Ahead, Grants;
    AheadAlong(cfg, states, acts, x, i, j);
    RunTidy(cfg, states, acts, j);
    StepAt(cfg, states, acts, j);
    AheadMeansFirst(cfg, states[j], acts[j], x, acts[i].id);
  }
}
