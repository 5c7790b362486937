/**
 How leases end. The state in which a record comes to rest is decided by the
 first stop that finds it active, by the last stop that finds it starting, by its
 deadlines or by its engine, and by nothing else.
 */
module Endings {
  import opened Prelude
  import opened Leases
  import opened Protocol
  import opened Invariant
  import opened Runs
  import Q = QueueRoom

  /** The step stops this lease, for this end, because it was asked to. */
  predicate StopsFor(cfg: Config, s: State, a: Action, id: string, target: LeaseState) {
    AcceptsStop(cfg, s, a) && a.id == id && a.target == target
  }

  /** The worker finds that the time of this lease is up, in the queue or on the GPU. */
  predicate FindsOverdue(s: State, a: Action, id: string) {
    && a == WorkerTurn && id in s.d.table
    && var l := s.d.table[id];
       || (l.state == Queued && s.now >= l.queueDeadline)
       || (l.state == Active && l.activeDeadline.Some? && s.now >= l.activeDeadline.value)
  }

  /** The engine of this lease does not come up. */
  predicate FailsToStart(s: State, a: Action, id: string) {
    a.StartDone? && a.start != Started && s.worker.InStart? && s.worker.id == id
  }

  /** The one kind of step that can decide for this end. */
  predicate Decides(cfg: Config, s: State, a: Action, id: string, end: LeaseState) {
    match end
    case Released => StopsFor(cfg, s, a, id, Released)
    case Cancelled => StopsFor(cfg, s, a, id, Cancelled)
    case Expired => FindsOverdue(s, a, id)
    case Failed => FailsToStart(s, a, id)
    case _ => false
  }

  // ---- What one step does to a record ----

  /** Where the record comes from: it stays as it is, or exactly one of these things happens to it. */
  predicate Moves(cfg: Config, s: State, a: Action, id: string, l: Lease, l': Lease) {
    || l' == l
    || (l.state == Queued && Terminal(l'.state) && Decides(cfg, s, a, id, l'.state)
        && l' == MarkTerminal(l, l'.state, s.now))
    || (l.state == Queued && a == WorkerTurn && l' == l.(state := Starting))
    || (l.state == Starting && AcceptsStop(cfg, s, a) && a.id == id
        && l' == l.(cancelRequested := true, terminalTarget := Some(a.target)))
    || (l.state == Starting && a == StartDone(Started)
        && l' == if l.cancelRequested then l.(state := Stopping)
                 else l.(state := Active, activeDeadline := Some(s.now + cfg.active)))
    || (l.state == Starting && FailsToStart(s, a, id)
        && l' == MarkTerminal(l.(error := Some(a.start.message)), Failed, s.now))
    || (l.state == Active && AcceptsStop(cfg, s, a) && a.id == id
        && l' == l.(state := Stopping, terminalTarget := Some(a.target)))
    || (l.state == Active && FindsOverdue(s, a, id) && l' == l.(state := Stopping, terminalTarget := Some(Expired)))
    || (l.state == Stopping && a == StopDone(Stopped) && l.terminalTarget.Some?
        && l' == MarkTerminal(l, l.terminalTarget.value, s.now))
    || (l.state == Stopping && a.StopDone? && a.stop.StopFailed? && l' == l.(error := Some(a.stop.message)))
  }

  lemma SubmitMoves(cfg: Config, s: State, a: Action, id: string)
    requires a.SubmitCall? && Enabled(cfg, s, a) && id in s.d.table && id in Next(cfg, s, a).d.table
    ensures Next(cfg, s, a).d.table[id] == s.d.table[id]
  {
    hide Turn, RequestStop;
  }

  lemma StopCallMoves(cfg: Config, s: State, a: Action, id: string)
    requires a.StopCall? && Enabled(cfg, s, a) && id in s.d.table && id in Next(cfg, s, a).d.table
    requires s.d.table[id].state == Stopping ==> s.d.table[id].terminalTarget.Some?
    ensures Moves(cfg, s, a, id, s.d.table[id], Next(cfg, s, a).d.table[id])
  {
    hide Turn, Submit;
  }

  lemma CallMoves(cfg: Config, s: State, a: Action, id: string)
    requires (a.SubmitCall? || a.StopCall?) && Inv(cfg, s) && Enabled(cfg, s, a)
    requires id in s.d.table && id in Next(cfg, s, a).d.table
    ensures Moves(cfg, s, a, id, s.d.table[id], Next(cfg, s, a).d.table[id])
  {
    assert LeaseOk(cfg, s.now, s.d.table[id]);
    if a.SubmitCall? {
      hide Next, Inv, Enabled;
      SubmitMoves(cfg, s, a, id);
    } else {
      hide Next, Inv, Enabled, Moves;
      StopCallMoves(cfg, s, a, id);
    }
  }

  lemma TurnMoves(cfg: Config, s: State, id: string)
    requires cfg.Valid() && Inv(cfg, s) && s.worker.Wait? && id in s.d.table && id in Next(cfg, s, WorkerTurn).d.table
    ensures Moves(cfg, s, WorkerTurn, id, s.d.table[id], Next(cfg, s, WorkerTurn).d.table[id])
  {
    var owned := s.d.mode == Ready && s.d.current.Some?;
    assert owned ==> s.d.current.value in s.d.table && s.d.table[s.d.current.value].state != Queued;
    hide Next, Settle, Inv, NextWait, Moves;
    if s.d.mode != Ready {
      NotReadyTurn(cfg, s);
      SettledMoves(cfg, s, id);
    } else if owned {
      OwnedMoves(cfg, s, id, s.d.current.value);
    } else {
      IdleMoves(cfg, s, id);
    }
  }

  lemma OwnedMoves(cfg: Config, s: State, id: string, owner: string)
    requires s.worker.Wait? && s.d.mode == Ready && s.d.current == Some(owner)
    requires owner in s.d.table && s.d.table[owner].state != Queued
    requires id in s.d.table && id in Next(cfg, s, WorkerTurn).d.table
    ensures Moves(cfg, s, WorkerTurn, id, s.d.table[id], Next(cfg, s, WorkerTurn).d.table[id])
  {
    TurnOwnedIs(cfg, s, owner);
    hide Next, Settle, NextWait;
    if id != owner {
      SettledMoves(cfg, s, id);
    }
  }

  lemma IdleMoves(cfg: Config, s: State, id: string)
    requires s.worker.Wait? && s.d.mode == Ready && s.d.current == None
    requires id in s.d.table && id in Next(cfg, s, WorkerTurn).d.table
    ensures Moves(cfg, s, WorkerTurn, id, s.d.table[id], Next(cfg, s, WorkerTurn).d.table[id])
  {
    var k := TurnIdleIs(cfg, s);
    SettledMoves(cfg, s, id);
    hide Next, Settle, NextWait;
  }

  lemma SettledMoves(cfg: Config, s: State, id: string)
    requires s.worker.Wait? && id in s.d.table && id in Settle(cfg, s)
    ensures var l := s.d.table[id];
      Settle(cfg, s)[id] == l || (Overdue(l, s.now) && Settle(cfg, s)[id] == MarkTerminal(l, Expired, s.now))
    ensures Moves(cfg, s, WorkerTurn, id, s.d.table[id], Settle(cfg, s)[id])
  {
  }

  /** Every step does to a record one of the things listed, or nothing. */
  lemma StepMoves(cfg: Config, s: State, a: Action, id: string)
    requires cfg.Valid() && Inv(cfg, s) && Enabled(cfg, s, a)
    requires id in s.d.table && id in Next(cfg, s, a).d.table
    ensures Moves(cfg, s, a, id, s.d.table[id], Next(cfg, s, a).d.table[id])
  {
    match a
    case WorkerTurn => TurnMoves(cfg, s, id);
    case SubmitCall(_, _, _, _) => CallMoves(cfg, s, a, id);
    case StopCall(_, _, _, _) => CallMoves(cfg, s, a, id);
    case _ => EngineMoves(cfg, s, a, id);
  }

  lemma EngineMoves(cfg: Config, s: State, a: Action, id: string)
    requires !a.WorkerTurn? && !a.SubmitCall? && !a.StopCall? && Inv(cfg, s) && Enabled(cfg, s, a)
    requires id in s.d.table && id in Next(cfg, s, a).d.table
    ensures Moves(cfg, s, a, id, s.d.table[id], Next(cfg, s, a).d.table[id])
  {
    assert LeaseOk(cfg, s.now, s.d.table[id]);
    assert a.StartDone? ==> s.d.table[s.worker.id].state == Starting;
    assert a.StopDone? ==> s.d.table[s.worker.id].state == Stopping;
    hide Turn, Submit, RequestStop, Inv;
  }

  /** What the report of a start does to its lease and to the GPU. */
  predicate StartActs(cfg: Config, s: State, s': State, start: StartOutcome, l: Lease, l': Lease) {
    match start
    case Started =>
      && s'.d.mode == Ready && s'.d.current == s.d.current
      && l'.state == (if l.cancelRequested then Stopping else Active)
      && (!l.cancelRequested ==> l'.activeDeadline == Some(s.now + cfg.active))
    case StartFailed(m) => s'.d.mode == Ready && s'.d.current == None && l'.state == Failed && l'.error == Some(m)
    case Uncertain(m) =>
      s'.d.mode == Degraded && s'.d.current == s.d.current && l'.state == Failed && l'.error == Some(m)
  }

  /** What the report of a stop does to its lease and to the GPU. */
  predicate StopActs(s: State, s': State, stop: StopOutcome, l: Lease, l': Lease) {
    match stop
    case Stopped =>
      s'.d.mode == Ready && s'.d.current == None && Terminal(l'.state) && Some(l'.state) == l.terminalTarget
    case StopFailed(m) =>
      s'.d.mode == Degraded && s'.d.current == s.d.current && l'.state == Stopping && l'.error == Some(m)
  }

  lemma EngineOwns(cfg: Config, s: State, a: Action)
    requires Inv(cfg, s) && Enabled(cfg, s, a) && (a.StartDone? || a.StopDone?)
    ensures s.d.mode == Ready && s.d.current == Some(s.worker.id)
    ensures s.d.table[s.worker.id].state == if a.StartDone? then Starting else Stopping
    ensures a.StopDone? ==>
      var target := s.d.table[s.worker.id].terminalTarget;
      target.Some? && Terminal(target.value)
  {
    assert LeaseOk(cfg, s.now, s.d.table[s.worker.id]);
  }

  lemma StartReportActs(cfg: Config, s: State, start: StartOutcome)
    requires Enabled(cfg, s, StartDone(start)) && s.d.mode == Ready && s.d.current == Some(s.worker.id)
    ensures var id, s' := s.worker.id, Next(cfg, s, StartDone(start));
      id in s'.d.table && s'.worker == Wait(s.now) && StartActs(cfg, s, s', start, s.d.table[id], s'.d.table[id])
  {
  }

  lemma StopReportActs(cfg: Config, s: State, stop: StopOutcome)
    requires Enabled(cfg, s, StopDone(stop)) && s.d.mode == Ready && s.d.current == Some(s.worker.id)
    requires s.d.table[s.worker.id].state == Stopping
    requires var target := s.d.table[s.worker.id].terminalTarget; target.Some? && Terminal(target.value)
    ensures var id, s' := s.worker.id, Next(cfg, s, StopDone(stop));
      id in s'.d.table && s'.worker == Wait(s.now) && StopActs(s, s', stop, s.d.table[id], s'.d.table[id])
  {
  }

  /**
   What the report of an engine operation does. A start that works makes the
   lease active, unless a stop came first; a start that fails and cleans up, and
   a stop that works, give the GPU up; whatever is uncertain keeps it and degrades
   the dispatcher. What went wrong is kept.
   */
  lemma EngineReportsAct(cfg: Config, s: State, a: Action)
    requires cfg.Valid() && Inv(cfg, s) && Enabled(cfg, s, a) && (a.StartDone? || a.StopDone?)
    ensures s.d.current == Some(s.worker.id)
    ensures var id, s' := s.worker.id, Next(cfg, s, a);
      && id in s'.d.table && s'.worker == Wait(s.now)
      && (a.StartDone? ==> StartActs(cfg, s, s', a.start, s.d.table[id], s'.d.table[id]))
      && (a.StopDone? ==> StopActs(s, s', a.stop, s.d.table[id], s'.d.table[id]))
  {
    EngineOwns(cfg, s, a);
    hide Next, Inv, StartActs, StopActs;
    if a.StartDone? {
      StartReportActs(cfg, s, a.start);
    } else {
      StopReportActs(cfg, s, a.stop);
    }
  }

  // ---- The fate of a record over a run ----

  /** The record stays on file from `i` to `j`. */
  ghost predicate Filed(states: seq<State>, id: string, i: nat, j: nat)
    requires i <= j < |states|
  {
    forall k | i <= k <= j :: id in states[k].d.table
  }

  /** The lease is being stopped for this end, or has come to it. */
  predicate BoundFor(l: Lease, end: LeaseState) {
    (l.state == Stopping && l.terminalTarget == Some(end)) || l.state == end
  }

  lemma {:induction false} StaysBound(cfg: Config, states: seq<State>, acts: seq<Action>, id: string, end: LeaseState,
                                      i: nat, j: nat)
    requires cfg.Valid() && IsRun(cfg, states, acts) && Inv(cfg, states[0]) && i <= j < |states|
    requires Filed(states, id, i, j) && Terminal(end) && BoundFor(states[i].d.table[id], end)
    ensures BoundFor(states[j].d.table[id], end)
  {
    hide Next, Enabled, Inv, AcceptsStop, FindsOverdue, FailsToStart, Decides;
    if i < j {
      StaysBound(cfg, states, acts, id, end, i, j - 1);
      RunInv(cfg, states, acts, j - 1);
      StepAt(cfg, states, acts, j - 1);
      StepMoves(cfg, states[j - 1], acts[j - 1], id);
    }
  }

  /** The first release or cancel that finds a lease active decides how it ends. */
  lemma FirstStopDecides(cfg: Config, states: seq<State>, acts: seq<Action>, id: string, target: LeaseState,
                         i: nat, j: nat)
    requires cfg.Valid() && IsRun(cfg, states, acts) && Inv(cfg, states[0]) && i < j < |states|
    requires Filed(states, id, i, j) && states[i].d.table[id].state == Active
    requires StopsFor(cfg, states[i], acts[i], id, target)
    ensures states[j].d.table[id].state == Stopping || states[j].d.table[id].state == target
  {
    hide Next, Inv, AcceptsStop;
    StepAt(cfg, states, acts, i);
    AcceptedStopActs(cfg, states[i], acts[i], id);
    hide Enabled;
    StaysBound(cfg, states, acts, id, target, i + 1, j);
  }

  /** What an accepted stop does at once. */
  lemma AcceptedStopActs(cfg: Config, s: State, a: Action, id: string)
    requires Enabled(cfg, s, a) && AcceptsStop(cfg, s, a) && a.id == id && id in s.d.table
    ensures id in Next(cfg, s, a).d.table && (a.target == Released || a.target == Cancelled)
    ensures var l, l' := s.d.table[id], Next(cfg, s, a).d.table[id];
      match l.state
      case Queued => l'.state == a.target
      case Starting => l'.state == Starting && l'.cancelRequested && l'.terminalTarget == Some(a.target)
      case Active => l'.state == Stopping && l'.terminalTarget == Some(a.target)
      case _ => l'.state == l.state
  {
    hide Turn, Submit;
  }

  /** A lease that is taken down because its active deadline has passed ends as expired,
      whatever is asked for it afterwards. */
  lemma DeadlineDecides(cfg: Config, states: seq<State>, acts: seq<Action>, id: string, i: nat, j: nat)
    requires cfg.Valid() && IsRun(cfg, states, acts) && Inv(cfg, states[0]) && i < j < |states|
    requires Filed(states, id, i, j) && states[i].d.table[id].state == Active
    requires acts[i] == WorkerTurn && states[i + 1].d.table[id].state != Active
    ensures states[i].d.table[id].activeDeadline.Some? && states[i].now >= states[i].d.table[id].activeDeadline.value
    ensures states[j].d.table[id].state == Stopping || states[j].d.table[id].state == Expired
  {
    hide Next, Enabled, Inv;
    RunInv(cfg, states, acts, i);
    StepAt(cfg, states, acts, i);
    StepMoves(cfg, states[i], acts[i], id);
    StaysBound(cfg, states, acts, id, Expired, i + 1, j);
  }

  /** The lease is still starting and will be stopped for this end, or is bound for it, or its engine never came up. */
  predicate WillEnd(l: Lease, end: LeaseState) {
    || (l.state == Starting && l.cancelRequested && l.terminalTarget == Some(end))
    || BoundFor(l, end)
    || l.state == Failed
  }

  /**
   The last release or cancel that finds a lease starting decides how it ends: if
   no other one is accepted before the start is over, the lease ends for it, or as
   failed if its engine does not come up. It never becomes active.
   */
  lemma {:induction false} LastStopDecides(cfg: Config, states: seq<State>, acts: seq<Action>, id: string,
                                           target: LeaseState, i: nat, j: nat)
    requires cfg.Valid() && IsRun(cfg, states, acts) && Inv(cfg, states[0]) && i < j < |states|
    requires Filed(states, id, i, j) && states[i].d.table[id].state == Starting
    requires StopsFor(cfg, states[i], acts[i], id, target)
    requires forall k | i < k < j && states[k].d.table[id].state == Starting ::
      !(AcceptsStop(cfg, states[k], acts[k]) && acts[k].id == id)
    ensures WillEnd(states[j].d.table[id], target)
  {
    hide Next, Inv, AcceptsStop, FindsOverdue, FailsToStart, Decides;
    StepAt(cfg, states, acts, j - 1);
    if j == i + 1 {
      AcceptedStopActs(cfg, states[i], acts[i], id);
    } else {
      hide Enabled;
      LastStopDecides(cfg, states, acts, id, target, i, j - 1);
      RunInv(cfg, states, acts, j - 1);
      StepMoves(cfg, states[j - 1], acts[j - 1], id);
      TargetEnds(cfg, states[i], acts[i], id, target);
    }
  }

  lemma TargetEnds(cfg: Config, s: State, a: Action, id: string, target: LeaseState)
    requires Enabled(cfg, s, a) && StopsFor(cfg, s, a, id, target)
    ensures target == Released || target == Cancelled
  {
    hide RequestStop;
  }

  // ---- Every ending has its cause ----

  /** One of the first `j` steps decided for this end. */
  ghost predicate Decided(cfg: Config, states: seq<State>, acts: seq<Action>, id: string, end: LeaseState, j: nat)
    requires IsRun(cfg, states, acts) && j <= |acts|
  {
    exists i | 0 <= i < j :: Decides(cfg, states[i], acts[i], id, end)
  }

  /** How the record ended, or is bound to end, was decided by some step before. */
  ghost predicate HasCause(cfg: Config, states: seq<State>, acts: seq<Action>, id: string, j: nat)
    requires IsRun(cfg, states, acts) && j <= |acts| && id in states[j].d.table
  {
    var l := states[j].d.table[id];
    && (Terminal(l.state) ==> Decided(cfg, states, acts, id, l.state, j))
    && (l.terminalTarget.Some? ==> Decided(cfg, states, acts, id, l.terminalTarget.value, j))
  }

  lemma NewHasCause(cfg: Config, s: State, a: Action, id: string)
    requires cfg.Valid() && Inv(cfg, s) && Enabled(cfg, s, a) && id !in s.d.table && id in Next(cfg, s, a).d.table
    ensures var l := Next(cfg, s, a).d.table[id];
      l.terminalTarget == None && (Terminal(l.state) ==> Decides(cfg, s, a, id, l.state))
  {
    match a
    case WorkerTurn => TurnClimbs(cfg, s, id);
    case SubmitCall(_, _, _, _) => hide Turn, RequestStop, Inv;
    case StopCall(_, _, _, _) => hide Turn, Submit, Inv;
    case _ => hide Turn, Submit, RequestStop, Inv;
  }

  lemma MovedHasCause(cfg: Config, s: State, a: Action, id: string, l: Lease, l': Lease)
    requires Moves(cfg, s, a, id, l, l') && (a.StopCall? ==> a.target == Released || a.target == Cancelled)
    ensures Terminal(l'.state) ==>
      l'.state == l.state || Some(l'.state) == l.terminalTarget || Decides(cfg, s, a, id, l'.state)
    ensures l'.terminalTarget.Some? ==>
      l'.terminalTarget == l.terminalTarget || Decides(cfg, s, a, id, l'.terminalTarget.value)
  {
    hide RequestStop;
  }

  lemma DecidedLater(cfg: Config, states: seq<State>, acts: seq<Action>, id: string, end: LeaseState, j: nat)
    requires IsRun(cfg, states, acts) && j < |acts|
    requires Decided(cfg, states, acts, id, end, j) || Decides(cfg, states[j], acts[j], id, end)
    ensures Decided(cfg, states, acts, id, end, j + 1)
  {
    hide Decides, IsRun;
  }

  /**
   Every ending has its cause. From the first state on, a record is released or
   cancelled only if a release or cancel was accepted for it, expired only if the
   worker found its time to be up, and failed only if its engine did not come up;
   and what it is bound for was decided in the same way.
   */
  lemma {:induction false} EveryEndHasACause(cfg: Config, states: seq<State>, acts: seq<Action>, id: string, j: nat)
    requires cfg.Valid() && IsRun(cfg, states, acts) && Init(states[0]) && j < |states| && id in states[j].d.table
    ensures HasCause(cfg, states, acts, id, j)
  {
    hide Next, Inv, Moves, Decides, Decided, HasCause;
    if j > 0 {
      InitInv(cfg, states[0]);
      RunInv(cfg, states, acts, j - 1);
      StepAt(cfg, states, acts, j - 1);
      assert acts[j - 1].StopCall? ==> acts[j - 1].target == Released || acts[j - 1].target == Cancelled;
      hide Enabled, Init;
      if id in states[j - 1].d.table {
        EveryEndHasACause(cfg, states, acts, id, j - 1);
        CauseStays(cfg, states, acts, id, j - 1);
      } else {
        NewHasCause(cfg, states[j - 1], acts[j - 1], id);
        CauseAppears(cfg, states, acts, id, j - 1);
      }
    }
  }

  lemma CauseStays(cfg: Config, states: seq<State>, acts: seq<Action>, id: string, j: nat)
    requires cfg.Valid() && IsRun(cfg, states, acts) && j < |acts| && Inv(cfg, states[j])
    requires Enabled(cfg, states[j], acts[j]) && states[j + 1] == Next(cfg, states[j], acts[j])
    requires acts[j].StopCall? ==> acts[j].target == Released || acts[j].target == Cancelled
    requires id in states[j].d.table && id in states[j + 1].d.table && HasCause(cfg, states, acts, id, j)
    ensures HasCause(cfg, states, acts, id, j + 1)
  {
    var l, l' := states[j].d.table[id], states[j + 1].d.table[id];
    hide Next, Enabled, Inv, Moves, Decides, Decided, IsRun;
    StepMoves(cfg, states[j], acts[j], id);
    MovedHasCause(cfg, states[j], acts[j], id, l, l');
    if Terminal(l'.state) {
      DecidedLater(cfg, states, acts, id, l'.state, j);
    }
    if l'.terminalTarget.Some? {
      DecidedLater(cfg, states, acts, id, l'.terminalTarget.value, j);
    }
  }

  lemma CauseAppears(cfg: Config, states: seq<State>, acts: seq<Action>, id: string, j: nat)
    requires IsRun(cfg, states, acts) && j < |acts| && id in states[j + 1].d.table
    requires var l := states[j + 1].d.table[id];
      l.terminalTarget == None && (Terminal(l.state) ==> Decides(cfg, states[j], acts[j], id, l.state))
    ensures HasCause(cfg, states, acts, id, j + 1)
  {
    var end := states[j + 1].d.table[id].state;
    hide Decides, Decided, IsRun;
    if Terminal(end) {
      DecidedLater(cfg, states, acts, id, end, j);
    }
  }

  // ---- A lease that has ended is remembered ----

  /** A record that ends is dated by the step that ends it. */
  lemma EndIsDated(cfg: Config, s: State, a: Action, id: string)
    requires cfg.Valid() && Inv(cfg, s) && Enabled(cfg, s, a)
    requires id in s.d.table && !Terminal(s.d.table[id].state)
    requires id in Next(cfg, s, a).d.table && Terminal(Next(cfg, s, a).d.table[id].state)
    ensures Next(cfg, s, a).d.table[id].terminalAt == Some(s.now)
    ensures Next(cfg, s, a).d.table[id].activeDeadline == None
  {
    hide Next, Enabled, Inv, AcceptsStop, FindsOverdue, FailsToStart, Decides;
    StepMoves(cfg, s, a, id);
  }

  /** For the whole retention after its end a lease can be looked up, as it ended. */
  lemma {:induction false} EndedStaysKnown(cfg: Config, states: seq<State>, acts: seq<Action>, id: string,
                                           i: nat, j: nat)
    requires cfg.Valid() && IsRun(cfg, states, acts) && Inv(cfg, states[0]) && i <= j < |states|
    requires id in states[i].d.table && states[i].d.table[id].terminalAt.Some?
    requires states[j].now < states[i].d.table[id].terminalAt.value + cfg.retention
    ensures id in states[j].d.table && states[j].d.table[id] == states[i].d.table[id]
    ensures GetLease(cfg, states[j].d, id, cfg.epoch) == Accepted(Snap(id, states[i].d.table[id]))
  {
    hide Next, Enabled;
    if i < j {
      RunInv(cfg, states, acts, j - 1);
      StepAt(cfg, states, acts, j - 1);
      Q.TimeGoesOn(cfg, states[j - 1], acts[j - 1]);
      EndedStaysKnown(cfg, states, acts, id, i, j - 1);
      Q.YoungStays(cfg, states[j - 1], acts[j - 1], id);
      StepClimbs(cfg, states[j - 1], acts[j - 1], id);
      EndedIsTerminal(cfg, states[j - 1], id);
    }
    hide Inv;
  }

  lemma EndedIsTerminal(cfg: Config, s: State, id: string)
    requires Inv(cfg, s) && id in s.d.table && s.d.table[id].terminalAt.Some?
    ensures Terminal(s.d.table[id].state)
  {
    assert LeaseOk(cfg, s.now, s.d.table[id]);
  }
}
