/**
 What holds over whole runs of the lease protocol: bounded ownership, final
 stop requests, isolation, at most one start per admission, and draining.
 Every theorem speaks about runs that begin in a state satisfying the
 invariant, in particular about runs from the initial state.
 */
module Runs {
  import opened Prelude
  import opened Leases
  import opened Protocol
  import opened Invariant

  lemma StepAt(cfg: Config, states: seq<State>, acts: seq<Action>, k: nat)
    requires IsRun(cfg, states, acts) && k < |acts|
    ensures Enabled(cfg, states[k], acts[k]) && states[k + 1] == Next(cfg, states[k], acts[k])
  {
    hide Next, Enabled;
  }

  // ---- Bounded ownership ----

  /** A turn that lets the owner run on ends in a sleep that overshoots its deadline by less than a millisecond. */
  lemma OwnerSleeps(cfg: Config, s: State, id: string)
    requires cfg.Valid() && Inv(cfg, s) && s.worker.Wait? && s.d.mode == Ready && s.d.current == Some(id)
    requires ExpireOwner(s.d.table[id], s.now).state != Stopping
    ensures var l := s.d.table[id];
      && l.state == Active && l.activeDeadline.Some?
      && var span := NextWait(Settle(cfg, s), s.d.queue, s.d.current, s.now);
         span > 0 && s.now + span < l.activeDeadline.value + MILLI
  {
    OwnerIsActive(cfg, s, id);
    SettleInv(cfg, s);
    TurnOwnedIs(cfg, s, id);
    hide Inv, Next, NextWait, Settle;
    var t := Settle(cfg, s);
    assert OwnerDeadline(t, s.d.current) == [s.d.table[id].activeDeadline.value];
    NextWaitBounds(t, s.d.queue, s.d.current, s.now);
  }

  lemma OwnerIsActive(cfg: Config, s: State, id: string)
    requires cfg.Valid() && Inv(cfg, s) && s.worker.Wait? && s.d.mode == Ready && s.d.current == Some(id)
    ensures id in s.d.table && s.d.table[id].state != Queued
    ensures s.d.table[id].state == Active ==> s.d.table[id].activeDeadline.Some?
    ensures s.d.table[id].state == Active || s.d.table[id].state == Stopping
  {
  }

  lemma TenureTurn(cfg: Config, s: State, id: string, granted: int)
    requires cfg.Valid() && Inv(cfg, s) && s.worker.Wait?
    requires s.d.mode == Ready && s.d.current == Some(id) && OwnedSince(cfg, s, id, granted)
    ensures id in Next(cfg, s, WorkerTurn).d.table && OwnedSince(cfg, Next(cfg, s, WorkerTurn), id, granted)
  {
    OwnerIsActive(cfg, s, id);
    TurnOwnedIs(cfg, s, id);
    if ExpireOwner(s.d.table[id], s.now).state != Stopping {
      OwnerSleeps(cfg, s, id);
    }
    hide Inv, Next, NextWait, Settle;
  }

  /** A call leaves the owner's record as it is, or asks it to stop and wakes the worker. */
  lemma CallOnOwner(cfg: Config, s: State, a: Action, id: string)
    requires Inv(cfg, s) && Enabled(cfg, s, a) && (a.SubmitCall? || a.StopCall?)
    requires s.d.current == Some(id) && id in s.d.table && id in Next(cfg, s, a).d.table
    ensures var l, l' := s.d.table[id], Next(cfg, s, a).d.table[id];
      l'.state != l.state ==> Next(cfg, s, a).worker == if s.worker.Wait? then Wait(s.now) else s.worker
    ensures var l, l' := s.d.table[id], Next(cfg, s, a).d.table[id];
      && (l'.state == l.state || l'.state == Stopping || Terminal(l'.state))
      && l'.activeDeadline == (if Terminal(l'.state) && l'.state != l.state then None else l.activeDeadline)
    ensures var w, w' := s.worker, Next(cfg, s, a).worker;
      Next(cfg, s, a).now == s.now && (w' == w || (w.Wait? && w' == Wait(s.now)))
  {
    if a.SubmitCall? {
      hide RequestStop, TimesOk;
    } else {
      hide Submit, TimesOk;
    }
  }

  lemma TenureCall(cfg: Config, s: State, a: Action, id: string, granted: int)
    requires cfg.Valid() && Inv(cfg, s) && Enabled(cfg, s, a) && (a.SubmitCall? || a.StopCall?)
    requires s.d.mode == Ready && s.d.current == Some(id) && OwnedSince(cfg, s, id, granted)
    ensures id in Next(cfg, s, a).d.table ==> OwnedSince(cfg, Next(cfg, s, a), id, granted)
  {
    if id in Next(cfg, s, a).d.table {
      CallOnOwner(cfg, s, a, id);
      if s.worker.Wait? {
        WaitIsAhead(cfg, s);
      }
      hide Next, Enabled, Inv;
    }
  }

  lemma WaitIsAhead(cfg: Config, s: State)
    requires Inv(cfg, s) && s.worker.Wait?
    ensures s.now <= s.worker.wakeAt
  {
  }

  /** Whatever the step, an owner that stays the owner keeps its grant time. */
  lemma TenureStep(cfg: Config, s: State, a: Action, id: string, granted: int)
    requires cfg.Valid() && Inv(cfg, s) && Enabled(cfg, s, a)
    requires s.d.mode == Ready && s.d.current == Some(id) && OwnedSince(cfg, s, id, granted)
    requires Next(cfg, s, a).d.mode == Ready && Next(cfg, s, a).d.current == Some(id)
    ensures id in Next(cfg, s, a).d.table && OwnedSince(cfg, Next(cfg, s, a), id, granted)
  {
    CurrentStays(cfg, s, a, id);
    hide Turn, Submit, RequestStop;
    match a
    case WorkerTurn => TenureTurn(cfg, s, id, granted);
    case SubmitCall(_, _, _, _) => TenureCall(cfg, s, a, id, granted);
    case StopCall(_, _, _, _) => TenureCall(cfg, s, a, id, granted);
    case _ =>
  }

  lemma CurrentStays(cfg: Config, s: State, a: Action, id: string)
    requires cfg.Valid() && Inv(cfg, s) && Enabled(cfg, s, a) && Next(cfg, s, a).d.current == Some(id)
    ensures id in Next(cfg, s, a).d.table
  {
    hide Next;
    StepInv(cfg, s, a);
  }

  lemma OwnedSinceBounds(cfg: Config, s: State, id: string, granted: int)
    requires cfg.Valid() && Inv(cfg, s) && s.d.mode == Ready && s.d.current == Some(id)
    requires OwnedSince(cfg, s, id, granted)
    ensures s.now <= granted + cfg.MaxHold()
  {
  }

  ghost predicate Grants(s: State, s': State, id: string) {
    s.d.current != Some(id) && s'.d.current == Some(id)
  }

  lemma {:induction false} TenureHolds(cfg: Config, states: seq<State>, acts: seq<Action>, id: string, i: nat, j: nat)
    requires cfg.Valid() && IsRun(cfg, states, acts) && Inv(cfg, states[0]) && i < j < |states|
    requires Grants(states[i], states[i + 1], id)
    requires forall k | i < k <= j :: states[k].d.current == Some(id) && states[k].d.mode == Ready
    ensures Inv(cfg, states[j]) && OwnedSince(cfg, states[j], id, states[i].now)
  {
    hide Next, Enabled, Inv;
    RunInv(cfg, states, acts, j);
    RunInv(cfg, states, acts, j - 1);
    StepAt(cfg, states, acts, j - 1);
    if j == i + 1 {
      GrantedNow(cfg, states[i], acts[i], id);
    } else {
      TenureHolds(cfg, states, acts, id, i, j - 1);
      TenureStep(cfg, states[j - 1], acts[j - 1], id, states[i].now);
    }
  }

  /** The instant of the grant is where the tenure begins. */
  lemma GrantedNow(cfg: Config, s: State, a: Action, id: string)
    requires cfg.Valid() && Inv(cfg, s) && Enabled(cfg, s, a) && Grants(s, Next(cfg, s, a), id)
    ensures id in Next(cfg, s, a).d.table && OwnedSince(cfg, Next(cfg, s, a), id, s.now)
  {
    GrantIs(cfg, s, a, id);
    assert Next(cfg, s, a).now == s.now;
  }

  /** The only step that hands out the GPU is a worker turn on a free GPU; it
      starts a live request strictly before that request's queue deadline. */
  lemma GrantIs(cfg: Config, s: State, a: Action, id: string)
    requires cfg.Valid() && Inv(cfg, s) && Enabled(cfg, s, a) && Grants(s, Next(cfg, s, a), id)
    ensures a == WorkerTurn && s.d.mode == Ready && s.d.current == None
    ensures id in s.d.table && s.d.table[id].state == Queued
    ensures s.now < s.d.table[id].queueDeadline <= s.d.table[id].createdAt + cfg.maxQueueWait
    ensures Next(cfg, s, a).worker == InStart(id, s.now)
    ensures id in Next(cfg, s, a).d.table
            && Next(cfg, s, a).d.table[id] == s.d.table[id].(state := Starting)
  {
    if a == WorkerTurn && s.d.mode == Ready && s.d.current.Some? {
      TurnOwnedIs(cfg, s, s.d.current.value);
    } else if a == WorkerTurn && s.d.mode == Ready {
      var k := TurnIdleIs(cfg, s);
      SettleAges(cfg, s);
    }
  }

  /**
   Bounded ownership. A lease granted at time g has given up the GPU, or the
   dispatcher is degraded, at every time past g + MaxHold, whatever clients do.
   */
  lemma BoundedOwnership(cfg: Config, states: seq<State>, acts: seq<Action>, id: string, i: nat, j: nat)
    requires cfg.Valid() && IsRun(cfg, states, acts) && Inv(cfg, states[0]) && i < j < |states|
    requires Grants(states[i], states[i + 1], id)
    requires states[j].now > states[i].now + cfg.MaxHold()
    ensures exists k :: i < k <= j && (states[k].d.current != Some(id) || states[k].d.mode != Ready)
  {
    hide Next, Enabled, Inv;
    if forall k | i < k <= j :: states[k].d.current == Some(id) && states[k].d.mode == Ready {
      TenureHolds(cfg, states, acts, id, i, j);
      OwnedSinceBounds(cfg, states[j], id, states[i].now);
    }
  }

  // ---- Every record only climbs ----

  /** What one step may do to a record that stays in the table. */
  predicate Climbs(l: Lease, l': Lease) {
    && Rank(l.state) <= Rank(l'.state)
    && (Terminal(l.state) ==> l' == l)
    && l'.service == l.service && l'.createdAt == l.createdAt
    && l'.waitTimeout == l.waitTimeout && l'.queueDeadline == l.queueDeadline
  }

  /** A stop has been accepted for this record. */
  predicate StopAsked(l: Lease) {
    Terminal(l.state) || l.state == Stopping || (l.state == Starting && l.cancelRequested)
  }

  lemma NotReadyTurn(cfg: Config, s: State)
    requires s.worker.Wait? && s.d.mode != Ready
    ensures Next(cfg, s, WorkerTurn)
      == State(s.now, s.d.(table := Settle(cfg, s)), Wait(s.now + LONGEST_SLEEP))
  {
    hide Prune, Sweep;
  }

  lemma TurnClimbs(cfg: Config, s: State, id: string)
    requires cfg.Valid() && Inv(cfg, s) && s.worker.Wait?
    requires id in Next(cfg, s, WorkerTurn).d.table
    ensures id in s.d.table && Climbs(s.d.table[id], Next(cfg, s, WorkerTurn).d.table[id])
    ensures StopAsked(s.d.table[id]) ==> StopAsked(Next(cfg, s, WorkerTurn).d.table[id])
  {
    hide Next, Settle, Inv, NextWait, Climbs, StopAsked;
    if s.d.mode != Ready {
      SettleAges(cfg, s);
      NotReadyTurn(cfg, s);
      AgedClimbs(cfg, s, id);
    } else if s.d.current.Some? {
      OwnedTurnClimbs(cfg, s, id, s.d.current.value);
    } else {
      IdleTurnClimbs(cfg, s, id);
    }
  }

  lemma AgedClimbs(cfg: Config, s: State, id: string)
    requires Inv(cfg, s) && id in Settle(cfg, s)
    ensures id in s.d.table && Climbs(s.d.table[id], Settle(cfg, s)[id])
    ensures StopAsked(s.d.table[id]) ==> StopAsked(Settle(cfg, s)[id])
  {
    SettleAges(cfg, s);
    hide Settle, Inv;
  }

  lemma OwnedTurnClimbs(cfg: Config, s: State, id: string, owner: string)
    requires cfg.Valid() && Inv(cfg, s) && s.worker.Wait? && s.d.mode == Ready && s.d.current == Some(owner)
    requires id in Next(cfg, s, WorkerTurn).d.table
    ensures id in s.d.table && Climbs(s.d.table[id], Next(cfg, s, WorkerTurn).d.table[id])
    ensures StopAsked(s.d.table[id]) ==> StopAsked(Next(cfg, s, WorkerTurn).d.table[id])
  {
    OwnerIsActive(cfg, s, owner);
    TurnOwnedIs(cfg, s, owner);
    hide Next, Settle, Inv, NextWait;
    if id != owner {
      AgedClimbs(cfg, s, id);
    }
  }

  lemma IdleTurnClimbs(cfg: Config, s: State, id: string)
    requires cfg.Valid() && Inv(cfg, s) && s.worker.Wait? && s.d.mode == Ready && s.d.current == None
    requires id in Next(cfg, s, WorkerTurn).d.table
    ensures id in s.d.table && Climbs(s.d.table[id], Next(cfg, s, WorkerTurn).d.table[id])
    ensures StopAsked(s.d.table[id]) ==> StopAsked(Next(cfg, s, WorkerTurn).d.table[id])
  {
    var k := TurnIdleIs(cfg, s);
    hide Next, Settle, Inv, NextWait;
    AgedClimbs(cfg, s, id);
  }

  lemma CallClimbs(cfg: Config, s: State, a: Action, id: string)
    requires (a.SubmitCall? || a.StopCall?) && Enabled(cfg, s, a)
    requires id in s.d.table && id in Next(cfg, s, a).d.table
    ensures Climbs(s.d.table[id], Next(cfg, s, a).d.table[id])
    ensures StopAsked(s.d.table[id]) ==> StopAsked(Next(cfg, s, a).d.table[id])
  {
  }

  lemma EngineClimbs(cfg: Config, s: State, a: Action, id: string)
    requires (a.StartDone? || a.StopDone?) && Enabled(cfg, s, a)
    requires s.d.table[s.worker.id].state == if a.StartDone? then Starting else Stopping
    requires s.d.table[s.worker.id].terminalTarget.Some? ==> Terminal(s.d.table[s.worker.id].terminalTarget.value)
    requires id in s.d.table
    ensures id in Next(cfg, s, a).d.table
    ensures Climbs(s.d.table[id], Next(cfg, s, a).d.table[id])
    ensures StopAsked(s.d.table[id]) ==> StopAsked(Next(cfg, s, a).d.table[id])
  {
  }

  /** States only move upwards, terminal records never change, and no step
      extends a deadline or rewrites a request's parameters. */
  lemma StepClimbs(cfg: Config, s: State, a: Action, id: string)
    requires cfg.Valid() && Inv(cfg, s) && Enabled(cfg, s, a)
    requires id in s.d.table && id in Next(cfg, s, a).d.table
    ensures Climbs(s.d.table[id], Next(cfg, s, a).d.table[id])
    ensures StopAsked(s.d.table[id]) ==> StopAsked(Next(cfg, s, a).d.table[id])
  {
    match a
    case WorkerTurn => TurnClimbs(cfg, s, id);
    case SubmitCall(_, _, _, _) => CallClimbs(cfg, s, a, id);
    case StopCall(_, _, _, _) => CallClimbs(cfg, s, a, id);
    case StartDone(_) => EngineClimbs(cfg, s, a, id);
    case StopDone(_) => EngineClimbs(cfg, s, a, id);
    case _ =>
  }

  lemma {:induction false} RunClimbs(cfg: Config, states: seq<State>, acts: seq<Action>, id: string, i: nat, j: nat)
    requires cfg.Valid() && IsRun(cfg, states, acts) && Inv(cfg, states[0]) && i <= j < |states|
    requires forall k | i <= k <= j :: id in states[k].d.table
    ensures Climbs(states[i].d.table[id], states[j].d.table[id])
  {
    hide Next, Enabled, Inv;
    if i < j {
      RunClimbs(cfg, states, acts, id, i, j - 1);
      RunInv(cfg, states, acts, j - 1);
      StepAt(cfg, states, acts, j - 1);
      StepClimbs(cfg, states[j - 1], acts[j - 1], id);
    }
  }

  /** At most one start per admission: while a record stays in the table it is
      handed the GPU at most once. */
  lemma AtMostOneStart(cfg: Config, states: seq<State>, acts: seq<Action>, id: string, i: nat, j: nat)
    requires cfg.Valid() && IsRun(cfg, states, acts) && Inv(cfg, states[0]) && i < j < |acts|
    requires forall k | i <= k <= j :: id in states[k].d.table
    requires Grants(states[i], states[i + 1], id)
    ensures !Grants(states[j], states[j + 1], id)
  {
    hide Next, Enabled, Inv;
    RunInv(cfg, states, acts, i);
    RunInv(cfg, states, acts, j);
    GrantIs(cfg, states[i], acts[i], id);
    RunClimbs(cfg, states, acts, id, i + 1, j);
    if Grants(states[j], states[j + 1], id) {
      GrantIs(cfg, states[j], acts[j], id);
    }
  }

  // ---- Stop requests are final ----

  predicate AcceptsStop(cfg: Config, s: State, a: Action) {
    a.StopCall? && RequestStop(cfg, s.d, s.now, a.service, a.id, a.epoch, a.target).answer.Accepted?
  }

  lemma AcceptedStopIsAsked(cfg: Config, s: State, a: Action)
    requires Inv(cfg, s) && Enabled(cfg, s, a) && AcceptsStop(cfg, s, a)
    ensures a.id in Next(cfg, s, a).d.table && StopAsked(Next(cfg, s, a).d.table[a.id])
  {
  }

  /**
   Stop requests are final. Once a release or cancel for `id` is accepted, in
   whatever state it found the request (or before the request was even known),
   the request is never active again until its record is pruned.
   */
  lemma {:induction false} StopIsFinal(cfg: Config, states: seq<State>, acts: seq<Action>, i: nat, j: nat)
    requires cfg.Valid() && IsRun(cfg, states, acts) && Inv(cfg, states[0]) && i < j < |states|
    requires AcceptsStop(cfg, states[i], acts[i])
    requires forall k | i < k <= j :: acts[i].id in states[k].d.table
    ensures StopAsked(states[j].d.table[acts[i].id])
    ensures states[j].d.table[acts[i].id].state != Active
  {
    hide Next, Enabled, Inv;
    RunInv(cfg, states, acts, j - 1);
    StepAt(cfg, states, acts, j - 1);
    var c := acts[i];
    if j == i + 1 {
      AcceptedStopIsAsked(cfg, states[i], c);
    } else {
      StopIsFinal(cfg, states, acts, i, j - 1);
      StepClimbs(cfg, states[j - 1], acts[j - 1], c.id);
    }
  }

  // ---- Isolation and idempotence of client calls ----

  /** Submitting a known id again changes nothing at all; when it is accepted
      the answer is the record as it stands. */
  lemma ResubmitChangesNothing(cfg: Config, s: State, service: string, id: string, epoch: string, wait: int)
    requires id in s.d.table
    ensures Notify(s, Submit(cfg, s.d, s.now, service, id, epoch, wait)) == s
    ensures var a := Submit(cfg, s.d, s.now, service, id, epoch, wait).answer;
      a.Accepted? ==> a.snapshot == Snap(id, s.d.table[id]) && s.d.table[id].service == service
  {
  }

  /** A call about `id` leaves every other record as it is, except that a
      tombstone past its retention may go; a call with the wrong service or a
      stale epoch changes nothing. */
  lemma CallsAreIsolated(cfg: Config, s: State, a: Action, id: string)
    requires Inv(cfg, s) && Enabled(cfg, s, a)
    requires (a.SubmitCall? || a.StopCall?) && a.id == id
    ensures var s' := Next(cfg, s, a);
      && s'.d.current == s.d.current && s'.d.mode == s.d.mode && s'.now == s.now
      && (forall x | x != id :: x in s'.d.table ==> x in s.d.table && s'.d.table[x] == s.d.table[x])
      && (forall x | x in s.d.table && x !in s'.d.table :: Stale(cfg, s.d.table[x], s.now) && s.d.current != Some(x))
      && (a.epoch != cfg.epoch || (id in s.d.table && s.d.table[id].service != a.service) ==> s' == s)
  {
    if a.SubmitCall? {
      hide RequestStop;
    } else {
      hide Submit;
    }
  }

  // ---- Degraded is absorbing ----

  lemma DegradedNoStart(cfg: Config, s: State)
    requires Inv(cfg, s) && s.d.mode == Degraded
    ensures !s.worker.InStart?
  {
  }

  lemma DegradedStep(cfg: Config, s: State, a: Action)
    requires cfg.Valid() && Inv(cfg, s) && Enabled(cfg, s, a) && s.d.mode == Degraded
    ensures Next(cfg, s, a).d.mode == Degraded && !Next(cfg, s, a).worker.InStart?
  {
    StepInv(cfg, s, a);
  }

  /** Once degraded, the dispatcher stays degraded and never starts an engine. */
  lemma {:induction false} DegradedForever(cfg: Config, states: seq<State>, acts: seq<Action>, i: nat, j: nat)
    requires cfg.Valid() && IsRun(cfg, states, acts) && Inv(cfg, states[0]) && i <= j < |states|
    requires states[i].d.mode == Degraded
    ensures states[j].d.mode == Degraded && !states[j].worker.InStart?
  {
    hide Next, Enabled, Inv;
    RunInv(cfg, states, acts, j);
    if i == j {
      DegradedNoStart(cfg, states[j]);
    } else {
      DegradedForever(cfg, states, acts, i, j - 1);
      RunInv(cfg, states, acts, j - 1);
      StepAt(cfg, states, acts, j - 1);
      DegradedStep(cfg, states[j - 1], acts[j - 1]);
    }
  }

  // ---- Sleeping ----

  /** When a turn in the ready mode ends in a sleep, every deadline that counts
      lies ahead, the sleep is in (0, 50 ms], and it overshoots none of those
      deadlines by a millisecond. */
  lemma WakeUpBound(cfg: Config, s: State)
    requires cfg.Valid() && Inv(cfg, s) && s.worker.Wait? && s.d.mode == Ready
    requires Next(cfg, s, WorkerTurn).worker.Wait?
    ensures var s' := Next(cfg, s, WorkerTurn);
      && 0 < s'.worker.wakeAt - s'.now <= 50_000
      && (forall id | id in s'.d.table && s'.d.table[id].state == Queued ::
            s'.now < s'.d.table[id].queueDeadline && s'.worker.wakeAt < s'.d.table[id].queueDeadline + MILLI)
      && (forall id | id in s'.d.table && s'.d.table[id].state == Active ::
            && s'.d.table[id].activeDeadline.Some?
            && s'.now < s'.d.table[id].activeDeadline.value
            && s'.worker.wakeAt < s'.d.table[id].activeDeadline.value + MILLI)
  {
    SettleInv(cfg, s);
    SettleAges(cfg, s);
    var t := Settle(cfg, s);
    assert forall id | id in t && t[id].state == Active :: s.d.current == Some(id);
    if s.d.current.Some? {
      var owner := s.d.current.value;
      OwnerIsActive(cfg, s, owner);
      TurnOwnedIs(cfg, s, owner);
      OwnerSleeps(cfg, s, owner);
      hide Next, Inv, Settle;
      NextWaitBounds(t, s.d.queue, s.d.current, s.now);
    } else {
      var k := TurnIdleIs(cfg, s);
      hide Next, Inv, Settle;
      NextWaitBounds(t, [], None, s.now);
    }
  }

  /** When the time of a live request is up. */
  function DeadlineOf(l: Lease): int {
    if l.state == Active && l.activeDeadline.Some? then l.activeDeadline.value else l.queueDeadline
  }

  /** The sleep is of 50 ms, or ends at the deadline of a request that waits or is active, but lasts a millisecond. */
  ghost predicate EndsForCause(t: Table, now: int, wakeAt: int) {
    || wakeAt == now + 50_000
    || exists id :: id in t && (t[id].state == Queued || t[id].state == Active)
         && wakeAt == Max(now + 1000, DeadlineOf(t[id]))
  }

  lemma SleepsForCause(t: Table, queue: seq<string>, current: Option<string>, now: int)
    ensures EndsForCause(t, now, now + NextWait(t, queue, current, now))
  {
    NextWaitIsNeeded(t, queue, current, now);
    hide NextWait;
    var span := NextWait(t, queue, current, now);
    if x :| x in OwnerDeadline(t, current) && span == Max(MILLI, x - now) {
      assert DeadlineOf(t[current.value]) == x;
    }
  }

  /** The worker never wakes up for nothing. */
  lemma NoNeedlessWakeUp(cfg: Config, s: State)
    requires cfg.Valid() && Inv(cfg, s) && s.worker.Wait?
    ensures var s' := Next(cfg, s, WorkerTurn);
      s'.worker.Wait? ==> s'.now == s.now && EndsForCause(s'.d.table, s'.now, s'.worker.wakeAt)
  {
    var t := Settle(cfg, s);
    var owned := s.d.mode == Ready && s.d.current.Some?;
    assert owned ==> s.d.current.value in s.d.table && s.d.table[s.d.current.value].state != Queued;
    hide Next, Inv, Settle, NextWait, EndsForCause;
    if s.d.mode != Ready {
      NotReadyTurn(cfg, s);
      FiftyMillis(t, s.now);
    } else if owned {
      TurnOwnedIs(cfg, s, s.d.current.value);
      SleepsForCause(t, s.d.queue, s.d.current, s.now);
    } else {
      var k := TurnIdleIs(cfg, s);
      SleepsForCause(t, [], None, s.now);
    }
  }

  lemma FiftyMillis(t: Table, now: int)
    ensures EndsForCause(t, now, now + LONGEST_SLEEP)
  {
  }

  // ---- Draining ----

  /** Records below level `n` of the climb. */
  function Below(t: Table, n: nat): set<string> {
    set id | id in t && Rank(t[id].state) < n
  }

  /** How many rank steps the records of the table still have before them. */
  function Remaining(t: Table): nat {
    |Below(t, 1)| + |Below(t, 2)| + |Below(t, 3)| + |Below(t, 4)|
  }

  predicate Admits(cfg: Config, s: State, a: Action) {
    a.SubmitCall? && Submit(cfg, s.d, s.now, a.service, a.id, a.epoch, a.wait).notify
  }

  /** Without an admission no unfinished record is new. */
  lemma NothingNew(cfg: Config, s: State, a: Action, id: string)
    requires cfg.Valid() && Inv(cfg, s) && Enabled(cfg, s, a) && !Admits(cfg, s, a)
    requires id in Next(cfg, s, a).d.table && !Terminal(Next(cfg, s, a).d.table[id].state)
    ensures id in s.d.table && Rank(s.d.table[id].state) <= Rank(Next(cfg, s, a).d.table[id].state)
  {
    if a == WorkerTurn {
      TurnClimbs(cfg, s, id);
    }
    if id in s.d.table {
      StepClimbs(cfg, s, a, id);
    }
  }

  lemma BelowShrinks(cfg: Config, s: State, a: Action, n: nat)
    requires cfg.Valid() && Inv(cfg, s) && Enabled(cfg, s, a) && !Admits(cfg, s, a) && n <= 4
    ensures Below(Next(cfg, s, a).d.table, n) <= Below(s.d.table, n)
  {
    forall id | id in Below(Next(cfg, s, a).d.table, n) ensures id in Below(s.d.table, n) {
      NothingNew(cfg, s, a, id);
    }
  }

  /** Without an admission no step raises the remaining work, and every step
      that moves some record lowers it: the number of such steps is bounded by
      the remaining ranks. */
  lemma RemainingFalls(cfg: Config, s: State, a: Action)
    requires cfg.Valid() && Inv(cfg, s) && Enabled(cfg, s, a) && !Admits(cfg, s, a)
    ensures Remaining(Next(cfg, s, a).d.table) <= Remaining(s.d.table)
    ensures Moves(s, Next(cfg, s, a)) ==> Remaining(Next(cfg, s, a).d.table) < Remaining(s.d.table)
  {
    hide Next, Enabled, Inv, Admits, Climbs;
    var t, t' := s.d.table, Next(cfg, s, a).d.table;
    forall n: nat | 1 <= n <= 4 ensures Below(t', n) <= Below(t, n) && |Below(t', n)| <= |Below(t, n)| {
      BelowShrinks(cfg, s, a, n);
      SubsetSize(Below(t', n), Below(t, n));
    }
    if id :| id in t && id in t' && t[id].state != t'[id].state {
      StepClimbs(cfg, s, a, id);
      StateMoves(t[id], t'[id]);
      var n := Rank(t[id].state) + 1;
      assert id in Below(t, n) && id !in Below(t', n);
      SubsetSize(Below(t', n), Below(t, n) - {id});
    }
  }

  lemma StateMoves(l: Lease, l': Lease)
    requires Climbs(l, l') && l.state != l'.state
    ensures Rank(l.state) < Rank(l'.state) <= 4
  {
  }

  /** Some record that is in both states changes its state. */
  ghost predicate Moves(s: State, s': State) {
    exists id :: id in s.d.table && id in s'.d.table && s.d.table[id].state != s'.d.table[id].state
  }

  ghost predicate MovesAt(states: seq<State>, k: int) {
    0 <= k < |states| - 1 && Moves(states[k], states[k + 1])
  }

  ghost function EffectiveSteps(states: seq<State>, j: nat): set<int> {
    set k | 0 <= k < j && MovesAt(states, k)
  }

  lemma OneStepMore(states: seq<State>, j: nat)
    requires 0 < j < |states|
    ensures |EffectiveSteps(states, j)| == |EffectiveSteps(states, j - 1)| + if MovesAt(states, j - 1) then 1 else 0
  {
    hide MovesAt;
    var before, after := EffectiveSteps(states, j - 1), EffectiveSteps(states, j);
    assert after == if MovesAt(states, j - 1) then before + {j - 1} else before;
  }

  /** The number of steps that move a record never exceeds the ranks that remained at the start. */
  lemma {:induction false} EffectiveStepsBounded(cfg: Config, states: seq<State>, acts: seq<Action>, j: nat)
    requires cfg.Valid() && IsRun(cfg, states, acts) && Inv(cfg, states[0]) && j < |states|
    requires forall k | 0 <= k < |acts| :: !Admits(cfg, states[k], acts[k])
    ensures |EffectiveSteps(states, j)| + Remaining(states[j].d.table) <= Remaining(states[0].d.table)
  {
    hide Next, Enabled, Inv, Admits, Remaining;
    if j == 0 {
      assert EffectiveSteps(states, 0) == {};
    } else {
      EffectiveStepsBounded(cfg, states, acts, j - 1);
      RunInv(cfg, states, acts, j - 1);
      StepAt(cfg, states, acts, j - 1);
      RemainingFalls(cfg, states[j - 1], acts[j - 1]);
      OneStepMore(states, j);
    }
  }

  /** Every request that can still be granted is due by `due`. */
  ghost predicate DueBy(cfg: Config, s: State, due: int) {
    && (forall id | id in s.d.table && s.d.table[id].state == Queued ::
          s.d.table[id].queueDeadline <= due && (s.d.mode == Ready ==> s.now < due + cfg.MaxHold()))
    && (s.d.mode == Ready && s.d.current.Some? && s.d.current.value in s.d.table ==>
          s.d.table[s.d.current.value].queueDeadline <= due)
  }

  /** The owner is due, and with it everything that waits behind it. */
  lemma TickDue(cfg: Config, s: State, span: int, due: int)
    requires cfg.Valid() && Inv(cfg, s) && Enabled(cfg, s, Tick(span))
    requires s.d.mode == Ready && DueBy(cfg, s, due)
    ensures DueBy(cfg, Next(cfg, s, Tick(span)), due)
  {
    var s' := Next(cfg, s, Tick(span));
    StepInv(cfg, s, Tick(span));
    if s.d.current.Some? {
      OwnedSinceBounds(cfg, s', s'.d.current.value, s'.d.table[s'.d.current.value].queueDeadline - 1);
    }
  }

  lemma QueuedDue(cfg: Config, s: State, a: Action, due: int, id: string)
    requires cfg.Valid() && Inv(cfg, s) && Enabled(cfg, s, a) && !Admits(cfg, s, a) && !a.Tick?
    requires s.d.mode == Ready && DueBy(cfg, s, due)
    requires var t' := Next(cfg, s, a).d.table; id in t' && t'[id].state == Queued
    ensures Next(cfg, s, a).d.table[id].queueDeadline <= due && s.now < due + cfg.MaxHold()
  {
    NothingNew(cfg, s, a, id);
    StepClimbs(cfg, s, a, id);
    hide Next, Enabled, Inv, Admits;
  }

  lemma OwnerDue(cfg: Config, s: State, a: Action, due: int, id: string)
    requires cfg.Valid() && Inv(cfg, s) && Enabled(cfg, s, a)
    requires s.d.mode == Ready && DueBy(cfg, s, due)
    requires var s' := Next(cfg, s, a); s'.d.mode == Ready && s'.d.current == Some(id) && id in s'.d.table
    ensures Next(cfg, s, a).d.table[id].queueDeadline <= due
  {
    if s.d.current != Some(id) {
      GrantIs(cfg, s, a, id);
    } else {
      OwnerIsFiled(cfg, s, id);
    }
    StepClimbs(cfg, s, a, id);
    hide Next, Enabled, Inv;
  }

  lemma OwnerIsFiled(cfg: Config, s: State, id: string)
    requires Inv(cfg, s) && s.d.current == Some(id)
    ensures id in s.d.table
  {
  }

  lemma DueByStep(cfg: Config, s: State, a: Action, due: int)
    requires cfg.Valid() && Inv(cfg, s) && Enabled(cfg, s, a) && !Admits(cfg, s, a)
    requires s.d.mode == Ready && DueBy(cfg, s, due)
    ensures DueBy(cfg, Next(cfg, s, a), due)
  {
    if a.Tick? {
      TickDue(cfg, s, a.span, due);
    } else {
      NoTimePasses(cfg, s, a);
      hide Next, Enabled, Inv, Admits;
      var s' := Next(cfg, s, a);
      forall id | id in s'.d.table && s'.d.table[id].state == Queued
        ensures s'.d.table[id].queueDeadline <= due && s'.now < due + cfg.MaxHold()
      {
        QueuedDue(cfg, s, a, due, id);
      }
      if s'.d.mode == Ready && s'.d.current.Some? && s'.d.current.value in s'.d.table {
        OwnerDue(cfg, s, a, due, s'.d.current.value);
      }
    }
  }

  lemma NoTimePasses(cfg: Config, s: State, a: Action)
    requires Enabled(cfg, s, a) && !a.Tick?
    ensures Next(cfg, s, a).now == s.now
  {
    hide Turn, Submit, RequestStop, FinishStart, FinishStop;
  }

  lemma {:induction false} DueByAlong(cfg: Config, states: seq<State>, acts: seq<Action>, j: nat)
    requires cfg.Valid() && IsRun(cfg, states, acts) && Inv(cfg, states[0]) && j < |states|
    requires forall k | 0 <= k <= j :: states[k].d.mode == Ready
    requires forall k | 0 <= k < |acts| :: !Admits(cfg, states[k], acts[k])
    ensures DueBy(cfg, states[j], states[0].now + cfg.maxQueueWait)
  {
    hide Next, Enabled, Admits, OwnerOk, WorkerOk, TimesOk;
    if j > 0 {
      DueByAlong(cfg, states, acts, j - 1);
      RunInv(cfg, states, acts, j - 1);
      StepAt(cfg, states, acts, j - 1);
      DueByStep(cfg, states[j - 1], acts[j - 1], states[0].now + cfg.maxQueueWait);
    }
  }

  /**
   Draining. In a run without new admissions, as soon as
   max_queue_wait + MaxHold has passed the dispatcher has left the ready mode
   for good, or it reports idle and every record is terminal.
   */
  lemma Drains(cfg: Config, states: seq<State>, acts: seq<Action>, j: nat)
    requires cfg.Valid() && IsRun(cfg, states, acts) && Inv(cfg, states[0]) && j < |states|
    requires states[0].d.mode == Ready
    requires forall k | 0 <= k < |acts| :: !Admits(cfg, states[k], acts[k])
    requires states[j].now >= states[0].now + cfg.maxQueueWait + cfg.MaxHold()
    ensures states[j].d.mode == Degraded
      || (ReadyReport(states[j].d) == Report(true, "idle", None) && states[j].d.current == None
          && forall id | id in states[j].d.table :: Terminal(states[j].d.table[id].state))
  {
    RunInv(cfg, states, acts, j);
    if k :| 0 <= k <= j && states[k].d.mode == Degraded {
      DegradedForever(cfg, states, acts, k, j);
    } else {
      forall k | 0 <= k <= j ensures states[k].d.mode == Ready {
        ReadyUntilDegraded(cfg, states, acts, k);
      }
      DueByAlong(cfg, states, acts, j);
      var s := states[j];
      if s.d.current.Some? {
        OwnedSinceBounds(cfg, s, s.d.current.value, s.d.table[s.d.current.value].queueDeadline - 1);
      }
    }
  }

  lemma {:induction false} ReadyUntilDegraded(cfg: Config, states: seq<State>, acts: seq<Action>, j: nat)
    requires cfg.Valid() && IsRun(cfg, states, acts) && Inv(cfg, states[0]) && j < |states|
    requires states[0].d.mode == Ready
    ensures states[j].d.mode == Ready || states[j].d.mode == Degraded
  {
    hide Next, Enabled, Inv;
    if j > 0 {
      ReadyUntilDegraded(cfg, states, acts, j - 1);
      RunInv(cfg, states, acts, j - 1);
      StepAt(cfg, states, acts, j - 1);
      ModeStep(cfg, states[j - 1], acts[j - 1]);
    }
  }

  lemma ModeStep(cfg: Config, s: State, a: Action)
    requires cfg.Valid() && Inv(cfg, s) && Enabled(cfg, s, a) && s.d.mode != Reconciling
    ensures Next(cfg, s, a).d.mode != Reconciling
  {
  }

  /** Time is never stuck: from every reachable state at most two steps of the
      worker alone lead to a state in which the clock can advance. */
  lemma ClockCanAdvance(cfg: Config, s: State) returns (states: seq<State>, acts: seq<Action>)
    requires cfg.Valid() && Inv(cfg, s)
    ensures IsRun(cfg, states, acts) && states[0] == s && |acts| <= 2
    ensures forall a | a in acts :: a.WorkerTurn? || a.StartDone? || a.StopDone? || a.ReconcileDone?
    ensures Enabled(cfg, states[|acts|], Tick(1))
  {
    hide Turn, TimesOk, TableOk;
    if Enabled(cfg, s, Tick(1)) {
      states, acts := [s], [];
    } else {
      var a :=
        if s.worker.InStart? then StartDone(StartFailed("deadline"))
        else if s.worker.InStop? then StopDone(Stopped)
        else if s.worker.Reconcile? then ReconcileDone(Stopped)
        else WorkerTurn;
      var s1 := Next(cfg, s, a);
      StepInv(cfg, s, a);
      if a == WorkerTurn {
        TurnLetsTimePass(cfg, s);
        states, acts := [s, s1], [a];
      } else {
        TurnLetsTimePass(cfg, s1);
        states, acts := [s, s1, Next(cfg, s1, WorkerTurn)], [a, WorkerTurn];
      }
    }
  }

  lemma TurnLetsTimePass(cfg: Config, s: State)
    requires cfg.Valid() && Inv(cfg, s) && s.worker.Wait?
    ensures Enabled(cfg, Next(cfg, s, WorkerTurn), Tick(1))
  {
    StepInv(cfg, s, WorkerTurn);
    if s.d.mode == Ready && Next(cfg, s, WorkerTurn).worker.Wait? {
      WakeUpBound(cfg, s);
    }
  }
}
