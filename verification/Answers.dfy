/**
 What clients are told. For each call, the condition of every answer it can
 give; and what the readiness report has to do with the answers to submissions.
 */
module Answers {
  import opened Prelude
  import opened Leases
  import opened Protocol
  import opened Invariant
  import opened Runs

  /** The records that pruning would leave: those of requests that live, of tombstones still young, and the owner's. */
  function Lasting(cfg: Config, d: Ledger, now: int): set<string> {
    set id | id in d.table && (d.current == Some(id) || !Terminal(d.table[id].state)
                               || d.table[id].terminalAt == None || now < d.table[id].terminalAt.value + cfg.retention)
  }

  /** The registry has a place for one more record. */
  predicate HasRoom(cfg: Config, d: Ledger, now: int) {
    |Lasting(cfg, d, now)| < cfg.maxRecords
  }

  lemma PruneLasts(cfg: Config, d: Ledger, now: int)
    ensures Prune(cfg, d.table, d.current, now).Keys == Lasting(cfg, d, now)
    ensures |Prune(cfg, d.table, d.current, now)| == |Lasting(cfg, d, now)|
  {
    var kept := Prune(cfg, d.table, d.current, now);
    assert kept.Keys == Lasting(cfg, d, now);
    hide Prune, Lasting;
    assert |kept| == |kept.Keys|;
  }

  /** The call speaks to this dispatcher, is well formed, and comes at the right time. */
  predicate Proper(cfg: Config, d: Ledger, service: string, epoch: string, wait: int) {
    epoch == cfg.epoch && d.mode == Ready && service in cfg.services && 0 < wait <= cfg.maxQueueWait
  }

  /** The record is one that this very submission, or a repetition of it, would have made. */
  predicate SameRequest(l: Lease, service: string, wait: int) {
    l.service == service && (Terminal(l.state) || l.waitTimeout == wait)
  }

  /**
   The answers of `submit`. It is accepted exactly if it is proper and either its
   id is known for the same request or there is room for a new record; and every
   reason to refuse it has its own answer.
   */
  lemma SubmitAnswers(cfg: Config, d: Ledger, now: int, service: string, id: string, epoch: string, wait: int)
    ensures var answer := Submit(cfg, d, now, service, id, epoch, wait).answer;
      && (answer == Refused(StaleEpoch) <==> epoch != cfg.epoch)
      && (answer == Refused(UnknownService) <==> epoch == cfg.epoch && d.mode == Ready && service !in cfg.services)
      && (answer == Refused(BadWaitTimeout) <==>
            epoch == cfg.epoch && d.mode == Ready && service in cfg.services && !(0 < wait <= cfg.maxQueueWait))
      && (answer == Refused(LeaseConflict) <==>
            Proper(cfg, d, service, epoch, wait) && id in d.table && !SameRequest(d.table[id], service, wait))
      && (answer == Refused(NotReady) <==>
            epoch == cfg.epoch
            && (d.mode != Ready
                || (Proper(cfg, d, service, epoch, wait) && id !in d.table && !HasRoom(cfg, d, now))))
      && (answer.Accepted? <==>
            && Proper(cfg, d, service, epoch, wait)
            && if id in d.table then SameRequest(d.table[id], service, wait) else HasRoom(cfg, d, now))
  {
    PruneLasts(cfg, d, now);
    hide Prune, Lasting;
  }

  /** A new submission that is accepted waits, from now on for as long as it said, at the end of the queue. */
  lemma SubmitFiles(cfg: Config, d: Ledger, now: int, service: string, id: string, epoch: string, wait: int)
    requires id !in d.table && Submit(cfg, d, now, service, id, epoch, wait).answer.Accepted?
    ensures var r := Submit(cfg, d, now, service, id, epoch, wait);
      && r.answer == Accepted(Snapshot(id, service, Queued, None)) && r.notify
      && r.ledger.table.Keys == Lasting(cfg, d, now) + {id} && r.ledger.queue == d.queue + [id]
      && r.ledger.table[id].queueDeadline == now + wait && r.ledger.table[id].waitTimeout == wait
  {
    PruneLasts(cfg, d, now);
    hide Prune, Lasting;
  }

  /**
   The answers of `release` and `cancel`. A request that is known is stopped
   whatever state it is in, if the service is its own; one that is not can only be
   cancelled, for a known service and if there is room to remember it.
   */
  lemma StopAnswers(cfg: Config, d: Ledger, now: int, service: string, id: string, epoch: string, target: LeaseState)
    ensures var answer := RequestStop(cfg, d, now, service, id, epoch, target).answer;
      && (answer == Refused(StaleEpoch) <==> epoch != cfg.epoch)
      && (answer == Refused(LeaseNotFound) <==> epoch == cfg.epoch && id !in d.table && target != Cancelled)
      && (answer == Refused(LeaseConflict) <==> epoch == cfg.epoch && id in d.table && d.table[id].service != service)
      && (answer == Refused(UnknownService) <==>
            epoch == cfg.epoch && id !in d.table && target == Cancelled && service !in cfg.services)
      && (answer == Refused(NotReady) <==>
            && epoch == cfg.epoch && id !in d.table && target == Cancelled && service in cfg.services
            && !HasRoom(cfg, d, now))
      && (answer.Accepted? <==>
            && epoch == cfg.epoch
            && if id in d.table then d.table[id].service == service
               else target == Cancelled && service in cfg.services && HasRoom(cfg, d, now))
      && answer != Refused(BadWaitTimeout)
  {
    PruneLasts(cfg, d, now);
    hide Prune, Lasting;
  }

  /** What a client is told is how things stand after the call. */
  lemma AnswersAreCurrent(cfg: Config, d: Ledger, now: int, service: string, id: string, epoch: string, wait: int,
                          target: LeaseState)
    ensures var r := Submit(cfg, d, now, service, id, epoch, wait);
      r.answer.Accepted? ==> GetLease(cfg, r.ledger, id, epoch) == r.answer && r.answer.snapshot.service == service
    ensures var r := RequestStop(cfg, d, now, service, id, epoch, target);
      r.answer.Accepted? ==> GetLease(cfg, r.ledger, id, epoch) == r.answer && r.answer.snapshot.service == service
  {
    hide Prune;
  }

  /** Looking a lease up: the state and the error of the record, for the epoch of this dispatcher and ids it knows. */
  lemma LookupAnswers(cfg: Config, d: Ledger, id: string, epoch: string)
    ensures var answer := GetLease(cfg, d, id, epoch);
      && (answer == Refused(StaleEpoch) <==> epoch != cfg.epoch)
      && (answer == Refused(LeaseNotFound) <==> epoch == cfg.epoch && id !in d.table)
      && (answer.Accepted? <==> epoch == cfg.epoch && id in d.table)
      && (answer.Accepted? ==>
            answer.snapshot == Snapshot(id, d.table[id].service, d.table[id].state, d.table[id].error))
  {
  }

  /**
   The report is kept. A dispatcher that reports ready turns no proper submission
   of a new id away unless its registry is full; one that does not report ready
   turns every submission away.
   */
  lemma ReportIsKept(cfg: Config, d: Ledger, now: int, service: string, id: string, wait: int)
    ensures ReadyReport(d).ready && service in cfg.services && 0 < wait <= cfg.maxQueueWait && id !in d.table ==>
      (Submit(cfg, d, now, service, id, cfg.epoch, wait).answer.Accepted? <==> HasRoom(cfg, d, now))
    ensures !ReadyReport(d).ready ==> Submit(cfg, d, now, service, id, cfg.epoch, wait).answer == Refused(NotReady)
  {
    hide Submit;
    SubmitAnswers(cfg, d, now, service, id, cfg.epoch, wait);
  }

  // ---- Why a dispatcher is degraded ----

  /** What a dispatcher has to say about a step that degrades it; nothing about any other. */
  function Mishap(s: State, a: Action): Option<string> {
    match a
    case StartDone(Uncertain(m)) =>
      if s.worker.InStart? then Some("startup cleanup uncertain for " + s.worker.id + ": " + m) else None
    case StopDone(StopFailed(m)) =>
      if s.worker.InStop? then Some("cleanup failed for " + s.worker.id + ": " + m) else None
    case ReconcileDone(StopFailed(m)) => Some("reconciliation failed: " + m)
    case _ => None
  }

  lemma TurnKeepsMode(cfg: Config, s: State)
    requires cfg.Valid() && Inv(cfg, s) && s.worker.Wait?
    ensures var d := Next(cfg, s, WorkerTurn).d; d.mode == s.d.mode && d.reason == s.d.reason
  {
    if s.d.mode != Ready {
      NotReadyTurn(cfg, s);
    } else if s.d.current.Some? {
      OwnerIsActive(cfg, s, s.d.current.value);
      TurnOwnedIs(cfg, s, s.d.current.value);
    } else {
      var k := TurnIdleIs(cfg, s);
    }
    hide Next, Settle, Inv, NextWait;
  }

  lemma ModeStep(cfg: Config, s: State, a: Action)
    requires cfg.Valid() && Inv(cfg, s) && Enabled(cfg, s, a)
    ensures var d := Next(cfg, s, a).d;
      if Mishap(s, a).Some? then d.mode == Degraded && d.reason == Mishap(s, a)
      else d.reason == s.d.reason && (d.mode == Degraded <==> s.d.mode == Degraded)
    ensures s.d.mode == Degraded ==> Mishap(s, a) == None
  {
    match a
    case WorkerTurn => TurnKeepsMode(cfg, s);
    case SubmitCall(_, _, _, _) => hide RequestStop, Prune;
    case StopCall(_, _, _, _) => hide Submit, Prune;
    case _ => hide Turn, Submit, RequestStop;
  }

  /** The first `j` steps hold a mishap, and this is what it is reported as. */
  ghost predicate Reported(states: seq<State>, acts: seq<Action>, j: nat, reason: Option<string>)
    requires j <= |acts| <= |states|
  {
    if reason == None then forall i | 0 <= i < j :: Mishap(states[i], acts[i]) == None
    else exists i :: 0 <= i < j && Mishap(states[i], acts[i]) == reason
  }

  lemma ReportedLater(states: seq<State>, acts: seq<Action>, j: nat, reason: Option<string>)
    requires j < |acts| <= |states| && Reported(states, acts, j, reason)
    requires reason.Some? ==> Mishap(states[j], acts[j]) == None
    ensures Reported(states, acts, j + 1, if reason.Some? then reason else Mishap(states[j], acts[j]))
  {
    hide Mishap;
  }

  lemma {:induction false} ReasonsReported(cfg: Config, states: seq<State>, acts: seq<Action>, j: nat)
    requires cfg.Valid() && IsRun(cfg, states, acts) && Init(states[0]) && j < |states|
    ensures Reported(states, acts, j, states[j].d.reason)
    ensures states[j].d.mode == Degraded <==> states[j].d.reason.Some?
  {
    hide Next, Enabled, Inv, Mishap;
    InitInv(cfg, states[0]);
    if j > 0 {
      RunInv(cfg, states, acts, j - 1);
      StepAt(cfg, states, acts, j - 1);
      ReasonsReported(cfg, states, acts, j - 1);
      hide IsRun, Init, Reported;
      ModeStep(cfg, states[j - 1], acts[j - 1]);
      ReportedLater(states, acts, j - 1, states[j - 1].d.reason);
    }
  }

  /**
   A degraded dispatcher says why. In every run it reports itself degraded, and
   not ready, exactly from the first operation on whose outcome is uncertain, and
   it names that operation and what went wrong in it.
   */
  lemma DegradedSaysWhy(cfg: Config, states: seq<State>, acts: seq<Action>, j: nat)
    requires cfg.Valid() && IsRun(cfg, states, acts) && Init(states[0]) && j < |states|
    ensures var report := ReadyReport(states[j].d);
      && Reported(states, acts, j, report.reason)
      && (report.state == "degraded" <==> report.reason.Some?)
      && (report.state == "degraded" ==> !report.ready)
  {
    ReasonsReported(cfg, states, acts, j);
    hide IsRun, Init, Reported;
  }

  predicate Owns(s: State, id: string) {
    id in s.d.table && Owning(s.d.table[id].state)
  }

  /** The report tells whether the GPU has an owner, but for one with an empty id. */
  lemma ReportTellsOwner(cfg: Config, s: State)
    requires cfg.Valid() && Inv(cfg, s)
    ensures var report := ReadyReport(s.d);
      && (report.ready <==> s.d.mode == Ready)
      && (report.state == "reconciling" <==> s.d.mode == Reconciling)
      && (report.state == "busy" <==> s.d.mode == Ready && exists id :: id != "" && Owns(s, id))
      && (report.state == "idle" <==> s.d.mode == Ready && forall id | Owns(s, id) :: id == "")
  {
    if s.d.mode == Ready && s.d.current.Some? {
      assert Owns(s, s.d.current.value);
    }
    hide TableOk, TimesOk;
  }

  // ---- What a turn forgets ----

  /** A turn of the worker removes exactly the tombstones whose retention is over, but for the owner's record. */
  lemma TurnForgets(cfg: Config, s: State, id: string)
    requires cfg.Valid() && Inv(cfg, s) && s.worker.Wait? && id in s.d.table
    ensures var l := s.d.table[id];
      id !in Next(cfg, s, WorkerTurn).d.table
      <==> l.terminalAt.Some? && s.now >= l.terminalAt.value + cfg.retention && s.d.current != Some(id)
  {
    SettledForgets(cfg, s, id);
    if s.d.mode != Ready {
      NotReadyTurn(cfg, s);
    } else if s.d.current.Some? {
      OwnerIsActive(cfg, s, s.d.current.value);
      TurnOwnedIs(cfg, s, s.d.current.value);
    } else {
      var k := TurnIdleIs(cfg, s);
    }
    hide Next, Settle, Inv, NextWait;
  }

  lemma SettledForgets(cfg: Config, s: State, id: string)
    requires cfg.Valid() && Inv(cfg, s) && id in s.d.table
    ensures var l := s.d.table[id];
      id !in Settle(cfg, s)
      <==> l.terminalAt.Some? && s.now >= l.terminalAt.value + cfg.retention && s.d.current != Some(id)
  {
    assert LeaseOk(cfg, s.now, s.d.table[id]);
    hide WorkerOk, TimesOk, OwnerOk;
  }
}
