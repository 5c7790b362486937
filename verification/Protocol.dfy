/**
 The GPU lease dispatcher as a state machine.

 Every block that the program runs under its condition variable is one atomic
 step. The worker thread is a program counter: it waits, or it is inside an
 engine operation and holds no lock, and then any client step may come in
 between. Time passes only by `Tick`, and never past the moment at which the
 worker has to act: a sleeping worker wakes at its deadline or when notified,
 and the engine manager keeps its own deadlines.
 */
module Protocol {
  import opened Prelude
  import opened Leases

  datatype Mode = Reconciling | Ready | Degraded

  /** What the condition variable protects. */
  datatype Ledger = Ledger(
    table: Table,
    queue: seq<string>,
    current: Option<string>,
    mode: Mode,
    reason: Option<string>)

  datatype Snapshot = Snapshot(requestId: string, service: string, state: LeaseState, error: Option<string>)

  datatype Refusal = StaleEpoch | NotReady | UnknownService | BadWaitTimeout | LeaseConflict | LeaseNotFound

  datatype Answer = Accepted(snapshot: Snapshot) | Refused(why: Refusal)

  /** A client call: the new ledger, the answer, and whether the worker is notified. */
  datatype Reply = Reply(ledger: Ledger, answer: Answer, notify: bool)

  function Snap(id: string, l: Lease): Snapshot {
    Snapshot(id, l.service, l.state, l.error)
  }

  function Refuse(d: Ledger, why: Refusal): Reply {
    Reply(d, Refused(why), false)
  }

  function Submit(cfg: Config, d: Ledger, now: int, service: string, id: string, epoch: string, wait: int): Reply {
    if epoch != cfg.epoch then Refuse(d, StaleEpoch)
    else if d.mode != Ready then Refuse(d, NotReady)
    else if service !in cfg.services then Refuse(d, UnknownService)
    else if wait <= 0 || wait > cfg.maxQueueWait then Refuse(d, BadWaitTimeout)
    else if id in d.table then
      var l := d.table[id];
      if l.service != service then Refuse(d, LeaseConflict)
      else if Terminal(l.state) then Reply(d, Accepted(Snap(id, l)), false)
      else if l.waitTimeout != wait then Refuse(d, LeaseConflict)
      else Reply(d, Accepted(Snap(id, l)), false)
    else
      var kept := Prune(cfg, d.table, d.current, now);
      if |kept| >= cfg.maxRecords then Refuse(d.(table := kept), NotReady)
      else
        var l := NewLease(service, wait, now);
        Reply(d.(table := kept[id := l], queue := d.queue + [id]), Accepted(Snap(id, l)), true)
  }

  function GetLease(cfg: Config, d: Ledger, id: string, epoch: string): Answer {
    if epoch != cfg.epoch then Refused(StaleEpoch)
    else if id !in d.table then Refused(LeaseNotFound)
    else Accepted(Snap(id, d.table[id]))
  }

  /** What a stop request does to a record that is still live. */
  function StopLease(l: Lease, target: LeaseState, now: int): Lease {
    match l.state
    case Queued => MarkTerminal(l, target, now)
    case Starting => l.(cancelRequested := true, terminalTarget := Some(target))
    case Active => l.(state := Stopping, terminalTarget := Some(target))
    case Stopping => if l.terminalTarget == None then l.(terminalTarget := Some(target)) else l
    case _ => l
  }

  /** `release` asks for Released, `cancel` for Cancelled. */
  function RequestStop(cfg: Config, d: Ledger, now: int, service: string, id: string, epoch: string,
                       target: LeaseState): Reply {
    if epoch != cfg.epoch then Refuse(d, StaleEpoch)
    else if id !in d.table then
      if target != Cancelled then Refuse(d, LeaseNotFound)
      else if service !in cfg.services then Refuse(d, UnknownService)
      else
        var kept := Prune(cfg, d.table, d.current, now);
        if |kept| >= cfg.maxRecords then Refuse(d.(table := kept), NotReady)
        else
          var l := Tombstone(service, now);
          Reply(d.(table := kept[id := l]), Accepted(Snap(id, l)), false)
    else
      var l := d.table[id];
      if l.service != service then Refuse(d, LeaseConflict)
      else if Terminal(l.state) then Reply(d, Accepted(Snap(id, l)), false)
      else
        var l' := StopLease(l, target, now);
        Reply(d.(table := d.table[id := l']), Accepted(Snap(id, l')), true)
  }

  const PROTOCOL_VERSION := 2

  datatype Report = Report(ready: bool, state: string, reason: Option<string>)

  /** The report goes by the truth of the current id as Python has it: an empty
      id, which nothing refuses, reads as no id at all. */
  function ReadyReport(d: Ledger): Report {
    match d.mode
    case Ready => Report(true, if d.current.Some? && d.current.value != "" then "busy" else "idle", None)
    case Reconciling => Report(false, "reconciling", d.reason)
    case Degraded => Report(false, "degraded", d.reason)
  }

  /** What one turn of the worker loop decides. `Crash` is the lookup of an
      owner that is not in the table, which would kill the thread. */
  datatype Verdict = Sleep(span: int) | DoStart(id: string) | DoStop(id: string) | Crash

  datatype Turned = Turned(ledger: Ledger, verdict: Verdict)

  function ExpireOwner(l: Lease, now: int): Lease {
    if l.state == Active && l.activeDeadline.Some? && now >= l.activeDeadline.value
    then l.(state := Stopping, terminalTarget := Some(Expired))
    else l
  }

  /** The turn proper, once the sweep and the pruning are done. */
  function TurnSettled(d: Ledger, now: int): Turned {
    if d.mode != Ready then Turned(d, Sleep(LONGEST_SLEEP))
    else if d.current.Some? then
      var id := d.current.value;
      if id !in d.table then Turned(d, Crash)
      else
        var l := ExpireOwner(d.table[id], now);
        var d' := d.(table := d.table[id := l]);
        if l.state == Stopping then Turned(d', DoStop(id))
        else Turned(d', Sleep(NextWait(d'.table, d'.queue, d'.current, now)))
    else
      var p := Pop(d.table, d.queue, now);
      if p.next.Some? && p.next.value in p.table then
        var id := p.next.value;
        var l := p.table[id].(state := Starting);
        Turned(d.(table := p.table[id := l], queue := p.queue, current := Some(id)), DoStart(id))
      else
        Turned(d.(table := p.table, queue := p.queue), Sleep(NextWait(p.table, p.queue, None, now)))
  }

  function Turn(cfg: Config, d: Ledger, now: int): Turned {
    TurnSettled(d.(table := Prune(cfg, Sweep(d.queue, d.table, now), d.current, now)), now)
  }

  /** How `EngineManager.start` may end. `Uncertain` is its cleanup error. */
  datatype StartOutcome = Started | StartFailed(message: string) | Uncertain(message: string)

  datatype StopOutcome = Stopped | StopFailed(message: string)

  /** A started lease becomes active, or goes on to stop if that was asked meanwhile. */
  function StartedLease(cfg: Config, l: Lease, now: int): Lease {
    if l.cancelRequested
    then l.(state := Stopping,
            terminalTarget := if l.terminalTarget == None then Some(Cancelled) else l.terminalTarget)
    else l.(state := Active, activeDeadline := Some(now + cfg.active))
  }

  function FinishStart(cfg: Config, d: Ledger, id: string, outcome: StartOutcome, now: int): Ledger
    requires id in d.table
  {
    var l := d.table[id];
    match outcome
    case Started =>
      d.(table := d.table[id := StartedLease(cfg, l, now)])
    case StartFailed(m) =>
      d.(table := d.table[id := MarkTerminal(l.(error := Some(m)), Failed, now)], current := None)
    case Uncertain(m) =>
      d.(table := d.table[id := MarkTerminal(l.(error := Some(m)), Failed, now)],
         mode := Degraded, reason := Some("startup cleanup uncertain for " + id + ": " + m))
  }

  function FinishStop(d: Ledger, id: string, outcome: StopOutcome, now: int): Ledger
    requires id in d.table
  {
    var l := d.table[id];
    match outcome
    case Stopped =>
      var target := if l.terminalTarget == None then Released else l.terminalTarget.value;
      d.(table := d.table[id := MarkTerminal(l, target, now)], current := None)
    case StopFailed(m) =>
      d.(table := d.table[id := l.(error := Some(m))],
         mode := Degraded, reason := Some("cleanup failed for " + id + ": " + m))
  }

  function FinishReconcile(d: Ledger, outcome: StopOutcome): Ledger {
    match outcome
    case Stopped => d.(mode := Ready)
    case StopFailed(m) => d.(mode := Degraded, reason := Some("reconciliation failed: " + m))
  }

  /** Where the worker thread is. `since` is when the engine operation began. */
  datatype Worker =
    | Reconcile(since: int)
    | Wait(wakeAt: int)
    | InStart(id: string, since: int)
    | InStop(id: string, since: int)
    | Gone

  datatype State = State(now: int, d: Ledger, worker: Worker)

  datatype Action =
    | Tick(span: int)
    | SubmitCall(service: string, id: string, epoch: string, wait: int)
    | StopCall(service: string, id: string, epoch: string, target: LeaseState)
    | WorkerTurn
    | StartDone(start: StartOutcome)
    | StopDone(stop: StopOutcome)
    | ReconcileDone(stop: StopOutcome)

  predicate Init(s: State) {
    s.d == Ledger(map[], [], None, Reconciling, None) && s.worker == Reconcile(s.now)
  }

  /** Time may not pass this bound before the worker has acted. */
  predicate WithinLimit(cfg: Config, w: Worker, t: int) {
    match w
    case Reconcile(since) => t <= since + cfg.cleanup
    case Wait(wakeAt) => t <= wakeAt
    case InStart(_, since) => t <= since + cfg.startup + cfg.engineCleanup
    case InStop(_, since) => t <= since + cfg.cleanup
    case Gone => true
  }

  predicate Enabled(cfg: Config, s: State, a: Action) {
    match a
    case Tick(span) => 0 < span && WithinLimit(cfg, s.worker, s.now + span)
    case SubmitCall(_, _, _, _) => true
    case StopCall(_, _, _, target) => target == Released || target == Cancelled
    case WorkerTurn => s.worker.Wait?
    case StartDone(o) =>
      s.worker.InStart? && s.worker.id in s.d.table && (o == Started ==> s.now <= s.worker.since + cfg.startup)
    case StopDone(_) => s.worker.InStop? && s.worker.id in s.d.table
    case ReconcileDone(_) => s.worker.Reconcile?
  }

  function Notify(s: State, r: Reply): State {
    State(s.now, r.ledger, if r.notify && s.worker.Wait? then Wait(s.now) else s.worker)
  }

  function AfterTurn(s: State, r: Turned): State {
    match r.verdict
    case Sleep(span) => State(s.now, r.ledger, Wait(s.now + span))
    case DoStart(id) => State(s.now, r.ledger, InStart(id, s.now))
    case DoStop(id) => State(s.now, r.ledger, InStop(id, s.now))
    case Crash => State(s.now, r.ledger, Gone)
  }

  function Next(cfg: Config, s: State, a: Action): State
    requires Enabled(cfg, s, a)
  {
    match a
    case Tick(span) => s.(now := s.now + span)
    case SubmitCall(service, id, epoch, wait) => Notify(s, Submit(cfg, s.d, s.now, service, id, epoch, wait))
    case StopCall(service, id, epoch, target) =>
      Notify(s, RequestStop(cfg, s.d, s.now, service, id, epoch, target))
    case WorkerTurn => AfterTurn(s, Turn(cfg, s.d, s.now))
    case StartDone(o) => State(s.now, FinishStart(cfg, s.d, s.worker.id, o, s.now), Wait(s.now))
    case StopDone(o) => State(s.now, FinishStop(s.d, s.worker.id, o, s.now), Wait(s.now))
    case ReconcileDone(o) =>
      State(s.now, FinishReconcile(s.d, o), if o == Stopped then Wait(s.now) else Gone)
  }

  /** A run: every state follows from the one before by an enabled action. */
  ghost predicate IsRun(cfg: Config, states: seq<State>, acts: seq<Action>) {
    && |states| == |acts| + 1
    && (forall i | 0 <= i < |acts| ::
          Enabled(cfg, states[i], acts[i]) && states[i + 1] == Next(cfg, states[i], acts[i]))
  }
}
