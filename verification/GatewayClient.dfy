/**
 The gateway's lease client: one acquisition, as a function of how the network
 behaves and as the polling loop that is written. A request identity is made up
 before the first message; whatever goes wrong after the acquire message has
 been sent, a cancel with the same identity is attempted.
 */
module Gateway {
  import opened Prelude
  import opened Leases

  const PROTOCOL_VERSION := 2
  const GRACE := 5 * SECOND

  datatype LeaseHandle = LeaseHandle(requestId: string, service: string, epoch: string)

  datatype Message =
    | GetReady
    | PostAcquire(lease: LeaseHandle, wait: int)
    | GetLeaseState(lease: LeaseHandle)
    | PostRelease(lease: LeaseHandle)
    | PostCancel(lease: LeaseHandle)

  /** `Lost` is any network or status error, `Interrupted` the cancellation of the calling task. */
  datatype Answer =
    | ReadyBody(protocol: int, ready: bool, epoch: Option<string>)
    | LeaseBody(state: Option<LeaseState>)
    | Lost
    | Interrupted

  datatype Exchange = Exchange(delay: int, answer: Answer)

  /** The network decides about the k-th message sent at a given time, and about each nap. */
  datatype Network = Network(exchange: (nat, int, Message) -> Exchange, interruptsNap: nat -> bool)

  datatype ClientConfig = ClientConfig(roundTrip: int, queueWait: int, startup: int, pollInterval: int) {
    predicate Valid() {
      0 <= roundTrip && 0 <= queueWait && 0 <= startup && 0 < pollInterval
    }

    function Budget(): int {
      queueWait + startup + GRACE
    }
  }

  datatype Failure = BadProtocol | NotReady | EndedIn(state: LeaseState) | TimedOut | Raised

  datatype Outcome = Acquired(lease: LeaseHandle) | NotAcquired(why: Failure)

  /** The end of an acquisition: what came out, every message sent, when the last
      one was sent and answered, and when the last message before it was sent
      that did not yet see `active`. */
  datatype Attempt = Attempt(outcome: Outcome, sent: seq<Message>, askedAt: int, finish: int, unseenAt: int)

  function TripTime(cfg: ClientConfig, x: Exchange): int {
    Max(0, Min(x.delay, cfg.roundTrip))
  }

  /** What a reply about the lease means: done, ended, or look again. */
  datatype Verdict = Done | Ended(why: Failure) | Again

  function Judge(a: Answer): Verdict {
    match a
    case LeaseBody(Some(s)) => if s == Active then Done else if Terminal(s) then Ended(EndedIn(s)) else Again
    case LeaseBody(None) => Again
    case ReadyBody(_, _, _) => Again
    case _ => Ended(Raised)
  }

  /** The handler of every exception after the acquire message: cancel with the same identity. */
  function GiveUp(cfg: ClientConfig, net: Network, lease: LeaseHandle, sent: seq<Message>, now: int, why: Failure,
                  unseenAt: int): Attempt {
    var x := net.exchange(|sent|, now, PostCancel(lease));
    Attempt(NotAcquired(why), sent + [PostCancel(lease)], now, now + TripTime(cfg, x), unseenAt)
  }

  /** The polling loop from a moment at which `sent` has been sent. */
  function Poll(cfg: ClientConfig, net: Network, lease: LeaseHandle, deadline: int, sent: seq<Message>, now: int,
                unseenAt: int): Attempt
    requires cfg.Valid()
    decreases Max(0, deadline - now)
  {
    if now >= deadline then GiveUp(cfg, net, lease, sent, now, TimedOut, unseenAt)
    else
      var x := net.exchange(|sent|, now, GetLeaseState(lease));
      var sent' := sent + [GetLeaseState(lease)];
      var now' := now + TripTime(cfg, x);
      match Judge(x.answer)
      case Done => Attempt(Acquired(lease), sent', now, now', unseenAt)
      case Ended(why) => GiveUp(cfg, net, lease, sent', now', why, unseenAt)
      case Again =>
        if net.interruptsNap(|sent'|) then GiveUp(cfg, net, lease, sent', now', Raised, now)
        else Poll(cfg, net, lease, deadline, sent', now' + cfg.pollInterval, now)
  }

  /** From the acquire message on. */
  function Admission(cfg: ClientConfig, net: Network, lease: LeaseHandle, sent: seq<Message>, now: int): Attempt
    requires cfg.Valid()
  {
    var post := PostAcquire(lease, cfg.queueWait);
    var x := net.exchange(|sent|, now, post);
    var sent' := sent + [post];
    var now' := now + TripTime(cfg, x);
    match Judge(x.answer)
    case Done => Attempt(Acquired(lease), sent', now, now', now)
    case Ended(why) => GiveUp(cfg, net, lease, sent', now', why, now)
    case Again => Poll(cfg, net, lease, now' + cfg.Budget(), sent', now', now)
  }

  function Acquire(cfg: ClientConfig, net: Network, service: string, requestId: string, start: int): Attempt
    requires cfg.Valid()
  {
    var x := net.exchange(0, start, GetReady);
    var now := start + TripTime(cfg, x);
    match x.answer
    case ReadyBody(protocol, ready, epoch) =>
      if protocol != PROTOCOL_VERSION then Attempt(NotAcquired(BadProtocol), [GetReady], start, now, start)
      else if !ready then Attempt(NotAcquired(NotReady), [GetReady], start, now, start)
      else if epoch == None then Attempt(NotAcquired(Raised), [GetReady], start, now, start)
      else Admission(cfg, net, LeaseHandle(requestId, service, epoch.value), [GetReady], now)
    case LeaseBody(_) => Attempt(NotAcquired(BadProtocol), [GetReady], start, now, start)
    case _ => Attempt(NotAcquired(Raised), [GetReady], start, now, start)
  }

  // ---- The client as it is written ----

  class DispatcherClient {
    const cfg: ClientConfig

    constructor (cfg: ClientConfig)
      requires cfg.Valid()
      ensures this.cfg == cfg
    {
      this.cfg := cfg;
    }

    method BestEffortCancel(net: Network, lease: LeaseHandle, sent: seq<Message>, now: int, why: Failure, unseenAt: int)
      returns (attempt: Attempt)
      ensures attempt == GiveUp(cfg, net, lease, sent, now, why, unseenAt)
    {
      var x := net.exchange(|sent|, now, PostCancel(lease));
      attempt := Attempt(NotAcquired(why), sent + [PostCancel(lease)], now, now + TripTime(cfg, x), unseenAt);
    }

    method AcquireLease(net: Network, service: string, requestId: string, start: int) returns (attempt: Attempt)
      requires cfg.Valid()
      ensures attempt == Acquire(cfg, net, service, requestId, start)
    {
      var ready := net.exchange(0, start, GetReady);
      var now := start + TripTime(cfg, ready);
      var sent := [GetReady];
      if ready.answer.Lost? || ready.answer.Interrupted? {
        return Attempt(NotAcquired(Raised), sent, start, now, start);
      }
      if !ready.answer.ReadyBody? || ready.answer.protocol != PROTOCOL_VERSION {
        return Attempt(NotAcquired(BadProtocol), sent, start, now, start);
      }
      if !ready.answer.ready {
        return Attempt(NotAcquired(NotReady), sent, start, now, start);
      }
      if ready.answer.epoch == None {
        return Attempt(NotAcquired(Raised), sent, start, now, start);
      }
      var lease := LeaseHandle(requestId, service, ready.answer.epoch.value);
      var unseenAt := now;
      var posted := net.exchange(1, now, PostAcquire(lease, cfg.queueWait));
      sent := sent + [PostAcquire(lease, cfg.queueWait)];
      now := now + TripTime(cfg, posted);
      var verdict := Judge(posted.answer);
      if verdict == Done {
        return Attempt(Acquired(lease), sent, unseenAt, now, unseenAt);
      }
      if verdict.Ended? {
        attempt := BestEffortCancel(net, lease, sent, now, verdict.why, unseenAt);
        return;
      }
      var deadline := now + cfg.Budget();
      ghost var whole := Poll(cfg, net, lease, deadline, sent, now, unseenAt);
      while true
        invariant Poll(cfg, net, lease, deadline, sent, now, unseenAt) == whole
        decreases Max(0, deadline - now)
      {
        if now >= deadline {
          attempt := BestEffortCancel(net, lease, sent, now, TimedOut, unseenAt);
          return;
        }
        var asked := now;
        var x := net.exchange(|sent|, now, GetLeaseState(lease));
        sent := sent + [GetLeaseState(lease)];
        now := now + TripTime(cfg, x);
        verdict := Judge(x.answer);
        if verdict == Done {
          return Attempt(Acquired(lease), sent, asked, now, unseenAt);
        }
        if verdict.Ended? {
          attempt := BestEffortCancel(net, lease, sent, now, verdict.why, unseenAt);
          return;
        }
        unseenAt := asked;
        if net.interruptsNap(|sent|) {
          attempt := BestEffortCancel(net, lease, sent, now, Raised, unseenAt);
          return;
        }
        now := now + cfg.pollInterval;
      }
    }
  }

  // ---- Sound and terminating ----

  /** Acquired means that the last message of the acquisition was answered `active`. */
  predicate SawActive(cfg: ClientConfig, net: Network, a: Attempt) {
    && a.sent != [] && (a.sent[|a.sent| - 1].PostAcquire? || a.sent[|a.sent| - 1].GetLeaseState?)
    && var x := net.exchange(|a.sent| - 1, a.askedAt, a.sent[|a.sent| - 1]);
       x.answer == LeaseBody(Some(Active)) && a.finish == a.askedAt + TripTime(cfg, x)
  }

  /** `sent` may only go on with polls of `lease`, and on failure with one cancel. */
  ghost predicate OnlyPolls(lease: LeaseHandle, sent: seq<Message>, a: Attempt) {
    var n := |a.sent| - (if a.outcome.NotAcquired? then 1 else 0);
    && |sent| <= n && sent == a.sent[..|sent|]
    && (forall i | |sent| <= i < n :: a.sent[i] == GetLeaseState(lease))
    && (a.outcome.NotAcquired? ==> a.sent[n] == PostCancel(lease))
  }

  /** One round of polling that has to look again, and what remains after it. */
  lemma PollAgain(cfg: ClientConfig, net: Network, lease: LeaseHandle, deadline: int,
                  sent: seq<Message>, now: int, unseenAt: int) returns (again: bool, now': int)
    requires cfg.Valid()
    ensures again ==>
      && now < deadline && now + cfg.pollInterval <= now' <= now + cfg.roundTrip + cfg.pollInterval
      && Poll(cfg, net, lease, deadline, sent, now, unseenAt)
         == Poll(cfg, net, lease, deadline, sent + [GetLeaseState(lease)], now', now)
    ensures !again ==>
      var a := Poll(cfg, net, lease, deadline, sent, now, unseenAt);
      && (if a.outcome.Acquired?
          then a.sent == sent + [GetLeaseState(lease)] && a.outcome.lease == lease && SawActive(cfg, net, a)
               && a.unseenAt == unseenAt && a.askedAt == now < deadline
          else a.sent == sent + [PostCancel(lease)] || a.sent == sent + [GetLeaseState(lease)] + [PostCancel(lease)])
      && now <= a.finish <= (if now < deadline then now + 2 * cfg.roundTrip else now + cfg.roundTrip)
  {
    var x := net.exchange(|sent|, now, GetLeaseState(lease));
    again := now < deadline && Judge(x.answer) == Again && !net.interruptsNap(|sent| + 1);
    now' := now + TripTime(cfg, x) + cfg.pollInterval;
  }

  lemma {:induction false} PollMessages(cfg: ClientConfig, net: Network, lease: LeaseHandle, deadline: int,
                                        sent: seq<Message>, now: int, unseenAt: int)
    requires cfg.Valid()
    ensures var a := Poll(cfg, net, lease, deadline, sent, now, unseenAt);
      && OnlyPolls(lease, sent, a)
      && (a.outcome.Acquired? ==> a.outcome.lease == lease && SawActive(cfg, net, a) && |a.sent| > |sent|)
    decreases Max(0, deadline - now)
  {
    var again, now' := PollAgain(cfg, net, lease, deadline, sent, now, unseenAt);
    hide Poll, SawActive;
    if again {
      PollMessages(cfg, net, lease, deadline, sent + [GetLeaseState(lease)], now', now);
    }
  }

  lemma {:induction false} PollTimes(cfg: ClientConfig, net: Network, lease: LeaseHandle, deadline: int,
                                     sent: seq<Message>, now: int, unseenAt: int)
    requires cfg.Valid() && unseenAt <= now <= unseenAt + cfg.roundTrip + cfg.pollInterval
    ensures var a := Poll(cfg, net, lease, deadline, sent, now, unseenAt);
      && (a.outcome.Acquired? ==>
            unseenAt <= a.unseenAt <= a.askedAt <= a.unseenAt + cfg.roundTrip + cfg.pollInterval)
      && now <= a.finish <= Max(now, deadline + cfg.roundTrip + cfg.pollInterval) + cfg.roundTrip
    decreases Max(0, deadline - now)
  {
    var again, now' := PollAgain(cfg, net, lease, deadline, sent, now, unseenAt);
    hide Poll;
    if again {
      PollTimes(cfg, net, lease, deadline, sent + [GetLeaseState(lease)], now', now);
    }
  }

  lemma {:induction false} PollCount(cfg: ClientConfig, net: Network, lease: LeaseHandle, deadline: int,
                                     sent: seq<Message>, now: int, unseenAt: int)
    requires cfg.Valid()
    ensures var n := |Poll(cfg, net, lease, deadline, sent, now, unseenAt).sent| - |sent| - 2;
      n * cfg.pollInterval <= Max(0, deadline - now)
    decreases Max(0, deadline - now)
  {
    var again, now' := PollAgain(cfg, net, lease, deadline, sent, now, unseenAt);
    var n := |Poll(cfg, net, lease, deadline, sent, now, unseenAt).sent| - |sent| - 2;
    hide Poll;
    if again {
      PollCount(cfg, net, lease, deadline, sent + [GetLeaseState(lease)], now', now);
      OneLess(n, cfg.pollInterval);
    } else {
      NotPositive(n, cfg.pollInterval);
    }
  }

  lemma AdmissionIsSound(cfg: ClientConfig, net: Network, lease: LeaseHandle, now: int)
    requires cfg.Valid()
    ensures var a := Admission(cfg, net, lease, [GetReady], now);
      && OnlyPolls(lease, [GetReady, PostAcquire(lease, cfg.queueWait)], a)
      && (a.outcome.Acquired? ==> a.outcome.lease == lease && SawActive(cfg, net, a))
      && a.finish <= now + 3 * cfg.roundTrip + cfg.pollInterval + cfg.Budget()
  {
    var post := PostAcquire(lease, cfg.queueWait);
    var sent := [GetReady, post];
    assert [GetReady] + [post] == sent;
    var now' := now + TripTime(cfg, net.exchange(1, now, post));
    PollMessages(cfg, net, lease, now' + cfg.Budget(), sent, now', now);
    PollTimes(cfg, net, lease, now' + cfg.Budget(), sent, now', now);
    hide Poll, SawActive;
    if Judge(net.exchange(1, now, post).answer) != Again {
      AnsweredAtOnce(cfg, net, lease, now);
    }
  }

  lemma AnsweredAtOnce(cfg: ClientConfig, net: Network, lease: LeaseHandle, now: int)
    requires cfg.Valid() && Judge(net.exchange(1, now, PostAcquire(lease, cfg.queueWait)).answer) != Again
    ensures var a := Admission(cfg, net, lease, [GetReady], now);
      && OnlyPolls(lease, [GetReady, PostAcquire(lease, cfg.queueWait)], a)
      && (a.outcome.Acquired? ==> a.outcome.lease == lease && SawActive(cfg, net, a))
      && a.finish <= now + 2 * cfg.roundTrip
  {
    hide Poll;
    assert [GetReady] + [PostAcquire(lease, cfg.queueWait)] == [GetReady, PostAcquire(lease, cfg.queueWait)];
  }

  lemma AdmissionCount(cfg: ClientConfig, net: Network, lease: LeaseHandle, now: int)
    requires cfg.Valid()
    ensures (|Admission(cfg, net, lease, [GetReady], now).sent| - 4) * cfg.pollInterval <= cfg.Budget()
  {
    var post := PostAcquire(lease, cfg.queueWait);
    var sent := [GetReady, post];
    assert [GetReady] + [post] == sent;
    var now' := now + TripTime(cfg, net.exchange(1, now, post));
    PollCount(cfg, net, lease, now' + cfg.Budget(), sent, now', now);
    var n := |Admission(cfg, net, lease, [GetReady], now).sent| - 4;
    hide Poll;
    if n <= 0 {
      NotPositive(n, cfg.pollInterval);
    }
  }

  /**
   Acquire is sound and terminates. It returns a lease only after an answer that
   said `active`; if it fails after the acquire message went out, its last
   message is a cancel with the identity of that acquire; it ends within the
   budget, four round trips and one poll interval; and the number of polls is
   bounded by the budget.
   */
  lemma AcquireIsSound(cfg: ClientConfig, net: Network, service: string, requestId: string, start: int)
    requires cfg.Valid()
    ensures var a := Acquire(cfg, net, service, requestId, start);
      && (a.outcome.Acquired? ==> SawActive(cfg, net, a))
      && a.finish <= start + 4 * cfg.roundTrip + cfg.pollInterval + cfg.Budget()
      && (|a.sent| - 4) * cfg.pollInterval <= cfg.Budget()
      && (|a.sent| <= 1 ==> a.outcome.NotAcquired? && a.sent == [GetReady])
      && (|a.sent| > 1 ==>
            && a.sent[1].PostAcquire? && a.sent[1].lease.requestId == requestId && a.sent[1].lease.service == service
            && (a.outcome.NotAcquired? ==> a.sent[|a.sent| - 1] == PostCancel(a.sent[1].lease))
            && (a.outcome.Acquired? ==>
                  && a.outcome.lease == a.sent[1].lease
                  && forall i | 0 <= i < |a.sent| :: !a.sent[i].PostCancel?))
  {
    var a := Acquire(cfg, net, service, requestId, start);
    var ready := net.exchange(0, start, GetReady);
    var now := start + TripTime(cfg, ready);
    hide Admission, SawActive;
    match ready.answer
    case ReadyBody(protocol, true, Some(epoch)) =>
      if protocol == PROTOCOL_VERSION {
        var lease := LeaseHandle(requestId, service, epoch);
        AdmissionIsSound(cfg, net, lease, now);
        AdmissionCount(cfg, net, lease, now);
        SentTail(lease, cfg, a);
      } else {
        NotPositive(|a.sent| - 4, cfg.pollInterval);
      }
    case _ => NotPositive(|a.sent| - 4, cfg.pollInterval);
  }

  lemma SentTail(lease: LeaseHandle, cfg: ClientConfig, a: Attempt)
    requires OnlyPolls(lease, [GetReady, PostAcquire(lease, cfg.queueWait)], a)
    ensures |a.sent| > 1 && a.sent[0] == GetReady && a.sent[1] == PostAcquire(lease, cfg.queueWait)
    ensures a.outcome.NotAcquired? ==> a.sent[|a.sent| - 1] == PostCancel(lease)
    ensures a.outcome.Acquired? ==> forall i | 0 <= i < |a.sent| :: !a.sent[i].PostCancel?
  {
    var head := a.sent[..2];
    assert a.sent[0] == head[0] && a.sent[1] == head[1];
  }
}
