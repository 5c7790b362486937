/**
 One acquisition of the gateway, told by its messages: which are sent, when, and
 what each answer leads to; and the acquisition as a whole against a dispatcher
 that reports itself ready.
 */
module Acquisition {
  import opened Prelude
  import opened Leases
  import P = Protocol
  import I = Invariant
  import G = Gateway
  import GL = GatewayLease

  const SECONDS := 1_000_000

  // ---- Whether to ask at all ----

  /** The answer of a dispatcher of this protocol that is ready and names its epoch. */
  predicate Welcomes(answer: G.Answer, epoch: string) {
    answer == G.ReadyBody(2, true, Some(epoch))
  }

  /**
   The acquire message goes out if and only if the dispatcher speaks this
   protocol, is ready and names its epoch. It then is the second message, and
   carries that epoch, the service, the identity and the queue wait. Otherwise
   the attempt has failed at once, with nothing to cancel.
   */
  lemma AcquireOpens(c: G.ClientConfig, net: G.Network, service: string, requestId: string, start: int)
    requires c.Valid()
    ensures var x := net.exchange(0, start, G.GetReady);
      var a := G.Acquire(c, net, service, requestId, start);
      && a.sent != [] && a.sent[0] == G.GetReady
      && (|a.sent| > 1 <==> exists epoch :: Welcomes(x.answer, epoch))
      && (forall epoch | Welcomes(x.answer, epoch) ::
            var lease := G.LeaseHandle(requestId, service, epoch);
            && |a.sent| > 1 && a.sent[1] == G.PostAcquire(lease, c.queueWait)
            && a == G.Admission(c, net, lease, [G.GetReady], start + G.TripTime(c, x)))
      && (|a.sent| == 1 ==> a.outcome.NotAcquired? && a.finish == start + G.TripTime(c, x))
  {
    var x := net.exchange(0, start, G.GetReady);
    hide G.Poll, G.TripTime;
    if x.answer.ReadyBody? && x.answer.epoch.Some? {
      assert Welcomes(x.answer, x.answer.epoch.value) <==> x.answer.protocol == 2 && x.answer.ready;
      var lease := G.LeaseHandle(requestId, service, x.answer.epoch.value);
      SecondMessage(c, net, lease, start + G.TripTime(c, x));
    }
  }

  lemma SecondMessage(c: G.ClientConfig, net: G.Network, lease: G.LeaseHandle, postedAt: int)
    requires c.Valid()
    ensures var a := G.Admission(c, net, lease, [G.GetReady], postedAt);
      |a.sent| > 1 && a.sent[0] == G.GetReady && a.sent[1] == G.PostAcquire(lease, c.queueWait)
  {
    G.AdmissionIsSound(c, net, lease, postedAt);
    G.SentTail(lease, c, G.Admission(c, net, lease, [G.GetReady], postedAt));
  }

  // ---- What each answer leads to ----

  /** An answer that says neither that the lease is active nor that it is over. */
  predicate SaysWait(answer: G.Answer) {
    match answer
    case LeaseBody(None) => true
    case LeaseBody(Some(s)) => s == Queued || s == Starting || s == Stopping
    case ReadyBody(_, _, _) => true
    case _ => false
  }

  predicate SaysOver(answer: G.Answer, s: LeaseState) {
    answer == G.LeaseBody(Some(s)) && (s == Released || s == Cancelled || s == Expired || s == Failed)
  }

  /** The k-th message was answered in vain: there is nothing to do but to wait and look again. */
  predicate InVain(net: G.Network, k: nat, t: int, m: G.Message) {
    SaysWait(net.exchange(k, t, m).answer) && !net.interruptsNap(k + 1)
  }

  /** Why an attempt is given up after an answer: the lease is over, or something
      was raised, by the exchange or in the nap. */
  predicate GivesUpFor(net: G.Network, why: G.Failure, k: nat, t: int, m: G.Message) {
    match why
    case EndedIn(s) => SaysOver(net.exchange(k, t, m).answer, s)
    case Raised =>
      || net.exchange(k, t, m).answer == G.Lost || net.exchange(k, t, m).answer == G.Interrupted
      || (SaysWait(net.exchange(k, t, m).answer) && net.interruptsNap(k + 1))
    case _ => false
  }

  /** When the client has its answer. */
  function AnswerAt(c: G.ClientConfig, net: G.Network, k: nat, t: int, m: G.Message): int {
    t + G.TripTime(c, net.exchange(k, t, m))
  }

  /** The k-th of these looks: a poll, before the deadline; the first one is made now, each
      other one a poll interval after the answer to the one before, which was in vain. */
  predicate LookAt(c: G.ClientConfig, net: G.Network, lease: G.LeaseHandle, deadline: int, n: nat, now: int,
                   a: G.Attempt, times: seq<int>, k: nat)
    requires k < |times| && n + k < |a.sent|
  {
    var poll := G.GetLeaseState(lease);
    && a.sent[n + k] == poll && times[k] < deadline
    && if k == 0 then times[0] == now
       else
         && InVain(net, n + k - 1, times[k - 1], poll)
         && times[k] == AnswerAt(c, net, n + k - 1, times[k - 1], poll) + c.pollInterval
  }

  /**
   The looks from the n-th message on, each before the deadline, a poll interval
   after the answer to the one before, and all but the last in vain. The last
   one said `active`, or gives cause to give up, or was in vain too and the
   deadline has passed; whoever gives up sends one cancel, and at once.
   */
  ghost predicate Looks(c: G.ClientConfig, net: G.Network, lease: G.LeaseHandle, deadline: int, n: nat, now: int,
                        a: G.Attempt, times: seq<int>)
  {
    var poll, looks := G.GetLeaseState(lease), |times|;
    && |a.sent| == n + looks + (if a.outcome.Acquired? then 0 else 1)
    && (forall k | 0 <= k < looks :: LookAt(c, net, lease, deadline, n, now, a, times, k))
    && match a.outcome
       case Acquired(l) =>
         && l == lease && looks > 0 && a.askedAt == times[looks - 1]
         && net.exchange(n + looks - 1, a.askedAt, poll).answer == G.LeaseBody(Some(Active))
         && a.finish == AnswerAt(c, net, n + looks - 1, a.askedAt, poll)
       case NotAcquired(why) =>
         && a.sent[n + looks] == G.PostCancel(lease)
         && a.finish == AnswerAt(c, net, n + looks, a.askedAt, G.PostCancel(lease))
         && if why == G.TimedOut
            then
              && a.askedAt >= deadline
              && (looks > 0 ==> InVain(net, n + looks - 1, times[looks - 1], poll))
              && a.askedAt == if looks == 0 then now
                              else AnswerAt(c, net, n + looks - 1, times[looks - 1], poll) + c.pollInterval
            else
              && looks > 0 && GivesUpFor(net, why, n + looks - 1, times[looks - 1], poll)
              && a.askedAt == AnswerAt(c, net, n + looks - 1, times[looks - 1], poll)
  }

  /** The attempt is over at this look, or before it. */
  lemma LastLook(c: G.ClientConfig, net: G.Network, lease: G.LeaseHandle, deadline: int, sent: seq<G.Message>, now: int,
                 unseenAt: int)
    requires c.Valid() && (now < deadline ==> !InVain(net, |sent|, now, G.GetLeaseState(lease)))
    ensures var a := G.Poll(c, net, lease, deadline, sent, now, unseenAt);
      sent <= a.sent && Looks(c, net, lease, deadline, |sent|, now, a, if now < deadline then [now] else [])
  {
    hide G.TripTime;
  }

  lemma {:induction false} PollLooks(c: G.ClientConfig, net: G.Network, lease: G.LeaseHandle, deadline: int,
                                     sent: seq<G.Message>, now: int, unseenAt: int)
    returns (times: seq<int>)
    requires c.Valid()
    ensures var a := G.Poll(c, net, lease, deadline, sent, now, unseenAt);
      sent <= a.sent && Looks(c, net, lease, deadline, |sent|, now, a, times)
    decreases Max(0, deadline - now)
  {
    var poll := G.GetLeaseState(lease);
    hide Looks, G.TripTime;
    if now < deadline && InVain(net, |sent|, now, poll) {
      var next := AnswerAt(c, net, |sent|, now, poll) + c.pollInterval;
      NotBefore(c, net, |sent|, now, poll);
      var rest := PollLooks(c, net, lease, deadline, sent + [poll], next, now);
      times := [now] + rest;
      LooksOn(c, net, lease, deadline, sent, now, G.Poll(c, net, lease, deadline, sent + [poll], next, now), rest);
    } else {
      times := if now < deadline then [now] else [];
      LastLook(c, net, lease, deadline, sent, now, unseenAt);
    }
  }

  lemma NotBefore(c: G.ClientConfig, net: G.Network, k: nat, t: int, m: G.Message)
    ensures AnswerAt(c, net, k, t, m) >= t
  {
  }

  /** One more look in vain before the others. */
  lemma LooksOn(c: G.ClientConfig, net: G.Network, lease: G.LeaseHandle, deadline: int, sent: seq<G.Message>, now: int,
                a: G.Attempt, rest: seq<int>)
    requires now < deadline && sent + [G.GetLeaseState(lease)] <= a.sent
    requires InVain(net, |sent|, now, G.GetLeaseState(lease))
    requires Looks(c, net, lease, deadline, |sent| + 1,
                   AnswerAt(c, net, |sent|, now, G.GetLeaseState(lease)) + c.pollInterval, a, rest)
    ensures sent <= a.sent && Looks(c, net, lease, deadline, |sent|, now, a, [now] + rest)
  {
    var n, times := |sent|, [now] + rest;
    var next := AnswerAt(c, net, n, now, G.GetLeaseState(lease)) + c.pollInterval;
    assert a.sent[n] == G.GetLeaseState(lease);
    hide AnswerAt, InVain, GivesUpFor;
    forall k: nat | k < |times| ensures LookAt(c, net, lease, deadline, n, now, a, times, k) {
      if k > 0 {
        assert LookAt(c, net, lease, deadline, n + 1, next, a, rest, k - 1);
        assert times[k] == rest[k - 1] && times[k - 1] == if k == 1 then now else rest[k - 2];
      }
    }
    assert rest != [] ==> times[|times| - 1] == rest[|rest| - 1];
  }

  /**
   The whole attempt after the acquire message. Its answer may settle it at
   once: `active` is a success, and any cause to give up is followed by one
   cancel. Otherwise the client looks until queue wait, startup and five seconds
   have passed since that answer, and each look leads to what `Looks` says.
   */
  lemma AdmissionLooks(c: G.ClientConfig, net: G.Network, lease: G.LeaseHandle, postedAt: int) returns (times: seq<int>)
    requires c.Valid()
    ensures var post := G.PostAcquire(lease, c.queueWait);
      var answer := net.exchange(1, postedAt, post).answer;
      var answeredAt := AnswerAt(c, net, 1, postedAt, post);
      var a := G.Admission(c, net, lease, [G.GetReady], postedAt);
      && [G.GetReady, post] <= a.sent
      && if SaysWait(answer)
         then Looks(c, net, lease, answeredAt + c.queueWait + c.startup + 5 * SECONDS, 2, answeredAt, a, times)
         else if answer == G.LeaseBody(Some(Active))
         then a == G.Attempt(G.Acquired(lease), [G.GetReady, post], postedAt, answeredAt, postedAt)
         else
           && a.sent == [G.GetReady, post, G.PostCancel(lease)] && a.askedAt == answeredAt
           && (SaysOver(answer, Released) ==> a.outcome == G.NotAcquired(G.EndedIn(Released)))
           && (SaysOver(answer, Cancelled) ==> a.outcome == G.NotAcquired(G.EndedIn(Cancelled)))
           && (SaysOver(answer, Expired) ==> a.outcome == G.NotAcquired(G.EndedIn(Expired)))
           && (SaysOver(answer, Failed) ==> a.outcome == G.NotAcquired(G.EndedIn(Failed)))
           && (answer == G.Lost || answer == G.Interrupted ==> a.outcome == G.NotAcquired(G.Raised))
  {
    var post := G.PostAcquire(lease, c.queueWait);
    var sent := [G.GetReady, post];
    assert [G.GetReady] + [post] == sent;
    var answeredAt := AnswerAt(c, net, 1, postedAt, post);
    times := [];
    if G.Judge(net.exchange(1, postedAt, post).answer) == G.Again {
      times := PollLooks(c, net, lease, answeredAt + c.Budget(), sent, answeredAt, postedAt);
    }
    hide G.Poll, Looks, G.TripTime;
  }

  // ---- Against a dispatcher that is ready ----

  /** What the dispatcher answers to the question whether it is ready. */
  function ReadyAnswer(cfg: Config, d: P.Ledger): G.Answer {
    G.ReadyBody(P.PROTOCOL_VERSION, P.ReadyReport(d).ready, Some(cfg.epoch))
  }

  /** A client that asks a dispatcher posts if and only if the dispatcher is ready, and then for its epoch. */
  lemma AsksTheReady(cfg: Config, d: P.Ledger, c: G.ClientConfig, net: G.Network, service: string, requestId: string,
                     start: int)
    requires c.Valid() && net.exchange(0, start, G.GetReady).answer == ReadyAnswer(cfg, d)
    ensures var a := G.Acquire(c, net, service, requestId, start);
      && (|a.sent| > 1 <==> d.mode == P.Ready)
      && (d.mode == P.Ready ==>
            a.sent[1] == G.PostAcquire(G.LeaseHandle(requestId, service, cfg.epoch), c.queueWait))
      && (d.mode != P.Ready ==> a.outcome == G.NotAcquired(G.NotReady))
  {
    AcquireOpens(c, net, service, requestId, start);
    assert d.mode == P.Ready ==> Welcomes(ReadyAnswer(cfg, d), cfg.epoch);
    hide G.Admission, G.TripTime;
  }

  /**
   A served request is acquired, from the first question on. The client asks a
   dispatcher that is ready; what it then posts names that dispatcher's epoch;
   and if the dispatcher serves the request, a client that does not come late
   ends up with the lease.
   */
  lemma ServedFromTheStart(cfg: Config, states: seq<P.State>, acts: seq<P.Action>, c: G.ClientConfig, net: G.Network,
                           service: string, requestId: string, start: int, r: nat, x: nat)
    requires c.Valid() && !GL.ComesLate(c) && r < |states| && states[r].d.mode == P.Ready
    requires net.exchange(0, start, G.GetReady).answer == ReadyAnswer(cfg, states[r].d)
    requires |states| > 0 && I.Inv(cfg, states[0])
    requires GL.Served(cfg, states, acts, c, net, G.LeaseHandle(requestId, service, cfg.epoch),
                       AnswerAt(c, net, 0, start, G.GetReady), x)
    ensures var a := G.Acquire(c, net, service, requestId, start);
      a.outcome == G.Acquired(G.LeaseHandle(requestId, service, cfg.epoch))
  {
    var lease, postedAt := G.LeaseHandle(requestId, service, cfg.epoch), AnswerAt(c, net, 0, start, G.GetReady);
    GL.ServedRequestIsAcquired(cfg, states, acts, c, net, lease, postedAt, x);
    hide GL.Served, GL.ComesLate, I.Inv, G.Admission;
    AcquireOpens(c, net, service, requestId, start);
    assert Welcomes(ReadyAnswer(cfg, states[r].d), cfg.epoch);
  }
}
