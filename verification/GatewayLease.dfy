/**
 The gateway client against a run of the dispatcher. An inference that begins
 when the client saw `active` ends before the lease can expire, and a request
 that the dispatcher serves is acquired by a client that does not come late.
 */
module GatewayLease {
  import opened Prelude
  import opened Leases
  import opened Protocol
  import opened Invariant
  import opened QueueRoom
  import opened Runs
  import G = Gateway
  import B = RetentionBound

  /** The k-th message, sent at `t`, was answered with the state the lease had
      in `states[idx]`, a moment of its round trip. */
  ghost predicate AnsweredFrom(c: G.ClientConfig, net: G.Network, states: seq<State>, idx: int,
                               k: nat, t: int, m: G.Message)
  {
    var x := net.exchange(k, t, m);
    && (m.PostAcquire? || m.GetLeaseState?)
    && 0 <= idx < |states| && m.lease.requestId in states[idx].d.table
    && t <= states[idx].now <= t + G.TripTime(c, x)
    && x.answer == G.LeaseBody(Some(states[idx].d.table[m.lease.requestId].state))
  }

  predicate ActiveIn(s: State, id: string) {
    id in s.d.table && s.d.table[id].state == Active
  }

  lemma {:induction false} TimeIsMonotone(cfg: Config, states: seq<State>, acts: seq<Action>, i: nat, j: nat)
    requires IsRun(cfg, states, acts) && i <= j < |states|
    ensures states[i].now <= states[j].now
  {
    hide Next, Enabled;
    if i < j {
      TimeIsMonotone(cfg, states, acts, i, j - 1);
      StepAt(cfg, states, acts, j - 1);
      TimeGoesOn(cfg, states[j - 1], acts[j - 1]);
    }
  }

  lemma TurnActive(cfg: Config, s: State, id: string)
    requires cfg.Valid() && Inv(cfg, s) && s.worker.Wait?
    requires id in Next(cfg, s, WorkerTurn).d.table && Next(cfg, s, WorkerTurn).d.table[id].state == Active
    ensures id in s.d.table && Next(cfg, s, WorkerTurn).d.table[id] == s.d.table[id]
  {
    SettleAges(cfg, s);
    if s.d.mode == Ready {
      if s.d.current.Some? {
        TurnOwnedIs(cfg, s, s.d.current.value);
      } else {
        var k := TurnIdleIs(cfg, s);
      }
    }
  }

  /** A lease becomes active only when its engine start ends, with a full active budget ahead. */
  lemma BecomesActive(cfg: Config, s: State, a: Action, id: string)
    requires cfg.Valid() && Inv(cfg, s) && Enabled(cfg, s, a)
    requires id in s.d.table && s.d.table[id].state != Active
    requires id in Next(cfg, s, a).d.table && Next(cfg, s, a).d.table[id].state == Active
    ensures Next(cfg, s, a).d.table[id].activeDeadline == Some(s.now + cfg.active)
    ensures Next(cfg, s, a).now == s.now <= s.d.table[id].queueDeadline - 1 + cfg.startup
  {
    hide Turn, Submit, RequestStop;
    match a
    case WorkerTurn => TurnActive(cfg, s, id);
    case SubmitCall(_, _, _, _) => CallNotActive(cfg, s, a, id);
    case StopCall(_, _, _, _) => CallNotActive(cfg, s, a, id);
    case _ =>
  }

  lemma CallNotActive(cfg: Config, s: State, a: Action, id: string)
    requires (a.SubmitCall? || a.StopCall?) && Enabled(cfg, s, a)
    requires id in Next(cfg, s, a).d.table && Next(cfg, s, a).d.table[id].state == Active
    ensures id in s.d.table && s.d.table[id].state == Active
  {
    if a.SubmitCall? {
      hide RequestStop;
    } else {
      hide Submit;
    }
  }

  /** An active lease stays active, with the same deadline, until a stop is
      accepted for it or the deadline is reached. */
  lemma StaysActive(cfg: Config, s: State, a: Action, id: string)
    requires cfg.Valid() && Inv(cfg, s) && Enabled(cfg, s, a)
    requires ActiveIn(s, id)
    requires s.now < s.d.table[id].activeDeadline.value
    requires !(AcceptsStop(cfg, s, a) && a.id == id)
    ensures id in Next(cfg, s, a).d.table && Next(cfg, s, a).d.table[id] == s.d.table[id]
  {
    YoungStays(cfg, s, a, id);
    if a == WorkerTurn {
      SettleAges(cfg, s);
      if s.d.mode == Ready {
        TurnOwnedIs(cfg, s, s.d.current.value);
      }
    }
  }

  /** An active lease was on file before, and no step but the end of its start made it active. */
  lemma ActiveWasFiled(cfg: Config, s: State, a: Action, id: string)
    requires cfg.Valid() && Inv(cfg, s) && Enabled(cfg, s, a) && ActiveIn(Next(cfg, s, a), id)
    ensures id in s.d.table
  {
    match a
    case WorkerTurn => TurnActive(cfg, s, id);
    case SubmitCall(_, _, _, _) => CallNotActive(cfg, s, a, id);
    case StopCall(_, _, _, _) => CallNotActive(cfg, s, a, id);
    case _ => hide Turn, Submit, RequestStop;
  }

  /** If the lease was not active at `i`, and was on file from then on only at
      times from `since` on, its active deadline leaves the whole budget after `since`. */
  lemma {:induction false} ActiveDeadlineAfter(cfg: Config, states: seq<State>, acts: seq<Action>, id: string,
                                               i: nat, j: nat, since: int)
    requires cfg.Valid() && IsRun(cfg, states, acts) && Inv(cfg, states[0]) && i <= j < |states|
    requires !ActiveIn(states[i], id) && ActiveIn(states[j], id)
    requires forall m | i <= m <= j && id in states[m].d.table :: since <= states[m].now
    ensures states[j].d.table[id].activeDeadline.Some?
    ensures states[j].d.table[id].activeDeadline.value >= since + cfg.active
    decreases j
  {
    hide Next, Enabled, Inv;
    StepAt(cfg, states, acts, j - 1);
    RunInv(cfg, states, acts, j - 1);
    ActiveWasFiled(cfg, states[j - 1], acts[j - 1], id);
    if ActiveIn(states[j - 1], id) {
      ActiveDeadlineAfter(cfg, states, acts, id, i, j - 1, since);
      ActiveKeepsDeadline(cfg, states[j - 1], acts[j - 1], id);
    } else {
      BecomesActive(cfg, states[j - 1], acts[j - 1], id);
    }
  }

  lemma ActiveKeepsDeadline(cfg: Config, s: State, a: Action, id: string)
    requires cfg.Valid() && Inv(cfg, s) && Enabled(cfg, s, a)
    requires ActiveIn(s, id) && ActiveIn(Next(cfg, s, a), id)
    ensures Next(cfg, s, a).d.table[id].activeDeadline == s.d.table[id].activeDeadline
  {
    if a == WorkerTurn {
      TurnActive(cfg, s, id);
    }
  }

  lemma {:induction false} ActiveUntil(cfg: Config, states: seq<State>, acts: seq<Action>, id: string, j: nat, k: nat)
    requires cfg.Valid() && IsRun(cfg, states, acts) && Inv(cfg, states[0]) && j <= k < |states|
    requires forall m | j <= m < k :: !(AcceptsStop(cfg, states[m], acts[m]) && acts[m].id == id)
    requires ActiveIn(states[j], id) && states[j].d.table[id].activeDeadline.Some?
    requires states[k].now < states[j].d.table[id].activeDeadline.value
    ensures id in states[k].d.table && states[k].d.table[id] == states[j].d.table[id]
    decreases k
  {
    hide Next, Enabled, Inv, AcceptsStop;
    if j < k {
      TimeIsMonotone(cfg, states, acts, k - 1, k);
      ActiveUntil(cfg, states, acts, id, j, k - 1);
      StepAt(cfg, states, acts, k - 1);
      RunInv(cfg, states, acts, k - 1);
      StaysActive(cfg, states[k - 1], acts[k - 1], id);
    }
  }

  /** The message before the last one of a successful attempt was answered, and not with `active`. */
  ghost predicate LookedAgain(net: G.Network, a: G.Attempt) {
    && |a.sent| >= 2
    && G.Judge(net.exchange(|a.sent| - 2, a.unseenAt, a.sent[|a.sent| - 2]).answer) == G.Again
  }

  lemma {:induction false} PollLookedAgain(c: G.ClientConfig, net: G.Network, lease: G.LeaseHandle, deadline: int,
                                           sent: seq<G.Message>, now: int, unseenAt: int)
    requires c.Valid() && sent != []
    requires G.Judge(net.exchange(|sent| - 1, unseenAt, sent[|sent| - 1]).answer) == G.Again
    ensures var a := G.Poll(c, net, lease, deadline, sent, now, unseenAt);
      a.outcome.Acquired? ==> LookedAgain(net, a)
    decreases Max(0, deadline - now)
  {
    if now < deadline {
      var x := net.exchange(|sent|, now, G.GetLeaseState(lease));
      var sent' := sent + [G.GetLeaseState(lease)];
      if G.Judge(x.answer) == G.Again && !net.interruptsNap(|sent'|) {
        PollLookedAgain(c, net, lease, deadline, sent', now + G.TripTime(c, x) + c.pollInterval, now);
      }
    }
  }

  /** Timing of a successful attempt that had to poll. */
  lemma AcquiredByPolling(c: G.ClientConfig, net: G.Network, lease: G.LeaseHandle, postedAt: int)
    requires c.Valid()
    ensures var a := G.Admission(c, net, lease, [G.GetReady], postedAt);
      a.outcome.Acquired? && |a.sent| > 2 ==>
        && LookedAgain(net, a) && G.SawActive(c, net, a)
        && a.sent[|a.sent| - 1] == G.GetLeaseState(lease)
        && (a.sent[|a.sent| - 2] == G.PostAcquire(lease, c.queueWait) || a.sent[|a.sent| - 2] == G.GetLeaseState(lease))
        && a.askedAt <= a.unseenAt + c.roundTrip + c.pollInterval
        && a.unseenAt + G.TripTime(c, net.exchange(|a.sent| - 2, a.unseenAt, a.sent[|a.sent| - 2])) <= a.askedAt
  {
    var post := G.PostAcquire(lease, c.queueWait);
    var sent := [G.GetReady, post];
    assert [G.GetReady] + [post] == sent;
    var x := net.exchange(1, postedAt, post);
    if G.Judge(x.answer) == G.Again {
      var now := postedAt + G.TripTime(c, x);
      var deadline := now + c.Budget();
      PollLookedAgain(c, net, lease, deadline, sent, now, postedAt);
      PollSpacing(c, net, lease, deadline, sent, now, postedAt);
      G.PollMessages(c, net, lease, deadline, sent, now, postedAt);
      G.PollTimes(c, net, lease, deadline, sent, now, postedAt);
      var a := G.Poll(c, net, lease, deadline, sent, now, postedAt);
      assert a.sent[..2] == sent && a.sent[1] == a.sent[..2][1];
    }
  }

  lemma {:induction false} PollSpacing(c: G.ClientConfig, net: G.Network, lease: G.LeaseHandle, deadline: int,
                                       sent: seq<G.Message>, now: int, unseenAt: int)
    requires c.Valid() && sent != []
    requires unseenAt + G.TripTime(c, net.exchange(|sent| - 1, unseenAt, sent[|sent| - 1])) <= now
    ensures var a := G.Poll(c, net, lease, deadline, sent, now, unseenAt);
      a.outcome.Acquired? && |a.sent| >= 2 ==>
        a.unseenAt + G.TripTime(c, net.exchange(|a.sent| - 2, a.unseenAt, a.sent[|a.sent| - 2])) <= a.askedAt
    decreases Max(0, deadline - now)
  {
    if now < deadline {
      var x := net.exchange(|sent|, now, G.GetLeaseState(lease));
      var sent' := sent + [G.GetLeaseState(lease)];
      if G.Judge(x.answer) == G.Again && !net.interruptsNap(|sent'|) {
        PollSpacing(c, net, lease, deadline, sent', now + G.TripTime(c, x) + c.pollInterval, now);
      }
    }
  }

  /** Until `t` nobody has used the id: the client has just made it up. */
  ghost predicate UnusedUntil(states: seq<State>, id: string, t: int) {
    && |states| > 0 && id !in states[0].d.table
    && (forall m | 0 <= m < |states| && states[m].now < t :: id !in states[m].d.table)
  }

  /** An attempt that saw `active` at once sent its acquire message and nothing else. */
  lemma AcquiredAtOnce(c: G.ClientConfig, net: G.Network, lease: G.LeaseHandle, postedAt: int)
    requires c.Valid()
    ensures var a := G.Admission(c, net, lease, [G.GetReady], postedAt);
      a.outcome.Acquired? ==>
        && |a.sent| >= 2 && G.SawActive(c, net, a) && a.sent[|a.sent| - 1].lease == lease
        && (|a.sent| == 2 ==> a.askedAt == postedAt)
  {
    var post := G.PostAcquire(lease, c.queueWait);
    var sent := [G.GetReady, post];
    assert [G.GetReady] + [post] == sent;
    var x := net.exchange(1, postedAt, post);
    if G.Judge(x.answer) == G.Again {
      var now := postedAt + G.TripTime(c, x);
      G.PollMessages(c, net, lease, now + c.Budget(), sent, now, postedAt);
      hide G.Poll;
    }
  }

  /**
   Inference stays inside the lease. The client saw `active` in `states[j]`. If
   it had to poll, it had looked before, in `states[i]`; if the answer came at
   once, its id was new when it posted. If two round trips, one poll interval
   and the inference fit into the active budget, then in every state up to the
   end of the inference the lease is active, unless somebody had a stop accepted
   for it: the worker cannot begin to stop the engine under it.
   */
  lemma InferenceInsideLease(cfg: Config, states: seq<State>, acts: seq<Action>, c: G.ClientConfig, net: G.Network,
                             lease: G.LeaseHandle, postedAt: int, inference: int, i: nat, j: nat, k: nat)
    requires cfg.Valid() && IsRun(cfg, states, acts) && Inv(cfg, states[0])
    requires c.Valid() && 2 * c.roundTrip + c.pollInterval + inference < cfg.active
    requires i <= j <= k < |states|
    requires var a := G.Admission(c, net, lease, [G.GetReady], postedAt);
      && a.outcome.Acquired? && a.sent != []
      && AnsweredFrom(c, net, states, j, |a.sent| - 1, a.askedAt, a.sent[|a.sent| - 1])
      && (if |a.sent| > 2
          then AnsweredFrom(c, net, states, i, |a.sent| - 2, a.unseenAt, a.sent[|a.sent| - 2])
          else UnusedUntil(states, lease.requestId, postedAt))
      && states[k].now <= a.finish + inference
    requires forall m | j <= m < k :: !(AcceptsStop(cfg, states[m], acts[m]) && acts[m].id == lease.requestId)
    ensures ActiveIn(states[k], lease.requestId)
    ensures !(states[k].worker.InStop? && states[k].worker.id == lease.requestId)
  {
    hide Next, Enabled, Inv, AcceptsStop;
    AcquiredByPolling(c, net, lease, postedAt);
    AcquiredAtOnce(c, net, lease, postedAt);
    var id := lease.requestId;
    var a := G.Admission(c, net, lease, [G.GetReady], postedAt);
    hide G.Admission;
    if |a.sent| > 2 {
      forall m | i <= m <= j ensures states[i].now <= states[m].now {
        TimeIsMonotone(cfg, states, acts, i, m);
      }
      ActiveDeadlineAfter(cfg, states, acts, id, i, j, states[i].now);
    } else {
      ActiveDeadlineAfter(cfg, states, acts, id, 0, j, postedAt);
    }
    ActiveUntil(cfg, states, acts, id, j, k);
    RunInv(cfg, states, acts, k);
    NoStopWhileActive(cfg, states[k], id);
  }

  lemma NoStopWhileActive(cfg: Config, s: State, id: string)
    requires Inv(cfg, s) && id in s.d.table && s.d.table[id].state == Active
    ensures !(s.worker.InStop? && s.worker.id == id)
  {
  }

  /** The client as deployed: 10 s round trips, 0.2 s polls. */
  const DEPLOYED := G.ClientConfig(10 * SECOND, 30 * SECOND, 120 * SECOND, 200 * MILLI)

  /** The deployed client leaves room for 300 s of inference in the active budget of the deployed dispatcher. */
  lemma DeployedBudgetsFit(services: set<string>, epoch: string)
    ensures var cfg := B.Production(services, epoch);
      && DEPLOYED.Valid() && DEPLOYED.startup == cfg.startup
      && 2 * DEPLOYED.roundTrip + DEPLOYED.pollInterval + 300 * SECOND < cfg.active
  {
  }

  // ---- Never given up for being late ----

  /** The latest time, from the answer to the acquire message on, at which a request is still not active. */
  function Latest(c: G.ClientConfig): int {
    c.queueWait + c.startup - 1
  }

  /** The latest time at which the client can look and find the lease not yet active: there are
      at most `Latest / pollInterval` polls before, each as slow as a round trip may be. */
  function LastLook(c: G.ClientConfig): int
    requires c.Valid()
  {
    Min(Latest(c), Latest(c) / c.pollInterval * (c.pollInterval + c.roundTrip))
  }

  /** After its last look in vain, if that is slow, the client comes back after its deadline. */
  predicate ComesLate(c: G.ClientConfig)
    requires c.Valid()
  {
    LastLook(c) + c.roundTrip + c.pollInterval >= c.Budget()
  }

  /** Unless it was active already, a poll finds the lease waiting or starting before `states[x]`;
      it is active from there on. */
  ghost predicate ServedAt(states: seq<State>, id: string, x: nat, lo: int, hi: int) {
    && x < |states|
    && forall idx | 0 <= idx < |states| && lo <= states[idx].now <= hi ::
         && (idx < x && id in states[idx].d.table ==>
               states[idx].d.table[id].state == Queued || states[idx].d.table[id].state == Starting)
         && (x <= idx ==> ActiveIn(states[idx], id))
  }

  /** Every poll of the attempt is answered from the run, and none of its naps is interrupted. */
  ghost predicate PollsAnswered(c: G.ClientConfig, net: G.Network, states: seq<State>, lease: G.LeaseHandle,
                                deadline: int, sent: seq<G.Message>, now: int)
    requires c.Valid()
    decreases Max(0, deadline - now)
  {
    now < deadline ==>
      var x := net.exchange(|sent|, now, G.GetLeaseState(lease));
      && (exists idx :: AnsweredFrom(c, net, states, idx, |sent|, now, G.GetLeaseState(lease)))
      && (G.Judge(x.answer) == G.Again ==>
            && !net.interruptsNap(|sent| + 1)
            && PollsAnswered(c, net, states, lease, deadline, sent + [G.GetLeaseState(lease)],
                             now + G.TripTime(c, x) + c.pollInterval))
  }

  /** A poll is answered before the attempt ends. */
  lemma {:induction false} AnsweredInTime(c: G.ClientConfig, net: G.Network, lease: G.LeaseHandle, deadline: int,
                                          sent: seq<G.Message>, now: int, unseenAt: int)
    requires c.Valid()
    ensures var finish := G.Poll(c, net, lease, deadline, sent, now, unseenAt).finish;
      && now <= finish
      && (now < deadline ==> now + G.TripTime(c, net.exchange(|sent|, now, G.GetLeaseState(lease))) <= finish)
    decreases Max(0, deadline - now)
  {
    if now < deadline {
      var x := net.exchange(|sent|, now, G.GetLeaseState(lease));
      if G.Judge(x.answer) == G.Again {
        AnsweredInTime(c, net, lease, deadline, sent + [G.GetLeaseState(lease)],
                       now + G.TripTime(c, x) + c.pollInterval, now);
      }
    }
  }

  /** After `k` polls the client is between `k` of the shortest and `k` of the longest rounds on. */
  predicate Polled(c: G.ClientConfig, k: nat, t: int) {
    k * c.pollInterval <= t <= k * (c.pollInterval + c.roundTrip)
  }

  lemma PolledAgain(c: G.ClientConfig, k: nat, t: int, trip: int)
    requires c.Valid() && Polled(c, k, t) && 0 <= trip <= c.roundTrip
    ensures Polled(c, k + 1, t + trip + c.pollInterval)
  {
    OneLess(k + 1, c.pollInterval);
    OneLess(k + 1, c.pollInterval + c.roundTrip);
  }

  /** No look in vain is later than the last one. */
  lemma LooksInTime(c: G.ClientConfig, k: nat, t: int)
    requires c.Valid() && Polled(c, k, t) && t <= Latest(c)
    ensures t <= LastLook(c)
  {
    var most := Latest(c) / c.pollInterval;
    if k > most {
      MoreTenures(most + 1, k, c.pollInterval);
      OneLess(most + 1, c.pollInterval);
    } else {
      MoreTenures(k, most, c.pollInterval + c.roundTrip);
    }
  }

  lemma {:induction false} PollSeesActive(cfg: Config, states: seq<State>, acts: seq<Action>, c: G.ClientConfig,
                                          net: G.Network, lease: G.LeaseHandle, deadline: int, sent: seq<G.Message>,
                                          now: int, unseenAt: int, x: nat, lo: int, hi: int, k: nat)
    requires c.Valid() && IsRun(cfg, states, acts) && !ComesLate(c) && deadline == lo + c.Budget()
    requires ServedAt(states, lease.requestId, x, lo, hi) && PollsAnswered(c, net, states, lease, deadline, sent, now)
    requires lo <= now < deadline && states[x].now <= lo + Latest(c) && Polled(c, k, now - lo)
    requires G.Poll(c, net, lease, deadline, sent, now, unseenAt).finish <= hi
    ensures G.Poll(c, net, lease, deadline, sent, now, unseenAt).outcome == G.Acquired(lease)
    decreases deadline - now
  {
    hide IsRun, LastLook, Polled;
    AnsweredInTime(c, net, lease, deadline, sent, now, unseenAt);
    var e := net.exchange(|sent|, now, G.GetLeaseState(lease));
    var idx :| AnsweredFrom(c, net, states, idx, |sent|, now, G.GetLeaseState(lease));
    if idx < x {
      TimeIsMonotone(cfg, states, acts, idx, x);
      LooksInTime(c, k, now - lo);
    }
    if G.Judge(e.answer) == G.Again {
      PolledAgain(c, k, now - lo, G.TripTime(c, e));
      PollSeesActive(cfg, states, acts, c, net, lease, deadline, sent + [G.GetLeaseState(lease)],
                     now + G.TripTime(c, e) + c.pollInterval, now, x, lo, hi, k + 1);
    }
  }

  /** The dispatcher serves the request: admitted with the client's queue wait by the time the acquire
      message was answered, it becomes active in `states[x]` and stays so while the attempt lasts. */
  ghost predicate Served(cfg: Config, states: seq<State>, acts: seq<Action>, c: G.ClientConfig, net: G.Network,
                         lease: G.LeaseHandle, postedAt: int, x: nat)
    requires c.Valid()
  {
    var id := lease.requestId;
    var post := net.exchange(1, postedAt, G.PostAcquire(lease, c.queueWait));
    var answeredAt := postedAt + G.TripTime(c, post);
    && cfg.Valid() && IsRun(cfg, states, acts) && c.startup == cfg.startup
    && G.Judge(post.answer) == G.Again
    && 0 < x && ServedAt(states, id, x, answeredAt, G.Admission(c, net, lease, [G.GetReady], postedAt).finish)
    && PollsAnswered(c, net, states, lease, answeredAt + c.Budget(),
                     [G.GetReady, G.PostAcquire(lease, c.queueWait)], answeredAt)
    && id in states[x - 1].d.table && !ActiveIn(states[x - 1], id) && ActiveIn(states[x], id)
    && states[x - 1].d.table[id].createdAt <= answeredAt
    && states[x - 1].d.table[id].waitTimeout == c.queueWait
  }

  /**
   A served request is never timed out by a client that does not come late: it
   is acquired.
   */
  lemma ServedRequestIsAcquired(cfg: Config, states: seq<State>, acts: seq<Action>, c: G.ClientConfig, net: G.Network,
                                lease: G.LeaseHandle, postedAt: int, x: nat)
    requires c.Valid() && !ComesLate(c) && Served(cfg, states, acts, c, net, lease, postedAt, x) && Inv(cfg, states[0])
    ensures G.Admission(c, net, lease, [G.GetReady], postedAt).outcome == G.Acquired(lease)
  {
    hide Next, Enabled, G.Poll, PollsAnswered, ServedAt, ComesLate, LastLook, IsRun;
    var post := net.exchange(1, postedAt, G.PostAcquire(lease, c.queueWait));
    var answeredAt := postedAt + G.TripTime(c, post);
    var a := G.Admission(c, net, lease, [G.GetReady], postedAt);
    var sent := [G.GetReady, G.PostAcquire(lease, c.queueWait)];
    assert [G.GetReady] + [G.PostAcquire(lease, c.queueWait)] == sent;
    Indexed(states, lease.requestId, x, answeredAt, a.finish);
    ActiveBy(cfg, states, acts, lease.requestId, x);
    hide Inv;
    PollSeesActive(cfg, states, acts, c, net, lease, answeredAt + c.Budget(), sent, answeredAt, postedAt,
                   x, answeredAt, a.finish, 0);
  }

  lemma Indexed(states: seq<State>, id: string, x: nat, lo: int, hi: int)
    requires ServedAt(states, id, x, lo, hi)
    ensures x < |states|
  {
  }

  /** A lease is active at the latest when its queue wait and its startup budget are used up. */
  lemma ActiveBy(cfg: Config, states: seq<State>, acts: seq<Action>, id: string, x: nat)
    requires cfg.Valid() && IsRun(cfg, states, acts) && Inv(cfg, states[0]) && 0 < x < |states|
    requires id in states[x - 1].d.table && states[x - 1].d.table[id].state != Active && ActiveIn(states[x], id)
    ensures states[x].now < states[x - 1].d.table[id].createdAt + states[x - 1].d.table[id].waitTimeout + cfg.startup
  {
    hide Next, Enabled;
    RunInv(cfg, states, acts, x - 1);
    StepAt(cfg, states, acts, x - 1);
    BecomesActive(cfg, states[x - 1], acts[x - 1], id);
  }
}
