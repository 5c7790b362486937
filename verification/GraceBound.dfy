/**
 The grace of the gateway client is exact: a client that can come late does so
 in some run of some dispatcher, and times out on a request that is being
 served. The deployed client can come late.
 */
module GraceBound {
  import opened Prelude
  import opened Leases
  import opened Protocol
  import opened Invariant
  import opened Runs
  import opened QueueRoom
  import opened GatewayLease
  import G = Gateway

  /** Whatever dispatcher serves the request, in whatever run from its beginning, the client acquires the lease. */
  ghost predicate AcquiresWhatIsServed(c: G.ClientConfig)
    requires c.Valid()
  {
    forall cfg, states, acts, net, lease, postedAt, x ::
      Served(cfg, states, acts, c, net, lease, postedAt, x) && Init(states[0]) ==>
        G.Admission(c, net, lease, [G.GetReady], postedAt).outcome == G.Acquired(lease)
  }

  // ---- The dispatcher that serves as late as it may ----

  /** An engine that fails to start keeps the GPU until the request has all but expired. */
  function Slow(c: G.ClientConfig): Config {
    Config(c.queueWait, c.startup, c.Budget() + c.roundTrip + c.pollInterval, 1, c.queueWait, 2, c.queueWait, {"s"}, "")
  }

  function Lost(c: G.ClientConfig): Lease {
    NewLease("s", c.queueWait, 0).(state := Starting)
  }

  function Kept(c: G.ClientConfig): Lease {
    NewLease("s", c.queueWait, 0)
  }

  /** The request waits behind an owner whose start will fail. */
  function WaitingAt(c: G.ClientConfig, t: int): State {
    State(t, Ledger(map["o" := Lost(c), "r" := Kept(c)], ["r"], Some("o"), Ready, None), InStart("o", 0))
  }

  /** The table once the start of the owner has failed. */
  function Failing(c: G.ClientConfig): Table {
    map["o" := MarkTerminal(Lost(c).(error := Some("no health")), Failed, c.queueWait - 1), "r" := Kept(c)]
  }

  /** The request is started. */
  function StartingAt(c: G.ClientConfig, t: int): State {
    State(t, Ledger(Failing(c)["r" := Kept(c).(state := Starting)], [], Some("r"), Ready, None),
          InStart("r", c.queueWait - 1))
  }

  /** What a look at the request shows before it is active. */
  function Shows(c: G.ClientConfig, t: int): LeaseState {
    if t < c.queueWait then Queued else Starting
  }

  ghost predicate ShownIn(c: G.ClientConfig, states: seq<State>, t: int) {
    exists i :: 0 <= i < |states| && states[i].now == t && "r" in states[i].d.table
                && states[i].d.table["r"].state == Shows(c, t)
  }

  /** A run in which the request waits or starts, and that shows so at every time up to `t`. */
  ghost predicate Unserved(c: G.ClientConfig, states: seq<State>, acts: seq<Action>, t: int) {
    && IsRun(Slow(c), states, acts) && Init(states[0])
    && (forall i | 0 <= i < |states| && "r" in states[i].d.table ::
          states[i].d.table["r"].state == Queued || states[i].d.table["r"].state == Starting)
    && (forall u | 0 <= u <= t :: ShownIn(c, states, u))
  }

  lemma Longer(cfg: Config, states: seq<State>, acts: seq<Action>, a: Action)
    requires IsRun(cfg, states, acts) && Enabled(cfg, states[|acts|], a)
    ensures IsRun(cfg, states + [Next(cfg, states[|acts|], a)], acts + [a])
  {
    hide Enabled, Next;
    var states', acts' := states + [Next(cfg, states[|acts|], a)], acts + [a];
    forall i | 0 <= i < |acts'|
      ensures Enabled(cfg, states'[i], acts'[i]) && states'[i + 1] == Next(cfg, states'[i], acts'[i])
    {
      if i < |acts| {
        StepAt(cfg, states, acts, i);
      }
    }
  }

  /** One more step, which may show the request at `t`. */
  lemma UnservedLonger(c: G.ClientConfig, states: seq<State>, acts: seq<Action>, a: Action, t: int)
    requires Unserved(c, states, acts, t - 1) && Enabled(Slow(c), states[|acts|], a)
    requires var s := Next(Slow(c), states[|acts|], a);
      && ("r" in s.d.table ==> s.d.table["r"].state == Queued || s.d.table["r"].state == Starting)
      && (t < 0 || ShownIn(c, states, t) || (s.now == t && "r" in s.d.table && s.d.table["r"].state == Shows(c, t)))
    ensures Unserved(c, states + [Next(Slow(c), states[|acts|], a)], acts + [a], t)
  {
    hide Enabled, Next;
    Longer(Slow(c), states, acts, a);
    hide IsRun;
    var states' := states + [Next(Slow(c), states[|acts|], a)];
    forall u | 0 <= u <= t ensures ShownIn(c, states', u) {
      if u < t || ShownIn(c, states, t) {
        assert ShownIn(c, states, u);
        var i :| 0 <= i < |states| && states[i].now == u && "r" in states[i].d.table
                 && states[i].d.table["r"].state == Shows(c, u);
        assert states'[i] == states[i];
      } else {
        assert states'[|states|].now == u;
      }
    }
  }

  // ---- Its run, step by step ----

  lemma FirstSteps(c: G.ClientConfig)
    requires 0 < c.queueWait && 0 < c.startup
    ensures var cfg := Slow(c);
      var s1 := State(0, Ledger(map[], [], None, Ready, None), Wait(0));
      var s2 := State(0, Ledger(map["o" := Kept(c)], ["o"], None, Ready, None), Wait(0));
      && Next(cfg, State(0, Ledger(map[], [], None, Reconciling, None), Reconcile(0)), ReconcileDone(Stopped)) == s1
      && Next(cfg, s1, SubmitCall("s", "o", "", c.queueWait)) == s2
  {
    assert Prune(Slow(c), map[], None, 0) == map[];
    hide Turn;
  }

  lemma OwnerStarts(c: G.ClientConfig)
    requires 0 < c.queueWait && 0 < c.startup
    ensures Next(Slow(c), State(0, Ledger(map["o" := Kept(c)], ["o"], None, Ready, None), Wait(0)), WorkerTurn)
            == State(0, Ledger(map["o" := Lost(c)], [], Some("o"), Ready, None), InStart("o", 0))
  {
    var s := State(0, Ledger(map["o" := Kept(c)], ["o"], None, Ready, None), Wait(0));
    assert Settle(Slow(c), s) == s.d.table;
    var k := TurnIdleIs(Slow(c), s);
    hide Next, Settle;
    assert s.d.queue[0] == "o" && "o" in s.d.queue;
    assert s.d.queue[1..] == [];
  }

  lemma RequestWaits(c: G.ClientConfig)
    requires 0 < c.queueWait && 0 < c.startup
    ensures Next(Slow(c), State(0, Ledger(map["o" := Lost(c)], [], Some("o"), Ready, None), InStart("o", 0)),
                 SubmitCall("s", "r", "", c.queueWait))
            == WaitingAt(c, 0)
  {
    var t := map["o" := Lost(c)];
    assert Prune(Slow(c), t, Some("o"), 0) == t;
    hide Turn;
  }

  function Freed(c: G.ClientConfig): State {
    State(c.queueWait - 1, Ledger(Failing(c), ["r"], None, Ready, None), Wait(c.queueWait - 1))
  }

  lemma OwnerFails(c: G.ClientConfig)
    requires 0 < c.queueWait && 0 < c.startup
    ensures Next(Slow(c), WaitingAt(c, c.queueWait - 1), StartDone(StartFailed("no health"))) == Freed(c)
  {
    hide Turn, Submit, RequestStop;
  }

  lemma RequestStarts(c: G.ClientConfig)
    requires 0 < c.queueWait && 0 < c.startup
    ensures Next(Slow(c), Freed(c), WorkerTurn) == StartingAt(c, c.queueWait - 1)
  {
    var s := Freed(c);
    FreedSettles(c);
    var k := TurnIdleIs(Slow(c), s);
    hide Next, Settle;
    assert s.d.queue[0] == "r" && "r" in s.d.queue;
    assert s.d.queue[1..] == [];
  }

  lemma FreedSettles(c: G.ClientConfig)
    requires 0 < c.queueWait
    ensures Settle(Slow(c), Freed(c)) == Failing(c)
  {
  }

  lemma OwnerAdmitted(c: G.ClientConfig) returns (states: seq<State>, acts: seq<Action>)
    requires c.Valid() && 0 < c.queueWait && 0 < c.startup
    ensures Unserved(c, states, acts, -1)
    ensures states[|acts|] == State(0, Ledger(map["o" := Kept(c)], ["o"], None, Ready, None), Wait(0))
  {
    var a := SubmitCall("s", "o", "", c.queueWait);
    FirstSteps(c);
    states, acts := [State(0, Ledger(map[], [], None, Reconciling, None), Reconcile(0))], [];
    assert Init(states[0]);
    hide Next, Init;
    UnservedLonger(c, states, acts, ReconcileDone(Stopped), -1);
    hide Unserved, ShownIn;
    states, acts := states + [Next(Slow(c), states[|acts|], ReconcileDone(Stopped))], acts + [ReconcileDone(Stopped)];
    UnservedLonger(c, states, acts, a, -1);
    states, acts := states + [Next(Slow(c), states[|acts|], a)], acts + [a];
  }

  /** From the beginning to the admission of the request at time 0. */
  lemma Admitted(c: G.ClientConfig) returns (states: seq<State>, acts: seq<Action>)
    requires c.Valid() && 0 < c.queueWait && 0 < c.startup
    ensures Unserved(c, states, acts, 0) && states[|acts|] == WaitingAt(c, 0)
  {
    var a := SubmitCall("s", "r", "", c.queueWait);
    OwnerStarts(c);
    RequestWaits(c);
    states, acts := OwnerAdmitted(c);
    hide Next, ShownIn;
    UnservedLonger(c, states, acts, WorkerTurn, -1);
    states, acts := states + [Next(Slow(c), states[|acts|], WorkerTurn)], acts + [WorkerTurn];
    UnservedLonger(c, states, acts, a, 0);
    states, acts := states + [Next(Slow(c), states[|acts|], a)], acts + [a];
  }

  lemma {:induction false} WaitsOn(c: G.ClientConfig, t: int) returns (states: seq<State>, acts: seq<Action>)
    requires c.Valid() && 0 <= t < c.queueWait && 0 < c.startup
    ensures Unserved(c, states, acts, t) && states[|acts|] == WaitingAt(c, t)
    decreases t
  {
    if t == 0 {
      states, acts := Admitted(c);
    } else {
      states, acts := WaitsOn(c, t - 1);
      UnservedLonger(c, states, acts, Tick(1), t);
      states, acts := states + [WaitingAt(c, t)], acts + [Tick(1)];
    }
  }

  /** The start of the owner fails, and the next turn grants the request. */
  lemma Handover(c: G.ClientConfig) returns (states: seq<State>, acts: seq<Action>)
    requires c.Valid() && 0 < c.queueWait && 0 < c.startup
    ensures Unserved(c, states, acts, c.queueWait - 1) && states[|acts|] == StartingAt(c, c.queueWait - 1)
  {
    var failed := StartDone(StartFailed("no health"));
    states, acts := WaitsOn(c, c.queueWait - 1);
    OwnerFails(c);
    RequestStarts(c);
    hide Next, IsRun, Init;
    UnservedLonger(c, states, acts, failed, c.queueWait - 1);
    states, acts := states + [Next(Slow(c), states[|acts|], failed)], acts + [failed];
    UnservedLonger(c, states, acts, WorkerTurn, c.queueWait - 1);
    states, acts := states + [Next(Slow(c), states[|acts|], WorkerTurn)], acts + [WorkerTurn];
  }

  lemma {:induction false} StartsOn(c: G.ClientConfig, t: int) returns (states: seq<State>, acts: seq<Action>)
    requires c.Valid() && 0 < c.queueWait && 0 < c.startup && c.queueWait - 1 <= t <= Latest(c)
    ensures Unserved(c, states, acts, t) && states[|acts|] == StartingAt(c, t)
    decreases t
  {
    if t == c.queueWait - 1 {
      states, acts := Handover(c);
    } else {
      states, acts := StartsOn(c, t - 1);
      UnservedLonger(c, states, acts, Tick(1), t);
      states, acts := states + [StartingAt(c, t)], acts + [Tick(1)];
    }
  }

  // ---- Active, and for long ----

  /** From `states[x]` on the request is active, with its deadline unchanged, while a sleeping worker guards it. */
  ghost predicate ActiveFrom(c: G.ClientConfig, states: seq<State>, acts: seq<Action>, x: nat) {
    && IsRun(Slow(c), states, acts) && Init(states[0]) && x < |states|
    && (forall i | x <= i < |states| :: ActiveIn(states[i], "r"))
    && var s := states[|acts|];
       && s.d.mode == Ready && s.worker.Wait? && s.now <= Latest(c) + c.roundTrip + c.pollInterval
       && s.d.table["r"].activeDeadline == Some(Latest(c) + Slow(c).active)
  }

  lemma ActiveLonger(c: G.ClientConfig, states: seq<State>, acts: seq<Action>, x: nat, a: Action)
    requires ActiveFrom(c, states, acts, x) && Enabled(Slow(c), states[|acts|], a)
    requires var s, s' := states[|acts|], Next(Slow(c), states[|acts|], a);
      && s'.d.mode == Ready && s'.worker.Wait? && s'.now <= Latest(c) + c.roundTrip + c.pollInterval
      && "r" in s'.d.table && s'.d.table["r"] == s.d.table["r"]
    ensures ActiveFrom(c, states + [Next(Slow(c), states[|acts|], a)], acts + [a], x)
  {
    hide Enabled, Next;
    Longer(Slow(c), states, acts, a);
    hide IsRun;
  }

  /** A turn of the worker leaves an active owner alone and goes to sleep. */
  lemma TurnSleeps(cfg: Config, s: State, id: string)
    requires cfg.Valid() && Inv(cfg, s) && s.d.mode == Ready && s.worker.Wait?
    requires ActiveIn(s, id) && s.now < s.d.table[id].activeDeadline.value
    ensures var s' := Next(cfg, s, WorkerTurn);
      && s'.now == s.now && s'.d.mode == Ready && s'.worker.Wait? && s'.worker.wakeAt > s.now
      && id in s'.d.table && s'.d.table[id] == s.d.table[id]
  {
    TurnOwnedIs(cfg, s, id);
    hide Next, Settle, Inv;
  }

  lemma {:induction false} ActiveOn(c: G.ClientConfig, states: seq<State>, acts: seq<Action>, x: nat, t: int)
    returns (states': seq<State>, acts': seq<Action>)
    requires c.Valid() && 0 < c.queueWait && 0 < c.startup && ActiveFrom(c, states, acts, x)
    requires states[|acts|].now <= t <= Latest(c) + c.roundTrip + c.pollInterval
    ensures ActiveFrom(c, states', acts', x) && states'[|acts'|].now == t && states <= states' && acts <= acts'
    decreases t - states[|acts|].now, if states[|acts|].worker == Wait(states[|acts|].now) then 1 else 0
  {
    var cfg, s := Slow(c), states[|acts|];
    hide Next, Inv, IsRun, Init;
    if s.now == t {
      states', acts' := states, acts;
    } else {
      InitInv(cfg, states[0]);
      RunInv(cfg, states, acts, |acts|);
      WaitIsAhead(cfg, s);
      var a := if s.worker.wakeAt == s.now then WorkerTurn else Tick(Min(t, s.worker.wakeAt) - s.now);
      if a == WorkerTurn {
        TurnSleeps(cfg, s, "r");
      } else {
        TickOnly(cfg, s, a);
      }
      ActiveLonger(c, states, acts, x, a);
      states', acts' := ActiveOn(c, states + [Next(cfg, s, a)], acts + [a], x, t);
    }
  }

  lemma TickOnly(cfg: Config, s: State, a: Action)
    requires a.Tick? && Enabled(cfg, s, a)
    ensures Next(cfg, s, a) == s.(now := s.now + a.span)
  {
  }

  // ---- The network that answers as late as it may ----

  function Looks(c: G.ClientConfig): int
    requires c.Valid()
  {
    Latest(c) / c.pollInterval
  }

  /** When the client looks for the i-th time: as late as it can be, if it is to look at `LastLook` in the end. */
  function LookTime(c: G.ClientConfig, i: int): int
    requires c.Valid()
  {
    Min(i * (c.pollInterval + c.roundTrip), LastLook(c) - (Looks(c) - i) * c.pollInterval)
  }

  lemma LookTimes(c: G.ClientConfig, i: int)
    requires c.Valid() && 0 <= Latest(c) && 0 <= i <= Looks(c)
    ensures LookTime(c, 0) == 0 && LookTime(c, Looks(c)) == LastLook(c) <= Latest(c)
    ensures 0 <= LookTime(c, i) <= LastLook(c)
  {
    var p, r, most := c.pollInterval, c.roundTrip, Looks(c);
    MoreTenures(most, most, p + r);
    assert most * p <= Latest(c);
    assert most * (p + r) == most * p + most * r;
    NotNegative(most, r);
    NotNegative(most - i, p);
    NotNegative(i, p + r);
    assert (most - i) * p == most * p - i * p;
    NotNegative(i, p);
  }

  lemma LookStep(c: G.ClientConfig, i: int)
    requires c.Valid()
    ensures c.pollInterval <= LookTime(c, i + 1) - LookTime(c, i) <= c.pollInterval + c.roundTrip
  {
    OneLess(i + 1, c.pollInterval + c.roundTrip);
    OneLess(Looks(c) - i, c.pollInterval);
    hide LastLook;
  }

  function SlowNet(c: G.ClientConfig): G.Network
    requires c.Valid()
  {
    G.Network(
      (k: nat, t: int, m: G.Message) =>
        if k < 2 then G.Exchange(0, G.LeaseBody(Some(Queued)))
        else if k < 2 + Looks(c) then
          G.Exchange(LookTime(c, k - 1) - LookTime(c, k - 2) - c.pollInterval, G.LeaseBody(Some(Shows(c, t))))
        else G.Exchange(if k == 2 + Looks(c) then c.roundTrip else 0, G.LeaseBody(Some(Shows(c, t)))),
      (_: nat) => false)
  }

  const REQUEST := G.LeaseHandle("r", "s", "")

  lemma SlowTrip(c: G.ClientConfig, i: nat, t: int)
    requires c.Valid() && i <= Looks(c)
    ensures var x := SlowNet(c).exchange(2 + i, t, G.GetLeaseState(REQUEST));
      && x.answer == G.LeaseBody(Some(Shows(c, t))) && G.Judge(x.answer) == G.Again
      && !SlowNet(c).interruptsNap(3 + i)
      && (i < Looks(c) ==> LookTime(c, i) + G.TripTime(c, x) + c.pollInterval == LookTime(c, i + 1))
      && (i == Looks(c) ==> G.TripTime(c, x) == c.roundTrip)
  {
    LookStep(c, i);
    hide LookTime;
  }

  lemma LastTrip(c: G.ClientConfig, t: int)
    requires c.Valid()
    ensures G.TripTime(c, SlowNet(c).exchange(3 + Looks(c), t, G.PostCancel(REQUEST))) == 0
  {
    hide LookTime, Looks, Shows;
  }

  /** A look in vain, and the next one. */
  lemma LooksAgain(c: G.ClientConfig, sent: seq<G.Message>, i: nat, t: int, unseenAt: int)
    requires c.Valid() && i <= Looks(c) && |sent| == 2 + i && t < c.Budget()
    ensures var net := SlowNet(c);
      var trip := G.TripTime(c, net.exchange(2 + i, t, G.GetLeaseState(REQUEST)));
      G.Poll(c, net, REQUEST, c.Budget(), sent, t, unseenAt)
      == G.Poll(c, net, REQUEST, c.Budget(), sent + [G.GetLeaseState(REQUEST)], t + trip + c.pollInterval, t)
  {
    SlowTrip(c, i, t);
    hide SlowNet, Looks, Shows, LookTime, G.TripTime, G.Judge;
  }

  lemma GivesUp(c: G.ClientConfig, sent: seq<G.Message>, t: int, unseenAt: int)
    requires c.Valid() && |sent| == 3 + Looks(c) && t >= c.Budget()
    ensures var a := G.Poll(c, SlowNet(c), REQUEST, c.Budget(), sent, t, unseenAt);
      a.outcome == G.NotAcquired(G.TimedOut) && a.finish == t
  {
    LastTrip(c, t);
    hide SlowNet, Looks, G.TripTime;
  }

  /** The attempt, poll by poll: it gives up when it comes back from its last look. */
  lemma {:induction false} PollsTimeOut(c: G.ClientConfig, sent: seq<G.Message>, i: nat, unseenAt: int)
    requires c.Valid() && 0 <= Latest(c) && ComesLate(c) && i <= Looks(c) && |sent| == 2 + i
    ensures var a := G.Poll(c, SlowNet(c), REQUEST, c.Budget(), sent, LookTime(c, i), unseenAt);
      a.outcome == G.NotAcquired(G.TimedOut) && a.finish == LastLook(c) + c.roundTrip + c.pollInterval
    decreases Looks(c) - i
  {
    var t, sent' := LookTime(c, i), sent + [G.GetLeaseState(REQUEST)];
    LookTimes(c, i);
    SlowTrip(c, i, t);
    LooksAgain(c, sent, i, t, unseenAt);
    hide LookTime, LastLook, SlowNet, Looks, Latest, G.Judge, G.TripTime, Shows, G.Poll;
    if i < Looks(c) {
      PollsTimeOut(c, sent', i + 1, t);
    } else {
      GivesUp(c, sent', t + c.roundTrip + c.pollInterval, t);
    }
  }

  lemma PollIsAnswered(c: G.ClientConfig, states: seq<State>, i: nat, t: int) returns (idx: int)
    requires c.Valid() && i <= Looks(c) && ShownIn(c, states, t)
    ensures AnsweredFrom(c, SlowNet(c), states, idx, 2 + i, t, G.GetLeaseState(REQUEST))
  {
    SlowTrip(c, i, t);
    hide SlowNet, Looks, Shows;
    idx :| 0 <= idx < |states| && states[idx].now == t && "r" in states[idx].d.table
           && states[idx].d.table["r"].state == Shows(c, t);
  }

  lemma {:induction false} PollsAreAnswered(c: G.ClientConfig, states: seq<State>, sent: seq<G.Message>, i: nat)
    requires c.Valid() && 0 <= Latest(c) && ComesLate(c) && i <= Looks(c) && |sent| == 2 + i
    requires forall u | 0 <= u <= Latest(c) :: ShownIn(c, states, u)
    ensures PollsAnswered(c, SlowNet(c), states, REQUEST, c.Budget(), sent, LookTime(c, i))
    decreases Looks(c) - i
  {
    hide LookTime, LastLook, SlowNet, Looks, Latest, G.Judge, Shows;
    var t := LookTime(c, i);
    LookTimes(c, i);
    SlowTrip(c, i, t);
    var idx := PollIsAnswered(c, states, i, t);
    assert AnsweredFrom(c, SlowNet(c), states, idx, |sent|, t, G.GetLeaseState(REQUEST));
    if i < Looks(c) {
      PollsAreAnswered(c, states, sent + [G.GetLeaseState(REQUEST)], i + 1);
    }
  }

  // ---- The whole story ----

  /** The start of the request ends well at the last moment, and the lease is active from then on. */
  lemma BecomesActiveLate(c: G.ClientConfig, t: int) returns (states: seq<State>, acts: seq<Action>, x: nat)
    requires c.Valid() && 0 < c.queueWait && 0 < c.startup
    requires Latest(c) <= t <= Latest(c) + c.roundTrip + c.pollInterval
    ensures ActiveFrom(c, states, acts, x) && 0 < x && states[|acts|].now == t
      && Unserved(c, states[..x], acts[..x - 1], Latest(c))
    ensures states[x - 1] == StartingAt(c, Latest(c))
  {
    var states1, acts1 := StartsOn(c, Latest(c));
    var s := StartingAt(c, Latest(c));
    var s' := Next(Slow(c), s, StartDone(Started));
    hide Next, Unserved;
    x := |states1|;
    Longer(Slow(c), states1, acts1, StartDone(Started));
    hide IsRun;
    states, acts := ActiveOn(c, states1 + [s'], acts1 + [StartDone(Started)], x, t);
    assert states[..x] == states1;
    assert acts[..x - 1] == acts1;
  }

  /** A client that can come late times out on a request that is served, and the run lasts until it has given up. */
  lemma TimesOutWhileServed(c: G.ClientConfig) returns (states: seq<State>, acts: seq<Action>, x: nat)
    requires c.Valid() && ComesLate(c) && 0 < c.queueWait && 0 < c.startup
    ensures Served(Slow(c), states, acts, c, SlowNet(c), REQUEST, 0, x) && Init(states[0])
    ensures var a := G.Admission(c, SlowNet(c), REQUEST, [G.GetReady], 0);
      a.outcome == G.NotAcquired(G.TimedOut) && states[|acts|].now == a.finish
  {
    hide *;
    states, acts, x := LateStory(c);
    AttemptTimesOut(c);
    AttemptIsServed(c, states, acts, x);
  }

  /** The run of the dispatcher, as long as the attempt. */
  lemma LateStory(c: G.ClientConfig) returns (states: seq<State>, acts: seq<Action>, x: nat)
    requires c.Valid() && ComesLate(c) && 0 < c.queueWait && 0 < c.startup
    ensures ActiveFrom(c, states, acts, x) && states[|acts|].now == LastLook(c) + c.roundTrip + c.pollInterval
    ensures 0 < x && Unserved(c, states[..x], acts[..x - 1], Latest(c)) && states[x - 1] == StartingAt(c, Latest(c))
    ensures Init(states[0])
  {
    LookTimes(c, 0);
    LateEnough(c);
    states, acts, x := BecomesActiveLate(c, LastLook(c) + c.roundTrip + c.pollInterval);
  }

  lemma AttemptTimesOut(c: G.ClientConfig)
    requires c.Valid() && ComesLate(c) && 0 < c.queueWait && 0 < c.startup
    ensures var a := G.Admission(c, SlowNet(c), REQUEST, [G.GetReady], 0);
      a.outcome == G.NotAcquired(G.TimedOut) && a.finish == LastLook(c) + c.roundTrip + c.pollInterval
  {
    LookTimes(c, 0);
    hide LookTime, LastLook, Looks, SlowNet, Latest, G.Poll, G.Admission, G.Judge, G.TripTime, ComesLate;
    AdmittedAtOnce(c);
    PollsTimeOut(c, [G.GetReady, G.PostAcquire(REQUEST, c.queueWait)], 0, 0);
  }

  lemma AttemptIsServed(c: G.ClientConfig, states: seq<State>, acts: seq<Action>, x: nat)
    requires c.Valid() && ComesLate(c) && 0 < c.queueWait && 0 < c.startup
    requires ActiveFrom(c, states, acts, x) && 0 < x && Unserved(c, states[..x], acts[..x - 1], Latest(c))
    requires states[x - 1] == StartingAt(c, Latest(c))
    ensures Served(Slow(c), states, acts, c, SlowNet(c), REQUEST, 0, x)
  {
    LookTimes(c, 0);
    hide LookTime, LastLook, Looks, ComesLate, SlowNet, ActiveFrom, ActiveIn, StartingAt, Slow, ShownIn;
    hide G.Admission, PollsAnswered, ServedAt, IsRun, G.TripTime, Init, Next, Enabled, G.Judge, Served;
    AdmittedAtOnce(c);
    IsServed(c, states, acts, x, G.Admission(c, SlowNet(c), REQUEST, [G.GetReady], 0).finish);
    ShownStays(c, states, x);
    hide Unserved;
    PollsAreAnswered(c, states, [G.GetReady, G.PostAcquire(REQUEST, c.queueWait)], 0);
    MakesServed(Slow(c), states, acts, c, SlowNet(c), x);
  }

  lemma MakesServed(cfg: Config, states: seq<State>, acts: seq<Action>, c: G.ClientConfig, net: G.Network, x: nat)
    requires c.Valid() && cfg.Valid() && IsRun(cfg, states, acts) && cfg.startup == c.startup && 0 < x < |states|
    requires var post := net.exchange(1, 0, G.PostAcquire(REQUEST, c.queueWait));
      G.Judge(post.answer) == G.Again && G.TripTime(c, post) == 0
    requires ServedAt(states, "r", x, 0, G.Admission(c, net, REQUEST, [G.GetReady], 0).finish)
    requires PollsAnswered(c, net, states, REQUEST, c.Budget(), [G.GetReady, G.PostAcquire(REQUEST, c.queueWait)], 0)
    requires "r" in states[x - 1].d.table && !ActiveIn(states[x - 1], "r") && ActiveIn(states[x], "r")
    requires states[x - 1].d.table["r"].createdAt == 0 && states[x - 1].d.table["r"].waitTimeout == c.queueWait
    ensures Served(cfg, states, acts, c, net, REQUEST, 0, x)
  {
    hide G.Admission, PollsAnswered, ServedAt, IsRun, G.TripTime, G.Judge, ActiveIn;
  }

  lemma AdmittedAtOnce(c: G.ClientConfig)
    requires c.Valid()
    ensures var post := G.PostAcquire(REQUEST, c.queueWait);
      var x := SlowNet(c).exchange(1, 0, post);
      && G.Judge(x.answer) == G.Again && G.TripTime(c, x) == 0
      && G.Admission(c, SlowNet(c), REQUEST, [G.GetReady], 0)
         == G.Poll(c, SlowNet(c), REQUEST, c.Budget(), [G.GetReady, post], 0, 0)
  {
    assert [G.GetReady] + [G.PostAcquire(REQUEST, c.queueWait)] == [G.GetReady, G.PostAcquire(REQUEST, c.queueWait)];
    hide G.Poll;
  }

  lemma IsServed(c: G.ClientConfig, states: seq<State>, acts: seq<Action>, x: nat, hi: int)
    requires ActiveFrom(c, states, acts, x) && 0 < x && Unserved(c, states[..x], acts[..x - 1], Latest(c))
    requires 0 < c.queueWait && 0 < c.startup && c.Valid() && states[x - 1] == StartingAt(c, Latest(c))
    ensures IsRun(Slow(c), states, acts) && Init(states[0]) && Slow(c).Valid() && Slow(c).startup == c.startup
    ensures "r" in states[x - 1].d.table && !ActiveIn(states[x - 1], "r") && x < |states| && ActiveIn(states[x], "r")
    ensures states[x - 1].d.table["r"].createdAt == 0 && states[x - 1].d.table["r"].waitTimeout == c.queueWait
    ensures ServedAt(states, "r", x, 0, hi)
  {
    hide IsRun, Init, ShownIn;
    forall i | 0 <= i < x && "r" in states[i].d.table
      ensures states[i].d.table["r"].state == Queued || states[i].d.table["r"].state == Starting
    {
      assert states[i] == states[..x][i];
    }
  }

  lemma LateEnough(c: G.ClientConfig)
    requires c.Valid() && ComesLate(c)
    ensures Latest(c) <= LastLook(c) + c.roundTrip + c.pollInterval <= Latest(c) + c.roundTrip + c.pollInterval
  {
  }

  lemma ShownStays(c: G.ClientConfig, states: seq<State>, x: nat)
    requires x <= |states| && forall u | 0 <= u <= Latest(c) :: ShownIn(c, states[..x], u)
    ensures forall u | 0 <= u <= Latest(c) :: ShownIn(c, states, u)
  {
    forall u | 0 <= u <= Latest(c) ensures ShownIn(c, states, u) {
      assert ShownIn(c, states[..x], u);
      var i :| 0 <= i < |states[..x]| && states[..x][i].now == u && "r" in states[..x][i].d.table
               && states[..x][i].d.table["r"].state == Shows(c, u);
      assert states[i] == states[..x][i];
    }
  }

  // ---- Nobody is served who will not wait ----

  /** A record that has not ended has something to wait for. */
  ghost predicate LiveWait(s: State) {
    forall id | id in s.d.table && !Terminal(s.d.table[id].state) :: 0 < s.d.table[id].waitTimeout
  }

  lemma StepLiveWait(cfg: Config, s: State, a: Action)
    requires cfg.Valid() && Inv(cfg, s) && Enabled(cfg, s, a) && LiveWait(s)
    ensures LiveWait(Next(cfg, s, a))
  {
    var s' := Next(cfg, s, a);
    forall id | id in s'.d.table && !Terminal(s'.d.table[id].state)
      ensures 0 < s'.d.table[id].waitTimeout
    {
      if id in s.d.table {
        hide Next, Enabled;
        StepClimbs(cfg, s, a, id);
      } else {
        NewWaits(cfg, s, a, id);
      }
    }
  }

  lemma NewWaits(cfg: Config, s: State, a: Action, id: string)
    requires cfg.Valid() && Inv(cfg, s) && Enabled(cfg, s, a)
    requires id !in s.d.table && id in Next(cfg, s, a).d.table
    ensures var l := Next(cfg, s, a).d.table[id]; Terminal(l.state) || 0 < l.waitTimeout
  {
    match a
    case WorkerTurn =>
      hide Next;
      TurnFilesNothing(cfg, s);
    case SubmitCall(_, _, _, _) => hide Turn, RequestStop, Inv;
    case StopCall(_, _, _, _) => hide Turn, Submit, Inv;
    case _ => hide Turn, Submit, RequestStop, Inv;
  }

  lemma TurnFilesNothing(cfg: Config, s: State)
    requires cfg.Valid() && Inv(cfg, s) && s.worker.Wait?
    ensures Next(cfg, s, WorkerTurn).d.table.Keys <= s.d.table.Keys
  {
    SettleAges(cfg, s);
    if s.d.mode != Ready {
      NotReadyTurn(cfg, s);
    } else if s.d.current.Some? {
      TurnOwnedIs(cfg, s, s.d.current.value);
    } else {
      var k := TurnIdleIs(cfg, s);
    }
    hide Next, Settle;
  }

  lemma {:induction false} RunLiveWait(cfg: Config, states: seq<State>, acts: seq<Action>, i: nat)
    requires cfg.Valid() && IsRun(cfg, states, acts) && Init(states[0]) && i < |states|
    ensures Inv(cfg, states[i]) && LiveWait(states[i])
  {
    if i == 0 {
      InitInv(cfg, states[0]);
      hide Inv;
    } else {
      hide Next, Enabled, Inv, LiveWait, Init;
      RunLiveWait(cfg, states, acts, i - 1);
      StepAt(cfg, states, acts, i - 1);
      StepInv(cfg, states[i - 1], acts[i - 1]);
      StepLiveWait(cfg, states[i - 1], acts[i - 1]);
    }
  }

  // ---- Exactly ----

  /** The client wants a lease at all, and its last look may be too late for its deadline. */
  predicate CanBeLate(c: G.ClientConfig)
    requires c.Valid()
  {
    0 < c.queueWait && 0 < c.startup && ComesLate(c)
  }

  /**
   A client acquires whatever is served, over all dispatchers with its startup
   budget, all their runs and all networks, if and only if its last look in
   vain, made as late as polls and round trips allow, brings it back before
   its deadline.
   */
  lemma AcquisitionIsExact(c: G.ClientConfig)
    requires c.Valid()
    ensures AcquiresWhatIsServed(c) <==> !CanBeLate(c)
  {
    if CanBeLate(c) {
      var states, acts, x := TimesOutWhileServed(c);
      hide Served, Init, G.Admission, ComesLate, Slow, SlowNet;
    } else {
      forall cfg, states, acts, net, lease, postedAt, x
        | Served(cfg, states, acts, c, net, lease, postedAt, x) && Init(states[0])
        ensures G.Admission(c, net, lease, [G.GetReady], postedAt).outcome == G.Acquired(lease)
      {
        ServedHasWaited(cfg, states, acts, c, net, lease, postedAt, x);
        InitInv(cfg, states[0]);
        hide Served, Init, Inv, G.Admission, ComesLate;
        ServedRequestIsAcquired(cfg, states, acts, c, net, lease, postedAt, x);
      }
    }
  }

  lemma ServedHasWaited(cfg: Config, states: seq<State>, acts: seq<Action>, c: G.ClientConfig, net: G.Network,
                        lease: G.LeaseHandle, postedAt: int, x: nat)
    requires c.Valid() && Served(cfg, states, acts, c, net, lease, postedAt, x) && Init(states[0])
    ensures cfg.Valid() && 0 < c.queueWait && 0 < c.startup
  {
    var id := lease.requestId;
    hide Next, Enabled, G.Admission, PollsAnswered, Init, Inv;
    RunLiveWait(cfg, states, acts, x - 1);
    StepAt(cfg, states, acts, x - 1);
    StepClimbs(cfg, states[x - 1], acts[x - 1], id);
  }

  /** Polls no rarer than round trips: all that counts is whether one of each fits into the grace. */
  lemma GraceIsOneRound(c: G.ClientConfig)
    requires c.Valid() && c.pollInterval <= c.roundTrip && c.pollInterval <= Latest(c)
    ensures ComesLate(c) <==> c.roundTrip + c.pollInterval > 5 * SECOND
  {
    var p, most := c.pollInterval, Looks(c);
    assert Latest(c) == most * p + Latest(c) % p;
    assert 1 <= most;
    MoreTenures(1, most, c.roundTrip);
    assert most * (p + c.roundTrip) == most * p + most * c.roundTrip;
  }

  /** The deployed client, with round trips of up to 10 s, may time out on a request that is served. */
  lemma DeployedComesLate()
    ensures !AcquiresWhatIsServed(DEPLOYED)
  {
    GraceIsOneRound(DEPLOYED);
    AcquisitionIsExact(DEPLOYED);
    hide AcquiresWhatIsServed;
  }
}
