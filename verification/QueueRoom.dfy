/**
 What stands in the queue, and for how long. Tombstones must outlive the queue
 entries that name them. There are two reasons why an entry cannot stay long:
 whatever is served before it must be granted within its own queue wait, and must
 have a place in the record table beside it.
 */
module QueueRoom {
  import opened Prelude
  import opened Leases
  import opened Protocol
  import opened Invariant
  import opened Runs

  function CreatedAt(t: Table, id: string): int
    requires id in t
  {
    t[id].createdAt
  }

  // ---- How much retention is enough ----

  /** How long after its grant an owner can still be met by a turn of the worker. */
  function LastTurn(cfg: Config): int {
    cfg.startup + cfg.active + MILLI - 1
  }

  /** The longest tenures of as many owners as have places in the table beside an entry and the present owner. */
  function TableTime(cfg: Config): int {
    (cfg.maxRecords - 2) * cfg.MaxHold()
  }

  /** The retention outlives the queue wait and the tenure that follows it. */
  predicate ByWait(cfg: Config) {
    cfg.retention >= cfg.maxQueueWait + cfg.MaxHold()
  }

  /** The table is so small that an entry cannot grow old enough, or cannot be admitted again in time. */
  predicate ByRoom(cfg: Config) {
    && cfg.retention > TableTime(cfg)
    && cfg.retention > Min(cfg.maxQueueWait - 1, TableTime(cfg)) + LastTurn(cfg)
    && (cfg.maxRecords == 2 ==> 2 * cfg.retention > cfg.MaxHold())
  }

  predicate Retains(cfg: Config) {
    ByWait(cfg) || ByRoom(cfg)
  }

  // ---- The queue as it normally is ----

  ghost predicate Recorded(s: State) {
    forall id | id in s.d.queue :: id in s.d.table
  }

  /** Entries stand in the order of admission, the owner before all of them and not among them. */
  ghost predicate Ordered(s: State)
    requires Recorded(s)
  {
    && (forall i, j | 0 <= i < j < |s.d.queue| ::
          CreatedAt(s.d.table, s.d.queue[i]) <= CreatedAt(s.d.table, s.d.queue[j]))
    && (s.d.current.Some? ==>
          && s.d.current.value in s.d.table && s.d.current.value !in s.d.queue
          && forall id | id in s.d.queue :: CreatedAt(s.d.table, s.d.current.value) <= CreatedAt(s.d.table, id))
  }

  /** No entry is so old that its record could be pruned. */
  ghost predicate Fresh(cfg: Config, s: State)
    requires Recorded(s)
  {
    forall id | id in s.d.queue :: s.now < CreatedAt(s.d.table, id) + cfg.retention
  }

  /** The requests admitted no later than `id` that have ended after `from`, the owner apart. */
  function Done(s: State, id: string, from: int): set<string>
    requires id in s.d.table
  {
    set x | x in s.d.table && x != id && s.d.current != Some(x)
            && CreatedAt(s.d.table, x) <= CreatedAt(s.d.table, id)
            && Terminal(s.d.table[x].state) && s.d.table[x].terminalAt.Some? && s.d.table[x].terminalAt.value > from
  }

  /** The latest time at which the present tenure can have begun, counting from `from`. */
  function Begun(cfg: Config, s: State, id: string, from: int): int
    requires id in s.d.table
  {
    from + |Done(s, id, from)| * cfg.MaxHold()
  }

  /** From `from` on `id` has waited for no more tenures than have ended since, and the present one. */
  ghost predicate WaitedFrom(cfg: Config, s: State, id: string, from: int)
    requires id in s.d.table
  {
    match s.d.current
    case None => s.now <= Begun(cfg, s, id, from)
    case Some(owner) => owner in s.d.table && OwnedSince(cfg, s, owner, Begun(cfg, s, id, from))
  }

  ghost predicate Counted(cfg: Config, s: State)
    requires Recorded(s)
  {
    && (s.d.current.Some? ==> s.d.current.value in s.d.table && OwnedSince(cfg, s, s.d.current.value, s.now))
    && (forall id, from | id in s.d.queue && CreatedAt(s.d.table, id) <= from <= s.now :: WaitedFrom(cfg, s, id, from))
  }

  ghost predicate Normal(cfg: Config, s: State) {
    Recorded(s) && Ordered(s) && if ByWait(cfg) then Fresh(cfg, s) else Counted(cfg, s)
  }

  // ---- The queue when a record was pruned under its entry ----

  /** The tombstone of `x` will not be stale before the GPU changes hands. */
  ghost predicate Safe(cfg: Config, s: State, x: string)
    requires x in s.d.table && s.d.table[x].terminalAt.Some?
  {
    var at := s.d.table[x].terminalAt.value;
    match s.d.current
    case None => s.now < at + cfg.retention
    case Some(owner) => owner in s.d.table && OwnedSince(cfg, s, owner, at + cfg.retention - cfg.MaxHold() - 1)
  }

  /** The table is full of the young: nothing can be pruned, so nothing can be
      admitted, until the GPU changes hands; and then the whole queue is popped,
      because nobody waits in it but perhaps the last. */
  ghost predicate Jammed(cfg: Config, s: State) {
    && |s.d.table| == cfg.maxRecords && s.d.queue != []
    && (s.d.current.Some? ==>
          && s.d.current.value in s.d.table && OwnedSince(cfg, s, s.d.current.value, s.now)
          && (cfg.retention <= cfg.MaxHold() ==> OwnedSince(cfg, s, s.d.current.value, s.now - cfg.retention)))
    && (forall x | x in s.d.table && s.d.table[x].state == Queued :: x == s.d.queue[|s.d.queue| - 1])
    && (forall x | x in s.d.table && s.d.current != Some(x) && s.d.table[x].terminalAt.Some? :: Safe(cfg, s, x))
  }

  ghost predicate Tidy(cfg: Config, s: State) {
    && Distinct(s.d.queue) && |s.d.table| <= cfg.maxRecords
    && (s.d.mode == Ready ==> Normal(cfg, s) || (!ByWait(cfg) && Jammed(cfg, s)))
  }

  // ---- Tenures ----

  lemma OwnedLater(cfg: Config, s: State, id: string, g: int, g': int)
    requires id in s.d.table && OwnedSince(cfg, s, id, g) && g <= g'
    ensures OwnedSince(cfg, s, id, g')
  {
  }

  lemma MoreTenures(n: int, m: int, hold: int)
    requires n <= m && 0 <= hold
    ensures n * hold <= m * hold
  {
    NotNegative(m - n, hold);
    assert m * hold == n * hold + (m - n) * hold;
  }

  /** A turn meets an owner before its last turn is over. */
  lemma TurnMeets(cfg: Config, s: State, owner: string, g: int)
    requires cfg.Valid() && Inv(cfg, s) && s.worker.Wait? && s.d.mode == Ready && s.d.current == Some(owner)
    requires owner in s.d.table && OwnedSince(cfg, s, owner, g)
    ensures s.now <= g + LastTurn(cfg)
  {
    OwnerIsActive(cfg, s, owner);
    WaitIsAhead(cfg, s);
    hide Inv;
  }

  // ---- Records that are young enough stay ----

  lemma YoungStays(cfg: Config, s: State, a: Action, x: string)
    requires cfg.Valid() && Inv(cfg, s) && Enabled(cfg, s, a)
    requires x in s.d.table && !Stale(cfg, s.d.table[x], s.now)
    ensures x in Next(cfg, s, a).d.table
  {
    match a
    case WorkerTurn =>
      assert x in Settle(cfg, s);
      if s.d.mode == Ready {
        if s.d.current.Some? {
          TurnOwnedIs(cfg, s, s.d.current.value);
        } else {
          var k := TurnIdleIs(cfg, s);
        }
      }
      hide Settle, NextWait;
    case _ => hide Turn;
  }

  /** Only calls about an unknown id and turns of the worker prune. */
  lemma OthersPruneNothing(cfg: Config, s: State, a: Action)
    requires Enabled(cfg, s, a) && !a.WorkerTurn? && !a.SubmitCall? && !a.StopCall?
    ensures s.d.table.Keys <= Next(cfg, s, a).d.table.Keys
  {
    hide Turn, Submit, RequestStop;
  }

  // ---- Where the entries come from ----

  /** A step drops entries from the front, in a turn on a free GPU, and appends an admission. */
  ghost predicate Shaped(cfg: Config, s: State, a: Action, s': State, k: nat) {
    && k <= |s.d.queue| && s'.d.queue == s.d.queue[k..] + (if Admits(cfg, s, a) then [a.id] else [])
    && (k > 0 ==> a == WorkerTurn && s.d.current == None)
    && (s'.d.current == s.d.current || s'.d.current == None
        || (a == WorkerTurn && s.d.current == None && k > 0 && s'.d.current == Some(s.d.queue[k - 1])))
  }

  lemma QueueShape(cfg: Config, s: State, a: Action) returns (k: nat)
    requires cfg.Valid() && Inv(cfg, s) && Enabled(cfg, s, a) && s.d.mode == Ready
    ensures Shaped(cfg, s, a, Next(cfg, s, a), k)
  {
    if a.WorkerTurn? {
      hide Next, Inv, Shaped;
      k := TurnShape(cfg, s);
    } else {
      k := 0;
      OtherShape(cfg, s, a);
      hide Next, Inv, Admits;
      assert s.d.queue[0..] == s.d.queue;
    }
  }

  lemma OtherShape(cfg: Config, s: State, a: Action)
    requires Enabled(cfg, s, a) && !a.WorkerTurn?
    ensures var s' := Next(cfg, s, a);
      && s'.d.queue == s.d.queue + (if Admits(cfg, s, a) then [a.id] else [])
      && (s'.d.current == s.d.current || s'.d.current == None)
  {
    if a.SubmitCall? {
      hide Prune;
    } else {
      hide Turn, Submit, Prune;
      assert !Admits(cfg, s, a);
    }
  }

  lemma TurnShape(cfg: Config, s: State) returns (k: nat)
    requires cfg.Valid() && Inv(cfg, s) && s.worker.Wait? && s.d.mode == Ready
    ensures Shaped(cfg, s, WorkerTurn, Next(cfg, s, WorkerTurn), k)
  {
    if s.d.current.Some? {
      TurnOwnedIs(cfg, s, s.d.current.value);
      k := 0;
    } else {
      var j := TurnIdleIs(cfg, s);
      k := if j < 0 then |s.d.queue| else j + 1;
    }
    hide Next, Settle, Inv, NextWait;
    assert s.d.queue[0..] == s.d.queue;
  }

  /** An admission: the id was unknown, and its record is new. */
  lemma AdmissionIs(cfg: Config, s: State, a: Action)
    requires Enabled(cfg, s, a) && Admits(cfg, s, a)
    ensures var s' := Next(cfg, s, a);
      && a.id !in s.d.table && s'.now == s.now && s'.d.current == s.d.current
      && a.id in s'.d.table && CreatedAt(s'.d.table, a.id) == s.now
  {
    hide Prune;
  }

  lemma CreatedByNow(cfg: Config, s: State, id: string)
    requires Inv(cfg, s) && id in s.d.table
    ensures CreatedAt(s.d.table, id) <= s.now
  {
    assert LeaseOk(cfg, s.now, s.d.table[id]);
  }

  lemma RecordStays(cfg: Config, s: State, a: Action, id: string)
    requires cfg.Valid() && Inv(cfg, s) && Enabled(cfg, s, a)
    requires id in s.d.table && id in Next(cfg, s, a).d.table
    ensures CreatedAt(Next(cfg, s, a).d.table, id) == CreatedAt(s.d.table, id) <= s.now
  {
    hide Next, Enabled;
    StepClimbs(cfg, s, a, id);
    CreatedByNow(cfg, s, id);
  }

  /** The owner after a step was on file before it. */
  lemma OwnerWasFiled(cfg: Config, s: State, a: Action, owner: string)
    requires cfg.Valid() && Inv(cfg, s) && Enabled(cfg, s, a) && Next(cfg, s, a).d.current == Some(owner)
    ensures owner in s.d.table && owner in Next(cfg, s, a).d.table
  {
    hide Next, Enabled;
    StepInv(cfg, s, a);
    OwnerIsFiled(cfg, Next(cfg, s, a), owner);
    if s.d.current == Some(owner) {
      OwnerIsFiled(cfg, s, owner);
    } else {
      GrantIs(cfg, s, a, owner);
    }
  }

  /** If the entries that stay in the queue keep their records, the queue stays in order. */
  lemma OrderStays(cfg: Config, s: State, a: Action)
    requires cfg.Valid() && Inv(cfg, s) && Enabled(cfg, s, a) && s.d.mode == Ready
    requires Distinct(s.d.queue) && Recorded(s) && Ordered(s)
    requires forall id | id in s.d.queue && id in Next(cfg, s, a).d.queue :: id in Next(cfg, s, a).d.table
    ensures var s' := Next(cfg, s, a); Distinct(s'.d.queue) && Recorded(s') && Ordered(s')
  {
    hide Next, Enabled, Inv, Admits;
    var s' := Next(cfg, s, a);
    var k := QueueShape(cfg, s, a);
    var rest := s.d.queue[k..];
    assert forall i | 0 <= i < |rest| :: rest[i] == s.d.queue[k + i];
    if Admits(cfg, s, a) {
      AdmissionIs(cfg, s, a);
    }
    forall id | id in rest
      ensures id in s.d.queue && id in s'.d.table && CreatedAt(s'.d.table, id) == CreatedAt(s.d.table, id) <= s.now
    {
      assert id in s'.d.queue;
      RecordStays(cfg, s, a, id);
    }
    QueueInOrder(s, s', k, rest);
    if s'.d.current.Some? {
      OwnerWasFiled(cfg, s, a, s'.d.current.value);
      RecordStays(cfg, s, a, s'.d.current.value);
      OwnerInOrder(s, s', k, rest);
    }
  }

  /** The rest of a queue in order, with a new entry at its end. */
  ghost predicate RestOf(s: State, s': State, k: nat, rest: seq<string>)
    requires Recorded(s)
  {
    && k <= |s.d.queue| && rest == s.d.queue[k..]
    && (forall id | id in rest :: id in s'.d.table && id in s.d.table
          && CreatedAt(s'.d.table, id) == CreatedAt(s.d.table, id) <= s.now)
    && (s'.d.queue == rest
        || (|s'.d.queue| == |rest| + 1 && s'.d.queue[..|rest|] == rest
            && var id := s'.d.queue[|rest|];
               id !in s.d.table && id in s'.d.table && CreatedAt(s'.d.table, id) == s.now))
  }

  lemma QueueInOrder(s: State, s': State, k: nat, rest: seq<string>)
    requires Distinct(s.d.queue) && Recorded(s) && Ordered(s) && RestOf(s, s', k, rest)
    ensures Distinct(s'.d.queue) && Recorded(s')
    ensures forall i, j | 0 <= i < j < |s'.d.queue| ::
      CreatedAt(s'.d.table, s'.d.queue[i]) <= CreatedAt(s'.d.table, s'.d.queue[j])
  {
    var q := s'.d.queue;
    forall i | 0 <= i < |q| ensures q[i] in s'.d.table {
      EntryOfRest(s, s', k, rest, i);
    }
    forall i, j | 0 <= i < j < |q|
      ensures q[i] != q[j] && CreatedAt(s'.d.table, q[i]) <= CreatedAt(s'.d.table, q[j])
    {
      EntryOfRest(s, s', k, rest, i);
      EntryOfRest(s, s', k, rest, j);
      hide RestOf;
    }
  }

  /** Where an entry comes from. */
  lemma EntryOfRest(s: State, s': State, k: nat, rest: seq<string>, i: nat)
    requires Recorded(s) && RestOf(s, s', k, rest) && i < |s'.d.queue|
    ensures var x := s'.d.queue[i];
      && x in s'.d.table && CreatedAt(s'.d.table, x) <= s.now && |s'.d.queue| <= |rest| + 1
      && (if i < |rest| then
            k + i < |s.d.queue| && x == s.d.queue[k + i] && x in s.d.table
            && CreatedAt(s'.d.table, x) == CreatedAt(s.d.table, x)
          else x !in s.d.table && CreatedAt(s'.d.table, x) == s.now)
  {
    if i < |rest| {
      assert s'.d.queue[i] == s'.d.queue[..|rest|][i] == rest[i];
    }
  }

  lemma OwnerInOrder(s: State, s': State, k: nat, rest: seq<string>)
    requires Distinct(s.d.queue) && Recorded(s) && Recorded(s') && Ordered(s) && RestOf(s, s', k, rest)
    requires s'.d.current.Some? && s'.d.current.value in s.d.table && s'.d.current.value in s'.d.table
    requires CreatedAt(s'.d.table, s'.d.current.value) == CreatedAt(s.d.table, s'.d.current.value) <= s.now
    requires s'.d.current == s.d.current || (k > 0 && s'.d.current == Some(s.d.queue[k - 1]))
    ensures var owner := s'.d.current.value;
      owner !in s'.d.queue && forall id | id in s'.d.queue :: CreatedAt(s'.d.table, owner) <= CreatedAt(s'.d.table, id)
  {
    var owner := s'.d.current.value;
    assert s'.d.queue == rest || s'.d.queue == rest + [s'.d.queue[|rest|]];
    forall i | 0 <= i < |rest|
      ensures rest[i] == s.d.queue[k + i] && rest[i] in s.d.queue && rest[i] != owner
      ensures CreatedAt(s.d.table, owner) <= CreatedAt(s.d.table, rest[i])
    {
    }
  }

  // ---- Small tables: the places beside an entry are few ----

  /** What has ended, the entry, the owner and one more record all have their places in the table. */
  lemma DoneFits(s: State, id: string, from: int, more: set<string>)
    requires id in s.d.table && (s.d.current.Some? ==> s.d.current.value in s.d.table && s.d.current.value != id)
    requires more <= s.d.table.Keys && more !! Done(s, id, from) && id !in more
    requires s.d.current.Some? ==> s.d.current.value !in more
    ensures |Done(s, id, from)| + |more| + (if s.d.current.Some? then 2 else 1) <= |s.d.table|
  {
    var held := {id} + if s.d.current.Some? then {s.d.current.value} else {};
    var done := Done(s, id, from);
    assert done !! held;
    hide Done;
    assert |done + more| == |done| + |more|;
    assert |done + more + held| == |done| + |more| + |held|;
    SubsetSize(done + more + held, s.d.table.Keys);
    assert |s.d.table| == |s.d.table.Keys|;
  }

  /** The time since `from`, if `spare` places of the table are not taken by what has ended since. */
  lemma TimeSince(cfg: Config, s: State, id: string, from: int, spare: int)
    requires cfg.Valid() && Inv(cfg, s) && s.d.mode == Ready && id in s.d.table && WaitedFrom(cfg, s, id, from)
    requires |Done(s, id, from)| + spare <= cfg.maxRecords
    ensures s.now <= from + (cfg.maxRecords - spare + if s.d.current.Some? then 1 else 0) * cfg.MaxHold()
  {
    var n := |Done(s, id, from)|;
    if s.d.current.Some? {
      OwnedSinceBounds(cfg, s, s.d.current.value, Begun(cfg, s, id, from));
    }
    hide Done, Inv, OwnedSince;
    MoreTenures(n, cfg.maxRecords - spare, cfg.MaxHold());
    OneLess(cfg.maxRecords - spare + 1, cfg.MaxHold());
  }

  ghost predicate SmallTable(cfg: Config, s: State) {
    && cfg.Valid() && !ByWait(cfg) && ByRoom(cfg) && Inv(cfg, s)
    && s.d.mode == Ready && Distinct(s.d.queue) && |s.d.table| <= cfg.maxRecords
  }

  /** What ended since the admission of a recorded entry is not stale. */
  lemma DoneIsYoung(cfg: Config, s: State, id: string, x: string)
    requires SmallTable(cfg, s) && Normal(cfg, s) && id in s.d.queue && x in Done(s, id, CreatedAt(s.d.table, id))
    ensures !Stale(cfg, s.d.table[x], s.now)
  {
    DoneHasEnded(s, id, x);
    var from := s.d.table[x].terminalAt.value;
    hide Inv, Done, Recorded, Ordered, Counted, WaitedFrom;
    WaitedSince(cfg, s, id, x);
    TimeSince(cfg, s, id, from, if s.d.current.Some? then 3 else 2);
  }

  /** What has ended takes a place in the table besides those that ended after it. */
  lemma WaitedSince(cfg: Config, s: State, id: string, x: string)
    requires SmallTable(cfg, s) && Normal(cfg, s) && id in s.d.queue && x in Done(s, id, CreatedAt(s.d.table, id))
    ensures s.d.table[x].terminalAt.Some?
    ensures var from := s.d.table[x].terminalAt.value;
      && WaitedFrom(cfg, s, id, from)
      && |Done(s, id, from)| + (if s.d.current.Some? then 3 else 2) <= |s.d.table| <= cfg.maxRecords
  {
    var from := s.d.table[x].terminalAt.value;
    assert LeaseOk(cfg, s.now, s.d.table[x]);
    hide Inv, WaitedFrom;
    DoneFits(s, id, from, {x});
  }

  lemma DoneGrows(cfg: Config, s: State, a: Action, id: string, from: int)
    requires SmallTable(cfg, s) && Normal(cfg, s) && Enabled(cfg, s, a) && id in s.d.queue
    requires id in Next(cfg, s, a).d.table && CreatedAt(s.d.table, id) <= from
    ensures Done(s, id, from) <= Done(Next(cfg, s, a), id, from)
    ensures Begun(cfg, s, id, from) <= Begun(cfg, Next(cfg, s, a), id, from)
  {
    RecordStays(cfg, s, a, id);
    var s' := Next(cfg, s, a);
    hide Next, Enabled, Inv;
    forall x | x in Done(s, id, from) ensures x in Done(s', id, from) {
      DoneIsYoung(cfg, s, id, x);
      YoungStays(cfg, s, a, x);
      StepClimbs(cfg, s, a, x);
      if s'.d.current == Some(x) {
        GrantIs(cfg, s, a, x);
      }
    }
    hide Done;
    SubsetSize(Done(s, id, from), Done(s', id, from));
    MoreTenures(|Done(s, id, from)|, |Done(s', id, from)|, cfg.MaxHold());
  }

  // ---- A turn of the worker prunes no entry that stays ----

  lemma EntryYoungBy(cfg: Config, s: State, id: string)
    requires Inv(cfg, s) && id in s.d.table && s.now < CreatedAt(s.d.table, id) + cfg.retention
    ensures !Stale(cfg, s.d.table[id], s.now)
  {
    assert LeaseOk(cfg, s.now, s.d.table[id]);
  }

  lemma OwnedTurnKeeps(cfg: Config, s: State, id: string, owner: string)
    requires SmallTable(cfg, s) && Normal(cfg, s) && s.worker.Wait? && id in s.d.queue && s.d.current == Some(owner)
    ensures s.now < CreatedAt(s.d.table, id) + cfg.retention
  {
    var created := CreatedAt(s.d.table, id);
    CreatedByNow(cfg, s, id);
    assert WaitedFrom(cfg, s, id, created);
    DoneFits(s, id, created, {});
    TurnMeets(cfg, s, owner, Begun(cfg, s, id, created));
    OwnersWait(cfg, s, owner);
    TurnMeets(cfg, s, owner, s.d.table[owner].queueDeadline - 1);
    var n := |Done(s, id, created)|;
    hide Inv, Done, OwnedSince;
    MoreTenures(n, cfg.maxRecords - 2, cfg.MaxHold());
  }

  lemma OwnersWait(cfg: Config, s: State, owner: string)
    requires cfg.Valid() && Inv(cfg, s) && s.d.mode == Ready && s.d.current == Some(owner) && owner in s.d.table
    ensures OwnedSince(cfg, s, owner, s.d.table[owner].queueDeadline - 1)
    ensures s.d.table[owner].queueDeadline <= CreatedAt(s.d.table, owner) + cfg.maxQueueWait
  {
    assert LeaseOk(cfg, s.now, s.d.table[owner]);
  }

  /** Whoever still waits ahead of an entry makes it young. */
  lemma LiveAheadKeeps(cfg: Config, s: State, id: string, live: string)
    requires SmallTable(cfg, s) && Normal(cfg, s) && s.d.current == None && id in s.d.queue
    requires live in s.d.table && live != id && s.d.table[live].state == Queued && s.now < s.d.table[live].queueDeadline
    requires CreatedAt(s.d.table, live) <= CreatedAt(s.d.table, id)
    ensures s.now < CreatedAt(s.d.table, id) + cfg.retention
  {
    var created := CreatedAt(s.d.table, id);
    CreatedByNow(cfg, s, id);
    assert LeaseOk(cfg, s.now, s.d.table[live]);
    assert WaitedFrom(cfg, s, id, created);
    DoneFits(s, id, created, {live});
    TimeSince(cfg, s, id, created, 2);
    hide Inv, Done;
  }

  lemma TurnKeepsEntries(cfg: Config, s: State, id: string)
    requires SmallTable(cfg, s) && Normal(cfg, s) && s.worker.Wait?
    requires id in s.d.queue && id in Next(cfg, s, WorkerTurn).d.queue
    ensures id in Next(cfg, s, WorkerTurn).d.table
  {
    if s.d.current.Some? {
      OwnedTurnKeeps(cfg, s, id, s.d.current.value);
    } else {
      var live := FirstLiveAhead(cfg, s, id);
      LiveAheadKeeps(cfg, s, id, live);
    }
    hide Next;
    EntryYoungBy(cfg, s, id);
    YoungStays(cfg, s, WorkerTurn, id);
  }

  lemma FirstLiveAhead(cfg: Config, s: State, id: string) returns (live: string)
    requires cfg.Valid() && Inv(cfg, s) && s.worker.Wait? && s.d.mode == Ready && s.d.current == None
    requires Distinct(s.d.queue) && Recorded(s) && Ordered(s)
    requires id in s.d.queue && id in Next(cfg, s, WorkerTurn).d.queue
    ensures live in s.d.table && live != id && s.d.table[live].state == Queued && s.now < s.d.table[live].queueDeadline
    ensures CreatedAt(s.d.table, live) <= CreatedAt(s.d.table, id)
  {
    SettleAges(cfg, s);
    var j := TurnIdleIs(cfg, s);
    hide Inv, Settle, NextWait;
    live := s.d.queue[j];
    var rest := s.d.queue[j + 1..];
    assert id in rest;
    var i :| 0 <= i < |rest| && rest[i] == id;
    assert s.d.queue[j + 1 + i] == id;
  }

  // ---- The count goes on ----

  lemma NoTimeWhileFree(cfg: Config, s: State, a: Action)
    requires cfg.Valid() && Inv(cfg, s) && Enabled(cfg, s, a) && s.d.mode == Ready
    requires s.d.current == None && s.d.queue != []
    ensures Next(cfg, s, a).now == s.now
  {
    if !a.Tick? {
      NoTimePasses(cfg, s, a);
    }
  }

  lemma TimeGoesOn(cfg: Config, s: State, a: Action)
    requires Enabled(cfg, s, a)
    ensures s.now <= Next(cfg, s, a).now
  {
    if !a.Tick? {
      NoTimePasses(cfg, s, a);
    }
    hide Turn, Submit, RequestStop, FinishStart, FinishStop;
  }

  /** The GPU is given up only by the end of an engine operation, and the owner is then done. */
  lemma OwnerEnds(cfg: Config, s: State, a: Action, owner: string)
    requires cfg.Valid() && Inv(cfg, s) && Enabled(cfg, s, a) && s.d.mode == Ready && s.d.current == Some(owner)
    requires Next(cfg, s, a).d.current != Some(owner)
    ensures var s' := Next(cfg, s, a);
      && s'.d.current == None && s'.now == s.now && s'.d.queue == s.d.queue
      && s'.d.table.Keys == s.d.table.Keys && (forall x | x in s.d.table && x != owner :: s'.d.table[x] == s.d.table[x])
      && owner in s'.d.table && Terminal(s'.d.table[owner].state) && s'.d.table[owner].terminalAt == Some(s.now)
  {
    match a
    case WorkerTurn => TurnOwnedIs(cfg, s, owner);
    case _ => hide Turn, Submit, RequestStop;
  }

  lemma LastTenureCounts(cfg: Config, s: State, s': State, id: string, owner: string, from: int)
    requires cfg.Valid() && id in s.d.table && id in s'.d.table && Done(s, id, from) <= Done(s', id, from)
    requires owner in s'.d.table && CreatedAt(s'.d.table, owner) <= CreatedAt(s'.d.table, id) && from < s.now == s'.now
    requires s.d.current == Some(owner) && owner != id && s'.d.current == None
    requires Terminal(s'.d.table[owner].state) && s'.d.table[owner].terminalAt == Some(s.now)
    requires s.now <= Begun(cfg, s, id, from) + cfg.MaxHold()
    ensures s'.now <= Begun(cfg, s', id, from)
  {
    SubsetSize(Done(s, id, from) + {owner}, Done(s', id, from));
    assert |Done(s, id, from) + {owner}| == |Done(s, id, from)| + 1;
    var n, m := |Done(s, id, from)|, |Done(s', id, from)|;
    hide Done;
    MoreTenures(n + 1, m, cfg.MaxHold());
    OneLess(n + 1, cfg.MaxHold());
  }

  lemma FromNow(cfg: Config, s: State, id: string, from: int)
    requires cfg.Valid() && id in s.d.table
    requires match s.d.current
      case None => s.now <= from
      case Some(owner) => owner in s.d.table && OwnedSince(cfg, s, owner, from)
    ensures WaitedFrom(cfg, s, id, from)
  {
    NotNegative(|Done(s, id, from)|, cfg.MaxHold());
    hide Done;
    if s.d.current.Some? {
      OwnedLater(cfg, s, s.d.current.value, from, Begun(cfg, s, id, from));
    }
  }

  lemma EntryWaits(cfg: Config, s: State, a: Action, id: string, from: int)
    requires SmallTable(cfg, s) && Normal(cfg, s) && Enabled(cfg, s, a) && id in s.d.queue
    requires id in Next(cfg, s, a).d.queue && id in Next(cfg, s, a).d.table && Next(cfg, s, a).d.mode == Ready
    requires CreatedAt(s.d.table, id) <= from <= s.now
    ensures WaitedFrom(cfg, Next(cfg, s, a), id, from)
  {
    DoneGrows(cfg, s, a, id, from);
    assert WaitedFrom(cfg, s, id, from);
    var s' := Next(cfg, s, a);
    var began := Begun(cfg, s, id, from);
    match s.d.current {
      case Some(owner) =>
        if s'.d.current == Some(owner) {
          TenureStep(cfg, s, a, owner, began);
          hide Next, Enabled, Inv, Begun, OwnedSince;
          OwnedLater(cfg, s', owner, began, Begun(cfg, s', id, from));
        } else {
          OwnerEnds(cfg, s, a, owner);
          if from == s.now {
            FromNow(cfg, s', id, from);
          } else {
            OwnedSinceBounds(cfg, s, owner, began);
            RecordStays(cfg, s, a, id);
            RecordStays(cfg, s, a, owner);
            hide Next, Enabled, Inv, OwnedSince;
            LastTenureCounts(cfg, s, s', id, owner, from);
          }
        }
      case None =>
        if s'.d.current.Some? {
          GrantedNow(cfg, s, a, s'.d.current.value);
          hide Next, Enabled, Inv, Begun, OwnedSince;
          OwnedLater(cfg, s', s'.d.current.value, s.now, Begun(cfg, s', id, from));
        } else {
          NoTimeWhileFree(cfg, s, a);
        }
    }
  }

  /** The owner was granted by now. */
  lemma GrantedByNow(cfg: Config, s: State, a: Action)
    requires cfg.Valid() && Inv(cfg, s) && Enabled(cfg, s, a)
    requires s.d.current.Some? ==> s.d.current.value in s.d.table && OwnedSince(cfg, s, s.d.current.value, s.now)
    requires s.d.mode == Ready && Next(cfg, s, a).d.mode == Ready && Next(cfg, s, a).d.current.Some?
    ensures var s' := Next(cfg, s, a);
      s'.d.current.value in s'.d.table && OwnedSince(cfg, s', s'.d.current.value, s.now)
  {
    var owner := Next(cfg, s, a).d.current.value;
    hide Next, Enabled, Inv, OwnedSince;
    if s.d.current == Some(owner) {
      TenureStep(cfg, s, a, owner, s.now);
    } else {
      GrantedNow(cfg, s, a, owner);
    }
  }

  lemma StaysCounted(cfg: Config, s: State, a: Action)
    requires SmallTable(cfg, s) && Normal(cfg, s) && Enabled(cfg, s, a) && Next(cfg, s, a).d.mode == Ready
    requires forall id | id in s.d.queue && id in Next(cfg, s, a).d.queue :: id in Next(cfg, s, a).d.table
    requires Recorded(Next(cfg, s, a))
    ensures Counted(cfg, Next(cfg, s, a))
  {
    var s' := Next(cfg, s, a);
    TimeGoesOn(cfg, s, a);
    if s'.d.current.Some? {
      GrantedByNow(cfg, s, a);
      OwnedLater(cfg, s', s'.d.current.value, s.now, s'.now);
    }
    hide Next, Enabled, Inv, OwnedSince, WaitedFrom;
    forall id, from | id in s'.d.queue && CreatedAt(s'.d.table, id) <= from <= s'.now
      ensures WaitedFrom(cfg, s', id, from)
    {
      OneEntryCounted(cfg, s, a, id, from);
    }
  }

  lemma OneEntryCounted(cfg: Config, s: State, a: Action, id: string, from: int)
    requires SmallTable(cfg, s) && Normal(cfg, s) && Enabled(cfg, s, a) && Next(cfg, s, a).d.mode == Ready
    requires id in Next(cfg, s, a).d.queue && id in Next(cfg, s, a).d.table
    requires CreatedAt(Next(cfg, s, a).d.table, id) <= from <= Next(cfg, s, a).now
    ensures WaitedFrom(cfg, Next(cfg, s, a), id, from)
  {
    hide Next, Enabled, Inv, OwnedSince, WaitedFrom, Admits;
    var s' := Next(cfg, s, a);
    var k := QueueShape(cfg, s, a);
    if id in s.d.queue && from <= s.now {
      RecordStays(cfg, s, a, id);
      EntryWaits(cfg, s, a, id, from);
    } else {
      if id !in s.d.queue {
        AdmissionIs(cfg, s, a);
      } else if s.d.current == None {
        NoTimeWhileFree(cfg, s, a);
      }
      assert s.now <= from;
      if s'.d.current.Some? {
        GrantedByNow(cfg, s, a);
        OwnedLater(cfg, s', s'.d.current.value, s.now, from);
      } else if s.d.current.Some? {
        OwnerEnds(cfg, s, a, s.d.current.value);
      }
      FromNow(cfg, s', id, from);
    }
  }

  // ---- A call prunes a record under its entry ----

  lemma SubsetIsAll<T>(a: set<T>, b: set<T>)
    requires a <= b && |a| >= |b|
    ensures a == b
  {
    SubsetSize(b - a, b);
    assert |b| == |a| + |b - a| by {
      assert b == a + (b - a);
    }
  }

  lemma EntryWaited(cfg: Config, s: State, id: string)
    requires SmallTable(cfg, s) && Normal(cfg, s) && id in s.d.queue
    ensures WaitedFrom(cfg, s, id, CreatedAt(s.d.table, id))
  {
    CreatedByNow(cfg, s, id);
    hide Inv, WaitedFrom;
  }

  lemma StaleCount(cfg: Config, s: State, id: string)
    requires SmallTable(cfg, s) && Normal(cfg, s) && id in s.d.queue && Stale(cfg, s.d.table[id], s.now)
    ensures |s.d.table| == cfg.maxRecords
    ensures |Done(s, id, CreatedAt(s.d.table, id))| == cfg.maxRecords - if s.d.current.Some? then 2 else 1
  {
    var created := CreatedAt(s.d.table, id);
    assert LeaseOk(cfg, s.now, s.d.table[id]);
    EntryWaited(cfg, s, id);
    hide Inv, Done, OwnedSince, WaitedFrom, Counted;
    DoneFits(s, id, created, {});
    var spare := if s.d.current.Some? then 3 else 2;
    if |Done(s, id, created)| + spare <= cfg.maxRecords {
      TimeSince(cfg, s, id, created, spare);
    }
  }

  lemma DoneApart(s: State, id: string, from: int)
    requires id in s.d.table
    ensures id !in Done(s, id, from) && Done(s, id, from) <= s.d.table.Keys
    ensures s.d.current.Some? ==> s.d.current.value !in Done(s, id, from)
  {
  }

  /** A stale entry means a full table: the entry, the owner, and what has ended since. */
  lemma StaleMeansFull(cfg: Config, s: State, id: string)
    requires SmallTable(cfg, s) && Normal(cfg, s) && id in s.d.queue && Stale(cfg, s.d.table[id], s.now)
    ensures |s.d.table| == cfg.maxRecords
    ensures forall x | x in s.d.table && x != id && s.d.current != Some(x) :: x in Done(s, id, CreatedAt(s.d.table, id))
  {
    hide Inv, Done, Counted, ByRoom, ByWait;
    StaleCount(cfg, s, id);
    var done := Done(s, id, CreatedAt(s.d.table, id));
    DoneApart(s, id, CreatedAt(s.d.table, id));
    var held := {id} + if s.d.current.Some? then {s.d.current.value} else {};
    assert |done + held| == |done| + |held|;
    assert |s.d.table| == |s.d.table.Keys|;
    SubsetIsAll(done + held, s.d.table.Keys);
  }

  /** A call that prunes is about an unknown id, which takes the place of what is pruned. */
  lemma PruningCall(cfg: Config, s: State, a: Action, id: string)
    requires Enabled(cfg, s, a) && (a.SubmitCall? || a.StopCall?)
    requires id in s.d.table && id !in Next(cfg, s, a).d.table
    ensures Stale(cfg, s.d.table[id], s.now) && s.d.current != Some(id)
    ensures var s' := Next(cfg, s, a);
      var kept := Prune(cfg, s.d.table, s.d.current, s.now);
      && a.id !in s.d.table && s'.now == s.now && s'.d.current == s.d.current && s'.d.mode == s.d.mode
      && (forall x | x in kept :: x in s'.d.table && s'.d.table[x] == s.d.table[x])
      && (|kept| < cfg.maxRecords ==>
            && a.id in s'.d.table && s'.d.table.Keys == kept.Keys + {a.id}
            && (if a.SubmitCall? then s'.d.table[a.id].state == Queued && s'.d.queue == s.d.queue + [a.id]
                else s'.d.table[a.id].terminalAt == Some(s.now) && s'.d.queue == s.d.queue))
  {
  }

  /** Safety of what had ended before: its own clock leaves one place free. */
  lemma DoneIsSafe(cfg: Config, s: State, id: string, x: string)
    requires SmallTable(cfg, s) && Normal(cfg, s) && id in s.d.queue && x in Done(s, id, CreatedAt(s.d.table, id))
    ensures Safe(cfg, s, x)
  {
    DoneIsYoung(cfg, s, id, x);
    DoneHasEnded(s, id, x);
    var from := s.d.table[x].terminalAt.value;
    hide Recorded, Ordered, Counted;
    if s.d.current.Some? {
      WaitedSince(cfg, s, id, x);
      var n := |Done(s, id, from)|;
      hide Inv, Done, OwnedSince;
      MoreTenures(n, cfg.maxRecords - 3, cfg.MaxHold());
      OneLess(cfg.maxRecords - 2, cfg.MaxHold());
      OwnedLater(cfg, s, s.d.current.value, Begun(cfg, s, id, from), from + cfg.retention - cfg.MaxHold() - 1);
    }
  }

  /** Only a table of two can have a retention that does not cover a tenure. */
  lemma ShortRetention(cfg: Config)
    requires cfg.Valid() && ByRoom(cfg) && cfg.retention <= cfg.MaxHold()
    ensures cfg.maxRecords <= 2
  {
    if cfg.maxRecords >= 3 {
      MoreTenures(1, cfg.maxRecords - 2, cfg.MaxHold());
    }
  }

  /** The owner of a table of two with a stale entry has had the GPU since the admission of the entry. */
  lemma LateOwner(cfg: Config, s: State, id: string, owner: string)
    requires SmallTable(cfg, s) && Normal(cfg, s) && id in s.d.queue && Stale(cfg, s.d.table[id], s.now)
    requires s.d.current == Some(owner) && owner in s.d.table && cfg.retention <= cfg.MaxHold()
    ensures OwnedSince(cfg, s, owner, s.now - cfg.retention) && cfg.maxRecords == 2
  {
    var created := CreatedAt(s.d.table, id);
    hide Inv, Done, OwnedSince, Counted, Ordered, Fresh, Stale, ByRoom, ByWait, Config.Valid;
    EndedAfterAdmission(cfg, s, id);
    EntryWaited(cfg, s, id);
    ShortRetention(cfg);
    StaleCount(cfg, s, id);
    assert Begun(cfg, s, id, created) == created;
    OwnedLater(cfg, s, owner, created, s.now - cfg.retention);
  }

  lemma EndedAfterAdmission(cfg: Config, s: State, id: string)
    requires Inv(cfg, s) && id in s.d.table && Stale(cfg, s.d.table[id], s.now)
    ensures CreatedAt(s.d.table, id) <= s.now - cfg.retention
  {
    assert LeaseOk(cfg, s.now, s.d.table[id]);
  }

  /** A record that ends now is safe. */
  lemma EndingNowIsSafe(cfg: Config, s: State, x: string)
    requires cfg.Valid() && ByRoom(cfg) && x in s.d.table && s.d.table[x].terminalAt == Some(s.now)
    requires s.d.current.Some? ==>
      && s.d.current.value in s.d.table && OwnedSince(cfg, s, s.d.current.value, s.now)
      && (cfg.retention <= cfg.MaxHold() ==>
            OwnedSince(cfg, s, s.d.current.value, s.now - cfg.retention) && cfg.maxRecords == 2)
    ensures Safe(cfg, s, x)
  {
    if s.d.current.Some? {
      var g := s.now + cfg.retention - cfg.MaxHold() - 1;
      hide OwnedSince;
      OwnedLater(cfg, s, s.d.current.value, if cfg.retention <= cfg.MaxHold() then s.now - cfg.retention else s.now, g);
    }
  }

  lemma SafeStays(cfg: Config, s: State, a: Action, x: string)
    requires cfg.Valid() && Inv(cfg, s) && Enabled(cfg, s, a) && s.d.mode == Ready && Next(cfg, s, a).d.mode == Ready
    requires s.d.queue != [] && x in s.d.table && s.d.table[x].terminalAt.Some? && s.d.current != Some(x)
    requires Safe(cfg, s, x) && x in Next(cfg, s, a).d.table && Next(cfg, s, a).d.table[x] == s.d.table[x]
    requires Next(cfg, s, a).d.current == s.d.current || Next(cfg, s, a).d.current == None
    ensures Safe(cfg, Next(cfg, s, a), x)
  {
    var s' := Next(cfg, s, a);
    var g := s.d.table[x].terminalAt.value + cfg.retention - cfg.MaxHold() - 1;
    if s.d.current == None {
      NoTimeWhileFree(cfg, s, a);
    } else if s'.d.current.Some? {
      TenureStep(cfg, s, a, s.d.current.value, g);
    } else {
      OwnerEnds(cfg, s, a, s.d.current.value);
      OwnedSinceBounds(cfg, s, s.d.current.value, g);
    }
    hide Next, Enabled, Inv, OwnedSince;
  }

  /** The call has pruned the record of a queue entry. */
  ghost predicate Uncovers(cfg: Config, s: State, a: Action, id: string)
    requires Enabled(cfg, s, a)
  {
    && SmallTable(cfg, s) && Normal(cfg, s) && (a.SubmitCall? || a.StopCall?)
    && id in s.d.queue && id !in Next(cfg, s, a).d.table
  }

  lemma OwnerOfJam(cfg: Config, s: State, a: Action, id: string)
    requires Enabled(cfg, s, a) && Uncovers(cfg, s, a, id) && s.d.current.Some?
    ensures var s' := Next(cfg, s, a); var owner := s'.d.current.value;
      && s'.d.current == s.d.current && owner in s'.d.table && OwnedSince(cfg, s', owner, s'.now)
      && (cfg.retention <= cfg.MaxHold() ==> OwnedSince(cfg, s', owner, s'.now - cfg.retention) && cfg.maxRecords == 2)
  {
    hide Next, Enabled, Prune, WaitedFrom, Ordered, Inv, OwnedSince, Stale;
    CallSwaps(cfg, s, a, id);
    var owner := s.d.current.value;
    OwnerIsFiled(cfg, s, owner);
    GrantedByNow(cfg, s, a);
    if cfg.retention <= cfg.MaxHold() {
      LateOwner(cfg, s, id, owner);
      TenureStep(cfg, s, a, owner, s.now - cfg.retention);
    }
  }

  lemma KeptIsAllBut(cfg: Config, s: State, id: string)
    requires SmallTable(cfg, s) && Normal(cfg, s) && id in s.d.queue && Stale(cfg, s.d.table[id], s.now)
    ensures var kept := Prune(cfg, s.d.table, s.d.current, s.now);
      kept.Keys == s.d.table.Keys - {id} && |kept| == cfg.maxRecords - 1
  {
    assert s.d.current != Some(id);
    hide Inv, Done, Counted, Ordered;
    var kept := Prune(cfg, s.d.table, s.d.current, s.now);
    StaleMeansFull(cfg, s, id);
    forall x | x in s.d.table && x != id ensures x in kept {
      if s.d.current != Some(x) {
        DoneIsYoung(cfg, s, id, x);
      }
    }
    assert kept.Keys == s.d.table.Keys - {id};
    assert |kept| == |kept.Keys| && |s.d.table| == |s.d.table.Keys|;
  }

  /** The table after a call that prunes an entry's record: the new id has taken its place. */
  ghost predicate Swapped(cfg: Config, s: State, a: Action, id: string, s': State)
    requires (a.SubmitCall? || a.StopCall?) && id in s.d.table
  {
    && s'.now == s.now && s'.d.current == s.d.current && s'.d.mode == s.d.mode
    && |s'.d.table| == cfg.maxRecords && a.id !in s.d.table && s'.d.table.Keys == s.d.table.Keys - {id} + {a.id}
    && (forall x | x in s.d.table && x != id :: s'.d.table[x] == s.d.table[x])
    && (if a.SubmitCall? then s'.d.table[a.id].state == Queued && s'.d.queue == s.d.queue + [a.id]
        else s'.d.table[a.id].terminalAt == Some(s.now) && s'.d.queue == s.d.queue)
  }

  lemma CallSwaps(cfg: Config, s: State, a: Action, id: string)
    requires Enabled(cfg, s, a) && Uncovers(cfg, s, a, id)
    ensures Stale(cfg, s.d.table[id], s.now) && s.d.current != Some(id) && Swapped(cfg, s, a, id, Next(cfg, s, a))
  {
    hide Next, Enabled, Prune, Inv, Counted, Ordered;
    PruningCall(cfg, s, a, id);
    KeptIsAllBut(cfg, s, id);
    var s', kept := Next(cfg, s, a), Prune(cfg, s.d.table, s.d.current, s.now);
    assert |s'.d.table| == |s'.d.table.Keys| && |kept| == |kept.Keys|;
    PruneKeeps(cfg, s.d.table, s.d.current, s.now);
  }

  lemma PruneKeeps(cfg: Config, t: Table, current: Option<string>, now: int)
    ensures forall x | x in Prune(cfg, t, current, now) :: x in t && Prune(cfg, t, current, now)[x] == t[x]
  {
  }

  lemma JamStarts(cfg: Config, s: State, a: Action, id: string)
    requires Enabled(cfg, s, a) && Uncovers(cfg, s, a, id)
    ensures Distinct(Next(cfg, s, a).d.queue) && Jammed(cfg, Next(cfg, s, a))
  {
    hide Next, Enabled, Inv, OwnedSince, Safe, Uncovers, Swapped;
    var s' := Next(cfg, s, a);
    SwappedQueue(cfg, s, a, id);
    if s'.d.current.Some? {
      OwnerOfJam(cfg, s, a, id);
    }
    forall x | x in s'.d.table && s'.d.current != Some(x) && s'.d.table[x].terminalAt.Some?
      ensures Safe(cfg, s', x)
    {
      SafeInJam(cfg, s, a, id, x);
    }
    forall x | x in s'.d.table && s'.d.table[x].state == Queued
      ensures x == s'.d.queue[|s'.d.queue| - 1]
    {
      QueuedInJam(cfg, s, a, id, x);
    }
  }

  lemma SwappedQueue(cfg: Config, s: State, a: Action, id: string)
    requires Enabled(cfg, s, a) && Uncovers(cfg, s, a, id)
    ensures var s' := Next(cfg, s, a);
      && Distinct(s'.d.queue) && s'.d.queue != [] && |s'.d.table| == cfg.maxRecords
      && s'.d.current == s.d.current
      && (a.SubmitCall? ==> s'.d.queue[|s'.d.queue| - 1] == a.id)
  {
    hide Next, Enabled, Prune, Inv, Counted, Ordered, Stale;
    CallSwaps(cfg, s, a, id);
    assert forall x | x in s.d.queue :: x in s.d.table;
  }

  lemma SafeInJam(cfg: Config, s: State, a: Action, id: string, x: string)
    requires Enabled(cfg, s, a) && Uncovers(cfg, s, a, id)
    requires var s' := Next(cfg, s, a); x in s'.d.table && s'.d.current != Some(x) && s'.d.table[x].terminalAt.Some?
    ensures Safe(cfg, Next(cfg, s, a), x)
  {
    hide Next, Enabled, Prune, Inv, Done, OwnedSince, Counted, Ordered, Safe, Fresh;
    CallSwaps(cfg, s, a, id);
    var s' := Next(cfg, s, a);
    if x != a.id {
      StaleMeansFull(cfg, s, id);
      DoneIsSafe(cfg, s, id, x);
      SafeStays(cfg, s, a, x);
    } else {
      if s.d.current.Some? {
        OwnerOfJam(cfg, s, a, id);
      }
      if a.SubmitCall? {
        QueuedHasNotEnded(cfg, s, a);
      }
      EndingNowIsSafe(cfg, s', x);
    }
  }

  lemma DoneHasEnded(s: State, id: string, x: string)
    requires id in s.d.table && x in Done(s, id, CreatedAt(s.d.table, id))
    ensures s.d.table[x].terminalAt.Some? && Terminal(s.d.table[x].state)
  {
  }

  lemma QueuedHasNotEnded(cfg: Config, s: State, a: Action)
    requires cfg.Valid() && Inv(cfg, s) && Enabled(cfg, s, a) && a.SubmitCall? && a.id in Next(cfg, s, a).d.table
    ensures Next(cfg, s, a).d.table[a.id].state == Queued ==> Next(cfg, s, a).d.table[a.id].terminalAt == None
  {
    hide Next;
    StepInv(cfg, s, a);
    assert LeaseOk(cfg, Next(cfg, s, a).now, Next(cfg, s, a).d.table[a.id]);
  }

  lemma QueuedInJam(cfg: Config, s: State, a: Action, id: string, x: string)
    requires Enabled(cfg, s, a) && Uncovers(cfg, s, a, id)
    requires x in Next(cfg, s, a).d.table && Next(cfg, s, a).d.table[x].state == Queued
    ensures x == a.id && a.SubmitCall?
  {
    hide Next, Enabled, Prune, Inv, Done, Counted, Ordered;
    CallSwaps(cfg, s, a, id);
    var s' := Next(cfg, s, a);
    StepInv(cfg, s, a);
    QueuedHasNotEndedIn(cfg, s', x);
    if x != a.id {
      StaleMeansFull(cfg, s, id);
      if s'.d.current.Some? {
        OwnerIsNotQueued(cfg, s');
      }
      DoneHasEnded(s, id, x);
    }
  }

  lemma QueuedHasNotEndedIn(cfg: Config, s: State, x: string)
    requires Inv(cfg, s) && x in s.d.table && s.d.table[x].state == Queued
    ensures s.d.table[x].terminalAt == None
  {
    assert LeaseOk(cfg, s.now, s.d.table[x]);
  }

  lemma OwnerIsNotQueued(cfg: Config, s: State)
    requires Inv(cfg, s) && s.d.current.Some?
    ensures s.d.current.value in s.d.table && s.d.table[s.d.current.value].state != Queued
  {
  }

  // ---- A jam holds until the GPU changes hands ----

  lemma JamIsYoung(cfg: Config, s: State, x: string)
    requires cfg.Valid() && Inv(cfg, s) && s.d.mode == Ready && Jammed(cfg, s) && x in s.d.table
      && s.d.current != Some(x)
    ensures !Stale(cfg, s.d.table[x], s.now)
  {
    if s.d.table[x].terminalAt.Some? {
      assert Safe(cfg, s, x);
      if s.d.current.Some? {
        OwnedSinceBounds(cfg, s, s.d.current.value,
                         s.d.table[x].terminalAt.value + cfg.retention - cfg.MaxHold() - 1);
      }
    }
    hide Inv, OwnedSince;
  }

  lemma OwnerIsYoung(cfg: Config, s: State, owner: string)
    requires Inv(cfg, s) && s.d.mode == Ready && s.d.current == Some(owner) && owner in s.d.table
    ensures !Stale(cfg, s.d.table[owner], s.now)
  {
    assert LeaseOk(cfg, s.now, s.d.table[owner]);
  }

  /** Nobody leaves a jammed table, so nobody enters it. */
  lemma JamKeys(cfg: Config, s: State, a: Action)
    requires SmallTable(cfg, s) && Jammed(cfg, s) && Enabled(cfg, s, a)
    ensures Next(cfg, s, a).d.table.Keys == s.d.table.Keys && !Admits(cfg, s, a)
  {
    hide Next, Enabled, Inv, Jammed, Admits;
    var s' := Next(cfg, s, a);
    forall x | x in s.d.table ensures x in s'.d.table {
      if s.d.current == Some(x) {
        OwnerIsYoung(cfg, s, x);
      } else {
        JamIsYoung(cfg, s, x);
      }
      YoungStays(cfg, s, a, x);
    }
    StepKeepsCapacity(cfg, s, a);
    JamSize(cfg, s);
    assert |s'.d.table| == |s'.d.table.Keys| && |s.d.table| == |s.d.table.Keys|;
    SubsetIsAll(s.d.table.Keys, s'.d.table.Keys);
    if Admits(cfg, s, a) {
      AdmissionIs(cfg, s, a);
    }
  }

  lemma JamSize(cfg: Config, s: State)
    requires Jammed(cfg, s)
    ensures |s.d.table| == cfg.maxRecords && s.d.queue != []
  {
  }

  /** A turn on a free GPU pops the whole queue. */
  lemma JamPops(cfg: Config, s: State)
    requires SmallTable(cfg, s) && Jammed(cfg, s) && s.worker.Wait? && s.d.current == None
    ensures Next(cfg, s, WorkerTurn).d.queue == []
  {
    var j := TurnIdleIs(cfg, s);
    if j >= 0 {
      GrantedIsLast(cfg, s, j);
      hide *;
      assert s.d.queue[j + 1..] == [];
    }
  }

  lemma GrantedIsLast(cfg: Config, s: State, j: nat)
    requires SmallTable(cfg, s) && Jammed(cfg, s) && j < |s.d.queue|
    requires s.d.queue[j] in Settle(cfg, s) && Settle(cfg, s)[s.d.queue[j]].state == Queued
    ensures j == |s.d.queue| - 1
  {
    hide Settle;
    SettleAges(cfg, s);
    assert s.d.queue[j] == s.d.queue[|s.d.queue| - 1];
  }

  lemma TurnEndsNow(cfg: Config, s: State, x: string)
    requires cfg.Valid() && Inv(cfg, s) && s.worker.Wait? && x in s.d.table && x in Next(cfg, s, WorkerTurn).d.table
    requires s.d.table[x].terminalAt == None && Next(cfg, s, WorkerTurn).d.table[x].terminalAt.Some?
    ensures Next(cfg, s, WorkerTurn).d.table[x].terminalAt == Some(s.now)
  {
    hide Next, Settle, Inv, NextWait;
    SettleAges(cfg, s);
    if s.d.mode != Ready {
      NotReadyTurn(cfg, s);
    } else if s.d.current.Some? {
      OwnerIsActive(cfg, s, s.d.current.value);
      TurnOwnedIs(cfg, s, s.d.current.value);
    } else {
      var k := TurnIdleIs(cfg, s);
    }
  }

  lemma CallEndsNow(cfg: Config, s: State, a: Action, x: string)
    requires Enabled(cfg, s, a) && (a.SubmitCall? || a.StopCall?) && x in s.d.table && x in Next(cfg, s, a).d.table
    requires s.d.table[x].terminalAt == None && Next(cfg, s, a).d.table[x].terminalAt.Some?
    ensures Next(cfg, s, a).d.table[x].terminalAt == Some(s.now)
  {
    if a.SubmitCall? {
      hide RequestStop;
    } else {
      hide Submit;
    }
  }

  /** Where a record ends, its time of ending is the time of the step. */
  lemma EndsNow(cfg: Config, s: State, a: Action, x: string)
    requires cfg.Valid() && Inv(cfg, s) && Enabled(cfg, s, a) && x in s.d.table && x in Next(cfg, s, a).d.table
    requires s.d.table[x].terminalAt == None && Next(cfg, s, a).d.table[x].terminalAt.Some?
    ensures Next(cfg, s, a).d.table[x].terminalAt == Some(s.now) && Next(cfg, s, a).now == s.now
  {
    if !a.Tick? {
      NoTimePasses(cfg, s, a);
    }
    hide Inv, Turn, Submit, RequestStop;
    match a
    case WorkerTurn => TurnEndsNow(cfg, s, x);
    case SubmitCall(_, _, _, _) => CallEndsNow(cfg, s, a, x);
    case StopCall(_, _, _, _) => CallEndsNow(cfg, s, a, x);
    case _ =>
  }

  lemma JamOwner(cfg: Config, s: State, a: Action)
    requires SmallTable(cfg, s) && Jammed(cfg, s) && Enabled(cfg, s, a)
    requires var s' := Next(cfg, s, a); s'.d.mode == Ready && s'.d.current == s.d.current && s'.d.current.Some?
    ensures var s' := Next(cfg, s, a); var owner := s'.d.current.value;
      && owner in s'.d.table && OwnedSince(cfg, s', owner, s'.now) && OwnedSince(cfg, s', owner, s.now)
      && (cfg.retention <= cfg.MaxHold() ==>
            OwnedSince(cfg, s', owner, s'.now - cfg.retention) && OwnedSince(cfg, s', owner, s.now - cfg.retention))
  {
    var s' := Next(cfg, s, a);
    var owner := s.d.current.value;
    TimeGoesOn(cfg, s, a);
    hide Next, Enabled, Inv, OwnedSince, Safe;
    TenureStep(cfg, s, a, owner, s.now);
    OwnedLater(cfg, s', owner, s.now, s'.now);
    if cfg.retention <= cfg.MaxHold() {
      TenureStep(cfg, s, a, owner, s.now - cfg.retention);
      OwnedLater(cfg, s', owner, s.now - cfg.retention, s'.now - cfg.retention);
    }
  }

  lemma TwoRecords(cfg: Config, s: State, x: string)
    requires SmallTable(cfg, s) && Jammed(cfg, s) && cfg.retention <= cfg.MaxHold()
    requires s.d.current.Some? && s.d.current != Some(x) && x in s.d.table
    ensures cfg.maxRecords == 2
  {
    ShortRetention(cfg);
    OwnerIsFiled(cfg, s, s.d.current.value);
    SubsetSize({x, s.d.current.value}, s.d.table.Keys);
    assert |s.d.table| == |s.d.table.Keys|;
  }

  lemma JamSafe(cfg: Config, s: State, a: Action, x: string)
    requires SmallTable(cfg, s) && Jammed(cfg, s) && Enabled(cfg, s, a)
    requires var s' := Next(cfg, s, a);
      && s'.d.mode == Ready && (s'.d.current == s.d.current || s'.d.current == None)
      && x in s.d.table && x in s'.d.table && s'.d.current != Some(x) && s'.d.table[x].terminalAt.Some?
    ensures Safe(cfg, Next(cfg, s, a), x)
  {
    var s' := Next(cfg, s, a);
    hide Next, Enabled, Inv, OwnedSince;
    if s.d.table[x].terminalAt.Some? {
      EndedStays(cfg, s, a, x);
      assert Safe(cfg, s, x);
      hide Safe;
      SafeStays(cfg, s, a, x);
    } else {
      EndsNow(cfg, s, a, x);
      if s'.d.current.Some? {
        JamOwner(cfg, s, a);
        if cfg.retention <= cfg.MaxHold() {
          TwoRecords(cfg, s, x);
        }
      }
      EndingNowIsSafe(cfg, s', x);
    }
  }

  /** What has ended is no owner, and does not change. */
  lemma EndedStays(cfg: Config, s: State, a: Action, x: string)
    requires cfg.Valid() && Inv(cfg, s) && Enabled(cfg, s, a) && s.d.mode == Ready
    requires x in s.d.table && s.d.table[x].terminalAt.Some? && x in Next(cfg, s, a).d.table
    ensures Next(cfg, s, a).d.table[x] == s.d.table[x] && s.d.current != Some(x)
  {
    assert LeaseOk(cfg, s.now, s.d.table[x]);
    hide Next;
    StepClimbs(cfg, s, a, x);
  }

  lemma JamGoesOn(cfg: Config, s: State, a: Action)
    requires SmallTable(cfg, s) && Jammed(cfg, s) && Enabled(cfg, s, a) && Next(cfg, s, a).d.mode == Ready
    requires Next(cfg, s, a).d.queue == s.d.queue
    requires Next(cfg, s, a).d.current == s.d.current || Next(cfg, s, a).d.current == None
    ensures Jammed(cfg, Next(cfg, s, a))
  {
    var s' := Next(cfg, s, a);
    hide Next, Enabled, Inv, OwnedSince, Safe, SmallTable, Jammed;
    JamSize(cfg, s);
    JamKeys(cfg, s, a);
    assert |s'.d.table| == |s'.d.table.Keys| && |s.d.table| == |s.d.table.Keys|;
    if s'.d.current.Some? {
      JamOwner(cfg, s, a);
    }
    forall x | x in s'.d.table && s'.d.current != Some(x) && s'.d.table[x].terminalAt.Some?
      ensures Safe(cfg, s', x)
    {
      JamSafe(cfg, s, a, x);
    }
    forall x | x in s'.d.table && s'.d.table[x].state == Queued
      ensures x == s'.d.queue[|s'.d.queue| - 1]
    {
      JamQueued(cfg, s, a, x);
    }
    JamMade(cfg, s');
  }

  lemma JamMade(cfg: Config, s: State)
    requires |s.d.table| == cfg.maxRecords && s.d.queue != []
    requires s.d.current.Some? ==>
      && s.d.current.value in s.d.table && OwnedSince(cfg, s, s.d.current.value, s.now)
      && (cfg.retention <= cfg.MaxHold() ==> OwnedSince(cfg, s, s.d.current.value, s.now - cfg.retention))
    requires forall x | x in s.d.table && s.d.table[x].state == Queued :: x == s.d.queue[|s.d.queue| - 1]
    requires forall x | x in s.d.table && s.d.current != Some(x) && s.d.table[x].terminalAt.Some? :: Safe(cfg, s, x)
    ensures Jammed(cfg, s)
  {
  }

  lemma JamQueued(cfg: Config, s: State, a: Action, x: string)
    requires SmallTable(cfg, s) && Jammed(cfg, s) && Enabled(cfg, s, a)
    requires x in Next(cfg, s, a).d.table && Next(cfg, s, a).d.table[x].state == Queued
    ensures x == s.d.queue[|s.d.queue| - 1]
  {
    hide Next, Enabled, Inv, OwnedSince, Safe;
    JamKeys(cfg, s, a);
    StepClimbs(cfg, s, a, x);
  }

  lemma JamStep(cfg: Config, s: State, a: Action)
    requires SmallTable(cfg, s) && Jammed(cfg, s) && Enabled(cfg, s, a) && Next(cfg, s, a).d.mode == Ready
    ensures var s' := Next(cfg, s, a); Distinct(s'.d.queue) && (Jammed(cfg, s') || Normal(cfg, s'))
  {
    var s' := Next(cfg, s, a);
    assert a.WorkerTurn? ==> s.worker.Wait?;
    hide Next, Enabled, Inv, OwnedSince, Safe, Admits;
    JamKeys(cfg, s, a);
    var k := QueueShape(cfg, s, a);
    if k == 0 {
      assert s'.d.queue == s.d.queue;
      JamGoesOn(cfg, s, a);
    } else {
      JamPops(cfg, s);
      EmptyIsNormal(cfg, s, a);
    }
  }

  lemma EmptyIsNormal(cfg: Config, s: State, a: Action)
    requires cfg.Valid() && Inv(cfg, s) && Enabled(cfg, s, a) && s.d.mode == Ready && Next(cfg, s, a).d.mode == Ready
    requires s.d.current == None && Next(cfg, s, a).d.queue == []
    ensures Normal(cfg, Next(cfg, s, a))
  {
    var s' := Next(cfg, s, a);
    hide Next, Inv, OwnedSince;
    if s'.d.current.Some? {
      GrantedByNow(cfg, s, a);
      TimeGoesOn(cfg, s, a);
      OwnedLater(cfg, s', s'.d.current.value, s.now, s'.now);
    }
  }

  // ---- Every step ----

  lemma BecomesReady(cfg: Config, s: State, a: Action)
    requires cfg.Valid() && Inv(cfg, s) && Enabled(cfg, s, a) && s.d.mode != Ready
    ensures Next(cfg, s, a).d.queue == s.d.queue
    ensures Next(cfg, s, a).d.mode == Ready ==> Next(cfg, s, a).d.queue == [] && Next(cfg, s, a).d.current == None
  {
    match a
    case WorkerTurn => NotReadyTurn(cfg, s);
    case _ => hide Turn, Prune;
  }

  lemma LeavesReady(cfg: Config, s: State, a: Action)
    requires cfg.Valid() && Inv(cfg, s) && Enabled(cfg, s, a) && s.d.mode == Ready && Next(cfg, s, a).d.mode != Ready
    ensures Next(cfg, s, a).d.queue == s.d.queue
  {
    match a
    case WorkerTurn =>
      if s.d.current.Some? {
        TurnOwnedIs(cfg, s, s.d.current.value);
      } else {
        var k := TurnIdleIs(cfg, s);
      }
    case _ => hide Turn, Prune;
  }

  /** With a long retention no step makes an entry old. */
  lemma StaysFresh(cfg: Config, s: State, a: Action)
    requires cfg.Valid() && ByWait(cfg) && Inv(cfg, s) && Enabled(cfg, s, a)
    requires s.d.mode == Ready && Next(cfg, s, a).d.mode == Ready && Normal(cfg, s)
    requires Recorded(Next(cfg, s, a)) && Ordered(Next(cfg, s, a))
    ensures Fresh(cfg, Next(cfg, s, a))
  {
    var s' := Next(cfg, s, a);
    StepInv(cfg, s, a);
    if !a.Tick? {
      NoTimePasses(cfg, s, a);
    }
    hide Next, Enabled, Inv, Admits, OwnedSince;
    forall id | id in s'.d.queue ensures s'.now < CreatedAt(s'.d.table, id) + cfg.retention {
      var k := QueueShape(cfg, s, a);
      if id !in s.d.queue {
        AdmissionIs(cfg, s, a);
      } else if s'.d.current.Some? {
        OwnersWait(cfg, s', s'.d.current.value);
        OwnedSinceBounds(cfg, s', s'.d.current.value, s'.d.table[s'.d.current.value].queueDeadline - 1);
      } else {
        RecordStays(cfg, s, a, id);
        FreeOrEnding(cfg, s, a);
      }
    }
  }

  lemma FreeOrEnding(cfg: Config, s: State, a: Action)
    requires cfg.Valid() && Inv(cfg, s) && Enabled(cfg, s, a) && s.d.mode == Ready && s.d.queue != []
    requires Next(cfg, s, a).d.current == None
    ensures Next(cfg, s, a).now == s.now
  {
    if s.d.current.Some? {
      OwnerEnds(cfg, s, a, s.d.current.value);
    } else {
      NoTimeWhileFree(cfg, s, a);
    }
  }

  lemma FreshStep(cfg: Config, s: State, a: Action)
    requires cfg.Valid() && ByWait(cfg) && Inv(cfg, s) && Enabled(cfg, s, a) && Distinct(s.d.queue)
    requires s.d.mode == Ready && Next(cfg, s, a).d.mode == Ready && Normal(cfg, s)
    ensures Distinct(Next(cfg, s, a).d.queue) && Normal(cfg, Next(cfg, s, a))
  {
    hide Next, Enabled, Inv;
    forall id | id in s.d.queue && id in Next(cfg, s, a).d.queue ensures id in Next(cfg, s, a).d.table {
      EntryYoungBy(cfg, s, id);
      YoungStays(cfg, s, a, id);
    }
    OrderStays(cfg, s, a);
    StaysFresh(cfg, s, a);
  }

  lemma RoomStep(cfg: Config, s: State, a: Action)
    requires SmallTable(cfg, s) && Normal(cfg, s) && Enabled(cfg, s, a) && Next(cfg, s, a).d.mode == Ready
    ensures var s' := Next(cfg, s, a); Distinct(s'.d.queue) && (Jammed(cfg, s') || Normal(cfg, s'))
  {
    assert a.WorkerTurn? ==> s.worker.Wait?;
    hide Next, Enabled, Inv, Counted, Jammed;
    var s' := Next(cfg, s, a);
    if forall id | id in s.d.queue && id in s'.d.queue :: id in s'.d.table {
      OrderStays(cfg, s, a);
      StaysCounted(cfg, s, a);
    } else {
      var id :| id in s.d.queue && id in s'.d.queue && id !in s'.d.table;
      if a.WorkerTurn? {
        TurnKeepsEntries(cfg, s, id);
      } else if a.SubmitCall? || a.StopCall? {
        JamStarts(cfg, s, a, id);
      } else {
        OthersPruneNothing(cfg, s, a);
      }
    }
  }

  /** After a grant the queue is normal, whatever it was. */
  lemma GrantIsNormal(cfg: Config, s: State, a: Action, id: string)
    requires cfg.Valid() && Retains(cfg) && Inv(cfg, s) && Tidy(cfg, s) && Enabled(cfg, s, a)
    requires Grants(s, Next(cfg, s, a), id) && Next(cfg, s, a).d.mode == Ready
    ensures Normal(cfg, Next(cfg, s, a))
  {
    GrantIs(cfg, s, a, id);
    assert s.worker.Wait?;
    hide Next, Enabled, Inv, Jammed, Counted, Fresh;
    if ByWait(cfg) {
      FreshStep(cfg, s, a);
    } else if Normal(cfg, s) {
      forall x | x in s.d.queue && x in Next(cfg, s, a).d.queue ensures x in Next(cfg, s, a).d.table {
        TurnKeepsEntries(cfg, s, x);
      }
      OrderStays(cfg, s, a);
      StaysCounted(cfg, s, a);
    } else {
      JamPops(cfg, s);
      EmptyIsNormal(cfg, s, a);
    }
  }

  /** With enough retention, every step keeps the queue tidy. */
  lemma StepTidy(cfg: Config, s: State, a: Action)
    requires cfg.Valid() && Retains(cfg) && Inv(cfg, s) && Tidy(cfg, s) && Enabled(cfg, s, a)
    ensures Tidy(cfg, Next(cfg, s, a))
  {
    hide Next, Enabled, Inv, Jammed, Counted, Fresh;
    StepKeepsCapacity(cfg, s, a);
    if s.d.mode != Ready {
      BecomesReady(cfg, s, a);
      if Next(cfg, s, a).d.mode == Ready {
        NothingIsNormal(cfg, Next(cfg, s, a));
      }
    } else if Next(cfg, s, a).d.mode != Ready {
      LeavesReady(cfg, s, a);
    } else if ByWait(cfg) {
      FreshStep(cfg, s, a);
    } else if Normal(cfg, s) {
      RoomStep(cfg, s, a);
    } else {
      JamStep(cfg, s, a);
    }
  }

  lemma NothingIsNormal(cfg: Config, s: State)
    requires s.d.queue == [] && s.d.current == None
    ensures Normal(cfg, s)
  {
  }

  lemma {:induction false} RunTidy(cfg: Config, states: seq<State>, acts: seq<Action>, i: nat)
    requires cfg.Valid() && Retains(cfg) && IsRun(cfg, states, acts) && i < |states|
    requires Inv(cfg, states[0]) && Tidy(cfg, states[0])
    ensures Inv(cfg, states[i]) && Tidy(cfg, states[i])
  {
    hide Next, Enabled, Inv, Tidy;
    RunInv(cfg, states, acts, i);
    if i > 0 {
      RunTidy(cfg, states, acts, i - 1);
      StepAt(cfg, states, acts, i - 1);
      StepTidy(cfg, states[i - 1], acts[i - 1]);
    }
  }
}
