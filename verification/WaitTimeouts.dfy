/**
 Wait timeouts as the program has them: floating-point numbers, one of which is
 no number. The rest of the model leaves that one out. It is accepted like any
 wait within the limit, and it undoes what a wait is for. Times that are numbers
 are whole microseconds here as elsewhere; infinities are refused.
 */
module WaitTimeouts {
  import opened Prelude
  import opened Leases

  datatype Number = Time(value: int) | Infinite(positive: bool) | NaN

  /** Every comparison with NaN is false. */
  predicate Less(a: Number, b: Number) {
    match (a, b)
    case (NaN, _) => false
    case (_, NaN) => false
    case (Time(x), Time(y)) => x < y
    case (Infinite(p), Infinite(q)) => !p && q
    case (Infinite(p), Time(_)) => !p
    case (Time(_), Infinite(q)) => q
  }

  predicate AtMost(a: Number, b: Number) {
    Less(a, b) || (a == b && a != NaN)
  }

  function Plus(t: int, d: Number): Number {
    match d
    case Time(x) => Time(t + x)
    case _ => d
  }

  /** The check that admission makes, as it is written. */
  predicate WaitAccepted(max: int, wait: Number) {
    !(AtMost(wait, Time(0)) || Less(Time(max), wait))
  }

  lemma AcceptedIs(max: int, wait: Number)
    ensures WaitAccepted(max, wait) <==> wait == NaN || (wait.Time? && 0 < wait.value <= max)
  {
  }

  /** A repeated submission is told apart from a different one by comparing the waits. */
  predicate SameWait(a: Number, b: Number) {
    AtMost(a, b) && AtMost(b, a)
  }

  // ---- The queue, with such deadlines ----

  datatype Entry = Entry(queued: bool, deadline: Number)

  predicate Due(e: Entry, now: int) {
    e.queued && AtMost(e.deadline, Time(now))
  }

  /** The sweep: every entry that is due expires. */
  function Swept(t: map<string, Entry>, queue: seq<string>, now: int): map<string, Entry> {
    map id | id in t :: if id in queue && Due(t[id], now) then t[id].(queued := false) else t[id]
  }

  /** The pop loop: the first live entry that is not due is granted. */
  function Granted(t: map<string, Entry>, queue: seq<string>, now: int): Option<string> {
    if queue == [] then None
    else
      var id := queue[0];
      if id !in t || !t[id].queued then Granted(t, queue[1..], now)
      else if AtMost(t[id].deadline, Time(now)) then Granted(t[id := t[id].(queued := false)], queue[1..], now)
      else Some(id)
  }

  /** A turn of the worker on a free GPU. */
  function TurnGrants(t: map<string, Entry>, queue: seq<string>, now: int): Option<string> {
    Granted(Swept(t, queue, now), queue, now)
  }

  /** Who is granted was live and not due. */
  lemma {:induction false} GrantedIsLive(t: map<string, Entry>, queue: seq<string>, now: int)
    ensures var g := Granted(t, queue, now);
      g.Some? ==> g.value in t && t[g.value].queued && !AtMost(t[g.value].deadline, Time(now))
  {
    if queue != [] {
      var id := queue[0];
      if id in t && t[id].queued && AtMost(t[id].deadline, Time(now)) {
        GrantedIsLive(t[id := t[id].(queued := false)], queue[1..], now);
      } else {
        GrantedIsLive(t, queue[1..], now);
      }
    }
  }

  /** No grant comes after the longest wait, whatever the table and the queue. */
  ghost predicate NeverGrantedLate(max: int, wait: Number) {
    forall t: map<string, Entry>, queue, id: string, created, now: int ::
      id in t && t[id].deadline == Plus(created, wait) && TurnGrants(t, queue, now) == Some(id) ==> now < created + max
  }

  /**
   The promise that no grant is late, entry by entry: a wait that is accepted
   keeps it if and only if it is a number.
   */
  lemma LateGrantIsExact(max: int, wait: Number)
    requires WaitAccepted(max, wait)
    ensures NeverGrantedLate(max, wait) <==> wait != NaN
  {
    if wait == NaN {
      var t := map["r" := Entry(true, NaN)];
      assert Swept(t, ["r"], Max(0, max)) == t;
      assert TurnGrants(t, ["r"], Max(0, max)) == Some("r") && t["r"].deadline == Plus(0, wait);
    } else {
      forall t: map<string, Entry>, queue, id: string, created, now: int
        | id in t && t[id].deadline == Plus(created, wait) && TurnGrants(t, queue, now) == Some(id)
        ensures now < created + max
      {
        GrantedIsLive(Swept(t, queue, now), queue, now);
      }
    }
  }

  /**
   The sweep expires an accepted entry at some time if and only if its wait is a
   number, and the very submission that was accepted is recognised when it is
   repeated if and only if its wait is a number.
   */
  lemma ExpiryIsExact(max: int, wait: Number, created: int)
    requires WaitAccepted(max, wait)
    ensures (exists now :: Due(Entry(true, Plus(created, wait)), now)) <==> wait != NaN
    ensures SameWait(wait, wait) <==> wait != NaN
  {
    if wait.Time? {
      assert Due(Entry(true, Plus(created, wait)), created + wait.value);
    }
  }

  // ---- The sleep of the worker ----

  /** The least of the deadlines as the program finds it: a later one replaces
      an earlier one only if it compares as less. */
  function Lowest(least: Number, rest: seq<Number>): Number
    decreases |rest|
  {
    if rest == [] then least
    else Lowest(if Less(rest[0], least) then rest[0] else least, rest[1..])
  }

  /** The smaller of the longest sleep and what is left, but no less than a millisecond. */
  function Span(deadlines: seq<Number>, now: int): int {
    if deadlines == [] then LONGEST_SLEEP
    else
      match Lowest(deadlines[0], deadlines[1..])
      case Time(d) => Max(MILLI, Min(LONGEST_SLEEP, d - now))
      case Infinite(positive) => if positive then LONGEST_SLEEP else MILLI
      case NaN => LONGEST_SLEEP
  }

  predicate NoneInfinite(deadlines: seq<Number>) {
    forall d | d in deadlines :: !d.Infinite?
  }

  predicate NoneBefore(deadlines: seq<Number>, t: int) {
    forall d | d in deadlines && d.Time? :: t <= d.value
  }

  lemma {:induction false} LowestIsLeast(least: Number, rest: seq<Number>)
    requires !least.Infinite? && NoneInfinite(rest)
    ensures least == NaN ==> Lowest(least, rest) == NaN
    ensures least.Time? ==> Lowest(least, rest).Time? && Lowest(least, rest).value <= least.value
    ensures least.Time? ==> NoneBefore(rest, Lowest(least, rest).value)
    decreases |rest|
  {
    if rest != [] {
      var least' := if Less(rest[0], least) then rest[0] else least;
      assert forall d | d in rest[1..] :: d in rest;
      assert rest == [rest[0]] + rest[1..];
      LowestIsLeast(least', rest[1..]);
    }
  }

  /** Every deadline ahead that is a number is overshot by less than a millisecond. */
  predicate WakesInTime(deadlines: seq<Number>, now: int) {
    forall d | d in deadlines && d.Time? && now < d.value :: now + Span(deadlines, now) < d.value + MILLI
  }

  /** No deadline ahead is so near that the longest sleep would miss it. */
  predicate NothingDueSoon(deadlines: seq<Number>, now: int) {
    forall d | d in deadlines && d.Time? && now < d.value :: now + LONGEST_SLEEP < d.value + MILLI
  }

  /**
   The worker wakes up in time for every deadline ahead, unless the first of
   all deadlines is no number: then it sleeps its longest, and is late for
   whatever falls due in the meantime.
   */
  lemma WakeUpIsExact(deadlines: seq<Number>, now: int)
    requires NoneInfinite(deadlines)
    ensures WakesInTime(deadlines, now)
      <==> deadlines == [] || deadlines[0] != NaN || NothingDueSoon(deadlines, now)
  {
    if deadlines != [] {
      assert forall d | d in deadlines[1..] :: d in deadlines;
      assert deadlines == [deadlines[0]] + deadlines[1..];
      assert deadlines[0] in deadlines;
      LowestIsLeast(deadlines[0], deadlines[1..]);
    }
  }
}
