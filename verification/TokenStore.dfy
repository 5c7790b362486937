/**
 The hot-reloading token store: a cache of the client list that is checked
 against the registry file on every call.
 */
module TokenStore {
  import opened Prelude
  import opened Json
  import opened Registry
  import opened AdminProofs
  import opened RegistryHistory

  /** What the path shows at one moment: nothing usable, or a bounded regular
      file with its fingerprint and its parsed content (nothing if it does not parse). */
  datatype Disk = Absent | File(stamp: nat, content: Option<Json>)

  /** What one call meets: the path at `lstat`, the opened file before the read
      and after it, and what a read returns that the file changes under. Both states of
      the file are given as versions of the path: if the path is replaced during the
      read, the opened file no longer is such a version, but then its fingerprint has
      changed and the read fails, as it does here when the two versions differ. */
  datatype Look = Look(first: Disk, before: Disk, after: Disk, torn: Option<Json>)

  datatype Answer = Unavailable | Denied | Granted(who: Identity)

  datatype Cache = Cache(stamp: Option<nat>, clients: seq<Dict>)

  const EMPTY := Cache(None, [])

  /** What the read returns: the content of the file if it did not change, and otherwise anything. */
  function ContentRead(before: Disk, after: Disk, torn: Option<Json>): Option<Json> {
    if before == after && before.File? then before.content else torn
  }

  /** The clients and the fingerprint of a read that met no change; otherwise nothing. */
  function ReadFile(ts: Timestamps, before: Disk, after: Disk, torn: Option<Json>): Option<Cache> {
    var content := ContentRead(before, after, torn);
    if before.Absent? || after.Absent? || before.stamp != after.stamp || content == None then None
    else
      var data := ValidateRegistry(ts, content.value);
      if data == None then None else Some(Cache(Some(after.stamp), data.value.rows))
  }

  /** The cache after a refresh; nothing cached means that the registry is unavailable. */
  function Refreshed(ts: Timestamps, cache: Cache, look: Look): Option<Cache> {
    if look.first.Absent? then None
    else if Some(look.first.stamp) == cache.stamp then Some(cache)
    else ReadFile(ts, look.before, look.after, look.torn)
  }

  function Answered(rows: seq<Dict>, digest: Option<string>, required: Option<string>): Answer {
    if digest == None then Denied
    else
      match Authenticate(rows, digest.value, required)
      case None => Denied
      case Some(who) => Granted(who)
  }

  /** The reference: read the file, validate it, and scan it, with no cache at all. */
  function Uncached(ts: Timestamps, disk: Disk, digest: Option<string>, required: Option<string>): Answer {
    if disk.Absent? || disk.content == None then Unavailable
    else
      var data := ValidateRegistry(ts, disk.content.value);
      if data == None then Unavailable else Answered(data.value.rows, digest, required)
  }

  // ---- The store as it is written ----

  class Store {
    const ts: Timestamps
    var stamp: Option<nat>
    var clients: seq<Dict>

    function Cached(): Cache
      reads this
    {
      Cache(stamp, clients)
    }

    /** Nothing cached yet. */
    constructor (ts: Timestamps)
      ensures this.ts == ts && Cached() == EMPTY
    {
      this.ts, stamp, clients := ts, None, [];
    }

    /** A store is made by a first reading; there is no store if that fails. */
    static method Open(ts: Timestamps, look: Look) returns (store: Store?)
      ensures store == null <==> Refreshed(ts, EMPTY, look) == None
      ensures store != null ==> fresh(store) && store.ts == ts && Refreshed(ts, EMPTY, look) == Some(store.Cached())
    {
      store := new Store(ts);
      var usable := store.Refresh(look);
      if !usable {
        store := null;
      }
    }

    method Refresh(look: Look) returns (usable: bool)
      modifies this
      ensures var r := Refreshed(ts, old(Cached()), look);
        usable == r.Some? && Cached() == if r == None then EMPTY else r.value
    {
      if look.first.File? {
        if Some(look.first.stamp) == stamp {
          return true;
        }
        var content := ContentRead(look.before, look.after, look.torn);
        if look.before.File? && look.after.File? && look.before.stamp == look.after.stamp && content.Some? {
          var data := ValidateRegistry(ts, content.value);
          if data.Some? {
            clients := data.value.rows;
            stamp := Some(look.after.stamp);
            return true;
          }
        }
      }
      clients := [];
      stamp := None;
      return false;
    }

    /** The scan over the clients. */
    method Scan(rows: seq<Dict>, digest: string, required: Option<string>) returns (who: Option<Identity>)
      ensures who == Authenticate(rows, digest, required)
    {
      assert rows[0..] == rows;
      for i := 0 to |rows|
        invariant Authenticate(rows, digest, required) == Authenticate(rows[i..], digest, required)
      {
        assert rows[i..][1..] == rows[i + 1..];
        if DigestOf(rows[i]) == digest {
          if !IsOn(rows[i]) || Revoked(rows[i]) {
            return None;
          }
          if required.Some? && required.value !in ScopesOf(rows[i]) {
            return None;
          }
          return Some(Identity(IdOf(rows[i]), ScopesOf(rows[i])));
        }
      }
      who := None;
    }

    /** `digest` is that of the presented token, or nothing when no well-formed bearer token was presented. */
    method Check(look: Look, digest: Option<string>, required: Option<string>) returns (answer: Answer)
      modifies this
      ensures var r := Refreshed(ts, old(Cached()), look);
        && Cached() == (if r == None then EMPTY else r.value)
        && answer == if r == None then Unavailable else Answered(r.value.clients, digest, required)
    {
      var usable := Refresh(look);
      if !usable {
        return Unavailable;
      }
      if digest == None {
        return Denied;
      }
      var who := Scan(clients, digest.value, required);
      answer := if who == None then Denied else Granted(who.value);
    }
  }

  // ---- The cache agrees with reading the file each time ----

  /** One call on the store: it looks at the path at version `first`, and at
      `before` and `after` around the read if it has to read. */
  datatype Call = Call(first: nat, before: nat, after: nat, torn: Option<Json>, digest: Option<string>,
                       required: Option<string>)

  /** Versions of the path over time; equal fingerprints stand for equal content. */
  ghost predicate Faithful(hist: seq<Disk>) {
    forall i, j | 0 <= i < |hist| && 0 <= j < |hist| && hist[i].File? && hist[j].File?
      && hist[i].stamp == hist[j].stamp ::
      hist[i] == hist[j]
  }

  ghost predicate Placed(hist: seq<Disk>, c: Call) {
    c.first <= c.before <= c.after < |hist|
  }

  function LookOf(hist: seq<Disk>, c: Call): Look
    requires Placed(hist, c)
  {
    Look(hist[c.first], hist[c.before], hist[c.after], c.torn)
  }

  /** The cache after a series of calls on a fresh store. */
  ghost function CacheAfter(ts: Timestamps, hist: seq<Disk>, calls: seq<Call>): Cache
    requires forall c | c in calls :: Placed(hist, c)
  {
    if calls == [] then EMPTY
    else
      var r := Refreshed(ts, CacheAfter(ts, hist, calls[..|calls| - 1]), LookOf(hist, calls[|calls| - 1]));
      if r == None then EMPTY else r.value
  }

  ghost function AnswerTo(ts: Timestamps, cache: Cache, hist: seq<Disk>, c: Call): Answer
    requires Placed(hist, c)
  {
    var r := Refreshed(ts, cache, LookOf(hist, c));
    if r == None then Unavailable else Answered(r.value.clients, c.digest, c.required)
  }

  /** What is cached was read from some version with that fingerprint. */
  ghost predicate CacheOk(ts: Timestamps, hist: seq<Disk>, cache: Cache) {
    cache.stamp.Some? ==>
      exists i :: 0 <= i < |hist| && ReadFile(ts, hist[i], hist[i], None) == Some(cache)
  }

  lemma {:induction false} CacheStaysOk(ts: Timestamps, hist: seq<Disk>, calls: seq<Call>)
    requires Faithful(hist) && forall c | c in calls :: Placed(hist, c)
    ensures CacheOk(ts, hist, CacheAfter(ts, hist, calls))
    decreases |calls|
  {
    hide ValidateRegistry;
    if calls != [] {
      CacheStaysOk(ts, hist, calls[..|calls| - 1]);
      var c := calls[|calls| - 1];
      assert Placed(hist, c);
      var read := ReadFile(ts, hist[c.before], hist[c.after], c.torn);
      if read.Some? {
        assert hist[c.before] == hist[c.after];
        assert ReadFile(ts, hist[c.before], hist[c.before], None) == read;
      }
    }
  }

  /** The cache refines uncached reading: after any calls on any history of the
      file, a call is unavailable or answers exactly as an uncached reading of a
      version that was current while the call ran. */
  lemma CacheRefinesReading(ts: Timestamps, hist: seq<Disk>, calls: seq<Call>, c: Call)
    requires Faithful(hist) && Placed(hist, c) && forall d | d in calls :: Placed(hist, d)
    ensures var answer := AnswerTo(ts, CacheAfter(ts, hist, calls), hist, c);
      answer == Unavailable || exists v | c.first <= v <= c.after ::
        answer == Uncached(ts, hist[v], c.digest, c.required)
  {
    hide ValidateRegistry, Answered;
    CacheStaysOk(ts, hist, calls);
    var cache := CacheAfter(ts, hist, calls);
    var look := LookOf(hist, c);
    if look.first.File? {
      if Some(look.first.stamp) == cache.stamp {
        var i :| 0 <= i < |hist| && ReadFile(ts, hist[i], hist[i], None) == Some(cache);
        assert hist[c.first] == hist[i];
        assert AnswerTo(ts, cache, hist, c) == Uncached(ts, hist[c.first], c.digest, c.required);
      } else if ReadFile(ts, look.before, look.after, look.torn).Some? {
        assert hist[c.before] == hist[c.after];
        assert AnswerTo(ts, cache, hist, c) == Uncached(ts, hist[c.before], c.digest, c.required);
      }
    }
  }

  /** While the file does not change, the store is unavailable only when an uncached reader is. */
  lemma SteadyFileAnswersExactly(ts: Timestamps, hist: seq<Disk>, calls: seq<Call>, c: Call)
    requires Faithful(hist) && Placed(hist, c) && forall d | d in calls :: Placed(hist, d)
    requires forall v | c.first <= v <= c.after :: hist[v] == hist[c.first]
    ensures AnswerTo(ts, CacheAfter(ts, hist, calls), hist, c) == Uncached(ts, hist[c.first], c.digest, c.required)
  {
    hide ValidateRegistry, Answered;
    CacheStaysOk(ts, hist, calls);
    var cache := CacheAfter(ts, hist, calls);
    if hist[c.first].File? && Some(hist[c.first].stamp) == cache.stamp {
      var i :| 0 <= i < |hist| && ReadFile(ts, hist[i], hist[i], None) == Some(cache);
      assert hist[c.first] == hist[i];
    }
  }

  /** A key that every version during the call denies is not granted by the call. */
  lemma DeniedThroughout(ts: Timestamps, hist: seq<Disk>, calls: seq<Call>, c: Call)
    requires Faithful(hist) && Placed(hist, c) && forall d | d in calls :: Placed(hist, d)
    requires forall u | c.first <= u <= c.after :: !Uncached(ts, hist[u], c.digest, c.required).Granted?
    ensures !AnswerTo(ts, CacheAfter(ts, hist, calls), hist, c).Granted?
  {
    hide Uncached, AnswerTo, CacheAfter, Faithful;
    CacheRefinesReading(ts, hist, calls, c);
  }

  // ---- The store over an administered file ----

  /** At every moment the file shows the registry as the commands so far have left it, or it cannot be read. */
  ghost predicate Shows(d: Disk, state: Option<Checked>) {
    d.Absent? || d.content == None || d.content == FileOf(state)
  }

  /** The file shows a registry, version by version, as a log of commands leaves it. */
  ghost predicate ShowsLog(ts: Timestamps, start: Option<Checked>, log: seq<Entered>, hist: seq<Disk>) {
    && |hist| == |log| + 1
    && (forall u | 0 <= u < |hist| :: Shows(hist[u], Serial(ts, start, log[..u])))
  }

  lemma {:induction false} SerialSplits(ts: Timestamps, state: Option<Checked>, first: seq<Entered>, rest: seq<Entered>)
    ensures Serial(ts, state, first + rest) == Serial(ts, Serial(ts, state, first), rest)
    decreases |rest|
  {
    hide Do;
    if rest == [] {
      assert first + rest == first;
    } else {
      assert (first + rest)[..|first + rest| - 1] == first + rest[..|rest| - 1];
      SerialSplits(ts, state, first, rest[..|rest| - 1]);
    }
  }

  /** Revocation reaches every caller: once a version of the file shows a client
      revoked, no later call grants its key anything, whatever commands, calls
      and unreadable moments follow. */
  lemma RevokedTokenIsDenied(ts: Timestamps, start: Option<Checked>, log: seq<Entered>, hist: seq<Disk>,
                             calls: seq<Call>, c: Call, v: nat, id: string)
    requires Kept(ts, start) && !ts("") && ShowsLog(ts, start, log, hist)
    requires Faithful(hist) && Placed(hist, c) && forall d | d in calls :: Placed(hist, d)
    requires v <= c.first
    requires var p := PolicyIn(Serial(ts, start, log[..v]));
      id in p && p[id].revoked && c.digest == Some(p[id].digest)
    ensures !AnswerTo(ts, CacheAfter(ts, hist, calls), hist, c).Granted?
  {
    hide Serial, PolicyIn, Authenticate, Kept, ValidateRegistry, Faithful, CacheAfter, AnswerTo;
    var shown := Serial(ts, start, log[..v]);
    RevocationIsPermanent(ts, start, log[..v], id);
    forall u | v <= u < |hist|
      ensures !Uncached(ts, hist[u], c.digest, c.required).Granted?
    {
      assert log[..u] == log[..v] + log[v..u];
      SerialSplits(ts, start, log[..v], log[v..u]);
      RevokedKeyStaysDead(ts, shown, log[v..u], id, c.required);
      RevocationIsPermanent(ts, shown, log[v..u], id);
      ShownAnswers(ts, hist[u], Serial(ts, start, log[..u]), c.digest, c.required);
    }
    DeniedThroughout(ts, hist, calls, c);
  }

  /** Every cut-off reaches every caller: after a committed disable, revoke or
      rotate of the client that held a key, a later call grants something for
      the key only if a command that reopens it was committed in between. */
  lemma CutOffTokenIsDenied(ts: Timestamps, start: Option<Checked>, log: seq<Entered>, hist: seq<Disk>,
                            calls: seq<Call>, c: Call, v: nat, digest: string)
    requires Kept(ts, start) && !ts("") && ShowsLog(ts, start, log, hist)
    requires Faithful(hist) && Placed(hist, c) && forall d | d in calls :: Placed(hist, d)
    requires 0 < v <= c.first && CutOffAt(ts, start, log, digest, v - 1) && c.digest == Some(digest)
    ensures AnswerTo(ts, CacheAfter(ts, hist, calls), hist, c).Granted?
      ==> ReopenedWithin(ts, start, log, digest, v, c.after)
  {
    hide Serial, PolicyIn, Authenticate, Kept, ValidateRegistry, Faithful, CacheAfter, AnswerTo;
    hide CutOffAt, ReopenedAt, Opens;
    if !ReopenedWithin(ts, start, log, digest, v, c.after) {
      forall u | c.first <= u <= c.after
        ensures !Uncached(ts, hist[u], c.digest, c.required).Granted?
      {
        var state := Serial(ts, start, log[..u]);
        ClosedUntilReopened(ts, start, log, digest, v, u);
        assert !Opens(PolicyIn(state), digest);
        ClosedIsDenied(ts, state.value, digest, c.required);
        ShownAnswers(ts, hist[u], state, c.digest, c.required);
      }
      DeniedThroughout(ts, hist, calls, c);
    }
  }

  lemma ClosedIsDenied(ts: Timestamps, c: Checked, digest: string, required: Option<string>)
    requires Kept(ts, Some(c)) && !Opens(PolicyIn(Some(c)), digest)
    ensures Authenticate(c.rows, digest, required) == None
  {
    hide Authenticate, PolicyOf, RowOk;
    if Authenticate(c.rows, digest, required).Some? {
      AuthenticationIsPolicy(ts, c.rows, digest, required, Authenticate(c.rows, digest, required).value);
    }
  }

  /** What a readable version shows validates to itself, so the answer comes from its rows. */
  lemma ShownAnswers(ts: Timestamps, d: Disk, state: Option<Checked>, digest: Option<string>, required: Option<string>)
    requires Shows(d, state) && Kept(ts, state) && state.Some?
    ensures var answer := Uncached(ts, d, digest, required);
      answer == Unavailable || answer == Answered(state.value.rows, digest, required)
  {
    hide ValidateRegistry, Answered;
    RegistryStable(ts, state.value);
  }
}
