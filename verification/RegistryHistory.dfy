/**
 Histories of the registry: its birth, what any later commands can and cannot
 undo, and processes that interleave under the lock.
 */
module RegistryHistory {
  import opened Prelude
  import opened Json
  import opened Registry
  import opened Admin
  import opened AdminProofs

  // ---- Birth: an empty registry, or one migrated from version 1 ----

  function MigratedEntry(e: Entry): Entry {
    if e.scopes * CAPABILITIES == {} then e.(scopes := e.scopes + CAPABILITIES) else e
  }

  lemma StillAllowed(scopes: set<string>)
    requires ScopesAllowed(scopes)
    ensures ScopesAllowed(scopes + CAPABILITIES)
  {
    assert "gateway" !in CAPABILITIES && "mcp" !in CAPABILITIES;
    assert scopes * TRANSPORTS <= (scopes + CAPABILITIES) * TRANSPORTS;
  }

  lemma SortedScopes(scopes: set<string>)
    requires ScopesAllowed(scopes)
    ensures var ss := InOrder(scopes, SCOPE_ORDER);
      Members(ss) == scopes && ValidateScopes(Arrayed(ss)) == Some(ss)
  {
    OrderIsComplete();
    InOrderMembers(scopes, SCOPE_ORDER);
    assert scopes * SCOPES == scopes;
    hide ScopesAllowed, InOrder;
    StringsOfArrayed(InOrder(scopes, SCOPE_ORDER));
  }

  lemma MigrateRowKeeps(ts: Timestamps, row: Dict, now: string)
    requires RowOk(ts, row)
    ensures var r := MigrateRow(row, now);
      && Canonical(r) && IdOf(r) == IdOf(row) && EntryOf(r) == MigratedEntry(EntryOf(row))
      && (TimeOk(ts, Str(now)) ==> RowOk(ts, r))
  {
    hide ValidateScopes, ScopesAllowed, Lower, TimeOk, TextOk, IdMatches, HashMatches, InOrder;
    StoredScopes(ts, row);
    StillAllowed(ScopesOf(row));
    SortedScopes(ScopesOf(row) + CAPABILITIES);
    StringsOfArrayed(InOrder(ScopesOf(row) + CAPABILITIES, SCOPE_ORDER));
  }

  lemma StoredScopes(ts: Timestamps, row: Dict)
    requires RowOk(ts, row)
    ensures ScopesAllowed(ScopesOf(row))
  {
    ScopesStable(row["scopes"]);
  }

  function MigratedPolicy(p: Policy): Policy {
    map id | id in p :: MigratedEntry(p[id])
  }

  lemma MigratedAll(rows: seq<Dict>, r: seq<Dict>)
    requires |r| == |rows|
    requires forall i | 0 <= i < |rows| ::
      IdOf(r[i]) == IdOf(rows[i]) && EntryOf(r[i]) == MigratedEntry(EntryOf(rows[i]))
    ensures PolicyOf(r) == MigratedPolicy(PolicyOf(rows))
  {
    hide EntryOf, IdOf, RowIndex, PolicyOf, Ids, MigratedEntry;
    var p, q := PolicyOf(r), MigratedPolicy(PolicyOf(rows));
    forall id
      ensures (id in p <==> id in q) && (id in p ==> p[id] == q[id])
    {
      PolicyLookup(rows, id);
      PolicyLookup(r, id);
      SameIndex(rows, r, id);
    }
    SamePolicy(p, q);
  }

  lemma MigrateRowsKeep(ts: Timestamps, rows: seq<Dict>, now: string)
    requires RowsOk(ts, rows)
    ensures var r := MigrateRows(rows, now);
      && (forall i | 0 <= i < |r| :: Canonical(r[i]))
      && PolicyOf(r) == MigratedPolicy(PolicyOf(rows))
      && (TimeOk(ts, Str(now)) ==> RowsOk(ts, r))
  {
    hide RowOk, Canonical, MigrateRow, EntryOf, IdOf, DigestOf, RowIndex, TimeOk, MigratedEntry;
    hide PolicyOf, MigratedPolicy;
    var r := MigrateRows(rows, now);
    forall i | 0 <= i < |rows|
      ensures Canonical(r[i]) && IdOf(r[i]) == IdOf(rows[i]) && EntryOf(r[i]) == MigratedEntry(EntryOf(rows[i]))
      ensures DigestOf(r[i]) == DigestOf(rows[i])
      ensures TimeOk(ts, Str(now)) ==> RowOk(ts, r[i])
    {
      MigrateRowKeeps(ts, rows[i], now);
      SameDigest(r[i], rows[i]);
    }
    MigratedAll(rows, r);
  }

  lemma SameDigest(r: Dict, row: Dict)
    requires EntryOf(r) == MigratedEntry(EntryOf(row))
    ensures DigestOf(r) == DigestOf(row)
  {
  }

  /** Registries are born at revision 1, from nothing or from version 1. */
  lemma BirthCommits(ts: Timestamps, cmd: Command, out: Outside, rows: seq<Dict>)
    requires !NeedsKey(cmd) && |rows| <= MAX_CLIENTS && forall i | 0 <= i < |rows| :: Canonical(rows[i])
    requires TimeOk(ts, Str(out.now)) ==> RowsOk(ts, rows)
    ensures var built := Checked(Stamped(FreshHead(), out.now), rows);
      var r := Commit(ts, built, cmd, out);
      && (r.Committed? <==> out.fits && out.writes && TimeOk(ts, Str(out.now)))
      && (r.Committed? ==> r.data == built && Administered(ts, built) && Revision(built) == 1)
  {
    hide RowOk, Canonical, ValidateRegistry, RowsOk;
    var built := Checked(Stamped(FreshHead(), out.now), rows);
    if Commit(ts, built, cmd, out).Committed? {
      CommitWritesWhatItBuilt(ts, built, cmd, out);
    }
    if out.fits && out.writes && TimeOk(ts, Str(out.now)) {
      RegistryStable(ts, built);
    }
  }

  /** Migration commits exactly when the outside cooperates, and gives every
      client the entry it had, with all capabilities if it named none. */
  lemma MigrationCommits(ts: Timestamps, source: Json, out: Outside)
    requires ValidateRegistry(ts, source).Some? && ValidateRegistry(ts, source).value.head["version"] == Num(1)
    ensures var legacy := ValidateRegistry(ts, source).value;
      var r := Mutate(ts, None, Migrate(Some(source)), out);
      && (r.Committed? <==> out.fits && out.writes && TimeOk(ts, Str(out.now)))
      && (r.Committed? ==>
          && Administered(ts, r.data) && Revision(r.data) == 1
          && PolicyOf(r.data.rows) == MigratedPolicy(PolicyOf(legacy.rows)))
  {
    hide ValidateRegistry, RowOk, Canonical, PolicyOf, MigratedPolicy, Commit, TimeOk, MigrateRow;
    var legacy := ValidateRegistry(ts, source).value;
    RegistryValidated(ts, source);
    MigrateRowsKeep(ts, legacy.rows, out.now);
    BirthCommits(ts, Migrate(Some(source)), out, MigrateRows(legacy.rows, out.now));
  }

  /** A key stands for the same client before and after migration; a client with
      capabilities of its own keeps exactly its scopes. */
  lemma MigrationPreservesAccess(ts: Timestamps, legacy: seq<Dict>, rows: seq<Dict>, digest: string)
    requires RowsOk(ts, legacy) && RowsOk(ts, rows) && PolicyOf(rows) == MigratedPolicy(PolicyOf(legacy))
    ensures match Authenticate(legacy, digest, None)
      case None => Authenticate(rows, digest, None) == None
      case Some(who) => Authenticate(rows, digest, None) == Some(Identity(who.clientId,
          if who.scopes * CAPABILITIES == {} then who.scopes + CAPABILITIES else who.scopes))
  {
    hide Authenticate, PolicyOf, RowOk;
    match Authenticate(legacy, digest, None) {
      case Some(who) =>
        AuthenticationIsPolicy(ts, legacy, digest, None, who);
        var e := MigratedEntry(PolicyOf(legacy)[who.clientId]);
        AuthenticationIsPolicy(ts, rows, digest, None, Identity(who.clientId, e.scopes));
      case None =>
        match Authenticate(rows, digest, None) {
          case None =>
          case Some(who) =>
            AuthenticationIsPolicy(ts, rows, digest, None, who);
            var e := PolicyOf(legacy)[who.clientId];
            AuthenticationIsPolicy(ts, legacy, digest, None, Identity(who.clientId, e.scopes));
        }
    }
  }

  // ---- Serial histories ----

  type Entered = (Command, Outside)

  function FileOf(state: Option<Checked>): Option<Json> {
    if state == None then None else Some(ToJson(state.value))
  }

  function Do(ts: Timestamps, state: Option<Checked>, e: Entered): Option<Checked> {
    var r := Mutate(ts, FileOf(state), e.0, e.1);
    if r.Committed? then Some(r.data) else state
  }

  predicate Commits(ts: Timestamps, state: Option<Checked>, e: Entered) {
    Mutate(ts, FileOf(state), e.0, e.1).Committed?
  }

  /** Commands one after the other; the last one entered is the last element. */
  function Serial(ts: Timestamps, state: Option<Checked>, log: seq<Entered>): Option<Checked> {
    if log == [] then state else Do(ts, Serial(ts, state, log[..|log| - 1]), log[|log| - 1])
  }

  /** No registry yet, or one under administration. */
  ghost predicate Kept(ts: Timestamps, state: Option<Checked>) {
    state.Some? ==> Administered(ts, state.value)
  }

  function RevisionOf(state: Option<Checked>): int
    requires state.Some? ==> Get(state.value.head, "revision").Num?
  {
    if state == None then 0 else Revision(state.value)
  }

  function PolicyIn(state: Option<Checked>): Policy {
    if state == None then map[] else PolicyOf(state.value.rows)
  }

  lemma BirthIsKept(ts: Timestamps, e: Entered)
    requires Commits(ts, None, e)
    ensures Kept(ts, Do(ts, None, e)) && RevisionOf(Do(ts, None, e)) == 1
  {
    hide ValidateRegistry, RowOk, Commit, TimeOk;
    if e.0.Init? {
      BirthCommits(ts, e.0, e.1, []);
    } else {
      MigrationCommits(ts, e.0.source.value, e.1);
    }
  }

  /** Every committed command raises the revision by one and keeps the registry
      in order; every other command leaves the file alone. */
  lemma DoKeeps(ts: Timestamps, state: Option<Checked>, e: Entered)
    requires Kept(ts, state) && !ts("")
    ensures Kept(ts, Do(ts, state, e)) && (state.Some? ==> Do(ts, state, e).Some?)
    ensures RevisionOf(Do(ts, state, e)) == RevisionOf(state) + if Commits(ts, state, e) then 1 else 0
    ensures !Commits(ts, state, e) ==> Do(ts, state, e) == state
    ensures state.Some? && Commits(ts, state, e) ==> Step(PolicyIn(state), e.0) == Some(PolicyIn(Do(ts, state, e)))
  {
    hide Mutate, PolicyOf, Step, CheckedOk;
    if state == None {
      if Commits(ts, state, e) {
        BirthIsKept(ts, e);
      }
    } else {
      CommandIsStep(ts, state.value, e.0, e.1);
    }
  }

  /** No step removes a client, and none touches the entry of a revoked one. */
  lemma StepIsMonotone(p: Policy, cmd: Command, id: string)
    requires Step(p, cmd).Some? && id in p
    ensures id in Step(p, cmd).value
    ensures p[id].revoked && !p[id].on ==> Step(p, cmd).value[id] == p[id]
  {
  }

  lemma RevokedIsOff(ts: Timestamps, rows: seq<Dict>, id: string)
    requires RowsOk(ts, rows) && id in PolicyOf(rows) && PolicyOf(rows)[id].revoked
    ensures !PolicyOf(rows)[id].on
  {
  }

  /** Revocation is permanent: whatever commands follow, the client stays in the
      file with the same key, the same scopes and the same status. */
  lemma {:induction false} RevocationIsPermanent(ts: Timestamps, state: Option<Checked>, log: seq<Entered>, id: string)
    requires Kept(ts, state) && !ts("")
    ensures Kept(ts, Serial(ts, state, log))
    ensures id in PolicyIn(state) ==> id in PolicyIn(Serial(ts, state, log))
    ensures id in PolicyIn(state) && PolicyIn(state)[id].revoked
      ==> PolicyIn(Serial(ts, state, log))[id] == PolicyIn(state)[id]
    decreases |log|
  {
    hide Do, Commits, PolicyOf, Step, RowOk;
    if log != [] {
      var before := Serial(ts, state, log[..|log| - 1]);
      RevocationIsPermanent(ts, state, log[..|log| - 1], id);
      DoKeeps(ts, before, log[|log| - 1]);
      if before.Some? && Commits(ts, before, log[|log| - 1]) && id in PolicyIn(before) {
        StepIsMonotone(PolicyIn(before), log[|log| - 1].0, id);
        if PolicyIn(before)[id].revoked {
          RevokedIsOff(ts, before.value.rows, id);
        }
      }
    }
  }

  /** A key that belongs to a client that is off or revoked opens nothing. */
  lemma KeyIsDead(ts: Timestamps, rows: seq<Dict>, id: string, required: Option<string>)
    requires RowsOk(ts, rows) && id in PolicyOf(rows) && (!PolicyOf(rows)[id].on || PolicyOf(rows)[id].revoked)
    ensures Authenticate(rows, PolicyOf(rows)[id].digest, required) == None
  {
    var k := RowIndex(rows, id);
    AuthenticateFinds(rows, DigestOf(rows[k]), required, k);
  }

  lemma UnknownKey(ts: Timestamps, rows: seq<Dict>, digest: string, required: Option<string>)
    requires RowsOk(ts, rows) && !KeyTaken(PolicyOf(rows), digest)
    ensures Authenticate(rows, digest, required) == None
  {
    hide RowOk;
    TakenAgrees(rows, digest);
    AuthenticateMisses(rows, digest, required);
  }

  /** After a revocation the old key is refused in every later registry, and no
      other client can ever be given it. */
  lemma RevokedKeyStaysDead(ts: Timestamps, state: Option<Checked>, log: seq<Entered>, id: string,
                            required: Option<string>)
    requires Kept(ts, state) && !ts("") && id in PolicyIn(state) && PolicyIn(state)[id].revoked
    ensures var later := Serial(ts, state, log);
      && later.Some? && Authenticate(later.value.rows, PolicyIn(state)[id].digest, required) == None
      && (forall other | other in PolicyIn(later) && other != id ::
            PolicyIn(later)[other].digest != PolicyIn(state)[id].digest)
  {
    hide Serial, RowsOk, Authenticate, PolicyOf;
    RevocationIsPermanent(ts, state, log, id);
    var later := Serial(ts, state, log).value;
    KeyIsDead(ts, later.rows, id, required);
    forall other | other in PolicyOf(later.rows) && other != id
      ensures PolicyOf(later.rows)[other].digest != PolicyIn(state)[id].digest
    {
      KeysAreDistinct(ts, later.rows, other, id);
    }
  }

  /** What a committed command changes for the bearer of a key: disabling,
      revoking and rotating cut off the client's key at once, and the keys the
      command does not name open exactly what they opened before. */
  lemma CommandCutsOff(ts: Timestamps, c: Checked, cmd: Command, out: Outside, digest: string, required: Option<string>)
    requires Administered(ts, c) && !ts("")
    requires Mutate(ts, Some(ToJson(c)), cmd, out).Committed?
    ensures var rows := Mutate(ts, Some(ToJson(c)), cmd, out).data.rows;
      var p := PolicyOf(c.rows);
      var own := OnRow(cmd) && cmd.id in p && p[cmd.id].digest == digest;
      && (own && (cmd.Disable? || cmd.Revoke? || cmd.Rotate?) ==> Authenticate(rows, digest, required) == None)
      && (!own && !(NeedsKey(cmd) && DigestFor(cmd.key) == Some(digest))
          ==> Authenticate(rows, digest, required) == Authenticate(c.rows, digest, required))
  {
    hide Mutate, RowOk, PolicyOf, Authenticate;
    CommandIsStep(ts, c, cmd, out);
    var rows := Mutate(ts, Some(ToJson(c)), cmd, out).data.rows;
    var p, q := PolicyOf(c.rows), PolicyOf(rows);
    if OnRow(cmd) && cmd.id in p && p[cmd.id].digest == digest {
      if cmd.Disable? || cmd.Revoke? {
        KeyIsDead(ts, rows, cmd.id, required);
      } else if cmd.Rotate? {
        RotatedAway(ts, c.rows, cmd);
        UnknownKey(ts, rows, digest, required);
      }
    } else if !(NeedsKey(cmd) && DigestFor(cmd.key) == Some(digest)) {
      forall who
        ensures Grants(p, digest, who) <==> Grants(q, digest, who)
      {
      }
      SameAnswer(ts, c.rows, rows, digest, required);
    }
  }

  lemma RotatedAway(ts: Timestamps, rows: seq<Dict>, cmd: Command)
    requires RowsOk(ts, rows) && cmd.Rotate? && Step(PolicyOf(rows), cmd).Some?
    ensures !KeyTaken(Step(PolicyOf(rows), cmd).value, PolicyOf(rows)[cmd.id].digest)
  {
    hide RowOk, DigestFor;
    var p := PolicyOf(rows);
    forall other | other in p && other != cmd.id
      ensures p[other].digest != p[cmd.id].digest
    {
      assert RowIndex(rows, other) != RowIndex(rows, cmd.id);
    }
  }

  lemma SameAnswer(ts: Timestamps, before: seq<Dict>, after: seq<Dict>, digest: string, required: Option<string>)
    requires RowsOk(ts, before) && RowsOk(ts, after)
    requires forall who :: Grants(PolicyOf(before), digest, who) <==> Grants(PolicyOf(after), digest, who)
    ensures Authenticate(after, digest, required) == Authenticate(before, digest, required)
  {
    hide RowsOk, Grants, Authenticate;
    var a, b := Authenticate(before, digest, required), Authenticate(after, digest, required);
    if a.Some? {
      AuthenticationIsPolicy(ts, before, digest, required, a.value);
      AuthenticationIsPolicy(ts, after, digest, required, a.value);
    }
    if b.Some? {
      AuthenticationIsPolicy(ts, before, digest, required, b.value);
      AuthenticationIsPolicy(ts, after, digest, required, b.value);
    }
  }

  // ---- Closed keys, and the only way to open them again ----

  /** Some client can be reached with the key. */
  predicate Opens(p: Policy, digest: string) {
    exists id :: id in p && p[id].digest == digest && p[id].on && !p[id].revoked
  }

  /** The command hands the key to a client that is on, or switches its client on. */
  predicate Reopens(cmd: Command, p: Policy, digest: string) {
    || (cmd.Create? && DigestFor(cmd.key) == Some(digest))
    || (cmd.Rotate? && DigestFor(cmd.key) == Some(digest) && cmd.id in p && p[cmd.id].on)
    || (cmd.Enable? && cmd.id in p && p[cmd.id].digest == digest)
  }

  /** A command that is allowed opens a closed key if and only if it reopens it. */
  lemma StepOpens(p: Policy, cmd: Command, digest: string)
    requires Step(p, cmd).Some? && !Opens(p, digest)
    ensures Opens(Step(p, cmd).value, digest) <==> Reopens(cmd, p, digest)
  {
    hide DigestFor, KeyTaken, IdMatches, GoodScopes;
    var q := Step(p, cmd).value;
    forall id | id in q && id != cmd.id
      ensures id in p && q[id] == p[id]
    {
    }
    if Reopens(cmd, p, digest) {
      assert cmd.id in q && q[cmd.id].digest == digest && q[cmd.id].on && !q[cmd.id].revoked;
    }
  }

  lemma KeysAreDistinct(ts: Timestamps, rows: seq<Dict>, a: string, b: string)
    requires RowsOk(ts, rows) && a in PolicyOf(rows) && b in PolicyOf(rows) && a != b
    ensures PolicyOf(rows)[a].digest != PolicyOf(rows)[b].digest
  {
    hide RowOk;
    var i, j := RowIndex(rows, a), RowIndex(rows, b);
    assert i != j;
  }

  predicate CutsOff(cmd: Command, p: Policy, digest: string) {
    (cmd.Disable? || cmd.Revoke? || cmd.Rotate?) && cmd.id in p && p[cmd.id].digest == digest
  }

  lemma CutOffCloses(ts: Timestamps, rows: seq<Dict>, cmd: Command, digest: string)
    requires RowsOk(ts, rows) && CutsOff(cmd, PolicyOf(rows), digest) && Step(PolicyOf(rows), cmd).Some?
    ensures !Opens(Step(PolicyOf(rows), cmd).value, digest)
  {
    hide RowOk, DigestFor, PolicyOf;
    var p := PolicyOf(rows);
    forall id | id in p && id != cmd.id
      ensures p[id].digest != digest
    {
      KeysAreDistinct(ts, rows, id, cmd.id);
    }
  }

  /** Among the entries from `v` to `w` some committed command reopened the key. */
  ghost predicate ReopenedWithin(ts: Timestamps, start: Option<Checked>, log: seq<Entered>, digest: string, v: nat,
                                 w: nat)
    requires v <= w <= |log|
  {
    exists u :: v <= u < w && ReopenedAt(ts, start, log, digest, u)
  }

  predicate ReopenedAt(ts: Timestamps, start: Option<Checked>, log: seq<Entered>, digest: string, u: nat)
    requires u < |log|
  {
    var state := Serial(ts, start, log[..u]);
    Commits(ts, state, log[u]) && Reopens(log[u].0, PolicyIn(state), digest)
  }

  /** A committed command cut the key off its client. */
  predicate CutOffAt(ts: Timestamps, start: Option<Checked>, log: seq<Entered>, digest: string, u: nat)
    requires u < |log|
  {
    var state := Serial(ts, start, log[..u]);
    Commits(ts, state, log[u]) && CutsOff(log[u].0, PolicyIn(state), digest)
  }

  lemma SerialNext(ts: Timestamps, start: Option<Checked>, log: seq<Entered>, u: nat)
    requires u < |log|
    ensures Serial(ts, start, log[..u + 1]) == Do(ts, Serial(ts, start, log[..u]), log[u])
  {
    hide Do;
    assert log[..u + 1][..u] == log[..u];
  }

  /** After a committed disable, revoke or rotate the client's key stays closed
      until a committed command reopens it; nothing else opens it again. */
  lemma {:induction false} ClosedUntilReopened(ts: Timestamps, start: Option<Checked>, log: seq<Entered>,
                                               digest: string, v: nat, w: nat)
    requires Kept(ts, start) && !ts("") && 0 < v <= w <= |log| && CutOffAt(ts, start, log, digest, v - 1)
    ensures Kept(ts, Serial(ts, start, log[..w])) && Serial(ts, start, log[..w]).Some?
    ensures Opens(PolicyIn(Serial(ts, start, log[..w])), digest) ==> ReopenedWithin(ts, start, log, digest, v, w)
    decreases w - v
  {
    hide Serial, Do, Commits, PolicyOf, Step, Opens, Reopens, RowsOk;
    var before, e := Serial(ts, start, log[..w - 1]), log[w - 1];
    SerialNext(ts, start, log, w - 1);
    if v == w {
      RevocationIsPermanent(ts, start, log[..w - 1], "");
      DoKeeps(ts, before, e);
      CutOffCloses(ts, before.value.rows, e.0, digest);
    } else {
      ClosedUntilReopened(ts, start, log, digest, v, w - 1);
      DoKeeps(ts, before, e);
      if Opens(PolicyIn(Do(ts, before, e)), digest) {
        if Opens(PolicyIn(before), digest) {
          var u :| v <= u < w - 1 && ReopenedAt(ts, start, log, digest, u);
        } else {
          StepOpens(PolicyIn(before), e.0, digest);
          assert ReopenedAt(ts, start, log, digest, w - 1);
        }
      }
    }
  }
}
