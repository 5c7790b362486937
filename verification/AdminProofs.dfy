/**
 What a command does to who may do what. A policy forgets the file format: it
 maps each client id to its key, its scopes and its status.
 */
module AdminProofs {
  import opened Prelude
  import opened Json
  import opened Registry
  import opened Admin

  datatype Entry = Entry(digest: string, scopes: set<string>, on: bool, revoked: bool)

  type Policy = map<string, Entry>

  function EntryOf(row: Dict): Entry {
    Entry(DigestOf(row), ScopesOf(row), IsOn(row), Revoked(row))
  }

  function Ids(rows: seq<Dict>): set<string> {
    set i | 0 <= i < |rows| :: IdOf(rows[i])
  }

  function PolicyOf(rows: seq<Dict>): Policy {
    map id | id in Ids(rows) :: EntryOf(rows[RowIndex(rows, id)])
  }

  predicate KeyTaken(p: Policy, digest: string) {
    exists id :: id in p && p[id].digest == digest
  }

  /** What a command does to the entry of its client. */
  function StepEntry(e: Entry, cmd: Command): Option<Entry>
    requires OnRow(cmd)
  {
    match cmd
    case Rotate(_, key) => if DigestFor(key) == None then None else Some(e.(digest := DigestFor(key).value))
    case Disable(_) => Some(e.(on := false))
    case Enable(_) => Some(e.(on := true))
    case Revoke(_) => Some(e.(on := false, revoked := true))
    case SetScopes(_, scopes) => if GoodScopes(scopes) then Some(e.(scopes := Members(scopes))) else None
  }

  predicate GoodScopes(scopes: seq<string>) {
    Distinct(scopes) && ScopesAllowed(Members(scopes))
  }

  /** What a command does to the policy; a command it does not allow has no result. */
  function Step(p: Policy, cmd: Command): Option<Policy> {
    if NeedsKey(cmd) && (DigestFor(cmd.key) == None || KeyTaken(p, DigestFor(cmd.key).value)) then None
    else if cmd.Create? then
      if cmd.id in p || !IdMatches(cmd.id) || !GoodScopes(cmd.scopes) then None
      else Some(p[cmd.id := Entry(DigestFor(cmd.key).value, Members(cmd.scopes), true, false)])
    else if OnRow(cmd) then
      if cmd.id !in p || (p[cmd.id].revoked && !cmd.Revoke?) then None
      else
        var e := StepEntry(p[cmd.id], cmd);
        if e == None then None else Some(p[cmd.id := e.value])
    else None
  }

  /** Who a key stands for under a policy. */
  ghost predicate Grants(p: Policy, digest: string, who: Identity) {
    who.clientId in p && p[who.clientId] == Entry(digest, who.scopes, true, false)
  }

  // ---- Rows and the policy ----

  lemma PolicyAt(rows: seq<Dict>, k: nat)
    requires k < |rows|
    requires forall i, j | 0 <= i < j < |rows| :: IdOf(rows[i]) != IdOf(rows[j])
    ensures RowIndex(rows, IdOf(rows[k])) == k
    ensures IdOf(rows[k]) in PolicyOf(rows) && PolicyOf(rows)[IdOf(rows[k])] == EntryOf(rows[k])
  {
    var r := RowIndex(rows, IdOf(rows[k]));
    assert r == k;
    assert IdOf(rows[k]) in Ids(rows);
  }

  /** The policy at an id is the entry of the first row with that id. */
  lemma PolicyLookup(rows: seq<Dict>, id: string)
    ensures id in PolicyOf(rows) <==> RowIndex(rows, id) >= 0
    ensures RowIndex(rows, id) >= 0 ==> PolicyOf(rows)[id] == EntryOf(rows[RowIndex(rows, id)])
  {
    hide IdOf, EntryOf, RowIndex;
    var k := RowIndex(rows, id);
    if k >= 0 {
      assert IdOf(rows[k]) in Ids(rows);
    }
  }

  lemma SameIndex(rows: seq<Dict>, after: seq<Dict>, id: string)
    requires |after| >= |rows| && forall i | 0 <= i < |rows| :: IdOf(after[i]) == IdOf(rows[i])
    requires RowIndex(rows, id) >= 0 || |after| == |rows|
    ensures RowIndex(after, id) == RowIndex(rows, id)
  {
    hide IdOf, RowIndex;
    var a, b := RowIndex(rows, id), RowIndex(after, id);
    if a >= 0 {
      assert IdOf(after[a]) == id;
    }
  }

  lemma SamePolicy(p: Policy, q: Policy)
    requires forall id :: (id in p <==> id in q) && (id in p ==> p[id] == q[id])
    ensures p == q
  {
  }

  lemma PolicyReplaced(rows: seq<Dict>, after: seq<Dict>, k: nat)
    requires |after| == |rows| && forall i | 0 <= i < |rows| :: IdOf(after[i]) == IdOf(rows[i])
    requires k < |rows| && forall i | 0 <= i < |rows| && i != k :: after[i] == rows[i]
    requires forall i, j | 0 <= i < j < |rows| :: IdOf(rows[i]) != IdOf(rows[j])
    ensures PolicyOf(after) == PolicyOf(rows)[IdOf(rows[k]) := EntryOf(after[k])]
  {
    hide EntryOf, IdOf, RowIndex, PolicyOf, Ids;
    PolicyAt(rows, k);
    var p, q := PolicyOf(after), PolicyOf(rows)[IdOf(rows[k]) := EntryOf(after[k])];
    forall id
      ensures (id in p <==> id in q) && (id in p ==> p[id] == q[id])
    {
      PolicyLookup(rows, id);
      PolicyLookup(after, id);
      SameIndex(rows, after, id);
    }
    SamePolicy(p, q);
  }

  lemma PolicyUpdated(rows: seq<Dict>, k: nat, row: Dict)
    requires k < |rows| && IdOf(row) == IdOf(rows[k])
    requires forall i, j | 0 <= i < j < |rows| :: IdOf(rows[i]) != IdOf(rows[j])
    ensures PolicyOf(rows[k := row]) == PolicyOf(rows)[IdOf(row) := EntryOf(row)]
  {
    hide EntryOf, IdOf, RowIndex, PolicyOf;
    PolicyReplaced(rows, rows[k := row], k);
  }

  lemma IndexExtended(rows: seq<Dict>, row: Dict, id: string)
    requires RowIndex(rows, IdOf(row)) < 0
    ensures RowIndex(rows + [row], id) == if id == IdOf(row) then |rows| else RowIndex(rows, id)
  {
    hide IdOf, RowIndex;
    var after := rows + [row];
    assert after[|rows|] == row;
    assert forall i | 0 <= i < |rows| :: after[i] == rows[i];
    var k := RowIndex(after, id);
    if RowIndex(rows, id) >= 0 {
      SameIndex(rows, after, id);
    } else if k >= 0 {
      assert IdOf(after[k]) == id;
    }
  }

  lemma PolicyExtended(rows: seq<Dict>, row: Dict)
    requires RowIndex(rows, IdOf(row)) < 0
    ensures PolicyOf(rows + [row]) == PolicyOf(rows)[IdOf(row) := EntryOf(row)]
  {
    hide EntryOf, IdOf, RowIndex, PolicyOf, Ids;
    var p, q := PolicyOf(rows + [row]), PolicyOf(rows)[IdOf(row) := EntryOf(row)];
    forall id
      ensures (id in p <==> id in q) && (id in p ==> p[id] == q[id])
    {
      PolicyLookup(rows, id);
      PolicyLookup(rows + [row], id);
      IndexExtended(rows, row, id);
    }
    SamePolicy(p, q);
  }

  lemma TakenAgrees(rows: seq<Dict>, digest: string)
    requires forall i, j | 0 <= i < j < |rows| :: IdOf(rows[i]) != IdOf(rows[j])
    ensures KeyTaken(PolicyOf(rows), digest) == DigestTaken(rows, digest)
  {
    if DigestTaken(rows, digest) {
      var i :| 0 <= i < |rows| && DigestOf(rows[i]) == digest;
      PolicyAt(rows, i);
    }
    if KeyTaken(PolicyOf(rows), digest) {
      var id :| id in PolicyOf(rows) && PolicyOf(rows)[id].digest == digest;
      assert DigestOf(rows[RowIndex(rows, id)]) == digest;
    }
  }

  /** Authentication reads nothing but the policy. */
  lemma AuthenticationIsPolicy(ts: Timestamps, rows: seq<Dict>, digest: string, required: Option<string>, who: Identity)
    requires RowsOk(ts, rows)
    ensures Authenticate(rows, digest, required) == Some(who)
      <==> Grants(PolicyOf(rows), digest, who) && (required == None || required.value in who.scopes)
  {
    hide RowOk;
    var p := PolicyOf(rows);
    if k :| 0 <= k < |rows| && DigestOf(rows[k]) == digest {
      AuthenticateFinds(rows, digest, required, k);
      PolicyAt(rows, k);
      if Grants(p, digest, who) {
        var j := RowIndex(rows, who.clientId);
        assert DigestOf(rows[j]) == digest;
        assert j == k;
      }
    } else {
      AuthenticateMisses(rows, digest, required);
      if Grants(p, digest, who) {
        var j := RowIndex(rows, who.clientId);
        assert false;
      }
    }
  }

  // ---- A command on rows is a step of the policy ----

  lemma ScopesGiven(scopes: seq<string>)
    ensures ValidateScopes(Arrayed(scopes)).Some? <==> GoodScopes(scopes)
    ensures GoodScopes(scopes) ==> var ss := ValidateScopes(Arrayed(scopes)).value;
        && Members(ss) == Members(scopes) && ValidateScopes(Arrayed(ss)) == Some(ss)
  {
    StringsOfArrayed(scopes);
    if GoodScopes(scopes) {
      ScopesStable(Arrayed(scopes));
    }
  }

  lemma EditRowSteps(row: Dict, cmd: Command, now: string)
    requires OnRow(cmd) && now != ""
    ensures EditRow(row, cmd, now).Some? <==> StepEntry(EntryOf(row), cmd).Some?
    ensures EditRow(row, cmd, now).Some? ==> var r := EditRow(row, cmd, now).value;
        IdOf(r) == IdOf(row) && StepEntry(EntryOf(row), cmd) == Some(EntryOf(r))
  {
    hide ValidateScopes, GoodScopes;
    if cmd.SetScopes? {
      ScopesGiven(cmd.scopes);
      if GoodScopes(cmd.scopes) {
        StringsOfArrayed(ValidateScopes(Arrayed(cmd.scopes)).value);
      }
    }
  }

  lemma NewRowSteps(cmd: Command, now: string)
    requires cmd.Create?
    ensures NewRow(cmd, now).Some? <==> DigestFor(cmd.key).Some? && IdMatches(cmd.id) && GoodScopes(cmd.scopes)
    ensures NewRow(cmd, now).Some? ==> var r := NewRow(cmd, now).value;
        IdOf(r) == cmd.id && EntryOf(r) == Entry(DigestFor(cmd.key).value, Members(cmd.scopes), true, false)
  {
    hide ValidateScopes, GoodScopes;
    ScopesGiven(cmd.scopes);
    if GoodScopes(cmd.scopes) {
      StringsOfArrayed(ValidateScopes(Arrayed(cmd.scopes)).value);
    }
  }

  /** Editing the rows and stepping the policy allow the same commands, with the same outcome. */
  lemma EditRowsSteps(ts: Timestamps, rows: seq<Dict>, cmd: Command, now: string)
    requires RowsOk(ts, rows) && now != ""
    ensures EditRows(rows, cmd, now).Some? <==> Step(PolicyOf(rows), cmd).Some?
    ensures EditRows(rows, cmd, now).Some? ==>
      Step(PolicyOf(rows), cmd) == Some(PolicyOf(EditRows(rows, cmd, now).value))
  {
    hide RowOk, PolicyOf, DigestFor, EditRow, NewRow, StepEntry, IdMatches, GoodScopes, EntryOf, IdOf, RowIndex;
    hide KeyTaken, DigestTaken, Revoked;
    if NeedsKey(cmd) && DigestFor(cmd.key).Some? {
      TakenAgrees(rows, DigestFor(cmd.key).value);
    }
    if cmd.Create? {
      PolicyLookup(rows, cmd.id);
      NewRowSteps(cmd, now);
      if NewRow(cmd, now).Some? && RowIndex(rows, cmd.id) < 0 {
        PolicyExtended(rows, NewRow(cmd, now).value);
      }
    } else if OnRow(cmd) {
      PolicyLookup(rows, cmd.id);
      var k := RowIndex(rows, cmd.id);
      if k >= 0 {
        PolicyAt(rows, k);
        EntryFlags(rows[k]);
        EditRowSteps(rows[k], cmd, now);
        if EditRow(rows[k], cmd, now).Some? {
          PolicyUpdated(rows, k, EditRow(rows[k], cmd, now).value);
        }
      }
    }
  }

  lemma EntryFlags(row: Dict)
    ensures EntryOf(row).revoked == Revoked(row)
  {
  }

  // ---- What is written is what was built ----

  /** Nothing for validation to normalise: the digest is in lower case, the scopes are sorted. */
  predicate Canonical(row: Dict) {
    && {"client_id", "token_sha256", "enabled", "scopes"} <= row.Keys
    && row["token_sha256"].Str? && Lower(row["token_sha256"].s) == row["token_sha256"].s
    && ValidateScopes(row["scopes"]).Some? && Arrayed(ValidateScopes(row["scopes"]).value) == row["scopes"]
  }

  lemma CanonicalRowStays(ts: Timestamps, version: int, row: Dict)
    requires Canonical(row) && ValidateRow(ts, version, Obj(row)).Some?
    ensures ValidateRow(ts, version, Obj(row)) == Some(row)
  {
    hide ValidateScopes, IdMatches, HashMatches, Lower, TimeOk, TextOk, Arrayed;
    var r := row["client_id" := row["client_id"]]["token_sha256" := Str(Lower(row["token_sha256"].s))]
                ["enabled" := row["enabled"]]["scopes" := Arrayed(ValidateScopes(row["scopes"]).value)];
    assert r == row;
  }

  lemma {:induction false} CanonicalRowsStay(ts: Timestamps, version: int, rows: seq<Dict>,
                                             ids: set<string>, digests: set<string>)
    requires forall i | 0 <= i < |rows| :: Canonical(rows[i])
    requires ValidateRows(ts, version, Objects(rows), ids, digests).Some?
    ensures ValidateRows(ts, version, Objects(rows), ids, digests) == Some(rows)
    decreases |rows|
  {
    hide Canonical, ValidateRow, IdOf, DigestOf;
    if rows != [] {
      var js := Objects(rows);
      assert js[0] == Obj(rows[0]) && js[1..] == Objects(rows[1..]);
      assert [rows[0]] + rows[1..] == rows;
      CanonicalRowStays(ts, version, rows[0]);
      CanonicalRowsStay(ts, version, rows[1..], ids + {IdOf(rows[0])}, digests + {DigestOf(rows[0])});
    }
  }

  /** A commit writes exactly the registry it was given, and that registry is in order. */
  lemma CommitWritesWhatItBuilt(ts: Timestamps, c: Checked, cmd: Command, out: Outside)
    requires Commit(ts, c, cmd, out).Committed?
    requires c.head.Keys <= REGISTRY_FIELDS - {"clients"} && Get(c.head, "revision").Num?
    requires forall i | 0 <= i < |c.rows| :: Canonical(c.rows[i])
    ensures Commit(ts, c, cmd, out).data == c && CheckedOk(ts, c)
  {
    hide Canonical, ValidateRow, RowOk, ValidateRows, TimeOk;
    RegistryValidated(ts, ToJson(c));
    CanonicalRowsStay(ts, ToJson(c).fields["version"].n, c.rows, {}, {});
    var d := ToJson(c).fields;
    assert d["revision" := d["revision"]] - {"clients"} == c.head;
  }

  lemma RowIsCanonical(ts: Timestamps, row: Dict)
    requires RowOk(ts, row)
    ensures Canonical(row)
  {
  }

  lemma EditRowCanonical(row: Dict, cmd: Command, now: string)
    requires OnRow(cmd) && Canonical(row) && EditRow(row, cmd, now).Some?
    ensures Canonical(EditRow(row, cmd, now).value)
  {
    hide ValidateScopes, Lower;
    if cmd.SetScopes? {
      ScopesGiven(cmd.scopes);
    }
    if cmd.Rotate? {
      var digest: Digest := DigestFor(cmd.key).value;
    }
  }

  lemma NewRowCanonical(cmd: Command, now: string)
    requires cmd.Create? && NewRow(cmd, now).Some?
    ensures Canonical(NewRow(cmd, now).value)
  {
    hide ValidateScopes, Lower;
    ScopesGiven(cmd.scopes);
    var digest: Digest := DigestFor(cmd.key).value;
  }

  lemma EditRowsCanonical(ts: Timestamps, rows: seq<Dict>, cmd: Command, now: string)
    requires RowsOk(ts, rows) && EditRows(rows, cmd, now).Some?
    ensures forall row | row in EditRows(rows, cmd, now).value :: Canonical(row)
  {
    hide RowOk, EditRow, NewRow, Canonical, RowIndex, DigestFor, IdOf, DigestOf, Revoked;
    forall i | 0 <= i < |rows| ensures Canonical(rows[i]) {
      RowIsCanonical(ts, rows[i]);
    }
    if cmd.Create? {
      NewRowCanonical(cmd, now);
    } else {
      EditRowCanonical(rows[RowIndex(rows, cmd.id)], cmd, now);
    }
  }

  // ---- Which edits keep a registry in order ----

  lemma EditRowOk(ts: Timestamps, row: Dict, cmd: Command, now: string)
    requires OnRow(cmd) && RowOk(ts, row) && (Revoked(row) ==> cmd.Revoke?)
    requires EditRow(row, cmd, now).Some? && TimeOk(ts, Str(now))
    ensures RowOk(ts, EditRow(row, cmd, now).value)
  {
    hide ValidateScopes, ScopesAllowed, Lower, TimeOk, TextOk, IdMatches, HashMatches, Arrayed, Members, Distinct;
    if cmd.SetScopes? {
      ScopesGiven(cmd.scopes);
    }
    if cmd.Rotate? {
      var digest: Digest := DigestFor(cmd.key).value;
    }
  }

  /** A fresh row is in order exactly when its time and its two texts are. */
  lemma NewRowOk(ts: Timestamps, cmd: Command, now: string)
    requires cmd.Create? && NewRow(cmd, now).Some?
    ensures RowOk(ts, NewRow(cmd, now).value)
      <==> TimeOk(ts, Str(now)) && TextOk(Str(cmd.owner)) && TextOk(Str(cmd.purpose))
  {
    hide ValidateScopes, Lower, TimeOk, TextOk, IdMatches, HashMatches;
    ScopesGiven(cmd.scopes);
    var row := NewRow(cmd, now).value;
    var digest: Digest := DigestFor(cmd.key).value;
    assert "created_at" in TIME_FIELDS && "created_at" in row;
  }

  lemma EditRowsOk(ts: Timestamps, rows: seq<Dict>, cmd: Command, now: string)
    requires RowsOk(ts, rows) && EditRows(rows, cmd, now).Some? && TimeOk(ts, Str(now)) && now != ""
    requires cmd.Create? ==> TextOk(Str(cmd.owner)) && TextOk(Str(cmd.purpose))
    ensures RowsOk(ts, EditRows(rows, cmd, now).value)
  {
    hide RowOk, EditRow, NewRow, RowIndex, IdOf, TimeOk, TextOk, EntryOf;
    if cmd.Create? {
      NewRowOk(ts, cmd, now);
      NewRowSteps(cmd, now);
      NewRowDigest(cmd, now);
    } else {
      var k := RowIndex(rows, cmd.id);
      EditRowOk(ts, rows[k], cmd, now);
      EditRowSteps(rows[k], cmd, now);
      EditRowDigest(rows[k], cmd, now);
    }
  }

  lemma NewRowDigest(cmd: Command, now: string)
    requires cmd.Create? && NewRow(cmd, now).Some?
    ensures DigestOf(NewRow(cmd, now).value) == DigestFor(cmd.key).value
  {
  }

  lemma EditRowDigest(row: Dict, cmd: Command, now: string)
    requires OnRow(cmd) && EditRow(row, cmd, now).Some?
    ensures DigestOf(EditRow(row, cmd, now).value) == if cmd.Rotate? then DigestFor(cmd.key).value else DigestOf(row)
  {
    hide ValidateScopes;
  }

  /** What a command needs besides being allowed: the outside must cooperate and its texts be well formed. */
  predicate Admissible(ts: Timestamps, clients: nat, cmd: Command, out: Outside) {
    && out.fits && out.writes && TimeOk(ts, Str(out.now))
    && (NeedsKey(cmd) && cmd.key.Minted? ==> out.delivers)
    && (cmd.Create? ==> clients < MAX_CLIENTS && TextOk(Str(cmd.owner)) && TextOk(Str(cmd.purpose)))
  }

  /** A registry under administration. */
  ghost predicate Administered(ts: Timestamps, c: Checked) {
    CheckedOk(ts, c) && c.head["version"] == Num(2)
  }

  function Revision(c: Checked): int
    requires Get(c.head, "revision").Num?
  {
    c.head["revision"].n
  }

  lemma EditedCommits(ts: Timestamps, c: Checked, cmd: Command, out: Outside)
    requires Administered(ts, c) && !ts("")
    requires EditRows(c.rows, cmd, out.now).Some?
    ensures var built := Checked(Stamped(c.head, out.now), EditRows(c.rows, cmd, out.now).value);
      var r := Commit(ts, built, cmd, out);
      && (r.Committed? <==> Admissible(ts, |c.rows|, cmd, out))
      && (r.Committed? ==> r.data == built && Administered(ts, built) && Revision(built) == Revision(c) + 1)
  {
    hide RowOk, Canonical, ValidateRegistry, EditRow, NewRow, TextOk, RowIndex;
    var rows := EditRows(c.rows, cmd, out.now).value;
    var built := Checked(Stamped(c.head, out.now), rows);
    EditRowsCanonical(ts, c.rows, cmd, out.now);
    assert |rows| == |c.rows| + (if cmd.Create? then 1 else 0);
    if Commit(ts, built, cmd, out).Committed? {
      CommitWritesWhatItBuilt(ts, built, cmd, out);
      if cmd.Create? {
        assert RowOk(ts, rows[|c.rows|]);
        NewRowOk(ts, cmd, out.now);
      }
    }
    if Admissible(ts, |c.rows|, cmd, out) {
      EditRowsOk(ts, c.rows, cmd, out.now);
      RegistryStable(ts, built);
    }
  }

  /** The main theorem: a command on an administered registry commits exactly
      when the policy allows it and the outside cooperates. A commit raises the
      revision by one, leaves the registry in order, and steps the policy. */
  lemma CommandIsStep(ts: Timestamps, c: Checked, cmd: Command, out: Outside)
    requires Administered(ts, c) && !ts("")
    ensures var r := Mutate(ts, Some(ToJson(c)), cmd, out);
      && (r.Committed? <==> Step(PolicyOf(c.rows), cmd).Some? && Admissible(ts, |c.rows|, cmd, out))
      && (r.Committed? ==>
          && Administered(ts, r.data) && Revision(r.data) == Revision(c) + 1
          && Step(PolicyOf(c.rows), cmd) == Some(PolicyOf(r.data.rows)))
  {
    hide ValidateRegistry, RowOk, PolicyOf, EditRows, Step, Commit, Admissible;
    RegistryStable(ts, c);
    NoStep(PolicyOf(c.rows), cmd, ts, |c.rows|, out);
    if EditRows(c.rows, cmd, out.now).Some? {
      EditedCommits(ts, c, cmd, out);
    }
    if out.now != "" {
      EditRowsSteps(ts, c.rows, cmd, out.now);
    }
  }

  lemma NoStep(p: Policy, cmd: Command, ts: Timestamps, clients: nat, out: Outside)
    requires !ts("")
    ensures cmd.Init? || cmd.Migrate? || cmd.List? ==> Step(p, cmd) == None
    ensures out.now == "" ==> !Admissible(ts, clients, cmd, out)
  {
  }
}
