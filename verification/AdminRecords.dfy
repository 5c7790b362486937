/**
 What the administrator's commands leave in the file, field by field: whatever a
 command does not name stays as it was, and what it does is dated.
 */
module AdminRecords {
  import opened Prelude
  import opened Json
  import opened Registry
  import opened Admin
  import opened AdminProofs
  import opened RegistryHistory
  import opened RegistryReading

  /** The digest of the key that a command brings. */
  function KeyText(key: NewKey): string {
    match key
    case GivenDigest(text) => Lower(text)
    case Minted(digest) => digest
  }

  /** The row of a new client: these seven fields and no others. */
  predicate NewRecord(row: Dict, cmd: Command, now: string)
    requires cmd.Create?
  {
    && row.Keys == {"client_id", "token_sha256", "scopes", "enabled", "created_at", "owner", "purpose"}
    && row["client_id"] == Str(cmd.id) && row["token_sha256"] == Str(KeyText(cmd.key))
    && row["enabled"] == Bool(true) && row["created_at"] == Str(now)
    && row["owner"] == Str(cmd.owner) && row["purpose"] == Str(cmd.purpose)
    && ScopesOf(row) == Members(cmd.scopes)
  }

  /** The fields that a command changes in the row of its client. */
  function Touched(cmd: Command): set<string> {
    match cmd
    case Rotate(_, _) => {"token_sha256", "rotated_at", "updated_at"}
    case Disable(_) => {"enabled", "updated_at"}
    case Enable(_) => {"enabled", "updated_at"}
    case Revoke(_) => {"enabled", "revoked_at", "updated_at"}
    case SetScopes(_, _) => {"scopes", "updated_at"}
    case _ => {}
  }

  /** The row of a client after a command for it. */
  predicate EditedRecord(row: Dict, after: Dict, cmd: Command, now: string)
    requires OnRow(cmd)
  {
    && after.Keys == row.Keys + Touched(cmd)
    && (forall key | key in row && key !in Touched(cmd) :: after[key] == row[key])
    && after["updated_at"] == Str(now)
    && (cmd.Rotate? ==> after["token_sha256"] == Str(KeyText(cmd.key)) && after["rotated_at"] == Str(now))
    && (cmd.Disable? ==> after["enabled"] == Bool(false))
    && (cmd.Enable? ==> after["enabled"] == Bool(true))
    && (cmd.Revoke? ==> after["enabled"] == Bool(false) && after["revoked_at"] == Str(now))
    && (cmd.SetScopes? ==> ScopesOf(after) == Members(cmd.scopes))
  }

  lemma NewRowRecord(cmd: Command, now: string)
    requires cmd.Create? && NewRow(cmd, now).Some?
    ensures NewRecord(NewRow(cmd, now).value, cmd, now)
  {
    ScopesGiven(cmd.scopes);
    StringsOfArrayed(ValidateScopes(Arrayed(cmd.scopes)).value);
    hide ValidateScopes, GoodScopes, Members;
  }

  lemma EditRowRecord(row: Dict, cmd: Command, now: string)
    requires OnRow(cmd) && EditRow(row, cmd, now).Some?
    ensures EditedRecord(row, EditRow(row, cmd, now).value, cmd, now)
  {
    if cmd.SetScopes? {
      ScopesGiven(cmd.scopes);
      StringsOfArrayed(ValidateScopes(Arrayed(cmd.scopes)).value);
    }
    hide ValidateScopes, GoodScopes, Members, HashMatches, Lower;
  }

  /**
   What a committed command writes. Its head says that it is one revision on, and
   when; `create` appends the record of the client it names; every other command
   edits the record of its client, in its place; and all other records stay.
   */
  lemma CommandRecords(ts: Timestamps, c: Checked, cmd: Command, out: Outside) returns (k: int)
    requires Administered(ts, c) && !ts("") && Mutate(ts, Some(ToJson(c)), cmd, out).Committed?
    ensures var after := Mutate(ts, Some(ToJson(c)), cmd, out).data;
      && after.head == c.head["revision" := Num(Revision(c) + 1)]["updated_at" := Str(out.now)]
      && (if cmd.Create?
          then
            && k == |c.rows| && |after.rows| == k + 1 && after.rows[..k] == c.rows
            && NewRecord(after.rows[k], cmd, out.now)
          else
            && OnRow(cmd) && 0 <= k < |c.rows| && IdOf(c.rows[k]) == cmd.id
            && |after.rows| == |c.rows| && after.rows == c.rows[k := after.rows[k]]
            && EditedRecord(c.rows[k], after.rows[k], cmd, out.now))
  {
    hide ValidateRegistry, RowOk, Commit, EditRow, NewRow, NewRecord, EditedRecord, Admissible, DigestFor, IdOf;
    RegistryStable(ts, c);
    EditedCommits(ts, c, cmd, out);
    if cmd.Create? {
      k := |c.rows|;
      NewRowRecord(cmd, out.now);
    } else {
      k := RowIndex(c.rows, cmd.id);
      EditRowRecord(c.rows[k], cmd, out.now);
    }
  }

  // ---- Which files a command works on ----

  /** All commands but the two that make a registry need one: a file that can be read and is of version 2. */
  lemma OnlyVersionTwo(ts: Timestamps, file: Option<Json>, cmd: Command, out: Outside)
    requires !cmd.Init? && !cmd.Migrate? && Mutate(ts, file, cmd, out) != Refused
    ensures file.Some? && RegistryInOrder(ts, file.value) && file.value.fields["version"] == Num(2)
  {
    hide ValidateRegistry, EditRows, Commit, AllInOrder, AllDiffer, RowTaken, RowInOrder;
    if file.Some? {
      RegistryReads(ts, file.value);
    }
  }

  /** Listing changes nothing and is refused only where there is nothing to administer. */
  lemma ListAnswers(ts: Timestamps, file: Option<Json>, out: Outside)
    ensures Mutate(ts, file, List, out) == Listed
      <==> file.Some? && RegistryInOrder(ts, file.value) && file.value.fields["version"] == Num(2)
    ensures FileAfter(file, Mutate(ts, file, List, out)) == file
  {
    hide ValidateRegistry, EditRows, Commit, AllInOrder, AllDiffer, RowTaken, RowInOrder;
    if file.Some? {
      RegistryReads(ts, file.value);
    }
  }

  /** Neither an empty registry nor a migrated one is ever written over a file. */
  lemma NoOverwriting(ts: Timestamps, file: Option<Json>, cmd: Command, out: Outside)
    requires (cmd.Init? || cmd.Migrate?) && Mutate(ts, file, cmd, out) != Refused
    ensures file == None
  {
  }

  /** `init` makes an empty registry, exactly if there is none and the outside cooperates. */
  lemma InitMakesAnEmptyRegistry(ts: Timestamps, out: Outside)
    ensures var r := Mutate(ts, None, Init, out);
      && (r.Committed? <==> out.fits && out.writes && Timestamp(ts, Str(out.now)))
      && (r.Committed? ==>
            && r.data.rows == []
            && r.data.head == map["version" := Num(2), "revision" := Num(1), "updated_at" := Str(out.now)])
  {
    hide ValidateRegistry, Commit;
    BirthCommits(ts, Init, out, []);
  }

  // ---- What migration writes ----

  /** The row after migration: its scopes may be more, it has a date of creation, and all else is as it was. */
  predicate MigratedRecord(row: Dict, after: Dict, now: string) {
    && after.Keys == row.Keys + {"created_at"}
    && (forall key | key in row && key != "scopes" :: after[key] == row[key])
    && ("created_at" !in row ==> after["created_at"] == Str(now))
    && ScopesOf(after) == Widened(Identity("", ScopesOf(row))).scopes
  }

  lemma MigrateRowRecord(ts: Timestamps, row: Dict, now: string)
    requires RowOk(ts, row)
    ensures MigratedRecord(row, MigrateRow(row, now), now)
  {
    MigrateRowKeeps(ts, row, now);
    assert EntryOf(MigrateRow(row, now)).scopes == MigratedEntry(EntryOf(row)).scopes;
    hide ValidateScopes, InOrder, Arrayed, TimeOk, TextOk, IdMatches, HashMatches, ScopesOf, Canonical;
  }

  /** A migrated registry has the rows of its source, one by one, under a head of version 2 and revision 1. */
  lemma MigrationRecords(ts: Timestamps, source: Json, out: Outside)
    requires Mutate(ts, None, Migrate(Some(source)), out).Committed?
    ensures ValidateRegistry(ts, source).Some?
    ensures var before, after := ValidateRegistry(ts, source).value, Mutate(ts, None, Migrate(Some(source)), out).data;
      && after.head == map["version" := Num(2), "revision" := Num(1), "updated_at" := Str(out.now)]
      && |after.rows| == |before.rows|
      && forall i | 0 <= i < |before.rows| :: MigratedRecord(before.rows[i], after.rows[i], out.now)
  {
    hide ValidateRegistry, RowOk, Canonical, PolicyOf, MigratedPolicy, Commit, MigrateRow, MigratedRecord, TimeOk;
    var before := ValidateRegistry(ts, source).value;
    RegistryValidated(ts, source);
    MigrateRowsKeep(ts, before.rows, out.now);
    BirthCommits(ts, Migrate(Some(source)), out, MigrateRows(before.rows, out.now));
    forall i | 0 <= i < |before.rows|
      ensures MigratedRecord(before.rows[i], MigrateRows(before.rows, out.now)[i], out.now)
    {
      MigrateRowRecord(ts, before.rows[i], out.now);
    }
  }
}
