/**
 The registry administrator: every command works under the registry lock on what
 it reads from the file and commits by replacing the file.
 */
module Admin {
  import opened Prelude
  import opened Json
  import opened Registry

  /** A SHA-256 digest in hexadecimal, as the program itself writes it. */
  type Digest = s: string | HashMatches(s) && Lower(s) == s witness seq(64, _ => '0')

  /** Either a digest given by the caller, or that of a key minted on the spot. */
  datatype NewKey = GivenDigest(text: string) | Minted(digest: Digest)

  datatype Command =
    | Init
    | Migrate(source: Option<Json>)
    | List
    | Create(id: string, key: NewKey, scopes: seq<string>, owner: string, purpose: string)
    | Rotate(id: string, key: NewKey)
    | Disable(id: string)
    | Enable(id: string)
    | Revoke(id: string)
    | SetScopes(id: string, scopes: seq<string>)

  /** What the command finds outside: the time, whether the encoding stays
      within the size limit, whether a minted key can be delivered, and whether
      the file can be replaced. */
  datatype Outside = Outside(now: string, fits: bool, delivers: bool, writes: bool)

  datatype Result = Refused | Listed | Committed(data: Checked)

  /** A digest to register: 64 hex digits, lower-cased. */
  function DigestFor(key: NewKey): Option<Digest> {
    match key
    case GivenDigest(text) =>
      if HashMatches(text) then
        LowerStable(text);
        Some(Lower(text))
      else None
    case Minted(digest) => Some(digest)
  }

  function RowIndex(rows: seq<Dict>, id: string): (k: int)
    ensures -1 <= k < |rows|
    ensures k >= 0 ==> IdOf(rows[k]) == id && forall i | 0 <= i < k :: IdOf(rows[i]) != id
    ensures k < 0 ==> forall i | 0 <= i < |rows| :: IdOf(rows[i]) != id
  {
    if rows == [] then -1
    else if IdOf(rows[0]) == id then 0
    else
      var k := RowIndex(rows[1..], id);
      if k < 0 then -1 else k + 1
  }

  predicate DigestTaken(rows: seq<Dict>, digest: string) {
    exists i :: 0 <= i < |rows| && DigestOf(rows[i]) == digest
  }

  /** The commands that change one existing row. */
  predicate OnRow(cmd: Command) {
    cmd.Rotate? || cmd.Disable? || cmd.Enable? || cmd.Revoke? || cmd.SetScopes?
  }

  predicate NeedsKey(cmd: Command) {
    cmd.Create? || cmd.Rotate?
  }

  function EditRow(row: Dict, cmd: Command, now: string): Option<Dict>
    requires OnRow(cmd)
  {
    match cmd
    case Rotate(_, key) =>
      if DigestFor(key) == None then None
      else Some(row["token_sha256" := Str(DigestFor(key).value)]["rotated_at" := Str(now)]["updated_at" := Str(now)])
    case Disable(_) => Some(row["enabled" := Bool(false)]["updated_at" := Str(now)])
    case Enable(_) => Some(row["enabled" := Bool(true)]["updated_at" := Str(now)])
    case Revoke(_) => Some(row["enabled" := Bool(false)]["revoked_at" := Str(now)]["updated_at" := Str(now)])
    case SetScopes(_, scopes) =>
      var checked := ValidateScopes(Arrayed(scopes));
      if checked == None then None else Some(row["scopes" := Arrayed(checked.value)]["updated_at" := Str(now)])
  }

  /** The row that `create` appends. */
  function NewRow(cmd: Command, now: string): Option<Dict>
    requires cmd.Create?
  {
    var checked := ValidateScopes(Arrayed(cmd.scopes));
    if DigestFor(cmd.key) == None || !IdMatches(cmd.id) || checked == None then None
    else
      Some(map["client_id" := Str(cmd.id), "token_sha256" := Str(DigestFor(cmd.key).value),
               "scopes" := Arrayed(checked.value), "enabled" := Bool(true), "created_at" := Str(now),
               "owner" := Str(cmd.owner), "purpose" := Str(cmd.purpose)])
  }

  /** The rows after a command on the rows, or nothing if it is refused. */
  function EditRows(rows: seq<Dict>, cmd: Command, now: string): Option<seq<Dict>> {
    if NeedsKey(cmd) && (DigestFor(cmd.key) == None || DigestTaken(rows, DigestFor(cmd.key).value)) then None
    else if cmd.Create? then
      var row := NewRow(cmd, now);
      if row == None || RowIndex(rows, cmd.id) >= 0 then None else Some(rows + [row.value])
    else if OnRow(cmd) then
      var k := RowIndex(rows, cmd.id);
      if k < 0 || (Revoked(rows[k]) && !cmd.Revoke?) then None
      else
        var row := EditRow(rows[k], cmd, now);
        if row == None then None else Some(rows[k := row.value])
    else None
  }

  /** Migration of one row: transport-only rows get every capability. */
  function MigrateRow(row: Dict, now: string): Dict {
    var scopes := ScopesOf(row);
    var r :=
      if scopes * CAPABILITIES == {} then row["scopes" := Arrayed(InOrder(scopes + CAPABILITIES, SCOPE_ORDER))]
      else row;
    if "created_at" in r then r else r["created_at" := Str(now)]
  }

  function MigrateRows(rows: seq<Dict>, now: string): (r: seq<Dict>)
    ensures |r| == |rows| && forall i | 0 <= i < |rows| :: r[i] == MigrateRow(rows[i], now)
  {
    seq(|rows|, i requires 0 <= i < |rows| => MigrateRow(rows[i], now))
  }

  function FreshHead(): Dict {
    map["version" := Num(2), "revision" := Num(0)]
  }

  /** The registry a command starts from, given what the file holds. */
  function Loaded(ts: Timestamps, file: Option<Json>, cmd: Command, now: string): (r: Option<Checked>)
    ensures r.Some? ==> Get(r.value.head, "revision").Num?
  {
    match cmd
    case Init => if file.Some? then None else Some(Checked(FreshHead(), []))
    case Migrate(source) =>
      if file.Some? || source == None then None
      else
        var legacy := ValidateRegistry(ts, source.value);
        if legacy == None || legacy.value.head["version"] != Num(1) then None
        else Some(Checked(FreshHead(), MigrateRows(legacy.value.rows, now)))
    case _ =>
      if file == None then None
      else
        var data := ValidateRegistry(ts, file.value);
        if data == None || data.value.head["version"] != Num(2) then None else data
  }

  function Stamped(head: Dict, now: string): Dict
    requires Get(head, "revision").Num?
  {
    head["revision" := Num(head["revision"].n + 1)]["updated_at" := Str(now)]
  }

  /** Validation before anything is written, key delivery, and replacement of the file. */
  function Commit(ts: Timestamps, c: Checked, cmd: Command, out: Outside): Result {
    var encoded := ValidateRegistry(ts, ToJson(c));
    var minted := NeedsKey(cmd) && cmd.key.Minted?;
    if encoded == None || !out.fits || (minted && !out.delivers) || !out.writes then Refused
    else Committed(encoded.value)
  }

  function Mutate(ts: Timestamps, file: Option<Json>, cmd: Command, out: Outside): Result {
    var loaded := Loaded(ts, file, cmd, out.now);
    if loaded == None then Refused
    else if cmd.List? then Listed
    else
      var rows :=
        if cmd.Init? || cmd.Migrate? then Some(loaded.value.rows)
        else EditRows(loaded.value.rows, cmd, out.now);
      if rows == None then Refused
      else Commit(ts, Checked(Stamped(loaded.value.head, out.now), rows.value), cmd, out)
  }

  /** The file after a command. */
  function FileAfter(file: Option<Json>, r: Result): Option<Json> {
    if r.Committed? then Some(ToJson(r.data)) else file
  }

  // ---- The administrator as it is written: it edits its data in place, then replaces the file ----

  class RegistryFile {
    const ts: Timestamps
    var content: Option<Json>

    constructor (ts: Timestamps, content: Option<Json>)
      ensures this.ts == ts && this.content == content
    {
      this.ts, this.content := ts, content;
    }

    /** The loop over the legacy rows. */
    method MigrateEach(rows: seq<Dict>, now: string) returns (migrated: seq<Dict>)
      ensures migrated == MigrateRows(rows, now)
    {
      hide MigrateRow;
      migrated := rows;
      for i := 0 to |rows|
        invariant |migrated| == |rows|
        invariant forall j | 0 <= j < |rows| :: migrated[j] == if j < i then MigrateRow(rows[j], now) else rows[j]
      {
        migrated := migrated[i := MigrateRow(migrated[i], now)];
      }
    }

    method Load(cmd: Command, now: string) returns (data: Option<Checked>)
      ensures data == Loaded(ts, content, cmd, now)
    {
      match cmd
      case Init => data := if content.Some? then None else Some(Checked(FreshHead(), []));
      case Migrate(source) =>
        if content.Some? || source == None {
          return None;
        }
        var legacy := ValidateRegistry(ts, source.value);
        if legacy == None || legacy.value.head["version"] != Num(1) {
          return None;
        }
        var rows := MigrateEach(legacy.value.rows, now);
        data := Some(Checked(FreshHead(), rows));
      case _ =>
        if content == None {
          return None;
        }
        data := ValidateRegistry(ts, content.value);
        if data.Some? && data.value.head["version"] != Num(2) {
          data := None;
        }
    }

    method Run(cmd: Command, out: Outside) returns (result: Result)
      modifies this
      ensures result == Mutate(ts, old(content), cmd, out)
      ensures content == FileAfter(old(content), result)
    {
      hide EditRows, Loaded, ValidateRegistry, Commit;
      var data := Load(cmd, out.now);
      if data == None {
        return Refused;
      }
      if cmd.List? {
        return Listed;
      }
      var rows := data.value.rows;
      if !cmd.Init? && !cmd.Migrate? {
        var edited := EditRows(rows, cmd, out.now);
        if edited == None {
          return Refused;
        }
        rows := edited.value;
      }
      var head := Stamped(data.value.head, out.now);
      result := Commit(ts, Checked(head, rows), cmd, out);
      if result.Committed? {
        content := Some(ToJson(result.data));
      }
    }
  }
}
