/**
 What validation takes from a registry file, told field by field from the file
 as it was parsed, and who may do what according to that file.
 */
module RegistryReading {
  import opened Prelude
  import opened Json
  import opened Registry
  import opened Admin
  import opened AdminProofs
  import opened RegistryHistory
  import S = TokenStore

  // ---- A file that is in order ----

  /** Up to 64 letters, digits, dots, underscores and hyphens, beginning with a letter or a digit; no capitals. */
  predicate ClientId(s: string) {
    && 1 <= |s| <= 64
    && (forall i | 0 <= i < |s| :: 'a' <= s[i] <= 'z' || '0' <= s[i] <= '9' || (i > 0 && s[i] in "._-"))
  }

  /** 64 hexadecimal digits. */
  predicate HexDigest(s: string) {
    |s| == 64 && forall i | 0 <= i < |s| :: s[i] in "0123456789abcdefABCDEF"
  }

  const KNOWN_SCOPES: set<string> := {"llm", "embeddings", "reranker", "ocr", "stt", "tts", "gateway", "mcp"}

  /** Different known scopes; some transport is required, and mcp goes through the gateway: so always the gateway. */
  predicate ScopeList(j: Json) {
    && j.Arr? && AllStrings(j.items)
    && var ss := Strings(j.items);
       Distinct(ss) && (forall s | s in ss :: s in KNOWN_SCOPES) && "gateway" in ss
  }

  predicate Timestamp(ts: Timestamps, j: Json) {
    j.Str? && |j.s| <= 64 && ts(j.s)
  }

  predicate Note(j: Json) {
    j.Str? && |j.s| <= 512 && forall c | c in j.s :: c >= ' '
  }

  /** The client is on: it says so, or it says nothing and the file is of version 1. */
  predicate SaysOn(version: int, raw: Dict) {
    if "enabled" in raw then raw["enabled"] == Bool(true) else version == 1
  }

  /** It carries the time at which it was revoked. */
  predicate SaysRevoked(raw: Dict) {
    "revoked_at" in raw && raw["revoked_at"] != Str("")
  }

  /** A row that can be read. */
  predicate RowInOrder(ts: Timestamps, version: int, raw: Json) {
    && raw.Obj?
    && var r := raw.fields;
       && r.Keys <= {"client_id", "token_sha256", "scopes", "enabled", "created_at", "updated_at", "rotated_at",
                     "revoked_at", "owner", "purpose"}
       && {"client_id", "token_sha256", "scopes"} <= r.Keys
       && r["client_id"].Str? && ClientId(r["client_id"].s)
       && r["token_sha256"].Str? && HexDigest(r["token_sha256"].s)
       && ScopeList(r["scopes"])
       && (if "enabled" in r then r["enabled"].Bool? else version == 1)
       && ("created_at" in r ==> Timestamp(ts, r["created_at"]))
       && ("updated_at" in r ==> Timestamp(ts, r["updated_at"]))
       && ("rotated_at" in r ==> Timestamp(ts, r["rotated_at"]))
       && ("revoked_at" in r ==> Timestamp(ts, r["revoked_at"]))
       && !(SaysOn(version, r) && SaysRevoked(r))
       && ("owner" in r ==> Note(r["owner"])) && ("purpose" in r ==> Note(r["purpose"]))
  }

  /** The earlier of two words in a dictionary. */
  predicate Before(a: string, b: string) {
    b != "" && (a == "" || a[0] < b[0] || (a[0] == b[0] && Before(a[1..], b[1..])))
  }

  predicate Ascending(ss: seq<string>) {
    forall i, j | 0 <= i < j < |ss| :: Before(ss[i], ss[j])
  }

  /** What becomes of a row: the digest in small letters, the scopes in alphabetical
      order, `enabled` written out, and everything else as it was. */
  predicate RowTaken(version: int, raw: Dict, row: Dict)
    requires {"client_id", "token_sha256", "scopes"} <= raw.Keys && raw["token_sha256"].Str? && ScopeList(raw["scopes"])
  {
    && row.Keys == raw.Keys + {"enabled"}
    && (forall key | key in raw && key !in {"token_sha256", "scopes", "enabled"} :: row[key] == raw[key])
    && row["token_sha256"] == Str(Lower(raw["token_sha256"].s))
    && row["enabled"] == Bool(SaysOn(version, raw))
    && row["scopes"].Arr? && AllStrings(row["scopes"].items)
    && Ascending(Strings(row["scopes"].items))
    && Members(Strings(row["scopes"].items)) == Members(Strings(raw["scopes"].items))
  }

  // ---- Validation of one row ----

  lemma IdsAgree(s: string)
    ensures IdMatches(s) <==> ClientId(s)
  {
  }

  lemma DigestsAgree(s: string)
    ensures HashMatches(s) <==> HexDigest(s)
  {
    assert forall c: char :: HexChar(c) <==> c in "0123456789abcdefABCDEF" by {
      forall c: char ensures HexChar(c) <==> c in "0123456789abcdefABCDEF" {
        HexDigits(c);
      }
    }
  }

  lemma HexDigits(c: char)
    ensures HexChar(c) <==> c in "0123456789abcdefABCDEF"
  {
    var digits := "0123456789abcdefABCDEF";
    assert digits[0] == '0' && digits[1] == '1' && digits[2] == '2' && digits[3] == '3' && digits[4] == '4';
    assert digits[5] == '5' && digits[6] == '6' && digits[7] == '7' && digits[8] == '8' && digits[9] == '9';
    assert digits[10] == 'a' && digits[11] == 'b' && digits[12] == 'c' && digits[13] == 'd' && digits[14] == 'e';
    assert digits[15] == 'f' && digits[16] == 'A' && digits[17] == 'B' && digits[18] == 'C' && digits[19] == 'D';
    assert digits[20] == 'E' && digits[21] == 'F';
  }

  /** What a hexadecimal digit counts; small and capital letters count the same. */
  function HexValue(c: char): int {
    if '0' <= c <= '9' then c as int - '0' as int
    else if 'a' <= c <= 'f' then c as int - 'a' as int + 10
    else if 'A' <= c <= 'F' then c as int - 'A' as int + 10
    else -1
  }

  /** A digest is kept in small letters, and stays the same number: two texts have
      the same key exactly if they are the same digest in whatever letters. */
  lemma SmallLetters(s: string, other: string)
    requires HexDigest(s) && HexDigest(other)
    ensures |Lower(s)| == |s| && forall i | 0 <= i < |s| ::
      (('0' <= Lower(s)[i] <= '9') || ('a' <= Lower(s)[i] <= 'f')) && HexValue(Lower(s)[i]) == HexValue(s[i])
    ensures Lower(s) == Lower(other) <==> forall i | 0 <= i < |s| :: HexValue(s[i]) == HexValue(other[i])
  {
    DigestsAgree(s);
    DigestsAgree(other);
    assert forall c: char, d: char | HexChar(c) && HexChar(d) ::
        LowerChar(c) == LowerChar(d) <==> HexValue(c) == HexValue(d);
    hide HexDigest, HexValue, LowerChar, HexChar;
    if forall i | 0 <= i < |s| :: HexValue(s[i]) == HexValue(other[i]) {
      assert forall i | 0 <= i < |s| :: Lower(s)[i] == Lower(other)[i];
    } else {
      var i :| 0 <= i < |s| && HexValue(s[i]) != HexValue(other[i]);
      assert Lower(s)[i] != Lower(other)[i];
    }
  }

  lemma ScopesAgree(j: Json)
    ensures ValidateScopes(j).Some? <==> ScopeList(j)
  {
    if j.Arr? && AllStrings(j.items) {
      var ss := Strings(j.items);
      assert SCOPES == KNOWN_SCOPES;
      assert Members(ss) <= SCOPES <==> forall s | s in ss :: s in KNOWN_SCOPES;
      assert ScopesAllowed(Members(ss)) && ("mcp" in ss || "gateway" in ss) ==> "gateway" in ss;
      assert "gateway" in ss ==> "gateway" in Members(ss) * TRANSPORTS;
    }
  }

  lemma {:induction false} InOrderAscends(scopes: set<string>, order: seq<string>)
    requires Ascending(order)
    ensures Ascending(InOrder(scopes, order)) && forall s | s in InOrder(scopes, order) :: s in order
  {
    hide Before;
    if order != [] {
      assert forall i | 0 <= i < |order| - 1 :: order[1..][i] == order[i + 1];
      InOrderAscends(scopes, order[1..]);
      var rest := InOrder(scopes, order[1..]);
      forall i | 0 <= i < |rest| ensures Before(order[0], rest[i]) {
        assert rest[i] in order[1..];
      }
    }
  }

  lemma OrderAscends()
    ensures Ascending(SCOPE_ORDER)
  {
  }

  lemma ScopesTaken(j: Json)
    requires ScopeList(j)
    ensures var ss := ValidateScopes(j);
      && ss.Some? && Ascending(ss.value) && Members(ss.value) == Members(Strings(j.items))
      && AllStrings(Arrayed(ss.value).items) && Strings(Arrayed(ss.value).items) == ss.value
  {
    ScopesAgree(j);
    ScopesStable(j);
    OrderAscends();
    InOrderAscends(Members(Strings(j.items)), SCOPE_ORDER);
    StringsOfArrayed(ValidateScopes(j).value);
  }

  lemma NotesAgree(j: Json)
    ensures TextOk(j) <==> Note(j)
  {
    if j.Str? {
      assert forall i | 0 <= i < |j.s| :: j.s[i] in j.s;
    }
  }

  lemma TimesAgree(ts: Timestamps, row: Dict)
    ensures (forall f | f in TIME_FIELDS && f in row :: TimeOk(ts, row[f]))
      <==> && ("created_at" in row ==> Timestamp(ts, row["created_at"]))
           && ("updated_at" in row ==> Timestamp(ts, row["updated_at"]))
           && ("rotated_at" in row ==> Timestamp(ts, row["rotated_at"]))
           && ("revoked_at" in row ==> Timestamp(ts, row["revoked_at"]))
  {
    assert "created_at" in TIME_FIELDS && "updated_at" in TIME_FIELDS && "rotated_at" in TIME_FIELDS
      && "revoked_at" in TIME_FIELDS;
  }

  /** The row as validation puts it together. */
  function Built(version: int, r: Dict, scopes: seq<string>): Dict
    requires Get(r, "token_sha256").Str?
  {
    r["client_id" := Get(r, "client_id")]["token_sha256" := Str(Lower(r["token_sha256"].s))]
     ["enabled" := EnabledFlag(version, r)]["scopes" := Arrayed(scopes)]
  }

  lemma BuiltIsTaken(version: int, r: Dict)
    requires {"client_id", "token_sha256", "scopes"} <= r.Keys && r["token_sha256"].Str? && ScopeList(r["scopes"])
    requires if "enabled" in r then r["enabled"].Bool? else version == 1
    ensures ValidateScopes(r["scopes"]).Some?
    ensures RowTaken(version, r, Built(version, r, ValidateScopes(r["scopes"]).value))
  {
    ScopesTaken(r["scopes"]);
    var row := Built(version, r, ValidateScopes(r["scopes"]).value);
    hide ValidateScopes, ScopeList, Ascending, Lower, Arrayed, Members;
    assert row.Keys == r.Keys + {"enabled"};
  }

  lemma RowBuilt(ts: Timestamps, version: int, raw: Json)
    requires ValidateRow(ts, version, raw).Some?
    ensures raw.Obj? && Get(raw.fields, "token_sha256").Str? && ValidateScopes(Get(raw.fields, "scopes")).Some?
    ensures ValidateRow(ts, version, raw).value
      == Built(version, raw.fields, ValidateScopes(Get(raw.fields, "scopes")).value)
  {
    hide ValidateScopes, IdMatches, HashMatches, TimeOk, TextOk, Arrayed, Lower;
  }

  /** The conditions of validation, in the terms of this module. */
  lemma ChecksAgree(ts: Timestamps, version: int, r: Dict)
    requires Get(r, "client_id").Str? && Get(r, "token_sha256").Str? && ValidateScopes(Get(r, "scopes")).Some?
    ensures IdMatches(r["client_id"].s) <==> ClientId(r["client_id"].s)
    ensures HashMatches(r["token_sha256"].s) <==> HexDigest(r["token_sha256"].s)
    ensures ScopeList(r["scopes"])
    ensures var row := Built(version, r, ValidateScopes(r["scopes"]).value);
      && ((forall f | f in TIME_FIELDS && f in row :: TimeOk(ts, row[f]))
          <==> && ("created_at" in r ==> Timestamp(ts, r["created_at"]))
               && ("updated_at" in r ==> Timestamp(ts, r["updated_at"]))
               && ("rotated_at" in r ==> Timestamp(ts, r["rotated_at"]))
               && ("revoked_at" in r ==> Timestamp(ts, r["revoked_at"])))
      && Get(row, "revoked_at") == Get(r, "revoked_at")
      && ("owner" in row ==> TextOk(row["owner"])) == ("owner" in r ==> Note(r["owner"]))
      && ("purpose" in row ==> TextOk(row["purpose"])) == ("purpose" in r ==> Note(r["purpose"]))
  {
    ScopesAgree(r["scopes"]);
    IdsAgree(r["client_id"].s);
    DigestsAgree(r["token_sha256"].s);
    var row := Built(version, r, ValidateScopes(r["scopes"]).value);
    TimesAgree(ts, row);
    NotesAgree(Get(r, "owner"));
    NotesAgree(Get(r, "purpose"));
    hide ValidateScopes, ScopeList, IdMatches, ClientId, HashMatches, HexDigest, Timestamp, TimeOk, TextOk, Note;
    hide Arrayed, Lower;
  }

  lemma RowAccepted(ts: Timestamps, version: int, raw: Json)
    ensures ValidateRow(ts, version, raw).Some? <==> RowInOrder(ts, version, raw)
  {
    if raw.Obj? {
      var r := raw.fields;
      ScopesAgree(Get(r, "scopes"));
      if Get(r, "client_id").Str? && Get(r, "token_sha256").Str? && ValidateScopes(Get(r, "scopes")).Some? {
        ChecksAgree(ts, version, r);
      }
      hide ValidateScopes, ScopeList, IdMatches, ClientId, HashMatches, HexDigest, TimeOk, TextOk, Note, Arrayed, Lower;
    }
  }

  /** Validation reads exactly the rows that are in order, and takes from them what they say. */
  lemma RowReads(ts: Timestamps, version: int, raw: Json)
    ensures ValidateRow(ts, version, raw).Some? <==> RowInOrder(ts, version, raw)
    ensures RowInOrder(ts, version, raw) ==>
      RowTaken(version, raw.fields, ValidateRow(ts, version, raw).value)
  {
    RowAccepted(ts, version, raw);
    if RowInOrder(ts, version, raw) {
      RowBuilt(ts, version, raw);
      BuiltIsTaken(version, raw.fields);
    }
    hide ValidateRow, Timestamp, Note, ClientId, HexDigest;
  }

  // ---- Validation of all rows ----

  function TextAt(raw: Json, key: string): string {
    if raw.Obj? && Get(raw.fields, key).Str? then raw.fields[key].s else ""
  }

  function KeyOf(raw: Json): string {
    Lower(TextAt(raw, "token_sha256"))
  }

  lemma TakenRow(version: int, r: Dict, row: Dict)
    requires {"client_id", "token_sha256", "scopes"} <= r.Keys && r["token_sha256"].Str? && ScopeList(r["scopes"])
    requires RowTaken(version, r, row)
    ensures IdOf(row) == TextAt(Obj(r), "client_id") && DigestOf(row) == KeyOf(Obj(r))
    ensures IsOn(row) == SaysOn(version, r) && ScopesOf(row) == Members(Strings(r["scopes"].items))
    ensures Get(row, "revoked_at") == Get(r, "revoked_at")
  {
    hide ScopeList, Ascending, Lower, Members;
    assert "client_id" in row && row["client_id"] == r["client_id"];
  }

  lemma TakenIdentity(ts: Timestamps, version: int, raw: Json)
    requires RowInOrder(ts, version, raw)
    ensures ValidateRow(ts, version, raw).Some?
    ensures var row := ValidateRow(ts, version, raw).value;
      IdOf(row) == TextAt(raw, "client_id") && DigestOf(row) == KeyOf(raw)
  {
    RowReads(ts, version, raw);
    hide ValidateRow, RowTaken;
    TakenRow(version, raw.fields, ValidateRow(ts, version, raw).value);
  }

  /** No client and no key occurs twice, and none was seen before. */
  ghost predicate AllDiffer(rows: seq<Json>, ids: set<string>, digests: set<string>) {
    && (forall i | 0 <= i < |rows| :: TextAt(rows[i], "client_id") !in ids && KeyOf(rows[i]) !in digests)
    && (forall i, j | 0 <= i < j < |rows| ::
          TextAt(rows[i], "client_id") != TextAt(rows[j], "client_id") && KeyOf(rows[i]) != KeyOf(rows[j]))
  }

  ghost predicate AllInOrder(ts: Timestamps, version: int, rows: seq<Json>) {
    forall i | 0 <= i < |rows| :: RowInOrder(ts, version, rows[i])
  }

  lemma DifferOneMore(rows: seq<Json>, ids: set<string>, digests: set<string>)
    requires rows != []
    ensures AllDiffer(rows, ids, digests) <==>
      && TextAt(rows[0], "client_id") !in ids && KeyOf(rows[0]) !in digests
      && AllDiffer(rows[1..], ids + {TextAt(rows[0], "client_id")}, digests + {KeyOf(rows[0])})
  {
    hide TextAt, KeyOf;
    var rest := rows[1..];
    assert forall i | 0 <= i < |rest| :: rest[i] == rows[i + 1];
    if AllDiffer(rest, ids + {TextAt(rows[0], "client_id")}, digests + {KeyOf(rows[0])})
       && TextAt(rows[0], "client_id") !in ids && KeyOf(rows[0]) !in digests {
      forall i, j | 0 <= i < j < |rows|
        ensures TextAt(rows[i], "client_id") != TextAt(rows[j], "client_id") && KeyOf(rows[i]) != KeyOf(rows[j])
      {
        assert rows[j] == rest[j - 1] && (i > 0 ==> rows[i] == rest[i - 1]);
      }
      forall i | 0 <= i < |rows| ensures TextAt(rows[i], "client_id") !in ids && KeyOf(rows[i]) !in digests {
        assert i > 0 ==> rows[i] == rest[i - 1];
      }
    }
  }

  lemma {:induction false} RowsRead(ts: Timestamps, version: int, rows: seq<Json>, ids: set<string>,
                                    digests: set<string>)
    ensures var r := ValidateRows(ts, version, rows, ids, digests);
      && (r.Some? <==> AllInOrder(ts, version, rows) && AllDiffer(rows, ids, digests))
      && (r.Some? ==> |r.value| == |rows| && forall i | 0 <= i < |rows| ::
            ValidateRow(ts, version, rows[i]) == Some(r.value[i]))
    decreases |rows|
  {
    hide ValidateRow, RowInOrder, RowTaken, TextAt, KeyOf, IdOf, DigestOf;
    if rows != [] {
      RowAccepted(ts, version, rows[0]);
      if RowInOrder(ts, version, rows[0]) {
        TakenIdentity(ts, version, rows[0]);
        RowsRead(ts, version, rows[1..], ids + {TextAt(rows[0], "client_id")}, digests + {KeyOf(rows[0])});
        DifferOneMore(rows, ids, digests);
        hide AllDiffer;
        assert forall i | 0 <= i < |rows| - 1 :: rows[1..][i] == rows[i + 1];
      }
    }
  }

  /** A registry that can be read. */
  ghost predicate RegistryInOrder(ts: Timestamps, data: Json) {
    && data.Obj?
    && var d := data.fields;
       && d.Keys <= {"version", "clients", "revision", "updated_at"} && {"version", "clients"} <= d.Keys
       && (d["version"] == Num(1) || d["version"] == Num(2))
       && ("revision" in d ==> d["revision"].Num? && d["revision"].n >= 0)
       && ("updated_at" in d ==> Timestamp(ts, d["updated_at"]))
       && d["clients"].Arr? && |d["clients"].items| <= 4096
       && AllInOrder(ts, d["version"].n, d["clients"].items) && AllDiffer(d["clients"].items, {}, {})
  }

  /** What becomes of a registry: row by row what the row says, and the head with its revision written out. */
  ghost predicate RegistryTaken(ts: Timestamps, data: Json, c: Checked)
    requires RegistryInOrder(ts, data)
  {
    var d, items := data.fields, data.fields["clients"].items;
    && |c.rows| == |items|
    && (forall i | 0 <= i < |items| ::
          RowInOrder(ts, d["version"].n, items[i]) && RowTaken(d["version"].n, items[i].fields, c.rows[i]))
    && c.head.Keys == d.Keys + {"revision"} - {"clients"}
    && (forall key | key in c.head && key in d :: c.head[key] == d[key])
    && ("revision" !in d ==> c.head["revision"] == Num(0))
  }

  /**
   Validation reads exactly the registries that are in order, and takes from
   them what they say.
   */
  lemma RegistryReads(ts: Timestamps, data: Json)
    ensures ValidateRegistry(ts, data).Some? <==> RegistryInOrder(ts, data)
    ensures RegistryInOrder(ts, data) ==> RegistryTaken(ts, data, ValidateRegistry(ts, data).value)
  {
    hide ValidateRows, RowInOrder, RowTaken, AllInOrder, AllDiffer;
    if data.Obj? && VersionOk(Get(data.fields, "version")) && Get(data.fields, "clients").Arr? {
      var version, items := data.fields["version"].n, data.fields["clients"].items;
      RowsRead(ts, version, items, {}, {});
      if ValidateRegistry(ts, data).Some? {
        forall i | 0 <= i < |items|
          ensures RowInOrder(ts, version, items[i])
          ensures RowTaken(version, items[i].fields, ValidateRegistry(ts, data).value.rows[i])
        {
          RowReads(ts, version, items[i]);
        }
      }
    }
  }

  // ---- Who may do what according to the file ----

  /** The row stands for this client and this key: it is on, it is not revoked, and these are its scopes. */
  predicate RowGrants(version: int, raw: Json, digest: string, who: Identity) {
    && raw.Obj? && KeyOf(raw) == digest && TextAt(raw, "client_id") == who.clientId
    && SaysOn(version, raw.fields) && !SaysRevoked(raw.fields)
    && ScopeList(Get(raw.fields, "scopes")) && Members(Strings(Get(raw.fields, "scopes").items)) == who.scopes
  }

  /** Some row of the file does. */
  ghost predicate FileGrants(data: Json, digest: string, who: Identity) {
    && data.Obj? && Get(data.fields, "version").Num?
    && exists raw :: raw in Rows(data) && RowGrants(data.fields["version"].n, raw, digest, who)
  }

  function Rows(data: Json): seq<Json> {
    if data.Obj? && Get(data.fields, "clients").Arr? then data.fields["clients"].items else []
  }

  lemma TakenGrants(ts: Timestamps, version: int, raw: Json, row: Dict, digest: string, who: Identity)
    requires RowInOrder(ts, version, raw) && RowTaken(version, raw.fields, row)
    ensures RowGrants(version, raw, digest, who)
      <==> EntryOf(row) == Entry(digest, who.scopes, true, false) && IdOf(row) == who.clientId
  {
    TakenRow(version, raw.fields, row);
    hide ScopeList, Members, Lower, ClientId, HexDigest, Note, Ascending, RowTaken, ScopesOf, DigestOf, IdOf, IsOn;
  }

  /**
   Authentication over a registry that was read grants exactly what the file
   says: a client and its scopes for its key, if it is on and not revoked and, where a
   scope is required, has it.
   */
  lemma ReadingGrants(ts: Timestamps, data: Json, digest: string, required: Option<string>, who: Identity)
    requires ValidateRegistry(ts, data).Some?
    ensures Authenticate(ValidateRegistry(ts, data).value.rows, digest, required) == Some(who)
      <==> FileGrants(data, digest, who) && (required == None || required.value in who.scopes)
  {
    hide ValidateRegistry, RowTaken, RowGrants, RowOk, Authenticate;
    RegistryReads(ts, data);
    RegistryValidated(ts, data);
    var rows, items, version := ValidateRegistry(ts, data).value.rows, Rows(data), data.fields["version"].n;
    AuthenticationIsPolicy(ts, rows, digest, required, who);
    hide PolicyOf;
    forall i | 0 <= i < |items|
      ensures RowGrants(version, items[i], digest, who) ==> Grants(PolicyOf(rows), digest, who)
    {
      TakenGrants(ts, version, items[i], rows[i], digest, who);
      PolicyAt(rows, i);
    }
    if Grants(PolicyOf(rows), digest, who) {
      PolicyLookup(rows, who.clientId);
      var k := RowIndex(rows, who.clientId);
      TakenGrants(ts, version, items[k], rows[k], digest, who);
      assert items[k] in Rows(data);
    }
  }

  /** Reading the file for one call: unavailable exactly if it cannot be read, granting
      exactly what it says, and nothing to who presents no key. */
  lemma UncachedGrants(ts: Timestamps, disk: S.Disk, digest: string, required: Option<string>, who: Identity)
    ensures S.Uncached(ts, disk, Some(digest), required) == S.Unavailable
      <==> disk.Absent? || disk.content == None || !RegistryInOrder(ts, disk.content.value)
    ensures S.Uncached(ts, disk, None, required)
      == if disk.Absent? || disk.content == None || !RegistryInOrder(ts, disk.content.value) then S.Unavailable
         else S.Denied
    ensures S.Uncached(ts, disk, Some(digest), required) == S.Granted(who)
      <==> disk.File? && disk.content.Some? && RegistryInOrder(ts, disk.content.value)
           && FileGrants(disk.content.value, digest, who) && (required == None || required.value in who.scopes)
  {
    hide ValidateRegistry, RegistryTaken, FileGrants, RegistryInOrder, Authenticate;
    if disk.File? && disk.content.Some? {
      RegistryReads(ts, disk.content.value);
      if ValidateRegistry(ts, disk.content.value).Some? {
        ReadingGrants(ts, disk.content.value, digest, required, who);
      }
    }
  }

  /** What a call on the store grants, some version of the file that was current during the call says. */
  lemma CallGrantsWhatTheFileSays(ts: Timestamps, hist: seq<S.Disk>, calls: seq<S.Call>, c: S.Call, who: Identity)
    returns (v: nat)
    requires S.Faithful(hist) && S.Placed(hist, c) && forall d | d in calls :: S.Placed(hist, d)
    requires S.AnswerTo(ts, S.CacheAfter(ts, hist, calls), hist, c) == S.Granted(who)
    ensures c.first <= v <= c.after && c.digest.Some? && hist[v].File? && hist[v].content.Some?
    ensures FileGrants(hist[v].content.value, c.digest.value, who)
    ensures c.required == None || c.required.value in who.scopes
  {
    hide S.AnswerTo, S.CacheAfter, S.Faithful, FileGrants, RegistryInOrder, Authenticate, ValidateRegistry;
    S.CacheRefinesReading(ts, hist, calls, c);
    v :| c.first <= v <= c.after && S.Granted(who) == S.Uncached(ts, hist[v], c.digest, c.required);
    if c.digest.Some? {
      UncachedGrants(ts, hist[v], c.digest.value, c.required, who);
    }
  }

  // ---- Migration from the file as it was ----

  /** A client that named no capability gets all six. */
  function Widened(who: Identity): Identity {
    var six: set<string> := {"llm", "embeddings", "reranker", "ocr", "stt", "tts"};
    if who.scopes * six == {} then Identity(who.clientId, who.scopes + six) else who
  }

  /**
   Migration preserves access, from the version 1 file on. It commits exactly if
   that file can be read, is of version 1 and the outside cooperates; and a key
   then stands for the client that it stood for in the file, a client that says nothing
   about being on included, and grants it what it was granted.
   */
  lemma MigrationKeepsAccess(ts: Timestamps, source: Json, out: Outside, digest: string, after: Identity)
    ensures var r := Mutate(ts, None, Migrate(Some(source)), out);
      && (r.Committed? <==>
            && RegistryInOrder(ts, source) && source.fields["version"] == Num(1)
            && out.fits && out.writes && Timestamp(ts, Str(out.now)))
      && (r.Committed? ==>
            (Authenticate(r.data.rows, digest, None) == Some(after)
             <==> exists who :: FileGrants(source, digest, who) && after == Widened(who)))
  {
    hide ValidateRegistry, RowOk, Commit, FileGrants, Authenticate, PolicyOf, MigratedPolicy, AllInOrder, AllDiffer;
    RegistryReads(ts, source);
    if ValidateRegistry(ts, source).Some? {
      var legacy := ValidateRegistry(ts, source).value;
      assert legacy.head["version"] == source.fields["version"];
      if legacy.head["version"] == Num(1) {
        MigrationCommits(ts, source, out);
        var r := Mutate(ts, None, Migrate(Some(source)), out);
        if r.Committed? {
          RegistryValidated(ts, source);
          MigrationPreservesAccess(ts, legacy.rows, r.data.rows, digest);
          MigratedGrants(ts, source, r.data.rows, digest, after);
        }
      }
    }
  }

  lemma MigratedGrants(ts: Timestamps, source: Json, rows: seq<Dict>, digest: string, after: Identity)
    requires ValidateRegistry(ts, source).Some?
    requires var before := Authenticate(ValidateRegistry(ts, source).value.rows, digest, None);
      Authenticate(rows, digest, None) == if before == None then None else Some(Widened(before.value))
    ensures Authenticate(rows, digest, None) == Some(after)
      <==> exists who :: FileGrants(source, digest, who) && after == Widened(who)
  {
    hide ValidateRegistry, Authenticate, FileGrants, Widened;
    var before := Authenticate(ValidateRegistry(ts, source).value.rows, digest, None);
    if before.Some? {
      ReadingGrants(ts, source, digest, None, before.value);
    }
    forall who | FileGrants(source, digest, who) ensures before == Some(who) {
      ReadingGrants(ts, source, digest, None, who);
    }
  }
}
