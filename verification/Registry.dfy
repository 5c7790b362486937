/**
 The client registry: what makes a parsed registry file valid, and the identity
 a token digest stands for. Which strings are administrative timestamps is a
 parameter.
 */
module Registry {
  import opened Prelude
  import opened Json

  const CAPABILITIES: set<string> := {"llm", "embeddings", "reranker", "ocr", "stt", "tts"}
  const TRANSPORTS: set<string> := {"gateway", "mcp"}
  const SCOPES: set<string> := CAPABILITIES + TRANSPORTS
  /** All scopes in alphabetical order. */
  const SCOPE_ORDER: seq<string> := ["embeddings", "gateway", "llm", "mcp", "ocr", "reranker", "stt", "tts"]
  const MAX_CLIENTS := 4096

  const REGISTRY_FIELDS: set<string> := {"version", "clients", "revision", "updated_at"}
  const CLIENT_FIELDS: set<string> :=
    {"client_id", "token_sha256", "scopes", "enabled", "created_at",
     "updated_at", "rotated_at", "revoked_at", "owner", "purpose"}
  const TIME_FIELDS: set<string> := {"created_at", "updated_at", "rotated_at", "revoked_at"}

  type Timestamps = string -> bool

  predicate IdStart(c: char) {
    'a' <= c <= 'z' || '0' <= c <= '9'
  }

  predicate IdChar(c: char) {
    IdStart(c) || c == '.' || c == '_' || c == '-'
  }

  predicate IdMatches(s: string) {
    1 <= |s| <= 64 && IdStart(s[0]) && forall i | 1 <= i < |s| :: IdChar(s[i])
  }

  predicate HexChar(c: char) {
    '0' <= c <= '9' || 'a' <= c <= 'f' || 'A' <= c <= 'F'
  }

  predicate HashMatches(s: string) {
    |s| == 64 && forall i | 0 <= i < |s| :: HexChar(s[i])
  }

  function LowerChar(c: char): char {
    if 'A' <= c <= 'F' then c - 'A' + 'a' else c
  }

  function Lower(s: string): (r: string)
    ensures |r| == |s| && forall i | 0 <= i < |s| :: r[i] == LowerChar(s[i])
  {
    seq(|s|, i requires 0 <= i < |s| => LowerChar(s[i]))
  }

  // ---- Scopes ----

  predicate AllStrings(items: seq<Json>) {
    forall i | 0 <= i < |items| :: items[i].Str?
  }

  function Strings(items: seq<Json>): (r: seq<string>)
    requires AllStrings(items)
    ensures |r| == |items| && forall i | 0 <= i < |r| :: r[i] == items[i].s
  {
    seq(|items|, i requires 0 <= i < |items| => items[i].s)
  }

  function Arrayed(ss: seq<string>): (r: Json)
    ensures r.Arr? && |r.items| == |ss| && forall i | 0 <= i < |ss| :: r.items[i] == Str(ss[i])
  {
    Arr(seq(|ss|, i requires 0 <= i < |ss| => Str(ss[i])))
  }

  function Members(ss: seq<string>): set<string> {
    set s | s in ss
  }

  /** The given scopes in alphabetical order: `sorted` on a list without repeats drawn from SCOPES. */
  function InOrder(scopes: set<string>, order: seq<string>): seq<string> {
    if order == [] then []
    else (if order[0] in scopes then [order[0]] else []) + InOrder(scopes, order[1..])
  }

  predicate ScopesAllowed(scopes: set<string>) {
    && scopes <= SCOPES
    && scopes * TRANSPORTS != {}
    && ("mcp" in scopes ==> "gateway" in scopes)
  }

  function ValidateScopes(value: Json): Option<seq<string>> {
    if !value.Arr? || !AllStrings(value.items) then None
    else
      var ss := Strings(value.items);
      if !Distinct(ss) || !ScopesAllowed(Members(ss)) then None
      else Some(InOrder(Members(ss), SCOPE_ORDER))
  }

  lemma {:induction false} InOrderMembers(scopes: set<string>, order: seq<string>)
    requires Distinct(order)
    ensures Members(InOrder(scopes, order)) == scopes * Members(order)
    ensures Distinct(InOrder(scopes, order))
  {
    if order != [] {
      assert order == [order[0]] + order[1..];
      InOrderMembers(scopes, order[1..]);
      var rest := InOrder(scopes, order[1..]);
      assert forall s | s in rest :: s in Members(rest) && s in Members(order[1..]);
      assert order[0] !in order[1..];
      var whole := InOrder(scopes, order);
      if order[0] in scopes {
        assert whole == [order[0]] + rest;
        assert Members(whole) == {order[0]} + Members(rest);
      } else {
        assert whole == [] + rest == rest;
      }
      assert Members(order) == {order[0]} + Members(order[1..]);
    }
  }

  lemma OrderIsComplete()
    ensures Distinct(SCOPE_ORDER) && Members(SCOPE_ORDER) == SCOPES
  {
    assert SCOPE_ORDER[0] == "embeddings" && SCOPE_ORDER[1] == "gateway" && SCOPE_ORDER[2] == "llm"
      && SCOPE_ORDER[3] == "mcp" && SCOPE_ORDER[4] == "ocr" && SCOPE_ORDER[5] == "reranker"
      && SCOPE_ORDER[6] == "stt" && SCOPE_ORDER[7] == "tts";
  }

  lemma StringsOfArrayed(ss: seq<string>)
    ensures AllStrings(Arrayed(ss).items) && Strings(Arrayed(ss).items) == ss
  {
  }

  /** Validated scopes are the given ones, sorted, and validate to themselves. */
  lemma ScopesStable(value: Json)
    requires ValidateScopes(value).Some?
    ensures var ss := ValidateScopes(value).value;
      && Members(ss) == Members(Strings(value.items)) && ScopesAllowed(Members(ss))
      && ValidateScopes(Arrayed(ss)) == Some(ss)
  {
    OrderIsComplete();
    var given := Members(Strings(value.items));
    InOrderMembers(given, SCOPE_ORDER);
    var ss := ValidateScopes(value).value;
    assert given * SCOPES == given;
    StringsOfArrayed(ss);
  }

  // ---- Rows ----

  predicate TimeOk(ts: Timestamps, j: Json) {
    j.Str? && |j.s| <= 64 && ts(j.s)
  }

  predicate TextOk(j: Json) {
    j.Str? && |j.s| <= 512 && forall i | 0 <= i < |j.s| :: j.s[i] >= ' '
  }

  predicate Revoked(row: Dict) {
    Truthy(Get(row, "revoked_at"))
  }

  predicate IsOn(row: Dict) {
    Get(row, "enabled") == Bool(true)
  }

  function EnabledFlag(version: int, raw: Dict): Json {
    if "enabled" in raw then raw["enabled"] else if version == 1 then Bool(true) else Null
  }

  /** One row by itself; uniqueness is the caller's. */
  function ValidateRow(ts: Timestamps, version: int, raw: Json): Option<Dict> {
    if !raw.Obj? || !(raw.fields.Keys <= CLIENT_FIELDS) then None
    else
      var r := raw.fields;
      var id, digest := Get(r, "client_id"), Get(r, "token_sha256");
      var enabled := EnabledFlag(version, r);
      var scopes := ValidateScopes(Get(r, "scopes"));
      if !id.Str? || !IdMatches(id.s) || !digest.Str? || !HashMatches(digest.s) then None
      else if !enabled.Bool? || scopes == None then None
      else
        var row := r["client_id" := id]["token_sha256" := Str(Lower(digest.s))]["enabled" := enabled]
                    ["scopes" := Arrayed(scopes.value)];
        if exists f | f in TIME_FIELDS :: f in row && !TimeOk(ts, row[f]) then None
        else if Revoked(row) && enabled.b then None
        else if ("owner" in row && !TextOk(row["owner"])) || ("purpose" in row && !TextOk(row["purpose"])) then None
        else Some(row)
  }

  function IdOf(row: Dict): string {
    if Get(row, "client_id").Str? then row["client_id"].s else ""
  }

  function DigestOf(row: Dict): string {
    if Get(row, "token_sha256").Str? then row["token_sha256"].s else ""
  }

  function ScopesOf(row: Dict): set<string> {
    var j := Get(row, "scopes");
    if j.Arr? && AllStrings(j.items) then Members(Strings(j.items)) else {}
  }

  /** Rows in file order; an id or digest seen before is refused. */
  function ValidateRows(ts: Timestamps, version: int, rows: seq<Json>, ids: set<string>, digests: set<string>)
    : Option<seq<Dict>>
    decreases |rows|
  {
    if rows == [] then Some([])
    else
      var row := ValidateRow(ts, version, rows[0]);
      if row == None || IdOf(row.value) in ids || DigestOf(row.value) in digests then None
      else
        var rest := ValidateRows(ts, version, rows[1..], ids + {IdOf(row.value)}, digests + {DigestOf(row.value)});
        if rest == None then None else Some([row.value] + rest.value)
  }

  function Objects(rows: seq<Dict>): (r: seq<Json>)
    ensures |r| == |rows| && forall i | 0 <= i < |r| :: r[i] == Obj(rows[i])
  {
    seq(|rows|, i requires 0 <= i < |rows| => Obj(rows[i]))
  }

  predicate VersionOk(j: Json) {
    j == Num(1) || j == Num(2)
  }

  /** The validated registry: its head fields and its rows. */
  datatype Checked = Checked(head: Dict, rows: seq<Dict>)

  function ValidateRegistry(ts: Timestamps, data: Json): Option<Checked> {
    if !data.Obj? || !VersionOk(Get(data.fields, "version")) || !(data.fields.Keys <= REGISTRY_FIELDS) then None
    else
      var d := data.fields;
      var clients := Get(d, "clients");
      var revision := if "revision" in d then d["revision"] else Num(0);
      if !clients.Arr? || |clients.items| > MAX_CLIENTS || !revision.Num? || revision.n < 0 then None
      else
        var rows := ValidateRows(ts, d["version"].n, clients.items, {}, {});
        if rows == None || ("updated_at" in d && !TimeOk(ts, d["updated_at"])) then None
        else Some(Checked(d["revision" := revision] - {"clients"}, rows.value))
  }

  /** The dictionary that `validate_registry` returns, as it is written to the file. */
  function ToJson(c: Checked): Json {
    Obj(c.head["clients" := Arr(Objects(c.rows))])
  }

  /** The same loop as it is written, filling the two sets of seen values. */
  method CheckRows(ts: Timestamps, version: int, rows: seq<Json>) returns (clients: Option<seq<Dict>>)
    ensures clients == ValidateRows(ts, version, rows, {}, {})
  {
    hide ValidateRow;
    var seenIds: set<string>, seenDigests: set<string> := {}, {};
    var found: seq<Dict> := [];
    ghost var whole := ValidateRows(ts, version, rows, {}, {});
    assert rows[0..] == rows;
    if whole.Some? {
      assert [] + whole.value == whole.value;
    }
    for i := 0 to |rows|
      invariant whole == Joined(found, ValidateRows(ts, version, rows[i..], seenIds, seenDigests))
    {
      assert rows[i..][1..] == rows[i + 1..];
      var row := ValidateRow(ts, version, rows[i]);
      if row == None || IdOf(row.value) in seenIds || DigestOf(row.value) in seenDigests {
        return None;
      }
      seenIds, seenDigests := seenIds + {IdOf(row.value)}, seenDigests + {DigestOf(row.value)};
      JoinedOneMore(found, row.value, ValidateRows(ts, version, rows[i + 1..], seenIds, seenDigests));
      found := found + [row.value];
    }
    assert found + [] == found;
    clients := Some(found);
  }

  ghost function Joined(found: seq<Dict>, rest: Option<seq<Dict>>): Option<seq<Dict>> {
    if rest == None then None else Some(found + rest.value)
  }

  lemma JoinedOneMore(found: seq<Dict>, row: Dict, rest: Option<seq<Dict>>)
    ensures Joined(found, Joined([row], rest)) == Joined(found + [row], rest)
  {
    if rest.Some? {
      assert found + ([row] + rest.value) == (found + [row]) + rest.value;
    }
  }

  // ---- Validation is idempotent ----

  lemma LowerStable(s: string)
    requires HashMatches(s)
    ensures HashMatches(Lower(s)) && Lower(Lower(s)) == Lower(s)
  {
  }

  /** What every validated row looks like. */
  ghost predicate RowOk(ts: Timestamps, row: Dict) {
    && row.Keys <= CLIENT_FIELDS && {"client_id", "token_sha256", "enabled", "scopes"} <= row.Keys
    && row["client_id"].Str? && IdMatches(row["client_id"].s)
    && row["token_sha256"].Str? && HashMatches(row["token_sha256"].s)
    && Lower(row["token_sha256"].s) == row["token_sha256"].s
    && row["enabled"].Bool?
    && ValidateScopes(row["scopes"]).Some? && Arrayed(ValidateScopes(row["scopes"]).value) == row["scopes"]
    && (forall f | f in TIME_FIELDS && f in row :: TimeOk(ts, row[f]))
    && !(Revoked(row) && row["enabled"].b)
    && ("owner" in row ==> TextOk(row["owner"])) && ("purpose" in row ==> TextOk(row["purpose"]))
  }

  lemma RowValidated(ts: Timestamps, version: int, raw: Json)
    requires ValidateRow(ts, version, raw).Some?
    ensures RowOk(ts, ValidateRow(ts, version, raw).value)
  {
    LowerStable(raw.fields["token_sha256"].s);
    ScopesStable(Get(raw.fields, "scopes"));
  }

  /** A row that is in order validates to itself, under either version. */
  lemma RowStable(ts: Timestamps, version: int, row: Dict)
    requires RowOk(ts, row)
    ensures ValidateRow(ts, version, Obj(row)) == Some(row)
  {
    var scopes := ValidateScopes(row["scopes"]).value;
    assert row == row["client_id" := row["client_id"]]["token_sha256" := Str(Lower(row["token_sha256"].s))]
                     ["enabled" := row["enabled"]]["scopes" := Arrayed(scopes)];
  }

  ghost predicate RowsOk(ts: Timestamps, rows: seq<Dict>) {
    && (forall i | 0 <= i < |rows| :: RowOk(ts, rows[i]))
    && (forall i, j | 0 <= i < j < |rows| :: IdOf(rows[i]) != IdOf(rows[j]) && DigestOf(rows[i]) != DigestOf(rows[j]))
  }

  lemma {:induction false} RowsValidated(ts: Timestamps, version: int, rows: seq<Json>, ids: set<string>,
                                         digests: set<string>)
    requires ValidateRows(ts, version, rows, ids, digests).Some?
    ensures var r := ValidateRows(ts, version, rows, ids, digests).value;
      && |r| == |rows| && RowsOk(ts, r)
      && (forall i | 0 <= i < |r| :: IdOf(r[i]) !in ids && DigestOf(r[i]) !in digests)
    decreases |rows|
  {
    hide RowOk, ValidateRow;
    if rows != [] {
      RowValidated(ts, version, rows[0]);
      var row := ValidateRow(ts, version, rows[0]).value;
      RowsValidated(ts, version, rows[1..], ids + {IdOf(row)}, digests + {DigestOf(row)});
    }
  }

  lemma {:induction false} RowsStable(ts: Timestamps, version: int, rows: seq<Dict>, ids: set<string>,
                                      digests: set<string>)
    requires RowsOk(ts, rows)
    requires forall i | 0 <= i < |rows| :: IdOf(rows[i]) !in ids && DigestOf(rows[i]) !in digests
    ensures ValidateRows(ts, version, Objects(rows), ids, digests) == Some(rows)
    decreases |rows|
  {
    hide RowOk, ValidateRow;
    if rows != [] {
      RowStable(ts, version, rows[0]);
      var js := Objects(rows);
      assert js[0] == Obj(rows[0]) && js[1..] == Objects(rows[1..]);
      assert [rows[0]] + rows[1..] == rows;
      RowsStable(ts, version, rows[1..], ids + {IdOf(rows[0])}, digests + {DigestOf(rows[0])});
    }
  }

  /** What every validated registry looks like. */
  ghost predicate CheckedOk(ts: Timestamps, c: Checked) {
    && c.head.Keys <= REGISTRY_FIELDS - {"clients"}
    && VersionOk(Get(c.head, "version")) && Get(c.head, "revision").Num? && c.head["revision"].n >= 0
    && ("updated_at" in c.head ==> TimeOk(ts, c.head["updated_at"]))
    && |c.rows| <= MAX_CLIENTS && RowsOk(ts, c.rows)
  }

  lemma RegistryValidated(ts: Timestamps, data: Json)
    requires ValidateRegistry(ts, data).Some?
    ensures CheckedOk(ts, ValidateRegistry(ts, data).value)
  {
    hide ValidateRows, RowsOk, TimeOk;
    RowsValidated(ts, data.fields["version"].n, data.fields["clients"].items, {}, {});
  }

  /** A registry in order reads back as itself. */
  lemma RegistryStable(ts: Timestamps, c: Checked)
    requires CheckedOk(ts, c)
    ensures ValidateRegistry(ts, ToJson(c)) == Some(c)
  {
    hide RowOk, ValidateRow;
    RowsStable(ts, c.head["version"].n, c.rows, {}, {});
    var d := ToJson(c).fields;
    assert d["revision" := d["revision"]] - {"clients"} == c.head;
  }

  /** Validation is idempotent: what it returns, written out and read again, is unchanged. */
  lemma ValidationIsIdempotent(ts: Timestamps, data: Json)
    requires ValidateRegistry(ts, data).Some?
    ensures var c := ValidateRegistry(ts, data).value;
      ValidateRegistry(ts, ToJson(c)) == Some(c)
  {
    RegistryValidated(ts, data);
    RegistryStable(ts, ValidateRegistry(ts, data).value);
  }

  // ---- Authentication ----

  datatype Identity = Identity(clientId: string, scopes: set<string>)

  /** The scan of `authenticate` over the rows it was given. */
  function Authenticate(rows: seq<Dict>, digest: string, required: Option<string>): Option<Identity> {
    if rows == [] then None
    else if DigestOf(rows[0]) == digest then
      if !IsOn(rows[0]) || Revoked(rows[0]) then None
      else if required.Some? && required.value !in ScopesOf(rows[0]) then None
      else Some(Identity(IdOf(rows[0]), ScopesOf(rows[0])))
    else Authenticate(rows[1..], digest, required)
  }

  /** With distinct digests the scan finds the one row of the digest, wherever it is. */
  lemma {:induction false} AuthenticateFinds(rows: seq<Dict>, digest: string, required: Option<string>, k: nat)
    requires k < |rows| && DigestOf(rows[k]) == digest
    requires forall i, j | 0 <= i < j < |rows| :: DigestOf(rows[i]) != DigestOf(rows[j])
    ensures Authenticate(rows, digest, required)
      == if IsOn(rows[k]) && !Revoked(rows[k]) && (required == None || required.value in ScopesOf(rows[k]))
         then Some(Identity(IdOf(rows[k]), ScopesOf(rows[k]))) else None
  {
    if k > 0 {
      AuthenticateFinds(rows[1..], digest, required, k - 1);
    }
  }

  lemma {:induction false} AuthenticateMisses(rows: seq<Dict>, digest: string, required: Option<string>)
    requires forall i | 0 <= i < |rows| :: DigestOf(rows[i]) != digest
    ensures Authenticate(rows, digest, required) == None
  {
    if rows != [] {
      AuthenticateMisses(rows[1..], digest, required);
    }
  }
}
