/**
 A reader of event streams, after section 9.2.6 of the WHATWG HTML Standard
 ("Interpreting an event stream"). Event ids and reconnection times do not
 change what is dispatched and are skipped, like unknown fields.
 */
module EventStream {
  import opened ChatStream

  datatype Event = Event(kind: string, data: string)

  const BOM: char := '\U{FEFF}'

  /** The first position of a line break, or the length. */
  function LineEnd(s: string): (e: nat)
    ensures e <= |s| && (forall i | 0 <= i < e :: s[i] != '\n' && s[i] != '\r')
    ensures e < |s| ==> s[e] == '\n' || s[e] == '\r'
  {
    if s == "" || s[0] == '\n' || s[0] == '\r' then 0 else 1 + LineEnd(s[1..])
  }

  /** The complete lines: a line ends in CRLF, in LF, or in CR. */
  function Lines(s: string): seq<string>
    decreases |s|
  {
    var e := LineEnd(s);
    if e == |s| then []
    else if s[e] == '\r' && e + 1 < |s| && s[e + 1] == '\n' then [s[..e]] + Lines(s[e + 2..])
    else [s[..e]] + Lines(s[e + 1..])
  }

  function ColonAt(line: string): (k: nat)
    ensures k <= |line| && (forall i | 0 <= i < k :: line[i] != ':') && (k < |line| ==> line[k] == ':')
  {
    if line == "" || line[0] == ':' then 0 else 1 + ColonAt(line[1..])
  }

  /** The name and the value of a field; one space after the colon is dropped. */
  function FieldOf(line: string): (string, string) {
    var k := ColonAt(line);
    if k == |line| then (line, "")
    else
      var rest := line[k + 1..];
      (line[..k], if rest != "" && rest[0] == ' ' then rest[1..] else rest)
  }

  /** Interpreting the lines, with the data buffer and the event type so far. */
  function Interpret(lines: seq<string>, data: string, kind: string): seq<Event> {
    if lines == [] then []
    else if lines[0] == "" then
      (if data == "" then [] else [Event(if kind == "" then "message" else kind, data[..|data| - 1])])
      + Interpret(lines[1..], "", "")
    else
      var (name, value) := FieldOf(lines[0]);
      if name == "data" then Interpret(lines[1..], data + value + "\n", kind)
      else if name == "event" then Interpret(lines[1..], data, value)
      else Interpret(lines[1..], data, kind)
  }

  function EventsOf(stream: string): seq<Event> {
    Interpret(Lines(if stream != "" && stream[0] == BOM then stream[1..] else stream), "", "")
  }

  // ---- What was written is read back ----

  /** A payload on one line. */
  predicate OneLine(s: string) {
    forall i | 0 <= i < |s| :: s[i] != '\n' && s[i] != '\r'
  }

  function Messages(payloads: seq<string>): (r: seq<Event>)
    ensures |r| == |payloads| && forall i | 0 <= i < |r| :: r[i] == Event("message", payloads[i])
  {
    seq(|payloads|, i requires 0 <= i < |payloads| => Event("message", payloads[i]))
  }

  lemma LineEndsThere(line: string, rest: string)
    requires OneLine(line)
    ensures LineEnd(line + "\n" + rest) == |line|
    ensures Lines(line + "\n" + rest) == [line] + Lines(rest)
  {
    var s := line + "\n" + rest;
    assert s[|line|] == '\n';
    assert forall i | 0 <= i < |line| :: s[i] == line[i];
    assert LineEnd(s) == |line|;
    assert s[..|line|] == line && s[|line| + 1..] == rest;
  }

  lemma BlockLines(payload: string, rest: string)
    requires OneLine(payload)
    ensures Lines(Block(payload) + rest) == ["data: " + payload, ""] + Lines(rest)
  {
    hide Lines, LineEnd;
    var line := "data: " + payload;
    assert Block(payload) + rest == line + "\n" + ("" + "\n" + rest);
    LineEndsThere(line, "" + "\n" + rest);
    LineEndsThere("", rest);
    assert [line] + ([""] + Lines(rest)) == [line, ""] + Lines(rest);
  }

  lemma DataField(payload: string)
    ensures FieldOf("data: " + payload) == ("data", payload)
  {
    var line := "data: " + payload;
    assert line[4] == ':' && line[5] == ' ' && line[..4] == "data";
    assert ColonAt(line) == 4;
    assert line[5..][1..] == payload;
  }

  lemma {:induction false} LinesReadBack(payloads: seq<string>)
    requires forall p | p in payloads :: OneLine(p)
    ensures Interpret(Lines(Concat(Blocks(payloads))), "", "") == Messages(payloads)
  {
    hide Lines, FieldOf, Block;
    if payloads == [] {
      assert Lines("") == [] by { NoLines(); }
    } else {
      var p, rest := payloads[0], payloads[1..];
      assert Blocks(payloads)[1..] == Blocks(rest);
      var lines := Lines(Concat(Blocks(rest)));
      BlockLines(p, Concat(Blocks(rest)));
      DataField(p);
      var all := ["data: " + p, ""] + lines;
      assert all[1..] == [""] + lines && all[1..][1..] == lines;
      var data := "" + p + "\n";
      assert data[..|data| - 1] == p;
      LinesReadBack(rest);
      assert Messages(payloads) == [Event("message", p)] + Messages(rest);
    }
  }

  lemma NoLines()
    ensures Lines("") == []
  {
  }

  /** A reader that follows the standard receives the payloads, all of them and in order. */
  lemma StreamReadsBack(payloads: seq<string>)
    requires forall p | p in payloads :: OneLine(p)
    ensures EventsOf(Concat(Blocks(payloads))) == Messages(payloads)
  {
    LinesReadBack(payloads);
    var s := Concat(Blocks(payloads));
    if payloads != [] {
      assert s[0] == 'd';
    }
  }
}
