/**
 A streaming client of chat completions: it reads the event stream, decodes each
 payload, and folds the deltas of each choice. The theorems say that it ends up
 with the completion that was encoded.
 */
module StreamClient {
  import opened Prelude
  import opened Json
  import opened ChatStream
  import opened EventStream

  /** What has been received for one choice. Tool calls are kept by position. */
  datatype Heard = Heard(role: string, reasoning: string, content: string, tools: map<Json, Dict>, finish: Json)

  /** What has been received so far, by choice index. */
  datatype Transcript = Transcript(choices: map<Json, Heard>, usage: Option<Json>)

  const SILENT := Heard("", "", "", map[], Null)
  const NOTHING := Transcript(map[], None)

  function TextIn(d: Dict, field: string): string {
    if Get(d, field).Str? then d[field].s else ""
  }

  /** A call seen for the first time is stored; a later piece continues its arguments. */
  function HearTool(tools: map<Json, Dict>, piece: Json): map<Json, Dict> {
    var d := Fields(piece);
    var at := Get(d, "index");
    if at !in tools then tools[at := d - {"index"}]
    else
      var was := tools[at];
      var fn := Fields(Get(was, "function"));
      var more := TextIn(fn, "arguments") + TextIn(Fields(Get(d, "function")), "arguments");
      tools[at := was["function" := Obj(fn["arguments" := Str(more)])]]
  }

  function HearTools(tools: map<Json, Dict>, pieces: seq<Json>): map<Json, Dict> {
    if pieces == [] then tools else HearTool(HearTools(tools, pieces[..|pieces| - 1]), pieces[|pieces| - 1])
  }

  function HearFrame(h: Heard, frame: Dict): Heard {
    var delta := Fields(Get(frame, "delta"));
    Heard(if TextIn(delta, "role") != "" then TextIn(delta, "role") else h.role,
          h.reasoning + TextIn(delta, "reasoning_content"), h.content + TextIn(delta, "content"),
          HearTools(h.tools, Items(Get(delta, "tool_calls"))),
          if Get(frame, "finish_reason") != Null then frame["finish_reason"] else h.finish)
  }

  function HearChoice(heard: map<Json, Heard>, frame: Json): map<Json, Heard> {
    var f := Fields(frame);
    var at := Get(f, "index");
    heard[at := HearFrame(if at in heard then heard[at] else SILENT, f)]
  }

  function HearChoices(heard: map<Json, Heard>, frames: seq<Json>): map<Json, Heard> {
    if frames == [] then heard else HearChoice(HearChoices(heard, frames[..|frames| - 1]), frames[|frames| - 1])
  }

  function HearChunk(t: Transcript, chunk: Json): Transcript {
    var c := Fields(chunk);
    Transcript(HearChoices(t.choices, Items(Get(c, "choices"))), if "usage" in c then Some(c["usage"]) else t.usage)
  }

  function HearChunks(t: Transcript, chunks: seq<Json>): Transcript {
    if chunks == [] then t else HearChunk(HearChunks(t, chunks[..|chunks| - 1]), chunks[|chunks| - 1])
  }

  /** Everything up to the final marker, decoded; nothing if a payload does not
      decode, if the marker is missing, or if something follows it. */
  function Received(loads: string -> Option<Json>, events: seq<Event>): Option<seq<Json>> {
    if events == [] then None
    else if events[0].data == DONE then if |events| == 1 then Some([]) else None
    else
      var first, rest := loads(events[0].data), Received(loads, events[1..]);
      if first == None || rest == None then None else Some([first.value] + rest.value)
  }

  /** The client: from the text of the response to what it heard. */
  function Listen(loads: string -> Option<Json>, stream: string): Option<Transcript> {
    var chunks := Received(loads, EventsOf(stream));
    if chunks == None then None else Some(HearChunks(NOTHING, chunks.value))
  }

  // ---- What should be heard ----

  /** Null, false, zero, and everything empty. */
  predicate Blank(j: Json) {
    j == Null || j == Bool(false) || j == Num(0) || j == Str("") || j == Arr([]) || j == Obj(map[])
  }

  /** Why the choice ended: the reason it gives, or else that it calls tools, or that it stopped. */
  function EndOf(choice: Dict, calls: seq<Json>): Json {
    if !Blank(Get(choice, "finish_reason")) then choice["finish_reason"]
    else if calls == [] then Str("stop")
    else Str("tool_calls")
  }

  /** What a choice of the completion says; absent text counts as empty. */
  function Said(choice: Json): Heard {
    var c := Fields(choice);
    var message := Fields(Get(c, "message"));
    var calls := if Blank(Get(message, "tool_calls")) then [] else Items(message["tool_calls"]);
    Heard("assistant", TextIn(message, "reasoning_content"), TextIn(message, "content"), Placed(calls), EndOf(c, calls))
  }

  /** The calls by position, without any index of their own. */
  function Placed(calls: seq<Json>): map<Json, Dict> {
    map j: Json | j in Positions(|calls|) :: Fields(calls[j.n]) - {"index"}
  }

  function Positions(n: nat): (s: set<Json>)
    ensures forall j :: j in s <==> j.Num? && 0 <= j.n < n
  {
    set i | 0 <= i < n :: Num(i)
  }

  // ---- Choices ----

  lemma PlacedOneMore(calls: seq<Json>, n: nat)
    requires 0 < n <= |calls|
    ensures Num(n - 1) !in Placed(calls[..n - 1])
    ensures Placed(calls[..n]) == Placed(calls[..n - 1])[Num(n - 1) := Fields(calls[n - 1]) - {"index"}]
  {
    hide Fields;
    var after := Placed(calls[..n - 1])[Num(n - 1) := Fields(calls[n - 1]) - {"index"}];
    forall j: Json | j in Positions(n)
      ensures j in after && Placed(calls[..n])[j] == after[j]
    {
      if j.n < n - 1 {
        assert calls[..n - 1][j.n] == calls[..n][j.n];
      }
    }
    assert Placed(calls[..n]).Keys == after.Keys;
  }

  lemma NewTool(tools: map<Json, Dict>, call: Dict, n: nat)
    requires Num(n) !in tools
    ensures HearTool(tools, Obj(call["index" := Num(n)])) == tools[Num(n) := call - {"index"}]
  {
    assert call["index" := Num(n)] - {"index"} == call - {"index"};
  }

  lemma {:induction false} ToolsHeard(calls: seq<Json>, n: nat)
    requires n <= |calls| && forall i | 0 <= i < |calls| :: calls[i].Obj?
    ensures HearTools(map[], Numbered(calls)[..n]) == Placed(calls[..n])
  {
    hide HearTool, Placed;
    var all := Numbered(calls);
    if n == 0 {
      NonePlaced();
      assert calls[..0] == [];
    } else {
      ToolsHeard(calls, n - 1);
      assert all[..n][..n - 1] == all[..n - 1] && all[..n][n - 1] == all[n - 1];
      PlacedOneMore(calls, n);
      NewTool(Placed(calls[..n - 1]), calls[n - 1].fields, n - 1);
    }
  }

  lemma NonePlaced()
    ensures Placed([]) == map[]
  {
  }

  function HearFrames(h: Heard, frames: seq<Json>): Heard {
    if frames == [] then h else HearFrame(HearFrames(h, frames[..|frames| - 1]), Fields(frames[|frames| - 1]))
  }

  /** Frames of one index change only what is heard at that index. */
  lemma {:induction false} FramesOfOne(heard: map<Json, Heard>, frames: seq<Json>, at: Json)
    requires at !in heard && frames != []
    requires forall i | 0 <= i < |frames| :: Get(Fields(frames[i]), "index") == at
    ensures HearChoices(heard, frames) == heard[at := HearFrames(SILENT, frames)]
    decreases |frames|
  {
    hide HearFrame;
    var n := |frames| - 1;
    if n == 0 {
      assert frames[..0] == [];
    } else {
      FramesOfOne(heard, frames[..n], at);
    }
  }

  lemma {:induction false} HearFramesSplit(h: Heard, a: seq<Json>, b: seq<Json>)
    ensures HearFrames(h, a + b) == HearFrames(HearFrames(h, a), b)
    decreases |b|
  {
    hide HearFrame;
    if b == [] {
      assert a + b == a;
    } else {
      assert (a + b)[..|a + b| - 1] == a + b[..|b| - 1];
      HearFramesSplit(h, a, b[..|b| - 1]);
    }
  }

  lemma OneFrame(h: Heard, index: Json, delta: Dict, reason: Json)
    ensures HearFrames(h, [Frame(index, delta, reason)])
      == Heard(if TextIn(delta, "role") != "" then TextIn(delta, "role") else h.role,
               h.reasoning + TextIn(delta, "reasoning_content"), h.content + TextIn(delta, "content"),
               HearTools(h.tools, Items(Get(delta, "tool_calls"))), if reason != Null then reason else h.finish)
    ensures Get(Fields(Frame(index, delta, reason)), "index") == index
  {
    var f := Frame(index, delta, reason);
    assert [f][..0] == [];
    hide HearTools, TextIn;
  }

  /** The frames of one choice, heard in silence, say exactly what the choice says. */
  lemma ChoiceHeard(choice: Json, ordinal: nat)
    requires ChoiceFrames(choice, ordinal).Some?
    ensures var frames := ChoiceFrames(choice, ordinal).value;
      && frames != [] && HearFrames(SILENT, frames) == Said(choice)
      && forall i | 0 <= i < |frames| :: Get(Fields(frames[i]), "index") == IndexOf(choice.fields, ordinal)
  {
    hide Frame, GoodCall, HearFrames, HearTools, Placed, Numbered, TextIn, TextFrames, CallsOf;
    CallsSaid(choice.fields["message"].fields);
    ReasonIsGiven(choice.fields, CallsOf(choice.fields["message"].fields).value);
    hide ReasonOf, Truthy, EndOf, Blank;
    var message, index := choice.fields["message"].fields, IndexOf(choice.fields, ordinal);
    var reasoning := TextFrames(index, message, "reasoning_content").value;
    var content := TextFrames(index, message, "content").value;
    var calls := CallsOf(message).value;
    var opening := [Frame(index, map["role" := Str("assistant"), "content" := Str("")], Null)];
    var tools := if calls == [] then [] else [Frame(index, map["tool_calls" := Arr(Numbered(calls))], Null)];
    var last := [Frame(index, map[], ReasonOf(choice.fields, calls))];
    var h1 := HearOpening(index);
    HearFramesSplit(SILENT, opening, reasoning);
    var h2 := HearText(h1, index, message, "reasoning_content");
    HearFramesSplit(SILENT, opening + reasoning, content);
    var h3 := HearText(h2, index, message, "content");
    HearFramesSplit(SILENT, opening + reasoning + content, tools);
    var h4 := HearCalls(h3, index, calls);
    HearFramesSplit(SILENT, opening + reasoning + content + tools, last);
    HearLast(h4, index, ReasonOf(choice.fields, calls));
  }

  lemma CallsSaid(message: Dict)
    requires CallsOf(message).Some?
    ensures CallsOf(message).value == if Blank(Get(message, "tool_calls")) then [] else Items(message["tool_calls"])
  {
  }

  lemma ReasonIsGiven(choice: Dict, calls: seq<Json>)
    ensures ReasonOf(choice, calls) == EndOf(choice, calls) != Null
  {
  }

  lemma HearOpening(index: Json) returns (h: Heard)
    ensures var frame := Frame(index, map["role" := Str("assistant"), "content" := Str("")], Null);
      h == HearFrames(SILENT, [frame]) && h == SILENT.(role := "assistant") && Get(Fields(frame), "index") == index
  {
    h := SILENT.(role := "assistant");
    OneFrame(SILENT, index, map["role" := Str("assistant"), "content" := Str("")], Null);
  }

  lemma HearText(h: Heard, index: Json, message: Dict, field: string) returns (r: Heard)
    requires TextFrames(index, message, field).Some? && (field == "reasoning_content" || field == "content")
    ensures var frames := TextFrames(index, message, field).value;
      && r == HearFrames(h, frames)
      && (forall i | 0 <= i < |frames| :: Get(Fields(frames[i]), "index") == index)
    ensures r == if field == "content" then h.(content := h.content + TextIn(message, field))
                 else h.(reasoning := h.reasoning + TextIn(message, field))
  {
    hide Frame;
    r := HearFrames(h, TextFrames(index, message, field).value);
    if TextFrames(index, message, field) != Some([]) {
      OneFrame(h, index, map[field := message[field]], Null);
    } else {
      assert TextIn(message, field) == "";
    }
  }

  lemma HearCalls(h: Heard, index: Json, calls: seq<Json>) returns (r: Heard)
    requires h.tools == map[] && forall i | 0 <= i < |calls| :: calls[i].Obj?
    ensures var frame := Frame(index, map["tool_calls" := Arr(Numbered(calls))], Null);
      && r == HearFrames(h, if calls == [] then [] else [frame])
      && Get(Fields(frame), "index") == index
    ensures r == h.(tools := Placed(calls))
  {
    hide Frame, Placed;
    OneFrame(h, index, map["tool_calls" := Arr(Numbered(calls))], Null);
    ToolsHeard(calls, |calls|);
    assert calls[..|calls|] == calls && Numbered(calls)[..|calls|] == Numbered(calls);
    r := h.(tools := Placed(calls));
  }

  lemma HearLast(h: Heard, index: Json, reason: Json)
    requires reason != Null
    ensures HearFrames(h, [Frame(index, map[], reason)]) == h.(finish := reason)
    ensures Get(Fields(Frame(index, map[], reason)), "index") == index
  {
    OneFrame(h, index, map[], reason);
  }

  // ---- All choices ----

  function IndexAt(choices: seq<Json>, k: nat): Json
    requires k < |choices|
  {
    if "index" in Fields(choices[k]) then Fields(choices[k])["index"] else Num(k)
  }

  function Indices(choices: seq<Json>, n: nat): set<Json>
    requires n <= |choices|
  {
    set k: nat | k < n :: IndexAt(choices, k)
  }

  ghost predicate DistinctIndices(choices: seq<Json>, n: nat)
    requires n <= |choices|
  {
    forall i, j | 0 <= i < j < n :: IndexAt(choices, i) != IndexAt(choices, j)
  }

  lemma IndicesOneMore(choices: seq<Json>, n: nat)
    requires 0 < n <= |choices|
    ensures Indices(choices, n) == Indices(choices, n - 1) + {IndexAt(choices, n - 1)}
  {
    hide IndexAt;
    forall j | j in Indices(choices, n)
      ensures j in Indices(choices, n - 1) + {IndexAt(choices, n - 1)}
    {
      var k: nat :| k < n && IndexAt(choices, k) == j;
    }
  }

  /** As many indices as choices, exactly when they are distinct. */
  lemma {:induction false} IndexCount(choices: seq<Json>, n: nat)
    requires n <= |choices|
    ensures |Indices(choices, n)| <= n
    ensures |Indices(choices, n)| == n <==> DistinctIndices(choices, n)
  {
    hide IndexAt, Indices;
    if n == 0 {
      assert Indices(choices, 0) == {} by { NoIndices(choices); }
    } else {
      IndexCount(choices, n - 1);
      IndicesOneMore(choices, n);
      IndexIsIn(choices, n - 1);
    }
  }

  lemma NoIndices(choices: seq<Json>)
    ensures Indices(choices, 0) == {}
  {
  }

  lemma IndexIsIn(choices: seq<Json>, n: nat)
    requires n < |choices|
    ensures IndexAt(choices, n) in Indices(choices, n) <==>
      exists k: nat :: k < n && IndexAt(choices, k) == IndexAt(choices, n)
  {
    hide IndexAt;
  }

  lemma {:induction false} HearChoicesSplit(heard: map<Json, Heard>, a: seq<Json>, b: seq<Json>)
    ensures HearChoices(heard, a + b) == HearChoices(HearChoices(heard, a), b)
    decreases |b|
  {
    hide HearChoice;
    if b == [] {
      assert a + b == a;
    } else {
      assert (a + b)[..|a + b| - 1] == a + b[..|b| - 1];
      HearChoicesSplit(heard, a, b[..|b| - 1]);
    }
  }

  lemma {:induction false} FramesKeepOthers(heard: map<Json, Heard>, frames: seq<Json>, at: Json)
    requires frames != [] && forall i | 0 <= i < |frames| :: Get(Fields(frames[i]), "index") == at
    ensures HearChoices(heard, frames).Keys == heard.Keys + {at}
    decreases |frames|
  {
    hide HearFrame;
    if |frames| > 1 {
      FramesKeepOthers(heard, frames[..|frames| - 1], at);
    } else {
      assert frames[..0] == [];
    }
  }

  lemma {:induction false} AllHeard(choices: seq<Json>, n: nat)
    requires n <= |choices| && FramesUpTo(choices, n).Some?
    ensures HearChoices(map[], FramesUpTo(choices, n).value).Keys == Indices(choices, n)
    ensures DistinctIndices(choices, n) ==> forall k: nat | k < n ::
      var heard := HearChoices(map[], FramesUpTo(choices, n).value);
      IndexAt(choices, k) in heard && heard[IndexAt(choices, k)] == Said(choices[k])
  {
    hide ChoiceFrames, HearChoices, Said, HearFrames, Indices, IndexOf;
    if n == 0 {
      NoIndices(choices);
      assert HearChoices(map[], []) == map[] by { HearNothing(); }
    } else {
      AllHeard(choices, n - 1);
      var before := FramesUpTo(choices, n - 1).value;
      var frames := ChoiceFrames(choices[n - 1], n - 1).value;
      ChoiceHeard(choices[n - 1], n - 1);
      IsObject(choices[n - 1], n - 1);
      HearChoicesSplit(map[], before, frames);
      var heard := HearChoices(map[], before);
      FramesKeepOthers(heard, frames, IndexAt(choices, n - 1));
      IndicesOneMore(choices, n);
      IndexIsIn(choices, n - 1);
      if DistinctIndices(choices, n) {
        FramesOfOne(heard, frames, IndexAt(choices, n - 1));
      }
    }
  }

  lemma HearNothing()
    ensures HearChoices(map[], []) == map[]
  {
  }

  lemma IsObject(choice: Json, ordinal: nat)
    requires ChoiceFrames(choice, ordinal).Some?
    ensures choice.Obj? && Fields(choice) == choice.fields
    ensures IndexOf(choice.fields, ordinal) == if "index" in choice.fields then choice.fields["index"] else Num(ordinal)
  {
  }

  // ---- The whole stream ----

  /** What is asked of JSON text: it reads back, it has no raw line break, and the marker is not JSON. */
  ghost predicate JsonText(dumps: Json -> string, loads: string -> Option<Json>) {
    && (forall j :: OneLine(dumps(j)) && loads(dumps(j)) == Some(j))
    && loads(DONE) == None
  }

  lemma {:induction false} ChunksReceived(dumps: Json -> string, loads: string -> Option<Json>, chunks: seq<Json>)
    requires JsonText(dumps, loads)
    ensures Received(loads, Messages(Texts(dumps, chunks) + [DONE])) == Some(chunks)
  {
    var events := Messages(Texts(dumps, chunks) + [DONE]);
    if chunks != [] {
      assert dumps(chunks[0]) != DONE;
      assert Texts(dumps, chunks)[1..] == Texts(dumps, chunks[1..]);
      assert events[1..] == Messages(Texts(dumps, chunks[1..]) + [DONE]);
      assert [chunks[0]] + chunks[1..] == chunks;
      ChunksReceived(dumps, loads, chunks[1..]);
    }
  }

  lemma {:induction false} ChunkedHeard(common: Dict, frames: seq<Json>, n: nat)
    requires n <= |frames| && "usage" !in common
    ensures HearChunks(NOTHING, Chunked(common, frames)[..n]) == Transcript(HearChoices(map[], frames[..n]), None)
  {
    hide HearChoice;
    var all := Chunked(common, frames);
    if n > 0 {
      ChunkedHeard(common, frames, n - 1);
      assert all[..n][..n - 1] == all[..n - 1] && all[..n][n - 1] == Chunk(common, [frames[n - 1]]);
      assert frames[..n][..n - 1] == frames[..n - 1];
      var before := HearChoices(map[], frames[..n - 1]);
      assert [frames[n - 1]][..0] == [];
      assert HearChoices(before, [frames[n - 1]]) == HearChoice(before, frames[n - 1]);
    }
  }

  /** The transcript holds every choice of the completion, each under its index, and nothing else. */
  ghost predicate Recovers(t: Transcript, choices: seq<Json>) {
    && |t.choices| == |choices|
    && forall k: nat | k < |choices| ::
         IndexAt(choices, k) in t.choices && t.choices[IndexAt(choices, k)] == Said(choices[k])
  }

  /** The round trip: a standard reader receives the chunks and then the marker,
      once and last; the client that folds them hears the usage that was asked
      for, and recovers the choices if and only if their indices are distinct. */
  lemma StreamRecovers(dumps: Json -> string, loads: string -> Option<Json>, body: Dict, includeUsage: bool,
                       d: Defaults)
    requires JsonText(dumps, loads) && Chunks(body, includeUsage, d).Some?
    ensures var chunks := Chunks(body, includeUsage, d).value;
      var text, choices := Wire(dumps, chunks), body["choices"].items;
      && EventsOf(text) == Messages(Texts(dumps, chunks)) + [Event("message", "[DONE]")]
      && (forall e | e in Messages(Texts(dumps, chunks)) :: e.data != "[DONE]")
      && Listen(loads, text).Some?
      && var t := Listen(loads, text).value;
         && t.usage == (if includeUsage then Some(Get(body, "usage")) else None)
         && (Recovers(t, choices) <==> DistinctIndices(choices, |choices|))
  {
    hide HearChoices, ChoiceFrames, HearChunk, IndexAt, Indices, Said, Block, FramesUpTo;
    var chunks := Chunks(body, includeUsage, d).value;
    var payloads, choices := Texts(dumps, chunks) + [DONE], body["choices"].items;
    StreamReadsBack(payloads);
    assert Messages(payloads) == Messages(Texts(dumps, chunks)) + [Event("message", DONE)];
    ChunksReceived(dumps, loads, chunks);
    var frames := FramesUpTo(choices, |choices|).value;
    EverythingHeard(body, includeUsage, d, frames);
    AllHeard(choices, |choices|);
    IndexCount(choices, |choices|);
    var heard := HearChoices(map[], frames);
    assert |heard| == |heard.Keys|;
  }

  lemma EverythingHeard(body: Dict, includeUsage: bool, d: Defaults, frames: seq<Json>)
    ensures var chunked := Chunked(Common(body, d), frames);
      HearChunks(NOTHING, chunked + if includeUsage then [UsageChunk(Common(body, d), Get(body, "usage"))] else [])
      == Transcript(HearChoices(map[], frames), if includeUsage then Some(Get(body, "usage")) else None)
  {
    hide HearChoice;
    var common := Common(body, d);
    var chunked := Chunked(common, frames);
    ChunkedHeard(common, frames, |frames|);
    assert chunked[..|frames|] == chunked && frames[..|frames|] == frames;
    assert chunked + [] == chunked;
    var last := UsageChunk(common, Get(body, "usage"));
    assert (chunked + [last])[..|frames|] == chunked;
  }

  /** Every chunk carries the identity of the completion: its own id, time and
      model, or the fallback where the body has none; an id that is blank is none. */
  lemma EveryChunkIsStamped(body: Dict, includeUsage: bool, d: Defaults, chunk: Json)
    requires Chunks(body, includeUsage, d).Some? && chunk in Chunks(body, includeUsage, d).value
    ensures chunk.Obj? && {"id", "object", "created", "model", "choices"} <= chunk.fields.Keys
    ensures chunk.fields["object"] == Str("chat.completion.chunk")
    ensures chunk.fields["id"] == if Blank(Get(body, "id")) then Str(d.id) else body["id"]
    ensures chunk.fields["created"] == if "created" in body then body["created"] else Num(d.created)
    ensures chunk.fields["model"] == if "model" in body then body["model"] else Str(d.modelName)
  {
    hide FramesUpTo;
  }

  // ---- The order of the frames of a choice ----

  /** What kind of frame may come when: the opening, reasoning, content, calls, the end. */
  function Turn(delta: Json): int {
    if delta == Obj(map["role" := Str("assistant"), "content" := Str("")]) then 0
    else if !delta.Obj? then -1
    else if delta.fields.Keys == {"reasoning_content"} then 1
    else if delta.fields.Keys == {"content"} then 2
    else if delta.fields.Keys == {"tool_calls"} then 3
    else if delta.fields == map[] then 4
    else -1
  }

  /** One frame: three fields, and a finish reason only at the end. */
  predicate FrameInOrder(frame: Json, index: Json) {
    && frame.Obj? && frame.fields.Keys == {"index", "delta", "finish_reason"} && frame.fields["index"] == index
    && Turn(frame.fields["delta"]) >= 0
    && (frame.fields["finish_reason"] == Null <==> Turn(frame.fields["delta"]) != 4)
  }

  function TurnOf(frame: Json): int {
    Turn(Get(Fields(frame), "delta"))
  }

  /** No frame, or one whose turn it is. */
  predicate AtMostOne(frames: seq<Json>, index: Json, turn: int) {
    |frames| <= 1 && forall f | f in frames :: FrameInOrder(f, index) && TurnOf(f) == turn
  }

  lemma FrameTurn(index: Json, delta: Dict, reason: Json)
    requires Turn(Obj(delta)) >= 0 && (reason == Null <==> Turn(Obj(delta)) != 4)
    ensures FrameInOrder(Frame(index, delta, reason), index) && TurnOf(Frame(index, delta, reason)) == Turn(Obj(delta))
  {
  }

  lemma TextTurn(index: Json, message: Dict, field: string)
    requires TextFrames(index, message, field).Some? && (field == "reasoning_content" || field == "content")
    ensures AtMostOne(TextFrames(index, message, field).value, index, if field == "content" then 2 else 1)
  {
    var delta := map[field := Get(message, field)];
    assert delta.Keys == {field};
    FrameTurn(index, delta, Null);
    hide Frame, FrameInOrder, TurnOf;
  }

  /** The frames of a choice come in order: first the opening with the role, last
      the end with the reason, and between them at most one each of the reasoning,
      the content and the calls, in this order. All carry the index of the choice. */
  lemma FramesInOrder(choice: Json, ordinal: nat)
    requires ChoiceFrames(choice, ordinal).Some?
    ensures choice.Obj?
    ensures var frames := ChoiceFrames(choice, ordinal).value;
      var index := if "index" in choice.fields then choice.fields["index"] else Num(ordinal);
      && |frames| >= 2 && TurnOf(frames[0]) == 0 && TurnOf(frames[|frames| - 1]) == 4
      && (forall i | 0 <= i < |frames| :: FrameInOrder(frames[i], index))
      && (forall i, j | 0 <= i < j < |frames| :: TurnOf(frames[i]) < TurnOf(frames[j]))
  {
    var index := if "index" in choice.fields then choice.fields["index"] else Num(ordinal);
    var message := choice.fields["message"].fields;
    var calls := CallsOf(message).value;
    TextTurn(index, message, "reasoning_content");
    TextTurn(index, message, "content");
    ReasonIsGiven(choice.fields, calls);
    FixedTurns(index, Arr(Numbered(calls)), ReasonOf(choice.fields, calls));
    hide Frame, FrameInOrder, TurnOf, TextFrames, ReasonOf, CallsOf, Numbered, EndOf;
    var opening := [Frame(index, map["role" := Str("assistant"), "content" := Str("")], Null)];
    var tools := if calls == [] then [] else [Frame(index, map["tool_calls" := Arr(Numbered(calls))], Null)];
    InTurns(opening, TextFrames(index, message, "reasoning_content").value,
            TextFrames(index, message, "content").value, tools, [Frame(index, map[], ReasonOf(choice.fields, calls))],
            index);
  }

  lemma FixedTurns(index: Json, calls: Json, reason: Json)
    requires reason != Null
    ensures AtMostOne([Frame(index, map["role" := Str("assistant"), "content" := Str("")], Null)], index, 0)
    ensures AtMostOne([Frame(index, map["tool_calls" := calls], Null)], index, 3)
    ensures AtMostOne([Frame(index, map[], reason)], index, 4)
  {
    var tools: Dict, none: Dict := map["tool_calls" := calls], map[];
    assert tools.Keys == {"tool_calls"} && none.Keys == {};
    assert "role" !in tools && "role" !in none && "tool_calls" in tools;
    assert "content" !in tools && "reasoning_content" !in tools;
    FrameTurn(index, map["role" := Str("assistant"), "content" := Str("")], Null);
    FrameTurn(index, tools, Null);
    FrameTurn(index, none, reason);
    hide Frame, FrameInOrder, TurnOf;
  }

  lemma InTurns(a: seq<Json>, b: seq<Json>, c: seq<Json>, d: seq<Json>, e: seq<Json>, index: Json)
    requires |a| == |e| == 1 && AtMostOne(a, index, 0) && AtMostOne(b, index, 1) && AtMostOne(c, index, 2)
    requires AtMostOne(d, index, 3) && AtMostOne(e, index, 4)
    ensures var frames := a + b + c + d + e;
      && |frames| >= 2 && TurnOf(frames[0]) == 0 && TurnOf(frames[|frames| - 1]) == 4
      && (forall i | 0 <= i < |frames| :: FrameInOrder(frames[i], index))
      && (forall i, j | 0 <= i < j < |frames| :: TurnOf(frames[i]) < TurnOf(frames[j]))
  {
    hide FrameInOrder, TurnOf;
    assert forall s: seq<Json>, turn | |s| == 1 && AtMostOne(s, index, turn) :: s[0] in s;
  }

  // ---- Which bodies can be encoded ----

  predicate TextOrNothing(message: Dict, field: string) {
    Get(message, field) == Null || Get(message, field).Str?
  }

  /** A choice in order: an object with a message whose texts are texts or absent
      and whose tool calls, if any, are complete. */
  predicate WellFormed(choice: Json) {
    && choice.Obj? && Get(choice.fields, "message").Obj?
    && var message := choice.fields["message"].fields;
       && TextOrNothing(message, "reasoning_content") && TextOrNothing(message, "content")
       && (!Blank(Get(message, "tool_calls")) ==>
             && message["tool_calls"].Arr?
             && forall call | call in message["tool_calls"].items :: CompleteCall(call))
  }

  predicate HasText(j: Json, key: string) {
    j.Obj? && Get(j.fields, key).Str?
  }

  /** An identified call of a named function with its arguments. */
  predicate CompleteCall(call: Json) {
    && HasText(call, "id")
    && HasText(Get(call.fields, "function"), "name") && HasText(Get(call.fields, "function"), "arguments")
  }

  lemma {:induction false} EncodesPrefix(choices: seq<Json>, n: nat)
    requires n <= |choices|
    ensures FramesUpTo(choices, n).Some? <==> forall k | 0 <= k < n :: WellFormed(choices[k])
  {
    hide WellFormed, ChoiceFrames;
    if n > 0 {
      EncodesPrefix(choices, n - 1);
      EncodesChoice(choices[n - 1], n - 1);
    }
  }

  lemma EncodesChoice(choice: Json, ordinal: nat)
    ensures ChoiceFrames(choice, ordinal).Some? <==> WellFormed(choice)
  {
    hide Frame, TextFrames;
    assert forall call :: GoodCall(call) <==> CompleteCall(call);
    hide GoodCall, CompleteCall;
    TextsAgree(Fields(Get(Fields(choice), "message")));
  }

  lemma TextsAgree(message: Dict)
    ensures TextFrames(Null, message, "content").Some? <==> TextOrNothing(message, "content")
    ensures forall index, field :: TextFrames(index, message, field).Some? <==> TextOrNothing(message, field)
  {
  }

  /** An answer is encoded exactly when every choice is in order; otherwise nothing is sent. */
  lemma EncodesExactlyWhen(body: Dict, includeUsage: bool, d: Defaults)
    ensures Chunks(body, includeUsage, d).Some?
      <==> Get(body, "choices").Arr? && forall choice | choice in body["choices"].items :: WellFormed(choice)
  {
    hide WellFormed, FramesUpTo;
    if Get(body, "choices").Arr? {
      EncodesPrefix(body["choices"].items, |body["choices"].items|);
    }
  }
}
