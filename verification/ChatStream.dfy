/**
 Buffered server-sent events for chat completions: a finished completion is cut
 into the chunks of a streaming answer and written as an event stream. How JSON
 is turned into text is a parameter; so are the fallback id and time.
 */
module ChatStream {
  import opened Prelude
  import opened Json

  /** What is used when the body has no id, time or model of its own. */
  datatype Defaults = Defaults(id: string, created: int, modelName: string)

  function Fields(j: Json): Dict {
    if j.Obj? then j.fields else map[]
  }

  function Items(j: Json): seq<Json> {
    if j.Arr? then j.items else []
  }

  /** One entry of a chunk's `choices`. */
  function Frame(index: Json, delta: Dict, reason: Json): Json {
    Obj(map["index" := index, "delta" := Obj(delta), "finish_reason" := reason])
  }

  /** The fields that every chunk carries. */
  function Common(body: Dict, d: Defaults): Dict {
    map["id" := if Truthy(Get(body, "id")) then body["id"] else Str(d.id),
        "object" := Str("chat.completion.chunk"),
        "created" := if "created" in body then body["created"] else Num(d.created),
        "model" := if "model" in body then body["model"] else Str(d.modelName)]
  }

  function Chunk(common: Dict, choices: seq<Json>): Json {
    Obj(common["choices" := Arr(choices)])
  }

  function UsageChunk(common: Dict, usage: Json): Json {
    Obj(common["choices" := Arr([])]["usage" := usage])
  }

  function IndexOf(choice: Dict, ordinal: nat): Json {
    if "index" in choice then choice["index"] else Num(ordinal)
  }

  /** At most one frame for a text field; a value that is neither text nor null is an error. */
  function TextFrames(index: Json, message: Dict, field: string): Option<seq<Json>> {
    var value := Get(message, field);
    if value == Null || value == Str("") then Some([])
    else if !value.Str? then None
    else Some([Frame(index, map[field := value], Null)])
  }

  predicate GoodCall(call: Json) {
    && call.Obj? && Get(call.fields, "id").Str?
    && var fn := Get(call.fields, "function");
       fn.Obj? && Get(fn.fields, "name").Str? && Get(fn.fields, "arguments").Str?
  }

  /** The calls with their positions filled in. */
  function Numbered(calls: seq<Json>): (r: seq<Json>)
    requires forall i | 0 <= i < |calls| :: calls[i].Obj?
    ensures |r| == |calls| && forall i | 0 <= i < |calls| :: r[i] == Obj(calls[i].fields["index" := Num(i)])
  {
    seq(|calls|, i requires 0 <= i < |calls| => Obj(calls[i].fields["index" := Num(i)]))
  }

  /** The calls of a message: missing and empty values count as none. */
  function CallsOf(message: Dict): (r: Option<seq<Json>>)
    ensures r.Some? ==> forall i | 0 <= i < |r.value| :: GoodCall(r.value[i]) && r.value[i].Obj?
  {
    var calls := Get(message, "tool_calls");
    if !Truthy(calls) then Some([])
    else if !calls.Arr? then None
    else if exists i | 0 <= i < |calls.items| :: !GoodCall(calls.items[i]) then None
    else Some(calls.items)
  }

  function ReasonOf(choice: Dict, calls: seq<Json>): Json {
    if Truthy(Get(choice, "finish_reason")) then choice["finish_reason"]
    else Str(if calls != [] then "tool_calls" else "stop")
  }

  /** All frames of one choice, in the order in which they are emitted. */
  function ChoiceFrames(choice: Json, ordinal: nat): Option<seq<Json>> {
    if !choice.Obj? || !Get(choice.fields, "message").Obj? then None
    else
      var message, index := choice.fields["message"].fields, IndexOf(choice.fields, ordinal);
      var reasoning, content := TextFrames(index, message, "reasoning_content"), TextFrames(index, message, "content");
      var calls := CallsOf(message);
      if reasoning == None || content == None || calls == None then None
      else
        var opening := Frame(index, map["role" := Str("assistant"), "content" := Str("")], Null);
        var tools := if calls.value == [] then []
                     else [Frame(index, map["tool_calls" := Arr(Numbered(calls.value))], Null)];
        Some([opening] + reasoning.value + content.value + tools
             + [Frame(index, map[], ReasonOf(choice.fields, calls.value))])
  }

  /** The frames of the first `n` choices. */
  function FramesUpTo(choices: seq<Json>, n: nat): Option<seq<Json>>
    requires n <= |choices|
  {
    if n == 0 then Some([])
    else
      var before, last := FramesUpTo(choices, n - 1), ChoiceFrames(choices[n - 1], n - 1);
      if before == None || last == None then None else Some(before.value + last.value)
  }

  function Chunked(common: Dict, frames: seq<Json>): (r: seq<Json>)
    ensures |r| == |frames| && forall i | 0 <= i < |frames| :: r[i] == Chunk(common, [frames[i]])
  {
    seq(|frames|, i requires 0 <= i < |frames| => Chunk(common, [frames[i]]))
  }

  /** The chunks of a whole answer; nothing when the body cannot be encoded. */
  function Chunks(body: Dict, includeUsage: bool, d: Defaults): Option<seq<Json>> {
    var choices := Get(body, "choices");
    if !choices.Arr? then None
    else
      var frames := FramesUpTo(choices.items, |choices.items|);
      if frames == None then None
      else
        Some(Chunked(Common(body, d), frames.value)
             + if includeUsage then [UsageChunk(Common(body, d), Get(body, "usage"))] else [])
  }

  // ---- The event stream ----

  const DONE := "[DONE]"

  function Block(payload: string): string {
    "data: " + payload + "\n\n"
  }

  function Blocks(payloads: seq<string>): (r: seq<string>)
    ensures |r| == |payloads| && forall i | 0 <= i < |payloads| :: r[i] == Block(payloads[i])
  {
    seq(|payloads|, i requires 0 <= i < |payloads| => Block(payloads[i]))
  }

  function Concat(parts: seq<string>): string {
    if parts == [] then "" else parts[0] + Concat(parts[1..])
  }

  function Texts(dumps: Json -> string, values: seq<Json>): (r: seq<string>)
    ensures |r| == |values| && forall i | 0 <= i < |values| :: r[i] == dumps(values[i])
  {
    seq(|values|, i requires 0 <= i < |values| => dumps(values[i]))
  }

  /** The body of the response for some chunks. */
  function Wire(dumps: Json -> string, chunks: seq<Json>): string {
    Concat(Blocks(Texts(dumps, chunks) + [DONE]))
  }

  // ---- The encoder as it is written: it appends to a list of events ----

  class Encoder {
    const dumps: Json -> string
    const common: Dict
    var events: seq<string>

    constructor (dumps: Json -> string, common: Dict)
      ensures this.dumps == dumps && this.common == common && events == []
    {
      this.dumps, this.common, events := dumps, common, [];
    }

    ghost predicate Holds(chunks: seq<Json>)
      reads this
    {
      events == Blocks(Texts(dumps, chunks))
    }

    method Emit(chunk: Json, ghost chunks: seq<Json>)
      requires Holds(chunks)
      modifies this
      ensures Holds(chunks + [chunk])
    {
      events := events + [Block(dumps(chunk))];
    }

    method EmitFrame(frame: Json, ghost frames: seq<Json>)
      requires Holds(Chunked(common, frames))
      modifies this
      ensures Holds(Chunked(common, frames + [frame]))
    {
      hide Chunk;
      Emit(Chunk(common, [frame]), Chunked(common, frames));
      assert Chunked(common, frames) + [Chunk(common, [frame])] == Chunked(common, frames + [frame]);
    }

    /** The loop over the tool calls of a message. */
    method NumberCalls(calls: seq<Json>) returns (tools: Option<seq<Json>>)
      ensures tools == if exists i | 0 <= i < |calls| :: !GoodCall(calls[i]) then None else Some(Numbered(calls))
    {
      var found: seq<Json> := [];
      for n := 0 to |calls|
        invariant forall i | 0 <= i < n :: GoodCall(calls[i])
        invariant |found| == n && forall i | 0 <= i < n :: found[i] == Obj(calls[i].fields["index" := Num(i)])
      {
        if !GoodCall(calls[n]) {
          return None;
        }
        found := found + [Obj(calls[n].fields["index" := Num(n)])];
      }
      assert found == Numbered(calls);
      tools := Some(found);
    }

    /** The loop over the two text fields. */
    method EmitTexts(index: Json, message: Dict, ghost frames: seq<Json>) returns (ok: bool, ghost after: seq<Json>)
      requires Holds(Chunked(common, frames))
      modifies this
      ensures
        var reasoning := TextFrames(index, message, "reasoning_content");
        var content := TextFrames(index, message, "content");
        && ok == (reasoning.Some? && content.Some?)
        && (ok ==> after == frames + reasoning.value + content.value && Holds(Chunked(common, after)))
    {
      after := frames;
      var fields := ["reasoning_content", "content"];
      for i := 0 to 2
        invariant Holds(Chunked(common, after))
        invariant forall j | 0 <= j < i :: TextFrames(index, message, fields[j]).Some?
        invariant after == frames
          + (if i > 0 then TextFrames(index, message, fields[0]).value else [])
          + (if i > 1 then TextFrames(index, message, fields[1]).value else [])
      {
        var value := Get(message, fields[i]);
        if value != Null && !value.Str? {
          return false, after;
        }
        if value != Null && value != Str("") {
          EmitFrame(Frame(index, map[fields[i] := value], Null), after);
          after := after + [Frame(index, map[fields[i] := value], Null)];
        }
      }
      ok := true;
    }

    /** The body of the loop over the choices. */
    method EmitChoice(choice: Json, ordinal: nat, ghost frames: seq<Json>) returns (ok: bool)
      requires Holds(Chunked(common, frames))
      modifies this
      ensures ok == ChoiceFrames(choice, ordinal).Some?
      ensures ok ==> Holds(Chunked(common, frames + ChoiceFrames(choice, ordinal).value))
    {
      hide Holds, Frame, Chunked, TextFrames, GoodCall, IndexOf, ReasonOf, Numbered;
      if !choice.Obj? || !Get(choice.fields, "message").Obj? {
        return false;
      }
      var message, index := choice.fields["message"].fields, IndexOf(choice.fields, ordinal);
      var opening := Frame(index, map["role" := Str("assistant"), "content" := Str("")], Null);
      EmitFrame(opening, frames);
      ghost var after;
      ok, after := EmitTexts(index, message, frames + [opening]);
      if !ok {
        return;
      }
      var calls := Get(message, "tool_calls");
      if !Truthy(calls) {
        calls := Arr([]);
      } else if !calls.Arr? {
        return false;
      }
      if calls.items != [] {
        var tools := NumberCalls(calls.items);
        if tools == None {
          return false;
        }
        var toolFrame := Frame(index, map["tool_calls" := Arr(tools.value)], Null);
        EmitFrame(toolFrame, after);
        after := after + [toolFrame];
      }
      var last := Frame(index, map[], ReasonOf(choice.fields, calls.items));
      EmitFrame(last, after);
      after := after + [last];
      ghost var all := ChoiceFrames(choice, ordinal).value;
      assert after == frames + all;
    }
  }

  lemma {:induction false} FailureStays(choices: seq<Json>, i: nat, n: nat)
    requires i <= n <= |choices| && FramesUpTo(choices, i) == None
    ensures FramesUpTo(choices, n) == None
    decreases n - i
  {
    if i < n {
      FailureStays(choices, i + 1, n);
    }
  }

  method BufferedSse(dumps: Json -> string, body: Dict, includeUsage: bool, d: Defaults) returns (text: Option<string>)
    requires Get(body, "choices").Arr?
    ensures var chunks := Chunks(body, includeUsage, d);
      text == if chunks == None then None else Some(Wire(dumps, chunks.value))
  {
    hide ChoiceFrames, Block, Common, UsageChunk, Chunk;
    var common := Common(body, d);
    var encoder := new Encoder(dumps, common);
    var choices := body["choices"].items;
    ghost var frames := [];
    for ordinal := 0 to |choices|
      invariant fresh(encoder)
      invariant FramesUpTo(choices, ordinal) == Some(frames)
      invariant encoder.Holds(Chunked(common, frames))
    {
      var ok := encoder.EmitChoice(choices[ordinal], ordinal, frames);
      if !ok {
        FailureStays(choices, ordinal + 1, |choices|);
        return None;
      }
      frames := frames + ChoiceFrames(choices[ordinal], ordinal).value;
    }
    ghost var chunks := Chunked(common, frames);
    assert chunks + [] == chunks;
    if includeUsage {
      encoder.Emit(UsageChunk(common, Get(body, "usage")), chunks);
      chunks := chunks + [UsageChunk(common, Get(body, "usage"))];
    }
    assert encoder.events + [Block(DONE)] == Blocks(Texts(dumps, chunks) + [DONE]);
    text := Some(Concat(encoder.events + [Block(DONE)]));
  }
}
