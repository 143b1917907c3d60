/**
 * `ModelProxyService.sse_body`: one finalized chat completion replayed as a server-sent event stream, and the client
 * that folds the stream's deltas back (framing as in section 9.2 of the WHATWG HTML standard).
 */
module SseReplay {
  import opened Options
  import opened Json

  datatype SseError = NoChoices | NoMessage | ToolCallsNotArray | FunctionNotObject

  // ---------------------------------------------------------------- reading the response

  /** A numeric literal of value zero. */
  predicate ZeroLiteral(s: string) {
    s == "" || s[0] == 'e' || s[0] == 'E' || (!('1' <= s[0] <= '9') && ZeroLiteral(s[1..]))
  }

  predicate Falsy(v: Json) {
    match v
    case Null => true
    case Bool(on) => !on
    case Num(literal) => ZeroLiteral(literal)
    case Str(text) => text == ""
    case Arr(items) => items == NoItems
    case Obj(fields) => fields == NoFields
  }

  /** `choices[0]`, when it is an object. */
  function Choice(response: Fields): Option<Fields> {
    match Get(response, "choices")
    case Some(Arr(Item(Obj(choice), _))) => Some(choice)
    case _ => None
  }

  function Message(choice: Fields): Option<Fields> {
    match Get(choice, "message")
    case Some(Obj(message)) => Some(message)
    case _ => None
  }

  /** `message["tool_calls"]`, unless absent or null. */
  function GivenCalls(message: Fields): Option<Json> {
    match Get(message, "tool_calls")
    case Some(Null) => None
    case other => other
  }

  function Content(message: Fields): Json {
    match Get(message, "content")
    case None => Str("")
    case Some(v) => if Falsy(v) then Str("") else v
  }

  function Without(f: Fields, key: string): Fields {
    match f
    case NoFields => NoFields
    case Field(k, v, rest) => if k == key then Without(rest, key) else Field(k, v, Without(rest, key))
  }

  /** The entry with the index that the replay owns. */
  function Indexed(call: Fields, k: nat): Fields {
    Field("index", Num(Decimal(k)), Without(call, "index"))
  }

  /** The object entries, each with its position in the whole list. */
  function Normalized(calls: Items, k: nat): seq<Fields> {
    match calls
    case NoItems => []
    case Item(Obj(call), more) => [Indexed(call, k)] + Normalized(more, k + 1)
    case Item(_, more) => Normalized(more, k + 1)
  }

  function One(response: Fields, key: string, rest: Fields): Fields {
    match Get(response, key)
    case None => rest
    case Some(v) => Field(key, v, rest)
  }

  function Common(response: Fields): Fields {
    One(response, "id", One(response, "object", One(response, "created", One(response, "model", NoFields))))
  }

  // ---------------------------------------------------------------- the chunks

  function Chunk(common: Fields, delta: Fields, finish: Json, extra: Fields): Json {
    Obj(Append(common, Field("choices", Arr(Item(Obj(
      Field("index", Num("0"), Field("delta", Obj(delta), Field("finish_reason", finish, NoFields)))), NoItems)),
        extra)))
  }

  const ROLE := Field("role", Str("assistant"), NoFields)

  function CallDelta(entry: Fields): Fields {
    Field("tool_calls", Arr(Item(Obj(entry), NoItems)), NoFields)
  }

  function Declaration(call: Fields, function_: Fields): Fields {
    Field("index", OrElse(Get(call, "index"), Null), Field("id", OrElse(Get(call, "id"), Null),
      Field("type", OrElse(Get(call, "type"), Str("function")),
        Field("function", Obj(Field("name", OrElse(Get(function_, "name"), Str("")), NoFields)), NoFields))))
  }

  function ArgumentText(arguments: Json): string {
    if arguments.Str? then arguments.text else Compact(arguments)
  }

  function Arguments(call: Fields, function_: Fields): Fields {
    Field("index", OrElse(Get(call, "index"), Null),
      Field("function",
        Obj(Field("arguments", Str(ArgumentText(OrElse(Get(function_, "arguments"), Str("")))), NoFields)), NoFields))
  }

  function FunctionOf(call: Fields): Option<Fields> {
    match Get(call, "function")
    case Some(Obj(f)) => Some(f)
    case _ => None
  }

  predicate AllFunctions(calls: seq<Fields>) {
    forall i :: 0 <= i < |calls| ==> FunctionOf(calls[i]).Some?
  }

  /** A declaration and an argument delta for every call. */
  function CallChunks(common: Fields, calls: seq<Fields>): seq<Json>
    requires AllFunctions(calls)
  {
    if calls == [] then []
    else
      var n := |calls| - 1;
      var f := FunctionOf(calls[n]).value;
      CallChunks(common, calls[..n])
      + [Chunk(common, CallDelta(Declaration(calls[n], f)), Null, NoFields),
         Chunk(common, CallDelta(Arguments(calls[n], f)), Null, NoFields)]
  }

  function LastChunk(response: Fields, choice: Fields): Json {
    Chunk(Common(response), NoFields, OrElse(Get(choice, "finish_reason"), Str("stop")),
          Field("usage", OrElse(Get(response, "usage"), Obj(NoFields)), NoFields))
  }

  /** The whole response can be replayed. */
  predicate Replayable(response: Fields) {
    Choice(response).Some? && Message(Choice(response).value).Some? && (
      var given := GivenCalls(Message(Choice(response).value).value);
      given.Some? ==> given.value.Arr? && AllFunctions(Normalized(given.value.items, 0)))
  }

  function CallsOf(message: Fields): seq<Fields> {
    match GivenCalls(message)
    case Some(Arr(items)) => Normalized(items, 0)
    case _ => []
  }

  function FirstDelta(message: Fields): Fields {
    Field("role", Str("assistant"),
      if GivenCalls(message).Some? then Field("tool_calls", Arr(NoItems), NoFields)
      else Field("content", Content(message), NoFields))
  }

  function Chunks(response: Fields): seq<Json>
    requires Replayable(response)
  {
    var choice := Choice(response).value;
    var message := Message(choice).value;
    var calls := CallsOf(message);
    (if calls == [] then [Chunk(Common(response), FirstDelta(message), Null, NoFields)]
     else [Chunk(Common(response), ROLE, Null, NoFields)] + CallChunks(Common(response), calls))
    + [LastChunk(response, choice)]
  }

  // ---------------------------------------------------------------- the stream

  function Frame(payload: string): string {
    "data: " + payload + "\n\n"
  }

  function Framed(payloads: seq<string>): string {
    if payloads == [] then "" else Framed(payloads[..|payloads| - 1]) + Frame(payloads[|payloads| - 1])
  }

  function Printed(chunks: seq<Json>): seq<string> {
    if chunks == [] then [] else Printed(chunks[..|chunks| - 1]) + [Print(chunks[|chunks| - 1], " ")]
  }

  const DONE := "[DONE]"

  function Stream(chunks: seq<Json>): string {
    Framed(Printed(chunks) + [DONE])
  }

  lemma FramedMore(payloads: seq<string>, p: string)
    ensures Framed(payloads + [p]) == Framed(payloads) + Frame(p)
  {
    assert (payloads + [p])[..|payloads|] == payloads;
  }

  lemma PrintedMore(chunks: seq<Json>, chunk: Json)
    ensures Printed(chunks + [chunk]) == Printed(chunks) + [Print(chunk, " ")]
  {
    assert (chunks + [chunk])[..|chunks|] == chunks;
  }

  /** The frames so far and one more. */
  lemma FramesMore(chunks: seq<Json>, chunk: Json)
    ensures Framed(Printed(chunks + [chunk])) == Framed(Printed(chunks)) + Frame(Print(chunk, " "))
  {
    PrintedMore(chunks, chunk);
    FramedMore(Printed(chunks), Print(chunk, " "));
  }

  /** The loop that normalizes the tool calls. */
  method Normalize(calls: Items) returns (normalized: seq<Fields>)
    ensures normalized == Normalized(calls, 0)
  {
    normalized := [];
    var rest, index := calls, 0;
    while rest.Item?
      invariant normalized + Normalized(rest, index) == Normalized(calls, 0)
      decreases rest
    {
      if rest.head.Obj? {
        normalized := normalized + [Indexed(rest.head.fields, index)];
      }
      rest, index := rest.tail, index + 1;
    }
  }

  function Declared(common: Fields, call: Fields): Json
    requires FunctionOf(call).Some?
  {
    Chunk(common, CallDelta(Declaration(call, FunctionOf(call).value)), Null, NoFields)
  }

  function Argued(common: Fields, call: Fields): Json
    requires FunctionOf(call).Some?
  {
    Chunk(common, CallDelta(Arguments(call, FunctionOf(call).value)), Null, NoFields)
  }

  lemma CallChunksMore(head: seq<Json>, common: Fields, calls: seq<Fields>, n: nat)
    requires n < |calls| && AllFunctions(calls[..n + 1])
    ensures AllFunctions(calls[..n])
    ensures head + CallChunks(common, calls[..n + 1])
            == head + CallChunks(common, calls[..n]) + [Declared(common, calls[n])] + [Argued(common, calls[n])]
  {
    assert calls[..n + 1][..n] == calls[..n];
  }

  /** The frames of the calls so far and the two of the next call. */
  lemma TwoFrames(head: seq<Json>, common: Fields, calls: seq<Fields>, n: nat)
    requires n < |calls| && AllFunctions(calls[..n + 1])
    ensures AllFunctions(calls[..n])
    ensures Framed(Printed(head + CallChunks(common, calls[..n + 1])))
            == Framed(Printed(head + CallChunks(common, calls[..n])))
               + Frame(Print(Declared(common, calls[n]), " ")) + Frame(Print(Argued(common, calls[n]), " "))
  {
    CallChunksMore(head, common, calls, n);
    var before := head + CallChunks(common, calls[..n]);
    FramesMore(before, Declared(common, calls[n]));
    FramesMore(before + [Declared(common, calls[n])], Argued(common, calls[n]));
  }

  /** The loop that splits every call into its declaration and its arguments; `head` stands for the frames before it. */
  method ReplayCalls(ghost head: seq<Json>, frames: string, common: Fields, calls: seq<Fields>)
    returns (r: Result<string, SseError>)
    requires frames == Framed(Printed(head))
    ensures r.Ok? <==> AllFunctions(calls)
    ensures r.Ok? ==> r.value == Framed(Printed(head + CallChunks(common, calls)))
    ensures r.Err? ==> r.error == FunctionNotObject
  {
    var out := frames;
    assert head + [] == head;
    for n := 0 to |calls|
      invariant AllFunctions(calls[..n])
      invariant out == Framed(Printed(head + CallChunks(common, calls[..n])))
    {
      if FunctionOf(calls[n]).None? {
        return Err(FunctionNotObject);
      }
      TwoFrames(head, common, calls, n);
      out := out + Frame(Print(Declared(common, calls[n]), " "));
      out := out + Frame(Print(Argued(common, calls[n]), " "));
    }
    assert calls[..|calls|] == calls;
    return Ok(out);
  }

  lemma StreamIs(chunks: seq<Json>, last: Json)
    ensures Framed(Printed(chunks)) + Frame(Print(last, " ")) + Frame(DONE) == Stream(chunks + [last])
  {
    FramesMore(chunks, last);
    FramedMore(Printed(chunks + [last]), DONE);
  }

  lemma OneFrame(chunk: Json)
    ensures Frame(Print(chunk, " ")) == Framed(Printed([chunk]))
  {
    assert [chunk][..0] == [] && [Print(chunk, " ")][..0] == [];
  }

  predicate HasMessage(response: Fields) {
    Choice(response).Some? && Message(Choice(response).value).Some?
  }

  function MessageOf(response: Fields): Fields
    requires HasMessage(response)
  {
    Message(Choice(response).value).value
  }

  /** `tool_calls` is there and not null, but no list. */
  predicate CallsAreNoList(message: Fields) {
    GivenCalls(message).Some? && !GivenCalls(message).value.Arr?
  }

  method SseBody(response: Fields) returns (r: Result<string, SseError>)
    ensures r.Ok? <==> Replayable(response)
    ensures r.Ok? ==> r.value == Stream(Chunks(response))
    ensures r == Err(NoChoices) <==> Choice(response).None?
    ensures r == Err(NoMessage) <==> Choice(response).Some? && Message(Choice(response).value).None?
    ensures r == Err(ToolCallsNotArray) <==> HasMessage(response) && CallsAreNoList(MessageOf(response))
    ensures r == Err(FunctionNotObject) <==>
              && HasMessage(response) && !CallsAreNoList(MessageOf(response))
              && !AllFunctions(CallsOf(MessageOf(response)))
  {
    if Choice(response).None? {
      return Err(NoChoices);
    }
    var choice := Choice(response).value;
    if Message(choice).None? {
      return Err(NoMessage);
    }
    var message := Message(choice).value;
    var calls: seq<Fields> := [];
    if GivenCalls(message).Some? {
      if !GivenCalls(message).value.Arr? {
        return Err(ToolCallsNotArray);
      }
      calls := Normalize(GivenCalls(message).value.items);
    }
    var common, last := Common(response), LastChunk(response, choice);
    var first := Chunk(common, FirstDelta(message), Null, NoFields);
    var frames := Frame(Print(first, " "));
    OneFrame(first);
    ghost var chunks := [first];
    if calls != [] {
      var role := Chunk(common, ROLE, Null, NoFields);
      OneFrame(role);
      var replayed := ReplayCalls([role], Frame(Print(role, " ")), common, calls);
      if replayed.Err? {
        return Err(replayed.error);
      }
      frames := replayed.value;
      chunks := [role] + CallChunks(common, calls);
    }
    StreamIs(chunks, last);
    return Ok(frames + Frame(Print(last, " ")) + Frame(DONE));
  }
}
