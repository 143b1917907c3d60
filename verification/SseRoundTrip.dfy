/**
 * Replaying a response as a stream and folding the stream gives the response's calls, content and finish reason back.
 */
module SseRoundTrip {
  import opened Options
  import opened Json
  import opened SseReplay
  import opened SseClient

  // ---------------------------------------------------------------- dictionaries

  lemma {:induction false} GetAppend(f: Fields, g: Fields, key: string)
    requires key !in Keys(f)
    ensures Get(Append(f, g), key) == Get(g, key)
  {
    if f.Field? { GetAppend(f.rest, g, key); }
  }

  lemma {:induction false} AppendKeeps(f: Fields, g: Fields)
    requires DistinctKeys(f) && DistinctKeys(g) && Keys(f) !! Keys(g) && WellFormedFields(f) && WellFormedFields(g)
    ensures Keys(Append(f, g)) == Keys(f) + Keys(g)
    ensures DistinctKeys(Append(f, g)) && WellFormedFields(Append(f, g))
  {
    if f.Field? { AppendKeeps(f.rest, g); }
  }

  lemma {:induction false} GetKeeps(f: Fields, key: string)
    requires WellFormedFields(f)
    ensures Get(f, key).Some? ==> WellFormed(Get(f, key).value)
  {
    if f.Field? && f.key != key { GetKeeps(f.rest, key); }
  }

  lemma {:induction false} WithoutKeeps(f: Fields, key: string, other: string)
    ensures WellFormedFields(f) ==> WellFormedFields(Without(f, key))
    ensures other != key ==> Get(Without(f, key), other) == Get(f, other)
  {
    if f.Field? { WithoutKeeps(f.rest, key, other); }
  }

  /** One more key in front of a well-formed dictionary. */
  lemma Prepend(key: string, value: Json, rest: Fields)
    requires WellFormed(value) && WellFormedFields(rest) && DistinctKeys(rest) && key !in Keys(rest)
    ensures var f := Field(key, value, rest);
            WellFormedFields(f) && DistinctKeys(f) && Keys(f) == {key} + Keys(rest) && WellFormed(Obj(f))
  {
  }

  lemma Single(key: string, value: Json)
    requires WellFormed(value)
    ensures var f := Field(key, value, NoFields);
            WellFormedFields(f) && DistinctKeys(f) && Keys(f) == {key} && WellFormed(Obj(f))
  {
    Prepend(key, value, NoFields);
  }

  // ---------------------------------------------------------------- natural numbers as JSON numbers

  lemma {:induction false} SkipsDigits(s: string)
    requires forall i :: 0 <= i < |s| ==> Digit(s[i])
    ensures SkipDigits(s) == ""
  {
    if s != "" { SkipsDigits(s[1..]); }
  }

  lemma {:induction false} DecimalDigits(n: nat)
    ensures forall i :: 0 <= i < |Decimal(n)| ==> Digit(Decimal(n)[i])
    ensures n > 0 ==> Decimal(n)[0] != '0'
  {
    if n >= 10 { DecimalDigits(n / 10); }
  }

  lemma DecimalIsValid(n: nat)
    ensures ValidNumber(Decimal(n))
  {
    DecimalDigits(n);
    SkipsDigits(Decimal(n));
    if n == 0 { assert Decimal(0)[1..] == ""; }
  }

  // ---------------------------------------------------------------- chunks are well-formed

  ghost predicate Shared(common: Fields) {
    DistinctKeys(common) && WellFormedFields(common) && Keys(common) <= {"id", "object", "created", "model"}
  }

  lemma OneKeeps(response: Fields, key: string, rest: Fields)
    requires WellFormedFields(response) && WellFormedFields(rest) && DistinctKeys(rest) && key !in Keys(rest)
    ensures var f := One(response, key, rest);
            WellFormedFields(f) && DistinctKeys(f) && Keys(f) <= Keys(rest) + {key}
  {
    GetKeeps(response, key);
  }

  lemma CommonIsShared(response: Fields)
    requires WellFormedFields(response)
    ensures Shared(Common(response))
  {
    assert "id"[0] == 'i' && "object"[0] == 'o' && "created"[0] == 'c' && "model"[0] == 'm';
    var f1 := One(response, "model", NoFields);
    var f2 := One(response, "created", f1);
    var f3 := One(response, "object", f2);
    OneKeeps(response, "model", NoFields);
    OneKeeps(response, "created", f1);
    OneKeeps(response, "object", f2);
    OneKeeps(response, "id", f3);
  }

  lemma NotShared(common: Fields)
    requires Shared(common)
    ensures "choices" !in Keys(common) && "usage" !in Keys(common)
  {
    assert "choices"[0] == 'c' && "choices"[1] == 'h' && "usage"[0] == 'u';
    assert "id"[0] == 'i' && "object"[0] == 'o' && "created"[0] == 'c' && "created"[1] == 'r' && "model"[0] == 'm';
  }

  predicate Extra(extra: Fields) {
    extra == NoFields || (extra.key == "usage" && extra.rest == NoFields && WellFormed(extra.value))
  }

  lemma ChoiceIsWellFormed(delta: Fields, finish: Json)
    requires DistinctKeys(delta) && WellFormedFields(delta) && WellFormed(finish)
    ensures WellFormed(Obj(Field("index", Num("0"),
                                 Field("delta", Obj(delta), Field("finish_reason", finish, NoFields)))))
  {
    assert "index"[0] == 'i' && "delta"[0] == 'd' && "finish_reason"[0] == 'f';
    assert Decimal(0) == "0";
    DecimalIsValid(0);
    var last := Field("finish_reason", finish, NoFields);
    Single("finish_reason", finish);
    Prepend("delta", Obj(delta), last);
    Prepend("index", Num("0"), Field("delta", Obj(delta), last));
  }

  lemma ExtraKeys(extra: Fields)
    requires Extra(extra)
    ensures WellFormedFields(extra) && DistinctKeys(extra) && Keys(extra) <= {"usage"}
  {
    if extra.Field? { Single(extra.key, extra.value); }
  }

  lemma ChunkIsWellFormed(common: Fields, delta: Fields, finish: Json, extra: Fields)
    requires Shared(common) && DistinctKeys(delta) && WellFormedFields(delta) && WellFormed(finish) && Extra(extra)
    ensures WellFormed(Chunk(common, delta, finish, extra)) && Chunk(common, delta, finish, extra).Obj?
  {
    NotShared(common);
    ChoiceIsWellFormed(delta, finish);
    assert "choices"[0] == 'c' && "usage"[0] == 'u';
    var choice := Obj(Field("index", Num("0"), Field("delta", Obj(delta), Field("finish_reason", finish, NoFields))));
    var choices := Arr(Item(choice, NoItems));
    assert WellFormedItems(choices.items) && WellFormed(choices);
    ExtraKeys(extra);
    AppendKeeps(common, Field("choices", choices, extra));
  }

  /** The client reads the delta and the finish reason that a chunk was made of. */
  lemma ChunkIsFolded(r: Reply, common: Fields, delta: Fields, finish: Json, extra: Fields)
    requires Shared(common)
    ensures FoldChunk(r, Chunk(common, delta, finish, extra)) == FoldDelta(r, delta, finish)
  {
    NotShared(common);
    var choice := Field("index", Num("0"), Field("delta", Obj(delta), Field("finish_reason", finish, NoFields)));
    GetAppend(common, Field("choices", Arr(Item(Obj(choice), NoItems)), extra), "choices");
    assert "index"[0] == 'i' && "delta"[0] == 'd' && "finish_reason"[0] == 'f';
    assert Get(choice.rest, "finish_reason") == Some(finish);
    assert Get(choice, "finish_reason") == Some(finish);
    assert Get(choice, "delta") == Some(Obj(delta));
  }

  // ---------------------------------------------------------------- one call

  /** The call that the client must end up with. */
  function Rebuilt(call: Fields): Call {
    Call(OrElse(Get(call, "index"), Null), OrElse(Get(call, "id"), Null), OrElse(Get(call, "type"), Str("function")),
         OrElse(Inner(call, "name"), Str("")), ArgumentText(OrElse(Inner(call, "arguments"), Str(""))))
  }

  lemma DeclarationReads(call: Fields, f: Fields)
    ensures var d := Declaration(call, f);
            && Get(d, "index") == Some(OrElse(Get(call, "index"), Null))
            && Get(d, "id") == Some(OrElse(Get(call, "id"), Null))
            && Get(d, "type") == Some(OrElse(Get(call, "type"), Str("function")))
            && Inner(d, "name") == Some(OrElse(Get(f, "name"), Str(""))) && Inner(d, "arguments") == None
  {
    var d := Declaration(call, f);
    assert "index"[0] == 'i' && "id"[1] == 'd' && "index"[1] == 'n' && "type"[0] == 't' && "function"[0] == 'f';
    assert "name"[0] == 'n' && "arguments"[0] == 'a';
    var d1 := d.rest;
    var d2 := d1.rest;
    var d3 := d2.rest;
    assert Get(d3, "function") == Some(d3.value);
    assert Get(d3.value.fields.rest, "arguments") == None;
    assert Get(d2, "function") == Get(d3, "function") && Get(d2, "type") == Some(d2.value);
    assert Get(d1, "function") == Get(d2, "function") && Get(d1, "type") == Get(d2, "type");
    assert Get(d, "function") == Get(d1, "function") && Get(d, "type") == Get(d1, "type");
  }

  lemma ArgumentsRead(call: Fields, f: Fields)
    ensures var a := Arguments(call, f);
            && Get(a, "index") == Some(OrElse(Get(call, "index"), Null))
            && Inner(a, "arguments") == Some(Str(ArgumentText(OrElse(Get(f, "arguments"), Str("")))))
  {
    assert "index"[0] == 'i' && "function"[0] == 'f';
    var a := Arguments(call, f);
    assert Get(a.rest, "function") == Some(a.rest.value);
  }

  lemma {:induction false} NewPosition(calls: seq<Call>, index: Json)
    requires forall i :: 0 <= i < |calls| ==> calls[i].index != index
    ensures Position(calls, index) == None
  {
    if calls != [] { NewPosition(calls[..|calls| - 1], index); }
  }

  /** The two deltas of a call, folded onto calls of other indexes, add exactly that call. */
  lemma CallIsRebuilt(calls: seq<Call>, call: Fields)
    requires FunctionOf(call).Some?
    requires forall i :: 0 <= i < |calls| ==> calls[i].index != OrElse(Get(call, "index"), Null)
    ensures var f := FunctionOf(call).value;
            FoldCall(FoldCall(calls, Declaration(call, f)), Arguments(call, f)) == calls + [Rebuilt(call)]
  {
    var f := FunctionOf(call).value;
    DeclarationReads(call, f);
    ArgumentsRead(call, f);
    NewPosition(calls, OrElse(Get(call, "index"), Null));
    var once := FoldCall(calls, Declaration(call, f));
    assert once == calls + [Rebuilt(call).(arguments := "")];
    assert "" + Rebuilt(call).arguments == Rebuilt(call).arguments;
  }

  lemma CallDeltaFolds(r: Reply, entry: Fields)
    ensures FoldDelta(r, CallDelta(entry), Null) == r.(calls := FoldCall(r.calls, entry))
  {
    assert "tool_calls"[0] == 't' && "content"[0] == 'c';
    var delta, entries := CallDelta(entry), Item(Obj(entry), NoItems);
    assert FoldCalls(FoldCall(r.calls, entry), NoItems) == FoldCall(r.calls, entry);
    assert FoldCalls(r.calls, entries) == FoldCalls(FoldCall(r.calls, entry), NoItems);
    assert Get(delta, "tool_calls") == Some(Arr(entries)) && Get(delta.rest, "content") == None;
  }

  // ---------------------------------------------------------------- all calls

  function AllRebuilt(calls: seq<Fields>): seq<Call> {
    seq(|calls|, i requires 0 <= i < |calls| => Rebuilt(calls[i]))
  }

  ghost predicate DistinctIndexes(calls: seq<Fields>) {
    forall i, j :: 0 <= i < j < |calls| ==> Get(calls[i], "index") != Get(calls[j], "index")
  }

  ghost predicate HaveIndexes(calls: seq<Fields>) {
    forall i :: 0 <= i < |calls| ==> Get(calls[i], "index").Some?
  }

  lemma FoldMore(chunks: seq<Json>, chunk: Json)
    ensures FoldAll(chunks + [chunk]) == FoldChunk(FoldAll(chunks), chunk)
  {
    assert (chunks + [chunk])[..|chunks|] == chunks;
  }

  /** Folding one more call's two chunks. */
  lemma NextCall(before: seq<Json>, common: Fields, calls: seq<Fields>, call: Fields)
    requires Shared(common) && FunctionOf(call).Some? && FoldAll(before) == Reply([], AllRebuilt(calls), None)
    requires forall i :: 0 <= i < |calls| ==> Rebuilt(calls[i]).index != Rebuilt(call).index
    ensures FoldAll(before + [Declared(common, call)] + [Argued(common, call)])
            == Reply([], AllRebuilt(calls) + [Rebuilt(call)], None)
  {
    var f, r := FunctionOf(call).value, FoldAll(before);
    FoldMore(before, Declared(common, call));
    FoldMore(before + [Declared(common, call)], Argued(common, call));
    CallChunkFolds(r, common, Declaration(call, f));
    CallChunkFolds(r.(calls := FoldCall(r.calls, Declaration(call, f))), common, Arguments(call, f));
    CallIsRebuilt(AllRebuilt(calls), call);
  }

  lemma RebuiltMore(calls: seq<Fields>, n: nat)
    requires |calls| == n + 1 && DistinctIndexes(calls) && HaveIndexes(calls)
    ensures AllRebuilt(calls) == AllRebuilt(calls[..n]) + [Rebuilt(calls[n])]
    ensures forall i :: 0 <= i < n ==> Rebuilt(calls[..n][i]).index != Rebuilt(calls[n]).index
  {
  }

  lemma {:induction false} CallsAreFolded(head: Json, common: Fields, calls: seq<Fields>)
    requires Shared(common) && AllFunctions(calls) && DistinctIndexes(calls) && HaveIndexes(calls)
    requires FoldAll([head]) == NO_REPLY
    ensures FoldAll([head] + CallChunks(common, calls)) == Reply([], AllRebuilt(calls), None)
    decreases |calls|
  {
    if calls == [] {
      assert [head] + [] == [head];
    } else {
      var n := |calls| - 1;
      CallsAreFolded(head, common, calls[..n]);
      assert calls[..n + 1] == calls;
      CallChunksMore([head], common, calls, n);
      RebuiltMore(calls, n);
      NextCall([head] + CallChunks(common, calls[..n]), common, calls[..n], calls[n]);
    }
  }

  lemma CallChunkFolds(r: Reply, common: Fields, entry: Fields)
    requires Shared(common)
    ensures FoldChunk(r, Chunk(common, CallDelta(entry), Null, NoFields)) == r.(calls := FoldCall(r.calls, entry))
  {
    ChunkIsFolded(r, common, CallDelta(entry), Null, NoFields);
    CallDeltaFolds(r, entry);
  }

  // ---------------------------------------------------------------- the original calls

  /**
   * The calls of the response: position in the list, id, type, name and argument text; entries that are no objects are
   * skipped.
   */
  function OriginalCalls(items: Items, k: nat): seq<Call> {
    match items
    case NoItems => []
    case Item(Obj(call), more) => [OriginalCall(call, k)] + OriginalCalls(more, k + 1)
    case Item(_, more) => OriginalCalls(more, k + 1)
  }

  lemma IndexedReads(call: Fields, k: nat)
    ensures var i := Indexed(call, k);
            && Get(i, "index") == Some(Num(Decimal(k))) && Get(i, "id") == Get(call, "id")
            && Get(i, "type") == Get(call, "type") && Get(i, "function") == Get(call, "function")
    ensures WellFormedFields(call) ==> WellFormedFields(Indexed(call, k))
  {
    assert "index"[0] == 'i' && "id"[1] == 'd' && "index"[1] == 'n' && "type"[0] == 't' && "function"[0] == 'f';
    WithoutKeeps(call, "index", "id");
    WithoutKeeps(call, "index", "type");
    WithoutKeeps(call, "index", "function");
    DecimalIsValid(k);
  }

  ghost predicate IndexFrom(call: Fields, k: nat) {
    exists m: nat :: m >= k && Get(call, "index") == Some(Num(Decimal(m)))
  }

  ghost predicate Entries(calls: seq<Fields>, k: nat) {
    && HaveIndexes(calls) && DistinctIndexes(calls)
    && forall i :: 0 <= i < |calls| ==> WellFormedFields(calls[i]) && IndexFrom(calls[i], k)
  }

  lemma EntriesEarlier(calls: seq<Fields>, k: nat)
    requires Entries(calls, k + 1)
    ensures Entries(calls, k)
  {
    forall i | 0 <= i < |calls| ensures IndexFrom(calls[i], k) {
      assert IndexFrom(calls[i], k + 1);
    }
  }

  lemma {:induction false} NormalizedAre(items: Items, k: nat)
    requires WellFormedItems(items)
    ensures Entries(Normalized(items, k), k) && AllRebuilt(Normalized(items, k)) == OriginalCalls(items, k)
  {
    if items.Item? {
      NormalizedAre(items.tail, k + 1);
      if items.head.Obj? {
        FirstNormalized(items.head.fields, Normalized(items.tail, k + 1), k);
      } else {
        EntriesEarlier(Normalized(items.tail, k + 1), k);
      }
    }
  }

  /** The call as the client must see it, from the entry as the response gave it. */
  function OriginalCall(call: Fields, k: nat): Call {
    Call(Num(Decimal(k)), OrElse(Get(call, "id"), Null), OrElse(Get(call, "type"), Str("function")),
         OrElse(Inner(call, "name"), Str("")), ArgumentText(OrElse(Inner(call, "arguments"), Str(""))))
  }

  lemma IndexedIsOriginal(call: Fields, k: nat)
    requires WellFormedFields(call)
    ensures Rebuilt(Indexed(call, k)) == OriginalCall(call, k)
    ensures WellFormedFields(Indexed(call, k)) && Get(Indexed(call, k), "index") == Some(Num(Decimal(k)))
  {
    IndexedReads(call, k);
  }

  lemma OtherIndexes(rest: seq<Fields>, k: nat)
    requires Entries(rest, k + 1)
    ensures forall i :: 0 <= i < |rest| ==> Get(rest[i], "index") != Some(Num(Decimal(k)))
  {
    DecimalIsInjective(k);
    forall i | 0 <= i < |rest| ensures Get(rest[i], "index") != Some(Num(Decimal(k))) {
      assert IndexFrom(rest[i], k + 1);
      var m: nat :| m >= k + 1 && Get(rest[i], "index") == Some(Num(Decimal(m)));
      DecimalIsInjective(m);
    }
  }

  lemma RebuiltFirst(first: Fields, rest: seq<Fields>)
    ensures AllRebuilt([first] + rest) == [Rebuilt(first)] + AllRebuilt(rest)
  {
    var calls := [first] + rest;
    assert forall i :: 1 <= i < |calls| ==> calls[i] == rest[i - 1];
  }

  lemma DistinctFirst(first: Fields, rest: seq<Fields>)
    requires HaveIndexes(rest) && DistinctIndexes(rest) && Get(first, "index").Some?
    requires forall i :: 0 <= i < |rest| ==> Get(rest[i], "index") != Get(first, "index")
    ensures HaveIndexes([first] + rest) && DistinctIndexes([first] + rest)
  {
    var calls := [first] + rest;
    assert forall i :: 1 <= i < |calls| ==> calls[i] == rest[i - 1];
  }

  lemma FirstEntry(first: Fields, rest: seq<Fields>, k: nat)
    requires WellFormedFields(first) && Get(first, "index") == Some(Num(Decimal(k))) && Entries(rest, k + 1)
    ensures Entries([first] + rest, k)
  {
    OtherIndexes(rest, k);
    EntriesEarlier(rest, k);
    DistinctFirst(first, rest);
    var calls := [first] + rest;
    forall i | 0 <= i < |calls| ensures WellFormedFields(calls[i]) && IndexFrom(calls[i], k) {
      assert i > 0 ==> calls[i] == rest[i - 1];
      assert IndexFrom(first, k);
    }
  }

  lemma FirstNormalized(call: Fields, rest: seq<Fields>, k: nat)
    requires WellFormedFields(call) && Entries(rest, k + 1)
    ensures Entries([Indexed(call, k)] + rest, k)
    ensures AllRebuilt([Indexed(call, k)] + rest) == [OriginalCall(call, k)] + AllRebuilt(rest)
  {
    IndexedIsOriginal(call, k);
    FirstEntry(Indexed(call, k), rest, k);
    RebuiltFirst(Indexed(call, k), rest);
  }

  // ---------------------------------------------------------------- the whole reply

  lemma FirstDeltaKeeps(message: Fields)
    requires WellFormedFields(message)
    ensures DistinctKeys(FirstDelta(message)) && WellFormedFields(FirstDelta(message))
    ensures DistinctKeys(ROLE) && WellFormedFields(ROLE)
  {
    GetKeeps(message, "content");
    assert "role"[0] == 'r' && "tool_calls"[0] == 't' && "content"[0] == 'c';
    var rest := FirstDelta(message).rest;
    Single(rest.key, rest.value);
    Prepend("role", Str("assistant"), rest);
    Single("role", Str("assistant"));
  }

  lemma FirstDeltaFolds(message: Fields)
    ensures FoldDelta(NO_REPLY, FirstDelta(message), Null)
            == Reply(if GivenCalls(message).Some? then [] else [Content(message)], [], None)
    ensures FoldDelta(NO_REPLY, ROLE, Null) == NO_REPLY
  {
    var delta := FirstDelta(message);
    assert "role"[0] == 'r' && "tool_calls"[0] == 't' && "content"[0] == 'c';
    assert Get(delta, "tool_calls") == Get(delta.rest, "tool_calls")
      && Get(delta, "content") == Get(delta.rest, "content");
    assert Get(ROLE.rest, "tool_calls") == None && Get(ROLE.rest, "content") == None;
    assert Get(delta.rest.rest, "tool_calls") == None && Get(delta.rest.rest, "content") == None;
    assert FoldCalls([], NoItems) == [];
  }

  lemma DeltaKeeps(entry: Fields)
    requires DistinctKeys(entry) && WellFormedFields(entry)
    ensures DistinctKeys(CallDelta(entry)) && WellFormedFields(CallDelta(entry))
  {
    var items := Item(Obj(entry), NoItems);
    assert WellFormedItems(NoItems) && WellFormed(Obj(entry));
    assert WellFormedItems(items) && WellFormed(Arr(items));
    Single("tool_calls", Arr(items));
  }

  lemma DeclarationKeeps(call: Fields)
    requires WellFormedFields(call) && FunctionOf(call).Some?
    ensures var d := Declaration(call, FunctionOf(call).value); DistinctKeys(d) && WellFormedFields(d)
  {
    var f := FunctionOf(call).value;
    GetKeeps(call, "index");
    GetKeeps(call, "id");
    GetKeeps(call, "type");
    GetKeeps(call, "function");
    GetKeeps(f, "name");
    var d := Declaration(call, f);
    assert "index"[0] == 'i' && "id"[1] == 'd' && "index"[1] == 'n' && "type"[0] == 't' && "function"[0] == 'f';
    var d1 := d.rest;
    var d2 := d1.rest;
    Single("name", OrElse(Get(f, "name"), Str("")));
    Single("function", d2.rest.value);
    Prepend("type", d2.value, d2.rest);
    Prepend("id", d1.value, d2);
    Prepend("index", d.value, d1);
  }

  lemma ArgumentsKeep(call: Fields)
    requires WellFormedFields(call) && FunctionOf(call).Some?
    ensures var a := Arguments(call, FunctionOf(call).value); DistinctKeys(a) && WellFormedFields(a)
  {
    GetKeeps(call, "index");
    var a := Arguments(call, FunctionOf(call).value);
    assert "index"[0] == 'i' && "function"[0] == 'f';
    Single("arguments", a.rest.value.fields.value);
    Single("function", a.rest.value);
    Prepend("index", a.value, a.rest);
  }

  lemma CallChunkIsWellFormed(common: Fields, entry: Fields)
    requires Shared(common) && DistinctKeys(entry) && WellFormedFields(entry)
    ensures AllObjects([Chunk(common, CallDelta(entry), Null, NoFields)])
  {
    DeltaKeeps(entry);
    ChunkIsWellFormed(common, CallDelta(entry), Null, NoFields);
  }

  lemma AllObjectsMore(chunks: seq<Json>, more: seq<Json>)
    requires AllObjects(chunks) && AllObjects(more)
    ensures AllObjects(chunks + more)
  {
  }

  lemma {:induction false} CallChunksAreObjects(common: Fields, calls: seq<Fields>)
    requires Shared(common) && AllFunctions(calls) && forall i :: 0 <= i < |calls| ==> WellFormedFields(calls[i])
    ensures AllObjects(CallChunks(common, calls))
    decreases |calls|
  {
    if calls != [] {
      var n := |calls| - 1;
      var f := FunctionOf(calls[n]).value;
      CallChunksAreObjects(common, calls[..n]);
      DeclarationKeeps(calls[n]);
      ArgumentsKeep(calls[n]);
      CallChunkIsWellFormed(common, Declaration(calls[n], f));
      CallChunkIsWellFormed(common, Arguments(calls[n], f));
      var declared := Chunk(common, CallDelta(Declaration(calls[n], f)), Null, NoFields);
      var argued := Chunk(common, CallDelta(Arguments(calls[n], f)), Null, NoFields);
      AllObjectsMore([declared], [argued]);
      assert [declared] + [argued] == [declared, argued];
      AllObjectsMore(CallChunks(common, calls[..n]), [declared, argued]);
    }
  }

  lemma CallsKeep(message: Fields)
    requires WellFormedFields(message)
    ensures GivenCalls(message).Some? && GivenCalls(message).value.Arr? ==>
            WellFormedItems(GivenCalls(message).value.items)
  {
    GetKeeps(message, "tool_calls");
  }

  lemma MessageKeeps(response: Fields)
    requires WellFormedFields(response) && Choice(response).Some? && Message(Choice(response).value).Some?
    ensures WellFormedFields(Choice(response).value) && WellFormedFields(Message(Choice(response).value).value)
  {
    GetKeeps(response, "choices");
    var choices := Get(response, "choices").value;
    assert WellFormedItems(choices.items);
    assert WellFormed(choices.items.head);
    GetKeeps(Choice(response).value, "message");
  }

  lemma LastChunkKeeps(response: Fields, choice: Fields)
    requires WellFormedFields(response) && WellFormedFields(choice)
    ensures WellFormed(LastChunk(response, choice)) && LastChunk(response, choice).Obj?
  {
    CommonIsShared(response);
    GetKeeps(choice, "finish_reason");
    GetKeeps(response, "usage");
    ChunkIsWellFormed(Common(response), NoFields, OrElse(Get(choice, "finish_reason"), Str("stop")),
                      Field("usage", OrElse(Get(response, "usage"), Obj(NoFields)), NoFields));
  }

  lemma HeadFolds(common: Fields, delta: Fields, expected: Reply)
    requires Shared(common) && DistinctKeys(delta) && WellFormedFields(delta)
             && FoldDelta(NO_REPLY, delta, Null) == expected
    ensures var head := Chunk(common, delta, Null, NoFields);
            AllObjects([head]) && FoldAll([head]) == expected
  {
    var head := Chunk(common, delta, Null, NoFields);
    ChunkIsWellFormed(common, delta, Null, NoFields);
    ChunkIsFolded(NO_REPLY, common, delta, Null, NoFields);
    assert [head][..0] == [];
  }

  lemma CallsBodyFolds(response: Fields, items: Items)
    requires WellFormedFields(response) && WellFormedItems(items) && AllFunctions(Normalized(items, 0))
    ensures var body :=
            [Chunk(Common(response), ROLE, Null, NoFields)] + CallChunks(Common(response), Normalized(items, 0));
            AllObjects(body) && FoldAll(body) == Reply([], OriginalCalls(items, 0), None)
  {
    var common, calls := Common(response), Normalized(items, 0);
    CommonIsShared(response);
    Single("role", Str("assistant"));
    FirstDeltaFolds(NoFields);
    HeadFolds(common, ROLE, NO_REPLY);
    NormalizedAre(items, 0);
    CallsAreFolded(Chunk(common, ROLE, Null, NoFields), common, calls);
    CallChunksAreObjects(common, calls);
  }

  /** The chunks before the last one: well-formed, and folded to the calls or the content of the message. */
  lemma BodyFolds(response: Fields, message: Fields)
    requires WellFormedFields(response) && WellFormedFields(message) && AllFunctions(CallsOf(message))
    requires GivenCalls(message).Some? ==> GivenCalls(message).value.Arr?
    ensures var body := Body(response, message);
            AllObjects(body) && FoldAll(body) == Reply(Pieces(message), MessageCalls(message), None)
  {
    CallsKeep(message);
    if CallsOf(message) == [] {
      CommonIsShared(response);
      FirstDeltaKeeps(message);
      FirstDeltaFolds(message);
      if GivenCalls(message).Some? { NormalizedAre(GivenCalls(message).value.items, 0); }
      HeadFolds(Common(response), FirstDelta(message), Reply(Pieces(message), [], None));
    } else {
      CallsBodyFolds(response, GivenCalls(message).value.items);
    }
  }

  function Body(response: Fields, message: Fields): seq<Json>
    requires AllFunctions(CallsOf(message))
  {
    var calls := CallsOf(message);
    if calls == [] then [Chunk(Common(response), FirstDelta(message), Null, NoFields)]
    else [Chunk(Common(response), ROLE, Null, NoFields)] + CallChunks(Common(response), calls)
  }

  function Pieces(message: Fields): seq<Json> {
    if GivenCalls(message).Some? then [] else [Content(message)]
  }

  function MessageCalls(message: Fields): seq<Call> {
    match GivenCalls(message)
    case Some(Arr(items)) => OriginalCalls(items, 0)
    case _ => []
  }

  function Finish(choice: Fields): Option<Json> {
    match Get(choice, "finish_reason")
    case None => Some(Str("stop"))
    case Some(Null) => None
    case Some(v) => Some(v)
  }

  lemma LastFolds(r: Reply, response: Fields, choice: Fields)
    requires WellFormedFields(response) && r.finish == None
    ensures FoldChunk(r, LastChunk(response, choice)) == r.(finish := Finish(choice))
  {
    CommonIsShared(response);
    ChunkIsFolded(r, Common(response), NoFields, OrElse(Get(choice, "finish_reason"), Str("stop")),
                  Field("usage", OrElse(Get(response, "usage"), Obj(NoFields)), NoFields));
  }

  lemma ChunksFold(response: Fields)
    requires WellFormedFields(response) && Replayable(response)
    ensures var choice := Choice(response).value;
            var message := Message(choice).value;
            AllObjects(Chunks(response))
            && FoldAll(Chunks(response)) == Reply(Pieces(message), MessageCalls(message), Finish(choice))
  {
    var choice := Choice(response).value;
    var message := Message(choice).value;
    MessageKeeps(response);
    BodyFolds(response, message);
    var body, last := Body(response, message), LastChunk(response, choice);
    LastChunkKeeps(response, choice);
    LastFolds(FoldAll(body), response, choice);
    FoldMore(body, last);
    assert Chunks(response) == body + [last];
  }

  /**
   * The replay round trip: for every response that can be replayed, the client that reads the stream ends up with every
   * tool call's index, id, type, name and argument text in order, with the content when there is no `tool_calls` value,
   * and with the finish reason.
   */
  lemma ReplayIsRebuilt(response: Fields)
    requires WellFormedFields(response) && Replayable(response)
    ensures var choice := Choice(response).value;
            var message := Message(choice).value;
            Receive(Stream(Chunks(response))) == Some(Reply(Pieces(message), MessageCalls(message), Finish(choice)))
  {
    ChunksFold(response);
    StreamIsReceived(Chunks(response));
  }

  /** The content survives the replay exactly when `tool_calls` is absent or null; an empty list already drops it. */
  lemma ContentSurvivesIff(response: Fields)
    requires WellFormedFields(response) && Replayable(response)
    ensures var message := Message(Choice(response).value).value;
            && Receive(Stream(Chunks(response))).Some?
            && (Receive(Stream(Chunks(response))).value.pieces == [Content(message)] <==>
                Get(message, "tool_calls") == None || Get(message, "tool_calls") == Some(Null))
  {
    ReplayIsRebuilt(response);
  }

  /** A response with content and an empty `tool_calls` list: the client receives nothing but the finish reason. */
  lemma EmptyToolCallsDropContent()
    ensures var message := Field("content", Str("hi"), Field("tool_calls", Arr(NoItems), NoFields));
            var response :=
              Field("choices", Arr(Item(Obj(Field("message", Obj(message), NoFields)), NoItems)), NoFields);
            Replayable(response) && Receive(Stream(Chunks(response))) == Some(Reply([], [], Some(Str("stop"))))
  {
    var message := Field("content", Str("hi"), Field("tool_calls", Arr(NoItems), NoFields));
    var choice := Field("message", Obj(message), NoFields);
    var items := Item(Obj(choice), NoItems);
    var response := Field("choices", Arr(items), NoFields);
    assert "content"[0] == 'c' && "tool_calls"[0] == 't' && "message"[0] == 'm' && "finish_reason"[0] == 'f';
    Single("tool_calls", Arr(NoItems));
    Prepend("content", Str("hi"), message.rest);
    Single("message", Obj(message));
    assert WellFormedItems(NoItems) && WellFormedItems(items);
    Single("choices", Arr(items));
    assert Get(message, "tool_calls") == Get(message.rest, "tool_calls");
    assert Get(choice, "finish_reason") == Get(NoFields, "finish_reason") == None;
    ReplayIsRebuilt(response);
  }
}
