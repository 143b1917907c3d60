/**
 * `_recover_tool_calls`: tool calls that the backend left in the generated text are put into the response, and so reach
 * the client through the replayed stream.
 */
module RecoverCalls {
  import opened Options
  import opened Json
  import R = SseReplay
  import C = SseClient
  import T = SseRoundTrip
  import X = ToolCalls

  /** One recovered call as the response carries it. */
  function CallJson(call: X.Call): Json {
    Obj(Field("id", Str(call.id), Field("type", Str("function"),
      Field("function", Obj(Field("name", Str(call.name), Field("arguments", Str(call.arguments), NoFields))),
            NoFields))))
  }

  function CallItems(calls: seq<X.Call>): Items
    decreases |calls|
  {
    if calls == [] then NoItems else Item(CallJson(calls[0]), CallItems(calls[1..]))
  }

  /** The response can take recovered calls: its first choice has a message without tool calls of its own. */
  predicate Open(response: Fields) {
    && R.Choice(response).Some? && R.Message(R.Choice(response).value).Some?
    && R.Falsy(OrElse(Get(R.Message(R.Choice(response).value).value, "tool_calls"), Null))
  }

  /** The text the calls are looked for in: the content, when it is text. */
  function TextOf(response: Fields): string
    requires Open(response)
  {
    match Get(R.Message(R.Choice(response).value).value, "content")
    case Some(Str(text)) => text
    case _ => ""
  }

  function OtherChoices(response: Fields): Items {
    match Get(response, "choices")
    case Some(Arr(Item(_, others))) => others
    case _ => NoItems
  }

  /** `message["tool_calls"] = recovered` and `choice["finish_reason"] = "tool_calls"`, in place. */
  function WithCalls(response: Fields, calls: seq<X.Call>): Fields
    requires Open(response)
  {
    var choice := R.Choice(response).value;
    var message := Put(R.Message(choice).value, "tool_calls", Arr(CallItems(calls)));
    var decided := Put(Put(choice, "message", Obj(message)), "finish_reason", Str("tool_calls"));
    Put(response, "choices", Arr(Item(Obj(decided), OtherChoices(response))))
  }

  /**
   * The engine's own calls win and undeclared tools recover nothing; otherwise a raising candidate is an error, and
   * exactly the accepted calls are filled in, none leaving the response as it is.
   */
  ghost predicate Recovered(response: Fields, tools: Json, ids: nat -> string, r: Result<(Fields, nat), X.Error>) {
    if !Open(response) || X.AllowedNames(tools) == {} then r == Ok((response, 0))
    else
      var candidates, allowed := X.Candidates(TextOf(response)), X.AllowedNames(tools);
      if X.Raising(candidates, allowed) then r.Err?
      else
        exists calls ::
          && X.Carries(calls, X.Accepted(candidates, allowed), ids)
          && r == Ok((Filled(response, calls), |calls|))
  }

  function Filled(response: Fields, calls: seq<X.Call>): Fields
    requires Open(response)
  {
    if calls == [] then response else WithCalls(response, calls)
  }

  lemma FoundIsRecovered(response: Fields, tools: Json, ids: nat -> string, found: Result<seq<X.Call>, X.Error>)
    requires Open(response)
    requires X.AllowedNames(tools) == {} ==> found == Ok([])
    requires X.AllowedNames(tools) != {} ==>
             X.Extracted(X.Candidates(TextOf(response)), X.AllowedNames(tools), ids, found)
    ensures found.Err? ==> Recovered(response, tools, ids, Err(found.error))
    ensures found.Ok? ==> Recovered(response, tools, ids, Ok((Filled(response, found.value), |found.value|)))
  {
    if X.AllowedNames(tools) != {} && found.Ok? {
      assert X.Carries(found.value, X.Accepted(X.Candidates(TextOf(response)), X.AllowedNames(tools)), ids);
    }
  }

  method RecoverToolCalls(response: Fields, tools: Json, ids: nat -> string) returns (r: Result<(Fields, nat), X.Error>)
    ensures Recovered(response, tools, ids, r)
  {
    if !Open(response) {
      return Ok((response, 0));
    }
    var found := X.ExtractToolCalls(TextOf(response), tools, ids);
    FoundIsRecovered(response, tools, ids, found);
    if found.Err? {
      return Err(found.error);
    }
    if found.value == [] {
      return Ok((response, 0));
    }
    return Ok((WithCalls(response, found.value), |found.value|));
  }

  /**
   * Calls are recovered from a successful reply that no injected transport answered; any other reply is passed on as it
   * is.
   */
  ghost predicate Handled(status: int, transport: bool, response: Fields, tools: Json, ids: nat -> string,
                          r: Result<Fields, X.Error>)
  {
    if 200 <= status < 300 && !transport then
      exists recovered ::
        && Recovered(response, tools, ids, recovered)
        && r == (match recovered { case Ok((filled, _)) => Ok(filled) case Err(error) => Err(error) })
    else r == Ok(response)
  }

  /** What `forward_chat_completions` does with the upstream reply before it captures it. */
  method HandleReply(status: int, transport: bool, response: Fields, tools: Json, ids: nat -> string)
    returns (r: Result<Fields, X.Error>)
    ensures Handled(status, transport, response, tools, ids, r)
  {
    if 200 <= status < 300 && !transport {
      var recovered := RecoverToolCalls(response, tools, ids);
      return match recovered { case Ok((filled, _)) => Ok(filled) case Err(error) => Err(error) };
    }
    return Ok(response);
  }

  /** What handling comes to when the reply is recoverable and no candidate raises. */
  lemma HandledCalls(status: int, response: Fields, tools: Json, ids: nat -> string, r: Result<Fields, X.Error>)
    returns (calls: seq<X.Call>)
    requires Handled(status, false, response, tools, ids, r) && 200 <= status < 300
    requires Open(response) && X.AllowedNames(tools) != {}
    requires !X.Raising(X.Candidates(TextOf(response)), X.AllowedNames(tools))
    ensures X.Carries(calls, X.Accepted(X.Candidates(TextOf(response)), X.AllowedNames(tools)), ids)
    ensures r == Ok(Filled(response, calls))
  {
    var recovered :| Recovered(response, tools, ids, recovered)
      && r == (match recovered { case Ok((filled, _)) => Ok(filled) case Err(error) => Err(error) });
    calls :| X.Carries(calls, X.Accepted(X.Candidates(TextOf(response)), X.AllowedNames(tools)), ids)
      && recovered == Ok((Filled(response, calls), |calls|));
  }

  // ---------------------------------------------------------------- reading the filled-in response

  lemma {:induction false} PutReads(f: Fields, key: string, value: Json, other: string)
    ensures Get(Put(f, key, value), key) == Some(value)
    ensures other != key ==> Get(Put(f, key, value), other) == Get(f, other)
  {
    if f.Field? && f.key != key { PutReads(f.rest, key, value, other); }
  }

  lemma {:induction false} PutKeeps(f: Fields, key: string, value: Json)
    requires WellFormedFields(f) && DistinctKeys(f) && WellFormed(value)
    ensures WellFormedFields(Put(f, key, value)) && DistinctKeys(Put(f, key, value))
            && Keys(Put(f, key, value)) == Keys(f) + {key}
  {
    if f.Field? && f.key != key { PutKeeps(f.rest, key, value); }
  }

  lemma CallIsWellFormed(call: X.Call)
    ensures WellFormed(CallJson(call)) && CallJson(call).Obj?
    ensures var f := CallJson(call).fields;
            && Get(f, "id") == Some(Str(call.id)) && Get(f, "type") == Some(Str("function"))
            && C.Inner(f, "name") == Some(Str(call.name)) && C.Inner(f, "arguments") == Some(Str(call.arguments))
            && R.FunctionOf(f).Some?
  {
    assert "id"[0] == 'i' && "type"[0] == 't' && "function"[0] == 'f' && "name"[0] == 'n' && "arguments"[0] == 'a';
    var f := CallJson(call).fields;
    var last := f.rest.rest;
    var inner := last.value.fields;
    T.Single("arguments", Str(call.arguments));
    T.Prepend("name", Str(call.name), inner.rest);
    T.Single("function", last.value);
    T.Prepend("type", Str("function"), last);
    T.Prepend("id", Str(call.id), f.rest);
    assert Get(inner, "arguments") == Get(inner.rest, "arguments") == Some(Str(call.arguments));
    assert Get(last, "function") == Some(last.value);
    assert Get(f.rest, "function") == Get(last, "function");
    assert Get(f, "function") == Get(f.rest, "function");
    assert Get(f, "type") == Get(f.rest, "type");
  }

  /** The call as the client sees it at position `k`. */
  function Seen(call: X.Call, k: nat): C.Call {
    C.Call(Num(Decimal(k)), Str(call.id), Str("function"), Str(call.name), call.arguments)
  }

  function AllSeen(calls: seq<X.Call>, k: nat): (seen: seq<C.Call>)
    ensures |seen| == |calls| && forall i :: 0 <= i < |calls| ==> seen[i] == Seen(calls[i], k + i)
    decreases |calls|
  {
    if calls == [] then [] else [Seen(calls[0], k)] + AllSeen(calls[1..], k + 1)
  }

  lemma {:induction false} CallsAreSeen(calls: seq<X.Call>, k: nat)
    ensures WellFormedItems(CallItems(calls)) && R.AllFunctions(R.Normalized(CallItems(calls), k))
    ensures T.OriginalCalls(CallItems(calls), k) == AllSeen(calls, k)
    decreases |calls|
  {
    if calls != [] {
      CallIsWellFormed(calls[0]);
      CallsAreSeen(calls[1..], k + 1);
      T.IndexedReads(CallJson(calls[0]).fields, k);
      var rest := R.Normalized(CallItems(calls[1..]), k + 1);
      var all := [R.Indexed(CallJson(calls[0]).fields, k)] + rest;
      assert forall i :: 1 <= i < |all| ==> all[i] == rest[i - 1];
    }
  }

  /** The filled-in response: its first choice, message, calls and finish reason. */
  lemma FilledReads(response: Fields, calls: seq<X.Call>)
    requires Open(response)
    ensures var filled := WithCalls(response, calls);
            && R.Choice(filled).Some? && R.Message(R.Choice(filled).value).Some?
            && R.GivenCalls(R.Message(R.Choice(filled).value).value) == Some(Arr(CallItems(calls)))
            && Get(R.Choice(filled).value, "finish_reason") == Some(Str("tool_calls"))
  {
    var choice := R.Choice(response).value;
    var message := R.Message(choice).value;
    var filled := Put(message, "tool_calls", Arr(CallItems(calls)));
    var placed := Put(choice, "message", Obj(filled));
    assert "message"[0] == 'm' && "finish_reason"[0] == 'f';
    PutReads(message, "tool_calls", Arr(CallItems(calls)), "");
    PutReads(choice, "message", Obj(filled), "");
    PutReads(placed, "finish_reason", Str("tool_calls"), "message");
    PutReads(response, "choices",
             Arr(Item(Obj(Put(placed, "finish_reason", Str("tool_calls"))), OtherChoices(response))), "");
  }

  lemma ChoicesKeep(response: Fields)
    requires WellFormed(Obj(response)) && Open(response)
    ensures WellFormed(Obj(R.Choice(response).value)) && WellFormed(Obj(R.Message(R.Choice(response).value).value))
    ensures WellFormedItems(OtherChoices(response))
  {
    T.GetKeeps(response, "choices");
    var choices := Get(response, "choices").value;
    assert WellFormedItems(choices.items);
    assert WellFormed(choices.items.head);
    T.GetKeeps(R.Choice(response).value, "message");
  }

  lemma FilledKeeps(response: Fields, calls: seq<X.Call>)
    requires WellFormed(Obj(response)) && Open(response)
    ensures WellFormedFields(WithCalls(response, calls))
  {
    var choice := R.Choice(response).value;
    var message := R.Message(choice).value;
    ChoicesKeep(response);
    CallsAreSeen(calls, 0);
    var filled := Put(message, "tool_calls", Arr(CallItems(calls)));
    PutKeeps(message, "tool_calls", Arr(CallItems(calls)));
    PutKeeps(choice, "message", Obj(filled));
    var placed := Put(choice, "message", Obj(filled));
    PutKeeps(placed, "finish_reason", Str("tool_calls"));
    var decided := Obj(Put(placed, "finish_reason", Str("tool_calls")));
    assert WellFormedItems(Item(decided, OtherChoices(response)));
    PutKeeps(response, "choices", Arr(Item(decided, OtherChoices(response))));
  }

  /**
   * Recovered calls reach the client: the stream of the filled-in response gives the client exactly these calls, in
   * order, each with its id, name and arguments, and the finish reason `tool_calls`.
   */
  lemma RecoveredCallsReachTheClient(response: Fields, calls: seq<X.Call>)
    requires WellFormed(Obj(response)) && Open(response)
    ensures var filled := WithCalls(response, calls);
            && R.Replayable(filled)
            && C.Receive(R.Stream(R.Chunks(filled))) == Some(C.Reply([], AllSeen(calls, 0), Some(Str("tool_calls"))))
  {
    FilledReads(response, calls);
    FilledKeeps(response, calls);
    CallsAreSeen(calls, 0);
    T.ReplayIsRebuilt(WithCalls(response, calls));
  }

  /**
   * End to end, bare: a call that the model printed bare in the content of a successful reply, after text without
   * braces and with no block tag anywhere, is what the client sees first, under its declared name and with its
   * compactly printed arguments; unless a later candidate makes the extraction raise.
   */
  lemma BareCallReachesTheClient(status: int, response: Fields, tools: Json, ids: nat -> string, reply: Fields,
                                 before: string, value: Json, sp: string, after: string,
                                 name: string, arguments: Fields)
    requires WellFormed(Obj(response)) && Open(response) && 200 <= status < 300
    requires TextOf(response) == before + (Print(value, sp) + after)
    requires X.NamesCall(value, X.AllowedNames(tools), name, arguments) && Blanks(sp)
    requires X.NoBrace(before) && X.Without(TextOf(response), X.TOOL_CALL.open)
    requires Handled(status, false, response, tools, ids, Ok(reply))
    ensures R.Replayable(reply)
    ensures var received := C.Receive(R.Stream(R.Chunks(reply)));
            && received.Some? && received.value.calls != []
            && received.value.calls[0]
               == C.Call(Num(Decimal(0)), Str(ids(0)), Str("function"), Str(name), Compact(Obj(arguments)))
  {
    X.BareRoundTrip(before, value, sp, after, X.AllowedNames(tools), name, arguments);
    RaisingIsAnError(status, response, tools, ids, Ok(reply));
    var calls := HandledCalls(status, response, tools, ids, Ok(reply));
    RecoveredCallsReachTheClient(response, calls);
  }

  /**
   * End to end, tagged: a call printed inside the one block of the content of a successful reply, with no brace outside
   * the block, is exactly what the client sees, whatever the call's arguments hold.
   */
  lemma TaggedCallReachesTheClient(status: int, response: Fields, tools: Json, ids: nat -> string,
                                   r: Result<Fields, X.Error>,
                                   before: string, pad: string, value: Json, sp: string, padAfter: string,
                                   after: string, name: string, arguments: Fields)
    requires WellFormed(Obj(response)) && Open(response) && 200 <= status < 300
    requires TextOf(response) == X.Tagged(before, pad + Emit(value, sp, padAfter), after, X.TOOL_CALL)
    requires X.NamesCall(value, X.AllowedNames(tools), name, arguments)
    requires Blanks(pad) && Blanks(padAfter) && Blanks(sp)
    requires X.NoBrace(before) && X.NoBrace(after)
    requires X.Without(before, X.TOOL_CALL.open) && X.Without(after, X.TOOL_CALL.open)
    requires X.Without(pad + Emit(value, sp, padAfter), X.TOOL_CALL.close)
    requires Handled(status, false, response, tools, ids, r)
    ensures r.Ok? && R.Replayable(r.value)
    ensures C.Receive(R.Stream(R.Chunks(r.value)))
            == Some(C.Reply([],
                            [C.Call(Num(Decimal(0)), Str(ids(0)), Str("function"), Str(name), Compact(Obj(arguments)))],
                            Some(Str("tool_calls"))))
  {
    X.TaggedRoundTrip(before, pad, value, sp, padAfter, after, X.AllowedNames(tools), name, arguments);
    var calls := HandledCalls(status, response, tools, ids, r);
    assert calls == [X.Call(ids(0), name, Compact(Obj(arguments)))];
    RecoveredCallsReachTheClient(response, calls);
    assert calls[1..] == [];
    assert AllSeen(calls, 0) == [Seen(calls[0], 0)];
  }

  /** Where the extraction raises, handling the reply raises. */
  lemma RaisingIsAnError(status: int, response: Fields, tools: Json, ids: nat -> string, r: Result<Fields, X.Error>)
    requires Open(response) && 200 <= status < 300 && X.AllowedNames(tools) != {}
    requires Handled(status, false, response, tools, ids, r)
    ensures r.Err? <==> X.Raising(X.Candidates(TextOf(response)), X.AllowedNames(tools))
  {
    var recovered :| Recovered(response, tools, ids, recovered)
      && r == (match recovered { case Ok((filled, _)) => Ok(filled) case Err(error) => Err(error) });
  }
}
