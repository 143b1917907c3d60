/** Pi adapter, then training steps, then closure: when the conversation of a converted run can be closed. */
module PiTraining {
  import opened Options
  import opened Json
  import opened Ordering
  import opened Trace
  import opened PiAdapter
  import C = Closure
  import E = PiEpisodes
  import T = TrainingSteps

  // ---------------------------------------------------------------- what the records say

  function AnnouncedIn(items: seq<ContentItem>, source: nat): seq<string> {
    if items == [] then []
    else
      var k := |items| - 1;
      AnnouncedIn(items[..k], source) + (if items[k].ToolCallItem? then [CallId(items[k], source, k)] else [])
  }

  /** The calls that one record announces. */
  function AnnouncedBy(r: Record, source: nat): seq<string> {
    match r
    case AssistantEnd(_, _, content) => AnnouncedIn(content, source)
    case _ => []
  }

  /** The announced tool call ids, in order and as often as they are announced. */
  function Announced(records: seq<Record>): seq<string> {
    if records == [] then []
    else
      var n := |records| - 1;
      Announced(records[..n]) + AnnouncedBy(records[n], n)
  }

  function ResultAfter(env: Env, r: Record, source: nat, id: string, result: Json): Json {
    match r
    case AssistantEnd(_, _, content) => if id in AnnouncedIn(content, source) then Null else result
    case ToolExecutionEnd(callId, _, _, given) =>
      if Or(callId, "unknown") == id then Redact(given, env.secret) else result
    case _ => result
  }

  /** The result of the latest execution end of the id since its latest announcement, with credentials redacted. */
  function ResultOf(env: Env, records: seq<Record>, id: string): Json {
    if records == [] then Null
    else
      var n := |records| - 1;
      ResultAfter(env, records[n], n, id, ResultOf(env, records[..n], id))
  }

  // ---------------------------------------------------------------- what one event adds to the steps

  /** The call ids so far, and the result that the step of `id` has if it was called. */
  ghost predicate Tracks(events: seq<Event>, ids: seq<string>, id: string, result: Json) {
    && T.CalledIds(events) == ids
    && (id in ids ==> id in T.Calls(events) && T.Calls(events)[id].result == result)
    && (id in T.Calls(events) ==> id in ids)
  }

  lemma CallAttributesRead(env: Env, id: string, name: string, arguments: Json)
    ensures Get(CallAttributes(env, id, name, arguments), "pi_tool_call_id") == Some(Str(id))
  {
    assert "pi_tool_call_id"[0] == 'p' && "tool_name"[0] == 't' && "arguments"[0] == 'a';
    var f := CallAttributes(env, id, name, arguments);
    assert Get(f.rest.rest, "pi_tool_call_id") == Some(Str(id));
    assert Get(f.rest, "pi_tool_call_id") == Get(f.rest.rest, "pi_tool_call_id");
  }

  lemma ResultAttributesRead(env: Env, id: string, name: string, result: Json)
    ensures Get(ResultAttributes(env, id, name, result), "pi_tool_call_id") == Some(Str(id))
    ensures Get(ResultAttributes(env, id, name, result), "result") == Some(Redact(result, env.secret))
  {
    assert "pi_tool_call_id"[0] == 'p' && "tool_name"[0] == 't' && "result"[0] == 'r';
    var f := ResultAttributes(env, id, name, result);
    assert Get(f.rest, "pi_tool_call_id") == Some(Str(id));
    assert Get(f.rest.rest, "result") == Some(Redact(result, env.secret));
    assert Get(f.rest, "result") == Get(f.rest.rest, "result");
  }

  lemma CallTracks(events: seq<Event>, e: Event, called: string, ids: seq<string>, id: string, result: Json)
    requires Tracks(events, ids, id, result) && e.kind == ToolCall && T.CallId(e) == Some(called)
    ensures Tracks(events + [e], ids + [called], id, if called == id then Null else result)
  {
    assert (events + [e])[..|events|] == events;
  }

  lemma ResultTracks(events: seq<Event>, e: Event, ended: string, given: Json, ids: seq<string>, id: string,
                     result: Json)
    requires Tracks(events, ids, id, result) && e.kind == ToolResult && T.CallId(e) == Some(ended)
    requires T.Attribute(e, "result") == given
    ensures Tracks(events + [e], ids, id, if ended == id then given else result)
  {
    assert (events + [e])[..|events|] == events;
    assert ids + [] == ids;
  }

  lemma OtherTracks(events: seq<Event>, e: Event, ids: seq<string>, id: string, result: Json)
    requires Tracks(events, ids, id, result) && e.kind != ToolCall && e.kind != ToolResult
    ensures Tracks(events + [e], ids, id, result)
  {
    assert (events + [e])[..|events|] == events;
    assert ids + [] == ids;
  }

  // ---------------------------------------------------------------- the record loop

  lemma ItemTracks(c: Conv, env: Env, source: nat, k: nat, item: ContentItem, span: string, time: Option<int>,
                   ids: seq<string>, id: string, result: Json)
    requires Tracks(c.events, ids, id, result) && item.ToolCallItem?
    ensures var called := CallId(item, source, k);
            Tracks(FeedItem(c, env, source, k, item, span, time).events, ids + [called], id,
                   if called == id then Null else result)
  {
    var called, name := CallId(item, source, k), Or(item.name, "unknown");
    CallAttributesRead(env, called, name, item.arguments);
    var after := FeedItem(c, env, source, k, item, span, time).events;
    CallTracks(c.events, after[|c.events|], called, ids, id, result);
  }

  lemma {:induction false} ItemsTrack(c: Conv, env: Env, source: nat, items: seq<ContentItem>, span: string,
                                      time: Option<int>, ids: seq<string>, id: string, result: Json)
    requires Tracks(c.events, ids, id, result)
    ensures Tracks(FeedItems(c, env, source, items, span, time).events, ids + AnnouncedIn(items, source), id,
                   if id in AnnouncedIn(items, source) then Null else result)
    decreases |items|
  {
    if items == [] {
      assert ids + [] == ids;
    } else {
      var k := |items| - 1;
      var front := AnnouncedIn(items[..k], source);
      var before := if id in front then Null else result;
      ItemsTrack(c, env, source, items[..k], span, time, ids, id, result);
      if items[k].ToolCallItem? {
        var called := CallId(items[k], source, k);
        ItemTracks(FeedItems(c, env, source, items[..k], span, time), env, source, k, items[k], span, time,
                   ids + front, id, before);
        Regroup(ids, front, [called]);
      } else {
        assert front + [] == front;
      }
    }
  }

  lemma ModelCallTracks(c: Conv, env: Env, source: nat, time: Option<int>, stopReason: string,
                        ids: seq<string>, id: string, result: Json)
    requires Tracks(c.events, ids, id, result)
    ensures Tracks(FeedModelCall(c, env, source, time, stopReason).events, ids, id, result)
  {
    var after, n := FeedModelCall(c, env, source, time, stopReason).events, |c.events|;
    OtherTracks(c.events, after[n], ids, id, result);
    OtherTracks(c.events + [after[n]], after[n + 1], ids, id, result);
    assert after == c.events + [after[n]] + [after[n + 1]];
  }

  lemma ToolEndTracks(c: Conv, env: Env, source: nat, ended: string, toolName: Option<string>, isError: bool,
                      given: Json,
                      ids: seq<string>, id: string, result: Json)
    requires Tracks(c.events, ids, id, result)
    ensures Tracks(FeedToolEnd(c, env, source, ended, toolName, isError, given).events, ids, id,
                   if ended == id then Redact(given, env.secret) else result)
  {
    var (_, _, name) := Finishing(c, env, ended, toolName);
    var shown := if toolName.Some? then toolName.value else name;
    ResultAttributesRead(env, ended, shown, given);
    var after := FeedToolEnd(c, env, source, ended, toolName, isError, given).events;
    ResultTracks(c.events, after[|c.events|], ended, Redact(given, env.secret), ids, id, result);
  }

  lemma FeedTracks(c: Conv, env: Env, source: nat, r: Record, ids: seq<string>, id: string, result: Json)
    requires Tracks(c.events, ids, id, result)
    ensures Tracks(Feed(c, env, source, r).events, ids + AnnouncedBy(r, source), id,
                   ResultAfter(env, r, source, id, result))
  {
    assert ids + [] == ids;
    match r
    case AssistantEnd(time, stopReason, content) =>
      ModelCallTracks(c, env, source, time, stopReason, ids, id, result);
      ItemsTrack(FeedModelCall(c, env, source, time, stopReason), env, source, content, ModelSpan(c.assistants + 1),
                 time,
                 ids, id, result);
    case ToolExecutionEnd(callId, toolName, isError, given) =>
      ToolEndTracks(c, env, source, Or(callId, "unknown"), toolName, isError, given, ids, id, result);
    case AgentEnd(_) => OtherTracks(c.events, Feed(c, env, source, r).events[|c.events|], ids, id, result);
    case _ =>
  }

  lemma {:induction false} RecordsTrack(env: Env, records: seq<Record>, id: string)
    ensures Tracks(FeedAll(env, records).events, Announced(records), id, ResultOf(env, records, id))
    decreases |records|
  {
    if records != [] {
      var n := |records| - 1;
      RecordsTrack(env, records[..n], id);
      FeedTracks(FeedAll(env, records[..n]), env, n, records[n], Announced(records[..n]), id,
                 ResultOf(env, records[..n], id));
    }
  }

  lemma FinishTracks(c: Conv, env: Env, n: nat, d: Declaration, ids: seq<string>, id: string, result: Json)
    requires Tracks(c.events, ids, id, result)
    ensures Tracks(FinishVerified(c, env, n, d).events, ids, id, result)
    ensures Tracks(FinishFailed(c, env, n).events, ids, id, result)
  {
    var verified, failed, k := FinishVerified(c, env, n, d).events, FinishFailed(c, env, n).events, |c.events|;
    OtherTracks(c.events, verified[k], ids, id, result);
    OtherTracks(c.events + [verified[k]], verified[k + 1], ids, id, result);
    OtherTracks(c.events + [verified[k]] + [verified[k + 1]], verified[k + 2], ids, id, result);
    assert verified == c.events + [verified[k]] + [verified[k + 1]] + [verified[k + 2]];
    OtherTracks(c.events, failed[k], ids, id, result);
    assert failed == c.events + [failed[k]];
  }

  /**
   * The steps of a converted run: one per announcement, in order; each with the result that the records give its id.
   */
  lemma ConvertedSteps(env: Env, records: seq<Record>, d: Declaration, id: string)
    ensures Tracks(Converted(env, records, d).events, Announced(records), id, ResultOf(env, records, id))
  {
    RecordsTrack(env, records, id);
    FinishTracks(FeedAll(env, records), env, |records|, d, Announced(records), id, ResultOf(env, records, id));
  }

  // ---------------------------------------------------------------- indexing the steps

  lemma {:induction false} AnnouncedInNamed(items: seq<ContentItem>, source: nat)
    ensures "" !in AnnouncedIn(items, source)
  {
    if items != [] { AnnouncedInNamed(items[..|items| - 1], source); }
  }

  lemma {:induction false} AnnouncedNamed(records: seq<Record>)
    ensures "" !in Announced(records)
  {
    if records != [] {
      var n := |records| - 1;
      AnnouncedNamed(records[..n]);
      if records[n].AssistantEnd? { AnnouncedInNamed(records[n].content, n); }
    }
  }

  /** Steps with these ids, none of them empty. */
  ghost predicate Named(steps: seq<Fields>, ids: seq<string>) {
    |steps| == |ids| && forall i :: 0 <= i < |steps| ==> C.StepId(steps[i]) == Some(ids[i])
  }

  lemma {:induction false} IndexedIff(steps: seq<Fields>, ids: seq<string>)
    requires Named(steps, ids)
    ensures C.ResultsOf(steps).Ok? <==> NoDup(ids)
    decreases |steps|
  {
    if steps != [] {
      var n := |steps| - 1;
      IndexedIff(steps[..n], ids[..n]);
      assert ids == ids[..n] + [ids[n]];
      if C.ResultsOf(steps[..n]).Ok? {
        NextIndexed(steps, ids);
        C.NoDupMore(ids[..n], ids[n]);
      } else if NoDup(ids) {
        C.NoDupPrefix(ids[..n], [ids[n]]);
      }
    }
  }

  lemma IndexedIds(steps: seq<Fields>, ids: seq<string>, id: string)
    requires Named(steps, ids) && C.ResultsOf(steps).Ok?
    ensures id in C.ResultsOf(steps).value <==> id in ids
  {
    C.ResultsAreSteps(steps);
    if id in C.ResultsOf(steps).value {
      var i :| 0 <= i < |steps| && C.StepId(steps[i]) == Some(id);
      assert ids[i] == id;
    }
    if id in ids {
      var i :| 0 <= i < |ids| && ids[i] == id;
      assert C.StepId(steps[i]) == Some(id);
    }
  }

  lemma NextIndexed(steps: seq<Fields>, ids: seq<string>)
    requires Named(steps, ids) && steps != [] && C.ResultsOf(steps[..|steps| - 1]).Ok?
    ensures C.ResultsOf(steps).Ok? <==> ids[|steps| - 1] !in ids[..|steps| - 1]
  {
    var n := |steps| - 1;
    IndexedIds(steps[..n], ids[..n], ids[n]);
  }

  lemma StepsAreNamed(env: Env, records: seq<Record>, d: Declaration)
    ensures Named(T.Steps(Converted(env, records, d).events), Announced(records))
  {
    var events := Converted(env, records, d).events;
    ConvertedSteps(env, records, d, "");
    AnnouncedNamed(records);
    T.CalledAreKnown(events);
    var ids, steps := Announced(records), T.Steps(events);
    forall i | 0 <= i < |steps| ensures C.StepId(steps[i]) == Some(ids[i]) {
      T.StepReads(ids[i], T.Calls(events)[ids[i]]);
      assert ids[i] in ids;
    }
  }

  /** The steps of a converted run can be indexed exactly when every announced id is announced once. */
  lemma StepsIndexedIff(env: Env, records: seq<Record>, d: Declaration)
    ensures C.ResultsOf(T.Steps(Converted(env, records, d).events)).Ok? <==> NoDup(Announced(records))
  {
    StepsAreNamed(env, records, d);
    IndexedIff(T.Steps(Converted(env, records, d).events), Announced(records));
  }

  // ---------------------------------------------------------------- closing the conversation

  lemma StepHasResult(env: Env, records: seq<Record>, d: Declaration, id: string)
    requires C.ResultsOf(T.Steps(Converted(env, records, d).events)).Ok?
    ensures var results := C.ResultsOf(T.Steps(Converted(env, records, d).events)).value;
            && (id in results <==> id in Announced(records))
            && (id in results ==> Get(results[id], "result") == Some(ResultOf(env, records, id)))
  {
    var events := Converted(env, records, d).events;
    ConvertedSteps(env, records, d, id);
    StepsAreNamed(env, records, d);
    StepIsIndexed(events, Announced(records), id, ResultOf(env, records, id));
  }

  lemma StepIsIndexed(events: seq<Event>, ids: seq<string>, id: string, result: Json)
    requires Tracks(events, ids, id, result) && Named(T.Steps(events), ids) && C.ResultsOf(T.Steps(events)).Ok?
    ensures var results := C.ResultsOf(T.Steps(events)).value;
            (id in results <==> id in ids) && (id in results ==> Get(results[id], "result") == Some(result))
  {
    var steps := T.Steps(events);
    IndexedIds(steps, ids, id);
    C.ResultsAreSteps(steps);
    if id in C.ResultsOf(steps).value {
      var i :| 0 <= i < |steps| && C.StepId(steps[i]) == Some(id);
      assert ids[i] == id;
      T.StepReads(id, T.Calls(events)[id]);
    }
  }

  /**
   * A conversation over a converted run closes only if every announced id is announced once, was executed after its
   * announcement with a result, and is called in the conversation.
   */
  lemma ClosingNeedsExecution(env: Env, records: seq<Record>, d: Declaration, messages: seq<Fields>,
                              text: Json -> string,
                              id: string)
    requires C.Close(messages, T.Steps(Converted(env, records, d).events), text).Ok?
    ensures NoDup(Announced(records))
    ensures var results := C.ResultsOf(T.Steps(Converted(env, records, d).events)).value;
            id in C.AllIds(results, messages) <==> id in Announced(records)
    ensures id in Announced(records) ==> ResultOf(env, records, id) != Null
  {
    var steps := T.Steps(Converted(env, records, d).events);
    StepsIndexedIff(env, records, d);
    C.CallsMatchSteps(messages, steps, text);
    C.ClosesIff(messages, steps, text);
    C.AllIdsKnown(C.ResultsOf(steps).value, messages, text);
    StepHasResult(env, records, d, id);
  }

  function TextOrNull(text: Option<string>): Json {
    match text
    case None => Null
    case Some(s) => Str(s)
  }

  /** The calls that `_message` reads off one response; `dumps` prints the arguments. */
  function Blocks(content: seq<ContentItem>, dumps: Json -> string): Items {
    if content == [] then NoItems
    else match content[0]
      case OtherItem => Blocks(content[1..], dumps)
      case ToolCallItem(id, name, arguments) =>
        var named := Obj(Field("name", TextOrNull(name), Field("arguments", Str(dumps(arguments)), NoFields)));
        Item(Obj(Field("id", TextOrNull(id), Field("type", Str("function"), Field("function", named, NoFields)))),
             Blocks(content[1..], dumps))
  }

  /** The assistant messages are those of responses among the records. */
  ghost predicate HistoryOf(messages: seq<Fields>, records: seq<Record>, dumps: Json -> string) {
    forall i :: 0 <= i < |messages| && C.CallsOf(messages[i]) != NoItems ==>
      exists n :: SpokenIn(messages[i], records, n, dumps)
  }

  predicate SpokenIn(m: Fields, records: seq<Record>, n: int, dumps: Json -> string) {
    && 0 <= n < |records| && records[n].AssistantEnd?
    && C.CallsOf(m) == Blocks(records[n].content, dumps)
  }

  lemma {:induction false} BlockIsItem(content: seq<ContentItem>, dumps: Json -> string, id: string)
    requires id in C.IdsOf(Blocks(content, dumps))
    ensures exists i :: 0 <= i < |content| && content[i].ToolCallItem? && Or(content[i].id, "") == id != ""
  {
    if content[0].ToolCallItem? && Or(content[0].id, "") == id != "" {
    } else {
      BlockIsItem(content[1..], dumps, id);
      var i :| 0 <= i < |content[1..]| && content[1..][i].ToolCallItem? && Or(content[1..][i].id, "") == id != "";
      assert content[i + 1] == content[1..][i];
    }
  }

  lemma {:induction false} ItemIsAnnounced(content: seq<ContentItem>, source: nat, i: nat)
    requires i < |content| && content[i].ToolCallItem?
    ensures CallId(content[i], source, i) in AnnouncedIn(content, source)
    decreases |content|
  {
    if i < |content| - 1 { ItemIsAnnounced(content[..|content| - 1], source, i); }
  }

  lemma {:induction false} ResponseIsAnnounced(records: seq<Record>, n: nat, id: string)
    requires n < |records| && id in AnnouncedBy(records[n], n)
    ensures id in Announced(records)
    decreases |records|
  {
    if n < |records| - 1 { ResponseIsAnnounced(records[..|records| - 1], n, id); }
  }

  /** All calls of the messages are among these ids. */
  predicate CallsWithin(messages: seq<Fields>, ids: seq<string>) {
    forall i :: 0 <= i < |messages| ==> forall id :: id in C.IdsOf(C.CallsOf(messages[i])) ==> id in ids
  }

  lemma HistoryWithin(messages: seq<Fields>, records: seq<Record>, dumps: Json -> string)
    requires HistoryOf(messages, records, dumps)
    ensures CallsWithin(messages, Announced(records))
  {
    forall i, id | 0 <= i < |messages| && id in C.IdsOf(C.CallsOf(messages[i]))
      ensures id in Announced(records)
    {
      var n :| SpokenIn(messages[i], records, n, dumps);
      BlockIsItem(records[n].content, dumps, id);
      var k :| 0 <= k < |records[n].content| && records[n].content[k].ToolCallItem?
        && Or(records[n].content[k].id, "") == id != "";
      ItemIsAnnounced(records[n].content, n, k);
      ResponseIsAnnounced(records, n, id);
    }
  }

  lemma {:induction false} WithinMeans(results: C.Results, messages: seq<Fields>, ids: seq<string>)
    requires CallsWithin(messages, ids)
    ensures forall id :: id in C.AllIds(results, messages) ==> id in ids
    decreases |messages|
  {
    if messages != [] {
      var n := |messages| - 1;
      assert forall i :: 0 <= i < n ==> messages[..n][i] == messages[i];
      WithinMeans(results, messages[..n], ids);
    }
  }

  /** No assistant record after the `k`-th. */
  predicate LastResponse(records: seq<Record>, k: int) {
    0 <= k < |records| && records[k].AssistantEnd? && forall j :: k < j < |records| ==> !records[j].AssistantEnd?
  }

  lemma {:induction false} AnnouncedUpTo(records: seq<Record>, k: nat)
    requires LastResponse(records, k)
    ensures Announced(records) == Announced(records[..k]) + AnnouncedIn(records[k].content, k)
    decreases |records|
  {
    var n := |records| - 1;
    if k < n {
      assert records[..n][..k] == records[..k];
      AnnouncedUpTo(records[..n], k);
      assert Announced(records[..n]) + [] == Announced(records[..n]);
    }
  }

  lemma NoDupJoin(a: seq<string>, b: seq<string>, id: string)
    requires NoDup(a + b) && id in b
    ensures id !in a
  {
    var j :| 0 <= j < |b| && b[j] == id;
    assert (a + b)[|a| + j] == id;
    forall i | 0 <= i < |a| ensures a[i] != id {
      assert (a + b)[i] == a[i];
    }
  }

  /**
   * The history that is closed is that of the last model request, so it holds no call that the last response announces.
   * A run whose last response announces a call, executed or not, therefore never closes.
   */
  lemma LastResponseNeverCloses(env: Env, records: seq<Record>, d: Declaration, k: nat, messages: seq<Fields>,
                                text: Json -> string, dumps: Json -> string)
    requires LastResponse(records, k) && HistoryOf(messages, records[..k], dumps)
    requires AnnouncedIn(records[k].content, k) != []
    ensures C.Close(messages, T.Steps(Converted(env, records, d).events), text).Err?
  {
    var steps := T.Steps(Converted(env, records, d).events);
    if C.Close(messages, steps, text).Ok? {
      var before, last := Announced(records[..k]), AnnouncedIn(records[k].content, k);
      var id := last[0];
      AnnouncedUpTo(records, k);
      ClosingNeedsExecution(env, records, d, messages, text, id);
      NoDupJoin(before, last, id);
      HistoryWithin(messages, records[..k], dumps);
      WithinMeans(C.ResultsOf(steps).value, messages, before);
      assert false;
    }
  }
}
