/** Adapter, then assembler: what the episode of a converted Pi record stream looks like, for every stream. */
module PiEpisodes {
  import opened Options
  import opened Json
  import opened Trace
  import opened Ordering
  import opened Episodes
  import opened EpisodeFacts
  import opened Instants
  import opened SpanSets
  import opened PiAdapter

  ghost predicate Injective(env: Env) {
    forall a, b :: env.hash(a) == env.hash(b) ==> a == b
  }

  // ---------------------------------------------------------------- the ids that decide completeness

  function CallsIn(items: seq<ContentItem>, source: nat): set<string> {
    if items == [] then {}
    else
      var k := |items| - 1;
      CallsIn(items[..k], source) + (if items[k].ToolCallItem? then {CallId(items[k], source, k)} else {})
  }

  function CallsOf(r: Record, source: nat): set<string> {
    match r
    case AssistantEnd(_, _, content) => CallsIn(content, source)
    case _ => {}
  }

  function EndsOf(r: Record): set<string> {
    match r
    case ToolExecutionEnd(id, _, _, _) => {Or(id, "unknown")}
    case _ => {}
  }

  /** The ids of the tool calls that the records announce. */
  function ToolCallIds(records: seq<Record>): set<string> {
    if records == [] then {}
    else ToolCallIds(records[..|records| - 1]) + CallsOf(records[|records| - 1], |records| - 1)
  }

  /** The ids among the tool-execution-end records. */
  function ToolEndIds(records: seq<Record>): set<string> {
    if records == [] then {} else ToolEndIds(records[..|records| - 1]) + EndsOf(records[|records| - 1])
  }

  function ToolSpans(env: Env, ids: set<string>): set<string> {
    set id | id in ids :: ToolSpan(env, id)
  }

  lemma ToolSpansDiffer(env: Env, a: string, b: string)
    requires Injective(env) && ToolSpan(env, a) == ToolSpan(env, b)
    ensures a == b
  {
    assert ToolSpan(env, a)[13..] == env.hash(Str(a)) && ToolSpan(env, b)[13..] == env.hash(Str(b));
  }

  lemma SpansIncludedIff(env: Env, a: set<string>, b: set<string>)
    requires Injective(env)
    ensures ToolSpans(env, a) <= ToolSpans(env, b) <==> a <= b
  {
    if ToolSpans(env, a) <= ToolSpans(env, b) {
      forall id | id in a ensures id in b {
        assert ToolSpan(env, id) in ToolSpans(env, b);
        var other :| other in b && ToolSpan(env, other) == ToolSpan(env, id);
        ToolSpansDiffer(env, id, other);
      }
    }
  }

  // ---------------------------------------------------------------- every emitted event

  /**
   * The i-th event: sequence i, the run's identity, an id made from i; only tool events have a parent, a model span.
   */
  ghost predicate Stamped(env: Env, e: Event, i: nat) {
    && e.sequence == i && e.runId == env.runId && e.episodeId == env.episodeId && e.artifactRefs == []
    && (exists source: nat :: e.eventId == EventId(env, source, i, e.kind))
    && |e.spanId| > 8 && e.spanId[0] == 's'
    && (e.parent.Some? ==>
        |e.parent.value| > 8 && e.parent.value[0] == 's' && e.parent.value[8] == 'm' && e.spanId[8] == 't')
  }

  /** All events are stamped with their positions, and their times rise strictly up to `last`. */
  ghost predicate AllStamped(env: Env, events: seq<Event>, last: int) {
    events == [] ||
      var n := |events| - 1;
      Stamped(env, events[n], n) && events[n].timestamp <= last && AllStamped(env, events[..n], events[n].timestamp - 1)
  }

  lemma {:induction false} StampsHold(env: Env, events: seq<Event>, last: int, i: nat)
    requires AllStamped(env, events, last) && i < |events|
    ensures Stamped(env, events[i], i) && events[i].timestamp <= last
  {
    var n := |events| - 1;
    if i < n { StampsHold(env, events[..n], events[n].timestamp - 1, i); }
  }

  lemma EventIdsDiffer(env: Env, s: nat, i: nat, k: EventType, t: nat, j: nat, l: EventType)
    requires Injective(env) && i != j
    ensures EventId(env, s, i, k) != EventId(env, t, j, l)
  {
    DecimalIsInjective(i);
    DecimalIsInjective(j);
    assert EventKey(env.session, s, i, k) != EventKey(env.session, t, j, l);
    var a, b := EventId(env, s, i, k), EventId(env, t, j, l);
    assert a[7..] == env.hash(EventKey(env.session, s, i, k)) && b[7..] == env.hash(EventKey(env.session, t, j, l));
  }

  lemma StampedIdsDiffer(env: Env, events: seq<Event>, last: int)
    requires Injective(env) && AllStamped(env, events, last)
    ensures DistinctIds(events)
  {
    forall i, j | 0 <= i < j < |events| ensures events[i].eventId != events[j].eventId {
      StampsHold(env, events, last, i);
      StampsHold(env, events, last, j);
      var s: nat :| events[i].eventId == EventId(env, s, i, events[i].kind);
      var t: nat :| events[j].eventId == EventId(env, t, j, events[j].kind);
      EventIdsDiffer(env, s, i, events[i].kind, t, j, events[j].kind);
    }
  }

  /** No emitted event is refused by the event constructor. */
  lemma StampedIsValid(env: Env, e: Event, i: nat)
    requires Stamped(env, e, i) && Text(env.runId) && Text(env.episodeId)
    ensures ValidEvent(e)
  {
    var source: nat :| e.eventId == EventId(env, source, i, e.kind);
    assert e.eventId[0] == 'e' && e.spanId[0] == 's';
  }

  ghost predicate Shaped(span: string, parent: Option<string>) {
    && |span| > 8 && span[0] == 's'
    && (parent.Some? ==> |parent.value| > 8 && parent.value[0] == 's' && parent.value[8] == 'm' && span[8] == 't')
  }

  lemma EventAppend(events: seq<Event>, e: Event)
    ensures Terminals(events + [e]) == Terminals(events) + (if e.kind == EpisodeFinished then [e] else [])
    ensures LoopOnly(events + [e]) <==>
            LoopOnly(events)
              && e.kind in {ModelRequest, ModelResponse, ToolCall, ToolResult, RetryScheduled, TerminationDecided}
  {
    assert (events + [e])[..|events|] == events;
  }

  // ---------------------------------------------------------------- what the record loop keeps

  ghost predicate PendingKnown(pending: map<string, Pending>, env: Env, spans: set<string>) {
    forall id :: id in pending ==>
      var p := pending[id];
      p.span == ToolSpan(env, id) && p.parent in spans && Shaped(p.span, Some(p.parent))
  }

  /** Every event is well stamped, and the error count is that of the error responses. */
  ghost predicate StampsKept(c: Conv, env: Env) {
    AllStamped(env, c.events, c.last) && |ErrorResponses(c.events)| == c.errors
  }

  /** Parents occur, requests are answered, and the tool spans are those of the announced and the ended calls. */
  ghost predicate SpansKept(events: seq<Event>, env: Env, calls: set<string>, ends: set<string>) {
    && Parents(events) <= Spans(events)
    && Marked(events, ModelRequest) == Marked(events, ModelResponse)
    && Marked(events, ToolCall) == ToolSpans(env, calls)
    && Marked(events, ToolResult) == ToolSpans(env, ends)
    && LoopOnly(events)
  }

  /** Sandbox, verification and terminal events do not come from the record loop. */
  predicate LoopOnly(events: seq<Event>) {
    events == [] ||
      (events[|events| - 1].kind in {ModelRequest, ModelResponse, ToolCall, ToolResult, RetryScheduled,
                                     TerminationDecided}
       && LoopOnly(events[..|events| - 1]))
  }

  ghost predicate Kept(c: Conv, env: Env, calls: set<string>, ends: set<string>) {
    StampsKept(c, env) && SpansKept(c.events, env, calls, ends) && PendingKnown(c.pending, env, Spans(c.events))
  }

  lemma ErrorsAppend(events: seq<Event>, e: Event)
    ensures ErrorResponses(events + [e])
            == ErrorResponses(events) + (if e.kind == ModelResponse && e.status == Error then [e.eventId] else [])
  {
    assert (events + [e])[..|events|] == events;
  }

  lemma EmitStamps(c: Conv, env: Env, kind: EventType, status: Status, span: string, parent: Option<string>,
                   source: nat, time: Option<int>, attributes: Fields)
    requires AllStamped(env, c.events, c.last) && Shaped(span, parent)
    ensures var after := EmitEvent(c, env, kind, status, span, parent, source, time, attributes);
            AllStamped(env, after.events, after.last)
            && ErrorResponses(after.events)
               == ErrorResponses(c.events)
                 + (if kind == ModelResponse && status == Error then [after.events[|c.events|].eventId] else [])
  {
    var after := EmitEvent(c, env, kind, status, span, parent, source, time, attributes);
    var n := |c.events|;
    ErrorsAppend(c.events, after.events[n]);
    assert after.events[..n] == c.events;
    StampsLast(env, c.events, c.last, after.events[n].timestamp - 1);
    assert Stamped(env, after.events[n], n);
  }

  lemma StampsLast(env: Env, events: seq<Event>, last: int, later: int)
    requires AllStamped(env, events, last) && last <= later
    ensures AllStamped(env, events, later)
  {
  }

  lemma ModelCallStamps(c: Conv, env: Env, source: nat, time: Option<int>, stopReason: string)
    requires StampsKept(c, env)
    ensures StampsKept(FeedModelCall(c, env, source, time, stopReason), env)
  {
    var span := ModelSpan(c.assistants + 1);
    var c0 := c.(assistants := c.assistants + 1);
    var c1 := EmitEvent(c0, env, ModelRequest, Started, span, None, source, Before(time), NoFields);
    EmitStamps(c0, env, ModelRequest, Started, span, None, source, Before(time), NoFields);
    EmitStamps(c1, env, ModelResponse, if stopReason == "error" then Error else Succeeded, span, None, source, time,
               NoFields);
  }

  lemma ModelCallSpans(events: seq<Event>, request: Event, response: Event, env: Env, calls: set<string>,
                       ends: set<string>)
    requires SpansKept(events, env, calls, ends)
    requires request.kind == ModelRequest && response.kind == ModelResponse && request.spanId == response.spanId
    requires request.parent.None? && response.parent.None?
    ensures SpansKept(events + [request] + [response], env, calls, ends)
    ensures Spans(events + [request] + [response]) == Spans(events) + {request.spanId}
  {
    SpansAppend(events, request);
    EventAppend(events, request);
    SpansAppend(events + [request], response);
    EventAppend(events + [request], response);
  }

  lemma ModelCallKeeps(c: Conv, env: Env, source: nat, time: Option<int>, stopReason: string, calls: set<string>,
                       ends: set<string>)
    requires Kept(c, env, calls, ends)
    ensures var after := FeedModelCall(c, env, source, time, stopReason);
            Kept(after, env, calls, ends) && ModelSpan(c.assistants + 1) in Spans(after.events)
  {
    var after := FeedModelCall(c, env, source, time, stopReason);
    var n := |c.events|;
    ModelCallStamps(c, env, source, time, stopReason);
    ModelCallSpans(c.events, after.events[n], after.events[n + 1], env, calls, ends);
    assert after.events == c.events + [after.events[n]] + [after.events[n + 1]];
  }

  lemma ToolCallSpans(events: seq<Event>, e: Event, id: string, env: Env, calls: set<string>, ends: set<string>)
    requires SpansKept(events, env, calls, ends)
    requires e.kind == ToolCall && e.spanId == ToolSpan(env, id) && e.parent.Some? && e.parent.value in Spans(events)
    ensures SpansKept(events + [e], env, calls + {id}, ends)
    ensures Spans(events + [e]) == Spans(events) + {e.spanId}
  {
    SpansAppend(events, e);
    EventAppend(events, e);
    assert ToolSpans(env, calls + {id}) == ToolSpans(env, calls) + {ToolSpan(env, id)};
  }

  /** The call event of an announced tool call. */
  lemma CallKeeps(c: Conv, env: Env, source: nat, id: string, span: string, time: Option<int>, attributes: Fields,
                  calls: set<string>, ends: set<string>)
    requires Kept(c, env, calls, ends) && span in Spans(c.events) && Shaped(ToolSpan(env, id), Some(span))
    ensures var after := EmitEvent(c, env, ToolCall, Started, ToolSpan(env, id), Some(span), source, time, attributes);
            Kept(after, env, calls + {id}, ends) && Spans(after.events) == Spans(c.events) + {ToolSpan(env, id)}
  {
    var after := EmitEvent(c, env, ToolCall, Started, ToolSpan(env, id), Some(span), source, time, attributes);
    EmitStamps(c, env, ToolCall, Started, ToolSpan(env, id), Some(span), source, time, attributes);
    ToolCallSpans(c.events, after.events[|c.events|], id, env, calls, ends);
    PendingStays(c.pending, env, Spans(c.events), {ToolSpan(env, id)});
  }

  lemma PendingStays(pending: map<string, Pending>, env: Env, spans: set<string>, more: set<string>)
    requires PendingKnown(pending, env, spans)
    ensures PendingKnown(pending, env, spans + more)
  {
  }

  lemma PendingGains(pending: map<string, Pending>, env: Env, spans: set<string>, id: string, span: string,
                     name: string)
    requires PendingKnown(pending, env, spans) && span in spans && Shaped(ToolSpan(env, id), Some(span))
    ensures PendingKnown(pending[id := Pending(ToolSpan(env, id), span, name)], env, spans)
  {
  }

  lemma ItemKeeps(c: Conv, env: Env, source: nat, k: nat, item: ContentItem, span: string, time: Option<int>,
                  calls: set<string>, ends: set<string>)
    requires Kept(c, env, calls, ends) && span in Spans(c.events) && |span| > 8 && span[0] == 's' && span[8] == 'm'
    ensures var after := FeedItem(c, env, source, k, item, span, time);
            Kept(after, env, calls + (if item.ToolCallItem? then {CallId(item, source, k)} else {}), ends)
            && span in Spans(after.events)
  {
    if item.ToolCallItem? {
      var id, name := CallId(item, source, k), Or(item.name, "unknown");
      CallKeeps(c, env, source, id, span, time, CallAttributes(env, id, name, item.arguments), calls, ends);
      PendingStays(c.pending, env, Spans(c.events), {ToolSpan(env, id)});
      PendingGains(c.pending, env, Spans(c.events) + {ToolSpan(env, id)}, id, span, name);
    } else {
      assert calls + {} == calls;
    }
  }

  lemma {:induction false} ItemsKeep(c: Conv, env: Env, source: nat, items: seq<ContentItem>, span: string,
                                     time: Option<int>, calls: set<string>, ends: set<string>)
    requires Kept(c, env, calls, ends) && span in Spans(c.events) && |span| > 8 && span[0] == 's' && span[8] == 'm'
    ensures var after := FeedItems(c, env, source, items, span, time);
            Kept(after, env, calls + CallsIn(items, source), ends) && span in Spans(after.events)
    decreases |items|
  {
    if items == [] {
      assert calls + {} == calls;
    } else {
      var k := |items| - 1;
      ItemsKeep(c, env, source, items[..k], span, time, calls, ends);
      CallsGrow(calls, items, source);
      ItemKeeps(FeedItems(c, env, source, items[..k], span, time), env, source, k, items[k], span, time,
                calls + CallsIn(items[..k], source), ends);
    }
  }

  lemma CallsGrow(calls: set<string>, items: seq<ContentItem>, source: nat)
    requires items != []
    ensures var k := |items| - 1;
            calls + CallsIn(items, source)
            == calls + CallsIn(items[..k], source)
              + (if items[k].ToolCallItem? then {CallId(items[k], source, k)} else {})
  {
  }

  lemma ToolEndSpans(events: seq<Event>, e: Event, id: string, env: Env, calls: set<string>, ends: set<string>)
    requires SpansKept(events, env, calls, ends)
    requires e.kind == ToolResult && e.spanId == ToolSpan(env, id)
             && (e.parent.Some? ==> e.parent.value in Spans(events))
    ensures SpansKept(events + [e], env, calls, ends + {id})
    ensures Spans(events + [e]) == Spans(events) + {e.spanId}
  {
    SpansAppend(events, e);
    EventAppend(events, e);
    assert ToolSpans(env, ends + {id}) == ToolSpans(env, ends) + {ToolSpan(env, id)};
  }

  lemma FinishingKnown(c: Conv, env: Env, id: string, toolName: Option<string>)
    requires PendingKnown(c.pending, env, Spans(c.events))
    ensures var (span, parent, _) := Finishing(c, env, id, toolName);
            span == ToolSpan(env, id) && Shaped(span, parent) && (parent.Some? ==> parent.value in Spans(c.events))
  {
  }

  lemma PendingShrinks(pending: map<string, Pending>, id: string, env: Env, spans: set<string>)
    requires PendingKnown(pending, env, spans)
    ensures PendingKnown(pending - {id}, env, spans)
  {
  }

  /** The result event of a tool call, once its announcement is settled. */
  lemma ResultKeeps(c: Conv, env: Env, source: nat, id: string, status: Status, parent: Option<string>,
                    time: Option<int>, attributes: Fields, calls: set<string>, ends: set<string>)
    requires Kept(c, env, calls, ends)
    requires Shaped(ToolSpan(env, id), parent) && (parent.Some? ==> parent.value in Spans(c.events))
    ensures Kept(EmitEvent(c, env, ToolResult, status, ToolSpan(env, id), parent, source, time, attributes),
                 env, calls, ends + {id})
  {
    var after := EmitEvent(c, env, ToolResult, status, ToolSpan(env, id), parent, source, time, attributes);
    EmitStamps(c, env, ToolResult, status, ToolSpan(env, id), parent, source, time, attributes);
    ToolEndSpans(c.events, after.events[|c.events|], id, env, calls, ends);
    PendingStays(c.pending, env, Spans(c.events), {ToolSpan(env, id)});
  }

  lemma ToolEndKeeps(c: Conv, env: Env, source: nat, id: string, toolName: Option<string>, isError: bool, result: Json,
                     calls: set<string>, ends: set<string>)
    requires Kept(c, env, calls, ends)
    ensures Kept(FeedToolEnd(c, env, source, id, toolName, isError, result), env, calls, ends + {id})
  {
    var (span, parent, name) := Finishing(c, env, id, toolName);
    FinishingKnown(c, env, id, toolName);
    var c1 := c.(pending := c.pending - {id}, issues := if id in c.pending then c.issues else c.issues + [id]);
    PendingShrinks(c.pending, id, env, Spans(c.events));
    var status := if isError then Error else Succeeded;
    var time := if id in env.resultTimes then Some(env.resultTimes[id]) else None;
    var attributes := ResultAttributes(env, id, if toolName.Some? then toolName.value else name, result);
    ResultKeeps(c1, env, source, id, status, parent, time, attributes, calls, ends);
    var after := EmitEvent(c1, env, ToolResult, status, span, parent, source, time, attributes);
    assert FeedToolEnd(c, env, source, id, toolName, isError, result) == after;
  }

  lemma AgentEndSpans(events: seq<Event>, e: Event, env: Env, calls: set<string>, ends: set<string>)
    requires SpansKept(events, env, calls, ends) && e.parent.None?
    requires e.kind == RetryScheduled || e.kind == TerminationDecided
    ensures SpansKept(events + [e], env, calls, ends) && Spans(events + [e]) == Spans(events) + {e.spanId}
  {
    SpansAppend(events, e);
    EventAppend(events, e);
  }

  /** An event of the agent's own: no parent, no tool and no model span. */
  lemma HarnessEventKeeps(c: Conv, env: Env, source: nat, kind: EventType, span: string, calls: set<string>,
                          ends: set<string>)
    requires Kept(c, env, calls, ends) && Shaped(span, None)
    requires kind == RetryScheduled || kind == TerminationDecided
    ensures Kept(EmitEvent(c, env, kind, Succeeded, span, None, source, None, NoFields), env, calls, ends)
  {
    var after := EmitEvent(c, env, kind, Succeeded, span, None, source, None, NoFields);
    EmitStamps(c, env, kind, Succeeded, span, None, source, None, NoFields);
    AgentEndSpans(c.events, after.events[|c.events|], env, calls, ends);
    PendingStays(c.pending, env, Spans(c.events), {span});
  }

  lemma AgentEndKeeps(c: Conv, env: Env, source: nat, willRetry: bool, calls: set<string>, ends: set<string>)
    requires Kept(c, env, calls, ends)
    ensures Kept(Feed(c, env, source, AgentEnd(willRetry)), env, calls, ends)
  {
    var kind := if willRetry then RetryScheduled else TerminationDecided;
    var span := "span-pi-harness-" + Decimal(source);
    HarnessSpanIsShaped(source);
    HarnessEventKeeps(c, env, source, kind, span, calls, ends);
    var after := EmitEvent(c, env, kind, Succeeded, span, None, source, None, NoFields);
    assert Feed(c, env, source, AgentEnd(willRetry)) == after;
  }

  lemma HarnessSpanIsShaped(source: nat)
    ensures Shaped("span-pi-harness-" + Decimal(source), None)
  {
    assert "span-pi-harness-"[0] == 's';
  }

  lemma AssistantKeeps(c: Conv, env: Env, source: nat, r: Record, calls: set<string>, ends: set<string>)
    requires Kept(c, env, calls, ends) && r.AssistantEnd?
    ensures Kept(Feed(c, env, source, r), env, calls + CallsIn(r.content, source), ends)
  {
    var called := FeedModelCall(c, env, source, r.timestamp, r.stopReason);
    ModelCallKeeps(c, env, source, r.timestamp, r.stopReason, calls, ends);
    ItemsKeep(called, env, source, r.content, ModelSpan(c.assistants + 1), r.timestamp, calls, ends);
  }

  lemma FeedKeeps(c: Conv, env: Env, source: nat, r: Record, calls: set<string>, ends: set<string>)
    requires Kept(c, env, calls, ends)
    ensures Kept(Feed(c, env, source, r), env, calls + CallsOf(r, source), ends + EndsOf(r))
  {
    assert calls + {} == calls && ends + {} == ends;
    match r
    case AssistantEnd(_, _, _) => AssistantKeeps(c, env, source, r, calls, ends);
    case ToolExecutionEnd(id, toolName, isError, result) =>
      ToolEndKeeps(c, env, source, Or(id, "unknown"), toolName, isError, result, calls, ends);
    case AgentEnd(willRetry) => AgentEndKeeps(c, env, source, willRetry, calls, ends);
    case OtherMessageEnd =>
    case OtherRecord =>
  }

  lemma {:induction false} RecordsKeep(env: Env, records: seq<Record>)
    ensures Kept(FeedAll(env, records), env, ToolCallIds(records), ToolEndIds(records))
    decreases |records|
  {
    if records == [] {
      assert ToolSpans(env, {}) == {};
    } else {
      var n := |records| - 1;
      RecordsKeep(env, records[..n]);
      FeedKeeps(FeedAll(env, records[..n]), env, n, records[n], ToolCallIds(records[..n]), ToolEndIds(records[..n]));
    }
  }

  // ---------------------------------------------------------------- the closing events

  /** The whole conversion: every span that a start event opens is closed, except the tool calls that never ended. */
  ghost predicate Finished(env: Env, events: seq<Event>, calls: set<string>, ends: set<string>) {
    && Parents(events) <= Spans(events)
    && Marked(events, ModelRequest) == Marked(events, ModelResponse)
    && Marked(events, ToolCall) == ToolSpans(env, calls)
    && Marked(events, ToolResult) == ToolSpans(env, ends)
    && Marked(events, SandboxStarted) == {}
    && Marked(events, VerificationStarted) == Marked(events, VerificationFinished)
  }

  lemma {:induction false} LoopLeavesOut(events: seq<Event>)
    requires LoopOnly(events)
    ensures Terminals(events) == []
    ensures Marked(events, SandboxStarted) == Marked(events, VerificationStarted)
            == Marked(events, VerificationFinished) == {}
  {
    if events != [] { LoopLeavesOut(events[..|events| - 1]); }
  }

  lemma VerifiedSpans(events: seq<Event>, started: Event, done: Event, last: Event, env: Env, calls: set<string>,
                      ends: set<string>)
    requires SpansKept(events, env, calls, ends)
    requires started.kind == VerificationStarted && done.kind == VerificationFinished && last.kind == EpisodeFinished
    requires started.spanId == done.spanId && started.parent.None? && done.parent.None? && last.parent.None?
    ensures Finished(env, events + [started] + [done] + [last], calls, ends)
  {
    LoopLeavesOut(events);
    SpansAppend(events, started);
    SpansAppend(events + [started], done);
    SpansAppend(events + [started] + [done], last);
  }

  lemma FailedSpans(events: seq<Event>, last: Event, env: Env, calls: set<string>, ends: set<string>)
    requires SpansKept(events, env, calls, ends) && last.kind == EpisodeFinished && last.parent.None?
    ensures Finished(env, events + [last], calls, ends)
  {
    LoopLeavesOut(events);
    SpansAppend(events, last);
  }

  /** The terminal events after the closing events: only the last one. */
  lemma OneTerminalEvent(events: seq<Event>, closing: seq<Event>, last: Event)
    requires LoopOnly(events) && last.kind == EpisodeFinished
    requires forall i :: 0 <= i < |closing| ==> closing[i].kind != EpisodeFinished
    ensures Terminals(events + closing + [last]) == [last]
  {
    LoopLeavesOut(events);
    NoTerminalsIn(events, closing);
    assert (events + closing + [last])[..|events + closing|] == events + closing;
  }

  lemma {:induction false} NoTerminalsIn(events: seq<Event>, closing: seq<Event>)
    requires Terminals(events) == [] && forall i :: 0 <= i < |closing| ==> closing[i].kind != EpisodeFinished
    ensures Terminals(events + closing) == []
    decreases |closing|
  {
    if closing == [] {
      assert events + closing == events;
    } else {
      NoTerminalsIn(events, closing[..|closing| - 1]);
      assert (events + closing)[..|events + closing| - 1] == events + closing[..|closing| - 1];
    }
  }

  lemma VerifiedStamps(c: Conv, env: Env, n: nat, d: Declaration)
    requires AllStamped(env, c.events, c.last)
    ensures var after := FinishVerified(c, env, n, d); AllStamped(env, after.events, after.last)
  {
    var c1 := EmitEvent(c, env, VerificationStarted, Started, "span-pi-verifier", None, n, None, NoFields);
    var c2 := EmitEvent(c1, env, VerificationFinished, VerifierEventStatus(d.verifier), "span-pi-verifier", None, n + 1,
                        None, NoFields);
    EmitStamps(c, env, VerificationStarted, Started, "span-pi-verifier", None, n, None, NoFields);
    EmitStamps(c1, env, VerificationFinished, VerifierEventStatus(d.verifier), "span-pi-verifier", None, n + 1, None,
               NoFields);
    EmitStamps(c2, env, EpisodeFinished, if d.task == "SUCCESS" then Succeeded else Failed, "span-pi-episode", None,
               n + 2, None,
               Terminal(d.task, d.validity, d.verifier, ScoreJson(d.score), d.reason,
                        [c2.events[|c2.events| - 1].eventId]));
  }

  /** The three closing events of a conversion whose backend did not fail for good. */
  lemma VerifiedAppends(c: Conv, env: Env, n: nat, d: Declaration) returns (started: Event, done: Event, last: Event)
    ensures FinishVerified(c, env, n, d).events == c.events + [started] + [done] + [last]
    ensures FinishVerified(c, env, n, d).events == c.events + [started, done] + [last]
    ensures started.kind == VerificationStarted && done.kind == VerificationFinished && last.kind == EpisodeFinished
    ensures started.spanId == done.spanId && started.parent.None? && done.parent.None? && last.parent.None?
  {
    var after, k := FinishVerified(c, env, n, d), |c.events|;
    started, done, last := after.events[k], after.events[k + 1], after.events[k + 2];
  }

  lemma VerifiedFinish(c: Conv, env: Env, n: nat, d: Declaration, calls: set<string>, ends: set<string>)
    requires SpansKept(c.events, env, calls, ends)
    ensures var after, k := FinishVerified(c, env, n, d), |c.events|;
            Finished(env, after.events, calls, ends) && Terminals(after.events) == [after.events[k + 2]]
  {
    var started, done, last := VerifiedAppends(c, env, n, d);
    VerifiedSpans(c.events, started, done, last, env, calls, ends);
    OneTerminalEvent(c.events, [started, done], last);
  }

  lemma FailedFinish(c: Conv, env: Env, n: nat, calls: set<string>, ends: set<string>)
    requires Kept(c, env, calls, ends)
    ensures var after := FinishFailed(c, env, n);
            AllStamped(env, after.events, after.last) && Finished(env, after.events, calls, ends)
            && Terminals(after.events) == [after.events[|c.events|]]
  {
    var after := FinishFailed(c, env, n);
    EmitStamps(c, env, EpisodeFinished, Error, "span-pi-episode", None, n + 2, None,
               Terminal("UNKNOWN", "INFRA_INVALID", "NOT_RUN", Null, "MODEL_BACKEND_ERROR", ErrorResponses(c.events)));
    FailedSpans(c.events, after.events[|c.events|], env, calls, ends);
    OneTerminalEvent(c.events, [], after.events[|c.events|]);
    assert c.events + [] == c.events;
  }

  lemma FinishKeeps(env: Env, records: seq<Record>, d: Declaration)
    ensures var after := Converted(env, records, d);
            AllStamped(env, after.events, after.last)
            && Finished(env, after.events, ToolCallIds(records), ToolEndIds(records))
            && after.events != [] && Terminals(after.events) == [after.events[|after.events| - 1]]
  {
    var c, n := FeedAll(env, records), |records|;
    RecordsKeep(env, records);
    if BackendFailed(c) {
      FailedFinish(c, env, n, ToolCallIds(records), ToolEndIds(records));
    } else {
      VerifiedStamps(c, env, n, d);
      VerifiedFinish(c, env, n, d, ToolCallIds(records), ToolEndIds(records));
    }
  }

  // ---------------------------------------------------------------- the assembled episode

  /** Events that carry their positions as sequence numbers are in the canonical order already. */
  lemma NumberedIsOrdered(events: seq<Event>)
    requires AtPositions(events) && DistinctIds(events)
    ensures Ordered(events) == events && Sorted(events, EventLe())
  {
    EventLeIsTotalOrder();
    DistinctIdsSeparate(events);
    SortIsSortedPermutation(events, EventLe());
    SortedPermutationIsUnique(events, Ordered(events), EventLe());
  }

  lemma StampedFacts(env: Env, events: seq<Event>, last: int)
    requires Injective(env) && AllStamped(env, events, last)
    ensures AtPositions(events) && DistinctIds(events) && OneRun(events) && Ordered(events) == events
    ensures forall i :: 0 <= i < |events| ==> events[i].artifactRefs == [] && events[i].episodeId == env.episodeId
  {
    forall i | 0 <= i < |events|
      ensures events[i].sequence == i && events[i].artifactRefs == []
              && events[i].episodeId == env.episodeId && events[i].runId == env.runId
    {
      StampsHold(env, events, last, i);
    }
    StampedIdsDiffer(env, events, last);
    NumberedIsOrdered(events);
  }

  lemma FinishedFacts(env: Env, events: seq<Event>, calls: set<string>, ends: set<string>)
    requires Injective(env) && Finished(env, events, calls, ends) && |Terminals(events)| == 1
    ensures ParentsOccur(events)
    ensures MissingTypes(events) == if calls <= ends then [] else [ToolResult]
  {
    SpansAre(events);
    TerminalCount(events);
    FinishedPairs(env, events, calls, ends);
  }

  /** Only the tool spans can be left open. */
  lemma FinishedPairs(env: Env, events: seq<Event>, calls: set<string>, ends: set<string>)
    requires Injective(env) && Finished(env, events, calls, ends)
    ensures !Unclosed(events, ModelRequest, ModelResponse) && !Unclosed(events, SandboxStarted, SandboxFinished)
    ensures !Unclosed(events, VerificationStarted, VerificationFinished)
    ensures Unclosed(events, ToolCall, ToolResult) <==> !(calls <= ends)
  {
    SpansAre(events);
    SpansIncludedIff(env, calls, ends);
  }

  // ---------------------------------------------------------------- outcome and termination

  lemma GetTerminal(task: string, validity: string, verifier: string, score: Json, reason: string,
                    evidence: seq<string>)
    ensures var f := Terminal(task, validity, verifier, score, reason, evidence);
            && Get(f, "task_status") == Some(Str(task)) && Get(f, "execution_validity") == Some(Str(validity))
            && Get(f, "verifier_status") == Some(Str(verifier)) && Get(f, "score") == Some(score)
            && Get(f, "termination_reason") == Some(Str(reason))
            && Get(f, "evidence_event_ids") == Some(Arr(TextItems(evidence)))
  {
    var f := Terminal(task, validity, verifier, score, reason, evidence);
    assert "task_status"[0] == 't' && "execution_validity"[0] == 'e' && "verifier_status"[0] == 'v'
      && "score"[0] == 's';
    assert "task_status"[1] == 'a' && "termination_reason"[1] == 'e';
    assert "execution_validity"[1] == 'x' && "evidence_event_ids"[1] == 'v';
    var f1 := f.rest;
    var f2 := f1.rest;
    var f3 := f2.rest;
    var f4 := f3.rest;
    assert Get(f2, "verifier_status") == Some(Str(verifier)) && Get(f3, "score") == Some(score);
    assert Get(f4, "termination_reason") == Some(Str(reason));
    assert Get(f4.rest, "evidence_event_ids") == Some(Arr(TextItems(evidence)));
    assert Get(f1, "verifier_status") == Get(f2, "verifier_status");
    assert Get(f2, "score") == Get(f3, "score");
    assert Get(f1, "score") == Get(f2, "score");
    assert Get(f3, "termination_reason") == Get(f4, "termination_reason");
    assert Get(f2, "termination_reason") == Get(f3, "termination_reason");
    assert Get(f1, "termination_reason") == Get(f2, "termination_reason");
    assert Get(f4, "evidence_event_ids") == Get(f4.rest, "evidence_event_ids");
    assert Get(f3, "evidence_event_ids") == Get(f4, "evidence_event_ids");
    assert Get(f2, "evidence_event_ids") == Get(f3, "evidence_event_ids");
    assert Get(f1, "evidence_event_ids") == Get(f2, "evidence_event_ids");
  }

  lemma {:induction false} TextsOfItems(ids: seq<string>)
    ensures Texts(TextItems(ids)) == Some(ids)
  {
    if ids != [] {
      TextsOfItems(ids[1..]);
      assert ids == [ids[0]] + ids[1..];
    }
  }

  /** A declared score is a double. */
  predicate DeclaredScoreOk(score: Option<Json>) {
    score.Some? ==> score.value.Num? && !TooLarge(score.value.literal)
  }

  predicate InEnums(task: string, validity: string, verifier: string) {
    task in TASK_STATUSES && validity in VALIDITIES && verifier in VERIFIER_STATUSES
  }

  lemma TerminalOutcome(e: Event, task: string, validity: string, verifier: string, score: Option<Json>, reason: string,
                        evidence: seq<string>)
    requires e.attributes == Terminal(task, validity, verifier, ScoreJson(score), reason, evidence)
    requires InEnums(task, validity, verifier) && DeclaredScoreOk(score) && evidence != [] && ValidEvidence(evidence)
    ensures DeriveOutcome(Some(e)) == (Outcome(task, validity, verifier, score, evidence), true)
    ensures DeriveTermination(Some(e))
            == (Termination(if Text(reason) then reason else "UNSPECIFIED", Some(e.eventId)), Text(reason))
  {
    GetTerminal(task, validity, verifier, ScoreJson(score), reason, evidence);
    TextsOfItems(evidence);
  }

  ghost predicate ErrorId(events: seq<Event>, id: string) {
    exists i :: 0 <= i < |events| && events[i].eventId == id && events[i].kind == ModelResponse
      && events[i].status == Error
  }

  lemma {:induction false} ErrorResponsesAre(events: seq<Event>)
    requires DistinctIds(events)
    ensures NoDup(ErrorResponses(events))
    ensures forall id :: id in ErrorResponses(events) <==> ErrorId(events, id)
  {
    if events != [] {
      var n := |events| - 1;
      var front := events[..n];
      ErrorResponsesAre(front);
      assert forall i :: 0 <= i < n ==> front[i] == events[i];
      forall id ensures id in ErrorResponses(events) <==> ErrorId(events, id) {
        if ErrorId(front, id) {
          var i :| 0 <= i < n && front[i].eventId == id && front[i].kind == ModelResponse && front[i].status == Error;
          assert events[i].eventId == id;
        }
      }
      assert !ErrorId(front, events[n].eventId);
    }
  }

  /** What the declaration and the record stream make of the episode. */
  function Verdict(c: Conv, d: Declaration, verified: string): Outcome {
    if BackendFailed(c) then Outcome("UNKNOWN", "INFRA_INVALID", "NOT_RUN", None, ErrorResponses(c.events))
    else Outcome(d.task, d.validity, d.verifier, d.score, [verified])
  }

  function Reason(c: Conv, d: Declaration): string {
    if BackendFailed(c) then "MODEL_BACKEND_ERROR" else if Text(d.reason) then d.reason else "UNSPECIFIED"
  }

  /** The outcome and termination that the converted episode must carry. */
  ghost predicate JudgedBy(core: Core, c: Conv, d: Declaration) {
    var n := |core.events|;
    && n >= 2
    && core.outcome == Verdict(c, d, core.events[n - 2].eventId)
    && core.termination == Termination(Reason(c, d), Some(core.events[n - 1].eventId))
  }

  lemma StampedTexts(env: Env, events: seq<Event>, last: int)
    requires AllStamped(env, events, last)
    ensures forall i :: 0 <= i < |events| ==> Text(events[i].eventId)
  {
    forall i | 0 <= i < |events| ensures Text(events[i].eventId) {
      StampsHold(env, events, last, i);
      assert events[i].eventId[0] == 'e';
    }
  }

  lemma FailedEvidence(env: Env, c: Conv)
    requires Injective(env) && StampsKept(c, env) && BackendFailed(c)
    ensures ErrorResponses(c.events) != [] && ValidEvidence(ErrorResponses(c.events)) && |c.events| > 0
    ensures forall i :: 0 <= i < |ErrorResponses(c.events)| ==> ErrorId(c.events, ErrorResponses(c.events)[i])
  {
    var ids := ErrorResponses(c.events);
    StampedIdsDiffer(env, c.events, c.last);
    StampedTexts(env, c.events, c.last);
    ErrorResponsesAre(c.events);
    forall i | 0 <= i < |ids| ensures ErrorId(c.events, ids[i]) && Text(ids[i]) {
      assert ids[i] in ids;
    }
  }

  lemma VerifiedRead(c: Conv, env: Env, n: nat, d: Declaration)
    requires InEnums(d.task, d.validity, d.verifier) && DeclaredScoreOk(d.score) && !BackendFailed(c)
    requires Text(FinishVerified(c, env, n, d).events[|c.events| + 1].eventId)
    ensures var events, k := FinishVerified(c, env, n, d).events, |c.events| + 1;
            && |events| == k + 2
            && DeriveOutcome(Some(events[k + 1])).0 == Verdict(c, d, events[k].eventId)
            && DeriveTermination(Some(events[k + 1])).0 == Termination(Reason(c, d), Some(events[k + 1].eventId))
  {
    var events, k := FinishVerified(c, env, n, d).events, |c.events| + 1;
    assert ValidEvidence([events[k].eventId]);
    TerminalOutcome(events[k + 1], d.task, d.validity, d.verifier, d.score, d.reason, [events[k].eventId]);
  }

  lemma FailedRead(c: Conv, env: Env, n: nat, d: Declaration, verified: string)
    requires Injective(env) && StampsKept(c, env) && BackendFailed(c)
    ensures var last := FinishFailed(c, env, n).events[|c.events|];
            && DeriveOutcome(Some(last)).0 == Verdict(c, d, verified)
            && DeriveTermination(Some(last)).0 == Termination(Reason(c, d), Some(last.eventId))
  {
    var last := FinishFailed(c, env, n).events[|c.events|];
    FailedEvidence(env, c);
    TerminalOutcome(last, "UNKNOWN", "INFRA_INVALID", "NOT_RUN", None, "MODEL_BACKEND_ERROR", ErrorResponses(c.events));
    assert !Blank("MODEL_BACKEND_ERROR"[0]);
  }

  /** The declaration that the terminal event carries is read back as the verdict. */
  lemma VerdictIsRead(env: Env, records: seq<Record>, d: Declaration)
    requires Injective(env) && InEnums(d.task, d.validity, d.verifier) && DeclaredScoreOk(d.score)
    ensures var c, events := FeedAll(env, records), Converted(env, records, d).events;
            var n := |events|;
            && n >= 2
            && DeriveOutcome(Some(events[n - 1])).0 == Verdict(c, d, events[n - 2].eventId)
            && DeriveTermination(Some(events[n - 1])).0 == Termination(Reason(c, d), Some(events[n - 1].eventId))
  {
    var c, after := FeedAll(env, records), Converted(env, records, d);
    RecordsKeep(env, records);
    if BackendFailed(c) {
      FailedEvidence(env, c);
      FailedRead(c, env, |records|, d, after.events[|after.events| - 2].eventId);
    } else {
      VerifiedStamps(c, env, |records|, d);
      StampedTexts(env, after.events, after.last);
      VerifiedRead(c, env, |records|, d);
    }
  }

  /** Ids of events at the front are ids of the whole list. */
  lemma IdsStayKnown(front: seq<Event>, events: seq<Event>, ids: seq<string>)
    requires front <= events && AllKnown(front, ids)
    ensures AllKnown(events, ids)
  {
    forall i | 0 <= i < |ids| ensures HasId(events, ids[i]) {
      var j :| 0 <= j < |front| && front[j].eventId == ids[i];
      assert events[j].eventId == ids[i];
    }
  }

  lemma FailedEvidenceKnown(env: Env, records: seq<Record>, d: Declaration)
    requires Injective(env) && BackendFailed(FeedAll(env, records))
    ensures AllKnown(Converted(env, records, d).events, ErrorResponses(FeedAll(env, records).events))
  {
    var c := FeedAll(env, records);
    RecordsKeep(env, records);
    FailedEvidence(env, c);
    assert AllKnown(c.events, ErrorResponses(c.events));
    IdsStayKnown(c.events, Converted(env, records, d).events, ErrorResponses(c.events));
  }

  lemma VerdictEvidenceKnown(env: Env, records: seq<Record>, d: Declaration)
    requires Injective(env) && |Converted(env, records, d).events| >= 2
    ensures var c, events := FeedAll(env, records), Converted(env, records, d).events;
            AllKnown(events, Verdict(c, d, events[|events| - 2].eventId).evidence)
  {
    if BackendFailed(FeedAll(env, records)) {
      FailedEvidenceKnown(env, records, d);
    }
  }

  /** The core of the episode of a converted record stream. */
  ghost predicate PiCore(core: Core, env: Env, records: seq<Record>, d: Declaration) {
    var whole := ToolCallIds(records) <= ToolEndIds(records);
    && core.events == Converted(env, records, d).events
    && core.gaps == [] && core.collisions == [] && core.orphans == [] && core.missingArtifacts == []
    && core.missingTypes == (if whole then [] else [ToolResult])
    && core.state == (if whole then COMPLETE else PARTIAL)
    && JudgedBy(core, FeedAll(env, records), d)
  }

  lemma NothingAmiss(events: seq<Event>, index: map<string, Artifact>)
    requires events != [] && AtPositions(events) && DistinctIds(events) && ParentsOccur(events)
    requires forall i :: 0 <= i < |events| ==> events[i].artifactRefs == []
    ensures Gaps(events) == [] && Collisions(events) == [] && Orphans(events) == []
            && MissingArtifacts(events, index) == []
  {
    NumberedIsOrdered(events);
    NumberedIff(events);
    OrphansEmptyIff(events);
    MissingArtifactsEmptyIff(events, index);
  }

  lemma CoreFacts(events: seq<Event>, context: Context, index: map<string, Artifact>, last: Event)
    requires events != []
    requires Gaps(events) == [] && Collisions(events) == [] && Orphans(events) == []
             && MissingArtifacts(events, index) == []
    requires Terminals(events) == [last]
    ensures var core := CoreOf(events, context, index, false);
            && core.events == events
            && core.gaps == [] && core.collisions == [] && core.orphans == [] && core.missingArtifacts == []
            && core.missingTypes == MissingTypes(events)
            && core.state == (if MissingTypes(events) == [] then COMPLETE else PARTIAL)
            && core.outcome == DeriveOutcome(Some(last)).0
            && core.termination == DeriveTermination(Some(last)).0
  {
  }

  lemma PiCoreUnjudged(env: Env, records: seq<Record>, d: Declaration, context: Context, index: map<string, Artifact>,
                       core: Core)
    requires Injective(env)
    requires var events := Converted(env, records, d).events;
             events != [] && core == CoreOf(events, context, index, false)
    ensures var events, whole := Converted(env, records, d).events, ToolCallIds(records) <= ToolEndIds(records);
            && core.events == events
            && core.gaps == [] && core.collisions == [] && core.orphans == [] && core.missingArtifacts == []
            && core.missingTypes == (if whole then [] else [ToolResult])
            && core.state == (if whole then COMPLETE else PARTIAL)
            && core.outcome == DeriveOutcome(Some(events[|events| - 1])).0
            && core.termination == DeriveTermination(Some(events[|events| - 1])).0
  {
    var after := Converted(env, records, d);
    FinishKeeps(env, records, d);
    StampedFacts(env, after.events, after.last);
    FinishedFacts(env, after.events, ToolCallIds(records), ToolEndIds(records));
    NothingAmiss(after.events, index);
    CoreFacts(after.events, context, index, after.events[|after.events| - 1]);
  }

  lemma PiCoreHolds(env: Env, records: seq<Record>, d: Declaration, context: Context, index: map<string, Artifact>,
                    core: Core)
    requires Injective(env) && InEnums(d.task, d.validity, d.verifier) && DeclaredScoreOk(d.score)
    requires var events := Converted(env, records, d).events;
             events != [] && core == CoreOf(events, context, index, false)
    ensures PiCore(core, env, records, d)
  {
    PiCoreUnjudged(env, records, d, context, index, core);
    VerdictIsRead(env, records, d);
  }

  // ---------------------------------------------------------------- times

  /** Times rise strictly. */
  lemma {:induction false} TimesRise(env: Env, events: seq<Event>, last: int, i: nat, j: nat)
    requires AllStamped(env, events, last) && i < j < |events|
    ensures events[i].timestamp < events[j].timestamp
  {
    var n := |events| - 1;
    if j < n {
      TimesRise(env, events[..n], events[n].timestamp - 1, i, j);
    } else {
      StampsHold(env, events[..n], events[n].timestamp - 1, i);
    }
  }

  /** The first event is on a whole second, and the last one is still inside it. */
  predicate WithinItsSecond(events: seq<Event>) {
    events != [] && Whole(events[0].timestamp) &&
      Second(events[0].timestamp) == Second(events[|events| - 1].timestamp)
  }

  lemma RisingSplit(env: Env, events: seq<Event>, last: int)
    requires AllStamped(env, events, last) && |events| >= 2
    ensures SplitSecond(events) <==> WithinItsSecond(events)
  {
    var n := |events| - 1;
    TimesRise(env, events, last, 0, n);
    if SplitSecond(events) {
      var w :| 0 <= w < |events| && Whole(events[w].timestamp);
      if w > 0 { TimesRise(env, events, last, 0, w); }
    }
    if WithinItsSecond(events) {
      assert !Whole(events[n].timestamp);
      forall i | 0 <= i < |events| ensures Second(events[i].timestamp) == Second(events[0].timestamp) {
        if 0 < i { TimesRise(env, events, last, 0, i); }
        if i < n { TimesRise(env, events, last, i, n); }
      }
    }
  }

  // ---------------------------------------------------------------- the assembled episode

  lemma TerminalIsSound(env: Env, records: seq<Record>, d: Declaration)
    requires DeclaredScoreOk(d.score)
    ensures var events := Converted(env, records, d).events;
            !ScoreOverflows(LastOf(Terminals(events)))
  {
    var events := Converted(env, records, d).events;
    FinishKeeps(env, records, d);
    var e := events[|events| - 1];
    var c := FeedAll(env, records);
    if BackendFailed(c) {
      GetTerminal("UNKNOWN", "INFRA_INVALID", "NOT_RUN", Null, "MODEL_BACKEND_ERROR", ErrorResponses(c.events));
    } else {
      GetTerminal(d.task, d.validity, d.verifier, ScoreJson(d.score), d.reason, [events[|events| - 2].eventId]);
    }
  }

  /**
   * Adapter, then assembler, for every record stream. The contract refuses the converted events exactly when the first
   * is on a whole second and the last still inside it, since the text of a whole second sorts after the others.
   * Otherwise the episode has no gap, no orphan and is never CORRUPT; it is COMPLETE exactly when every announced tool
   * call id occurs among the execution ends, otherwise PARTIAL; and it carries the declared outcome unless the backend
   * failed for good.
   */
  lemma ConvertedEpisode(env: Env, records: seq<Record>, d: Declaration, context: Context, index: map<string, Artifact>,
                         duplicates: nat)
    requires Injective(env) && InEnums(d.task, d.validity, d.verifier) && DeclaredScoreOk(d.score)
    ensures |Converted(env, records, d).events| >= 2
    ensures var events := Converted(env, records, d).events;
            var one := Assembled(events, context, index, duplicates, false);
            && (one.Err? <==> WithinItsSecond(events))
            && (one.Err? ==> one == Err(EndsBeforeStart))
            && (one.Ok? ==> PiCore(one.value.core, env, records, d))
  {
    var after := Converted(env, records, d);
    FinishKeeps(env, records, d);
    VerdictIsRead(env, records, d);
    StampedFacts(env, after.events, after.last);
    var core := CoreOf(after.events, context, index, false);
    PiCoreHolds(env, records, d, context, index, core);
    VerdictEvidenceKnown(env, records, d);
    TerminalIsSound(env, records, d);
    RisingSplit(env, after.events, after.last);
    AssembledIff(after.events, context, index, duplicates, false);
  }

  /** The closing events of the empty stream come at its base time and one and two milliseconds later. */
  lemma EmptyStreamTimes(env: Env, d: Declaration)
    ensures var events := Converted(env, [], d).events;
            && |events| == 3 && events[0].timestamp == env.base && events[2].timestamp == env.base + 2 * MILLISECOND
  {
    var c := FeedAll(env, []);
    assert !BackendFailed(c);
    ClosingTimes(c, env, 0, d);
  }

  lemma ClosingTimes(c: Conv, env: Env, n: nat, d: Declaration)
    requires c.events == []
    ensures var events := FinishVerified(c, env, n, d).events;
            && |events| == 3 && events[0].timestamp == c.last + MILLISECOND
            && events[2].timestamp == c.last + 3 * MILLISECOND
  {
  }

  lemma SoonAfter(t: int)
    requires Whole(t)
    ensures Second(t + 2 * MILLISECOND) == Second(t)
  {
  }

  /**
   * The empty stream makes no episode exactly when its base time is a whole second; without a session record that is
   * the epoch, which is one.
   */
  lemma EmptyStreamIsRefusedIff(env: Env, d: Declaration, context: Context, index: map<string, Artifact>,
                                duplicates: nat)
    requires Injective(env) && InEnums(d.task, d.validity, d.verifier) && DeclaredScoreOk(d.score)
    ensures Converted(env, [], d).events != []
    ensures Assembled(Converted(env, [], d).events, context, index, duplicates, false) == Err(EndsBeforeStart)
            <==> Whole(env.base)
    ensures Whole(0)
  {
    var events := Converted(env, [], d).events;
    EmptyStreamTimes(env, d);
    if Whole(env.base) { SoonAfter(env.base); }
    assert WithinItsSecond(events) <==> Whole(env.base);
    ConvertedEpisode(env, [], d, context, index, duplicates);
  }
}
