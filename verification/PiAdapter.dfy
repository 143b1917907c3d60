/**
 * `PiJsonAdapter.convert`: Pi's record stream becomes canonical events. Digests are an injective function of the
 * JSON value they hash; times are instants in microseconds. Payload attributes other than those of tool calls, of tool
 * results and of the terminal declaration are not modelled.
 */
module PiAdapter {
  import opened Options
  import opened Json
  import opened Trace
  import opened Instants

  datatype ContentItem = ToolCallItem(id: Option<string>, name: Option<string>, arguments: Json) | OtherItem

  /** The fields of a record that the adapter reads. */
  datatype Record =
    | AssistantEnd(timestamp: Option<int>, stopReason: string, content: seq<ContentItem>)
    | OtherMessageEnd
    | ToolExecutionEnd(callId: Option<string>, toolName: Option<string>, isError: bool, result: Json)
    | AgentEnd(willRetry: bool)
    | OtherRecord

  datatype Declaration = Declaration(task: string, validity: string, verifier: string, score: Option<Json>,
                                     reason: string)

  /** Run identity, the digest function, the test for credential keys, and the clock values found for tool results. */
  datatype Env = Env(hash: Json -> string, secret: string -> bool, runId: string, episodeId: string, session: string,
                     base: int, resultTimes: map<string, int>)

  datatype Pending = Pending(span: string, parent: string, name: string)

  datatype Conv = Conv(
    events: seq<Event>, pending: map<string, Pending>, errors: nat, assistants: nat,
    finalSeen: bool, last: int, issues: seq<string>)

  // ---------------------------------------------------------------- identities

  function TypeName(kind: EventType): string {
    match kind
    case ModelRequest => "MODEL_REQUEST"
    case ModelResponse => "MODEL_RESPONSE"
    case ToolCall => "TOOL_CALL"
    case ToolResult => "TOOL_RESULT"
    case SandboxStarted => "SANDBOX_STARTED"
    case SandboxCommand => "SANDBOX_COMMAND"
    case SandboxFinished => "SANDBOX_FINISHED"
    case VerificationStarted => "VERIFICATION_STARTED"
    case VerificationFinished => "VERIFICATION_FINISHED"
    case EpisodeFinished => "EPISODE_FINISHED"
    case HarnessDecision => "HARNESS_DECISION"
    case ContextSelected => "CONTEXT_SELECTED"
    case ContextCompacted => "CONTEXT_COMPACTED"
    case RetryScheduled => "RETRY_SCHEDULED"
    case TerminationDecided => "TERMINATION_DECIDED"
  }

  function EventKey(session: string, source: nat, sequence: nat, kind: EventType): Json {
    Obj(Field("session_id", Str(session), Field("source_index", Num(Decimal(source)),
        Field("sequence", Num(Decimal(sequence)), Field("event_type", Str(TypeName(kind)), NoFields)))))
  }

  function EventId(env: Env, source: nat, sequence: nat, kind: EventType): string {
    "evt-pi-" + env.hash(EventKey(env.session, source, sequence, kind))
  }

  function ToolSpan(env: Env, callId: string): string {
    "span-pi-tool-" + env.hash(Str(callId))
  }

  function ModelSpan(n: nat): string {
    "span-pi-model-" + Decimal(n)
  }

  /** `str(value or fallback)`: an absent or empty text gives the fallback. */
  function Or(text: Option<string>, fallback: string): string {
    if text.Some? && text.value != "" then text.value else fallback
  }

  function CallId(item: ContentItem, source: nat, k: nat): string
    requires item.ToolCallItem?
  {
    Or(item.id, "tool-" + Decimal(source) + "-" + Decimal(k))
  }

  // ---------------------------------------------------------------- one event, one record

  function EmitEvent(c: Conv, env: Env, kind: EventType, status: Status, span: string, parent: Option<string>,
                     source: nat, time: Option<int>, attributes: Fields): Conv {
    var sequence := |c.events|;
    var now := if time.Some? && time.value > c.last then time.value else c.last + MILLISECOND;
    c.(last := now,
       events := c.events + [Event(EventId(env, source, sequence, kind), env.runId, env.episodeId, span, parent,
                                   sequence, now, kind, status, attributes, [])])
  }

  function Before(time: Option<int>): Option<int> {
    match time
    case None => None
    case Some(t) => Some(t - MILLISECOND)
  }

  /** Arguments that are no object are wrapped; credentials in them are redacted. */
  function CallAttributes(env: Env, callId: string, name: string, arguments: Json): Fields {
    var wrapped := if arguments.Obj? then arguments else Obj(Field("raw", arguments, NoFields));
    Field("tool_name", Str(name),
          Field("arguments", Redact(wrapped, env.secret), Field("pi_tool_call_id", Str(callId), NoFields)))
  }

  function ResultAttributes(env: Env, callId: string, name: string, result: Json): Fields {
    Field("tool_name", Str(name),
          Field("pi_tool_call_id", Str(callId), Field("result", Redact(result, env.secret), NoFields)))
  }

  function FeedItem(c: Conv, env: Env, source: nat, k: nat, item: ContentItem, span: string, time: Option<int>): Conv {
    match item
    case OtherItem => c
    case ToolCallItem(_, given, arguments) =>
      var id, name := CallId(item, source, k), Or(given, "unknown");
      var emitted := EmitEvent(c, env, ToolCall, Started, ToolSpan(env, id), Some(span), source, time,
                               CallAttributes(env, id, name, arguments));
      emitted.(pending := emitted.pending[id := Pending(ToolSpan(env, id), span, name)])
  }

  function FeedItems(c: Conv, env: Env, source: nat, items: seq<ContentItem>, span: string, time: Option<int>): Conv
    decreases |items|
  {
    if items == [] then c
    else
      var k := |items| - 1;
      FeedItem(FeedItems(c, env, source, items[..k], span, time), env, source, k, items[k], span, time)
  }

  function FeedModelCall(c: Conv, env: Env, source: nat, time: Option<int>, stopReason: string): Conv {
    var n := c.assistants + 1;
    var c1 := EmitEvent(c.(assistants := n), env, ModelRequest, Started, ModelSpan(n), None, source, Before(time),
                        NoFields);
    var status := if stopReason == "error" then Error else Succeeded;
    var c2 := EmitEvent(c1, env, ModelResponse, status, ModelSpan(n), None, source, time, NoFields);
    c2.(finalSeen := c2.finalSeen || stopReason == "stop",
        errors := if stopReason == "error" then c2.errors + 1 else c2.errors)
  }

  /** The span, parent and tool name of a finished call: from the pending call, or made up when there is none. */
  function Finishing(c: Conv, env: Env, id: string, toolName: Option<string>): (string, Option<string>, string) {
    if id in c.pending then (c.pending[id].span, Some(c.pending[id].parent), c.pending[id].name)
    else (ToolSpan(env, id), None, Or(toolName, "unknown"))
  }

  function FeedToolEnd(c: Conv, env: Env, source: nat, id: string, toolName: Option<string>, isError: bool,
                       result: Json): Conv {
    var (span, parent, name) := Finishing(c, env, id, toolName);
    var c1 := c.(pending := c.pending - {id}, issues := if id in c.pending then c.issues else c.issues + [id]);
    var time := if id in env.resultTimes then Some(env.resultTimes[id]) else None;
    EmitEvent(c1, env, ToolResult, if isError then Error else Succeeded, span, parent, source, time,
              ResultAttributes(env, id, if toolName.Some? then toolName.value else name, result))
  }

  function Feed(c: Conv, env: Env, source: nat, r: Record): Conv {
    match r
    case AssistantEnd(time, stopReason, content) =>
      var n := c.assistants + 1;
      FeedItems(FeedModelCall(c, env, source, time, stopReason), env, source, content, ModelSpan(n), time)
    case ToolExecutionEnd(id, toolName, isError, result) =>
      FeedToolEnd(c, env, source, Or(id, "unknown"), toolName, isError, result)
    case AgentEnd(willRetry) =>
      EmitEvent(c, env, if willRetry then RetryScheduled else TerminationDecided, Succeeded,
                "span-pi-harness-" + Decimal(source), None, source, None, NoFields)
    case _ => c
  }

  function FeedAll(env: Env, records: seq<Record>): Conv
    decreases |records|
  {
    if records == [] then Conv([], map[], 0, 0, false, env.base - MILLISECOND, [])
    else Feed(FeedAll(env, records[..|records| - 1]), env, |records| - 1, records[|records| - 1])
  }

  // ---------------------------------------------------------------- the closing events

  function ErrorResponses(events: seq<Event>): seq<string> {
    if events == [] then []
    else
      var e := events[|events| - 1];
      ErrorResponses(events[..|events| - 1])
        + (if e.kind == ModelResponse && e.status == Error then [e.eventId] else [])
  }

  function TextItems(ids: seq<string>): Items
    decreases |ids|
  {
    if ids == [] then NoItems else Item(Str(ids[0]), TextItems(ids[1..]))
  }

  function Terminal(task: string, validity: string, verifier: string, score: Json, reason: string,
                    evidence: seq<string>): Fields {
    Field("task_status", Str(task), Field("execution_validity", Str(validity), Field("verifier_status", Str(verifier),
      Field("score", score,
            Field("termination_reason", Str(reason),
                  Field("evidence_event_ids", Arr(TextItems(evidence)), NoFields))))))
  }

  function ScoreJson(score: Option<Json>): Json {
    match score
    case None => Null
    case Some(v) => v
  }

  function VerifierEventStatus(verifier: string): Status {
    if verifier == "PASSED" then Succeeded
    else if verifier == "FAILED" then Failed
    else if verifier == "ERROR" then Error
    else if verifier == "TIMEOUT" then Timeout
    else Unknown
  }

  predicate BackendFailed(c: Conv) {
    c.errors > 0 && !c.finalSeen
  }

  function FinishVerified(c: Conv, env: Env, n: nat, d: Declaration): Conv {
    var c1 := EmitEvent(c, env, VerificationStarted, Started, "span-pi-verifier", None, n, None, NoFields);
    var c2 := EmitEvent(c1, env, VerificationFinished, VerifierEventStatus(d.verifier), "span-pi-verifier", None, n + 1,
                        None, NoFields);
    EmitEvent(c2, env, EpisodeFinished, if d.task == "SUCCESS" then Succeeded else Failed, "span-pi-episode", None,
              n + 2, None,
              Terminal(d.task, d.validity, d.verifier, ScoreJson(d.score), d.reason,
                       [c2.events[|c2.events| - 1].eventId]))
  }

  function FinishFailed(c: Conv, env: Env, n: nat): Conv {
    EmitEvent(c, env, EpisodeFinished, Error, "span-pi-episode", None, n + 2, None,
              Terminal("UNKNOWN", "INFRA_INVALID", "NOT_RUN", Null, "MODEL_BACKEND_ERROR", ErrorResponses(c.events)))
  }

  function Finish(c: Conv, env: Env, n: nat, d: Declaration): Conv {
    if BackendFailed(c) then FinishFailed(c, env, n) else FinishVerified(c, env, n, d)
  }

  function Converted(env: Env, records: seq<Record>, d: Declaration): Conv {
    Finish(FeedAll(env, records), env, |records|, d)
  }

  // ---------------------------------------------------------------- the method

  /** The tool calls of one response, in content order. */
  method ConvertItems(before: Conv, env: Env, source: nat, content: seq<ContentItem>, span: string, time: Option<int>)
    returns (c: Conv)
    ensures c == FeedItems(before, env, source, content, span, time)
  {
    c := before;
    for k := 0 to |content|
      invariant c == FeedItems(before, env, source, content[..k], span, time)
    {
      assert content[..k + 1][..k] == content[..k];
      c := FeedItem(c, env, source, k, content[k], span, time);
    }
    assert content[..|content|] == content;
  }

  method Convert(env: Env, records: seq<Record>, d: Declaration) returns (c: Conv)
    ensures c == Converted(env, records, d)
  {
    c := Conv([], map[], 0, 0, false, env.base - MILLISECOND, []);
    for source := 0 to |records|
      invariant c == FeedAll(env, records[..source])
    {
      assert records[..source + 1][..source] == records[..source];
      match records[source]
      case AssistantEnd(time, stopReason, content) =>
        var span := ModelSpan(c.assistants + 1);
        ghost var before := c;
        c := EmitEvent(c.(assistants := c.assistants + 1), env, ModelRequest, Started, span, None, source, Before(time),
                       NoFields);
        c := EmitEvent(c, env, ModelResponse, if stopReason == "error" then Error else Succeeded, span, None, source,
                       time, NoFields);
        if stopReason == "stop" {
          c := c.(finalSeen := true);
        }
        if stopReason == "error" {
          c := c.(errors := c.errors + 1);
        }
        assert c == FeedModelCall(before, env, source, time, stopReason);
        c := ConvertItems(c, env, source, content, span, time);
      case ToolExecutionEnd(id, toolName, isError, result) =>
        c := FeedToolEnd(c, env, source, Or(id, "unknown"), toolName, isError, result);
      case AgentEnd(willRetry) =>
        c := EmitEvent(c, env, if willRetry then RetryScheduled else TerminationDecided, Succeeded,
                       "span-pi-harness-" + Decimal(source), None, source, None, NoFields);
      case OtherMessageEnd =>
      case OtherRecord =>
    }
    assert records[..|records|] == records;
    var n := |records|;
    if BackendFailed(c) {
      c := FinishFailed(c, env, n);
    } else {
      c := FinishVerified(c, env, n, d);
    }
  }
}
