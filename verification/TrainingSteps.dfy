/** `_steps`: the canonical tool steps of an episode, and what the closure of a conversation over them guarantees. */
module TrainingSteps {
  import opened Options
  import opened Json
  import opened Trace
  import opened Ordering
  import opened Closure

  datatype StepData = StepData(name: Json, content: Json, result: Json)

  function CallId(e: Event): Option<string> {
    match Get(e.attributes, "pi_tool_call_id")
    case Some(Str(id)) => Some(id)
    case _ => None
  }

  function Attribute(e: Event, key: string): Json {
    OrElse(Get(e.attributes, key), Null)
  }

  /** The dictionary of calls: a call opens its step without a result, a result fills in the step it finds. */
  function Calls(events: seq<Event>): map<string, StepData> {
    if events == [] then map[]
    else
      var front, e := Calls(events[..|events| - 1]), events[|events| - 1];
      match CallId(e)
      case None => front
      case Some(id) =>
        if e.kind == ToolCall then front[id := StepData(Attribute(e, "tool_name"), Attribute(e, "arguments"), Null)]
        else if e.kind == ToolResult && id in front then front[id := front[id].(result := Attribute(e, "result"))]
        else front
  }

  /** The ids of the call events, in order. */
  function CalledIds(events: seq<Event>): seq<string> {
    if events == [] then []
    else
      var e := events[|events| - 1];
      CalledIds(events[..|events| - 1]) + (if e.kind == ToolCall && CallId(e).Some? then [CallId(e).value] else [])
  }

  function StepFields(id: string, d: StepData): Fields {
    Field("tool_call_id", Str(id),
          Field("tool_name", d.name, Field("content", d.content, Field("result", d.result, NoFields))))
  }

  lemma {:induction false} CalledAreKnown(events: seq<Event>)
    ensures forall id :: id in CalledIds(events) <==> id in Calls(events)
  {
    if events != [] { CalledAreKnown(events[..|events| - 1]); }
  }

  function Steps(events: seq<Event>): seq<Fields> {
    CalledAreKnown(events);
    var ids, calls := CalledIds(events), Calls(events);
    seq(|ids|, i requires 0 <= i < |ids| => StepFields(ids[i], calls[ids[i]]))
  }

  method CollectSteps(events: seq<Event>) returns (steps: seq<Fields>)
    ensures steps == Steps(events)
  {
    var calls: map<string, StepData> := map[];
    var ordered: seq<string> := [];
    for n := 0 to |events|
      invariant calls == Calls(events[..n]) && ordered == CalledIds(events[..n])
    {
      assert events[..n + 1][..n] == events[..n];
      var e := events[n];
      var id := CallId(e);
      if id.None? {
        continue;
      }
      if e.kind == ToolCall {
        calls := calls[id.value := StepData(Attribute(e, "tool_name"), Attribute(e, "arguments"), Null)];
        ordered := ordered + [id.value];
      } else if e.kind == ToolResult && id.value in calls {
        calls := calls[id.value := calls[id.value].(result := Attribute(e, "result"))];
      }
    }
    assert events[..|events|] == events;
    CalledAreKnown(events);
    steps := seq(|ordered|, i requires 0 <= i < |ordered| => StepFields(ordered[i], calls[ordered[i]]));
  }

  predicate Opens(e: Event, id: string) {
    e.kind == ToolCall && CallId(e) == Some(id)
  }

  predicate Ends(e: Event, id: string, result: Json) {
    e.kind == ToolResult && CallId(e) == Some(id) && Attribute(e, "result") == result
  }

  /** A TOOL_CALL event of the id, and a later TOOL_RESULT event of the id that carries this result. */
  ghost predicate Executed(events: seq<Event>, id: string, result: Json) {
    exists i, j :: 0 <= i < j < |events| && Opens(events[i], id) && Ends(events[j], id, result)
  }

  ghost predicate CalledIn(events: seq<Event>, id: string) {
    exists i :: 0 <= i < |events| && Opens(events[i], id)
  }

  lemma CalledLonger(front: seq<Event>, e: Event, id: string)
    requires CalledIn(front, id)
    ensures CalledIn(front + [e], id)
    ensures forall result :: Ends(e, id, result) ==> Executed(front + [e], id, result)
    ensures forall result :: Executed(front, id, result) ==> Executed(front + [e], id, result)
  {
    var all := front + [e];
    var c :| 0 <= c < |front| && Opens(front[c], id);
    assert Opens(all[c], id) && all[|front|] == e;
    forall result | Executed(front, id, result) ensures Executed(all, id, result) {
      var i, j :| 0 <= i < j < |front| && Opens(front[i], id) && Ends(front[j], id, result);
      assert Opens(all[i], id) && Ends(all[j], id, result);
    }
  }

  lemma {:induction false} KnownWasCalled(events: seq<Event>, id: string)
    requires id in Calls(events)
    ensures CalledIn(events, id)
    ensures Calls(events)[id].result != Null ==> Executed(events, id, Calls(events)[id].result)
  {
    var n := |events| - 1;
    var front, e := events[..n], events[n];
    assert events == front + [e];
    if id in Calls(front) {
      KnownWasCalled(front, id);
      CalledLonger(front, e, id);
    } else {
      assert Opens(events[n], id);
    }
  }

  lemma StepReads(id: string, d: StepData)
    ensures var f := StepFields(id, d);
            Get(f, "tool_call_id") == Some(Str(id)) && Get(f, "result") == Some(d.result)
  {
    assert "tool_call_id"[0] == 't' && "tool_name"[0] == 't' && "content"[0] == 'c' && "result"[0] == 'r';
    var f := StepFields(id, d);
    assert Get(f.rest.rest, "result") == Some(d.result);
    assert Get(f.rest, "result") == Get(f.rest.rest, "result");
  }

  /**
   * The closed messages hold executed calls only: behind every call id is a call event and its later result. The
   * message of the last response, which the exporter appends after closing, is not among them.
   */
  lemma TrainedCallsWereExecuted(events: seq<Event>, messages: seq<Fields>, text: Json -> string, id: string)
    requires Close(messages, Steps(events), text).Ok?
    requires id in AllIds(ResultsOf(Steps(events)).value, messages)
    ensures exists result :: result != Null && Executed(events, id, result)
  {
    var steps := Steps(events);
    var results := ResultsOf(steps).value;
    CallsMatchSteps(messages, steps, text);
    ClosesIff(messages, steps, text);
    AllIdsKnown(results, messages, text);
    assert IsStepId(steps, id);
    var k :| 0 <= k < |steps| && StepId(steps[k]) == Some(id);
    CalledAreKnown(events);
    var called := CalledIds(events)[k];
    StepReads(called, Calls(events)[called]);
    KnownWasCalled(events, called);
    assert called == id && results[id] == steps[k];
  }

  /** The closure needs every call event to have its own id. */
  lemma {:induction false} CalledOnce(events: seq<Event>)
    requires ResultsOf(Steps(events)).Ok?
    ensures NoDup(CalledIds(events))
  {
    var steps, ids := Steps(events), CalledIds(events);
    CalledAreKnown(events);
    ResultsAreSteps(steps);
    forall i, j | 0 <= i < j < |ids| ensures ids[i] != ids[j] {
      StepReads(ids[i], Calls(events)[ids[i]]);
      StepReads(ids[j], Calls(events)[ids[j]]);
      if ids[i] == ids[j] { TwoStepsClash(steps, i, j); }
    }
  }

  lemma {:induction false} TwoStepsClash(steps: seq<Fields>, i: nat, j: nat)
    requires i < j < |steps| && StepId(steps[i]).Some? && StepId(steps[i]) == StepId(steps[j])
    ensures ResultsOf(steps).Err?
    decreases |steps|
  {
    var n := |steps| - 1;
    if j < n {
      TwoStepsClash(steps[..n], i, j);
    } else if ResultsOf(steps[..n]).Ok? {
      ResultsAreSteps(steps[..n]);
      KnownStep(steps[..n], ResultsOf(steps[..n]).value, i);
    }
  }

  lemma KnownStep(steps: seq<Fields>, results: Results, i: nat)
    requires StepIds(steps, results) && i < |steps|
    ensures StepId(steps[i]).Some? && StepId(steps[i]).value in results
  {
  }
}
