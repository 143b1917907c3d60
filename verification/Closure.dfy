/**
 * `_assemble_agent_sft_messages`: every assistant tool call of a training conversation is closed by its canonical
 * observation. Messages and steps are dictionaries; how a result is rendered as text is a parameter.
 */
module Closure {
  import opened Options
  import opened Json
  import opened Ordering

  datatype ClosureError =
    | StepWithoutId | DuplicateResult(id: string)
    | CallNotAnObject | CallWithoutId | DuplicateCall(id: string) | NoCanonicalResult(id: string)
    | NameMismatch(id: string)
    | NoResult(id: string) | NoToolName(id: string) | Unreferenced

  type Results = map<string, Fields>

  // ---------------------------------------------------------------- reading dictionaries

  /** A non-empty text under the key. */
  function TextAt(f: Fields, key: string): Option<string> {
    match Get(f, key)
    case Some(Str(s)) => if s == "" then None else Some(s)
    case _ => None
  }

  predicate HasRole(m: Fields, role: string) {
    Get(m, "role") == Some(Str(role))
  }

  /** A tool message that is regenerated from a canonical step. */
  predicate Canonical(m: Fields, results: Results) {
    HasRole(m, "tool") && (match Get(m, "tool_call_id") { case Some(Str(id)) => id in results case _ => false })
  }

  function CallsOf(m: Fields): Items {
    if !HasRole(m, "assistant") then NoItems
    else match Get(m, "tool_calls")
      case Some(Arr(items)) => items
      case _ => NoItems
  }

  // ---------------------------------------------------------------- the canonical steps

  function ResultsOf(steps: seq<Fields>): Result<Results, ClosureError> {
    if steps == [] then Ok(map[])
    else match ResultsOf(steps[..|steps| - 1])
      case Err(error) => Err(error)
      case Ok(results) =>
        match TextAt(steps[|steps| - 1], "tool_call_id")
        case None => Err(StepWithoutId)
        case Some(id) => if id in results then Err(DuplicateResult(id)) else Ok(results[id := steps[|steps| - 1]])
  }

  function Observation(id: string, name: string, result: Json, text: Json -> string): Fields {
    Field("role", Str("tool"),
          Field("tool_call_id", Str(id), Field("name", Str(name), Field("content", Str(text(result)), NoFields))))
  }

  /** `_tool_observation`. */
  function Observe(step: Fields, id: string, text: Json -> string): Result<Fields, ClosureError> {
    if OrElse(Get(step, "result"), Null) == Null then Err(NoResult(id))
    else match TextAt(step, "tool_name")
      case None => Err(NoToolName(id))
      case Some(name) => Ok(Observation(id, name, OrElse(Get(step, "result"), Null), text))
  }

  predicate NamesAgree(call: Fields, step: Fields) {
    match Get(call, "function")
    case Some(Obj(f)) => OrElse(Get(f, "name"), Null) == OrElse(Get(step, "tool_name"), Null)
    case _ => true
  }

  // ---------------------------------------------------------------- the loops as folds

  /** The conversation assembled so far and the call ids consumed, in order. */
  datatype Progress = Progress(out: seq<Fields>, consumed: seq<string>)

  function CloseCall(results: Results, p: Progress, call: Json, text: Json -> string): Result<Progress, ClosureError> {
    if !call.Obj? then Err(CallNotAnObject)
    else match TextAt(call.fields, "id")
      case None => Err(CallWithoutId)
      case Some(id) =>
        if id in p.consumed then Err(DuplicateCall(id))
        else if id !in results then Err(NoCanonicalResult(id))
        else if !NamesAgree(call.fields, results[id]) then Err(NameMismatch(id))
        else match Observe(results[id], id, text)
          case Err(error) => Err(error)
          case Ok(observation) => Ok(Progress(p.out + [observation], p.consumed + [id]))
  }

  function CloseCalls(results: Results, p: Progress, calls: Items, text: Json -> string): Result<Progress, ClosureError>
    decreases calls
  {
    match calls
    case NoItems => Ok(p)
    case Item(call, more) =>
      match CloseCall(results, p, call, text)
      case Err(error) => Err(error)
      case Ok(next) => CloseCalls(results, next, more, text)
  }

  function CloseMessage(results: Results, p: Progress, m: Fields, text: Json -> string): Result<Progress, ClosureError>
  {
    if Canonical(m, results) then Ok(p)
    else CloseCalls(results, p.(out := p.out + [m]), CallsOf(m), text)
  }

  function CloseMessages(results: Results, messages: seq<Fields>, text: Json -> string): Result<Progress, ClosureError>
  {
    if messages == [] then Ok(Progress([], []))
    else match CloseMessages(results, messages[..|messages| - 1], text)
      case Err(error) => Err(error)
      case Ok(p) => CloseMessage(results, p, messages[|messages| - 1], text)
  }

  predicate AllConsumed(results: Results, consumed: seq<string>) {
    forall id :: id in results ==> id in consumed
  }

  function Close(messages: seq<Fields>, steps: seq<Fields>, text: Json -> string): Result<seq<Fields>, ClosureError> {
    match ResultsOf(steps)
    case Err(error) => Err(error)
    case Ok(results) =>
      match CloseMessages(results, messages, text)
      case Err(error) => Err(error)
      case Ok(p) => if AllConsumed(results, p.consumed) then Ok(p.out) else Err(Unreferenced)
  }

  // ---------------------------------------------------------------- the method

  method IndexSteps(steps: seq<Fields>) returns (r: Result<Results, ClosureError>)
    ensures r == ResultsOf(steps)
  {
    var results: Results := map[];
    for n := 0 to |steps|
      invariant ResultsOf(steps[..n]) == Ok(results)
    {
      assert steps[..n + 1][..n] == steps[..n];
      var id := TextAt(steps[n], "tool_call_id");
      if id.None? || id.value in results {
        ghost var error := if id.None? then StepWithoutId else DuplicateResult(id.value);
        StepErrorStays(steps, n + 1, error);
        return Err(if id.None? then StepWithoutId else DuplicateResult(id.value));
      }
      results := results[id.value := steps[n]];
    }
    assert steps[..|steps|] == steps;
    return Ok(results);
  }

  lemma {:induction false} StepErrorStays(steps: seq<Fields>, n: nat, error: ClosureError)
    requires n <= |steps| && ResultsOf(steps[..n]) == Err(error)
    ensures ResultsOf(steps) == Err(error)
    decreases |steps| - n
  {
    if n == |steps| {
      assert steps[..n] == steps;
    } else {
      assert steps[..n + 1][..n] == steps[..n];
      StepErrorStays(steps, n + 1, error);
    }
  }

  lemma {:induction false} MessageErrorStays(results: Results, messages: seq<Fields>, n: nat, text: Json -> string,
                                             error: ClosureError)
    requires n <= |messages| && CloseMessages(results, messages[..n], text) == Err(error)
    ensures CloseMessages(results, messages, text) == Err(error)
    decreases |messages| - n
  {
    if n == |messages| {
      assert messages[..n] == messages;
    } else {
      assert messages[..n + 1][..n] == messages[..n];
      MessageErrorStays(results, messages, n + 1, text, error);
    }
  }

  /** The loop over the calls of one assistant message. */
  method ObserveCalls(results: Results, p: Progress, calls: Items, text: Json -> string)
    returns (r: Result<Progress, ClosureError>)
    ensures r == CloseCalls(results, p, calls, text)
  {
    var assembled, consumed := p.out, p.consumed;
    var rest := calls;
    while rest.Item?
      invariant CloseCalls(results, Progress(assembled, consumed), rest, text) == CloseCalls(results, p, calls, text)
      decreases rest
    {
      var call := rest.head;
      if !call.Obj? {
        return Err(CallNotAnObject);
      }
      var id := TextAt(call.fields, "id");
      if id.None? {
        return Err(CallWithoutId);
      }
      if id.value in consumed {
        return Err(DuplicateCall(id.value));
      }
      if id.value !in results {
        return Err(NoCanonicalResult(id.value));
      }
      var step := results[id.value];
      if !NamesAgree(call.fields, step) {
        return Err(NameMismatch(id.value));
      }
      var observation := Observe(step, id.value, text);
      if observation.Err? {
        return Err(observation.error);
      }
      assembled := assembled + [observation.value];
      consumed := consumed + [id.value];
      rest := rest.tail;
    }
    return Ok(Progress(assembled, consumed));
  }

  method AssembleMessages(messages: seq<Fields>, steps: seq<Fields>, text: Json -> string)
    returns (r: Result<seq<Fields>, ClosureError>)
    ensures r == Close(messages, steps, text)
  {
    var indexed := IndexSteps(steps);
    if indexed.Err? {
      return Err(indexed.error);
    }
    var results := indexed.value;
    var p := Progress([], []);
    for n := 0 to |messages|
      invariant CloseMessages(results, messages[..n], text) == Ok(p)
    {
      assert messages[..n + 1][..n] == messages[..n];
      var m := messages[n];
      if Canonical(m, results) {
        continue;
      }
      p := p.(out := p.out + [m]);
      var observed := ObserveCalls(results, p, CallsOf(m), text);
      if observed.Err? {
        MessageErrorStays(results, messages, n + 1, text, observed.error);
        return Err(observed.error);
      }
      p := observed.value;
    }
    assert messages[..|messages|] == messages;
    if exists id :: id in results && id !in p.consumed {
      return Err(Unreferenced);
    }
    return Ok(p.out);
  }

  // ---------------------------------------------------------------- what one assistant message adds

  function IdsOf(calls: Items): seq<string> {
    match calls
    case NoItems => []
    case Item(Obj(call), more) => (match TextAt(call, "id") { case Some(id) => [id] case None => [] }) + IdsOf(more)
    case Item(_, more) => IdsOf(more)
  }

  /** The observation that closes the call, when the call can be closed. */
  function Shown(results: Results, id: string, text: Json -> string): Fields {
    if id in results && Observe(results[id], id, text).Ok? then Observe(results[id], id, text).value else NoFields
  }

  function Observations(results: Results, ids: seq<string>, text: Json -> string): seq<Fields> {
    seq(|ids|, i requires 0 <= i < |ids| => Shown(results, ids[i], text))
  }

  predicate GoodCall(results: Results, call: Json, text: Json -> string) {
    && call.Obj? && TextAt(call.fields, "id").Some?
    && (var id := TextAt(call.fields, "id").value;
        id in results && NamesAgree(call.fields, results[id]) && Observe(results[id], id, text).Ok?)
  }

  predicate GoodCalls(results: Results, calls: Items, text: Json -> string) {
    calls.Item? ==> GoodCall(results, calls.head, text) && GoodCalls(results, calls.tail, text)
  }

  lemma NoDupPrefix(a: seq<string>, b: seq<string>)
    requires NoDup(a + b)
    ensures NoDup(a)
  {
    assert forall i :: 0 <= i < |a| ==> (a + b)[i] == a[i];
  }

  lemma NoDupMore(a: seq<string>, x: string)
    requires NoDup(a)
    ensures NoDup(a + [x]) <==> x !in a
  {
    if x in a {
      var i :| 0 <= i < |a| && a[i] == x;
      assert (a + [x])[i] == (a + [x])[|a|];
    }
  }

  lemma ObservationsMore(results: Results, a: seq<string>, b: seq<string>, text: Json -> string)
    ensures Observations(results, a + b, text) == Observations(results, a, text) + Observations(results, b, text)
  {
  }

  lemma CallCloses(results: Results, p: Progress, call: Json, text: Json -> string)
    ensures CloseCall(results, p, call, text).Ok? <==>
            GoodCall(results, call, text) && TextAt(call.fields, "id").value !in p.consumed
    ensures CloseCall(results, p, call, text).Ok? ==>
            var id := TextAt(call.fields, "id").value;
            CloseCall(results, p, call, text).value == Progress(p.out + [Shown(results, id, text)], p.consumed + [id])
  {
  }

  /**
   * The calls of one message close exactly when each is good and no id repeats; then their observations follow in
   * order.
   */
  lemma {:induction false} CallsClose(results: Results, p: Progress, calls: Items, text: Json -> string)
    requires NoDup(p.consumed)
    ensures CloseCalls(results, p, calls, text).Ok? <==>
            GoodCalls(results, calls, text) && NoDup(p.consumed + IdsOf(calls))
    ensures CloseCalls(results, p, calls, text).Ok? ==>
            CloseCalls(results, p, calls, text).value
            == Progress(p.out + Observations(results, IdsOf(calls), text), p.consumed + IdsOf(calls))
    decreases calls
  {
    match calls
    case NoItems =>
      assert p.consumed + [] == p.consumed && p.out + Observations(results, [], text) == p.out;
    case Item(call, more) =>
      CallCloses(results, p, call, text);
      if GoodCall(results, call, text) {
        var id := TextAt(call.fields, "id").value;
        assert IdsOf(calls) == [id] + IdsOf(more);
        Regroup(p.consumed, [id], IdsOf(more));
        NoDupMore(p.consumed, id);
        if id !in p.consumed {
          CallsClose(results, Progress(p.out + [Shown(results, id, text)], p.consumed + [id]), more, text);
          ObservationsMore(results, [id], IdsOf(more), text);
          assert Observations(results, [id], text) == [Shown(results, id, text)];
          Regroup(p.out, [Shown(results, id, text)], Observations(results, IdsOf(more), text));
        } else if NoDup(p.consumed + IdsOf(calls)) {
          NoDupPrefix(p.consumed + [id], IdsOf(more));
        }
      }
  }

  // ---------------------------------------------------------------- the whole conversation

  /** The call ids of the messages that are kept, in order. */
  function AllIds(results: Results, messages: seq<Fields>): seq<string> {
    if messages == [] then []
    else
      var m := messages[|messages| - 1];
      AllIds(results, messages[..|messages| - 1]) + (if Canonical(m, results) then [] else IdsOf(CallsOf(m)))
  }

  predicate AllGood(results: Results, messages: seq<Fields>, text: Json -> string) {
    forall i :: 0 <= i < |messages| && !Canonical(messages[i], results) ==>
      GoodCalls(results, CallsOf(messages[i]), text)
  }

  /** Every message that is kept, followed by the observations of its calls. */
  function Expanded(results: Results, messages: seq<Fields>, text: Json -> string): seq<Fields> {
    if messages == [] then []
    else
      var m := messages[|messages| - 1];
      Expanded(results, messages[..|messages| - 1], text)
      + (if Canonical(m, results) then [] else [m] + Observations(results, IdsOf(CallsOf(m)), text))
  }

  lemma AllGoodMore(results: Results, messages: seq<Fields>, text: Json -> string)
    requires messages != []
    ensures var n := |messages| - 1;
            AllGood(results, messages, text) <==>
            AllGood(results, messages[..n], text)
              && (Canonical(messages[n], results) || GoodCalls(results, CallsOf(messages[n]), text))
  {
    var n := |messages| - 1;
    assert forall i :: 0 <= i < n ==> messages[..n][i] == messages[i];
  }

  /** All messages close exactly when every call is good and no id repeats; then the conversation is the expansion. */
  lemma {:induction false} MessagesClose(results: Results, messages: seq<Fields>, text: Json -> string)
    ensures CloseMessages(results, messages, text).Ok? <==>
            AllGood(results, messages, text) && NoDup(AllIds(results, messages))
    ensures CloseMessages(results, messages, text).Ok? ==>
            CloseMessages(results, messages, text).value
              == Progress(Expanded(results, messages, text), AllIds(results, messages))
    decreases |messages|
  {
    if messages != [] {
      var n := |messages| - 1;
      var front, m := messages[..n], messages[n];
      MessagesClose(results, front, text);
      AllGoodMore(results, messages, text);
      if Canonical(m, results) {
        assert Expanded(results, front, text) + [] == Expanded(results, front, text);
        assert AllIds(results, front) + [] == AllIds(results, front);
      } else if CloseMessages(results, front, text).Ok? {
        var p := CloseMessages(results, front, text).value;
        CallsClose(results, p.(out := p.out + [m]), CallsOf(m), text);
        Regroup(p.out, [m], Observations(results, IdsOf(CallsOf(m)), text));
      } else if NoDup(AllIds(results, messages)) {
        NoDupPrefix(AllIds(results, front), IdsOf(CallsOf(m)));
      }
    }
  }

  function StepId(step: Fields): Option<string> {
    TextAt(step, "tool_call_id")
  }

  ghost predicate Indexed(steps: seq<Fields>, results: Results) {
    forall i :: 0 <= i < |steps| ==>
      StepId(steps[i]).Some? && StepId(steps[i]).value in results && results[StepId(steps[i]).value] == steps[i]
  }

  ghost predicate IsStepId(steps: seq<Fields>, id: string) {
    exists i :: 0 <= i < |steps| && StepId(steps[i]) == Some(id)
  }

  /** The index holds each step once, under its own id. */
  ghost predicate StepIds(steps: seq<Fields>, results: Results) {
    Indexed(steps, results) && (forall id :: id in results ==> IsStepId(steps, id)) && |results| == |steps|
  }

  lemma StepIdsMore(steps: seq<Fields>, results: Results, step: Fields, id: string)
    requires StepIds(steps, results) && StepId(step) == Some(id) && id !in results
    ensures StepIds(steps + [step], results[id := step])
  {
    var all := steps + [step];
    assert all[|steps|] == step;
    forall other | other in results[id := step] ensures IsStepId(all, other) {
      if other in results {
        var i :| 0 <= i < |steps| && StepId(steps[i]) == Some(other);
        assert StepId(all[i]) == Some(other);
      }
    }
  }

  /** The results of one step more. */
  lemma ResultsNext(steps: seq<Fields>)
    requires steps != [] && ResultsOf(steps).Ok?
    ensures var front, last := steps[..|steps| - 1], steps[|steps| - 1];
            && ResultsOf(front).Ok? && StepId(last).Some? && StepId(last).value !in ResultsOf(front).value
            && ResultsOf(steps).value == ResultsOf(front).value[StepId(last).value := last]
  {
  }

  lemma {:induction false} ResultsAreSteps(steps: seq<Fields>)
    requires ResultsOf(steps).Ok?
    ensures StepIds(steps, ResultsOf(steps).value)
    decreases |steps|
  {
    if steps != [] {
      var front, last := steps[..|steps| - 1], steps[|steps| - 1];
      ResultsNext(steps);
      ResultsAreSteps(front);
      StepIdsMore(front, ResultsOf(front).value, last, StepId(last).value);
      assert steps == front + [last];
    }
  }

  /**
   * The closure succeeds exactly when the steps have distinct ids, every call of the kept messages is good, no id is
   * called twice, and every step is called. Then calls and steps correspond one to one, and the conversation is the
   * expansion.
   */
  lemma ClosesIff(messages: seq<Fields>, steps: seq<Fields>, text: Json -> string)
    ensures Close(messages, steps, text).Ok? <==>
            && ResultsOf(steps).Ok?
            && AllGood(ResultsOf(steps).value, messages, text)
            && NoDup(AllIds(ResultsOf(steps).value, messages))
            && AllConsumed(ResultsOf(steps).value, AllIds(ResultsOf(steps).value, messages))
    ensures Close(messages, steps, text).Ok? ==>
            Close(messages, steps, text).value == Expanded(ResultsOf(steps).value, messages, text)
  {
    if ResultsOf(steps).Ok? { MessagesClose(ResultsOf(steps).value, messages, text); }
  }

  lemma {:induction false} GoodIds(results: Results, calls: Items, text: Json -> string)
    requires GoodCalls(results, calls, text)
    ensures forall id :: id in IdsOf(calls) ==> id in results && Observe(results[id], id, text).Ok?
  {
    if calls.Item? { GoodIds(results, calls.tail, text); }
  }

  lemma {:induction false} AllIdsKnown(results: Results, messages: seq<Fields>, text: Json -> string)
    requires AllGood(results, messages, text)
    ensures forall id :: id in AllIds(results, messages) ==> id in results && Observe(results[id], id, text).Ok?
  {
    if messages != [] {
      var n := |messages| - 1;
      AllGoodMore(results, messages, text);
      AllIdsKnown(results, messages[..n], text);
      if !Canonical(messages[n], results) { GoodIds(results, CallsOf(messages[n]), text); }
    }
  }

  /** On success the ids of the calls are the ids of the steps, each once: a bijection. */
  lemma CallsMatchSteps(messages: seq<Fields>, steps: seq<Fields>, text: Json -> string)
    requires Close(messages, steps, text).Ok?
    ensures var results := ResultsOf(steps).value;
            && StepIds(steps, results) && NoDup(AllIds(results, messages))
            && forall id :: id in AllIds(results, messages) <==> id in results
  {
    ClosesIff(messages, steps, text);
    ResultsAreSteps(steps);
    AllIdsKnown(ResultsOf(steps).value, messages, text);
  }

  // ---------------------------------------------------------------- each call is followed by its observation

  lemma ObservationIsCanonical(results: Results, id: string, name: string, result: Json, text: Json -> string)
    requires id in results
    ensures Canonical(Observation(id, name, result, text), results)
            && !HasRole(Observation(id, name, result, text), "assistant")
  {
    assert "role"[0] == 'r' && "tool_call_id"[0] == 't' && "tool"[0] == 't' && "assistant"[0] == 'a';
    var f := Observation(id, name, result, text);
    assert Get(f, "role") == Some(Str("tool"));
    assert Get(f.rest, "tool_call_id") == Some(Str(id));
  }

  ghost predicate AllCanonical(results: Results, observations: seq<Fields>) {
    forall i :: 0 <= i < |observations| ==>
      Canonical(observations[i], results) && !HasRole(observations[i], "assistant")
  }

  lemma {:induction false} GoodShown(results: Results, calls: Items, text: Json -> string)
    requires GoodCalls(results, calls, text)
    ensures AllCanonical(results, Observations(results, IdsOf(calls), text))
    decreases calls
  {
    if calls.Item? {
      GoodShown(results, calls.tail, text);
      var id := TextAt(calls.head.fields, "id").value;
      ObservationsMore(results, [id], IdsOf(calls.tail), text);
      assert Observations(results, [id], text) == [Shown(results, id, text)];
      ObservationIsCanonical(results, id, TextAt(results[id], "tool_name").value,
                             OrElse(Get(results[id], "result"), Null), text);
    }
  }

  /** After position `k` stand the observations of the calls of message `k`, in call order. */
  predicate FollowedAt(results: Results, out: seq<Fields>, k: nat, text: Json -> string)
    requires k < |out|
  {
    var observations := Observations(results, IdsOf(CallsOf(out[k])), text);
    k + 1 + |observations| <= |out| && out[k + 1..k + 1 + |observations|] == observations
  }

  ghost predicate Followed(results: Results, out: seq<Fields>, text: Json -> string) {
    forall k :: 0 <= k < |out| ==> FollowedAt(results, out, k, text)
  }

  lemma FollowedMore(results: Results, out: seq<Fields>, m: Fields, observations: seq<Fields>, text: Json -> string)
    requires Followed(results, out, text) && AllCanonical(results, observations)
    requires observations == Observations(results, IdsOf(CallsOf(m)), text)
    ensures Followed(results, out + ([m] + observations), text)
  {
    var all := out + ([m] + observations);
    forall k | 0 <= k < |all| ensures FollowedAt(results, all, k, text) {
      if k < |out| {
        assert FollowedAt(results, out, k, text);
        var n := |Observations(results, IdsOf(CallsOf(out[k])), text)|;
        assert all[k + 1..k + 1 + n] == out[k + 1..k + 1 + n];
      } else if k == |out| {
        assert all[k + 1..k + 1 + |observations|] == observations;
      } else {
        assert all[k] == observations[k - |out| - 1];
        assert Observations(results, [], text) == [];
        assert all[k + 1..k + 1] == [];
      }
    }
  }

  lemma {:induction false} ExpandedIsFollowed(results: Results, messages: seq<Fields>, text: Json -> string)
    requires AllGood(results, messages, text)
    ensures Followed(results, Expanded(results, messages, text), text)
    decreases |messages|
  {
    if messages != [] {
      var n := |messages| - 1;
      var m := messages[n];
      AllGoodMore(results, messages, text);
      ExpandedIsFollowed(results, messages[..n], text);
      var out := Expanded(results, messages[..n], text);
      if Canonical(m, results) {
        assert out + [] == out;
      } else {
        GoodShown(results, CallsOf(m), text);
        FollowedMore(results, out, m, Observations(results, IdsOf(CallsOf(m)), text), text);
      }
    }
  }

  /** On success every assistant message is directly followed by the observations of its calls, in call order. */
  lemma ObservationsFollowTheirCalls(messages: seq<Fields>, steps: seq<Fields>, text: Json -> string)
    requires Close(messages, steps, text).Ok?
    ensures Followed(ResultsOf(steps).value, Close(messages, steps, text).value, text)
  {
    ClosesIff(messages, steps, text);
    ExpandedIsFollowed(ResultsOf(steps).value, messages, text);
  }

  // ---------------------------------------------------------------- erasure and idempotence

  /** The conversation without its canonical tool messages. */
  function Erase(results: Results, messages: seq<Fields>): seq<Fields> {
    if messages == [] then []
    else
      var m := messages[|messages| - 1];
      Erase(results, messages[..|messages| - 1]) + (if Canonical(m, results) then [] else [m])
  }

  lemma {:induction false} EraseJoins(results: Results, a: seq<Fields>, b: seq<Fields>)
    ensures Erase(results, a + b) == Erase(results, a) + Erase(results, b)
    decreases |b|
  {
    if b == [] {
      assert a + b == a && Erase(results, a) + [] == Erase(results, a);
    } else {
      var n := |b| - 1;
      EraseJoins(results, a, b[..n]);
      assert (a + b)[..|a + b| - 1] == a + b[..n];
      Regroup(Erase(results, a), Erase(results, b[..n]), if Canonical(b[n], results) then [] else [b[n]]);
    }
  }

  lemma {:induction false} CanonicalErased(results: Results, observations: seq<Fields>)
    requires AllCanonical(results, observations)
    ensures Erase(results, observations) == []
    decreases |observations|
  {
    if observations != [] { CanonicalErased(results, observations[..|observations| - 1]); }
  }

  lemma EraseOne(results: Results, m: Fields)
    requires !Canonical(m, results)
    ensures Erase(results, [m]) == [m]
  {
    assert [m][..0] == [];
  }

  lemma {:induction false} ExpandedErased(results: Results, messages: seq<Fields>, text: Json -> string)
    requires AllGood(results, messages, text)
    ensures Erase(results, Expanded(results, messages, text)) == Erase(results, messages)
    decreases |messages|
  {
    if messages != [] {
      var n := |messages| - 1;
      var m := messages[n];
      AllGoodMore(results, messages, text);
      ExpandedErased(results, messages[..n], text);
      var out := Expanded(results, messages[..n], text);
      if Canonical(m, results) {
        assert out + [] == out;
      } else {
        var observations := Observations(results, IdsOf(CallsOf(m)), text);
        GoodShown(results, CallsOf(m), text);
        EraseJoins(results, out, [m] + observations);
        EraseJoins(results, [m], observations);
        EraseOne(results, m);
        CanonicalErased(results, observations);
        assert [m] + [] == [m];
      }
    }
  }

  /** Folding skips canonical messages, so it depends on the erased conversation only. */
  lemma {:induction false} ClosingErased(results: Results, messages: seq<Fields>, text: Json -> string)
    ensures CloseMessages(results, messages, text) == CloseMessages(results, Erase(results, messages), text)
    decreases |messages|
  {
    if messages != [] {
      var n := |messages| - 1;
      ClosingErased(results, messages[..n], text);
      var front := Erase(results, messages[..n]);
      if Canonical(messages[n], results) {
        assert front + [] == front;
      } else {
        assert (front + [messages[n]])[..|front|] == front;
      }
    }
  }

  /** Erasing the canonical tool messages of the output gives the input with its own erased: nothing else is touched. */
  lemma OutputErasesToInput(messages: seq<Fields>, steps: seq<Fields>, text: Json -> string)
    requires Close(messages, steps, text).Ok?
    ensures Erase(ResultsOf(steps).value, Close(messages, steps, text).value) == Erase(ResultsOf(steps).value, messages)
  {
    ClosesIff(messages, steps, text);
    ExpandedErased(ResultsOf(steps).value, messages, text);
  }

  /** Closing a closed conversation changes nothing. */
  lemma ClosureIsIdempotent(messages: seq<Fields>, steps: seq<Fields>, text: Json -> string)
    requires Close(messages, steps, text).Ok?
    ensures Close(Close(messages, steps, text).value, steps, text) == Close(messages, steps, text)
  {
    var results, out := ResultsOf(steps).value, Close(messages, steps, text).value;
    OutputErasesToInput(messages, steps, text);
    ClosingErased(results, messages, text);
    ClosingErased(results, out, text);
  }

  /** Observations that are already there, missing or misplaced make no difference: only the other messages count. */
  lemma OnlyOtherMessagesCount(a: seq<Fields>, b: seq<Fields>, steps: seq<Fields>, text: Json -> string)
    requires ResultsOf(steps).Ok? && Erase(ResultsOf(steps).value, a) == Erase(ResultsOf(steps).value, b)
    ensures Close(a, steps, text) == Close(b, steps, text)
  {
    ClosingErased(ResultsOf(steps).value, a, text);
    ClosingErased(ResultsOf(steps).value, b, text);
  }
}
