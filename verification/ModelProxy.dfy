/**
 * `ModelProxyService.forward_chat_completions`: request threads that interleave through three locked sections, a call
 * budget with a closeout path, and a hook for the first request. Upstream replies, the transport's `can_serve` answer,
 * file errors and hook errors are arbitrary inputs; request ids are distinct, as fresh uuids are.
 */
module ModelProxy {
  import opened Options
  import opened Json
  import opened Trace
  import L = EventLog
  import V = EvidenceLog

  // ---------------------------------------------------------------- what the locked sections share

  datatype Note = Note(request: nat, reason: string, maxCalls: nat)

  datatype Shared = Shared(callCount: nat, observed: bool, notes: seq<Note>, recorder: L.Recorder, evidence: V.Log)

  /** The transport's `can_serve` hook: serve, refuse for a reason, or raise. */
  datatype CanServe = Serve | Refuse(reason: string) | Raise

  datatype Admission = Refused(reason: string) | Admitted(notify: bool) | AdmissionRaised

  datatype Reply = Replied | StoredOnly | NotStored

  /** `_closeout_reason`: the call budget comes first. */
  function CloseoutReason(callCount: nat, maxCalls: nat, hook: CanServe): CanServe {
    if callCount >= maxCalls then Refuse("model_request_budget") else hook
  }

  /** The first locked section; `writable` says whether the note file could be written. */
  function AdmitTo(s: Shared, maxCalls: nat, hook: CanServe, writable: bool): (Shared, Admission) {
    match CloseoutReason(s.callCount, maxCalls, hook)
    case Raise => (s, AdmissionRaised)
    case Refuse(reason) =>
      (if writable then s.(notes := s.notes + [Note(s.callCount + 1, reason, maxCalls)]) else s, Refused(reason))
    case Serve => (s.(callCount := s.callCount + 1, observed := true), Admitted(!s.observed))
  }

  /** What an event of this call carries besides its kind, span and status. */
  datatype Stamp = Stamp(eventId: string, timestamp: int, attributes: Fields)

  function SpanId(requestId: string): string {
    "span-" + requestId
  }

  function RequestDraft(requestId: string, stamp: Stamp): L.Draft {
    L.Draft(stamp.eventId, SpanId(requestId), None, stamp.timestamp, ModelRequest, Started, stamp.attributes, [])
  }

  function ResponseDraft(requestId: string, status: int, stamp: Stamp): L.Draft {
    L.Draft(stamp.eventId, SpanId(requestId), None, stamp.timestamp, ModelResponse,
            if 200 <= status < 300 then Succeeded else Failed, stamp.attributes, [])
  }

  /** The second locked section. */
  function RequestTo(s: Shared, who: L.Identity, requestId: string, stamp: Stamp): (Shared, bool) {
    var (recorder, result) := L.EmitTo(s.recorder, who, RequestDraft(requestId, stamp));
    (s.(recorder := recorder), result.Ok?)
  }

  /** The third locked section: the evidence row first, then the response event; either may be refused. */
  function RespondTo(s: Shared, who: L.Identity, e: V.Evidence, stamp: Stamp): (Shared, Reply) {
    match V.AppendTo(s.evidence, e)
    case (_, Err(_)) => (s, NotStored)
    case (evidence, Ok(_)) =>
      var (recorder, result) := L.EmitTo(s.recorder, who, ResponseDraft(e.request.id, e.backend.status, stamp));
      (s.(evidence := evidence, recorder := recorder), if result.Ok? then Replied else StoredOnly)
  }

  class ModelProxyService {
    const maxCalls: nat
    const recorder: L.TraceRecorder
    const evidence: V.EvidenceWriter
    var callCount: nat
    var observed: bool
    var notes: seq<Note>

    ghost predicate Valid()
      reads this, recorder, recorder.writer, recorder.writer.file, evidence, evidence.file
    {
      recorder.Valid() && evidence.Valid()
    }

    ghost function State(): Shared
      reads this, recorder, recorder.writer, recorder.writer.file, evidence, evidence.file
      requires Valid()
    {
      Shared(callCount, observed, notes, recorder.State(), evidence.State())
    }

    constructor (recorder: L.TraceRecorder, evidence: V.EvidenceWriter, maxCalls: nat)
      requires maxCalls >= 1
      ensures this.recorder == recorder && this.evidence == evidence && this.maxCalls == maxCalls
      ensures callCount == 0 && !observed && notes == []
    {
      this.recorder := recorder;
      this.evidence := evidence;
      this.maxCalls := maxCalls;
      callCount, observed, notes := 0, false, [];
    }

    method Admit(hook: CanServe, writable: bool) returns (r: Admission)
      requires Valid()
      modifies this
      ensures Valid() && (State(), r) == AdmitTo(old(State()), maxCalls, hook, writable)
    {
      var reason := if callCount >= maxCalls then Refuse("model_request_budget") else hook;
      match reason
      case Raise => return AdmissionRaised;
      case Refuse(why) =>
        if writable {
          notes := notes + [Note(callCount + 1, why, maxCalls)];
        }
        return Refused(why);
      case Serve =>
        callCount := callCount + 1;
        var notify := !observed;
        if notify {
          observed := true;
        }
        return Admitted(notify);
    }

    method RecordRequest(requestId: string, stamp: Stamp) returns (ok: bool)
      requires Valid()
      modifies recorder, recorder.writer, recorder.writer.file
      ensures Valid() && (State(), ok) == RequestTo(old(State()), recorder.who, requestId, stamp)
    {
      var result := recorder.Emit(RequestDraft(requestId, stamp));
      ok := result.Ok?;
    }

    method RecordResponse(e: V.Evidence, stamp: Stamp) returns (r: Reply)
      requires Valid()
      modifies evidence, evidence.file, recorder, recorder.writer, recorder.writer.file
      ensures Valid() && (State(), r) == RespondTo(old(State()), recorder.who, e, stamp)
    {
      var stored := evidence.Append(e);
      if stored.Err? {
        return NotStored;
      }
      var result := recorder.Emit(ResponseDraft(e.request.id, e.backend.status, stamp));
      return if result.Ok? then Replied else StoredOnly;
    }

    /** One whole call that no other thread interrupts is a run of its own steps. */
    method Forward(call: Call) returns (phase: Phase)
      requires Valid()
      modifies this, evidence, evidence.file, recorder, recorder.writer, recorder.writer.file
      ensures Valid()
      ensures var alone := Alone(Config(maxCalls, recorder.who, _ => call.requestId), old(State()), call);
              alone.shared == State() && alone.threads == [phase]
    {
      ghost var cfg := Config(maxCalls, recorder.who, _ => call.requestId);
      ghost var before := State();
      AloneIsForward(cfg, before, call);
      if !call.valid {
        return Rejected;
      }
      var admission := Admit(call.hook, call.writable);
      if !admission.Admitted? || (admission.notify && !call.hookOk) || !call.wellFormed {
        return if admission.Admitted? then Dead(Building) else Enter(admission);
      }
      if !call.requestIo {
        return Dead(Ready);
      }
      var ok := RecordRequest(call.requestId, call.request);
      if !ok {
        return Dead(Ready);
      }
      if call.outcome.None? {
        return Dead(Sent);
      }
      var e := call.outcome.value.(request := call.outcome.value.request.(id := call.requestId));
      if !call.responseIo {
        return Dead(Captured(e));
      }
      var r := RecordResponse(e, call.response);
      return Leave(e, r);
    }
  }

  /** A closeout reply adds no event, no evidence and no call, and is given whenever the budget is spent. */
  lemma CloseoutLeavesNoTrace(s: Shared, maxCalls: nat, hook: CanServe, writable: bool)
    ensures var (after, r) := AdmitTo(s, maxCalls, hook, writable);
            && (r.Refused? <==> s.callCount >= maxCalls || hook.Refuse?)
            && (!r.Admitted? ==> after == s.(notes := after.notes) && s.notes <= after.notes)
            && (r.Admitted? ==>
                after == s.(callCount := s.callCount + 1, observed := true) && after.callCount <= maxCalls)
  {
  }

  // ---------------------------------------------------------------- threads and their interleavings

  /** Where an admitted call stands. */
  datatype Progress = Hooking | Building | Ready | Sent | Captured(e: V.Evidence) | Stored | Answered

  datatype Phase = Waiting | Rejected | ClosedOut(reason: string) | Live(at: Progress) | Dead(at: Progress)

  function ProgressRank(p: Progress): nat {
    match p
    case Hooking => 1
    case Building => 1
    case Ready => 1
    case Sent => 2
    case Captured(_) => 2
    case Stored => 3
    case Answered => 4
  }

  /** 0: never admitted, 1: admitted, 2: request recorded, 3: evidence stored, 4: response recorded. */
  function Rank(p: Phase): nat {
    if p.Live? || p.Dead? then ProgressRank(p.at) else 0
  }

  datatype Config = Config(maxCalls: nat, who: L.Identity, ids: nat -> string)

  datatype System = System(shared: Shared, threads: seq<Phase>, hooks: nat)

  /** One atomic step of one thread, or an event of another producer that shares the recorder. */
  datatype Action =
    | Arrive(valid: bool)
    | Admit(t: nat, hook: CanServe, writable: bool)
    | RunHook(t: nat, ok: bool)
    | BuildRequest(t: nat, ok: bool)
    | Send(t: nat, stamp: Stamp, io: bool)
    | Upstream(t: nat, outcome: Option<V.Evidence>)
    | Respond(t: nat, stamp: Stamp, io: bool)
    | Other(d: L.Draft)

  function Put(sys: System, t: nat, p: Phase): System
    requires t < |sys.threads|
  {
    sys.(threads := sys.threads[t := p])
  }

  function Enter(p: Admission): Phase {
    match p
    case Refused(reason) => ClosedOut(reason)
    case Admitted(notify) => Live(if notify then Hooking else Building)
    case AdmissionRaised => Rejected
  }

  function Leave(e: V.Evidence, r: Reply): Phase {
    match r
    case Replied => Live(Answered)
    case StoredOnly => Dead(Stored)
    case NotStored => Dead(Captured(e))
  }

  predicate At(sys: System, t: nat, p: Phase) {
    t < |sys.threads| && sys.threads[t] == p
  }

  /** An action of a thread that is not where the action starts changes nothing. */
  function Step(cfg: Config, sys: System, a: Action): System {
    match a
    case Arrive(valid) => sys.(threads := sys.threads + [if valid then Waiting else Rejected])
    case Admit(t, hook, writable) =>
      if At(sys, t, Waiting) then
        var (shared, r) := AdmitTo(sys.shared, cfg.maxCalls, hook, writable);
        Put(sys.(shared := shared), t, Enter(r))
      else sys
    case RunHook(t, ok) =>
      if At(sys, t, Live(Hooking))
        then Put(sys.(hooks := sys.hooks + 1), t, if ok then Live(Building) else Dead(Building)) else sys
    case BuildRequest(t, ok) =>
      if At(sys, t, Live(Building)) then Put(sys, t, if ok then Live(Ready) else Dead(Building)) else sys
    case Send(t, stamp, io) =>
      if !At(sys, t, Live(Ready)) then sys
      else if !io then Put(sys, t, Dead(Ready))
      else
        var (shared, ok) := RequestTo(sys.shared, cfg.who, cfg.ids(t), stamp);
        Put(sys.(shared := shared), t, if ok then Live(Sent) else Dead(Ready))
    case Upstream(t, outcome) =>
      if !At(sys, t, Live(Sent)) then sys
      else (match outcome
            case None => Put(sys, t, Dead(Sent))
            case Some(e) => Put(sys, t, Live(Captured(e.(request := e.request.(id := cfg.ids(t)))))))
    case Respond(t, stamp, io) =>
      if !(t < |sys.threads| && sys.threads[t].Live? && sys.threads[t].at.Captured?) then sys
      else
        var e := sys.threads[t].at.e;
        if !io then Put(sys, t, Dead(Captured(e)))
        else
          var (shared, r) := RespondTo(sys.shared, cfg.who, e, stamp);
          Put(sys.(shared := shared), t, Leave(e, r))
    case Other(d) =>
      if d.kind == ModelRequest || d.kind == ModelResponse then sys
      else sys.(shared := sys.shared.(recorder := L.EmitTo(sys.shared.recorder, cfg.who, d).0))
  }

  const START := System(Shared(0, false, [], L.Recorder(L.EMPTY, 0), V.EMPTY), [], 0)

  function Run(cfg: Config, actions: seq<Action>): System
    decreases |actions|
  {
    if actions == [] then START else Step(cfg, Run(cfg, actions[..|actions| - 1]), actions[|actions| - 1])
  }

  /** All that the outside decides about one call. */
  datatype Call = Call(
    valid: bool, hook: CanServe, writable: bool, hookOk: bool, wellFormed: bool, requestId: string,
    request: Stamp, requestIo: bool, outcome: Option<V.Evidence>, response: Stamp, responseIo: bool)

  /** The steps of one call, one after the other, from the given shared state. */
  function Alone(cfg: Config, s: Shared, call: Call): System {
    Finish(cfg, Start(cfg, s, call), call)
  }

  function Start(cfg: Config, s: Shared, call: Call): System {
    var sys1 := Step(cfg, System(s, [], 0), Arrive(call.valid));
    var sys2 := Step(cfg, sys1, Admit(0, call.hook, call.writable));
    var sys3 := Step(cfg, sys2, RunHook(0, call.hookOk));
    Step(cfg, sys3, BuildRequest(0, call.wellFormed))
  }

  function Finish(cfg: Config, sys4: System, call: Call): System {
    var sys5 := Step(cfg, sys4, Send(0, call.request, call.requestIo));
    var sys6 := Step(cfg, sys5, Upstream(0, call.outcome));
    Step(cfg, sys6, Respond(0, call.response, call.responseIo))
  }

  // The same call as straight-line code.

  function StartTo(cfg: Config, s: Shared, call: Call): (Shared, Phase) {
    if !call.valid then (s, Rejected)
    else
      var (shared, r) := AdmitTo(s, cfg.maxCalls, call.hook, call.writable);
      if !r.Admitted? then (shared, Enter(r))
      else if (r.notify && !call.hookOk) || !call.wellFormed then (shared, Dead(Building))
      else (shared, Live(Ready))
  }

  function FinishTo(cfg: Config, s: Shared, call: Call): (Shared, Phase) {
    if !call.requestIo then (s, Dead(Ready))
    else
      var (shared, ok) := RequestTo(s, cfg.who, cfg.ids(0), call.request);
      if !ok then (shared, Dead(Ready))
      else (match call.outcome
            case None => (shared, Dead(Sent))
            case Some(given) =>
              var e := given.(request := given.request.(id := cfg.ids(0)));
              if !call.responseIo then (shared, Dead(Captured(e)))
              else (match RespondTo(shared, cfg.who, e, call.response) case (after, r) => (after, Leave(e, r))))
  }

  lemma PutOne(sys: System, q: Phase)
    requires |sys.threads| == 1
    ensures Put(sys, 0, q).threads == [q]
  {
  }

  lemma StartIs(cfg: Config, s: Shared, call: Call)
    ensures Start(cfg, s, call).shared == StartTo(cfg, s, call).0
            && Start(cfg, s, call).threads == [StartTo(cfg, s, call).1]
  {
    var sys1 := Step(cfg, System(s, [], 0), Arrive(call.valid));
    assert sys1.threads == [if call.valid then Waiting else Rejected];
    var sys2 := Step(cfg, sys1, Admit(0, call.hook, call.writable));
    if call.valid { PutOne(sys1, sys2.threads[0]); }
    var sys3 := Step(cfg, sys2, RunHook(0, call.hookOk));
    if At(sys2, 0, Live(Hooking)) { PutOne(sys2, sys3.threads[0]); }
    var sys4 := Step(cfg, sys3, BuildRequest(0, call.wellFormed));
    if At(sys3, 0, Live(Building)) { PutOne(sys3, sys4.threads[0]); }
  }

  lemma FinishIs(cfg: Config, sys: System, call: Call)
    requires sys.threads == [Live(Ready)]
    ensures Finish(cfg, sys, call).shared == FinishTo(cfg, sys.shared, call).0
    ensures Finish(cfg, sys, call).threads == [FinishTo(cfg, sys.shared, call).1]
  {
    var sys5 := Step(cfg, sys, Send(0, call.request, call.requestIo));
    PutOne(sys, sys5.threads[0]);
    var sys6 := Step(cfg, sys5, Upstream(0, call.outcome));
    if At(sys5, 0, Live(Sent)) { PutOne(sys5, sys6.threads[0]); }
    var sys7 := Step(cfg, sys6, Respond(0, call.response, call.responseIo));
    if sys6.threads[0].Live? && sys6.threads[0].at.Captured? { PutOne(sys6, sys7.threads[0]); }
  }

  /** The steps of an uninterrupted call compute what the straight-line code computes. */
  lemma AloneIsForward(cfg: Config, s: Shared, call: Call)
    ensures var (mid, at) := StartTo(cfg, s, call);
            var (after, end) := if at == Live(Ready) then FinishTo(cfg, mid, call) else (mid, at);
            Alone(cfg, s, call).shared == after && Alone(cfg, s, call).threads == [end]
  {
    StartIs(cfg, s, call);
    if StartTo(cfg, s, call).1 == Live(Ready) {
      FinishIs(cfg, Start(cfg, s, call), call);
    }
  }
}
