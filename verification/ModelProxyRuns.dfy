/** What every interleaving of request threads keeps, and what it means for the recorded episode. */
module ModelProxyRuns {
  import opened Options
  import opened Trace
  import opened ModelProxy
  import Episodes
  import L = EventLog
  import S = SpanSets
  import V = EvidenceLog

  // ---------------------------------------------------------------- counting

  /** How many threads got at least as far as `level`. */
  function Reached(threads: seq<Phase>, level: nat): nat {
    if threads == [] then 0
    else Reached(threads[..|threads| - 1], level) + (if Rank(threads[|threads| - 1]) >= level then 1 else 0)
  }

  function Pending(threads: seq<Phase>): nat {
    if threads == [] then 0
    else Pending(threads[..|threads| - 1]) + (if threads[|threads| - 1] == Live(Hooking) then 1 else 0)
  }

  function Total(events: seq<Event>, kind: EventType): nat {
    if events == [] then 0
    else Total(events[..|events| - 1], kind) + (if events[|events| - 1].kind == kind then 1 else 0)
  }

  lemma {:induction false} ReachedMove(threads: seq<Phase>, t: nat, p: Phase, level: nat)
    requires t < |threads|
    ensures Reached(threads[t := p], level)
            == Reached(threads, level) - (if Rank(threads[t]) >= level then 1 else 0)
              + (if Rank(p) >= level then 1 else 0)
    ensures Rank(threads[t]) >= level ==> Reached(threads, level) > 0
  {
    var n := |threads| - 1;
    if t == n {
      assert threads[t := p][..n] == threads[..n];
    } else {
      ReachedMove(threads[..n], t, p, level);
      assert threads[t := p][..n] == threads[..n][t := p];
    }
  }

  lemma LevelsMove(threads: seq<Phase>, t: nat, p: Phase)
    requires t < |threads|
    ensures var before, after := Rank(threads[t]), Rank(p);
            && Reached(threads[t := p], 1)
              == Reached(threads, 1) - (if before >= 1 then 1 else 0) + (if after >= 1 then 1 else 0)
            && Reached(threads[t := p], 2)
              == Reached(threads, 2) - (if before >= 2 then 1 else 0) + (if after >= 2 then 1 else 0)
            && Reached(threads[t := p], 3)
              == Reached(threads, 3) - (if before >= 3 then 1 else 0) + (if after >= 3 then 1 else 0)
            && Reached(threads[t := p], 4)
              == Reached(threads, 4) - (if before >= 4 then 1 else 0) + (if after >= 4 then 1 else 0)
  {
    ReachedMove(threads, t, p, 1);
    ReachedMove(threads, t, p, 2);
    ReachedMove(threads, t, p, 3);
    ReachedMove(threads, t, p, 4);
  }

  lemma {:induction false} PendingMove(threads: seq<Phase>, t: nat, p: Phase)
    requires t < |threads|
    ensures Pending(threads[t := p])
            == Pending(threads) - (if threads[t] == Live(Hooking) then 1 else 0) + (if p == Live(Hooking) then 1 else 0)
  {
    var n := |threads| - 1;
    if t == n {
      assert threads[t := p][..n] == threads[..n];
    } else {
      PendingMove(threads[..n], t, p);
      assert threads[t := p][..n] == threads[..n][t := p];
    }
  }

  lemma {:induction false} ReachedFalls(threads: seq<Phase>, level: nat, higher: nat)
    requires level <= higher
    ensures Reached(threads, higher) <= Reached(threads, level)
  {
    if threads != [] { ReachedFalls(threads[..|threads| - 1], level, higher); }
  }

  // ---------------------------------------------------------------- the invariant

  /** Every response event has an earlier request event on its span. */
  ghost predicate Answering(events: seq<Event>) {
    events == [] ||
      var front, last := events[..|events| - 1], events[|events| - 1];
      Answering(front) && (last.kind == ModelResponse ==> last.spanId in S.Marked(front, ModelRequest))
  }

  /** No span carries two events of the kind. */
  ghost predicate Once(events: seq<Event>, kind: EventType) {
    events == [] ||
      var front, last := events[..|events| - 1], events[|events| - 1];
      Once(front, kind) && (last.kind == kind ==> last.spanId !in S.Marked(front, kind))
  }

  /** The counters are the numbers of threads that got so far. */
  ghost predicate Counted(cfg: Config, sys: System) {
    var s := sys.shared;
    && s.callCount == Reached(sys.threads, 1) && s.callCount <= cfg.maxCalls
    && Total(s.recorder.log.events, ModelRequest) == Reached(sys.threads, 2)
    && |s.evidence.rows| == Reached(sys.threads, 3)
    && Total(s.recorder.log.events, ModelResponse) == Reached(sys.threads, 4)
    && s.observed == (s.callCount > 0)
    && sys.hooks + Pending(sys.threads) == (if s.observed then 1 else 0)
  }

  function ThreadSpan(cfg: Config, t: nat): string {
    SpanId(cfg.ids(t))
  }

  ghost predicate MarksReach(cfg: Config, threads: seq<Phase>, spans: set<string>, level: nat) {
    forall t: nat :: ThreadSpan(cfg, t) in spans <==> t < |threads| && Rank(threads[t]) >= level
  }

  ghost predicate RowsReach(cfg: Config, threads: seq<Phase>, rows: seq<V.Evidence>) {
    forall t: nat :: V.Stored(rows, cfg.ids(t)) <==> t < |threads| && Rank(threads[t]) >= 3
  }

  ghost predicate OwnSpans(cfg: Config, spans: set<string>) {
    forall span :: span in spans ==> exists t: nat :: span == ThreadSpan(cfg, t)
  }

  ghost predicate OwnCaptures(cfg: Config, threads: seq<Phase>) {
    forall t: nat :: t < |threads| && threads[t].Live? && threads[t].at.Captured? ==>
      threads[t].at.e.request.id == cfg.ids(t)
  }

  /** Exactly the threads that got so far have their request, their evidence row and their response. */
  ghost predicate Traced(cfg: Config, sys: System) {
    var events := sys.shared.recorder.log.events;
    && MarksReach(cfg, sys.threads, S.Marked(events, ModelRequest), 2)
    && RowsReach(cfg, sys.threads, sys.shared.evidence.rows)
    && MarksReach(cfg, sys.threads, S.Marked(events, ModelResponse), 4)
    && OwnSpans(cfg, S.Marked(events, ModelRequest))
    && OwnCaptures(cfg, sys.threads)
  }

  ghost predicate Logs(sys: System) {
    var events := sys.shared.recorder.log.events;
    L.Numbered(sys.shared.recorder) && V.Agrees(sys.shared.evidence)
    && Answering(events) && Once(events, ModelRequest) && Once(events, ModelResponse)
  }

  ghost predicate Inv(cfg: Config, sys: System) {
    Counted(cfg, sys) && Traced(cfg, sys) && Logs(sys)
  }

  ghost predicate DistinctIds(cfg: Config) {
    forall t: nat, u: nat :: cfg.ids(t) == cfg.ids(u) ==> t == u
  }

  lemma SpansDiffer(cfg: Config, t: nat, u: nat)
    requires DistinctIds(cfg) && ThreadSpan(cfg, t) == ThreadSpan(cfg, u)
    ensures t == u
  {
    assert ThreadSpan(cfg, t)[5..] == cfg.ids(t) && ThreadSpan(cfg, u)[5..] == cfg.ids(u);
  }

  // ---------------------------------------------------------------- one event or one row more

  /** The recorder either refuses a draft or appends it as a new event. */
  lemma EmitAppends(r: L.Recorder, who: L.Identity, d: L.Draft)
    requires L.Numbered(r)
    ensures var (after, result) := L.EmitTo(r, who, d);
            && L.Numbered(after)
            && (result.Err? ==> after == r)
            && (result.Ok? ==> after.log.events == r.log.events + [L.Build(d, who, r.next)])
  {
    var e := L.Build(d, who, r.next);
    L.AppendAgrees(r.log, e);
    L.RebuildKeys(r.log.events, e.eventId);
    L.RebuildFinds(r.log.events);
  }

  lemma EventsAppend(events: seq<Event>, e: Event)
    ensures forall kind ::
            S.Marked(events + [e], kind) == S.Marked(events, kind) + (if e.kind == kind then {e.spanId} else {})
    ensures forall kind :: Total(events + [e], kind) == Total(events, kind) + (if e.kind == kind then 1 else 0)
    ensures Answering(events + [e]) <==>
            Answering(events) && (e.kind == ModelResponse ==> e.spanId in S.Marked(events, ModelRequest))
    ensures forall kind :: Once(events + [e], kind) <==>
            Once(events, kind) && (e.kind == kind ==> e.spanId !in S.Marked(events, kind))
  {
    assert (events + [e])[..|events|] == events;
  }

  lemma RowAppends(rows: seq<V.Evidence>, e: V.Evidence, id: string)
    ensures V.Stored(rows + [e], id) <==> V.Stored(rows, id) || e.request.id == id
  {
    var all := rows + [e];
    assert all[|rows|] == e;
    if V.Stored(rows, id) {
      var i :| 0 <= i < |rows| && rows[i].request.id == id;
      assert all[i].request.id == id;
    }
  }

  // ---------------------------------------------------------------- the steps

  /** A thread that changes phase but not rank, with nothing shared changed. */
  lemma QuietMove(cfg: Config, sys: System, t: nat, p: Phase, hooks: nat)
    requires Inv(cfg, sys) && t < |sys.threads| && Rank(p) == Rank(sys.threads[t])
    requires p.Live? && p.at.Captured? ==> p.at.e.request.id == cfg.ids(t)
    requires hooks == sys.hooks + (if sys.threads[t] == Live(Hooking) then 1 else 0) && p != Live(Hooking)
    ensures Inv(cfg, Put(sys.(hooks := hooks), t, p))
  {
    forall level ensures Reached(sys.threads[t := p], level) == Reached(sys.threads, level) {
      ReachedMove(sys.threads, t, p, level);
    }
    PendingMove(sys.threads, t, p);
  }

  lemma ArriveKeeps(cfg: Config, sys: System, p: Phase)
    requires Inv(cfg, sys) && Rank(p) == 0 && !p.Live?
    ensures Inv(cfg, sys.(threads := sys.threads + [p]))
  {
    assert (sys.threads + [p])[..|sys.threads|] == sys.threads;
  }

  /** The notes of the closeout path are nothing the invariant speaks of. */
  lemma NotesAside(cfg: Config, sys: System, notes: seq<Note>)
    requires Inv(cfg, sys)
    ensures Inv(cfg, sys.(shared := sys.shared.(notes := notes)))
  {
  }

  lemma AdmittedCounts(cfg: Config, sys: System, t: nat, p: Phase)
    requires Counted(cfg, sys) && At(sys, t, Waiting) && sys.shared.callCount < cfg.maxCalls
    requires p == Live(if sys.shared.observed then Building else Hooking)
    ensures Counted(cfg,
                    Put(sys.(shared := sys.shared.(callCount := sys.shared.callCount + 1, observed := true)), t, p))
  {
    LevelsMove(sys.threads, t, p);
    PendingMove(sys.threads, t, p);
  }

  lemma AdmittedKeeps(cfg: Config, sys: System, t: nat, p: Phase)
    requires Inv(cfg, sys) && At(sys, t, Waiting) && sys.shared.callCount < cfg.maxCalls
    requires p == Live(if sys.shared.observed then Building else Hooking)
    ensures Inv(cfg, Put(sys.(shared := sys.shared.(callCount := sys.shared.callCount + 1, observed := true)), t, p))
  {
    var events := sys.shared.recorder.log.events;
    AdmittedCounts(cfg, sys, t, p);
    MarksStay(cfg, sys.threads, t, p, S.Marked(events, ModelRequest), 2);
    MarksStay(cfg, sys.threads, t, p, S.Marked(events, ModelResponse), 4);
    RowsStay(cfg, sys.threads, t, p, sys.shared.evidence.rows);
  }

  lemma AdmitKeeps(cfg: Config, sys: System, t: nat, hook: CanServe, writable: bool)
    requires Inv(cfg, sys) && At(sys, t, Waiting)
    ensures Inv(cfg, Step(cfg, sys, Admit(t, hook, writable)))
  {
    var (shared, r) := AdmitTo(sys.shared, cfg.maxCalls, hook, writable);
    if r.Admitted? {
      AdmittedKeeps(cfg, sys, t, Enter(r));
    } else {
      QuietMove(cfg, sys, t, Enter(r), sys.hooks);
      NotesAside(cfg, Put(sys, t, Enter(r)), shared.notes);
    }
  }

  lemma OtherAppended(cfg: Config, sys: System, recorder: L.Recorder, e: Event)
    requires Inv(cfg, sys) && e.kind != ModelRequest && e.kind != ModelResponse && L.Numbered(recorder)
    requires recorder.log.events == sys.shared.recorder.log.events + [e]
    ensures Inv(cfg, sys.(shared := sys.shared.(recorder := recorder)))
  {
    EventsAppend(sys.shared.recorder.log.events, e);
  }

  lemma OtherKeeps(cfg: Config, sys: System, d: L.Draft)
    requires Inv(cfg, sys) && d.kind != ModelRequest && d.kind != ModelResponse
    ensures Inv(cfg, Step(cfg, sys, Other(d)))
  {
    var (recorder, result) := L.EmitTo(sys.shared.recorder, cfg.who, d);
    EmitAppends(sys.shared.recorder, cfg.who, d);
    if result.Ok? {
      OtherAppended(cfg, sys, recorder, L.Build(d, cfg.who, sys.shared.recorder.next));
    }
  }

  lemma SendKeeps(cfg: Config, sys: System, t: nat, stamp: Stamp)
    requires DistinctIds(cfg) && Inv(cfg, sys) && At(sys, t, Live(Ready))
    ensures Inv(cfg, Step(cfg, sys, Send(t, stamp, true)))
  {
    var d := RequestDraft(cfg.ids(t), stamp);
    var (recorder, result) := L.EmitTo(sys.shared.recorder, cfg.who, d);
    EmitAppends(sys.shared.recorder, cfg.who, d);
    if result.Ok? {
      Requested(cfg, sys, t, recorder, L.Build(d, cfg.who, sys.shared.recorder.next));
    } else {
      QuietMove(cfg, sys, t, Dead(Ready), sys.hooks);
    }
  }

  lemma RequestedCounts(cfg: Config, sys: System, t: nat, recorder: L.Recorder, e: Event)
    requires Counted(cfg, sys) && At(sys, t, Live(Ready)) && e.kind == ModelRequest
    requires recorder.log.events == sys.shared.recorder.log.events + [e]
    ensures Counted(cfg, Put(sys.(shared := sys.shared.(recorder := recorder)), t, Live(Sent)))
  {
    EventsAppend(sys.shared.recorder.log.events, e);
    LevelsMove(sys.threads, t, Live(Sent));
    PendingMove(sys.threads, t, Live(Sent));
  }

  lemma RequestedTraces(cfg: Config, sys: System, t: nat, recorder: L.Recorder, e: Event)
    requires DistinctIds(cfg) && Traced(cfg, sys) && At(sys, t, Live(Ready))
    requires recorder.log.events == sys.shared.recorder.log.events + [e] && e.kind == ModelRequest
             && e.spanId == ThreadSpan(cfg, t)
    ensures Traced(cfg, Put(sys.(shared := sys.shared.(recorder := recorder)), t, Live(Sent)))
  {
    var events := sys.shared.recorder.log.events;
    EventsAppend(events, e);
    MarksGain(cfg, sys.threads, t, Live(Sent), S.Marked(events, ModelRequest), 2);
    MarksStay(cfg, sys.threads, t, Live(Sent), S.Marked(events, ModelResponse), 4);
    RowsStay(cfg, sys.threads, t, Live(Sent), sys.shared.evidence.rows);
  }

  /** The request event is recorded. */
  lemma Requested(cfg: Config, sys: System, t: nat, recorder: L.Recorder, e: Event)
    requires DistinctIds(cfg) && Inv(cfg, sys) && At(sys, t, Live(Ready)) && L.Numbered(recorder)
    requires recorder.log.events == sys.shared.recorder.log.events + [e] && e.kind == ModelRequest
             && e.spanId == ThreadSpan(cfg, t)
    ensures Inv(cfg, Put(sys.(shared := sys.shared.(recorder := recorder)), t, Live(Sent)))
  {
    RequestedCounts(cfg, sys, t, recorder, e);
    RequestedTraces(cfg, sys, t, recorder, e);
    EventsAppend(sys.shared.recorder.log.events, e);
  }

  lemma StoredCounts(cfg: Config, sys: System, t: nat, log: V.Log)
    requires Counted(cfg, sys) && t < |sys.threads| && sys.threads[t].Live? && sys.threads[t].at.Captured?
    requires |log.rows| == |sys.shared.evidence.rows| + 1
    ensures Counted(cfg, Put(sys.(shared := sys.shared.(evidence := log)), t, Dead(Stored)))
  {
    LevelsMove(sys.threads, t, Dead(Stored));
    PendingMove(sys.threads, t, Dead(Stored));
  }

  lemma MarksStay(cfg: Config, threads: seq<Phase>, t: nat, p: Phase, spans: set<string>, level: nat)
    requires MarksReach(cfg, threads, spans, level) && t < |threads|
             && (Rank(threads[t]) >= level <==> Rank(p) >= level)
    ensures MarksReach(cfg, threads[t := p], spans, level)
  {
  }

  lemma MarksGain(cfg: Config, threads: seq<Phase>, t: nat, p: Phase, spans: set<string>, level: nat)
    requires DistinctIds(cfg) && MarksReach(cfg, threads, spans, level) && t < |threads| && Rank(p) >= level
    ensures MarksReach(cfg, threads[t := p], spans + {ThreadSpan(cfg, t)}, level)
  {
    forall u: nat | ThreadSpan(cfg, u) == ThreadSpan(cfg, t) ensures u == t { SpansDiffer(cfg, t, u); }
  }

  lemma RowsStay(cfg: Config, threads: seq<Phase>, t: nat, p: Phase, rows: seq<V.Evidence>)
    requires RowsReach(cfg, threads, rows) && t < |threads| && (Rank(threads[t]) >= 3 <==> Rank(p) >= 3)
    ensures RowsReach(cfg, threads[t := p], rows)
  {
  }

  lemma RowsGain(cfg: Config, threads: seq<Phase>, t: nat, p: Phase, rows: seq<V.Evidence>, e: V.Evidence)
    requires DistinctIds(cfg) && RowsReach(cfg, threads, rows) && t < |threads| && Rank(p) >= 3
             && e.request.id == cfg.ids(t)
    ensures RowsReach(cfg, threads[t := p], rows + [e])
  {
    forall u: nat
      ensures V.Stored(rows + [e], cfg.ids(u)) <==> V.Stored(rows, cfg.ids(u)) || u == t
    {
      RowAppends(rows, e, cfg.ids(u));
    }
  }

  lemma StoredTraces(cfg: Config, sys: System, t: nat, log: V.Log, e: V.Evidence)
    requires DistinctIds(cfg) && Traced(cfg, sys) && At(sys, t, Live(Captured(e)))
    requires log.rows == sys.shared.evidence.rows + [e]
    ensures Traced(cfg, Put(sys.(shared := sys.shared.(evidence := log)), t, Dead(Stored)))
  {
    var events := sys.shared.recorder.log.events;
    MarksStay(cfg, sys.threads, t, Dead(Stored), S.Marked(events, ModelRequest), 2);
    MarksStay(cfg, sys.threads, t, Dead(Stored), S.Marked(events, ModelResponse), 4);
    RowsGain(cfg, sys.threads, t, Dead(Stored), sys.shared.evidence.rows, e);
  }

  /** The evidence row is stored. */
  lemma StoredKeeps(cfg: Config, sys: System, t: nat, log: V.Log)
    requires DistinctIds(cfg) && Inv(cfg, sys) && t < |sys.threads| && sys.threads[t].Live?
             && sys.threads[t].at.Captured?
    requires V.Agrees(log) && log.rows == sys.shared.evidence.rows + [sys.threads[t].at.e]
    ensures Inv(cfg, Put(sys.(shared := sys.shared.(evidence := log)), t, Dead(Stored)))
  {
    StoredCounts(cfg, sys, t, log);
    StoredTraces(cfg, sys, t, log, sys.threads[t].at.e);
  }

  lemma RepliedCounts(cfg: Config, sys: System, t: nat, recorder: L.Recorder, e: Event)
    requires Counted(cfg, sys) && At(sys, t, Dead(Stored)) && e.kind == ModelResponse
    requires recorder.log.events == sys.shared.recorder.log.events + [e]
    ensures Counted(cfg, Put(sys.(shared := sys.shared.(recorder := recorder)), t, Live(Answered)))
  {
    EventsAppend(sys.shared.recorder.log.events, e);
    LevelsMove(sys.threads, t, Live(Answered));
    PendingMove(sys.threads, t, Live(Answered));
  }

  lemma RepliedTraces(cfg: Config, sys: System, t: nat, recorder: L.Recorder, e: Event)
    requires DistinctIds(cfg) && Traced(cfg, sys) && At(sys, t, Dead(Stored))
    requires recorder.log.events == sys.shared.recorder.log.events + [e] && e.kind == ModelResponse
             && e.spanId == ThreadSpan(cfg, t)
    ensures Traced(cfg, Put(sys.(shared := sys.shared.(recorder := recorder)), t, Live(Answered)))
  {
    var events := sys.shared.recorder.log.events;
    EventsAppend(events, e);
    MarksStay(cfg, sys.threads, t, Live(Answered), S.Marked(events, ModelRequest), 2);
    MarksGain(cfg, sys.threads, t, Live(Answered), S.Marked(events, ModelResponse), 4);
    RowsStay(cfg, sys.threads, t, Live(Answered), sys.shared.evidence.rows);
  }

  lemma RepliedLogs(cfg: Config, sys: System, t: nat, recorder: L.Recorder, e: Event)
    requires Traced(cfg, sys) && Logs(sys) && At(sys, t, Dead(Stored)) && L.Numbered(recorder)
    requires recorder.log.events == sys.shared.recorder.log.events + [e] && e.kind == ModelResponse
             && e.spanId == ThreadSpan(cfg, t)
    ensures Logs(Put(sys.(shared := sys.shared.(recorder := recorder)), t, Live(Answered)))
  {
    EventsAppend(sys.shared.recorder.log.events, e);
  }

  /** The response event is recorded. */
  lemma RepliedKeeps(cfg: Config, sys: System, t: nat, recorder: L.Recorder, e: Event)
    requires DistinctIds(cfg) && Inv(cfg, sys) && At(sys, t, Dead(Stored)) && L.Numbered(recorder)
    requires recorder.log.events == sys.shared.recorder.log.events + [e] && e.kind == ModelResponse
             && e.spanId == ThreadSpan(cfg, t)
    ensures Inv(cfg, Put(sys.(shared := sys.shared.(recorder := recorder)), t, Live(Answered)))
  {
    RepliedCounts(cfg, sys, t, recorder, e);
    RepliedTraces(cfg, sys, t, recorder, e);
    RepliedLogs(cfg, sys, t, recorder, e);
  }

  /** A captured call has no row yet, so its row is written. */
  lemma RowIsNew(cfg: Config, sys: System, t: nat)
    requires Inv(cfg, sys) && t < |sys.threads| && sys.threads[t].Live? && sys.threads[t].at.Captured?
    ensures var e := sys.threads[t].at.e;
            var (log, r) := V.AppendTo(sys.shared.evidence, e);
            r == Ok(true) && V.Agrees(log) && log.rows == sys.shared.evidence.rows + [e]
  {
    var e := sys.threads[t].at.e;
    V.RebuildKeys(sys.shared.evidence.rows, e.request.id);
    V.AppendAgrees(sys.shared.evidence, e);
  }

  /** Answering a call is storing its row and then recording its response, when the recorder takes it. */
  lemma RespondInTwo(cfg: Config, sys: System, t: nat, stamp: Stamp, e: V.Evidence, log: V.Log)
    requires At(sys, t, Live(Captured(e))) && e.request.id == cfg.ids(t)
             && V.AppendTo(sys.shared.evidence, e) == (log, Ok(true))
    ensures var stored := Put(sys.(shared := sys.shared.(evidence := log)), t, Dead(Stored));
            var (recorder, result) :=
              L.EmitTo(sys.shared.recorder, cfg.who, ResponseDraft(cfg.ids(t), e.backend.status, stamp));
            Step(cfg, sys, Respond(t, stamp, true))
            == Put(stored.(shared := stored.shared.(recorder := recorder)), t,
                   if result.Ok? then Live(Answered) else Dead(Stored))
  {
    assert sys.threads[t := Dead(Stored)][t := Live(Answered)] == sys.threads[t := Live(Answered)];
    assert sys.threads[t := Dead(Stored)][t := Dead(Stored)] == sys.threads[t := Dead(Stored)];
  }

  lemma RespondKeeps(cfg: Config, sys: System, t: nat, stamp: Stamp)
    requires DistinctIds(cfg) && Inv(cfg, sys) && t < |sys.threads| && sys.threads[t].Live?
             && sys.threads[t].at.Captured?
    ensures Inv(cfg, Step(cfg, sys, Respond(t, stamp, true)))
  {
    var e := sys.threads[t].at.e;
    var log := V.AppendTo(sys.shared.evidence, e).0;
    RowIsNew(cfg, sys, t);
    StoredKeeps(cfg, sys, t, log);
    RespondInTwo(cfg, sys, t, stamp, e, log);
    var stored := Put(sys.(shared := sys.shared.(evidence := log)), t, Dead(Stored));
    RecordKeeps(cfg, stored, t, ResponseDraft(cfg.ids(t), e.backend.status, stamp));
  }

  lemma RecordKeeps(cfg: Config, sys: System, t: nat, d: L.Draft)
    requires DistinctIds(cfg) && Inv(cfg, sys) && At(sys, t, Dead(Stored)) && d.kind == ModelResponse
             && d.spanId == ThreadSpan(cfg, t)
    ensures var (recorder, result) := L.EmitTo(sys.shared.recorder, cfg.who, d);
            Inv(cfg, Put(sys.(shared := sys.shared.(recorder := recorder)), t,
                         if result.Ok? then Live(Answered) else Dead(Stored)))
  {
    var (recorder, result) := L.EmitTo(sys.shared.recorder, cfg.who, d);
    EmitAppends(sys.shared.recorder, cfg.who, d);
    if result.Ok? {
      RepliedKeeps(cfg, sys, t, recorder, L.Build(d, cfg.who, sys.shared.recorder.next));
    } else {
      assert sys.threads[t := Dead(Stored)] == sys.threads;
    }
  }

  lemma HookKeeps(cfg: Config, sys: System, t: nat, ok: bool)
    requires Inv(cfg, sys)
    ensures Inv(cfg, Step(cfg, sys, RunHook(t, ok)))
  {
    if At(sys, t, Live(Hooking)) {
      QuietMove(cfg, sys, t, if ok then Live(Building) else Dead(Building), sys.hooks + 1);
    }
  }

  lemma BuildKeeps(cfg: Config, sys: System, t: nat, ok: bool)
    requires Inv(cfg, sys)
    ensures Inv(cfg, Step(cfg, sys, BuildRequest(t, ok)))
  {
    if At(sys, t, Live(Building)) {
      QuietMove(cfg, sys, t, if ok then Live(Ready) else Dead(Building), sys.hooks);
    }
  }

  lemma UpstreamKeeps(cfg: Config, sys: System, t: nat, outcome: Option<V.Evidence>)
    requires Inv(cfg, sys)
    ensures Inv(cfg, Step(cfg, sys, Upstream(t, outcome)))
  {
    if At(sys, t, Live(Sent)) {
      match outcome
      case None => QuietMove(cfg, sys, t, Dead(Sent), sys.hooks);
      case Some(e) => QuietMove(cfg, sys, t, Live(Captured(e.(request := e.request.(id := cfg.ids(t))))), sys.hooks);
    }
  }

  lemma SendStepKeeps(cfg: Config, sys: System, t: nat, stamp: Stamp, io: bool)
    requires DistinctIds(cfg) && Inv(cfg, sys)
    ensures Inv(cfg, Step(cfg, sys, Send(t, stamp, io)))
  {
    if At(sys, t, Live(Ready)) {
      if io { SendKeeps(cfg, sys, t, stamp); } else { QuietMove(cfg, sys, t, Dead(Ready), sys.hooks); }
    }
  }

  lemma RespondStepKeeps(cfg: Config, sys: System, t: nat, stamp: Stamp, io: bool)
    requires DistinctIds(cfg) && Inv(cfg, sys)
    ensures Inv(cfg, Step(cfg, sys, Respond(t, stamp, io)))
  {
    if t < |sys.threads| && sys.threads[t].Live? && sys.threads[t].at.Captured? {
      if io { RespondKeeps(cfg, sys, t, stamp); } else { QuietMove(cfg, sys, t, Dead(sys.threads[t].at), sys.hooks); }
    }
  }

  /** The steps that record nothing of a call: an arrival, the first locked section, another producer's event. */
  lemma OutsideStepKeeps(cfg: Config, sys: System, a: Action)
    requires Inv(cfg, sys) && (a.Arrive? || a.Admit? || a.Other?)
    ensures Inv(cfg, Step(cfg, sys, a))
  {
    match a
    case Arrive(valid) => ArriveKeeps(cfg, sys, if valid then Waiting else Rejected);
    case Admit(t, hook, writable) => if At(sys, t, Waiting) { AdmitKeeps(cfg, sys, t, hook, writable); }
    case Other(d) => if d.kind != ModelRequest && d.kind != ModelResponse { OtherKeeps(cfg, sys, d); }
  }

  lemma StepKeeps(cfg: Config, sys: System, a: Action)
    requires DistinctIds(cfg) && Inv(cfg, sys)
    ensures Inv(cfg, Step(cfg, sys, a))
  {
    match a
    case RunHook(t, ok) => HookKeeps(cfg, sys, t, ok);
    case BuildRequest(t, ok) => BuildKeeps(cfg, sys, t, ok);
    case Send(t, stamp, io) => SendStepKeeps(cfg, sys, t, stamp, io);
    case Upstream(t, outcome) => UpstreamKeeps(cfg, sys, t, outcome);
    case Respond(t, stamp, io) => RespondStepKeeps(cfg, sys, t, stamp, io);
    case _ => OutsideStepKeeps(cfg, sys, a);
  }

  lemma {:induction false} RunKeeps(cfg: Config, actions: seq<Action>)
    requires DistinctIds(cfg)
    ensures Inv(cfg, Run(cfg, actions))
    decreases |actions|
  {
    if actions != [] {
      RunKeeps(cfg, actions[..|actions| - 1]);
      StepKeeps(cfg, Run(cfg, actions[..|actions| - 1]), actions[|actions| - 1]);
    }
  }

  // ---------------------------------------------------------------- what every run satisfies

  /**
   * Under every interleaving, and with failures anywhere: responses never outnumber evidence rows, rows never outnumber
   * recorded requests, requests never outnumber admitted calls, those stay within the budget, and the first-request
   * hook runs at most once.
   */
  lemma EveryInterleaving(cfg: Config, actions: seq<Action>)
    requires DistinctIds(cfg)
    ensures var sys := Run(cfg, actions);
            var events := sys.shared.recorder.log.events;
            && Total(events, ModelResponse) <= |sys.shared.evidence.rows| <= Total(events, ModelRequest)
            && Total(events, ModelRequest) <= sys.shared.callCount <= cfg.maxCalls
            && sys.hooks <= 1
  {
    RunKeeps(cfg, actions);
    var threads := Run(cfg, actions).threads;
    ReachedFalls(threads, 1, 2);
    ReachedFalls(threads, 2, 3);
    ReachedFalls(threads, 3, 4);
  }

  lemma {:induction false} AnsweringMeans(events: seq<Event>, j: nat)
    requires Answering(events) && j < |events| && events[j].kind == ModelResponse
    ensures exists i :: 0 <= i < j && events[i].kind == ModelRequest && events[i].spanId == events[j].spanId
  {
    var n := |events| - 1;
    if j < n {
      AnsweringMeans(events[..n], j);
      var i :| 0 <= i < j && events[..n][i].kind == ModelRequest && events[..n][i].spanId == events[..n][j].spanId;
      assert events[i] == events[..n][i];
    } else {
      S.MarkedMember(events[..n], ModelRequest, events[n].spanId);
      var i :| 0 <= i < |events[..n]| && events[..n][i].kind == ModelRequest
        && events[..n][i].spanId == events[n].spanId;
      assert events[i] == events[..n][i];
    }
  }

  lemma {:induction false} OnceMeans(events: seq<Event>, kind: EventType, i: nat, j: nat)
    requires Once(events, kind) && i < j < |events| && events[i].kind == events[j].kind == kind
    ensures events[i].spanId != events[j].spanId
  {
    var n := |events| - 1;
    if j < n {
      OnceMeans(events[..n], kind, i, j);
    } else {
      S.MarkedMember(events[..n], kind, events[n].spanId);
      assert events[..n][i] == events[i];
    }
  }

  /** Every response event has one earlier request event on its span, no other response, and its call's evidence row. */
  lemma ResponsesAreGrounded(cfg: Config, actions: seq<Action>, j: nat) returns (i: nat, t: nat)
    requires DistinctIds(cfg)
    requires var events := Run(cfg, actions).shared.recorder.log.events; j < |events| && events[j].kind == ModelResponse
    ensures var events, rows := Run(cfg, actions).shared.recorder.log.events, Run(cfg, actions).shared.evidence.rows;
            && i < j && events[i].kind == ModelRequest && events[i].spanId == events[j].spanId == ThreadSpan(cfg, t)
            && (forall k :: 0 <= k < |events| && k != j && events[k].kind == ModelResponse ==>
                events[k].spanId != events[j].spanId)
            && (forall k :: 0 <= k < |events| && k != i && events[k].kind == ModelRequest ==>
                events[k].spanId != events[i].spanId)
            && V.Stored(rows, cfg.ids(t))
  {
    RunKeeps(cfg, actions);
    var sys := Run(cfg, actions);
    var events := sys.shared.recorder.log.events;
    AnsweringMeans(events, j);
    i :| 0 <= i < j && events[i].kind == ModelRequest && events[i].spanId == events[j].spanId;
    forall k | 0 <= k < |events| && k != j && events[k].kind == ModelResponse
      ensures events[k].spanId != events[j].spanId
    {
      if k < j { OnceMeans(events, ModelResponse, k, j); } else { OnceMeans(events, ModelResponse, j, k); }
    }
    forall k | 0 <= k < |events| && k != i && events[k].kind == ModelRequest
      ensures events[k].spanId != events[i].spanId
    {
      if k < i { OnceMeans(events, ModelRequest, k, i); } else { OnceMeans(events, ModelRequest, i, k); }
    }
    S.MarkedMember(events, ModelRequest, events[i].spanId);
    t :| events[i].spanId == ThreadSpan(cfg, t);
    S.MarkedMember(events, ModelResponse, events[j].spanId);
  }

  /**
   * The model spans of the episode are closed, as the assembler asks for COMPLETE, exactly when no call stopped between
   * its recorded request and its recorded response.
   */
  lemma ClosedIffAllAnswered(cfg: Config, actions: seq<Action>)
    requires DistinctIds(cfg)
    ensures var sys := Run(cfg, actions);
            Episodes.Closed(sys.shared.recorder.log.events, ModelRequest, ModelResponse) <==>
            forall t :: 0 <= t < |sys.threads| && Rank(sys.threads[t]) >= 2 ==> Rank(sys.threads[t]) == 4
  {
    RunKeeps(cfg, actions);
    var sys := Run(cfg, actions);
    var events := sys.shared.recorder.log.events;
    var asked, answered := S.Marked(events, ModelRequest), S.Marked(events, ModelResponse);
    ClosedByMarks(events);
    if asked <= answered {
      forall t | 0 <= t < |sys.threads| && Rank(sys.threads[t]) >= 2 ensures Rank(sys.threads[t]) == 4 {
        assert ThreadSpan(cfg, t) in asked;
        assert ThreadSpan(cfg, t) in answered;
      }
    }
    if forall t :: 0 <= t < |sys.threads| && Rank(sys.threads[t]) >= 2 ==> Rank(sys.threads[t]) == 4 {
      forall span | span in asked ensures span in answered {
        var t: nat :| span == ThreadSpan(cfg, t);
      }
    }
  }

  lemma ClosedByMarks(events: seq<Event>)
    ensures Episodes.Closed(events, ModelRequest, ModelResponse) <==>
            S.Marked(events, ModelRequest) <= S.Marked(events, ModelResponse)
  {
    S.MarkedAre(events, ModelRequest);
    S.MarkedAre(events, ModelResponse);
    Episodes.ClosedIff(events, ModelRequest, ModelResponse);
    SubsetIffNoRest(Episodes.SpansOf(events, ModelRequest), Episodes.SpansOf(events, ModelResponse));
  }

  lemma SubsetIffNoRest(a: set<string>, b: set<string>)
    ensures a <= b <==> a - b == {}
  {
    if a - b == {} {
      forall x | x in a ensures x in b {
        assert x !in a - b;
      }
    }
  }

  // ---------------------------------------------------------------- calls that ended

  /** An event of this kind is on the span. */
  ghost predicate Recorded(events: seq<Event>, kind: EventType, span: string) {
    exists k :: 0 <= k < |events| && events[k].kind == kind && events[k].spanId == span
  }

  /** Nothing of the call was recorded: no request, no response, no evidence row. */
  ghost predicate NoTrace(cfg: Config, sys: System, t: nat) {
    && !Recorded(sys.shared.recorder.log.events, ModelRequest, ThreadSpan(cfg, t))
    && !Recorded(sys.shared.recorder.log.events, ModelResponse, ThreadSpan(cfg, t))
    && !V.Stored(sys.shared.evidence.rows, cfg.ids(t))
  }

  predicate Ended(p: Phase) {
    p.Rejected? || p.ClosedOut? || p.Dead? || p == Live(Answered)
  }

  lemma StepLeavesEnded(cfg: Config, sys: System, a: Action, t: nat)
    requires t < |sys.threads| && Ended(sys.threads[t])
    ensures t < |Step(cfg, sys, a).threads| && Step(cfg, sys, a).threads[t] == sys.threads[t]
  {
  }

  /** A call that ended stays as it ended. */
  lemma {:induction false} EndedStaysEnded(cfg: Config, actions: seq<Action>, more: seq<Action>, t: nat)
    requires t < |Run(cfg, actions).threads| && Ended(Run(cfg, actions).threads[t])
    ensures t < |Run(cfg, actions + more).threads|
    ensures Run(cfg, actions + more).threads[t] == Run(cfg, actions).threads[t]
    decreases |more|
  {
    if more == [] {
      assert actions + more == actions;
    } else {
      var n := |more| - 1;
      EndedStaysEnded(cfg, actions, more[..n], t);
      assert (actions + more)[..|actions + more| - 1] == actions + more[..n];
      StepLeavesEnded(cfg, Run(cfg, actions + more[..n]), more[n], t);
    }
  }

  /**
   * A call that the closeout path answered adds no event and no evidence row, in that run and in every continuation:
   * its span carries no request and no response, and no row has its request id.
   */
  lemma ClosedOutLeavesNoTrace(cfg: Config, actions: seq<Action>, more: seq<Action>, t: nat)
    requires DistinctIds(cfg)
    requires t < |Run(cfg, actions).threads| && Run(cfg, actions).threads[t].ClosedOut?
    ensures NoTrace(cfg, Run(cfg, actions + more), t)
  {
    EndedStaysEnded(cfg, actions, more, t);
    RunKeeps(cfg, actions + more);
    var events := Run(cfg, actions + more).shared.recorder.log.events;
    S.MarkedMember(events, ModelRequest, ThreadSpan(cfg, t));
    S.MarkedMember(events, ModelResponse, ThreadSpan(cfg, t));
  }

  /**
   * A call that stopped after its request, because the upstream exchange or the handling of the reply raised, keeps its
   * request and never gets a response or a row, however the run goes on; so the model spans stay unclosed.
   */
  lemma StoppedCallStaysOpen(cfg: Config, actions: seq<Action>, more: seq<Action>, t: nat)
    requires DistinctIds(cfg)
    requires t < |Run(cfg, actions).threads| && Run(cfg, actions).threads[t] == Dead(Sent)
    ensures var sys := Run(cfg, actions + more);
            var events := sys.shared.recorder.log.events;
            && Recorded(events, ModelRequest, ThreadSpan(cfg, t))
            && !Recorded(events, ModelResponse, ThreadSpan(cfg, t))
            && !V.Stored(sys.shared.evidence.rows, cfg.ids(t))
            && !Episodes.Closed(events, ModelRequest, ModelResponse)
  {
    EndedStaysEnded(cfg, actions, more, t);
    RunKeeps(cfg, actions + more);
    var sys := Run(cfg, actions + more);
    var events := sys.shared.recorder.log.events;
    S.MarkedMember(events, ModelRequest, ThreadSpan(cfg, t));
    S.MarkedMember(events, ModelResponse, ThreadSpan(cfg, t));
    ClosedIffAllAnswered(cfg, actions + more);
    assert Rank(sys.threads[t]) == 2;
  }

  lemma StepCalls(cfg: Config, sys: System, a: Action)
    ensures sys.shared.callCount <= Step(cfg, sys, a).shared.callCount
    ensures sys.shared.callCount >= cfg.maxCalls ==> Step(cfg, sys, a).shared.callCount == sys.shared.callCount
  {
  }

  /** A spent budget stays spent: whatever happens afterwards, no further call is admitted. */
  lemma {:induction false} SpentStaysSpent(cfg: Config, actions: seq<Action>, more: seq<Action>)
    requires DistinctIds(cfg) && Run(cfg, actions).shared.callCount >= cfg.maxCalls
    ensures Run(cfg, actions + more).shared.callCount == cfg.maxCalls
    ensures Total(Run(cfg, actions + more).shared.recorder.log.events, ModelRequest) <= cfg.maxCalls
    decreases |more|
  {
    EveryInterleaving(cfg, actions + more);
    if more == [] {
      assert actions + more == actions;
      EveryInterleaving(cfg, actions);
    } else {
      var n := |more| - 1;
      SpentStaysSpent(cfg, actions, more[..n]);
      assert (actions + more)[..|actions + more| - 1] == actions + more[..n];
      StepCalls(cfg, Run(cfg, actions + more[..n]), more[n]);
    }
  }
}
