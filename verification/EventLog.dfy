/**
 * The append-only event log: `EventWriter` with its in-memory index, and `TraceRecorder`, which numbers the
 * events of one producer. Checksums are taken as injective, so equal checksums are equal events.
 */
module EventLog {
  import opened Options
  import opened Json
  import opened Ordering
  import opened Trace
  import H = LogHistories

  /** The bytes on disk, one entry a line; a blank line is skipped by every reader. */
  datatype Line = Line(event: Event) | Malformed | Blank

  class LogFile {
    var lines: seq<Line>

    constructor ()
      ensures lines == []
    {
      lines := [];
    }
  }

  datatype LogError = MalformedLog | ConflictingLog | Conflict | InvalidEvent

  datatype AppendResult = AppendResult(appended: bool, event: Event, lineNumber: nat)

  // ---------------------------------------------------------------- the specification

  type Index = map<string, (Event, nat)>

  /** The index a fresh reader builds: each id's first event and the number of its line. */
  function Rebuild(events: seq<Event>): Index {
    if events == [] then map[]
    else
      var front, last := Rebuild(events[..|events| - 1]), events[|events| - 1];
      if last.eventId in front then front else front[last.eventId := (last, |events|)]
  }

  ghost predicate UniqueIds(events: seq<Event>) {
    forall i, j :: 0 <= i < j < |events| ==> events[i].eventId != events[j].eventId
  }

  ghost predicate Consistent(events: seq<Event>) {
    forall i, j :: 0 <= i < j < |events| && events[i].eventId == events[j].eventId ==> events[i] == events[j]
  }

  /** A log file and the index of the writer that has it open. */
  datatype Log = Log(events: seq<Event>, index: Index)

  ghost predicate Agrees(log: Log) {
    UniqueIds(log.events) && log.index == Rebuild(log.events)
  }

  /** `EventWriter.append`: the new log, and what the caller gets. */
  function AppendTo(log: Log, e: Event): (Log, Result<AppendResult, LogError>) {
    if e.eventId in log.index then
      var (prior, line) := log.index[e.eventId];
      (log, if prior == e then Ok(AppendResult(false, e, line)) else Err(Conflict))
    else
      var line := |log.index| + 1;
      (Log(log.events + [e], log.index[e.eventId := (e, line)]), Ok(AppendResult(true, e, line)))
  }

  ghost predicate Logged(events: seq<Event>, id: string) {
    exists i :: 0 <= i < |events| && events[i].eventId == id
  }

  lemma {:induction false} RebuildKeys(events: seq<Event>, id: string)
    ensures id in Rebuild(events) <==> Logged(events, id)
  {
    if events != [] {
      var n := |events| - 1;
      var front := events[..n];
      RebuildKeys(front, id);
      if Logged(front, id) {
        var i :| 0 <= i < |front| && front[i].eventId == id;
        assert events[i].eventId == id;
      } else if Logged(events, id) {
        var i :| 0 <= i < |events| && events[i].eventId == id;
        assert forall j :: 0 <= j < n ==> front[j] == events[j];
        assert i == n;
      }
    }
  }

  lemma {:induction false} RebuildFinds(events: seq<Event>)
    requires UniqueIds(events)
    ensures |Rebuild(events)| == |events|
    ensures forall i :: 0 <= i < |events| ==>
              events[i].eventId in Rebuild(events) && Rebuild(events)[events[i].eventId] == (events[i], i + 1)
  {
    if events != [] {
      var n := |events| - 1;
      var front := events[..n];
      assert forall i :: 0 <= i < n ==> front[i] == events[i];
      RebuildFinds(front);
      RebuildKeys(front, events[n].eventId);
    }
  }

  /** Appending keeps the index equal to the rebuilt one and every id unique; the reported line is the real one. */
  lemma AppendAgrees(log: Log, e: Event)
    requires Agrees(log)
    ensures Agrees(AppendTo(log, e).0)
    ensures match AppendTo(log, e).1
            case Ok(r) => && 0 < r.lineNumber <= |AppendTo(log, e).0.events|
                          && AppendTo(log, e).0.events[r.lineNumber - 1] == e
                          && r.appended == (|AppendTo(log, e).0.events| == |log.events| + 1)
            case Err(_) =>
              && AppendTo(log, e).0 == log
              && exists i :: 0 <= i < |log.events| && log.events[i].eventId == e.eventId && log.events[i] != e
  {
    RebuildFinds(log.events);
    RebuildKeys(log.events, e.eventId);
    if e.eventId in log.index {
      var i :| 0 <= i < |log.events| && log.events[i].eventId == e.eventId;
    } else {
      assert (log.events + [e])[..|log.events|] == log.events;
    }
  }

  // ---------------------------------------------------------------- histories of a log

  /**
   * What can happen to a log: an append, a restart of the writer, a crash between the write and the index update, or an
   * append that raises after its line is on disk, as a failing sync does, while the writer lives on.
   */
  datatype Op = AppendOp(e: Event) | Reopen | CrashAfterWrite(e: Event) | RaiseAfterWrite(e: Event)

  function Apply(log: Log, op: Op): Log {
    match op
    case AppendOp(e) => AppendTo(log, e).0
    case Reopen => Log(log.events, Rebuild(log.events))
    case CrashAfterWrite(e) =>
      var written := AppendTo(log, e).0.events;
      Log(written, Rebuild(written))
    case RaiseAfterWrite(e) => Log(AppendTo(log, e).0.events, log.index)
  }

  function ApplyAll(log: Log, ops: seq<Op>): Log
    decreases |ops|
  {
    if ops == [] then log else Apply(ApplyAll(log, ops[..|ops| - 1]), ops[|ops| - 1])
  }

  const EMPTY := Log([], map[])

  /** The operation as far as its id goes. */
  function IdOp(op: Op): H.Op {
    match op
    case AppendOp(e) => H.Append(e.eventId)
    case Reopen => H.Reopen
    case CrashAfterWrite(e) => H.Crash(e.eventId)
    case RaiseAfterWrite(e) => H.Raise(e.eventId)
  }

  function IdOps(ops: seq<Op>): seq<H.Op> {
    if ops == [] then [] else IdOps(ops[..|ops| - 1]) + [IdOp(ops[|ops| - 1])]
  }

  function IdsOf(events: seq<Event>): (ids: seq<string>)
    ensures |ids| == |events| && forall i :: 0 <= i < |ids| ==> ids[i] == events[i].eventId
  {
    seq(|events|, i requires 0 <= i < |events| => events[i].eventId)
  }

  /** The log as far as its ids go. */
  function Projected(log: Log): H.Ids {
    H.Ids(IdsOf(log.events), log.index.Keys)
  }

  lemma RebuiltKeys(events: seq<Event>)
    ensures Rebuild(events).Keys == H.Members(IdsOf(events))
  {
    forall id ensures id in Rebuild(events) <==> id in IdsOf(events) {
      RebuildKeys(events, id);
      if id in IdsOf(events) {
        var i :| 0 <= i < |events| && IdsOf(events)[i] == id;
        assert events[i].eventId == id;
      }
      if i :| 0 <= i < |events| && events[i].eventId == id { assert IdsOf(events)[i] == id; }
    }
  }

  /** What an append does to the ids on disk and in the index. */
  lemma AppendProjects(log: Log, e: Event)
    ensures IdsOf(AppendTo(log, e).0.events) == H.Wrote(Projected(log), e.eventId)
    ensures AppendTo(log, e).0.index.Keys == log.index.Keys + {e.eventId}
  {
    if e.eventId !in log.index {
      assert IdsOf(log.events + [e]) == IdsOf(log.events) + [e.eventId];
    }
  }

  lemma StepProjects(log: Log, op: Op)
    ensures Projected(Apply(log, op)) == H.After(Projected(log), IdOp(op))
  {
    if op.Reopen? {
      RebuiltKeys(log.events);
    } else {
      AppendProjects(log, op.e);
      RebuiltKeys(AppendTo(log, op.e).0.events);
    }
  }

  lemma {:induction false} HistoryProjects(ops: seq<Op>)
    ensures Projected(ApplyAll(EMPTY, ops)) == H.AfterAll(IdOps(ops))
    decreases |ops|
  {
    if ops == [] {
      assert IdsOf([]) == [];
    } else {
      var n := |ops| - 1;
      HistoryProjects(ops[..n]);
      StepProjects(ApplyAll(EMPTY, ops[..n]), ops[n]);
      H.AfterMore(IdOps(ops[..n]), IdOp(ops[n]));
    }
  }

  lemma UniqueIffNoDup(events: seq<Event>)
    ensures UniqueIds(events) <==> NoDup(IdsOf(events))
  {
    if NoDup(IdsOf(events)) {
      forall i, j | 0 <= i < j < |events| ensures events[i].eventId != events[j].eventId {
        assert IdsOf(events)[i] != IdsOf(events)[j];
      }
    }
  }

  lemma StepAgrees(log: Log, op: Op)
    requires Agrees(log) && (op.AppendOp? || (op.RaiseAfterWrite? && op.e.eventId in IdsOf(log.events)))
    ensures Agrees(Apply(log, op))
  {
    if op.AppendOp? { AppendAgrees(log, op.e); } else { RebuiltKeys(log.events); }
  }

  lemma OpenAgrees(log: Log, op: Op)
    requires (op.Reopen? || op.CrashAfterWrite?) && UniqueIds(Apply(log, op).events)
    ensures Agrees(Apply(log, op))
  {
  }

  lemma {:induction false} AgreesWhenClean(ops: seq<Op>)
    requires !H.Behind(IdOps(ops)) && !H.Retried(IdOps(ops))
    ensures Agrees(ApplyAll(EMPTY, ops))
    decreases |ops|
  {
    if ops != [] {
      var front, last := ops[..|ops| - 1], ops[|ops| - 1];
      if last.AppendOp? || last.RaiseAfterWrite? {
        H.PrefixIsClean(IdOps(front), IdOp(last));
        AgreesWhenClean(front);
        HistoryProjects(front);
        H.HistoryDescribes(IdOps(front));
        StepAgrees(ApplyAll(EMPTY, front), last);
      } else {
        HistoryProjects(ops);
        H.HistoryDescribes(IdOps(ops));
        UniqueIffNoDup(ApplyAll(EMPTY, ops).events);
        OpenAgrees(ApplyAll(EMPTY, front), last);
      }
    }
  }

  /**
   * Over every history of appends, rejected appends, restarts, crashes and appends that raise after writing: the index
   * is the one a fresh reader would build and ids are unique, exactly when no first append of an id raised after
   * writing since the last restart, and none that ever did was followed by another append of that id before a restart.
   */
  lemma EveryHistoryAgrees(ops: seq<Op>)
    ensures Agrees(ApplyAll(EMPTY, ops)) <==> !H.Behind(IdOps(ops)) && !H.Retried(IdOps(ops))
  {
    var log := ApplyAll(EMPTY, ops);
    HistoryProjects(ops);
    H.CompleteIff(IdOps(ops));
    UniqueIffNoDup(log.events);
    RebuiltKeys(log.events);
    if !H.Behind(IdOps(ops)) && !H.Retried(IdOps(ops)) {
      AgreesWhenClean(ops);
    }
  }

  /**
   * One raising append leaves the index behind; tried again, it leaves the id on disk twice, and a restart does not
   * help.
   */
  lemma RaisingAppendDisagrees(e: Event)
    ensures H.Behind(IdOps([RaiseAfterWrite(e)])) && !Agrees(ApplyAll(EMPTY, [RaiseAfterWrite(e)]))
    ensures var ops := [RaiseAfterWrite(e), AppendOp(e), Reopen];
            H.Retried(IdOps(ops)) && !Agrees(ApplyAll(EMPTY, ops))
  {
    var one, two, three :=
      [RaiseAfterWrite(e)], [RaiseAfterWrite(e), AppendOp(e)], [RaiseAfterWrite(e), AppendOp(e), Reopen];
    assert one[..0] == [] && two[..1] == one && three[..2] == two;
    assert IdOps(one) == [H.Raise(e.eventId)];
    assert IdOps(three) == [H.Raise(e.eventId), H.Append(e.eventId), H.Reopen];
    assert H.RaisesFirst(IdOps(one), 0) && H.NoRestart(IdOps(one), 0, 1);
    assert H.RetriedAt(IdOps(three), 0, 1);
    EveryHistoryAgrees(one);
    EveryHistoryAgrees(three);
  }

  // ---------------------------------------------------------------- the writer

  class EventWriter {
    const file: LogFile
    var index: Index

    ghost function State(): Log
      reads this, file
    {
      Log(EventsOf(file.lines), index)
    }

    ghost predicate Valid()
      reads this, file
    {
      Malformed !in file.lines && Agrees(State())
    }

    constructor Over(file: LogFile, index: Index)
      ensures this.file == file && this.index == index
    {
      this.file := file;
      this.index := index;
    }

    method Append(e: Event) returns (r: Result<AppendResult, LogError>)
      requires Valid()
      modifies this, file
      ensures Valid()
      ensures (State(), r) == AppendTo(old(State()), e)
    {
      AppendKeeps(State(), file.lines, e);
      if e.eventId in index {
        var (prior, line) := index[e.eventId];
        if prior != e {
          return Err(Conflict);
        }
        return Ok(AppendResult(false, e, line));
      }
      var lineNumber := |index| + 1;
      file.lines := file.lines + [Line(e)];
      index := index[e.eventId := (e, lineNumber)];
      return Ok(AppendResult(true, e, lineNumber));
    }
  }

  function EventsOf(lines: seq<Line>): seq<Event> {
    if lines == [] then []
    else EventsOf(lines[..|lines| - 1]) + (match lines[|lines| - 1] { case Line(e) => [e] case _ => [] })
  }

  lemma EventsAppend(lines: seq<Line>, e: Event)
    ensures EventsOf(lines + [Line(e)]) == EventsOf(lines) + [e]
  {
    assert (lines + [Line(e)])[..|lines|] == lines;
  }

  /** The log after the append, and the file after its line. */
  lemma AppendKeeps(log: Log, lines: seq<Line>, e: Event)
    requires Agrees(log)
    ensures Agrees(AppendTo(log, e).0)
    ensures EventsOf(lines + [Line(e)]) == EventsOf(lines) + [e]
    ensures Malformed in lines + [Line(e)] <==> Malformed in lines
  {
    AppendAgrees(log, e);
    EventsAppend(lines, e);
  }

  /** `EventJsonlReader.read`: good lines are parsed whatever their neighbours are, blank lines are skipped. */
  method Read(lines: seq<Line>) returns (events: seq<Event>, issues: seq<nat>)
    ensures events == EventsOf(lines)
    ensures forall n :: n in issues <==> 0 < n <= |lines| && lines[n - 1].Malformed?
    ensures forall i, j :: 0 <= i < j < |issues| ==> issues[i] < issues[j]
  {
    events, issues := [], [];
    for n := 0 to |lines|
      invariant events == EventsOf(lines[..n])
      invariant forall m :: m in issues <==> 0 < m <= n && lines[m - 1].Malformed?
      invariant forall i, j :: 0 <= i < j < |issues| ==> issues[i] < issues[j]
    {
      assert lines[..n + 1][..n] == lines[..n];
      assert forall i :: 0 <= i < |issues| ==> issues[i] in issues;
      match lines[n]
      case Line(e) => events := events + [e];
      case Malformed => issues := issues + [n + 1];
      case Blank =>
    }
    assert lines[..|lines|] == lines;
  }

  /** The indexing loop of the writer's constructor. */
  method IndexEvents(events: seq<Event>) returns (r: Result<Index, LogError>)
    ensures r == if Consistent(events) then Ok(Rebuild(events)) else Err(ConflictingLog)
  {
    var index: Index := map[];
    for n := 0 to |events|
      invariant index == Rebuild(events[..n])
      invariant Consistent(events[..n])
    {
      var e := events[n];
      IndexedConsistently(events, n);
      if e.eventId in index && index[e.eventId].0 != e {
        return Err(ConflictingLog);
      }
      if e.eventId !in index {
        index := index[e.eventId := (e, n + 1)];
      }
      assert events[..n + 1][..n] == events[..n];
    }
    assert events[..|events|] == events;
    return Ok(index);
  }

  /** The constructor of `EventWriter`: refuse a log with malformed lines or two contents for an id, else index it. */
  method Open(file: LogFile) returns (r: Result<EventWriter, LogError>)
    ensures r == Err(MalformedLog) <==> Malformed in file.lines
    ensures r == Err(ConflictingLog) <==> Malformed !in file.lines && !Consistent(EventsOf(file.lines))
    ensures r.Ok? <==> Malformed !in file.lines && Consistent(EventsOf(file.lines))
    ensures r.Ok? ==> fresh(r.value) && r.value.file == file && r.value.index == Rebuild(EventsOf(file.lines))
    ensures r.Ok? ==> (r.value.Valid() <==> UniqueIds(EventsOf(file.lines)))
  {
    var events, issues := Read(file.lines);
    if issues != [] {
      assert issues[0] in issues;
      return Err(MalformedLog);
    }
    assert forall i :: 0 <= i < |file.lines| && file.lines[i].Malformed? ==> i + 1 in issues;
    var index := IndexEvents(events);
    if index.Err? {
      return Err(ConflictingLog);
    }
    var writer := new EventWriter.Over(file, index.value);
    return Ok(writer);
  }

  lemma {:induction false} FirstOfId(events: seq<Event>, id: string)
    requires id in Rebuild(events)
    ensures exists i :: 0 <= i < |events| && events[i].eventId == id && events[i] == Rebuild(events)[id].0
  {
    var front := events[..|events| - 1];
    if id in Rebuild(front) {
      FirstOfId(front, id);
      var i :| 0 <= i < |front| && front[i].eventId == id && front[i] == Rebuild(front)[id].0;
      assert events[i] == front[i];
    }
  }

  lemma IndexedConsistently(events: seq<Event>, n: nat)
    requires n < |events| && Consistent(events[..n])
    ensures var index, e := Rebuild(events[..n]), events[n];
            Consistent(events[..n + 1]) <==> (e.eventId in index ==> index[e.eventId].0 == e)
    ensures !Consistent(events[..n + 1]) ==> !Consistent(events)
  {
    var front, next := events[..n], events[..n + 1];
    var id := events[n].eventId;
    assert next == front + [events[n]];
    RebuildKeys(front, id);
    if id in Rebuild(front) {
      FirstOfId(front, id);
      var i :| 0 <= i < |front| && front[i].eventId == id && front[i] == Rebuild(front)[id].0;
      assert next[i] == front[i] == events[i] && next[n] == events[n];
      SameIdSameEvent(front, i);
    } else {
      assert forall i :: 0 <= i < n ==> front[i].eventId != id;
    }
  }

  lemma SameIdSameEvent(events: seq<Event>, i: nat)
    requires Consistent(events) && i < |events|
    ensures forall j :: 0 <= j < |events| && events[j].eventId == events[i].eventId ==> events[j] == events[i]
  {
  }

  // ---------------------------------------------------------------- the recorder

  /** What a producer hands to `emit`; the recorder adds its identity and the sequence number. */
  datatype Draft = Draft(
    eventId: string, spanId: string, parent: Option<string>, timestamp: int,
    kind: EventType, status: Status, attributes: Fields, artifactRefs: seq<string>)

  datatype Identity = Identity(runId: string, episodeId: string, secret: string -> bool)

  function Build(d: Draft, who: Identity, sequence: nat): Event {
    Event(d.eventId, who.runId, who.episodeId, d.spanId, d.parent, sequence, d.timestamp,
          d.kind, d.status, RedactFields(d.attributes, who.secret), d.artifactRefs)
  }

  datatype Recorder = Recorder(log: Log, next: nat)

  /** `TraceRecorder.emit`: the cursor advances only when the writer accepted the event, new or replayed. */
  function EmitTo(r: Recorder, who: Identity, d: Draft): (Recorder, Result<Event, LogError>) {
    var e := Build(d, who, r.next);
    if !ValidEvent(e) then (r, Err(InvalidEvent))
    else match AppendTo(r.log, e)
      case (log, Ok(_)) => (Recorder(log, r.next + 1), Ok(e))
      case (_, Err(error)) => (r, Err(error))
  }

  class TraceRecorder {
    const writer: EventWriter
    const who: Identity
    var next: nat

    ghost predicate Valid()
      reads this, writer, writer.file
    {
      writer.Valid()
    }

    ghost function State(): Recorder
      reads this, writer, writer.file
      requires Valid()
    {
      Recorder(writer.State(), next)
    }

    constructor (writer: EventWriter, who: Identity, initialSequence: nat)
      ensures this.writer == writer && this.who == who && next == initialSequence
    {
      this.writer := writer;
      this.who := who;
      next := initialSequence;
    }

    method Emit(d: Draft) returns (r: Result<Event, LogError>)
      requires Valid()
      modifies this, writer, writer.file
      ensures Valid()
      ensures (State(), r) == EmitTo(old(State()), who, d)
    {
      var e := Build(d, who, next);
      if !ValidEvent(e) {
        return Err(InvalidEvent);
      }
      var appended := writer.Append(e);
      if appended.Err? {
        return Err(appended.error);
      }
      next := next + 1;
      return Ok(e);
    }
  }

  function EmitAll(r: Recorder, who: Identity, drafts: seq<Draft>): Recorder
    decreases |drafts|
  {
    if drafts == [] then r else EmitTo(EmitAll(r, who, drafts[..|drafts| - 1]), who, drafts[|drafts| - 1]).0
  }

  ghost predicate Numbered(r: Recorder) {
    && Agrees(r.log)
    && r.next == |r.log.events|
    && forall k :: 0 <= k < |r.log.events| ==> r.log.events[k].sequence == k
  }

  /** A single recorder's k-th logged event has sequence k, also when some emits were refused and wrote nothing. */
  lemma {:induction false} RecorderNumbersItsLog(who: Identity, drafts: seq<Draft>)
    ensures Numbered(EmitAll(Recorder(EMPTY, 0), who, drafts))
    decreases |drafts|
  {
    if drafts != [] {
      RecorderNumbersItsLog(who, drafts[..|drafts| - 1]);
      var r := EmitAll(Recorder(EMPTY, 0), who, drafts[..|drafts| - 1]);
      var e := Build(drafts[|drafts| - 1], who, r.next);
      AppendAgrees(r.log, e);
      RebuildKeys(r.log.events, e.eventId);
      RebuildFinds(r.log.events);
    }
  }

  // ---------------------------------------------------------------- emits that raise after writing

  /** One emit; `raises` says that its append raises after the line is on disk. */
  datatype Emission = Emission(d: Draft, raises: bool)

  predicate Writes(r: Recorder, who: Identity, x: Emission) {
    ValidEvent(Build(x.d, who, r.next)) && x.d.eventId !in r.log.index
  }

  /** When the append raises, neither the index nor the cursor moves, but the line is there. */
  function EmitOrRaise(r: Recorder, who: Identity, x: Emission): Recorder {
    if x.raises && Writes(r, who, x) then r.(log := Apply(r.log, RaiseAfterWrite(Build(x.d, who, r.next))))
    else EmitTo(r, who, x.d).0
  }

  function EmitEach(who: Identity, xs: seq<Emission>): Recorder
    decreases |xs|
  {
    if xs == [] then Recorder(EMPTY, 0) else EmitOrRaise(EmitEach(who, xs[..|xs| - 1]), who, xs[|xs| - 1])
  }

  /** Some emit raised after writing its line. */
  predicate Raised(who: Identity, xs: seq<Emission>)
    decreases |xs|
  {
    xs != [] &&
      var front, last := xs[..|xs| - 1], xs[|xs| - 1];
      Raised(who, front) || (last.raises && Writes(EmitEach(who, front), who, last))
  }

  /** Some line was written after an emit had raised. */
  predicate WroteAfterRaise(who: Identity, xs: seq<Emission>)
    decreases |xs|
  {
    xs != [] &&
      var front, last := xs[..|xs| - 1], xs[|xs| - 1];
      WroteAfterRaise(who, front) || (Raised(who, front) && Writes(EmitEach(who, front), who, last))
  }

  ghost predicate SharedNumber(events: seq<Event>) {
    exists i, j :: 0 <= i < j < |events| && events[i].sequence == events[j].sequence
  }

  ghost predicate AtPositions(events: seq<Event>) {
    forall k :: 0 <= k < |events| ==> events[k].sequence == k
  }

  /** Every indexed event was accepted before the cursor got where it is. */
  ghost predicate CursorCounts(r: Recorder) {
    r.next == |r.log.index| && forall id :: id in r.log.index ==> r.log.index[id].0.sequence < r.next
  }

  /** Where a session stands: before any raise, after one with nothing written since, or with a number used twice. */
  ghost predicate Stands(r: Recorder, raised: bool, reused: bool) {
    && CursorCounts(r)
    && (raised ==> |r.log.index| < |r.log.events|)
    && (!raised ==> Numbered(r) && !reused)
    && (raised && !reused ==> |r.log.events| == r.next + 1 && AtPositions(r.log.events))
    && (reused ==> raised && SharedNumber(r.log.events))
  }

  lemma RefusedChangesNothing(r: Recorder, who: Identity, x: Emission)
    requires CursorCounts(r) && !Writes(r, who, x)
    ensures EmitOrRaise(r, who, x) == r
  {
  }

  lemma SharedStays(events: seq<Event>, e: Event)
    requires SharedNumber(events) || (events != [] && events[|events| - 1].sequence == e.sequence)
    ensures SharedNumber(events + [e])
  {
    var all := events + [e];
    if SharedNumber(events) {
      var i, j :| 0 <= i < j < |events| && events[i].sequence == events[j].sequence;
      assert all[i].sequence == all[j].sequence;
    } else {
      assert all[|events| - 1].sequence == all[|events|].sequence;
    }
  }

  /** A line written while the index is complete: the next event in place, or the one that leaves the index behind. */
  lemma FirstWrite(r: Recorder, who: Identity, x: Emission)
    requires Stands(r, false, false) && Writes(r, who, x)
    ensures Stands(EmitOrRaise(r, who, x), x.raises, false)
  {
    var e := Build(x.d, who, r.next);
    AppendAgrees(r.log, e);
    RebuildFinds(r.log.events);
  }

  /** A line written after a raise takes a number that is on disk already. */
  lemma LaterWrite(r: Recorder, who: Identity, x: Emission, reused: bool)
    requires Stands(r, true, reused) && Writes(r, who, x)
    ensures Stands(EmitOrRaise(r, who, x), true, true)
  {
    SharedStays(r.log.events, Build(x.d, who, r.next));
  }

  lemma {:induction false} SessionStands(who: Identity, xs: seq<Emission>)
    ensures Stands(EmitEach(who, xs), Raised(who, xs), WroteAfterRaise(who, xs))
    decreases |xs|
  {
    if xs != [] {
      var front, last := xs[..|xs| - 1], xs[|xs| - 1];
      SessionStands(who, front);
      var r := EmitEach(who, front);
      if !Writes(r, who, last) {
        RefusedChangesNothing(r, who, last);
      } else if Raised(who, front) {
        LaterWrite(r, who, last, WroteAfterRaise(who, front));
      } else {
        FirstWrite(r, who, last);
      }
    }
  }

  /**
   * A recorder with a new log, whose emits may be refused or raise after writing: its k-th event has sequence k and its
   * index is complete exactly when no emit raised after writing; and two events share a sequence number exactly when a
   * line was written after such a raise, since the cursor had stayed behind.
   */
  lemma RecorderNumbersIff(who: Identity, xs: seq<Emission>)
    ensures Numbered(EmitEach(who, xs)) <==> !Raised(who, xs)
    ensures SharedNumber(EmitEach(who, xs).log.events) <==> WroteAfterRaise(who, xs)
  {
    SessionStands(who, xs);
    var r := EmitEach(who, xs);
    if Numbered(r) { RebuildFinds(r.log.events); }
  }

  // ---------------------------------------------------------------- crash and resume

  /** A deterministic producer: its drafts have distinct ids and build valid events. */
  ghost predicate Script(drafts: seq<Draft>, who: Identity) {
    && (forall i, j :: 0 <= i < j < |drafts| ==> drafts[i].eventId != drafts[j].eventId)
    && (forall i :: 0 <= i < |drafts| ==> ValidEvent(Build(drafts[i], who, i)))
  }

  /** What an uninterrupted run logs. */
  function Output(drafts: seq<Draft>, who: Identity): (events: seq<Event>)
    ensures |events| == |drafts|
    ensures forall i :: 0 <= i < |drafts| ==> events[i] == Build(drafts[i], who, i)
  {
    seq(|drafts|, i requires 0 <= i < |drafts| => Build(drafts[i], who, i))
  }

  ghost predicate Foreign(base: seq<Event>, drafts: seq<Draft>) {
    forall i, j :: 0 <= i < |base| && 0 <= j < |drafts| ==> base[i].eventId != drafts[j].eventId
  }

  /** The log of other producers, then the first `m` events of this one. */
  ghost predicate Holds(log: Log, base: seq<Event>, drafts: seq<Draft>, who: Identity, m: nat) {
    m <= |drafts| && Agrees(log) && log.events == base + Output(drafts, who)[..m]
  }

  /** One emit of a rerun: already logged events are replayed in place, the next missing one is appended. */
  lemma EmitResumes(r: Recorder, base: seq<Event>, drafts: seq<Draft>, who: Identity, m: nat)
    requires Script(drafts, who) && Foreign(base, drafts) && Holds(r.log, base, drafts, who, m)
    requires r.next < |drafts| && r.next <= m
    ensures var (after, result) := EmitTo(r, who, drafts[r.next]);
            && result == Ok(Output(drafts, who)[r.next]) && after.next == r.next + 1
            && Holds(after.log, base, drafts, who, if r.next < m then m else m + 1)
  {
    if r.next < m {
      ReplaysLogged(r.log, base, drafts, who, m, r.next);
    } else {
      AppendsMissing(r.log, base, drafts, who, m);
    }
  }

  lemma ReplaysLogged(log: Log, base: seq<Event>, drafts: seq<Draft>, who: Identity, m: nat, k: nat)
    requires Holds(log, base, drafts, who, m) && k < m
    ensures var e := Build(drafts[k], who, k);
            AppendTo(log, e).0 == log && AppendTo(log, e).1.Ok?
  {
    RebuildFinds(log.events);
    assert log.events[|base| + k] == Output(drafts, who)[k];
  }

  lemma AppendsMissing(log: Log, base: seq<Event>, drafts: seq<Draft>, who: Identity, m: nat)
    requires Script(drafts, who) && Foreign(base, drafts) && Holds(log, base, drafts, who, m) && m < |drafts|
    ensures var e := Build(drafts[m], who, m);
            Holds(AppendTo(log, e).0, base, drafts, who, m + 1) && AppendTo(log, e).1.Ok?
  {
    var e := Build(drafts[m], who, m);
    NotYetLogged(base, drafts, who, m);
    NewEventAppends(log, e);
    OneMoreOutput(base, drafts, who, m);
  }

  lemma NewEventAppends(log: Log, e: Event)
    requires Agrees(log) && !Logged(log.events, e.eventId)
    ensures AppendTo(log, e).1.Ok? && AppendTo(log, e).0.events == log.events + [e] && Agrees(AppendTo(log, e).0)
  {
    RebuildKeys(log.events, e.eventId);
    AppendAgrees(log, e);
  }

  lemma OneMoreOutput(base: seq<Event>, drafts: seq<Draft>, who: Identity, m: nat)
    requires m < |drafts|
    ensures base + Output(drafts, who)[..m + 1] == base + Output(drafts, who)[..m] + [Build(drafts[m], who, m)]
  {
  }

  lemma NotYetLogged(base: seq<Event>, drafts: seq<Draft>, who: Identity, m: nat)
    requires Script(drafts, who) && Foreign(base, drafts) && m < |drafts|
    ensures !Logged(base + Output(drafts, who)[..m], drafts[m].eventId)
  {
    var events := base + Output(drafts, who)[..m];
    forall i | 0 <= i < |events| ensures events[i].eventId != drafts[m].eventId {
      if i >= |base| {
        assert events[i] == Build(drafts[i - |base|], who, i - |base|);
      }
    }
  }

  lemma NextEmit(r: Recorder, who: Identity, drafts: seq<Draft>, k: nat)
    requires 0 < k <= |drafts|
    ensures EmitAll(r, who, drafts[..k]) == EmitTo(EmitAll(r, who, drafts[..k - 1]), who, drafts[k - 1]).0
  {
    assert drafts[..k][..k - 1] == drafts[..k - 1];
  }

  /** How many of the script's events a log holds after a run of `k` emits that found `m`. */
  function Reached(m: nat, k: nat): nat {
    if k < m then m else k
  }

  lemma OneMoreEmit(r: Recorder, base: seq<Event>, drafts: seq<Draft>, who: Identity, m: nat, k: nat)
    requires Script(drafts, who) && Foreign(base, drafts) && k < |drafts|
    requires r.next == k && Holds(r.log, base, drafts, who, Reached(m, k))
    ensures var after := EmitTo(r, who, drafts[k]).0;
            after.next == k + 1 && Holds(after.log, base, drafts, who, Reached(m, k + 1))
  {
    EmitResumes(r, base, drafts, who, Reached(m, k));
  }

  /** A run that stops after `k` emits adds exactly the events among its first `k` that were missing. */
  lemma {:induction false} PartialRun(log: Log, base: seq<Event>, drafts: seq<Draft>, who: Identity, m: nat, k: nat)
    requires Script(drafts, who) && Foreign(base, drafts) && Holds(log, base, drafts, who, m) && k <= |drafts|
    ensures var r := EmitAll(Recorder(log, 0), who, drafts[..k]);
            r.next == k && Holds(r.log, base, drafts, who, Reached(m, k))
  {
    if k > 0 {
      PartialRun(log, base, drafts, who, m, k - 1);
      OneMoreEmit(EmitAll(Recorder(log, 0), who, drafts[..k - 1]), base, drafts, who, m, k - 1);
      NextEmit(Recorder(log, 0), who, drafts, k);
    }
  }

  /** Runs that each crash after some emits, every one restarted from sequence 0 over the log the last one left. */
  function Crashes(log: Log, who: Identity, drafts: seq<Draft>, stops: seq<nat>): Log
    requires forall i :: 0 <= i < |stops| ==> stops[i] <= |drafts|
    decreases |stops|
  {
    if stops == [] then log
    else
      var before := Crashes(log, who, drafts, stops[..|stops| - 1]);
      var reopened := Log(before.events, Rebuild(before.events));
      EmitAll(Recorder(reopened, 0), who, drafts[..stops[|stops| - 1]]).log
  }

  lemma {:induction false} CrashesHoldAPrefix(base: Log, drafts: seq<Draft>, who: Identity, stops: seq<nat>)
    returns (m: nat)
    requires Script(drafts, who) && Foreign(base.events, drafts) && Agrees(base)
    requires forall i :: 0 <= i < |stops| ==> stops[i] <= |drafts|
    ensures Holds(Crashes(base, who, drafts, stops), base.events, drafts, who, m)
    decreases |stops|
  {
    if stops == [] {
      m := 0;
      assert base.events + Output(drafts, who)[..0] == base.events;
    } else {
      var p := CrashesHoldAPrefix(base, drafts, who, stops[..|stops| - 1]);
      var before := Crashes(base, who, drafts, stops[..|stops| - 1]);
      var k := stops[|stops| - 1];
      PartialRun(before, base.events, drafts, who, p, k);
      m := Reached(p, k);
    }
  }

  /** Crash and resume: after any crashes, one complete rerun leaves the log of an uninterrupted run. */
  lemma ResumeCompletesTheLog(base: Log, drafts: seq<Draft>, who: Identity, stops: seq<nat>)
    requires Script(drafts, who) && Foreign(base.events, drafts) && Agrees(base)
    requires forall i :: 0 <= i < |stops| ==> stops[i] <= |drafts|
    ensures var resumed := EmitAll(Recorder(Crashes(base, who, drafts, stops), 0), who, drafts);
            var uninterrupted := EmitAll(Recorder(base, 0), who, drafts);
            resumed == uninterrupted && resumed.log.events == base.events + Output(drafts, who)
  {
    var m := CrashesHoldAPrefix(base, drafts, who, stops);
    assert drafts[..|drafts|] == drafts;
    assert Output(drafts, who)[..|drafts|] == Output(drafts, who);
    PartialRun(Crashes(base, who, drafts, stops), base.events, drafts, who, m, |drafts|);
    assert base.events + Output(drafts, who)[..0] == base.events;
    PartialRun(base, base.events, drafts, who, 0, |drafts|);
  }
}
