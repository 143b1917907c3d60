/**
 * `capture_model_call` and `ModelEvidenceJsonlWriter`: classified model calls in an append-only log keyed by request
 * id. Checksums are taken as injective, so equal checksums are equal rows.
 */
module EvidenceLog {
  import opened Options
  import opened Json
  import opened Ordering
  import opened Trace
  import H = LogHistories

  datatype Endpoint = Controlled | ExternalApi

  datatype Request = Request(id: string, endpoint: Endpoint, policyFingerprint: Option<string>, payload: Json)

  datatype Backend = Backend(
    response: Json, status: int, revision: Option<string>, tokenIds: Option<seq<int>>, logprobs: Option<seq<real>>)

  /** The checks of `ModelBackendResponse`. */
  predicate ValidBackend(b: Backend) {
    && 100 <= b.status <= 599
    && (b.revision.Some? ==> Text(b.revision.value))
    && (b.logprobs.Some? ==> b.tokenIds.Some? && |b.logprobs.value| == |b.tokenIds.value|)
  }

  datatype Capability = RequestResponse | TokenIds | BehaviorLogprobs | PolicyVersion

  datatype Evidence = Evidence(request: Request, backend: Backend, capabilities: set<Capability>, issues: seq<string>)

  predicate RlUsable(e: Evidence) {
    {TokenIds, BehaviorLogprobs, PolicyVersion} <= e.capabilities
  }

  /** Every training capability is either backed by what the backend returned or named as an issue, never both. */
  method Capture(request: Request, backend: Backend) returns (e: Evidence)
    requires ValidBackend(backend)
    ensures e.request == request && e.backend == backend && RequestResponse in e.capabilities
    ensures TokenIds in e.capabilities <==> backend.tokenIds.Some?
    ensures BehaviorLogprobs in e.capabilities <==> backend.logprobs.Some?
    ensures PolicyVersion in e.capabilities <==>
            request.endpoint == Controlled && request.policyFingerprint.Some? && backend.revision.Some?
    ensures |e.issues| + |e.capabilities| == 4
    ensures RlUsable(e) <==> e.issues == []
    ensures RlUsable(e) ==> |backend.logprobs.value| == |backend.tokenIds.value|
  {
    var capabilities, issues := {RequestResponse}, [];
    if backend.tokenIds.Some? {
      capabilities := capabilities + {TokenIds};
    } else {
      issues := issues + ["backend returned no response token ids"];
    }
    if backend.logprobs.Some? {
      capabilities := capabilities + {BehaviorLogprobs};
    } else {
      issues := issues + ["backend returned no aligned behavior logprobs"];
    }
    if request.endpoint == Controlled && request.policyFingerprint.Some? && backend.revision.Some? {
      capabilities := capabilities + {PolicyVersion};
    } else {
      issues := issues + ["model call lacks controlled immutable policy identity"];
    }
    return Evidence(request, backend, capabilities, issues);
  }

  // ---------------------------------------------------------------- the specification of the log

  type Index = map<string, Evidence>

  datatype EvidenceError = MalformedRow | ConflictingRow

  function Rebuild(rows: seq<Evidence>): Index {
    if rows == [] then map[]
    else
      var front, last := Rebuild(rows[..|rows| - 1]), rows[|rows| - 1];
      if last.request.id in front then front else front[last.request.id := last]
  }

  datatype Log = Log(rows: seq<Evidence>, index: Index)

  const EMPTY := Log([], map[])

  ghost predicate UniqueIds(rows: seq<Evidence>) {
    forall i, j :: 0 <= i < j < |rows| ==> rows[i].request.id != rows[j].request.id
  }

  ghost predicate Agrees(log: Log) {
    UniqueIds(log.rows) && log.index == Rebuild(log.rows)
  }

  /** The new log, and whether a row was written; a replay with other content is refused. */
  function AppendTo(log: Log, e: Evidence): (Log, Result<bool, EvidenceError>) {
    if e.request.id in log.index then (log, if log.index[e.request.id] == e then Ok(false) else Err(ConflictingRow))
    else (Log(log.rows + [e], log.index[e.request.id := e]), Ok(true))
  }

  ghost predicate Stored(rows: seq<Evidence>, id: string) {
    exists i :: 0 <= i < |rows| && rows[i].request.id == id
  }

  lemma {:induction false} RebuildKeys(rows: seq<Evidence>, id: string)
    ensures id in Rebuild(rows) <==> Stored(rows, id)
    ensures id in Rebuild(rows) ==> Rebuild(rows)[id].request.id == id && Rebuild(rows)[id] in rows
  {
    if rows != [] {
      var n := |rows| - 1;
      RebuildKeys(rows[..n], id);
      assert rows == rows[..n] + [rows[n]];
      if Stored(rows[..n], id) {
        var i :| 0 <= i < n && rows[..n][i].request.id == id;
        assert rows[i].request.id == id;
      } else if Stored(rows, id) {
        var i :| 0 <= i < |rows| && rows[i].request.id == id;
        assert forall j :: 0 <= j < n ==> rows[..n][j] == rows[j];
        assert i == n;
      }
    }
  }

  lemma AppendAgrees(log: Log, e: Evidence)
    requires Agrees(log)
    ensures Agrees(AppendTo(log, e).0)
    ensures match AppendTo(log, e).1
            case Ok(written) => e in AppendTo(log, e).0.rows
              && |AppendTo(log, e).0.rows| == |log.rows| + (if written then 1 else 0)
            case Err(_) => AppendTo(log, e).0 == log && Stored(log.rows, e.request.id) && e !in log.rows
  {
    var id := e.request.id;
    RebuildKeys(log.rows, id);
    if id in log.index {
      var prior := log.index[id];
      assert prior in log.rows;
      if e in log.rows {
        var i :| 0 <= i < |log.rows| && log.rows[i] == e;
        var j :| 0 <= j < |log.rows| && log.rows[j] == prior;
        assert i < j || j < i || i == j;
      }
    } else {
      assert forall i :: 0 <= i < |log.rows| ==> log.rows[i].request.id != id;
      assert (log.rows + [e])[..|log.rows|] == log.rows;
    }
  }

  // ---------------------------------------------------------------- histories of a log

  /** As for the event log; the last operation raises after its row is on disk while the writer lives on. */
  datatype Op = Append(e: Evidence) | Reopen | CrashAfterWrite(e: Evidence) | RaiseAfterWrite(e: Evidence)

  function Apply(log: Log, op: Op): Log {
    match op
    case Append(e) => AppendTo(log, e).0
    case Reopen => Log(log.rows, Rebuild(log.rows))
    case CrashAfterWrite(e) => Log(AppendTo(log, e).0.rows, Rebuild(AppendTo(log, e).0.rows))
    case RaiseAfterWrite(e) => Log(AppendTo(log, e).0.rows, log.index)
  }

  function ApplyAll(log: Log, ops: seq<Op>): Log
    decreases |ops|
  {
    if ops == [] then log else Apply(ApplyAll(log, ops[..|ops| - 1]), ops[|ops| - 1])
  }

  /** The operation as far as its request id goes. */
  function IdOp(op: Op): H.Op {
    match op
    case Append(e) => H.Append(e.request.id)
    case Reopen => H.Reopen
    case CrashAfterWrite(e) => H.Crash(e.request.id)
    case RaiseAfterWrite(e) => H.Raise(e.request.id)
  }

  function IdOps(ops: seq<Op>): seq<H.Op> {
    if ops == [] then [] else IdOps(ops[..|ops| - 1]) + [IdOp(ops[|ops| - 1])]
  }

  function IdsOf(rows: seq<Evidence>): (ids: seq<string>)
    ensures |ids| == |rows| && forall i :: 0 <= i < |ids| ==> ids[i] == rows[i].request.id
  {
    seq(|rows|, i requires 0 <= i < |rows| => rows[i].request.id)
  }

  /** The log as far as its request ids go. */
  function Projected(log: Log): H.Ids {
    H.Ids(IdsOf(log.rows), log.index.Keys)
  }

  lemma RebuiltKeys(rows: seq<Evidence>)
    ensures Rebuild(rows).Keys == H.Members(IdsOf(rows))
  {
    forall id ensures id in Rebuild(rows) <==> id in IdsOf(rows) {
      RebuildKeys(rows, id);
      if id in IdsOf(rows) {
        var i :| 0 <= i < |rows| && IdsOf(rows)[i] == id;
        assert rows[i].request.id == id;
      }
      if i :| 0 <= i < |rows| && rows[i].request.id == id { assert IdsOf(rows)[i] == id; }
    }
  }

  /** What an append does to the ids on disk and in the index. */
  lemma AppendProjects(log: Log, e: Evidence)
    ensures IdsOf(AppendTo(log, e).0.rows) == H.Wrote(Projected(log), e.request.id)
    ensures AppendTo(log, e).0.index.Keys == log.index.Keys + {e.request.id}
  {
    if e.request.id !in log.index {
      assert IdsOf(log.rows + [e]) == IdsOf(log.rows) + [e.request.id];
    }
  }

  lemma StepProjects(log: Log, op: Op)
    ensures Projected(Apply(log, op)) == H.After(Projected(log), IdOp(op))
  {
    if op.Reopen? {
      RebuiltKeys(log.rows);
    } else {
      AppendProjects(log, op.e);
      RebuiltKeys(AppendTo(log, op.e).0.rows);
    }
  }

  lemma {:induction false} HistoryProjects(ops: seq<Op>)
    ensures Projected(ApplyAll(EMPTY, ops)) == H.AfterAll(IdOps(ops))
    decreases |ops|
  {
    if ops == [] {
      assert IdsOf([]) == [];
    } else {
      var n := |ops| - 1;
      HistoryProjects(ops[..n]);
      StepProjects(ApplyAll(EMPTY, ops[..n]), ops[n]);
      H.AfterMore(IdOps(ops[..n]), IdOp(ops[n]));
    }
  }

  lemma UniqueIffNoDup(rows: seq<Evidence>)
    ensures UniqueIds(rows) <==> NoDup(IdsOf(rows))
  {
    if NoDup(IdsOf(rows)) {
      forall i, j | 0 <= i < j < |rows| ensures rows[i].request.id != rows[j].request.id {
        assert IdsOf(rows)[i] != IdsOf(rows)[j];
      }
    }
  }

  lemma {:induction false} AgreesWhenClean(ops: seq<Op>)
    requires !H.Behind(IdOps(ops)) && !H.Retried(IdOps(ops))
    ensures Agrees(ApplyAll(EMPTY, ops))
    decreases |ops|
  {
    if ops != [] {
      var front, last := ops[..|ops| - 1], ops[|ops| - 1];
      if last.Append? || last.RaiseAfterWrite? {
        H.PrefixIsClean(IdOps(front), IdOp(last));
        AgreesWhenClean(front);
        HistoryProjects(front);
        H.HistoryDescribes(IdOps(front));
        StepAgrees(ApplyAll(EMPTY, front), last);
      } else {
        HistoryProjects(ops);
        H.HistoryDescribes(IdOps(ops));
        UniqueIffNoDup(ApplyAll(EMPTY, ops).rows);
        OpenAgrees(ApplyAll(EMPTY, front), last);
      }
    }
  }

  lemma StepAgrees(log: Log, op: Op)
    requires Agrees(log) && (op.Append? || (op.RaiseAfterWrite? && op.e.request.id in IdsOf(log.rows)))
    ensures Agrees(Apply(log, op))
  {
    if op.Append? { AppendAgrees(log, op.e); } else { RebuiltKeys(log.rows); }
  }

  lemma OpenAgrees(log: Log, op: Op)
    requires (op.Reopen? || op.CrashAfterWrite?) && UniqueIds(Apply(log, op).rows)
    ensures Agrees(Apply(log, op))
  {
  }

  /**
   * Over every history the index is the one rebuilt from the file and each request id has one row, exactly when no
   * first append of an id raised after writing since the last restart, and none that ever did was followed by another
   * append of that id before a restart.
   */
  lemma EveryHistoryAgrees(ops: seq<Op>)
    ensures Agrees(ApplyAll(EMPTY, ops)) <==> !H.Behind(IdOps(ops)) && !H.Retried(IdOps(ops))
  {
    var log := ApplyAll(EMPTY, ops);
    HistoryProjects(ops);
    H.CompleteIff(IdOps(ops));
    UniqueIffNoDup(log.rows);
    RebuiltKeys(log.rows);
    if !H.Behind(IdOps(ops)) && !H.Retried(IdOps(ops)) {
      AgreesWhenClean(ops);
    }
  }

  // ---------------------------------------------------------------- the writer

  class EvidenceFile {
    var rows: seq<Evidence>

    constructor ()
      ensures rows == []
    {
      rows := [];
    }
  }

  class EvidenceWriter {
    const file: EvidenceFile
    var index: Index

    ghost function State(): Log
      reads this, file
    {
      Log(file.rows, index)
    }

    ghost predicate Valid()
      reads this, file
    {
      Agrees(State())
    }

    constructor Over(file: EvidenceFile, index: Index)
      ensures this.file == file && this.index == index
    {
      this.file := file;
      this.index := index;
    }

    method Append(e: Evidence) returns (r: Result<bool, EvidenceError>)
      requires Valid()
      modifies this, file
      ensures Valid()
      ensures (State(), r) == AppendTo(old(State()), e)
    {
      AppendAgrees(State(), e);
      var id := e.request.id;
      if id in index {
        if index[id] != e {
          return Err(ConflictingRow);
        }
        return Ok(false);
      }
      file.rows := file.rows + [e];
      index := index[id := e];
      return Ok(true);
    }
  }

  /** One line of the file; blank lines are skipped. */
  datatype Row = Row(e: Evidence) | Malformed | Blank

  function RowsOf(lines: seq<Row>): seq<Evidence> {
    if lines == [] then []
    else RowsOf(lines[..|lines| - 1]) + (match lines[|lines| - 1] { case Row(e) => [e] case _ => [] })
  }

  /** Two rows of one request id are the same row. */
  ghost predicate Consistent(rows: seq<Evidence>) {
    forall i, j :: 0 <= i < j < |rows| && rows[i].request.id == rows[j].request.id ==> rows[i] == rows[j]
  }

  lemma ConsistentNext(rows: seq<Evidence>, e: Evidence)
    requires Consistent(rows)
    ensures Consistent(rows + [e]) <==> (e.request.id in Rebuild(rows) ==> Rebuild(rows)[e.request.id] == e)
  {
    var id, next := e.request.id, rows + [e];
    RebuildKeys(rows, id);
    if id in Rebuild(rows) {
      var i :| 0 <= i < |rows| && rows[i] == Rebuild(rows)[id];
      assert next[i] == rows[i] && next[|rows|] == e;
      forall j | 0 <= j < |rows| && rows[j].request.id == id ensures rows[j] == rows[i] {
        assert i < j || j < i || i == j;
      }
    } else {
      assert forall i :: 0 <= i < |rows| ==> rows[i].request.id != id;
    }
  }

  lemma PrefixConsistent(rows: seq<Evidence>, more: seq<Evidence>)
    requires Consistent(rows + more)
    ensures Consistent(rows)
  {
    assert forall i :: 0 <= i < |rows| ==> (rows + more)[i] == rows[i];
  }

  lemma {:induction false} RowsExtend(lines: seq<Row>, n: nat)
    requires n <= |lines|
    ensures exists more :: RowsOf(lines) == RowsOf(lines[..n]) + more
  {
    if n == |lines| {
      assert lines[..n] == lines;
      assert RowsOf(lines) == RowsOf(lines[..n]) + [];
    } else {
      var front := lines[..|lines| - 1];
      RowsExtend(front, n);
      assert front[..n] == lines[..n];
      var more :| RowsOf(front) == RowsOf(lines[..n]) + more;
      var last := match lines[|lines| - 1] { case Row(e) => [e] case _ => [] };
      assert RowsOf(lines) == RowsOf(lines[..n]) + (more + last);
    }
  }

  lemma NextLine(lines: seq<Row>, n: nat)
    requires n < |lines| && lines[n].Row? && Consistent(RowsOf(lines[..n]))
    ensures var e, index := lines[n].e, Rebuild(RowsOf(lines[..n]));
            && (Consistent(RowsOf(lines[..n + 1])) <==> (e.request.id in index ==> index[e.request.id] == e))
            && Rebuild(RowsOf(lines[..n + 1])) == if e.request.id in index then index else index[e.request.id := e]
  {
    var rows, e := RowsOf(lines[..n]), lines[n].e;
    assert lines[..n + 1][..n] == lines[..n];
    ConsistentNext(rows, e);
    assert (rows + [e])[..|rows|] == rows;
  }

  lemma ConflictStays(lines: seq<Row>, n: nat)
    requires n <= |lines| && !Consistent(RowsOf(lines[..n]))
    ensures !Consistent(RowsOf(lines))
  {
    RowsExtend(lines, n);
    var more :| RowsOf(lines) == RowsOf(lines[..n]) + more;
    if Consistent(RowsOf(lines)) { PrefixConsistent(RowsOf(lines[..n]), more); }
  }

  lemma BlankSkipped(lines: seq<Row>, n: nat)
    requires n < |lines| && lines[n].Blank?
    ensures RowsOf(lines[..n + 1]) == RowsOf(lines[..n])
  {
    assert lines[..n + 1][..n] == lines[..n];
    assert RowsOf(lines[..n]) + [] == RowsOf(lines[..n]);
  }

  /**
   * The constructor's loop over the lines already in the file: the index of a wholly readable, consistent log, or an
   * error.
   */
  method IndexLines(lines: seq<Row>) returns (r: Result<Index, EvidenceError>)
    ensures r.Ok? <==> Malformed !in lines && Consistent(RowsOf(lines))
    ensures r.Ok? ==> r.value == Rebuild(RowsOf(lines))
    ensures r == Err(MalformedRow) ==> Malformed in lines
    ensures r == Err(ConflictingRow) ==> !Consistent(RowsOf(lines))
  {
    var index: Index := map[];
    for n := 0 to |lines|
      invariant index == Rebuild(RowsOf(lines[..n])) && Consistent(RowsOf(lines[..n]))
      invariant Malformed !in lines[..n]
    {
      assert lines[..n + 1] == lines[..n] + [lines[n]];
      if lines[n].Malformed? {
        return Err(MalformedRow);
      }
      if lines[n].Blank? {
        BlankSkipped(lines, n);
        continue;
      }
      var e := lines[n].e;
      NextLine(lines, n);
      var id := e.request.id;
      if id !in index {
        index := index[id := e];
      } else if index[id] != e {
        ConflictStays(lines, n + 1);
        return Err(ConflictingRow);
      }
    }
    assert lines[..|lines|] == lines;
    return Ok(index);
  }
}
