/**
 * What a history of operations does to an append-only log and the index of the writer that has it open, as far as ids
 * go: the ids on disk, in order, and the ids that the index knows. An append writes a line only for an id the index
 * lacks.
 */
module LogHistories {
  import opened Ordering

  /**
   * An append, a restart of the writer, a crash between the write and the index update, or an append that raises after
   * its line is on disk, as a failing sync does, while the writer lives on.
   */
  datatype Op = Append(id: string) | Reopen | Crash(id: string) | Raise(id: string)

  datatype Ids = Ids(disk: seq<string>, known: set<string>)

  const NOTHING := Ids([], {})

  function Wrote(s: Ids, id: string): seq<string> {
    if id in s.known then s.disk else s.disk + [id]
  }

  function Members(ids: seq<string>): set<string> {
    set id | id in ids
  }

  function After(s: Ids, op: Op): Ids {
    match op
    case Append(id) => Ids(Wrote(s, id), s.known + {id})
    case Reopen => Ids(s.disk, Members(s.disk))
    case Crash(id) => Ids(Wrote(s, id), Members(Wrote(s, id)))
    case Raise(id) => Ids(Wrote(s, id), s.known)
  }

  function AfterAll(ops: seq<Op>): Ids
    decreases |ops|
  {
    if ops == [] then NOTHING else After(AfterAll(ops[..|ops| - 1]), ops[|ops| - 1])
  }

  lemma AfterMore(front: seq<Op>, op: Op)
    ensures AfterAll(front + [op]) == After(AfterAll(front), op)
  {
    assert (front + [op])[..|front|] == front;
  }

  // ---------------------------------------------------------------- conditions on the operations alone

  predicate Touches(op: Op, id: string) {
    !op.Reopen? && op.id == id
  }

  /** The index is rebuilt from the file. */
  predicate Restarts(op: Op) {
    op.Reopen? || op.Crash?
  }

  /** The operation raises, and is the first one on its id. */
  predicate RaisesFirst(ops: seq<Op>, i: int) {
    && 0 <= i < |ops| && ops[i].Raise?
    && forall m :: 0 <= m < i ==> !Touches(ops[m], ops[i].id)
  }

  predicate NoRestart(ops: seq<Op>, from: int, to: int) {
    forall m :: 0 <= from < m < to <= |ops| ==> !Restarts(ops[m])
  }

  /** The first operation on some id raised, and the writer was not restarted since. */
  ghost predicate Behind(ops: seq<Op>) {
    exists i :: RaisesFirst(ops, i) && NoRestart(ops, i, |ops|)
  }

  /** The first operation on some id raised, and there was another on that id before a restart. */
  ghost predicate Retried(ops: seq<Op>) {
    exists i, k :: RetriedAt(ops, i, k)
  }

  predicate RetriedAt(ops: seq<Op>, i: int, k: int) {
    RaisesFirst(ops, i) && i < k < |ops| && Touches(ops[k], ops[i].id) && NoRestart(ops, i, k)
  }

  /**
   * On disk but not in the index: its first operation raised, and there was neither a restart nor an append of it
   * since.
   */
  predicate HiddenAt(ops: seq<Op>, id: string, i: int) {
    && RaisesFirst(ops, i) && ops[i].id == id && NoRestart(ops, i, |ops|)
    && forall m :: i < m < |ops| ==> ops[m] != Append(id)
  }

  ghost predicate Hidden(ops: seq<Op>, id: string) {
    exists i :: HiddenAt(ops, id, i)
  }

  predicate Touched(ops: seq<Op>, id: string) {
    exists m :: 0 <= m < |ops| && Touches(ops[m], id)
  }

  // ---------------------------------------------------------------- one operation more

  lemma TouchedNext(front: seq<Op>, op: Op, id: string)
    ensures Touched(front + [op], id) <==> Touched(front, id) || Touches(op, id)
  {
    var ops := front + [op];
    if m :| 0 <= m < |front| && Touches(front[m], id) { assert Touches(ops[m], id); }
    if Touches(op, id) { assert Touches(ops[|front|], id); }
    if m :| 0 <= m < |ops| && Touches(ops[m], id) { assert m < |front| ==> Touches(front[m], id); }
  }

  lemma RaisesFirstNext(front: seq<Op>, op: Op, i: int)
    ensures i < |front| ==> (RaisesFirst(front + [op], i) <==> RaisesFirst(front, i))
    ensures RaisesFirst(front + [op], |front|) <==> op.Raise? && !Touched(front, op.id)
  {
    var ops := front + [op];
    assert forall m :: 0 <= m < |front| ==> ops[m] == front[m];
  }

  lemma HiddenNext(front: seq<Op>, op: Op, id: string)
    ensures Hidden(front + [op], id) <==>
            || (op == Raise(id) && !Touched(front, id))
            || (Hidden(front, id) && !Restarts(op) && op != Append(id))
  {
    var ops, n := front + [op], |front|;
    assert forall m :: 0 <= m < n ==> ops[m] == front[m];
    RaisesFirstNext(front, op, n);
    if i :| HiddenAt(ops, id, i) {
      if i < n {
        RaisesFirstNext(front, op, i);
        assert HiddenAt(front, id, i);
      }
    }
    if op == Raise(id) && !Touched(front, id) { assert HiddenAt(ops, id, n); }
    if Hidden(front, id) && !Restarts(op) && op != Append(id) {
      var i :| HiddenAt(front, id, i);
      RaisesFirstNext(front, op, i);
      assert HiddenAt(ops, id, i);
    }
  }

  /** A retry is first noticed when its id is still hidden. */
  lemma RetriedNext(front: seq<Op>, op: Op)
    ensures Retried(front + [op]) <==> Retried(front) || (!op.Reopen? && Hidden(front, op.id))
  {
    var ops, n := front + [op], |front|;
    assert forall m :: 0 <= m < n ==> ops[m] == front[m];
    if i, k :| RetriedAt(ops, i, k) {
      RaisesFirstNext(front, op, i);
      if k < n {
        assert RetriedAt(front, i, k);
      } else if m :| i < m < n && front[m] == Append(op.id) {
        assert RetriedAt(front, i, m);
      } else {
        assert HiddenAt(front, op.id, i);
      }
    }
    if i, k :| RetriedAt(front, i, k) {
      RaisesFirstNext(front, op, i);
      assert RetriedAt(ops, i, k);
    }
    if !op.Reopen? && Hidden(front, op.id) {
      var i :| HiddenAt(front, op.id, i);
      RaisesFirstNext(front, op, i);
      assert RetriedAt(ops, i, n);
    }
  }

  lemma NoDupNext(ids: seq<string>, id: string)
    ensures NoDup(ids + [id]) <==> NoDup(ids) && id !in ids
  {
    var all := ids + [id];
    assert all[|ids|] == id && forall i :: 0 <= i < |ids| ==> all[i] == ids[i];
    if NoDup(all) {
      forall i, j | 0 <= i < j < |ids| ensures ids[i] != ids[j] { assert all[i] != all[j]; }
    }
  }

  // ---------------------------------------------------------------- what the operations say about the log

  /** On disk are the ids that were operated on; the index lacks exactly the hidden ones of them. */
  ghost predicate Described(ops: seq<Op>, s: Ids) {
    && (forall id :: id in s.disk <==> Touched(ops, id))
    && (forall id :: id in s.known <==> Touched(ops, id) && !Hidden(ops, id))
    && (NoDup(s.disk) <==> !Retried(ops))
  }

  lemma StepDescribes(front: seq<Op>, op: Op, s: Ids)
    requires Described(front, s)
    ensures Described(front + [op], After(s, op))
  {
    forall id
      ensures Touched(front + [op], id) <==> Touched(front, id) || Touches(op, id)
      ensures Hidden(front + [op], id) <==>
              || (op == Raise(id) && !Touched(front, id))
              || (Hidden(front, id) && !Restarts(op) && op != Append(id))
    {
      TouchedNext(front, op, id);
      HiddenNext(front, op, id);
    }
    RetriedNext(front, op);
    if !op.Reopen? { NoDupNext(s.disk, op.id); }
  }

  lemma {:induction false} HistoryDescribes(ops: seq<Op>)
    ensures Described(ops, AfterAll(ops))
    decreases |ops|
  {
    if ops != [] {
      HistoryDescribes(ops[..|ops| - 1]);
      StepDescribes(ops[..|ops| - 1], ops[|ops| - 1], AfterAll(ops[..|ops| - 1]));
      assert ops == ops[..|ops| - 1] + [ops[|ops| - 1]];
    }
  }

  /** No id is on disk twice, and the index knows every id on disk. */
  ghost predicate Complete(s: Ids) {
    NoDup(s.disk) && s.known == Members(s.disk)
  }

  /** Without a retry, an id is hidden exactly when the index is behind because of it. */
  lemma HiddenIffBehind(ops: seq<Op>)
    requires !Retried(ops)
    ensures (exists id :: Hidden(ops, id)) <==> Behind(ops)
  {
    if id :| Hidden(ops, id) {
      var i :| HiddenAt(ops, id, i);
      assert RaisesFirst(ops, i) && NoRestart(ops, i, |ops|);
    }
    if i :| RaisesFirst(ops, i) && NoRestart(ops, i, |ops|) {
      forall m | i < m < |ops| ensures ops[m] != Append(ops[i].id) {
        assert !RetriedAt(ops, i, m);
      }
      assert HiddenAt(ops, ops[i].id, i);
      assert Hidden(ops, ops[i].id);
    }
  }

  /**
   * The index is complete and no id is on disk twice exactly when no first operation on an id raised since the last
   * restart, and none that ever did was followed by another operation on that id before a restart.
   */
  lemma CompleteIff(ops: seq<Op>)
    ensures Complete(AfterAll(ops)) <==> !Behind(ops) && !Retried(ops)
  {
    HistoryDescribes(ops);
    var s := AfterAll(ops);
    if !Retried(ops) {
      HiddenIffBehind(ops);
      forall id ensures Hidden(ops, id) ==> Touched(ops, id) {
        if i :| HiddenAt(ops, id, i) { assert Touches(ops[i], id); }
      }
    }
  }

  /** A prefix of a history without retries has none, and an index that is not behind was not before a mere append. */
  lemma PrefixIsClean(front: seq<Op>, op: Op)
    requires !Behind(front + [op]) && !Retried(front + [op]) && !Restarts(op)
    ensures !Behind(front) && !Retried(front)
    ensures op.Raise? ==> Touched(front, op.id)
  {
    var ops, n := front + [op], |front|;
    RetriedNext(front, op);
    if i :| RaisesFirst(front, i) && NoRestart(front, i, n) {
      RaisesFirstNext(front, op, i);
      assert RaisesFirst(ops, i) && NoRestart(ops, i, |ops|);
    }
    RaisesFirstNext(front, op, n);
    if op.Raise? && !Touched(front, op.id) {
      assert RaisesFirst(ops, n) && NoRestart(ops, n, |ops|);
    }
  }
}
