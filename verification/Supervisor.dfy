/**
 * The learning-loop supervisor: one pass over the stages, with every transition persisted, restartable after a crash.
 * What a stage finds on disk, how its command ends and where the process dies are arbitrary inputs.
 */
module Supervisor {
  import opened Options
  import opened Json

  // ---------------------------------------------------------------- equality of parsed values

  /** Equality of dictionaries ignores the order of their keys, at every depth. */
  predicate SameValue(a: Json, b: Json)
    decreases a
  {
    match (a, b)
    case (Arr(x), Arr(y)) => SameElements(x, y)
    case (Obj(f), Obj(g)) => Keys(f) == Keys(g) && AllSame(f, g)
    case _ => a == b
  }

  predicate SameElements(a: Items, b: Items)
    decreases a
  {
    match (a, b)
    case (Item(v, x), Item(w, y)) => SameValue(v, w) && SameElements(x, y)
    case _ => a == b
  }

  /** Every member of `f` has its value in `g`. */
  predicate AllSame(f: Fields, g: Fields)
    decreases f
  {
    match f
    case NoFields => true
    case Field(k, v, rest) => Get(g, k).Some? && SameValue(v, Get(g, k).value) && AllSame(rest, g)
  }

  predicate SameUnder(f: Fields, g: Fields, k: string) {
    Get(f, k).Some? && Get(g, k).Some? && SameValue(Get(f, k).value, Get(g, k).value)
  }

  lemma {:induction false} AllSameMeans(f: Fields, g: Fields)
    requires DistinctKeys(f)
    ensures AllSame(f, g) <==> forall k :: k in Keys(f) ==> SameUnder(f, g, k)
  {
    match f
    case NoFields =>
    case Field(key, v, rest) =>
      AllSameMeans(rest, g);
      forall k | k in Keys(rest) ensures SameUnder(f, g, k) <==> SameUnder(rest, g, k) {
        assert k != key;
      }
      assert Get(f, key) == Some(v);
      assert AllSame(f, g) <==> SameUnder(f, g, key) && AllSame(rest, g);
      assert Keys(f) == Keys(rest) + {key};
  }

  /** Two objects are the same exactly when they have the same keys and the same value under each. */
  lemma SameObjectIff(f: Fields, g: Fields)
    requires DistinctKeys(f)
    ensures SameValue(Obj(f), Obj(g)) <==> Keys(f) == Keys(g) && forall k :: k in Keys(f) ==> SameUnder(f, g, k)
  {
    AllSameMeans(f, g);
  }

  // ---------------------------------------------------------------- the JSON gate

  datatype GateReason = BadRequirement | CannotLoad | NotAnObject | Mismatch(found: seq<(string, Json, Json)>)

  function Mismatches(required: Fields, value: Fields): seq<(string, Json, Json)> {
    match required
    case NoFields => []
    case Field(key, expected, rest) =>
      var got := OrElse(Get(value, key), Null);
      (if SameValue(got, expected) then [] else [(key, expected, got)]) + Mismatches(rest, value)
  }

  /** `required_json_error`; `artifact` is the parsed artifact, if it can be read and parsed. */
  function RequiredJsonError(required: Option<Json>, artifact: Option<Json>): Option<GateReason> {
    match required
    case None => None
    case Some(Null) => None
    case Some(Obj(Field(k, v, rest))) =>
      (match artifact
       case None => Some(CannotLoad)
       case Some(Obj(value)) =>
         var found := Mismatches(Field(k, v, rest), value);
         if found == [] then None else Some(Mismatch(found))
       case Some(_) => Some(NotAnObject))
    case Some(_) => Some(BadRequirement)
  }

  /** Every key has its required value; a missing key counts as null. */
  predicate Satisfies(value: Fields, required: Fields) {
    match required
    case NoFields => true
    case Field(key, expected, rest) => SameValue(OrElse(Get(value, key), Null), expected) && Satisfies(value, rest)
  }

  lemma {:induction false} NoMismatchIff(required: Fields, value: Fields)
    ensures Mismatches(required, value) == [] <==> Satisfies(value, required)
  {
    if required.Field? { NoMismatchIff(required.rest, value); }
  }

  /** The gate opens exactly when nothing is required, or the artifact is an object with every required value. */
  lemma GateOpensIff(required: Option<Json>, artifact: Option<Json>)
    ensures RequiredJsonError(required, artifact) == None <==>
            || required == None || required == Some(Null)
            || (required.value.Obj? && required.value.fields.Field? && artifact.Some? && artifact.value.Obj?
                && Satisfies(artifact.value.fields, required.value.fields))
  {
    if required.Some? && required.value.Obj? && artifact.Some? && artifact.value.Obj? {
      NoMismatchIff(required.value.fields, artifact.value.fields);
    }
  }

  // ---------------------------------------------------------------- the persisted state

  datatype Status = COMPLETED | REJECTED | RUNNING | FAILED | WAITING

  /** One entry of the history; `started` entries are those that launched a command. */
  datatype Entry = Entry(name: string, status: Status, started: bool, reason: Option<GateReason>)

  datatype State = State(entries: seq<Entry>, status: Option<Status>, reason: Option<GateReason>, stopped: bool,
                         failed: bool)

  const FRESH := State([], None, None, false, false)

  datatype Stage = Stage(name: string, required: Option<Json>, command: bool)

  /**
   * What the pass meets at one stage: the artifact as found, and if the command runs, its exit code and the artifact it
   * leaves. `crash` is a death while the command runs or before its end is persisted.
   */
  datatype Look = Look(present: bool, artifact: Option<Json>, exitCode: int, presentAfter: bool,
                       artifactAfter: Option<Json>, crash: bool)

  datatype Halt = AllDone | Rejected | Vanished | Waits | CommandFailed | Crashed

  /** `return` values; a crashed pass returns nothing. */
  function Code(h: Halt): Option<nat> {
    match h
    case AllDone => Some(0)
    case Waits => Some(0)
    case CommandFailed => Some(1)
    case Vanished => Some(2)
    case Rejected => Some(3)
    case Crashed => None
  }

  /** The position of the latest entry of that name. */
  function LatestAt(entries: seq<Entry>, name: string): (r: Option<nat>)
    ensures r.Some? ==> r.value < |entries| && entries[r.value].name == name
                        && forall k :: r.value < k < |entries| ==> entries[k].name != name
    ensures r.None? ==> forall k :: 0 <= k < |entries| ==> entries[k].name != name
  {
    if entries == [] then None
    else if entries[|entries| - 1].name == name then Some(|entries| - 1)
    else LatestAt(entries[..|entries| - 1], name)
  }

  function Latest(entries: seq<Entry>, name: string): Option<Entry> {
    var at := LatestAt(entries, name);
    if at.Some? then Some(entries[at.value]) else None
  }

  predicate IsCompleted(entries: seq<Entry>, name: string) {
    var latest := Latest(entries, name);
    latest.Some? && latest.value.status == COMPLETED
  }

  function Append(s: State, e: Entry): State {
    s.(entries := s.entries + [e])
  }

  // ---------------------------------------------------------------- one stage

  /** What one stage does to the persisted state, whether the pass ends there, and whether a command was started. */
  datatype Outcome = Outcome(state: State, halt: Option<Halt>, ran: bool)

  function Reject(s: State, name: string, reason: GateReason): State {
    var latest := Latest(s.entries, name);
    var known := latest.Some? && latest.value.status == REJECTED && latest.value.reason == Some(reason);
    var s1 := if known then s else Append(s, Entry(name, REJECTED, false, Some(reason)));
    s1.(status := Some(REJECTED), stopped := true, reason := Some(reason))
  }

  function Observe(s: State, name: string): State {
    Append(s, Entry(name, COMPLETED, false, None)).(status := None, stopped := false, reason := None)
  }

  function Wait(s: State, name: string): State {
    match LatestAt(s.entries, name)
    case None => Append(s, Entry(name, WAITING, false, None))
    case Some(k) => s.(entries := s.entries[k := s.entries[k].(status := WAITING)])
  }

  function Launch(s: State, name: string): State {
    Append(s, Entry(name, RUNNING, true, None))
  }

  /** The last entry is the launched one: its command has ended. */
  function End(s: State, status: Status): State
    requires s.entries != []
  {
    var k := |s.entries| - 1;
    s.(entries := s.entries[k := s.entries[k].(status := status)])
  }

  function StageStep(s: State, stage: Stage, look: Look): Outcome {
    var completed := IsCompleted(s.entries, stage.name);
    if look.present then
      (match RequiredJsonError(stage.required, look.artifact)
       case Some(reason) => Outcome(Reject(s, stage.name, reason), Some(Rejected), false)
       case None => Outcome(if completed then s else Observe(s, stage.name), None, false))
    else if completed then Outcome(s.(failed := true), Some(Vanished), false)
    else if !stage.command then Outcome(Wait(s, stage.name), Some(Waits), false)
    else
      var launched := Launch(s, stage.name);
      if look.crash then Outcome(launched, Some(Crashed), true)
      else if look.exitCode != 0 || !look.presentAfter then Outcome(End(launched, FAILED), Some(CommandFailed), true)
      else Outcome(End(launched, COMPLETED), None, true)
  }

  // ---------------------------------------------------------------- one pass

  /**
   * The pass after its first `n` stages: the persisted state, how it ended if it did, and the stages that ran a
   * command.
   */
  datatype Progress = Progress(state: State, halt: Option<Halt>, ran: seq<nat>)

  function Advance(before: Progress, stage: Stage, look: Look, dies: bool, k: nat): Progress {
    if before.halt.Some? then before
    else if dies then before.(halt := Some(Crashed))
    else
      var o := StageStep(before.state, stage, look);
      Progress(o.state, o.halt, if o.ran then before.ran + [k] else before.ran)
  }

  /** `dies` is the number of stages after which the process dies, if it does so between two stages. */
  function After(stages: seq<Stage>, looks: nat -> Look, dies: Option<nat>, s: State, n: nat): Progress
    requires n <= |stages|
  {
    if n == 0 then Progress(s, None, [])
    else Advance(After(stages, looks, dies, s, n - 1), stages[n - 1], looks(n - 1), dies == Some(n - 1), n - 1)
  }

  function Pass(stages: seq<Stage>, looks: nat -> Look, dies: Option<nat>, s: State): Progress {
    var p := After(stages, looks, dies, s, |stages|);
    if p.halt.Some? then p
    else if dies == Some(|stages|) then p.(halt := Some(Crashed))
    else p.(halt := Some(AllDone), state := p.state.(status := Some(COMPLETED)))
  }

  /** The state file, rewritten as a whole. */
  class StateFile {
    var state: State

    constructor ()
      ensures state == FRESH
    {
      state := FRESH;
    }
  }

  lemma AdvanceHalted(before: Progress, stage: Stage, look: Look, dies: bool, k: nat)
    requires before.halt.Some?
    ensures Advance(before, stage, look, dies, k) == before
  {
  }

  lemma NextStage(stages: seq<Stage>, looks: nat -> Look, dies: Option<nat>, s: State, n: nat, before: Progress,
                  o: Outcome)
    requires n < |stages| && After(stages, looks, dies, s, n) == before && before.halt == None && dies != Some(n)
    requires o == StageStep(before.state, stages[n], looks(n))
    ensures After(stages, looks, dies, s, n + 1)
            == Progress(o.state, o.halt, if o.ran then before.ran + [n] else before.ran)
  {
  }

  lemma {:induction false} HaltedStays(stages: seq<Stage>, looks: nat -> Look, dies: Option<nat>, s: State, n: nat,
                                       m: nat)
    requires n <= m <= |stages| && After(stages, looks, dies, s, n).halt.Some?
    ensures After(stages, looks, dies, s, m) == After(stages, looks, dies, s, n)
    decreases m
  {
    if n < m {
      HaltedStays(stages, looks, dies, s, n, m - 1);
      AdvanceHalted(After(stages, looks, dies, s, m - 1), stages[m - 1], looks(m - 1), dies == Some(m - 1), m - 1);
    }
  }

  /** A pass that ended at a stage stays as it ended. */
  lemma PassHalts(stages: seq<Stage>, looks: nat -> Look, dies: Option<nat>, s: State, n: nat, p: Progress)
    requires n <= |stages| && After(stages, looks, dies, s, n) == p && p.halt.Some?
    ensures Pass(stages, looks, dies, s) == p
  {
    HaltedStays(stages, looks, dies, s, n, |stages|);
  }

  lemma PassDies(stages: seq<Stage>, looks: nat -> Look, dies: Option<nat>, s: State, n: nat, p: Progress)
    requires n <= |stages| && After(stages, looks, dies, s, n) == p && p.halt == None && dies == Some(n)
    ensures Pass(stages, looks, dies, s) == p.(halt := Some(Crashed))
  {
    if n < |stages| {
      assert After(stages, looks, dies, s, n + 1) == p.(halt := Some(Crashed));
      PassHalts(stages, looks, dies, s, n + 1, p.(halt := Some(Crashed)));
    }
  }

  /** A pass that reaches a stage which ends it is left in the state of that stage. */
  lemma EndsAtStage(stages: seq<Stage>, looks: nat -> Look, dies: Option<nat>, s: State, n: nat, o: Outcome)
    requires n < |stages| && After(stages, looks, dies, s, n).halt == None && dies != Some(n)
    requires o == StageStep(After(stages, looks, dies, s, n).state, stages[n], looks(n)) && o.halt.Some?
    ensures Pass(stages, looks, dies, s).state == o.state && Pass(stages, looks, dies, s).halt == o.halt
  {
    NextStage(stages, looks, dies, s, n, After(stages, looks, dies, s, n), o);
    PassHalts(stages, looks, dies, s, n + 1, After(stages, looks, dies, s, n + 1));
  }

  /** `main`: the loop over the stages; every write goes to the state file. */
  method Supervise(file: StateFile, stages: seq<Stage>, looks: nat -> Look, dies: Option<nat>)
    returns (code: Option<nat>, ran: seq<nat>)
    modifies file
    ensures var p := Pass(stages, looks, dies, old(file.state));
            file.state == p.state && p.halt.Some? && code == Code(p.halt.value) && ran == p.ran
  {
    ran := [];
    var n := 0;
    ghost var s := file.state;
    while n < |stages|
      invariant n <= |stages|
      invariant After(stages, looks, dies, s, n) == Progress(file.state, None, ran)
    {
      ghost var before := Progress(file.state, None, ran);
      if dies == Some(n) {
        PassDies(stages, looks, dies, s, n, before);
        return None, ran;
      }
      var h, started := RunStage(file, stages[n], looks(n));
      NextStage(stages, looks, dies, s, n, before, Outcome(file.state, h, started));
      if started {
        ran := ran + [n];
      }
      n := n + 1;
      if h.Some? {
        PassHalts(stages, looks, dies, s, n, Progress(file.state, h, ran));
        return Code(h.value), ran;
      }
    }
    if dies == Some(n) {
      PassDies(stages, looks, dies, s, n, Progress(file.state, None, ran));
      return None, ran;
    }
    file.state := file.state.(status := Some(COMPLETED));
    return Some(0), ran;
  }

  /** The body of the loop. */
  method RunStage(file: StateFile, stage: Stage, look: Look) returns (halt: Option<Halt>, ran: bool)
    modifies file
    ensures Outcome(file.state, halt, ran) == StageStep(old(file.state), stage, look)
  {
    var name := stage.name;
    var completed := IsCompleted(file.state.entries, name);
    if look.present {
      var gate := RequiredJsonError(stage.required, look.artifact);
      if gate.Some? {
        file.state := Reject(file.state, name, gate.value);
        return Some(Rejected), false;
      }
      if !completed {
        file.state := Observe(file.state, name);
      }
      return None, false;
    }
    if completed {
      file.state := file.state.(failed := true);
      return Some(Vanished), false;
    }
    if !stage.command {
      file.state := Wait(file.state, name);
      return Some(Waits), false;
    }
    file.state := Launch(file.state, name);
    if look.crash {
      return Some(Crashed), true;
    }
    if look.exitCode != 0 || !look.presentAfter {
      file.state := End(file.state, FAILED);
      return Some(CommandFailed), true;
    }
    file.state := End(file.state, COMPLETED);
    return None, true;
  }

  // ---------------------------------------------------------------- when a command starts

  lemma LatestOfAppend(entries: seq<Entry>, e: Entry, name: string)
    ensures Latest(entries + [e], name) == if e.name == name then Some(e) else Latest(entries, name)
  {
    assert (entries + [e])[..|entries|] == entries;
  }

  lemma {:induction false} CompletedElsewhere(entries: seq<Entry>, k: nat, e: Entry, name: string)
    requires k < |entries| && e.name == entries[k].name != name
    ensures IsCompleted(entries[k := e], name) <==> IsCompleted(entries, name)
  {
    var n := |entries| - 1;
    if k == n {
      assert entries[k := e][..n] == entries[..n];
    } else if entries[n].name != name {
      assert entries[k := e][..n] == entries[..n][k := e];
      CompletedElsewhere(entries[..n], k, e, name);
    }
  }

  /** A stage that lets the pass go on ends completed, and takes no other stage's completion away. */
  lemma StepCompletes(s: State, stage: Stage, look: Look, other: string)
    requires StageStep(s, stage, look).halt == None
    ensures IsCompleted(StageStep(s, stage, look).state.entries, stage.name)
    ensures IsCompleted(s.entries, other) ==> IsCompleted(StageStep(s, stage, look).state.entries, other)
  {
    var name := stage.name;
    LatestOfAppend(s.entries, Entry(name, COMPLETED, false, None), name);
    LatestOfAppend(s.entries, Entry(name, COMPLETED, false, None), other);
    LatestOfAppend(s.entries, Entry(name, COMPLETED, true, None), name);
    LatestOfAppend(s.entries, Entry(name, COMPLETED, true, None), other);
    var launched := Launch(s, name);
    assert End(launched, COMPLETED).entries == s.entries + [Entry(name, COMPLETED, true, None)];
  }

  lemma LatestOfRewrite(entries: seq<Entry>, k: nat, e: Entry)
    requires LatestAt(entries, e.name) == Some(k)
    ensures Latest(entries[k := e], e.name) == Some(e)
  {
    var all := entries[k := e];
    assert all[k] == e && forall m :: k < m < |all| ==> all[m] == entries[m];
    assert LatestAt(all, e.name) == Some(k);
  }

  /** What the latest entry of the stage must say when the pass ends there. */
  ghost predicate Tells(halt: Halt, latest: Entry, o: State, gate: Option<GateReason>) {
    match halt
    case Rejected => latest.status == REJECTED && latest.reason == gate && o.status == Some(REJECTED)
      && o.reason == gate && o.stopped
    case Vanished => latest.status == COMPLETED && o.failed
    case Waits => latest.status == WAITING
    case CommandFailed => latest.status == FAILED && latest.started
    case Crashed => latest.status == RUNNING && latest.started
    case AllDone => false
  }

  /** When a pass ends at a stage, the persisted latest entry of that stage tells why; and at most one entry is new. */
  lemma HistoryTellsTheEnd(s: State, stage: Stage, look: Look)
    requires StageStep(s, stage, look).halt.Some?
    ensures var o := StageStep(s, stage, look);
            && Latest(o.state.entries, stage.name).Some?
            && Tells(o.halt.value, Latest(o.state.entries, stage.name).value, o.state,
                     RequiredJsonError(stage.required, look.artifact))
            && |s.entries| <= |o.state.entries| <= |s.entries| + 1
  {
    var name := stage.name;
    var gate := RequiredJsonError(stage.required, look.artifact);
    LatestOfAppend(s.entries, Entry(name, REJECTED, false, gate), name);
    LatestOfAppend(s.entries, Entry(name, WAITING, false, None), name);
    LatestOfAppend(s.entries, Entry(name, RUNNING, true, None), name);
    LatestOfAppend(s.entries, Entry(name, FAILED, true, None), name);
    assert End(Launch(s, name), FAILED).entries == s.entries + [Entry(name, FAILED, true, None)];
    var at := LatestAt(s.entries, name);
    if at.Some? { LatestOfRewrite(s.entries, at.value, s.entries[at.value].(status := WAITING)); }
  }

  /** In this pass the stage's artifact was found with its gate open, or its own command has just left it there. */
  predicate Fulfilled(stages: seq<Stage>, looks: nat -> Look, ran: seq<nat>, j: nat)
    requires j < |stages|
  {
    || (looks(j).present && RequiredJsonError(stages[j].required, looks(j).artifact) == None)
    || (j in ran && looks(j).exitCode == 0 && looks(j).presentAfter)
  }

  /** The first `n` stages are completed and fulfilled. */
  ghost predicate Cleared(stages: seq<Stage>, looks: nat -> Look, p: Progress, n: nat)
    requires n <= |stages|
  {
    n == 0 || (Cleared(stages, looks, p, n - 1) && IsCompleted(p.state.entries, stages[n - 1].name)
               && Fulfilled(stages, looks, p.ran, n - 1))
  }

  lemma {:induction false} ClearedMeans(stages: seq<Stage>, looks: nat -> Look, p: Progress, n: nat, j: nat)
    requires j < n <= |stages| && Cleared(stages, looks, p, n)
    ensures IsCompleted(p.state.entries, stages[j].name) && Fulfilled(stages, looks, p.ran, j)
  {
    if j < n - 1 { ClearedMeans(stages, looks, p, n - 1, j); }
  }

  /** The stages cleared before a step stay cleared after it. */
  lemma {:induction false} StepKeepsCleared(stages: seq<Stage>, looks: nat -> Look, before: Progress, k: nat, m: nat)
    requires m <= k < |stages| && Cleared(stages, looks, before, m)
    requires before.halt == None && StageStep(before.state, stages[k], looks(k)).halt == None
    ensures Cleared(stages, looks, Advance(before, stages[k], looks(k), false, k), m)
  {
    if m > 0 {
      StepKeepsCleared(stages, looks, before, k, m - 1);
      StepCompletes(before.state, stages[k], looks(k), stages[m - 1].name);
    }
  }

  lemma AdvanceClears(stages: seq<Stage>, looks: nat -> Look, before: Progress, dies: bool, n: nat)
    requires 0 < n <= |stages| && Cleared(stages, looks, before, n - 1)
    requires Advance(before, stages[n - 1], looks(n - 1), dies, n - 1).halt == None
    ensures Cleared(stages, looks, Advance(before, stages[n - 1], looks(n - 1), dies, n - 1), n)
  {
    StepKeepsCleared(stages, looks, before, n - 1, n - 1);
    StepCompletes(before.state, stages[n - 1], looks(n - 1), stages[n - 1].name);
  }

  lemma {:induction false} GoingOnMeansCleared(stages: seq<Stage>, looks: nat -> Look, dies: Option<nat>, s: State,
                                               n: nat)
    requires n <= |stages| && After(stages, looks, dies, s, n).halt == None
    ensures Cleared(stages, looks, After(stages, looks, dies, s, n), n)
  {
    if n > 0 {
      GoingOnMeansCleared(stages, looks, dies, s, n - 1);
      AdvanceClears(stages, looks, After(stages, looks, dies, s, n - 1), dies == Some(n - 1), n);
    }
  }

  lemma {:induction false} RanWasReached(stages: seq<Stage>, looks: nat -> Look, dies: Option<nat>, s: State, n: nat,
                                         i: nat)
    requires n <= |stages| && i in After(stages, looks, dies, s, n).ran
    ensures i < n && After(stages, looks, dies, s, i).halt == None
    ensures StageStep(After(stages, looks, dies, s, i).state, stages[i], looks(i)).ran
  {
    if n > 0 && i in After(stages, looks, dies, s, n - 1).ran {
      RanWasReached(stages, looks, dies, s, n - 1, i);
    }
  }

  /**
   * A command starts only when, in the same pass, every earlier stage has the latest status COMPLETED and was
   * fulfilled, and never while the stage's own latest status is COMPLETED.
   */
  lemma CommandsAreGuarded(stages: seq<Stage>, looks: nat -> Look, dies: Option<nat>, s: State, i: nat)
    requires i in Pass(stages, looks, dies, s).ran
    ensures i < |stages|
    ensures var at := After(stages, looks, dies, s, i);
            && (forall j :: 0 <= j < i ==>
                IsCompleted(at.state.entries, stages[j].name) && Fulfilled(stages, looks, at.ran, j))
            && !looks(i).present && stages[i].command && !IsCompleted(at.state.entries, stages[i].name)
  {
    RanWasReached(stages, looks, dies, s, |stages|, i);
    GoingOnMeansCleared(stages, looks, dies, s, i);
    var at := After(stages, looks, dies, s, i);
    forall j | 0 <= j < i ensures IsCompleted(at.state.entries, stages[j].name) && Fulfilled(stages, looks, at.ran, j) {
      ClearedMeans(stages, looks, at, i, j);
    }
  }

  /** When a command starts, an earlier gate was seen open in this pass exactly when the artifact was already there. */
  lemma GateSeenIff(stages: seq<Stage>, looks: nat -> Look, dies: Option<nat>, s: State, i: nat, j: nat)
    requires i in Pass(stages, looks, dies, s).ran && j < i
    ensures i < |stages|
    ensures looks(j).present ==> RequiredJsonError(stages[j].required, looks(j).artifact) == None
    ensures j in After(stages, looks, dies, s, i).ran <==> !looks(j).present
  {
    CommandsAreGuarded(stages, looks, dies, s, i);
    assert Fulfilled(stages, looks, After(stages, looks, dies, s, i).ran, j);
    if j in After(stages, looks, dies, s, i).ran {
      RanWasReached(stages, looks, dies, s, i, j);
    }
  }

  // ---------------------------------------------------------------- the gates and the artifacts on disk

  /** The artifact of a stage that the pass has gone past: as it was found, or as the stage's command left it. */
  function OnDisk(look: Look): Option<Json> {
    if look.present then look.artifact else look.artifactAfter
  }

  /** The artifacts of the first `n` stages satisfy their gates. */
  ghost predicate GatesHold(stages: seq<Stage>, looks: nat -> Look, n: nat)
    requires n <= |stages|
  {
    forall j :: 0 <= j < n ==> RequiredJsonError(stages[j].required, OnDisk(looks(j))) == None
  }

  /** Every command among the first `n` stages left an artifact that its own gate accepts. */
  ghost predicate CommandsSatisfyGates(stages: seq<Stage>, looks: nat -> Look, n: nat)
    requires n <= |stages|
  {
    forall j :: 0 <= j < n && !looks(j).present ==>
      RequiredJsonError(stages[j].required, looks(j).artifactAfter) == None
  }

  /**
   * When a command starts, the artifacts of all earlier stages, as the pass last saw them, satisfy their gates exactly
   * when every earlier stage without an artifact had a command that left an acceptable one: the pass checks the former
   * and never the latter.
   */
  lemma GatesHoldIff(stages: seq<Stage>, looks: nat -> Look, dies: Option<nat>, s: State, i: nat)
    requires i in Pass(stages, looks, dies, s).ran
    ensures i < |stages|
    ensures GatesHold(stages, looks, i) <==> CommandsSatisfyGates(stages, looks, i)
  {
    RanWasReached(stages, looks, dies, s, |stages|, i);
    forall j: nat | j < i
      ensures looks(j).present ==> RequiredJsonError(stages[j].required, looks(j).artifact) == None
    {
      GateSeenIff(stages, looks, dies, s, i, j);
    }
    OnlyCommandsDecide(stages, looks, i);
  }

  lemma OnlyCommandsDecide(stages: seq<Stage>, looks: nat -> Look, n: nat)
    requires n <= |stages|
    requires forall j: nat :: j < n && looks(j).present ==>
             RequiredJsonError(stages[j].required, looks(j).artifact) == None
    ensures GatesHold(stages, looks, n) <==> CommandsSatisfyGates(stages, looks, n)
  {
    if CommandsSatisfyGates(stages, looks, n) {
      forall j | 0 <= j < n ensures RequiredJsonError(stages[j].required, OnDisk(looks(j))) == None {
        assert OnDisk(looks(j)) == if looks(j).present then looks(j).artifact else looks(j).artifactAfter;
      }
    }
    if GatesHold(stages, looks, n) {
      forall j | 0 <= j < n && !looks(j).present
        ensures RequiredJsonError(stages[j].required, looks(j).artifactAfter) == None
      {
        assert OnDisk(looks(j)) == looks(j).artifactAfter;
      }
    }
  }

  /** The latest entry of stage `j`, and the state as a whole, record the rejection for this reason. */
  ghost predicate EndsRejected(p: Progress, name: string, reason: GateReason) {
    && p.halt == Some(Rejected)
    && p.state.status == Some(REJECTED) && p.state.reason == Some(reason)
    && Latest(p.state.entries, name).Some?
    && Latest(p.state.entries, name).value.status == REJECTED
    && Latest(p.state.entries, name).value.reason == Some(reason)
  }

  /**
   * A pass that finds an artifact its gate refuses, such as one left by a command of an earlier pass, starts no later
   * command; and if it gets to that stage, it ends there, rejected.
   */
  lemma RefusedArtifactEndsThePass(stages: seq<Stage>, looks: nat -> Look, dies: Option<nat>, s: State, j: nat)
    requires j < |stages| && looks(j).present
    requires RequiredJsonError(stages[j].required, looks(j).artifact).Some?
    ensures forall i :: i in Pass(stages, looks, dies, s).ran ==> i < j
    ensures After(stages, looks, dies, s, j).halt == None && dies != Some(j) ==>
              EndsRejected(Pass(stages, looks, dies, s), stages[j].name,
                           RequiredJsonError(stages[j].required, looks(j).artifact).value)
  {
    var reason := RequiredJsonError(stages[j].required, looks(j).artifact).value;
    forall i | i in Pass(stages, looks, dies, s).ran ensures i < j {
      RanWasReached(stages, looks, dies, s, |stages|, i);
      if j < i {
        GateSeenIff(stages, looks, dies, s, i, j);
      }
    }
    var before := After(stages, looks, dies, s, j);
    if before.halt == None && dies != Some(j) {
      HistoryTellsTheEnd(before.state, stages[j], looks(j));
      EndsAtStage(stages, looks, dies, s, j, StageStep(before.state, stages[j], looks(j)));
    }
  }

  /**
   * A pass that ends with everything done found or made every stage's artifact; as it last saw them, the artifacts
   * satisfy their gates exactly when the commands of this pass left acceptable ones.
   */
  lemma DoneMeansFulfilled(stages: seq<Stage>, looks: nat -> Look, dies: Option<nat>, s: State)
    requires Pass(stages, looks, dies, s).halt == Some(AllDone)
    ensures var p := Pass(stages, looks, dies, s);
            forall j :: 0 <= j < |stages| ==>
              IsCompleted(p.state.entries, stages[j].name) && Fulfilled(stages, looks, p.ran, j)
    ensures GatesHold(stages, looks, |stages|) <==> CommandsSatisfyGates(stages, looks, |stages|)
  {
    NeverDoneEarly(stages, looks, dies, s, |stages|);
    GoingOnMeansCleared(stages, looks, dies, s, |stages|);
    var p, last := Pass(stages, looks, dies, s), After(stages, looks, dies, s, |stages|);
    assert p.state.entries == last.state.entries && p.ran == last.ran;
    forall j | 0 <= j < |stages|
      ensures IsCompleted(p.state.entries, stages[j].name) && Fulfilled(stages, looks, p.ran, j)
    {
      ClearedMeans(stages, looks, last, |stages|, j);
    }
    forall j: nat | j < |stages|
      ensures looks(j).present ==> RequiredJsonError(stages[j].required, looks(j).artifact) == None
    {
      assert Fulfilled(stages, looks, p.ran, j);
      if j in last.ran {
        RanWasReached(stages, looks, dies, s, |stages|, j);
      }
    }
    OnlyCommandsDecide(stages, looks, |stages|);
  }

  lemma {:induction false} NeverDoneEarly(stages: seq<Stage>, looks: nat -> Look, dies: Option<nat>, s: State, n: nat)
    requires n <= |stages|
    ensures After(stages, looks, dies, s, n).halt != Some(AllDone)
  {
    if n > 0 { NeverDoneEarly(stages, looks, dies, s, n - 1); }
  }

  // ---------------------------------------------------------------- the history over any number of passes

  /** A started entry never directly follows a COMPLETED entry of its stage. */
  ghost predicate Restartable(entries: seq<Entry>) {
    forall k :: 0 <= k < |entries| && entries[k].started ==> !IsCompleted(entries[..k], entries[k].name)
  }

  lemma AppendRestartable(entries: seq<Entry>, e: Entry)
    requires Restartable(entries) && (e.started ==> !IsCompleted(entries, e.name))
    ensures Restartable(entries + [e])
  {
    var all := entries + [e];
    assert all[..|entries|] == entries;
    forall k | 0 <= k < |entries| && all[k].started ensures !IsCompleted(all[..k], all[k].name) {
      assert all[..k] == entries[..k] && all[k] == entries[k];
    }
  }

  /** Rewriting the status of a stage's latest entry changes nothing for the entries of other stages. */
  lemma RewriteRestartable(entries: seq<Entry>, k: nat, e: Entry)
    requires Restartable(entries) && k < |entries| && e.name == entries[k].name && e.started == entries[k].started
    requires forall m :: k < m < |entries| ==> entries[m].name != e.name
    ensures Restartable(entries[k := e])
  {
    var all := entries[k := e];
    forall m | 0 <= m < |all| && all[m].started ensures !IsCompleted(all[..m], all[m].name) {
      if m <= k {
        assert all[..m] == entries[..m];
      } else {
        assert all[..m] == entries[..m][k := e];
        CompletedElsewhere(entries[..m], k, e, all[m].name);
      }
    }
  }

  /** Completed entries stay as they are, in place. */
  ghost predicate KeepsCompleted(before: seq<Entry>, after: seq<Entry>) {
    |before| <= |after| && forall k :: 0 <= k < |before| && before[k].status == COMPLETED ==> after[k] == before[k]
  }

  lemma StepHistory(s: State, stage: Stage, look: Look)
    requires Restartable(s.entries)
    ensures Restartable(StageStep(s, stage, look).state.entries)
    ensures KeepsCompleted(s.entries, StageStep(s, stage, look).state.entries)
  {
    var name := stage.name;
    var completed := IsCompleted(s.entries, name);
    if look.present {
      var gate := RequiredJsonError(stage.required, look.artifact);
      if gate.Some? { AppendRestartable(s.entries, Entry(name, REJECTED, false, gate)); }
      AppendRestartable(s.entries, Entry(name, COMPLETED, false, None));
    } else if !completed && !stage.command {
      AppendRestartable(s.entries, Entry(name, WAITING, false, None));
      var at := LatestAt(s.entries, name);
      if at.Some? { RewriteRestartable(s.entries, at.value, s.entries[at.value].(status := WAITING)); }
    } else if !completed {
      LaunchHistory(s, name);
    }
  }

  lemma LaunchHistory(s: State, name: string)
    requires Restartable(s.entries) && !IsCompleted(s.entries, name)
    ensures forall status :: Restartable(s.entries + [Entry(name, status, true, None)])
    ensures forall status :: End(Launch(s, name), status).entries == s.entries + [Entry(name, status, true, None)]
  {
    forall status ensures Restartable(s.entries + [Entry(name, status, true, None)]) {
      AppendRestartable(s.entries, Entry(name, status, true, None));
    }
  }

  lemma {:induction false} PassHistory(stages: seq<Stage>, looks: nat -> Look, dies: Option<nat>, s: State, n: nat)
    requires n <= |stages| && Restartable(s.entries)
    ensures Restartable(After(stages, looks, dies, s, n).state.entries)
    ensures KeepsCompleted(s.entries, After(stages, looks, dies, s, n).state.entries)
  {
    if n > 0 {
      PassHistory(stages, looks, dies, s, n - 1);
      StepHistory(After(stages, looks, dies, s, n - 1).state, stages[n - 1], looks(n - 1));
    }
  }

  /** One invocation of the supervisor, possibly with another configuration. */
  datatype Invocation = Invocation(stages: seq<Stage>, looks: nat -> Look, dies: Option<nat>)

  function Invoke(runs: seq<Invocation>): State {
    if runs == [] then FRESH
    else
      var run := runs[|runs| - 1];
      Pass(run.stages, run.looks, run.dies, Invoke(runs[..|runs| - 1])).state
  }

  /**
   * Over any number of invocations, with artifacts appearing or vanishing and crashes anywhere: no started entry
   * directly follows a COMPLETED entry of its stage, and no COMPLETED entry is ever lost or changed.
   */
  lemma {:induction false} EveryHistoryIsRestartable(runs: seq<Invocation>, k: nat)
    requires k <= |runs|
    ensures Restartable(Invoke(runs).entries)
    ensures KeepsCompleted(Invoke(runs[..k]).entries, Invoke(runs).entries)
    decreases |runs|
  {
    if runs == [] {
    } else {
      var n := |runs| - 1;
      var run := runs[n];
      if k <= n {
        assert runs[..n][..k] == runs[..k];
        EveryHistoryIsRestartable(runs[..n], k);
      } else {
        assert runs[..k] == runs;
        EveryHistoryIsRestartable(runs[..n], n);
      }
      PassHistory(run.stages, run.looks, run.dies, Invoke(runs[..n]), |run.stages|);
    }
  }

  lemma TwoStages(stages: seq<Stage>, looks: nat -> Look, s: State, mid: State, end: State)
    requires |stages| == 2
    requires StageStep(s, stages[0], looks(0)) == Outcome(mid, None, true)
    requires StageStep(mid, stages[1], looks(1)) == Outcome(end, None, true)
    ensures Pass(stages, looks, None, s).ran == [0, 1] && Pass(stages, looks, None, s).halt == Some(AllDone)
  {
    var start := Progress(s, None, []);
    assert After(stages, looks, None, s, 0) == start;
    NextStage(stages, looks, None, s, 0, start, Outcome(mid, None, true));
    NextStage(stages, looks, None, s, 1, Progress(mid, None, [0]), Outcome(end, None, true));
    assert [0] + [1] == [0, 1] && [] + [0] == [0];
  }

  const OK_REQUIRED := Obj(Field("ok", Bool(true), NoFields))

  /** A stage that requires `ok` to be true, and a stage that requires nothing; both have commands. */
  const TRAIN_AND_PUBLISH := [Stage("train", Some(OK_REQUIRED), true), Stage("publish", None, true)]

  /** No artifact is found; the command succeeds and leaves `null`. */
  const LEAVES_NULL := Look(false, None, 0, true, Some(Null), false)

  /**
   * The gate is not checked right after a command: here the first command leaves an artifact that its gate refuses, the
   * second command starts all the same, and the pass ends with everything done.
   */
  lemma GateIsNotCheckedAfterTheCommand()
    ensures var p := Pass(TRAIN_AND_PUBLISH, _ => LEAVES_NULL, None, FRESH);
            p.ran == [0, 1] && p.halt == Some(AllDone)
    ensures RequiredJsonError(TRAIN_AND_PUBLISH[0].required, OnDisk(LEAVES_NULL)) == Some(NotAnObject)
    ensures !GatesHold(TRAIN_AND_PUBLISH, _ => LEAVES_NULL, 1)
  {
    var train, publish := TRAIN_AND_PUBLISH[0], TRAIN_AND_PUBLISH[1];
    assert "train"[0] == 't' && "publish"[0] == 'p';
    var one := Entry(train.name, COMPLETED, true, None);
    var mid := FRESH.(entries := [one]);
    var end := FRESH.(entries := [one, Entry(publish.name, COMPLETED, true, None)]);
    RunsFresh(FRESH, train, LEAVES_NULL, mid);
    assert [one][..0] == [];
    RunsFresh(mid, publish, LEAVES_NULL, end);
    TwoStages(TRAIN_AND_PUBLISH, _ => LEAVES_NULL, FRESH, mid, end);
    var looks := (_: nat) => LEAVES_NULL;
    assert RequiredJsonError(TRAIN_AND_PUBLISH[0].required, OnDisk(looks(0))) == Some(NotAnObject);
  }

  /**
   * A stage that is not completed and not present runs its command; here the command succeeds and leaves the artifact.
   */
  lemma RunsFresh(s: State, stage: Stage, look: Look, after: State)
    requires look.exitCode == 0 && look.presentAfter && !look.present && !look.crash && stage.command
    requires !IsCompleted(s.entries, stage.name)
    requires after == s.(entries := s.entries + [Entry(stage.name, COMPLETED, true, None)])
    ensures StageStep(s, stage, look) == Outcome(after, None, true)
  {
    assert End(Launch(s, stage.name), COMPLETED).entries == s.entries + [Entry(stage.name, COMPLETED, true, None)];
  }
}
