/** `_assemble_episode`: from the accepted events of one episode to its canonical, classified form. */
module Episodes {
  import opened Options
  import opened Json
  import opened Trace
  import opened Ordering
  import opened Instants

  datatype Context = Context(taskId: string, manifests: Fields)

  datatype Artifact = Artifact(id: string, content: string)

  datatype IntegrityState = COMPLETE | PARTIAL | CORRUPT

  /** Checksums are injective, so a digest is its content. */
  datatype Digest = Digest(context: Context, events: seq<Event>, artifacts: seq<Artifact>)

  datatype Outcome = Outcome(taskStatus: string, validity: string, verifier: string, score: Option<Json>,
                             evidence: seq<string>)

  datatype Termination = Termination(reason: string, source: Option<string>)

  /** All that depends only on which events the episode holds. */
  datatype Core = Core(
    episodeId: string, runId: string, context: Context, events: seq<Event>, artifacts: seq<Artifact>,
    startedAt: int, endedAt: int, outcome: Outcome, termination: Termination,
    state: IntegrityState, gaps: seq<nat>, collisions: seq<nat>, orphans: seq<string>,
    missingTypes: seq<EventType>, missingArtifacts: seq<string>, invalidOutcome: bool, invalidReason: bool,
    digest: Digest)

  /** The episode: its core, how many duplicates arrived, and the lineage of arrivals. */
  datatype Episode = Episode(core: Core, duplicates: nat, arrivals: seq<Event>)

  /**
   * Why a group of events makes no episode. The first three are contract errors, which fail that group alone; an
   * integer score that no double can hold raises what nobody catches, and so ends the whole assembly.
   */
  datatype EpisodeError = MultipleRuns | EndsBeforeStart | DanglingEvidence | ScoreOverflow

  // ---------------------------------------------------------------- the canonical order

  function EventLe(): (Event, Event) -> bool {
    (a: Event, b: Event) =>
      a.sequence < b.sequence || (a.sequence == b.sequence &&
        ((a.timestamp != b.timestamp && TimeLe(a.timestamp, b.timestamp))
         || (a.timestamp == b.timestamp && TextLe(a.eventId, b.eventId))))
  }

  function Ordered(events: seq<Event>): seq<Event> {
    Sort(events, EventLe())
  }

  ghost predicate DistinctIds(events: seq<Event>) {
    forall i, j :: 0 <= i < j < |events| ==> events[i].eventId != events[j].eventId
  }

  lemma EventLeIsTotalOrder()
    ensures TotalPreorder(EventLe())
  {
    TextLeIsTotalOrder();
    TimeLeIsTotalOrder();
  }

  lemma DistinctIdsSeparate(events: seq<Event>)
    requires DistinctIds(events)
    ensures NoDup(events) && AntisymmetricOn(events, EventLe())
  {
    forall x, y | x in events && y in events && EventLe()(x, y) && EventLe()(y, x) ensures x == y {
      TextLeTotal(x.eventId, y.eventId);
      var i :| 0 <= i < |events| && events[i] == x;
      var j :| 0 <= j < |events| && events[j] == y;
      assert i < j || j < i || i == j;
    }
  }

  /** The canonical order does not depend on the order of arrival. */
  lemma OrderedIsCanonical(a: seq<Event>, b: seq<Event>)
    requires DistinctIds(a) && DistinctIds(b) && forall e :: e in a <==> e in b
    ensures Ordered(a) == Ordered(b)
  {
    EventLeIsTotalOrder();
    DistinctIdsSeparate(a);
    DistinctIdsSeparate(b);
    SameMembersSameSort(a, b, EventLe());
  }

  // ---------------------------------------------------------------- sequence numbers

  function Occurrences(events: seq<Event>, n: nat): nat {
    if events == [] then 0
    else Occurrences(events[..|events| - 1], n) + (if events[|events| - 1].sequence == n then 1 else 0)
  }

  function MaxSequence(events: seq<Event>): (m: nat)
    ensures forall i :: 0 <= i < |events| ==> events[i].sequence <= m
  {
    if events == [] then 0
    else
      var front, last := MaxSequence(events[..|events| - 1]), events[|events| - 1].sequence;
      if last < front then front else last
  }

  /** The numbers below `n` that no event carries, in order. */
  function GapsBelow(events: seq<Event>, n: nat): (s: seq<nat>)
    ensures forall k: nat :: k in s <==> k < n && Occurrences(events, k) == 0
  {
    if n == 0 then []
    else GapsBelow(events, n - 1) + (if Occurrences(events, n - 1) == 0 then [n - 1] else [])
  }

  /** The numbers below `n` that two or more events carry, in order. */
  function CollisionsBelow(events: seq<Event>, n: nat): (s: seq<nat>)
    ensures forall k: nat :: k in s <==> k < n && Occurrences(events, k) > 1
  {
    if n == 0 then []
    else CollisionsBelow(events, n - 1) + (if Occurrences(events, n - 1) > 1 then [n - 1] else [])
  }

  function Gaps(events: seq<Event>): seq<nat> {
    GapsBelow(events, MaxSequence(events) + 1)
  }

  function Collisions(events: seq<Event>): seq<nat> {
    CollisionsBelow(events, MaxSequence(events) + 1)
  }

  /** The counting loop. */
  method CountSequences(events: seq<Event>) returns (counts: map<nat, nat>)
    ensures forall n :: n in counts <==> Occurrences(events, n) > 0
    ensures forall n :: n in counts ==> counts[n] == Occurrences(events, n)
  {
    counts := map[];
    for k := 0 to |events|
      invariant forall n :: n in counts <==> Occurrences(events[..k], n) > 0
      invariant forall n :: n in counts ==> counts[n] == Occurrences(events[..k], n)
    {
      assert events[..k + 1][..k] == events[..k];
      var n := events[k].sequence;
      counts := counts[n := (if n in counts then counts[n] else 0) + 1];
    }
    assert events[..|events|] == events;
  }

  /** Gaps and collisions read off the counts. */
  method ReadCounts(ghost events: seq<Event>, counts: map<nat, nat>, n: nat)
    returns (gaps: seq<nat>, collisions: seq<nat>)
    requires forall k :: k in counts <==> Occurrences(events, k) > 0
    requires forall k :: k in counts ==> counts[k] == Occurrences(events, k)
    ensures gaps == GapsBelow(events, n) && collisions == CollisionsBelow(events, n)
  {
    gaps, collisions := [], [];
    for k := 0 to n
      invariant gaps == GapsBelow(events, k) && collisions == CollisionsBelow(events, k)
    {
      if k !in counts {
        gaps := gaps + [k];
      } else if counts[k] > 1 {
        collisions := collisions + [k];
      }
    }
  }

  // ---------------------------------------------------------------- spans, types, artifacts

  function SpanIds(events: seq<Event>): set<string> {
    set i | 0 <= i < |events| :: events[i].spanId
  }

  function OrphanSpans(events: seq<Event>, spans: set<string>): seq<string> {
    if events == [] then []
    else
      var last := events[|events| - 1];
      OrphanSpans(events[..|events| - 1], spans)
      + (if last.parent.Some? && last.parent.value !in spans then [last.spanId] else [])
  }

  function Orphans(events: seq<Event>): seq<string> {
    Sort(Dedup(OrphanSpans(events, SpanIds(events))), TextLe)
  }

  function SpansOf(events: seq<Event>, kind: EventType): set<string> {
    set i | 0 <= i < |events| && events[i].kind == kind :: events[i].spanId
  }

  predicate Unclosed(events: seq<Event>, first: EventType, last: EventType) {
    SpansOf(events, first) - SpansOf(events, last) != {}
  }

  predicate Has(events: seq<Event>, kind: EventType) {
    exists i :: 0 <= i < |events| && events[i].kind == kind
  }

  /** `_missing_expected_types`, in the order of the type names. */
  function MissingTypes(events: seq<Event>): seq<EventType> {
    (if Has(events, EpisodeFinished) then [] else [EpisodeFinished])
    + (if Unclosed(events, ModelRequest, ModelResponse) then [ModelResponse] else [])
    + (if Unclosed(events, SandboxStarted, SandboxFinished) then [SandboxFinished] else [])
    + (if Unclosed(events, ToolCall, ToolResult) then [ToolResult] else [])
    + (if Unclosed(events, VerificationStarted, VerificationFinished) then [VerificationFinished] else [])
  }

  function RefsOf(events: seq<Event>): seq<string> {
    if events == [] then [] else RefsOf(events[..|events| - 1]) + events[|events| - 1].artifactRefs
  }

  /** The ids that are (or are not) in the index, in order. */
  function Known(ids: seq<string>, index: map<string, Artifact>, present: bool): (r: seq<string>)
    ensures forall id :: id in r <==> id in ids && (id in index <==> present)
  {
    if ids == [] then []
    else
      var front, last := Known(ids[..|ids| - 1], index, present), ids[|ids| - 1];
      assert ids == ids[..|ids| - 1] + [last];
      if last in index <==> present then front + [last] else front
  }

  function Requested(events: seq<Event>): seq<string> {
    Sort(Dedup(RefsOf(events)), TextLe)
  }

  function MissingArtifacts(events: seq<Event>, index: map<string, Artifact>): seq<string> {
    Known(Requested(events), index, false)
  }

  function Resolved(events: seq<Event>, index: map<string, Artifact>): seq<Artifact> {
    var found := Known(Requested(events), index, true);
    seq(|found|, i requires 0 <= i < |found| => index[found[i]])
  }

  // ---------------------------------------------------------------- terminal facts

  const TASK_STATUSES := {"SUCCESS", "FAILURE", "UNKNOWN"}
  const VALIDITIES := {"VALID", "INFRA_INVALID", "UNKNOWN"}
  const VERIFIER_STATUSES := {"PASSED", "FAILED", "ERROR", "TIMEOUT", "NOT_RUN", "UNKNOWN"}

  function Terminals(events: seq<Event>): seq<Event> {
    if events == [] then []
    else
      Terminals(events[..|events| - 1])
      + (if events[|events| - 1].kind == EpisodeFinished then [events[|events| - 1]] else [])
  }

  function Declared(f: Fields, key: string, allowed: set<string>): Option<string> {
    match Get(f, key)
    case None => Some("UNKNOWN")
    case Some(Str(s)) => if s in allowed then Some(s) else None
    case _ => None
  }

  function DeclaredScore(f: Fields): Option<Option<Json>> {
    match Get(f, "score")
    case None => Some(None)
    case Some(Null) => Some(None)
    case Some(Num(n)) => Some(Some(Num(n)))
    case _ => None
  }

  function Texts(items: Items): Option<seq<string>> {
    match items
    case NoItems => Some([])
    case Item(Str(s), more) => (match Texts(more) { case None => None case Some(t) => Some([s] + t) })
    case _ => None
  }

  function FieldNames(f: Fields): seq<string> {
    match f
    case NoFields => []
    case Field(k, _, rest) => [k] + FieldNames(rest)
  }

  /** `tuple(value)`: the elements of a list, the characters of a text, the keys of an object. */
  function DeclaredEvidence(f: Fields): Option<seq<string>> {
    match Get(f, "evidence_event_ids")
    case None => Some([])
    case Some(Arr(items)) => Texts(items)
    case Some(Str(s)) => Some(seq(|s|, i requires 0 <= i < |s| => [s[i]]))
    case Some(Obj(g)) => Some(FieldNames(g))
    case _ => None
  }

  predicate ValidEvidence(ids: seq<string>) {
    && (forall i :: 0 <= i < |ids| ==> Text(ids[i]))
    && (forall i, j :: 0 <= i < j < |ids| ==> ids[i] != ids[j])
  }

  /** The outcome and whether the terminal event declared it validly. */
  function DeriveOutcome(terminal: Option<Event>): (Outcome, bool) {
    match terminal
    case None => (Outcome("UNKNOWN", "UNKNOWN", "UNKNOWN", None, []), true)
    case Some(e) =>
      var f := e.attributes;
      match (Declared(f, "task_status", TASK_STATUSES), Declared(f, "execution_validity", VALIDITIES),
             Declared(f, "verifier_status", VERIFIER_STATUSES), DeclaredScore(f), DeclaredEvidence(f))
      case (Some(task), Some(validity), Some(verifier), Some(score), Some(ids)) =>
        var evidence := if ids == [] then [e.eventId] else ids;
        if ValidEvidence(evidence) then (Outcome(task, validity, verifier, score, evidence), true)
        else (Outcome("UNKNOWN", "UNKNOWN", "UNKNOWN", None, [e.eventId]), false)
      case _ => (Outcome("UNKNOWN", "UNKNOWN", "UNKNOWN", None, [e.eventId]), false)
  }

  const TWO_64 := 0x1_0000_0000_0000_0000
  const TWO_256 := TWO_64 * TWO_64 * TWO_64 * TWO_64

  /** 2^1024 - 2^970: from here on an integer rounds to more than the largest double. */
  const FLOAT_LIMIT := TWO_256 * TWO_256 * TWO_256 * (TWO_256 - TWO_64 * TWO_64 * TWO_64 * 1024)

  /** An integer literal that `float` refuses; literals with a fraction or an exponent are doubles already. */
  predicate TooLarge(literal: string) {
    var digits := if literal != "" && literal[0] == '-' then literal[1..] else literal;
    (forall i :: 0 <= i < |digits| ==> Digit(digits[i])) && DecimalValue(digits) >= FLOAT_LIMIT
  }

  /** `tuple(value)` does not raise. */
  predicate EvidenceIterable(f: Fields) {
    match Get(f, "evidence_event_ids")
    case None => true
    case Some(v) => v.Arr? || v.Str? || v.Obj?
  }

  /** `EpisodeOutcome` gets as far as the conversion of the score, and the score is too large for it. */
  predicate ScoreOverflows(terminal: Option<Event>) {
    terminal.Some? &&
      var f := terminal.value.attributes;
      && Declared(f, "task_status", TASK_STATUSES).Some?
      && Declared(f, "execution_validity", VALIDITIES).Some?
      && Declared(f, "verifier_status", VERIFIER_STATUSES).Some?
      && EvidenceIterable(f)
      && (match Get(f, "score") { case Some(Num(literal)) => TooLarge(literal) case _ => false })
  }

  function DeriveTermination(terminal: Option<Event>): (Termination, bool) {
    match terminal
    case None => (Termination("CAPTURE_INTERRUPTED", None), true)
    case Some(e) =>
      match Get(e.attributes, "termination_reason")
      case None => (Termination("UNSPECIFIED", Some(e.eventId)), true)
      case Some(Str(s)) =>
        if Text(s) then (Termination(s, Some(e.eventId)), true)
        else (Termination("UNSPECIFIED", Some(e.eventId)), false)
      case Some(_) => (Termination("UNSPECIFIED", Some(e.eventId)), false)
  }

  // ---------------------------------------------------------------- assembly

  predicate OneRun(events: seq<Event>) {
    forall i, j :: 0 <= i < j < |events| ==> events[i].runId == events[j].runId
  }

  /** The timestamp whose text comes first. */
  function MinTime(events: seq<Event>): int
    requires events != []
  {
    if |events| == 1 then events[0].timestamp
    else
      var rest := MinTime(events[1..]);
      if TimeLe(events[0].timestamp, rest) then events[0].timestamp else rest
  }

  /** The timestamp whose text comes last. */
  function MaxTime(events: seq<Event>): int
    requires events != []
  {
    if |events| == 1 then events[0].timestamp
    else
      var rest := MaxTime(events[1..]);
      if TimeLe(rest, events[0].timestamp) then events[0].timestamp else rest
  }

  function Classify(conflict: bool, collisions: seq<nat>, terminals: nat, gaps: seq<nat>,
                    orphans: seq<string>, missing: seq<EventType>, missingArtifacts: seq<string>): IntegrityState {
    if conflict || collisions != [] || terminals > 1 then CORRUPT
    else if gaps != [] || orphans != [] || missing != [] || missingArtifacts != [] then PARTIAL
    else COMPLETE
  }

  function StateOf(ordered: seq<Event>, index: map<string, Artifact>, conflict: bool): IntegrityState {
    Classify(conflict, Collisions(ordered), |Terminals(ordered)|, Gaps(ordered), Orphans(ordered),
             MissingTypes(ordered), MissingArtifacts(ordered, index))
  }

  function LastOf(events: seq<Event>): Option<Event> {
    if events == [] then None else Some(events[|events| - 1])
  }

  /** The core of the episode that the sorted events `ordered` make. */
  function CoreOf(ordered: seq<Event>, context: Context, index: map<string, Artifact>, conflict: bool): Core
    requires ordered != []
  {
    var terminals := Terminals(ordered);
    var (outcome, okOutcome) := DeriveOutcome(LastOf(terminals));
    var (termination, okReason) := DeriveTermination(LastOf(terminals));
    var artifacts := Resolved(ordered, index);
    Core(ordered[0].episodeId, ordered[0].runId, context, ordered, artifacts,
         MinTime(ordered), MaxTime(ordered), outcome, termination,
         StateOf(ordered, index, conflict), Gaps(ordered), Collisions(ordered), Orphans(ordered), MissingTypes(ordered),
         MissingArtifacts(ordered, index), !okOutcome, !okReason, Digest(context, ordered, artifacts))
  }

  predicate HasId(events: seq<Event>, id: string) {
    exists j :: 0 <= j < |events| && events[j].eventId == id
  }

  predicate AllKnown(events: seq<Event>, ids: seq<string>) {
    forall i :: 0 <= i < |ids| ==> HasId(events, ids[i])
  }

  /** Every evidence id of the outcome is an event of the episode. */
  predicate EvidenceKnown(core: Core) {
    AllKnown(core.events, core.outcome.evidence)
  }

  /** The episode contract: the end is not before the start, and the evidence is known. */
  function Checked(core: Core): (r: Result<Core, EpisodeError>)
    ensures r.Ok? ==> r.value == core
    ensures r.Ok? <==> core.startedAt <= core.endedAt && EvidenceKnown(core)
    ensures r == Err(EndsBeforeStart) <==> core.endedAt < core.startedAt
  {
    if core.endedAt < core.startedAt then Err(EndsBeforeStart)
    else if EvidenceKnown(core) then Ok(core)
    else Err(DanglingEvidence)
  }

  /** The checks in their order, given what they read. */
  function Judged(oneRun: bool, overflow: bool, core: Core): (r: Result<Core, EpisodeError>)
    ensures r.Ok? ==> r.value == core
    ensures r.Ok? <==> oneRun && !overflow && Checked(core).Ok?
    ensures r == Err(EndsBeforeStart) <==> oneRun && !overflow && core.endedAt < core.startedAt
    ensures r == Err(ScoreOverflow) <==> oneRun && overflow
  {
    if !oneRun then Err(MultipleRuns)
    else if overflow then Err(ScoreOverflow)
    else Checked(core)
  }

  function CoreResult(ordered: seq<Event>, context: Context, index: map<string, Artifact>,
                      conflict: bool): Result<Core, EpisodeError>
    requires ordered != []
  {
    Judged(OneRun(ordered), ScoreOverflows(LastOf(Terminals(ordered))), CoreOf(ordered, context, index, conflict))
  }

  lemma OrderedNonEmpty(events: seq<Event>)
    requires events != []
    ensures Ordered(events) != []
  {
    EventLeIsTotalOrder();
    SortIsSortedPermutation(events, EventLe());
  }

  function Assembled(events: seq<Event>, context: Context, index: map<string, Artifact>,
                     duplicates: nat, conflict: bool): Result<Episode, EpisodeError>
    requires events != []
  {
    OrderedNonEmpty(events);
    match CoreResult(Ordered(events), context, index, conflict)
    case Err(error) => Err(error)
    case Ok(core) => Ok(Episode(core, duplicates, events))
  }

  lemma AssembledState(events: seq<Event>, context: Context, index: map<string, Artifact>, duplicates: nat,
                       conflict: bool)
    requires events != [] && Assembled(events, context, index, duplicates, conflict).Ok?
    ensures Assembled(events, context, index, duplicates, conflict).value.core.state
            == StateOf(Ordered(events), index, conflict)
  {
    OrderedNonEmpty(events);
  }

  /** All that the episode holds, from its sorted events. */
  method DescribeEpisode(ordered: seq<Event>, context: Context, index: map<string, Artifact>, conflict: bool)
    returns (core: Core)
    requires ordered != []
    ensures core == CoreOf(ordered, context, index, conflict)
  {
    var counts := CountSequences(ordered);
    var gaps, collisions := ReadCounts(ordered, counts, MaxSequence(ordered) + 1);
    var terminals := Terminals(ordered);
    var terminal := LastOf(terminals);
    var (outcome, okOutcome) := DeriveOutcome(terminal);
    var (termination, okReason) := DeriveTermination(terminal);
    var artifacts := Resolved(ordered, index);
    var state := Classify(conflict, collisions, |terminals|, gaps, Orphans(ordered),
                          MissingTypes(ordered), MissingArtifacts(ordered, index));
    core := Core(ordered[0].episodeId, ordered[0].runId, context, ordered, artifacts,
                 MinTime(ordered), MaxTime(ordered), outcome, termination, state, gaps, collisions,
                 Orphans(ordered), MissingTypes(ordered), MissingArtifacts(ordered, index),
                 !okOutcome, !okReason, Digest(context, ordered, artifacts));
  }

  method AssembleEpisode(events: seq<Event>, context: Context, index: map<string, Artifact>,
                         duplicates: nat, conflict: bool) returns (r: Result<Episode, EpisodeError>)
    requires events != []
    ensures r == Assembled(events, context, index, duplicates, conflict)
  {
    OrderedNonEmpty(events);
    var ordered := Ordered(events);
    if !OneRun(ordered) {
      return Err(MultipleRuns);
    }
    if ScoreOverflows(LastOf(Terminals(ordered))) {
      return Err(ScoreOverflow);
    }
    var core := DescribeEpisode(ordered, context, index, conflict);
    var checked := Checked(core);
    return match checked { case Ok(episode) => Ok(Episode(episode, duplicates, events)) case Err(error) => Err(error) };
  }

  // ---------------------------------------------------------------- what COMPLETE means

  /** The events form an unbroken, properly closed record of one episode. */
  ghost predicate WholeRecord(ordered: seq<Event>, index: map<string, Artifact>) {
    && AtPositions(ordered)
    && ParentsOccur(ordered)
    && Closed(ordered, ModelRequest, ModelResponse)
    && Closed(ordered, ToolCall, ToolResult)
    && Closed(ordered, SandboxStarted, SandboxFinished)
    && Closed(ordered, VerificationStarted, VerificationFinished)
    && HasOne(ordered, EpisodeFinished)
    && RefsResolve(ordered, index)
  }

  ghost predicate AtPositions(ordered: seq<Event>) {
    forall i :: 0 <= i < |ordered| ==> ordered[i].sequence == i
  }

  ghost predicate ParentsOccur(events: seq<Event>) {
    forall i :: 0 <= i < |events| && events[i].parent.Some? ==>
      exists j :: 0 <= j < |events| && events[j].spanId == events[i].parent.value
  }

  ghost predicate RefsResolve(events: seq<Event>, index: map<string, Artifact>) {
    forall i, k :: 0 <= i < |events| && 0 <= k < |events[i].artifactRefs| ==> events[i].artifactRefs[k] in index
  }

  /** Every span that a `first` event starts is ended by a `last` event. */
  ghost predicate Closed(events: seq<Event>, first: EventType, last: EventType) {
    forall i :: 0 <= i < |events| && events[i].kind == first ==>
      exists j :: 0 <= j < |events| && events[j].kind == last && events[j].spanId == events[i].spanId
  }

  lemma ClosedIff(events: seq<Event>, first: EventType, last: EventType)
    ensures Closed(events, first, last) <==> !Unclosed(events, first, last)
  {
    if Closed(events, first, last) {
      assert SpansOf(events, first) <= SpansOf(events, last);
    } else {
      var i :| 0 <= i < |events| && events[i].kind == first &&
        forall j :: 0 <= j < |events| && events[j].kind == last ==> events[j].spanId != events[i].spanId;
      assert events[i].spanId in SpansOf(events, first) - SpansOf(events, last);
    }
  }

  lemma {:induction false} OccurrencesPositive(events: seq<Event>, n: nat)
    ensures Occurrences(events, n) > 0 <==> exists i :: 0 <= i < |events| && events[i].sequence == n
    ensures Occurrences(events, n) > 1 <==>
            exists i, j :: 0 <= i < j < |events| && events[i].sequence == n && events[j].sequence == n
  {
    if events != [] {
      var k := |events| - 1;
      var front := events[..k];
      OccurrencesPositive(front, n);
      if i :| 0 <= i < |front| && front[i].sequence == n { assert events[i].sequence == n; }
      if i, j :| 0 <= i < j < |front| && front[i].sequence == n && front[j].sequence == n {
        assert events[i].sequence == n && events[j].sequence == n;
      }
      forall i | 0 <= i < k && events[i].sequence == n ensures front[i].sequence == n {}
    }
  }

  /** No gap and no collision in sorted events: the sequence numbers are the positions. */
  lemma NumberedIff(ordered: seq<Event>)
    requires ordered != [] && Sorted(ordered, EventLe())
    ensures Gaps(ordered) == [] && Collisions(ordered) == [] <==> AtPositions(ordered)
  {
    if Gaps(ordered) == [] && Collisions(ordered) == [] {
      SortedRises(ordered);
      NoGapMeansPositions(ordered, |ordered|);
    }
    if AtPositions(ordered) {
      forall n: nat ensures n !in Gaps(ordered) && n !in Collisions(ordered) {
        OccurrencesPositive(ordered, n);
        MaxIsReached(ordered);
        if n <= MaxSequence(ordered) { assert ordered[n].sequence == n; }
      }
      EmptyIffNoMember(Gaps(ordered));
      EmptyIffNoMember(Collisions(ordered));
    }
  }

  lemma {:induction false} MaxIsReached(events: seq<Event>)
    requires events != []
    ensures exists i :: 0 <= i < |events| && events[i].sequence == MaxSequence(events)
  {
    var k := |events| - 1;
    if MaxSequence(events) == events[k].sequence {
    } else {
      MaxIsReached(events[..k]);
      var i :| 0 <= i < k && events[..k][i].sequence == MaxSequence(events[..k]);
      assert events[i] == events[..k][i];
    }
  }

  ghost predicate Rising(events: seq<Event>) {
    forall i, j :: 0 <= i < j < |events| ==> events[i].sequence < events[j].sequence
  }

  lemma {:induction false} RisesAbovePositions(events: seq<Event>, n: nat)
    requires Rising(events) && n <= |events|
    ensures forall i :: 0 <= i < n ==> i <= events[i].sequence
  {
    if n > 1 {
      RisesAbovePositions(events, n - 1);
      assert events[n - 2].sequence < events[n - 1].sequence;
    }
  }

  lemma {:induction false} NoGapMeansPositions(events: seq<Event>, n: nat)
    requires Rising(events) && Gaps(events) == [] && n <= |events|
    ensures forall i :: 0 <= i < n ==> events[i].sequence == i
  {
    if n > 0 {
      var k := n - 1;
      NoGapMeansPositions(events, k);
      RisesAbovePositions(events, |events|);
      assert k !in Gaps(events);
      OccurrencesPositive(events, k);
      var i :| 0 <= i < |events| && events[i].sequence == k;
      assert i <= k;
      assert i == k;
    }
  }

  lemma SortedRises(ordered: seq<Event>)
    requires Sorted(ordered, EventLe()) && Collisions(ordered) == []
    ensures Rising(ordered)
  {
    CollisionsIff(ordered);
    forall i, j | 0 <= i < j < |ordered| ensures ordered[i].sequence < ordered[j].sequence {
      assert EventLe()(ordered[i], ordered[j]);
    }
  }

  lemma OrphansEmptyIff(events: seq<Event>)
    ensures Orphans(events) == [] <==> ParentsOccur(events)
  {
    TextLeIsTotalOrder();
    var listed := OrphanSpans(events, SpanIds(events));
    DedupKeeps(listed);
    SortIsSortedPermutation(Dedup(listed), TextLe);
    OrphanSpansEmptyIff(events, SpanIds(events));
    EmptyIffNoMember(listed);
    EmptyIffNoMember(Orphans(events));
  }

  lemma EmptyIffNoMember<T>(s: seq<T>)
    ensures s == [] <==> forall x :: x !in s
  {
    if s != [] { assert s[0] in s; }
  }

  lemma {:induction false} OrphanSpansEmptyIff(events: seq<Event>, spans: set<string>)
    ensures OrphanSpans(events, spans) == [] <==>
            forall i :: 0 <= i < |events| && events[i].parent.Some? ==> events[i].parent.value in spans
  {
    if events != [] {
      var k := |events| - 1;
      OrphanSpansEmptyIff(events[..k], spans);
      assert forall i :: 0 <= i < k ==> events[..k][i] == events[i];
    }
  }

  lemma MissingArtifactsEmptyIff(events: seq<Event>, index: map<string, Artifact>)
    ensures MissingArtifacts(events, index) == [] <==> RefsResolve(events, index)
  {
    TextLeIsTotalOrder();
    DedupKeeps(RefsOf(events));
    SortIsSortedPermutation(Dedup(RefsOf(events)), TextLe);
    EmptyIffNoMember(MissingArtifacts(events, index));
    forall id ensures id in RefsOf(events) <==> Refers(events, id) { RefsMembers(events, id); }
    if !RefsResolve(events, index) {
      var i, k :| 0 <= i < |events| && 0 <= k < |events[i].artifactRefs| && events[i].artifactRefs[k] !in index;
      assert Refers(events, events[i].artifactRefs[k]);
      assert events[i].artifactRefs[k] in MissingArtifacts(events, index);
    }
  }

  ghost predicate Refers(events: seq<Event>, id: string) {
    exists i :: 0 <= i < |events| && id in events[i].artifactRefs
  }

  lemma {:induction false} RefsMembers(events: seq<Event>, id: string)
    ensures id in RefsOf(events) <==> Refers(events, id)
  {
    if events != [] {
      RefsMembers(events[..|events| - 1], id);
      RefersGrows(events, id);
    }
  }

  lemma RefersGrows(events: seq<Event>, id: string)
    requires events != []
    ensures Refers(events, id) <==> Refers(events[..|events| - 1], id) || id in events[|events| - 1].artifactRefs
  {
    var front := events[..|events| - 1];
    if i :| 0 <= i < |front| && id in front[i].artifactRefs { assert id in events[i].artifactRefs; }
    if i :| 0 <= i < |events| && id in events[i].artifactRefs { assert i < |front| ==> id in front[i].artifactRefs; }
  }

  lemma {:induction false} TerminalCount(events: seq<Event>)
    ensures |Terminals(events)| > 0 <==> Has(events, EpisodeFinished)
    ensures |Terminals(events)| > 1 <==> HasTwo(events, EpisodeFinished)
  {
    if events != [] {
      var k := |events| - 1;
      var front := events[..k];
      TerminalCount(front);
      assert forall i :: 0 <= i < k ==> front[i] == events[i];
      assert Has(front, EpisodeFinished) ==> Has(events, EpisodeFinished);
      assert HasTwo(front, EpisodeFinished) ==> HasTwo(events, EpisodeFinished);
      if events[k].kind == EpisodeFinished && Has(front, EpisodeFinished) {
        var i :| 0 <= i < |front| && front[i].kind == EpisodeFinished;
        assert events[i].kind == EpisodeFinished;
      }
    }
  }

  predicate HasTwo(events: seq<Event>, kind: EventType) {
    exists i, j :: 0 <= i < j < |events| && events[i].kind == kind && events[j].kind == kind
  }

  /** Exactly one event of the kind. */
  ghost predicate HasOne(events: seq<Event>, kind: EventType) {
    Has(events, kind) && forall i, j :: 0 <= i < j < |events| ==> !(events[i].kind == kind && events[j].kind == kind)
  }

  lemma StateComplete(ordered: seq<Event>, index: map<string, Artifact>, conflict: bool)
    requires ordered != [] && Sorted(ordered, EventLe())
    ensures StateOf(ordered, index, conflict) == COMPLETE <==> !conflict && WholeRecord(ordered, index)
  {
    var gaps, collisions, terminals := Gaps(ordered), Collisions(ordered), |Terminals(ordered)|;
    var orphans, missing, artifacts := Orphans(ordered), MissingTypes(ordered), MissingArtifacts(ordered, index);
    assert StateOf(ordered, index, conflict) == COMPLETE <==>
      !conflict && collisions == [] && terminals <= 1 && gaps == [] && orphans == [] && missing == []
        && artifacts == [];
    NumberedIff(ordered);
    OrphansEmptyIff(ordered);
    MissingArtifactsEmptyIff(ordered, index);
    OneTerminal(ordered);
    TypesMissingIff(ordered);
  }

  lemma OneTerminal(events: seq<Event>)
    ensures HasOne(events, EpisodeFinished) <==> Has(events, EpisodeFinished) && |Terminals(events)| <= 1
  {
    TerminalCount(events);
  }

  lemma TypesMissingIff(events: seq<Event>)
    ensures MissingTypes(events) == [] <==>
            && Has(events, EpisodeFinished)
            && Closed(events, ModelRequest, ModelResponse) && Closed(events, ToolCall, ToolResult)
            && Closed(events, SandboxStarted, SandboxFinished)
            && Closed(events, VerificationStarted, VerificationFinished)
  {
    ClosedIff(events, ModelRequest, ModelResponse);
    ClosedIff(events, ToolCall, ToolResult);
    ClosedIff(events, SandboxStarted, SandboxFinished);
    ClosedIff(events, VerificationStarted, VerificationFinished);
  }

  lemma CollisionsIff(events: seq<Event>)
    ensures Collisions(events) != [] <==>
            exists i, j :: 0 <= i < j < |events| && events[i].sequence == events[j].sequence
  {
    EmptyIffNoMember(Collisions(events));
    if i, j :| 0 <= i < j < |events| && events[i].sequence == events[j].sequence {
      OccurrencesPositive(events, events[i].sequence);
      assert events[i].sequence in Collisions(events);
    }
    if Collisions(events) != [] {
      var n := Collisions(events)[0];
      assert n in Collisions(events);
      OccurrencesPositive(events, n);
    }
  }

  /** A conflicting id touched the episode, two events carry one sequence number, or there are two terminal events. */
  ghost predicate Damaged(ordered: seq<Event>, conflict: bool) {
    || conflict
    || (exists i, j :: 0 <= i < j < |ordered| && ordered[i].sequence == ordered[j].sequence)
    || HasTwo(ordered, EpisodeFinished)
  }

  lemma StateCorrupt(ordered: seq<Event>, index: map<string, Artifact>, conflict: bool)
    ensures StateOf(ordered, index, conflict) == CORRUPT <==> Damaged(ordered, conflict)
  {
    TerminalCount(ordered);
    CollisionsIff(ordered);
  }

  lemma OrderedComplete(events: seq<Event>, index: map<string, Artifact>, conflict: bool)
    requires events != []
    ensures StateOf(Ordered(events), index, conflict) == COMPLETE <==> !conflict && WholeRecord(Ordered(events), index)
  {
    EventLeIsTotalOrder();
    SortIsSortedPermutation(events, EventLe());
    StateComplete(Ordered(events), index, conflict);
  }

  /** COMPLETE means exactly: no conflicting id touched the episode, and the events are a whole record. */
  lemma CompleteIff(events: seq<Event>, context: Context, index: map<string, Artifact>, duplicates: nat, conflict: bool)
    requires events != [] && Assembled(events, context, index, duplicates, conflict).Ok?
    ensures Assembled(events, context, index, duplicates, conflict).value.core.state == COMPLETE <==>
            !conflict && WholeRecord(Ordered(events), index)
  {
    AssembledState(events, context, index, duplicates, conflict);
    OrderedComplete(events, index, conflict);
  }

  /** CORRUPT means exactly: a conflicting id, two events with one sequence number, or two terminal events. */
  lemma CorruptIff(events: seq<Event>, context: Context, index: map<string, Artifact>, duplicates: nat, conflict: bool)
    requires events != [] && Assembled(events, context, index, duplicates, conflict).Ok?
    ensures Assembled(events, context, index, duplicates, conflict).value.core.state == CORRUPT <==>
            Damaged(Ordered(events), conflict)
  {
    AssembledState(events, context, index, duplicates, conflict);
    StateCorrupt(Ordered(events), index, conflict);
  }
}
