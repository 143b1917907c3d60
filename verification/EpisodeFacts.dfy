/** What the lists and times of an assembled episode are, element by element. */
module EpisodeFacts {
  import opened Options
  import opened Json
  import opened Trace
  import opened Ordering
  import opened Instants
  import opened Episodes

  /** A list in code-point order without repeats: the only such list with its members. */
  ghost predicate Listing(ids: seq<string>) {
    Sorted(ids, TextLe) && NoDup(ids)
  }

  lemma ListingIsUnique(a: seq<string>, b: seq<string>)
    requires Listing(a) && Listing(b) && forall id :: id in a <==> id in b
    ensures a == b
  {
    TextLeIsTotalOrder();
    forall x, y | TextLe(x, y) && TextLe(y, x) ensures x == y { TextLeTotal(x, y); }
    SameMembersSameMultiset(a, b);
    SortedPermutationIsUnique(a, b, TextLe);
  }

  /** `sorted({...})` of text is a listing of the collected ids. */
  lemma SortedSetIsListing(ids: seq<string>)
    ensures Listing(Sort(Dedup(ids), TextLe))
    ensures forall id :: id in Sort(Dedup(ids), TextLe) <==> id in ids
  {
    TextLeIsTotalOrder();
    DedupKeeps(ids);
    SortIsSortedPermutation(Dedup(ids), TextLe);
    NoDupMultiset(Dedup(ids));
    NoDupFromMultiset(Sort(Dedup(ids), TextLe));
  }

  lemma {:induction false} KnownListing(ids: seq<string>, index: map<string, Artifact>, present: bool)
    requires Listing(ids)
    ensures Listing(Known(ids, index, present))
    decreases |ids|
  {
    if ids != [] {
      var n := |ids| - 1;
      var front := Known(ids[..n], index, present);
      KnownListing(ids[..n], index, present);
      forall id | id in front ensures TextLe(id, ids[n]) && id != ids[n] {
        var k :| 0 <= k < n && ids[..n][k] == id;
        assert ids[k] == id;
      }
      ListingGrows(front, ids[n]);
    }
  }

  lemma ListingGrows(front: seq<string>, last: string)
    requires Listing(front) && forall id :: id in front ==> TextLe(id, last) && id != last
    ensures Listing(front + [last])
  {
    forall i | 0 <= i < |front| ensures TextLe(front[i], last) && front[i] != last {
      assert front[i] in front;
    }
  }

  /** The event's parent is no span of the episode. */
  predicate Orphaned(events: seq<Event>, e: Event) {
    e.parent.Some? && e.parent.value !in SpanIds(events)
  }

  ghost predicate IsOrphan(events: seq<Event>, all: seq<Event>, span: string) {
    exists i :: 0 <= i < |events| && events[i].spanId == span && Orphaned(all, events[i])
  }

  lemma {:induction false} OrphanMember(events: seq<Event>, all: seq<Event>, span: string)
    ensures span in OrphanSpans(events, SpanIds(all)) <==> IsOrphan(events, all, span)
    decreases |events|
  {
    if events != [] {
      var n := |events| - 1;
      OrphanMember(events[..n], all, span);
      assert forall i :: 0 <= i < n ==> events[..n][i] == events[i];
      if i :| 0 <= i < |events[..n]| && events[..n][i].spanId == span && Orphaned(all, events[..n][i]) {
        assert events[i].spanId == span && Orphaned(all, events[i]);
      }
    }
  }

  /** The orphan list: in order and once each, exactly the spans of events whose parent does not occur. */
  lemma OrphansAre(events: seq<Event>)
    ensures Listing(Orphans(events))
    ensures forall span :: span in Orphans(events) <==> IsOrphan(events, events, span)
  {
    SortedSetIsListing(OrphanSpans(events, SpanIds(events)));
    forall span
      ensures span in Orphans(events) <==> IsOrphan(events, events, span)
    {
      OrphanMember(events, events, span);
    }
  }

  /** No other listing holds exactly the orphaned spans. */
  lemma OrphansAreDetermined(events: seq<Event>, spans: seq<string>)
    requires Listing(spans) && forall span :: span in spans <==> IsOrphan(events, events, span)
    ensures Orphans(events) == spans
  {
    OrphansAre(events);
    ListingIsUnique(Orphans(events), spans);
  }

  /**
   * The artifact lists: in order and once each, exactly the referenced ids that the index lacks, and exactly the
   * artifacts of the referenced ids that it has.
   */
  lemma ArtifactsAre(events: seq<Event>, index: map<string, Artifact>)
    ensures Listing(MissingArtifacts(events, index))
    ensures forall id :: id in MissingArtifacts(events, index) <==> Refers(events, id) && id !in index
    ensures var ids := Known(Requested(events), index, true);
            && Listing(ids) && (forall id :: id in ids <==> Refers(events, id) && id in index)
            && |Resolved(events, index)| == |ids|
            && forall i :: 0 <= i < |ids| ==> Resolved(events, index)[i] == index[ids[i]]
  {
    SortedSetIsListing(RefsOf(events));
    KnownListing(Requested(events), index, false);
    KnownListing(Requested(events), index, true);
    forall id ensures id in Requested(events) <==> Refers(events, id) { RefsMembers(events, id); }
    var ids := Known(Requested(events), index, true);
    forall i | 0 <= i < |ids| ensures ids[i] in index { assert ids[i] in ids; }
  }

  /** The listings of the missing and of the found ids determine both artifact lists. */
  lemma ArtifactsAreDetermined(events: seq<Event>, index: map<string, Artifact>, missing: seq<string>,
                               found: seq<string>)
    requires Listing(missing) && forall id :: id in missing <==> Refers(events, id) && id !in index
    requires Listing(found) && forall id :: id in found <==> Refers(events, id) && id in index
    ensures MissingArtifacts(events, index) == missing
    ensures |Resolved(events, index)| == |found|
    ensures forall i :: 0 <= i < |found| ==> found[i] in index && Resolved(events, index)[i] == index[found[i]]
  {
    ArtifactsAre(events, index);
    ListingIsUnique(MissingArtifacts(events, index), missing);
    ListingIsUnique(Known(Requested(events), index, true), found);
    forall i | 0 <= i < |found| ensures found[i] in index { assert found[i] in found; }
  }

  /** The episode starts at the timestamp whose text comes first and ends at the one whose text comes last. */
  lemma {:induction false} TimesAre(events: seq<Event>)
    requires events != []
    ensures forall i :: 0 <= i < |events| ==>
              TimeLe(MinTime(events), events[i].timestamp) && TimeLe(events[i].timestamp, MaxTime(events))
    ensures exists i :: 0 <= i < |events| && events[i].timestamp == MinTime(events)
    ensures exists i :: 0 <= i < |events| && events[i].timestamp == MaxTime(events)
    decreases |events|
  {
    if |events| == 1 {
      assert events[0].timestamp == MinTime(events) == MaxTime(events);
    } else {
      var rest := events[1..];
      TimesAre(rest);
      forall i | 0 <= i < |events|
        ensures TimeLe(MinTime(events), events[i].timestamp) && TimeLe(events[i].timestamp, MaxTime(events))
      {
        if i > 0 { assert rest[i - 1] == events[i]; }
      }
      var first :| 0 <= first < |rest| && rest[first].timestamp == MinTime(rest);
      var last :| 0 <= last < |rest| && rest[last].timestamp == MaxTime(rest);
      assert events[first + 1] == rest[first] && events[last + 1] == rest[last];
      var low := if TimeLe(events[0].timestamp, MinTime(rest)) then 0 else first + 1;
      var high := if TimeLe(MaxTime(rest), events[0].timestamp) then 0 else last + 1;
      assert events[low].timestamp == MinTime(events) && events[high].timestamp == MaxTime(events);
    }
  }

  /** All events lie in one second, one of them on it and another inside it. */
  ghost predicate SplitSecond(events: seq<Event>) {
    && (forall i, j :: 0 <= i < j < |events| ==> Second(events[i].timestamp) == Second(events[j].timestamp))
    && (exists i :: 0 <= i < |events| && Whole(events[i].timestamp))
    && (exists i :: 0 <= i < |events| && !Whole(events[i].timestamp))
  }

  /** The last text stands for an earlier instant than the first exactly when the events split one second. */
  lemma EndsBeforeStartIff(events: seq<Event>)
    requires events != []
    ensures MaxTime(events) < MinTime(events) <==> SplitSecond(events)
  {
    TimesAre(events);
    var first :| 0 <= first < |events| && events[first].timestamp == MinTime(events);
    var last :| 0 <= last < |events| && events[last].timestamp == MaxTime(events);
    if MaxTime(events) < MinTime(events) {
      assert Whole(events[last].timestamp) && !Whole(events[first].timestamp);
      forall i | 0 <= i < |events| ensures Second(events[i].timestamp) == Second(MinTime(events)) {
        assert TimeLe(MinTime(events), events[i].timestamp) && TimeLe(events[i].timestamp, MaxTime(events));
      }
    }
    if SplitSecond(events) {
      var whole :| 0 <= whole < |events| && Whole(events[whole].timestamp);
      var split :| 0 <= split < |events| && !Whole(events[split].timestamp);
      assert TimeLe(MinTime(events), events[split].timestamp) && TimeLe(events[whole].timestamp, MaxTime(events));
      assert first != last;
    }
  }

  /**
   * What becomes of a group of events: the contract refuses several runs, events that split one second, and unknown
   * evidence; a score that no double can hold ends the assembly; in every other case there is an episode.
   */
  lemma AssembledIff(events: seq<Event>, context: Context, index: map<string, Artifact>, duplicates: nat,
                     conflict: bool)
    requires events != []
    ensures Ordered(events) != []
    ensures var one, ordered := Assembled(events, context, index, duplicates, conflict), Ordered(events);
            && (one.Ok? <==> Sound(ordered) && !SplitSecond(ordered)
                             && EvidenceKnown(CoreOf(ordered, context, index, conflict)))
            && (one == Err(MultipleRuns) <==> !OneRun(ordered))
            && (one == Err(ScoreOverflow) <==> OneRun(ordered) && !Sound(ordered))
            && (one == Err(EndsBeforeStart) <==> Sound(ordered) && SplitSecond(ordered))
            && (one.Ok? ==> one.value.core == CoreOf(ordered, context, index, conflict))
  {
    OrderedNonEmpty(events);
    CoreTimes(Ordered(events), context, index, conflict);
    JudgedIff(Ordered(events), CoreOf(Ordered(events), context, index, conflict));
  }

  lemma JudgedIff(events: seq<Event>, core: Core)
    requires events != [] && core.startedAt == MinTime(events) && core.endedAt == MaxTime(events)
    ensures var one := Judged(OneRun(events), ScoreOverflows(LastOf(Terminals(events))), core);
            && (one.Ok? <==> Sound(events) && !SplitSecond(events) && EvidenceKnown(core))
            && (one == Err(MultipleRuns) <==> !OneRun(events))
            && (one == Err(ScoreOverflow) <==> OneRun(events) && !Sound(events))
            && (one == Err(EndsBeforeStart) <==> Sound(events) && SplitSecond(events))
  {
    EndsBeforeStartIff(events);
  }

  /** One run, and no score that ends the assembly. */
  predicate Sound(events: seq<Event>) {
    OneRun(events) && !ScoreOverflows(LastOf(Terminals(events)))
  }

  lemma CoreTimes(events: seq<Event>, context: Context, index: map<string, Artifact>, conflict: bool)
    requires events != []
    ensures CoreOf(events, context, index, conflict).startedAt == MinTime(events)
    ensures CoreOf(events, context, index, conflict).endedAt == MaxTime(events)
  {
  }

  // ---------------------------------------------------------------- a score that no double can hold

  /** `1` and 20 zeros for each step. */
  function Huge(n: nat): (s: string)
    ensures forall i :: 0 <= i < |s| ==> Digit(s[i])
    ensures s != "" && s[0] == '1'
  {
    if n == 0 then "1" else Huge(n - 1) + "0000000000" + "0000000000"
  }

  lemma TenZeros(s: string)
    ensures DecimalValue(s + "0000000000") == 10_000_000_000 * DecimalValue(s)
  {
    Shifted(s, 10);
    assert Zeros(10) == "0000000000";
  }

  function Zeros(n: nat): string {
    if n == 0 then "" else Zeros(n - 1) + "0"
  }

  lemma {:induction false} Shifted(s: string, n: nat)
    ensures DecimalValue(s + Zeros(n)) == Power(10, n) * DecimalValue(s)
  {
    if n == 0 {
      assert s + "" == s;
    } else {
      Shifted(s, n - 1);
      OneZero(s + Zeros(n - 1));
      assert s + Zeros(n) == (s + Zeros(n - 1)) + "0";
      TenTimes(Power(10, n - 1), DecimalValue(s));
    }
  }

  lemma OneZero(s: string)
    ensures DecimalValue(s + "0") == 10 * DecimalValue(s)
  {
    assert (s + "0")[..|s|] == s;
  }

  lemma TenTimes(p: int, v: int)
    ensures 10 * (p * v) == (10 * p) * v
  {
  }

  lemma {:induction false} HugeGrows(n: nat)
    ensures DecimalValue(Huge(n)) >= Power(TWO_64, n)
  {
    if n == 0 {
      assert "1"[..0] == "";
    } else {
      HugeGrows(n - 1);
      TenZeros(Huge(n - 1));
      TenZeros(Huge(n - 1) + "0000000000");
    }
  }

  lemma FourthPower(base: nat)
    ensures Power(base, 4) == base * base * base * base
  {
    var two := base * base;
    var three := base * two;
    assert Power(base, 1) == base * Power(base, 0) == base;
    assert Power(base, 2) == base * Power(base, 1) == two;
    assert Power(base, 3) == base * Power(base, 2) == three;
    assert Power(base, 4) == base * Power(base, 3);
  }

  lemma SixteenthPower(base: nat, q: nat)
    requires q == base * base * base * base
    ensures Power(base, 16) == q * q * q * q
  {
    FourthPower(base);
    PowersMultiply(base, 4, 4);
    PowersMultiply(base, 4, 8);
    PowersMultiply(base, 4, 12);
    var two := q * q;
    var three := q * two;
    assert Power(base, 8) == two && Power(base, 12) == three;
  }

  lemma LessThanFourth(t: nat, s: nat)
    ensures t * t * t * (t - s) <= t * t * t * t
  {
    var cube := t * t * t;
    assert cube * (t - s) == cube * t - cube * s;
    assert cube * s >= 0;
  }

  lemma LimitIsBelow(base: nat, q: nat)
    requires base == TWO_64 && q == TWO_256
    ensures FLOAT_LIMIT <= Power(base, 16)
  {
    SixteenthPower(base, q);
    LessThanFourth(q, base * base * base * 1024);
  }

  /** The integer 10^320 is one. */
  lemma HugeIsTooLarge()
    ensures TooLarge(Huge(16))
  {
    HugeGrows(16);
    LimitIsBelow(TWO_64, TWO_256);
  }

  lemma {:induction false} PowersMultiply(base: nat, m: nat, n: nat)
    ensures Power(base, m + n) == Power(base, m) * Power(base, n)
  {
    if m > 0 {
      PowersMultiply(base, m - 1, n);
      var p, q := Power(base, m - 1), Power(base, n);
      assert base * (p * q) == (base * p) * q;
    }
  }

  /** A terminal event that declares such a score ends the assembly. */
  lemma HugeScoreOverflows(e: Event)
    requires e.attributes == Field("score", Num(Huge(16)), NoFields)
    ensures ScoreOverflows(Some(e))
  {
    assert "score"[0] == 's' && "task_status"[0] == 't' && "execution_validity"[0] == 'e'
      && "verifier_status"[0] == 'v';
    assert "evidence_event_ids"[0] == 'e';
    HugeIsTooLarge();
  }
}
