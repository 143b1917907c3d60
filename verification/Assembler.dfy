/** `EpisodeAssembler.assemble`: an interleaved, duplicated or partial stream becomes episodes and a quarantine. */
module Assembler {
  import opened Options
  import opened Trace
  import opened Ordering
  import opened Episodes

  datatype Reason = ConflictingEventId | EpisodeContextMissing | EpisodeContractInvalid(error: EpisodeError)

  datatype Quarantined = Quarantined(event: Event, reason: Reason)

  datatype AssemblyResult = AssemblyResult(episodes: seq<Episode>, quarantine: seq<Quarantined>, failed: seq<string>,
                                           input: seq<Event>)

  /** What ends an assembly: two contents under one artifact id, or a terminal score that no double can hold. */
  datatype AssemblyError = ArtifactConflict(id: string) | ScoreTooLarge

  type Contexts = map<string, Context>

  // ---------------------------------------------------------------- specification of the intake

  /** The first event that carries the id, as the dictionary `seen` keeps it. */
  function FirstOf(raw: seq<Event>, id: string): Option<Event> {
    if raw == [] then None
    else
      var front, last := FirstOf(raw[..|raw| - 1], id), raw[|raw| - 1];
      if front.Some? then front else if last.eventId == id then Some(last) else None
  }

  function Accepted(raw: seq<Event>, contexts: Contexts): seq<Event> {
    if raw == [] then []
    else
      var front, last := raw[..|raw| - 1], raw[|raw| - 1];
      Accepted(front, contexts) + Kept(FirstOf(front, last.eventId), last, last.episodeId in contexts)
  }

  function Kept(prior: Option<Event>, e: Event, known: bool): seq<Event> {
    if prior.None? && known then [e] else []
  }

  function Refused(raw: seq<Event>, contexts: Contexts): seq<Quarantined> {
    if raw == [] then []
    else
      var front, last := raw[..|raw| - 1], raw[|raw| - 1];
      Refused(front, contexts) + Refusal(FirstOf(front, last.eventId), last, last.episodeId in contexts)
  }

  function Refusal(prior: Option<Event>, e: Event, known: bool): seq<Quarantined> {
    match prior
    case Some(p) => if p != e then [Quarantined(e, ConflictingEventId)] else []
    case None => if known then [] else [Quarantined(e, EpisodeContextMissing)]
  }

  /** Exact repeats of the event that first carried their id. */
  function Repeats(raw: seq<Event>): seq<Event> {
    if raw == [] then []
    else
      var front, last := raw[..|raw| - 1], raw[|raw| - 1];
      Repeats(front) + Repeat(FirstOf(front, last.eventId), last)
  }

  function Repeat(prior: Option<Event>, e: Event): seq<Event> {
    if prior == Some(e) then [e] else []
  }

  function Duplicates(raw: seq<Event>, episode: string): nat {
    if raw == [] then 0
    else
      var front, last := raw[..|raw| - 1], raw[|raw| - 1];
      Duplicates(front, episode) + (if FirstOf(front, last.eventId).Some? && last.episodeId == episode then 1 else 0)
  }

  /** Episodes that own an event whose id carried two contents. */
  function Conflicted(raw: seq<Event>): set<string> {
    if raw == [] then {}
    else
      var front, last := raw[..|raw| - 1], raw[|raw| - 1];
      Conflicted(front)
      + Clashing(FirstOf(front, last.eventId), last)
  }

  function Clashing(prior: Option<Event>, e: Event): set<string> {
    match prior
    case Some(p) => if p != e then {p.episodeId, e.episodeId} else {}
    case None => {}
  }

  // ---------------------------------------------------------------- specification of the episodes

  /** The accepted events of one episode, in order of arrival. */
  function Group(events: seq<Event>, episode: string): seq<Event> {
    if events == [] then []
    else
      Group(events[..|events| - 1], episode)
      + (if events[|events| - 1].episodeId == episode then [events[|events| - 1]] else [])
  }

  function EpisodeIds(events: seq<Event>): seq<string> {
    if events == [] then [] else EpisodeIds(events[..|events| - 1]) + [events[|events| - 1].episodeId]
  }

  function SortedIds(events: seq<Event>): seq<string> {
    Sort(Dedup(EpisodeIds(events)), TextLe)
  }

  function OneEpisode(raw: seq<Event>, contexts: Contexts, index: map<string, Artifact>,
                      id: string): Result<Episode, EpisodeError>
    requires id in contexts && Group(Accepted(raw, contexts), id) != []
  {
    Assembled(Group(Accepted(raw, contexts), id), contexts[id], index, Duplicates(raw, id), id in Conflicted(raw))
  }

  predicate Assemblable(raw: seq<Event>, contexts: Contexts, ids: seq<string>) {
    forall i :: 0 <= i < |ids| ==> ids[i] in contexts && Group(Accepted(raw, contexts), ids[i]) != []
  }

  /** A group of accepted events and what became of it. */
  datatype Settled = Settled(id: string, group: seq<Event>, outcome: Result<Episode, EpisodeError>)

  /** What becomes of every group. */
  function Settle(raw: seq<Event>, contexts: Contexts, index: map<string, Artifact>,
                  ids: seq<string>): (s: seq<Settled>)
    requires Assemblable(raw, contexts, ids)
    ensures |s| == |ids|
    ensures forall i :: 0 <= i < |s| ==>
              s[i] == Settled(ids[i], Group(Accepted(raw, contexts), ids[i]), OneEpisode(raw, contexts, index, ids[i]))
  {
    seq(|ids|, i requires 0 <= i < |ids| && Assemblable(raw, contexts, ids) =>
      Settled(ids[i], Group(Accepted(raw, contexts), ids[i]), OneEpisode(raw, contexts, index, ids[i])))
  }

  function EpisodesOf(settled: seq<Settled>): seq<Episode> {
    if settled == [] then []
    else EpisodesOf(settled[..|settled| - 1]) + IfAssembled(settled[|settled| - 1].outcome)
  }

  function IfAssembled(one: Result<Episode, EpisodeError>): seq<Episode> {
    match one
    case Ok(e) => [e]
    case Err(_) => []
  }

  function IfFailed(one: Result<Episode, EpisodeError>, group: seq<Event>): seq<Quarantined> {
    match one
    case Ok(_) => []
    case Err(error) => AllQuarantined(group, EpisodeContractInvalid(error))
  }

  function AllQuarantined(events: seq<Event>, reason: Reason): seq<Quarantined> {
    if events == [] then []
    else AllQuarantined(events[..|events| - 1], reason) + [Quarantined(events[|events| - 1], reason)]
  }

  function FailedGroups(settled: seq<Settled>): seq<Quarantined> {
    if settled == [] then []
    else
      var last := settled[|settled| - 1];
      FailedGroups(settled[..|settled| - 1]) + IfFailed(last.outcome, last.group)
  }

  /** The episodes that failed the contract, as the warnings name them. */
  function FailedIds(settled: seq<Settled>): seq<string> {
    if settled == [] then []
    else
      var last := settled[|settled| - 1];
      FailedIds(settled[..|settled| - 1]) + (if last.outcome.Err? then [last.id] else [])
  }

  /** The error that no one catches. */
  predicate Fatal(one: Result<Episode, EpisodeError>) {
    one == Err(ScoreOverflow)
  }

  /** One of the groups ends the assembly. */
  predicate Aborts(settled: seq<Settled>) {
    exists i :: 0 <= i < |settled| && Fatal(settled[i].outcome)
  }

  lemma {:induction false} AcceptedHaveContext(raw: seq<Event>, contexts: Contexts)
    ensures forall e :: e in Accepted(raw, contexts) ==> e in raw && e.episodeId in contexts
  {
    if raw != [] {
      AcceptedHaveContext(raw[..|raw| - 1], contexts);
      assert raw == raw[..|raw| - 1] + [raw[|raw| - 1]];
    }
  }

  lemma {:induction false} GroupMembers(events: seq<Event>, id: string)
    ensures forall e :: e in Group(events, id) <==> e in events && e.episodeId == id
  {
    if events != [] {
      GroupMembers(events[..|events| - 1], id);
      assert events == events[..|events| - 1] + [events[|events| - 1]];
    }
  }

  lemma {:induction false} EpisodeIdsMembers(events: seq<Event>, id: string)
    ensures id in EpisodeIds(events) <==> exists i :: 0 <= i < |events| && events[i].episodeId == id
  {
    if events != [] {
      var k := |events| - 1;
      EpisodeIdsMembers(events[..k], id);
      assert forall i :: 0 <= i < k ==> events[..k][i] == events[i];
    }
  }

  lemma SortedIdsAre(events: seq<Event>)
    ensures NoDup(SortedIds(events)) && Sorted(SortedIds(events), TextLe)
    ensures forall id :: id in SortedIds(events) <==> exists i :: 0 <= i < |events| && events[i].episodeId == id
  {
    TextLeIsTotalOrder();
    var ids := EpisodeIds(events);
    DedupKeeps(ids);
    SortIsSortedPermutation(Dedup(ids), TextLe);
    NoDupMultiset(Dedup(ids));
    NoDupFromMultiset(SortedIds(events));
    forall id ensures id in SortedIds(events) <==> exists i :: 0 <= i < |events| && events[i].episodeId == id {
      EpisodeIdsMembers(events, id);
    }
  }

  lemma SortedIdsAssemblable(raw: seq<Event>, contexts: Contexts)
    ensures Assemblable(raw, contexts, SortedIds(Accepted(raw, contexts)))
  {
    var accepted := Accepted(raw, contexts);
    var ids := SortedIds(accepted);
    SortedIdsAre(accepted);
    AcceptedHaveContext(raw, contexts);
    forall k | 0 <= k < |ids| ensures ids[k] in contexts && Group(accepted, ids[k]) != [] {
      assert ids[k] in ids;
      var i :| 0 <= i < |accepted| && accepted[i].episodeId == ids[k];
      GroupMembers(accepted, ids[k]);
      assert accepted[i] in accepted;
      assert accepted[i] in Group(accepted, ids[k]);
    }
  }

  // ---------------------------------------------------------------- the method

  /** `_artifact_index`: two different artifacts under one id are refused. */
  method ArtifactIndex(artifacts: seq<Artifact>) returns (r: Result<map<string, Artifact>, AssemblyError>)
    ensures r.Ok? <==>
            forall i, j :: 0 <= i < j < |artifacts| && artifacts[i].id == artifacts[j].id ==>
              artifacts[i] == artifacts[j]
    ensures r.Err? ==> r.error.ArtifactConflict?
    ensures r.Ok? ==> forall a :: a in artifacts ==> a.id in r.value && r.value[a.id] == a
    ensures r.Ok? ==> forall id :: id in r.value ==> r.value[id] in artifacts && r.value[id].id == id
  {
    var index: map<string, Artifact> := map[];
    for n := 0 to |artifacts|
      invariant forall i :: 0 <= i < n ==> artifacts[i].id in index && index[artifacts[i].id] == artifacts[i]
      invariant forall id :: id in index ==> index[id] in artifacts[..n] && index[id].id == id
    {
      var a := artifacts[n];
      if a.id in index && index[a.id] != a {
        var i :| 0 <= i < n && artifacts[i] == index[a.id];
        return Err(ArtifactConflict(a.id));
      }
      index := index[a.id := a];
      assert artifacts[..n + 1] == artifacts[..n] + [a];
    }
    assert artifacts[..|artifacts|] == artifacts;
    return Ok(index);
  }

  ghost predicate SeenAre(raw: seq<Event>, seen: map<string, Event>) {
    forall id :: FirstOf(raw, id) == if id in seen then Some(seen[id]) else None
  }

  ghost predicate CountsAre(raw: seq<Event>, duplicates: map<string, nat>) {
    forall id :: Duplicates(raw, id) == if id in duplicates then duplicates[id] else 0
  }

  function Counted(duplicates: map<string, nat>, id: string): map<string, nat> {
    duplicates[id := (if id in duplicates then duplicates[id] else 0) + 1]
  }

  /** What one more arrival adds to the dictionaries. */
  lemma NextCounts(raw: seq<Event>, n: nat, seen: map<string, Event>, duplicates: map<string, nat>)
    requires n < |raw| && SeenAre(raw[..n], seen) && CountsAre(raw[..n], duplicates)
    ensures var e := raw[n];
            if e.eventId in seen
            then SeenAre(raw[..n + 1], seen) && CountsAre(raw[..n + 1], Counted(duplicates, e.episodeId))
            else SeenAre(raw[..n + 1], seen[e.eventId := e]) && CountsAre(raw[..n + 1], duplicates)
  {
    assert raw[..n + 1][..n] == raw[..n];
  }

  /** What one more arrival adds to the lists. */
  lemma NextArrival(raw: seq<Event>, contexts: Contexts, n: nat, prior: Option<Event>)
    requires n < |raw| && prior == FirstOf(raw[..n], raw[n].eventId)
    ensures var front, next, e := raw[..n], raw[..n + 1], raw[n];
            && Accepted(next, contexts) == Accepted(front, contexts) + Kept(prior, e, e.episodeId in contexts)
            && Refused(next, contexts) == Refused(front, contexts) + Refusal(prior, e, e.episodeId in contexts)
            && Conflicted(next) == Conflicted(front) + Clashing(prior, e)
  {
    assert raw[..n + 1][..n] == raw[..n];
  }

  /** Where the intake loop stands after the arrivals `raw`. */
  ghost predicate TakenIn(raw: seq<Event>, contexts: Contexts, seen: map<string, Event>, accepted: seq<Event>,
                          quarantine: seq<Quarantined>, duplicates: map<string, nat>, conflicted: set<string>)
  {
    && SeenAre(raw, seen) && CountsAre(raw, duplicates)
    && accepted == Accepted(raw, contexts) && quarantine == Refused(raw, contexts) && conflicted == Conflicted(raw)
  }

  /** One more arrival under an id that was seen. */
  lemma TakesRepeat(raw: seq<Event>, n: nat, contexts: Contexts, seen: map<string, Event>, accepted: seq<Event>,
                    quarantine: seq<Quarantined>, duplicates: map<string, nat>, conflicted: set<string>)
    requires n < |raw| && TakenIn(raw[..n], contexts, seen, accepted, quarantine, duplicates, conflicted)
    requires raw[n].eventId in seen
    ensures var e, prior := raw[n], seen[raw[n].eventId];
            TakenIn(raw[..n + 1], contexts, seen, accepted,
                    if prior != e then quarantine + [Quarantined(e, ConflictingEventId)] else quarantine,
                    Counted(duplicates, e.episodeId),
                    if prior != e then conflicted + {prior.episodeId, e.episodeId} else conflicted)
  {
    NextCounts(raw, n, seen, duplicates);
    NextArrival(raw, contexts, n, Some(seen[raw[n].eventId]));
  }

  /** One more arrival under a new id. */
  lemma TakesNew(raw: seq<Event>, n: nat, contexts: Contexts, seen: map<string, Event>, accepted: seq<Event>,
                 quarantine: seq<Quarantined>, duplicates: map<string, nat>, conflicted: set<string>)
    requires n < |raw| && TakenIn(raw[..n], contexts, seen, accepted, quarantine, duplicates, conflicted)
    requires raw[n].eventId !in seen
    ensures var e := raw[n];
            TakenIn(raw[..n + 1], contexts, seen[e.eventId := e],
                    if e.episodeId in contexts then accepted + [e] else accepted,
                    if e.episodeId in contexts then quarantine
                    else quarantine + [Quarantined(e, EpisodeContextMissing)],
                    duplicates, conflicted)
  {
    NextCounts(raw, n, seen, duplicates);
    NextArrival(raw, contexts, n, None);
    assert conflicted + {} == conflicted;
  }

  /** The intake loop: what was seen, accepted, refused and counted so far. */
  method Intake(raw: seq<Event>, contexts: Contexts)
    returns (accepted: seq<Event>, quarantine: seq<Quarantined>, duplicates: map<string, nat>, conflicted: set<string>)
    ensures accepted == Accepted(raw, contexts) && quarantine == Refused(raw, contexts)
    ensures forall id :: Duplicates(raw, id) == if id in duplicates then duplicates[id] else 0
    ensures conflicted == Conflicted(raw)
  {
    accepted, quarantine, duplicates, conflicted := [], [], map[], {};
    var seen: map<string, Event> := map[];
    for n := 0 to |raw|
      invariant TakenIn(raw[..n], contexts, seen, accepted, quarantine, duplicates, conflicted)
    {
      var e := raw[n];
      if e.eventId in seen {
        TakesRepeat(raw, n, contexts, seen, accepted, quarantine, duplicates, conflicted);
        var prior := seen[e.eventId];
        duplicates := Counted(duplicates, e.episodeId);
        if prior != e {
          conflicted := conflicted + {prior.episodeId, e.episodeId};
          quarantine := quarantine + [Quarantined(e, ConflictingEventId)];
        }
        continue;
      }
      TakesNew(raw, n, contexts, seen, accepted, quarantine, duplicates, conflicted);
      seen := seen[e.eventId := e];
      if e.episodeId !in contexts {
        quarantine := quarantine + [Quarantined(e, EpisodeContextMissing)];
        continue;
      }
      accepted := accepted + [e];
    }
    assert raw[..|raw|] == raw;
  }

  lemma NextId(events: seq<Event>, n: nat)
    requires n < |events|
    ensures var before, id := Dedup(EpisodeIds(events[..n])), events[n].episodeId;
            Dedup(EpisodeIds(events[..n + 1])) == if id in before then before else before + [id]
  {
    assert events[..n + 1][..n] == events[..n];
    var ids := EpisodeIds(events[..n]);
    assert (ids + [events[n].episodeId])[..|ids|] == ids;
  }

  lemma NextInGroup(events: seq<Event>, n: nat)
    requires n < |events|
    ensures forall id :: Group(events[..n + 1], id)
                         == Group(events[..n], id) + (if events[n].episodeId == id then [events[n]] else [])
  {
    assert events[..n + 1][..n] == events[..n];
  }

  /** The grouping loop; `keys` is the dictionary's insertion order. */
  method GroupEvents(accepted: seq<Event>) returns (keys: seq<string>, grouped: map<string, seq<Event>>)
    ensures keys == Dedup(EpisodeIds(accepted))
    ensures forall id :: id in grouped <==> id in keys
    ensures forall id :: Group(accepted, id) == if id in grouped then grouped[id] else []
  {
    keys, grouped := [], map[];
    for n := 0 to |accepted|
      invariant keys == Dedup(EpisodeIds(accepted[..n]))
      invariant forall id :: id in grouped <==> id in keys
      invariant forall id :: Group(accepted[..n], id) == if id in grouped then grouped[id] else []
    {
      NextId(accepted, n);
      NextInGroup(accepted, n);
      var id := accepted[n].episodeId;
      if id !in grouped {
        keys := keys + [id];
      }
      grouped := grouped[id := (if id in grouped then grouped[id] else []) + [accepted[n]]];
    }
    assert accepted[..|accepted|] == accepted;
  }

  ghost predicate AssemblyOf(raw: seq<Event>, contexts: Contexts, index: map<string, Artifact>, r: AssemblyResult) {
    var ids := SortedIds(Accepted(raw, contexts));
    Assemblable(raw, contexts, ids) &&
      var settled := Settle(raw, contexts, index, ids);
      && !Aborts(settled)
      && r.episodes == EpisodesOf(settled)
      && r.quarantine == Refused(raw, contexts) + FailedGroups(settled)
      && r.failed == FailedIds(settled)
      && r.input == raw
  }

  /** A group that fails the episode contract goes to quarantine event by event. */
  method QuarantineGroup(quarantine: seq<Quarantined>, group: seq<Event>, reason: Reason) returns (r: seq<Quarantined>)
    ensures r == quarantine + AllQuarantined(group, reason)
  {
    r := quarantine;
    for k := 0 to |group|
      invariant r == quarantine + AllQuarantined(group[..k], reason)
    {
      assert group[..k + 1][..k] == group[..k];
      r := r + [Quarantined(group[k], reason)];
    }
    assert group[..|group|] == group;
  }

  method Store(one: Result<Episode, EpisodeError>, id: string, group: seq<Event>,
               episodes: seq<Episode>, quarantine: seq<Quarantined>, failed: seq<string>)
    returns (episodes': seq<Episode>, quarantine': seq<Quarantined>, failed': seq<string>)
    ensures episodes' == episodes + IfAssembled(one) && quarantine' == quarantine + IfFailed(one, group)
    ensures failed' == if one.Ok? then failed else failed + [id]
  {
    episodes', quarantine', failed' := episodes, quarantine, failed;
    match one
    case Ok(episode) => episodes' := episodes + [episode];
    case Err(error) =>
      failed' := failed + [id];
      quarantine' := QuarantineGroup(quarantine, group, EpisodeContractInvalid(error));
  }

  lemma NextSettled(settled: seq<Settled>, n: nat)
    requires n < |settled|
    ensures EpisodesOf(settled[..n + 1]) == EpisodesOf(settled[..n]) + IfAssembled(settled[n].outcome)
    ensures FailedGroups(settled[..n + 1])
            == FailedGroups(settled[..n]) + IfFailed(settled[n].outcome, settled[n].group)
    ensures FailedIds(settled[..n + 1])
            == FailedIds(settled[..n]) + (if settled[n].outcome.Err? then [settled[n].id] else [])
  {
    assert settled[..n + 1][..n] == settled[..n];
  }

  lemma NextAborts(settled: seq<Settled>, n: nat)
    requires n < |settled|
    ensures Aborts(settled[..n + 1]) <==> Aborts(settled[..n]) || Fatal(settled[n].outcome)
    ensures Fatal(settled[n].outcome) ==> Aborts(settled)
  {
    var front, next := settled[..n], settled[..n + 1];
    if i :| 0 <= i < |front| && Fatal(front[i].outcome) { assert Fatal(next[i].outcome); }
    if Fatal(settled[n].outcome) { assert Fatal(next[n].outcome); }
    if i :| 0 <= i < |next| && Fatal(next[i].outcome) { assert i < n ==> Fatal(front[i].outcome); }
  }

  /** The dictionaries that the intake and the grouping have filled. */
  ghost predicate Filled(raw: seq<Event>, contexts: Contexts, grouped: map<string, seq<Event>>,
                         duplicates: map<string, nat>, conflicted: set<string>)
  {
    && (forall id :: Group(Accepted(raw, contexts), id) == if id in grouped then grouped[id] else [])
    && CountsAre(raw, duplicates)
    && conflicted == Conflicted(raw)
  }

  ghost predicate SettledAs(raw: seq<Event>, contexts: Contexts, index: map<string, Artifact>, id: string, s: Settled) {
    && id in contexts && Group(Accepted(raw, contexts), id) != []
    && s == Settled(id, Group(Accepted(raw, contexts), id), OneEpisode(raw, contexts, index, id))
  }

  ghost predicate AllSettled(raw: seq<Event>, contexts: Contexts, index: map<string, Artifact>, ids: seq<string>,
                             settled: seq<Settled>)
  {
    |settled| == |ids| &&
      forall i {:trigger SettledAs(raw, contexts, index, ids[i], settled[i])} ::
        0 <= i < |ids| ==> SettledAs(raw, contexts, index, ids[i], settled[i])
  }

  /** `_assemble_episode` on one group, with what the dictionaries say of it. */
  method SettleOne(raw: seq<Event>, contexts: Contexts, index: map<string, Artifact>, ids: seq<string>, n: nat,
                   grouped: map<string, seq<Event>>, duplicates: map<string, nat>, conflicted: set<string>,
                   ghost settled: seq<Settled>)
    returns (one: Result<Episode, EpisodeError>, group: seq<Event>)
    requires Filled(raw, contexts, grouped, duplicates, conflicted)
    requires AllSettled(raw, contexts, index, ids, settled) && n < |ids|
    ensures settled[n] == Settled(ids[n], group, one)
  {
    var id := ids[n];
    assert SettledAs(raw, contexts, index, ids[n], settled[n]);
    group := grouped[id];
    one := AssembleEpisode(group, contexts[id], index, if id in duplicates then duplicates[id] else 0,
                           id in conflicted);
  }

  /** The loop over the groups in the order of their ids; `aborted` stands for the error that nobody catches. */
  method AssembleGroups(raw: seq<Event>, contexts: Contexts, index: map<string, Artifact>, ids: seq<string>,
                        grouped: map<string, seq<Event>>, refused: seq<Quarantined>,
                        duplicates: map<string, nat>, conflicted: set<string>, ghost settled: seq<Settled>)
    returns (episodes: seq<Episode>, quarantine: seq<Quarantined>, failed: seq<string>, aborted: bool)
    requires Filled(raw, contexts, grouped, duplicates, conflicted)
    requires AllSettled(raw, contexts, index, ids, settled)
    ensures aborted <==> Aborts(settled)
    ensures !aborted ==>
              && episodes == EpisodesOf(settled)
              && quarantine == refused + FailedGroups(settled)
              && failed == FailedIds(settled)
  {
    episodes, quarantine, failed := [], refused, [];
    for n := 0 to |ids|
      invariant !Aborts(settled[..n])
      invariant episodes == EpisodesOf(settled[..n])
      invariant quarantine == refused + FailedGroups(settled[..n])
      invariant failed == FailedIds(settled[..n])
    {
      NextSettled(settled, n);
      NextAborts(settled, n);
      var one, group := SettleOne(raw, contexts, index, ids, n, grouped, duplicates, conflicted, settled);
      if Fatal(one) {
        return [], [], [], true;
      }
      Regroup(refused, FailedGroups(settled[..n]), IfFailed(one, group));
      episodes, quarantine, failed := Store(one, ids[n], group, episodes, quarantine, failed);
    }
    assert settled[..|settled|] == settled;
    return episodes, quarantine, failed, false;
  }

  lemma SettleSettles(raw: seq<Event>, contexts: Contexts, index: map<string, Artifact>, ids: seq<string>)
    requires Assemblable(raw, contexts, ids)
    ensures AllSettled(raw, contexts, index, ids, Settle(raw, contexts, index, ids))
  {
  }

  /** The assembly of the stream is ended by one of its groups. */
  ghost predicate AnyAborts(raw: seq<Event>, contexts: Contexts, index: map<string, Artifact>) {
    var ids := SortedIds(Accepted(raw, contexts));
    Assemblable(raw, contexts, ids) && Aborts(Settle(raw, contexts, index, ids))
  }

  /** Two artifacts share an id but not their content. */
  ghost predicate ArtifactsClash(artifacts: seq<Artifact>) {
    exists i, j :: 0 <= i < j < |artifacts| && artifacts[i].id == artifacts[j].id && artifacts[i] != artifacts[j]
  }

  method Assemble(raw: seq<Event>, contexts: Contexts, artifacts: seq<Artifact>)
    returns (r: Result<AssemblyResult, AssemblyError>, ghost index: map<string, Artifact>)
    ensures !ArtifactsClash(artifacts) ==> forall id, a :: id in index && index[id] == a <==>
            a in artifacts && a.id == id
    ensures r.Ok? ==> AssemblyOf(raw, contexts, index, r.value)
    ensures r.Err? && r.error.ArtifactConflict? <==> ArtifactsClash(artifacts)
    ensures r == Err(ScoreTooLarge) <==>
              !ArtifactsClash(artifacts) && AnyAborts(raw, contexts, index)
  {
    var indexed := ArtifactIndex(artifacts);
    if indexed.Err? {
      return Err(indexed.error), map[];
    }
    index := indexed.value;
    var accepted, refused, duplicates, conflicted := Intake(raw, contexts);
    var keys, grouped := GroupEvents(accepted);
    SortedIdsAssemblable(raw, contexts);
    var ids := Sort(keys, TextLe);
    ghost var settled := Settle(raw, contexts, index, ids);
    SettleSettles(raw, contexts, index, ids);
    var episodes, quarantine, failed, aborted :=
      AssembleGroups(raw, contexts, indexed.value, ids, grouped, refused, duplicates, conflicted, settled);
    if aborted {
      return Err(ScoreTooLarge), index;
    }
    return Ok(AssemblyResult(episodes, quarantine, failed, raw)), index;
  }

  // ---------------------------------------------------------------- conservation

  /** How often an event occurs in a stream, in the quarantine, in the episodes, in the groups. */
  function Copies(events: seq<Event>, e: Event): nat {
    if events == [] then 0 else Copies(events[..|events| - 1], e) + (if events[|events| - 1] == e then 1 else 0)
  }

  function CopiesHeld(quarantine: seq<Quarantined>, e: Event): nat {
    if quarantine == [] then 0
    else CopiesHeld(quarantine[..|quarantine| - 1], e) + (if quarantine[|quarantine| - 1].event == e then 1 else 0)
  }

  function CopiesIn(episodes: seq<Episode>, e: Event): nat {
    if episodes == [] then 0
    else CopiesIn(episodes[..|episodes| - 1], e) + Copies(episodes[|episodes| - 1].core.events, e)
  }

  function CopiesGrouped(events: seq<Event>, ids: seq<string>, e: Event): nat {
    if ids == [] then 0 else CopiesGrouped(events, ids[..|ids| - 1], e) + Copies(Group(events, ids[|ids| - 1]), e)
  }

  lemma {:induction false} HeldAppend(a: seq<Quarantined>, b: seq<Quarantined>, e: Event)
    ensures CopiesHeld(a + b, e) == CopiesHeld(a, e) + CopiesHeld(b, e)
  {
    if b == [] {
      assert a + b == a;
    } else {
      HeldAppend(a, b[..|b| - 1], e);
      assert (a + b)[..|a + b| - 1] == a + b[..|b| - 1];
    }
  }

  lemma {:induction false} CopiesAreMultiplicity(events: seq<Event>, e: Event)
    ensures Copies(events, e) == multiset(events)[e]
  {
    if events != [] {
      CopiesAreMultiplicity(events[..|events| - 1], e);
      assert events == events[..|events| - 1] + [events[|events| - 1]];
    }
  }

  lemma {:induction false} HeldAll(events: seq<Event>, reason: Reason, e: Event)
    ensures CopiesHeld(AllQuarantined(events, reason), e) == Copies(events, e)
  {
    if events != [] {
      var front := AllQuarantined(events[..|events| - 1], reason);
      HeldAll(events[..|events| - 1], reason, e);
      HeldAppend(front, [Quarantined(events[|events| - 1], reason)], e);
      assert [Quarantined(events[|events| - 1], reason)][..0] == [];
    }
  }

  lemma HeldOne(a: seq<Quarantined>, q: Quarantined, e: Event)
    ensures CopiesHeld(a + [q], e) == CopiesHeld(a, e) + (if q.event == e then 1 else 0)
  {
    assert (a + [q])[..|a|] == a;
  }

  lemma CopiesOne(a: seq<Event>, x: Event, e: Event)
    ensures Copies(a + [x], e) == Copies(a, e) + (if x == e then 1 else 0)
  {
    assert (a + [x])[..|a|] == a;
  }

  /** Every arrival is added to exactly one of the three lists. */
  lemma OneArrivalConserves(accepted: seq<Event>, refused: seq<Quarantined>, repeats: seq<Event>,
                            prior: Option<Event>, last: Event, known: bool, e: Event)
    ensures Copies(accepted + Kept(prior, last, known), e) + CopiesHeld(refused + Refusal(prior, last, known), e)
            + Copies(repeats + Repeat(prior, last), e)
            == Copies(accepted, e) + CopiesHeld(refused, e) + Copies(repeats, e) + (if last == e then 1 else 0)
  {
    assert accepted + [] == accepted && refused + [] == refused && repeats + [] == repeats;
    if prior == Some(last) {
      CopiesOne(repeats, last, e);
    } else if prior.Some? {
      HeldOne(refused, Quarantined(last, ConflictingEventId), e);
    } else if known {
      CopiesOne(accepted, last, e);
    } else {
      HeldOne(refused, Quarantined(last, EpisodeContextMissing), e);
    }
  }

  lemma {:induction false} IntakeConserves(raw: seq<Event>, contexts: Contexts, e: Event)
    ensures Copies(raw, e)
            == Copies(Accepted(raw, contexts), e) + CopiesHeld(Refused(raw, contexts), e) + Copies(Repeats(raw), e)
  {
    if raw != [] {
      var front, last := raw[..|raw| - 1], raw[|raw| - 1];
      IntakeConserves(front, contexts, e);
      OneArrivalConserves(Accepted(front, contexts), Refused(front, contexts), Repeats(front),
                          FirstOf(front, last.eventId), last, last.episodeId in contexts, e);
    }
  }

  lemma {:induction false} GroupCopies(events: seq<Event>, id: string, e: Event)
    ensures Copies(Group(events, id), e) == if e.episodeId == id then Copies(events, e) else 0
  {
    if events != [] {
      var front := Group(events[..|events| - 1], id);
      GroupCopies(events[..|events| - 1], id, e);
      assert front + [] == front;
      CopiesOne(Group(events[..|events| - 1], id), events[|events| - 1], e);
    }
  }

  lemma {:induction false} GroupedCopies(events: seq<Event>, ids: seq<string>, e: Event)
    requires NoDup(ids)
    ensures CopiesGrouped(events, ids, e) == if e.episodeId in ids then Copies(events, e) else 0
  {
    if ids != [] {
      var front, last := ids[..|ids| - 1], ids[|ids| - 1];
      GroupedCopies(events, front, e);
      GroupCopies(events, last, e);
      assert ids == front + [last];
      assert last !in front;
    }
  }

  lemma GroupsPartition(events: seq<Event>, e: Event)
    ensures CopiesGrouped(events, SortedIds(events), e) == Copies(events, e)
  {
    SortedIdsAre(events);
    GroupedCopies(events, SortedIds(events), e);
    CopiesAreMultiplicity(events, e);
    if e in events {
      var i :| 0 <= i < |events| && events[i] == e;
      assert events[i].episodeId in SortedIds(events);
    }
  }

  /** The episode of a group, if there is one, holds the event as often as the group does. */
  predicate KeepsCopies(one: Settled, e: Event) {
    one.outcome.Ok? ==> Copies(one.outcome.value.core.events, e) == Copies(one.group, e)
  }

  lemma EpisodeKeepsGroup(group: seq<Event>, context: Context, index: map<string, Artifact>, duplicates: nat,
                          conflict: bool, e: Event)
    requires group != [] && Assembled(group, context, index, duplicates, conflict).Ok?
    ensures Copies(Assembled(group, context, index, duplicates, conflict).value.core.events, e) == Copies(group, e)
  {
    EventLeIsTotalOrder();
    SortIsSortedPermutation(group, EventLe());
    CopiesAreMultiplicity(group, e);
    CopiesAreMultiplicity(Ordered(group), e);
  }

  lemma SettledKeepCopies(raw: seq<Event>, contexts: Contexts, index: map<string, Artifact>, ids: seq<string>, e: Event)
    requires Assemblable(raw, contexts, ids)
    ensures forall i :: 0 <= i < |ids| ==> KeepsCopies(Settle(raw, contexts, index, ids)[i], e)
  {
    var settled := Settle(raw, contexts, index, ids);
    forall i | 0 <= i < |ids| && settled[i].outcome.Ok? ensures KeepsCopies(settled[i], e) {
      var id := ids[i];
      EpisodeKeepsGroup(Group(Accepted(raw, contexts), id), contexts[id], index, Duplicates(raw, id),
                        id in Conflicted(raw), e);
    }
  }

  lemma {:induction false} GroupsGoSomewhere(events: seq<Event>, ids: seq<string>, settled: seq<Settled>, e: Event)
    requires |settled| == |ids| && forall i :: 0 <= i < |ids| ==> settled[i].group == Group(events, ids[i])
    requires forall i :: 0 <= i < |ids| ==> KeepsCopies(settled[i], e)
    ensures CopiesIn(EpisodesOf(settled), e) + CopiesHeld(FailedGroups(settled), e) == CopiesGrouped(events, ids, e)
    decreases |ids|
  {
    if ids != [] {
      var n := |ids| - 1;
      GroupsGoSomewhere(events, ids[..n], settled[..n], e);
      OneGroupGoesSomewhere(EpisodesOf(settled[..n]), FailedGroups(settled[..n]), settled[n].outcome, settled[n].group,
                            e);
    }
  }

  lemma OneGroupGoesSomewhere(episodes: seq<Episode>, held: seq<Quarantined>, one: Result<Episode, EpisodeError>,
                              group: seq<Event>, e: Event)
    requires one.Ok? ==> Copies(one.value.core.events, e) == Copies(group, e)
    ensures CopiesIn(episodes + IfAssembled(one), e) + CopiesHeld(held + IfFailed(one, group), e)
            == CopiesIn(episodes, e) + CopiesHeld(held, e) + Copies(group, e)
  {
    match one
    case Ok(episode) =>
      assert (episodes + [episode])[..|episodes|] == episodes;
      assert held + [] == held;
    case Err(error) =>
      HeldAll(group, EpisodeContractInvalid(error), e);
      HeldAppend(held, AllQuarantined(group, EpisodeContractInvalid(error)), e);
      assert episodes + [] == episodes;
  }

  /**
   * Conservation: every raw event is, as often as it arrived, in an episode, in quarantine, or an exact repeat of
   * the event that first carried its id; none is lost and none is counted twice.
   */
  lemma NoEventIsLost(raw: seq<Event>, contexts: Contexts, index: map<string, Artifact>, r: AssemblyResult)
    requires AssemblyOf(raw, contexts, index, r)
    ensures forall e ::
            Copies(raw, e) == CopiesIn(r.episodes, e) + CopiesHeld(r.quarantine, e) + Copies(Repeats(raw), e)
  {
    var accepted := Accepted(raw, contexts);
    var ids := SortedIds(accepted);
    forall e ensures Copies(raw, e) == CopiesIn(r.episodes, e) + CopiesHeld(r.quarantine, e) + Copies(Repeats(raw), e) {
      IntakeConserves(raw, contexts, e);
      GroupsPartition(accepted, e);
      var settled := Settle(raw, contexts, index, ids);
      SettledKeepCopies(raw, contexts, index, ids, e);
      GroupsGoSomewhere(accepted, ids, settled, e);
      HeldAppend(Refused(raw, contexts), FailedGroups(settled), e);
    }
  }

  // ---------------------------------------------------------------- order independence

  /** No event of a known episode shares its id with an event of other contents. */
  ghost predicate Unambiguous(raw: seq<Event>, contexts: Contexts) {
    forall i, j ::
      0 <= i < |raw| && 0 <= j < |raw| && raw[i].eventId == raw[j].eventId && raw[i].episodeId in contexts ==>
        raw[i] == raw[j]
  }

  lemma {:induction false} FirstIsMember(raw: seq<Event>, id: string)
    ensures FirstOf(raw, id).Some? <==> exists i :: 0 <= i < |raw| && raw[i].eventId == id
    ensures FirstOf(raw, id).Some? ==> FirstOf(raw, id).value in raw && FirstOf(raw, id).value.eventId == id
  {
    if raw != [] {
      var k := |raw| - 1;
      FirstIsMember(raw[..k], id);
      assert raw == raw[..k] + [raw[k]];
      if i :| 0 <= i < k && raw[..k][i].eventId == id { assert raw[i].eventId == id; }
      if i :| 0 <= i < |raw| && raw[i].eventId == id {
        if i < k { assert raw[..k][i].eventId == id; }
      }
    }
  }

  /** Accepted is exactly what arrived first under its id and belongs to a known episode; no accepted ids repeat. */
  lemma {:induction false} AcceptedIff(raw: seq<Event>, contexts: Contexts)
    ensures forall e :: e in Accepted(raw, contexts) <==> FirstOf(raw, e.eventId) == Some(e) && e.episodeId in contexts
    ensures DistinctIds(Accepted(raw, contexts))
  {
    if raw != [] {
      var front, last := raw[..|raw| - 1], raw[|raw| - 1];
      AcceptedIff(front, contexts);
      var accepted := Accepted(front, contexts);
      var kept := Kept(FirstOf(front, last.eventId), last, last.episodeId in contexts);
      assert Accepted(raw, contexts) == accepted + kept;
      forall i | 0 <= i < |accepted| ensures FirstOf(front, accepted[i].eventId) == Some(accepted[i]) {
        assert accepted[i] in accepted;
      }
    }
  }

  lemma FirstOfUnambiguous(raw: seq<Event>, contexts: Contexts, e: Event)
    requires Unambiguous(raw, contexts) && e in raw && e.episodeId in contexts
    ensures FirstOf(raw, e.eventId) == Some(e)
  {
    FirstIsMember(raw, e.eventId);
    var i :| 0 <= i < |raw| && raw[i] == e;
    var first := FirstOf(raw, e.eventId).value;
    var j :| 0 <= j < |raw| && raw[j] == first;
  }

  /** On an unambiguous stream exactly the events of known episodes are accepted, each once. */
  lemma UnambiguousIntake(raw: seq<Event>, contexts: Contexts)
    requires Unambiguous(raw, contexts)
    ensures forall e :: e in Accepted(raw, contexts) <==> e in raw && e.episodeId in contexts
    ensures DistinctIds(Accepted(raw, contexts))
  {
    AcceptedIff(raw, contexts);
    AcceptedHaveContext(raw, contexts);
    forall e | e in raw && e.episodeId in contexts ensures e in Accepted(raw, contexts) {
      FirstOfUnambiguous(raw, contexts, e);
    }
  }

  /** The episodes of two contents under one id, the second not the first arrival. */
  ghost predicate Clash(raw: seq<Event>, j: int, id: string) {
    && 0 <= j < |raw| && FirstOf(raw, raw[j].eventId).Some? && FirstOf(raw, raw[j].eventId).value != raw[j]
    && (id == raw[j].episodeId || id == FirstOf(raw, raw[j].eventId).value.episodeId)
  }

  lemma {:induction false} ConflictedAre(raw: seq<Event>, id: string)
    ensures id in Conflicted(raw) <==> exists j :: Clash(raw, j, id)
  {
    if raw != [] {
      var n := |raw| - 1;
      ConflictedAre(raw[..n], id);
      FirstIsMember(raw[..n], raw[n].eventId);
      forall j | 0 <= j < n ensures Clash(raw, j, id) <==> Clash(raw[..n], j, id) {
        FirstIsMember(raw[..n], raw[j].eventId);
        assert raw[..n][j] == raw[j];
      }
      assert Clash(raw, n, id) <==>
        FirstOf(raw[..n], raw[n].eventId).Some? && FirstOf(raw[..n], raw[n].eventId).value != raw[n]
        && (id == raw[n].episodeId || id == FirstOf(raw[..n], raw[n].eventId).value.episodeId);
      if j :| Clash(raw[..n], j, id) { assert Clash(raw, j, id); }
    }
  }

  /** A known episode is marked as conflicting exactly when the stream is ambiguous. */
  lemma ConflictIffAmbiguous(raw: seq<Event>, contexts: Contexts)
    ensures (forall id :: id in Conflicted(raw) ==> id !in contexts) <==> Unambiguous(raw, contexts)
  {
    if Unambiguous(raw, contexts) {
      forall id | id in Conflicted(raw) ensures id !in contexts {
        ConflictedAre(raw, id);
        var j :| Clash(raw, j, id);
        FirstIsMember(raw, raw[j].eventId);
        var i :| 0 <= i < |raw| && raw[i] == FirstOf(raw, raw[j].eventId).value;
      }
    } else {
      var i, j := AmbiguousPair(raw, contexts);
      FirstIsMember(raw, raw[i].eventId);
      ConflictedAre(raw, raw[i].episodeId);
      assert Clash(raw, i, raw[i].episodeId) || Clash(raw, j, raw[i].episodeId);
    }
  }

  lemma AmbiguousPair(raw: seq<Event>, contexts: Contexts) returns (i: nat, j: nat)
    requires !Unambiguous(raw, contexts)
    ensures i < |raw| && j < |raw| && raw[i].eventId == raw[j].eventId && raw[i].episodeId in contexts
            && raw[i] != raw[j]
  {
    i, j :| 0 <= i < |raw| && 0 <= j < |raw| && raw[i].eventId == raw[j].eventId && raw[i].episodeId in contexts
            && raw[i] != raw[j];
  }

  lemma {:induction false} GroupKeepsDistinct(events: seq<Event>, id: string)
    requires DistinctIds(events)
    ensures DistinctIds(Group(events, id))
  {
    if events != [] {
      var front, last := events[..|events| - 1], events[|events| - 1];
      GroupKeepsDistinct(front, id);
      GroupMembers(front, id);
      var g := Group(front, id);
      forall i | 0 <= i < |g| ensures g[i].eventId != last.eventId {
        assert g[i] in g;
        var k :| 0 <= k < |front| && front[k] == g[i];
        assert events[k].eventId != events[|events| - 1].eventId;
      }
    }
  }

  ghost predicate SameEvents(a: seq<Event>, b: seq<Event>) {
    forall e :: e in a <==> e in b
  }

  lemma SameIds(a: seq<Event>, b: seq<Event>)
    requires SameEvents(a, b)
    ensures SortedIds(a) == SortedIds(b)
  {
    TextLeIsTotalOrder();
    var x, y := EpisodeIds(a), EpisodeIds(b);
    DedupKeeps(x);
    DedupKeeps(y);
    forall id ensures id in x ==> id in y {
      if id in x { IdsFollowEvents(a, b, id); }
    }
    forall id ensures id in y ==> id in x {
      if id in y { IdsFollowEvents(b, a, id); }
    }
    forall s, t | TextLe(s, t) && TextLe(t, s) ensures s == t { TextLeTotal(s, t); }
    SameMembersSameSort(Dedup(x), Dedup(y), TextLe);
  }

  lemma IdsFollowEvents(a: seq<Event>, b: seq<Event>, id: string)
    requires SameEvents(a, b) && id in EpisodeIds(a)
    ensures id in EpisodeIds(b)
  {
    EpisodeIdsMembers(a, id);
    EpisodeIdsMembers(b, id);
    var i :| 0 <= i < |a| && a[i].episodeId == id;
    assert a[i] in a;
    var j :| 0 <= j < |b| && b[j] == a[i];
  }

  /** Two episodes that differ in nothing but duplicate count and lineage. */
  ghost predicate SameCore(a: Episode, b: Episode) {
    a.core == b.core
  }

  ghost predicate SameCores(a: seq<Episode>, b: seq<Episode>) {
    |a| == |b| && forall i :: 0 <= i < |a| ==> SameCore(a[i], b[i])
  }

  /** The same core, or the same contract error. */
  ghost predicate SameOutcome(a: Result<Episode, EpisodeError>, b: Result<Episode, EpisodeError>) {
    match (a, b)
    case (Ok(x), Ok(y)) => SameCore(x, y)
    case (Err(x), Err(y)) => x == y
    case _ => false
  }

  lemma OneEpisodeIsCanonical(a: seq<Event>, b: seq<Event>, contexts: Contexts, index: map<string, Artifact>,
                              id: string)
    requires Unambiguous(a, contexts) && Unambiguous(b, contexts) && SameEvents(a, b)
    requires id in contexts && Group(Accepted(a, contexts), id) != [] && Group(Accepted(b, contexts), id) != []
    ensures SameOutcome(OneEpisode(a, contexts, index, id), OneEpisode(b, contexts, index, id))
  {
    UnambiguousIntake(a, contexts);
    UnambiguousIntake(b, contexts);
    ConflictIffAmbiguous(a, contexts);
    ConflictIffAmbiguous(b, contexts);
    var x, y := Group(Accepted(a, contexts), id), Group(Accepted(b, contexts), id);
    GroupKeepsDistinct(Accepted(a, contexts), id);
    GroupKeepsDistinct(Accepted(b, contexts), id);
    GroupMembers(Accepted(a, contexts), id);
    GroupMembers(Accepted(b, contexts), id);
    OrderedIsCanonical(x, y);
  }

  lemma CoresGrow(xs: seq<Episode>, ys: seq<Episode>, x: Result<Episode, EpisodeError>,
                  y: Result<Episode, EpisodeError>)
    requires SameCores(xs, ys) && SameOutcome(x, y)
    ensures SameCores(xs + IfAssembled(x), ys + IfAssembled(y)) && (x.Err? <==> y.Err?)
  {
  }

  /** Group by group, two streams come to the same. */
  ghost predicate SettledAlike(a: seq<Settled>, b: seq<Settled>) {
    |a| == |b| && forall i :: 0 <= i < |a| ==> a[i].id == b[i].id && SameOutcome(a[i].outcome, b[i].outcome)
  }

  lemma {:induction false} SettledAlikeGive(a: seq<Settled>, b: seq<Settled>)
    requires SettledAlike(a, b)
    ensures SameCores(EpisodesOf(a), EpisodesOf(b)) && FailedIds(a) == FailedIds(b)
    decreases |a|
  {
    if a != [] {
      var n := |a| - 1;
      SettledAlikeGive(a[..n], b[..n]);
      CoresGrow(EpisodesOf(a[..n]), EpisodesOf(b[..n]), a[n].outcome, b[n].outcome);
    }
  }

  lemma StreamsSettleAlike(a: seq<Event>, b: seq<Event>, contexts: Contexts, index: map<string, Artifact>,
                           ids: seq<string>)
    requires Unambiguous(a, contexts) && Unambiguous(b, contexts) && SameEvents(a, b)
    requires Assemblable(a, contexts, ids) && Assemblable(b, contexts, ids)
    ensures SettledAlike(Settle(a, contexts, index, ids), Settle(b, contexts, index, ids))
  {
    forall i | 0 <= i < |ids|
      ensures SameOutcome(OneEpisode(a, contexts, index, ids[i]), OneEpisode(b, contexts, index, ids[i]))
    {
      OneEpisodeIsCanonical(a, b, contexts, index, ids[i]);
    }
  }

  /**
   * Assembly does not depend on order of arrival: two streams with the same events, in any order and with any
   * repetitions, give the same episodes up to duplicate counts and lineage, when no event of a known episode shares its
   * id with an event of other contents.
   */
  lemma ArrivalOrderIsIrrelevant(a: seq<Event>, b: seq<Event>, contexts: Contexts, index: map<string, Artifact>,
                                 ra: AssemblyResult, rb: AssemblyResult)
    requires Unambiguous(a, contexts) && SameEvents(a, b)
    requires AssemblyOf(a, contexts, index, ra) && AssemblyOf(b, contexts, index, rb)
    ensures SameCores(ra.episodes, rb.episodes) && ra.failed == rb.failed
  {
    UnambiguousToo(a, b, contexts);
    UnambiguousIntake(a, contexts);
    UnambiguousIntake(b, contexts);
    SameIds(Accepted(a, contexts), Accepted(b, contexts));
    var ids := SortedIds(Accepted(a, contexts));
    StreamsSettleAlike(a, b, contexts, index, ids);
    SettledAlikeGive(Settle(a, contexts, index, ids), Settle(b, contexts, index, ids));
  }

  lemma UnambiguousToo(a: seq<Event>, b: seq<Event>, contexts: Contexts)
    requires Unambiguous(a, contexts) && SameEvents(a, b)
    ensures Unambiguous(b, contexts)
  {
    forall i, j | 0 <= i < |b| && 0 <= j < |b| && b[i].eventId == b[j].eventId && b[i].episodeId in contexts
      ensures b[i] == b[j]
    {
      assert b[i] in a && b[j] in a;
      var k :| 0 <= k < |a| && a[k] == b[i];
      var l :| 0 <= l < |a| && a[l] == b[j];
    }
  }

  // ---------------------------------------------------------------- exactly when the order of arrival matters

  /** The same events, as often, in some order. */
  ghost predicate Arrangement(a: seq<Event>, raw: seq<Event>) {
    multiset(a) == multiset(raw)
  }

  ghost predicate SameAccepted(a: seq<Event>, b: seq<Event>, contexts: Contexts) {
    SameEvents(Accepted(a, contexts), Accepted(b, contexts))
  }

  ghost predicate OrderIsIrrelevant(raw: seq<Event>, contexts: Contexts) {
    forall a, b :: Arrangement(a, raw) && Arrangement(b, raw) ==> SameAccepted(a, b, contexts)
  }

  lemma {:induction false} FirstOfHead(x: Event, rest: seq<Event>)
    ensures FirstOf([x] + rest, x.eventId) == Some(x)
  {
    if rest == [] {
      assert [x] + rest == [x] && [x][..0] == [];
    } else {
      FirstOfHead(x, rest[..|rest| - 1]);
      assert ([x] + rest)[..|rest|] == [x] + rest[..|rest| - 1];
    }
  }

  /** The arrangement that moves one event to the front, where it is the first arrival under its id. */
  lemma MovedToFront(raw: seq<Event>, i: nat) returns (a: seq<Event>)
    requires i < |raw|
    ensures Arrangement(a, raw) && FirstOf(a, raw[i].eventId) == Some(raw[i])
  {
    var rest := raw[..i] + raw[i + 1..];
    a := [raw[i]] + rest;
    assert raw == raw[..i] + [raw[i]] + raw[i + 1..];
    FirstOfHead(raw[i], rest);
  }

  lemma ArrangementHasSameEvents(a: seq<Event>, raw: seq<Event>)
    requires Arrangement(a, raw)
    ensures SameEvents(a, raw) && SameEvents(raw, a)
  {
    forall e ensures e in a <==> e in raw {
      assert e in a <==> e in multiset(a);
      assert e in raw <==> e in multiset(raw);
    }
  }

  lemma AllArrangementsAgree(raw: seq<Event>, contexts: Contexts)
    requires Unambiguous(raw, contexts)
    ensures OrderIsIrrelevant(raw, contexts)
  {
    forall a, b | Arrangement(a, raw) && Arrangement(b, raw) ensures SameAccepted(a, b, contexts) {
      ArrangementHasSameEvents(a, raw);
      ArrangementHasSameEvents(b, raw);
      UnambiguousToo(raw, a, contexts);
      UnambiguousToo(raw, b, contexts);
      UnambiguousIntake(a, contexts);
      UnambiguousIntake(b, contexts);
    }
  }

  /**
   * The events accepted from a stream are the same for every order of arrival exactly when no event of a known episode
   * shares its id with an event of other contents.
   */
  lemma OrderMattersIff(raw: seq<Event>, contexts: Contexts)
    ensures OrderIsIrrelevant(raw, contexts) <==> Unambiguous(raw, contexts)
  {
    if Unambiguous(raw, contexts) {
      AllArrangementsAgree(raw, contexts);
    } else {
      var i, j := AmbiguousPair(raw, contexts);
      var a := MovedToFront(raw, i);
      var b := MovedToFront(raw, j);
      AcceptedIff(a, contexts);
      AcceptedIff(b, contexts);
      assert raw[i] in Accepted(a, contexts) && raw[i] !in Accepted(b, contexts);
      assert !SameAccepted(a, b, contexts);
    }
  }

  lemma {:induction false} FirstStays(raw: seq<Event>, more: seq<Event>, id: string)
    ensures FirstOf(raw + more, id) == if FirstOf(raw, id).Some? then FirstOf(raw, id) else FirstOf(more, id)
  {
    if more == [] {
      assert raw + more == raw;
    } else {
      var n := |more| - 1;
      FirstStays(raw, more[..n], id);
      assert (raw + more)[..|raw + more| - 1] == raw + more[..n];
    }
  }

  /**
   * Two contents under one id in known episodes, anywhere in a stream that did not carry the id before: the one that
   * arrives first is accepted and the other is not, and both episodes are marked as conflicting.
   */
  lemma ConflictKeepsTheFirst(a: seq<Event>, x: Event, b: seq<Event>, y: Event, c: seq<Event>, contexts: Contexts)
    requires x != y && x.eventId == y.eventId && x.episodeId in contexts && y.episodeId in contexts
    requires FirstOf(a, x.eventId).None?
    ensures var raw := a + ([x] + (b + [y] + c));
            && x in Accepted(raw, contexts) && y !in Accepted(raw, contexts)
            && x.episodeId in Conflicted(raw) && y.episodeId in Conflicted(raw)
  {
    var rest := b + [y] + c;
    var raw := a + ([x] + rest);
    FirstOfHead(x, rest);
    FirstStays(a, [x] + rest, x.eventId);
    AcceptedIff(raw, contexts);
    var j := |a| + 1 + |b|;
    assert raw[j] == y;
    ConflictedAre(raw, x.episodeId);
    ConflictedAre(raw, y.episodeId);
    assert Clash(raw, j, x.episodeId) && Clash(raw, j, y.episodeId);
  }
}
