/**
 * Producers composed with the assembler: what a recorder's log, or a converted stream, becomes inside any raw stream.
 */
module Pipeline {
  import opened Options
  import opened Trace
  import opened Episodes
  import opened Assembler
  import L = EventLog
  import F = EpisodeFacts
  import P = PiAdapter
  import E = PiEpisodes

  /** The raw stream holds exactly these events of the episode: in any order, repeated, mixed with other episodes. */
  ghost predicate Carries(raw: seq<Event>, events: seq<Event>, id: string) {
    forall e :: e in events <==> e in raw && e.episodeId == id
  }

  ghost predicate Contains(r: AssemblyResult, core: Core) {
    exists k :: 0 <= k < |r.episodes| && r.episodes[k].core == core
  }

  lemma {:induction false} SuccessIsHeld(settled: seq<Settled>, k: nat)
    requires k < |settled| && settled[k].outcome.Ok?
    ensures settled[k].outcome.value in EpisodesOf(settled)
  {
    if k < |settled| - 1 { SuccessIsHeld(settled[..|settled| - 1], k); }
  }

  /** The accepted events of the episode are the carried ones, so their canonical order is the same. */
  lemma GroupIsCarried(raw: seq<Event>, events: seq<Event>, id: string, contexts: Contexts)
    requires Unambiguous(raw, contexts) && Carries(raw, events, id) && DistinctIds(events) && events != []
             && id in contexts
    ensures var group := Group(Accepted(raw, contexts), id);
            && group != [] && Ordered(group) == Ordered(events) && id in SortedIds(Accepted(raw, contexts))
            && forall e :: e in group <==> e in events
    ensures id !in Conflicted(raw)
  {
    var accepted := Accepted(raw, contexts);
    UnambiguousIntake(raw, contexts);
    ConflictIffAmbiguous(raw, contexts);
    GroupKeepsDistinct(accepted, id);
    GroupMembers(accepted, id);
    var group := Group(accepted, id);
    forall e ensures e in group <==> e in events { }
    assert events[0] in events;
    assert events[0] in group;
    OrderedIsCanonical(group, events);
    SortedIdsAre(accepted);
    assert events[0] in accepted;
    var i :| 0 <= i < |accepted| && accepted[i] == events[0];
    assert accepted[i].episodeId == id;
  }

  lemma {:induction false} FailureIsNamed(settled: seq<Settled>, k: nat)
    requires k < |settled| && settled[k].outcome.Err?
    ensures settled[k].id in FailedIds(settled)
  {
    if k < |settled| - 1 { FailureIsNamed(settled[..|settled| - 1], k); }
  }

  lemma {:induction false} AllAreHeld(events: seq<Event>, reason: Reason, e: Event)
    requires e in events
    ensures Quarantined(e, reason) in AllQuarantined(events, reason)
  {
    if e in events[..|events| - 1] {
      AllAreHeld(events[..|events| - 1], reason, e);
    } else {
      assert events == events[..|events| - 1] + [events[|events| - 1]];
    }
  }

  lemma {:induction false} FailedAreHeld(settled: seq<Settled>, k: nat, e: Event)
    requires k < |settled| && settled[k].outcome.Err? && e in settled[k].group
    ensures Quarantined(e, EpisodeContractInvalid(settled[k].outcome.error)) in FailedGroups(settled)
  {
    if k < |settled| - 1 {
      FailedAreHeld(settled[..|settled| - 1], k, e);
    } else {
      AllAreHeld(settled[k].group, EpisodeContractInvalid(settled[k].outcome.error), e);
    }
  }

  /** The assembly holds the core; or it names the episode as failed and holds all its events in quarantine. */
  ghost predicate Yields(r: AssemblyResult, id: string, events: seq<Event>, one: Result<Episode, EpisodeError>) {
    match one
    case Ok(episode) => Contains(r, episode.core)
    case Err(error) =>
      id in r.failed && forall e :: e in events ==> Quarantined(e, EpisodeContractInvalid(error)) in r.quarantine
  }

  /** An episode comes out of any raw stream as it comes out of its own events alone; so does a failure. */
  lemma EpisodeFromStream(raw: seq<Event>, events: seq<Event>, id: string, contexts: Contexts,
                          index: map<string, Artifact>, r: AssemblyResult)
    requires Unambiguous(raw, contexts) && Carries(raw, events, id) && DistinctIds(events) && events != []
             && id in contexts
    requires AssemblyOf(raw, contexts, index, r)
    ensures Yields(r, id, events, Assembled(events, contexts[id], index, 0, false))
  {
    GroupIsCarried(raw, events, id, contexts);
    var ids := SortedIds(Accepted(raw, contexts));
    var k :| 0 <= k < |ids| && ids[k] == id;
    var group := Group(Accepted(raw, contexts), id);
    SameResult(group, events, contexts[id], index, Duplicates(raw, id));
    var settled := Settle(raw, contexts, index, ids);
    if settled[k].outcome.Ok? {
      SuccessIsHeld(settled, k);
    } else {
      FailureIsNamed(settled, k);
      forall e | e in events
        ensures Quarantined(e, EpisodeContractInvalid(settled[k].outcome.error)) in r.quarantine
      {
        FailedAreHeld(settled, k, e);
      }
    }
  }

  lemma SameResult(group: seq<Event>, events: seq<Event>, context: Context, index: map<string, Artifact>,
                   duplicates: nat)
    requires group != [] && events != [] && Ordered(group) == Ordered(events)
    ensures SameOutcome(Assembled(group, context, index, duplicates, false),
                        Assembled(events, context, index, 0, false))
  {
    OrderedNonEmpty(events);
  }

  /** The assembly holds the episode that `PiCore` describes. */
  ghost predicate HoldsPiCore(r: AssemblyResult, env: P.Env, records: seq<P.Record>, d: P.Declaration) {
    exists core :: Contains(r, core) && E.PiCore(core, env, records, d)
  }

  /**
   * Pi adapter, then assembler, over any raw stream: however the converted events are permuted, repeated or mixed with
   * other episodes, the assembly holds the episode that `PiCore` describes; unless they start on a whole second and end
   * inside it, in which case the assembly names the episode as failed and holds them in quarantine.
   */
  lemma PiEpisodeInAnyStream(env: P.Env, records: seq<P.Record>, d: P.Declaration, raw: seq<Event>,
                             contexts: Contexts, index: map<string, Artifact>, r: AssemblyResult)
    requires E.Injective(env) && E.InEnums(d.task, d.validity, d.verifier) && E.DeclaredScoreOk(d.score)
    requires Unambiguous(raw, contexts) && Carries(raw, P.Converted(env, records, d).events, env.episodeId)
    requires env.episodeId in contexts && AssemblyOf(raw, contexts, index, r)
    ensures var events := P.Converted(env, records, d).events;
            if E.WithinItsSecond(events) then Yields(r, env.episodeId, events, Err(EndsBeforeStart))
            else HoldsPiCore(r, env, records, d)
  {
    var after := P.Converted(env, records, d);
    E.ConvertedEpisode(env, records, d, contexts[env.episodeId], index, 0);
    E.FinishKeeps(env, records, d);
    E.StampedFacts(env, after.events, after.last);
    EpisodeFromStream(raw, after.events, env.episodeId, contexts, index, r);
    var one := Assembled(after.events, contexts[env.episodeId], index, 0, false);
    if one.Ok? {
      assert Contains(r, one.value.core) && E.PiCore(one.value.core, env, records, d);
    }
  }

  /** Every event the adapter emits passes the event contract. */
  lemma ConvertedEventsAreValid(env: P.Env, records: seq<P.Record>, d: P.Declaration)
    requires Text(env.runId) && Text(env.episodeId)
    ensures forall i :: 0 <= i < |P.Converted(env, records, d).events| ==>
            ValidEvent(P.Converted(env, records, d).events[i])
  {
    var after := P.Converted(env, records, d);
    E.FinishKeeps(env, records, d);
    forall i | 0 <= i < |after.events| ensures ValidEvent(after.events[i]) {
      E.StampsHold(env, after.events, after.last, i);
      E.StampedIsValid(env, after.events[i], i);
    }
  }

  // ---------------------------------------------------------------- recorder, then assembler

  ghost predicate StampedBy(events: seq<Event>, who: L.Identity) {
    forall i :: 0 <= i < |events| ==> events[i].runId == who.runId && events[i].episodeId == who.episodeId
  }

  lemma EmitStampsOne(r: L.Recorder, who: L.Identity, d: L.Draft)
    requires StampedBy(r.log.events, who)
    ensures StampedBy(L.EmitTo(r, who, d).0.log.events, who)
  {
    var after := L.EmitTo(r, who, d).0.log.events;
    assert after == r.log.events || after == r.log.events + [L.Build(d, who, r.next)];
  }

  lemma {:induction false} RecorderStamps(who: L.Identity, drafts: seq<L.Draft>)
    ensures StampedBy(L.EmitAll(L.Recorder(L.EMPTY, 0), who, drafts).log.events, who)
    decreases |drafts|
  {
    if drafts != [] {
      var n := |drafts| - 1;
      RecorderStamps(who, drafts[..n]);
      EmitStampsOne(L.EmitAll(L.Recorder(L.EMPTY, 0), who, drafts[..n]), who, drafts[n]);
    }
  }

  /**
   * Recorder, then assembler: a single recorder's episode has no gap and no collision, whatever emits failed; it is
   * CORRUPT only through a second EPISODE_FINISHED, and COMPLETE exactly when parents, closings, terminal and artifacts
   * are whole. There is an episode exactly when its events do not split one second, its evidence is known and its score
   * is a double.
   */
  lemma RecordedEpisode(who: L.Identity, drafts: seq<L.Draft>, context: Context, index: map<string, Artifact>,
                        duplicates: nat)
    requires L.EmitAll(L.Recorder(L.EMPTY, 0), who, drafts).log.events != []
    ensures var events := L.EmitAll(L.Recorder(L.EMPTY, 0), who, drafts).log.events;
            && Ordered(events) == events && DistinctIds(events)
            && Gaps(events) == [] && Collisions(events) == []
            && (StateOf(events, index, false) == CORRUPT <==> HasTwo(events, EpisodeFinished))
            && (StateOf(events, index, false) == COMPLETE <==> WholeRecord(events, index))
            && (Assembled(events, context, index, duplicates, false).Ok? ==>
                  Assembled(events, context, index, duplicates, false).value.core
                    == CoreOf(events, context, index, false))
            && (Assembled(events, context, index, duplicates, false).Ok? <==>
                !ScoreOverflows(LastOf(Terminals(events))) && !F.SplitSecond(events)
                && EvidenceKnown(CoreOf(events, context, index, false)))
  {
    L.RecorderNumbersItsLog(who, drafts);
    RecorderStamps(who, drafts);
    NumberedEpisode(L.EmitAll(L.Recorder(L.EMPTY, 0), who, drafts).log.events, context, index, duplicates);
  }

  lemma NumberedEpisode(events: seq<Event>, context: Context, index: map<string, Artifact>, duplicates: nat)
    requires events != [] && AtPositions(events) && DistinctIds(events) && OneRun(events)
    ensures Ordered(events) == events && Gaps(events) == [] && Collisions(events) == []
    ensures StateOf(events, index, false) == CORRUPT <==> HasTwo(events, EpisodeFinished)
    ensures StateOf(events, index, false) == COMPLETE <==> WholeRecord(events, index)
    ensures Assembled(events, context, index, duplicates, false).Ok? ==>
              Assembled(events, context, index, duplicates, false).value.core == CoreOf(events, context, index, false)
    ensures Assembled(events, context, index, duplicates, false).Ok? <==>
            !ScoreOverflows(LastOf(Terminals(events))) && !F.SplitSecond(events)
            && EvidenceKnown(CoreOf(events, context, index, false))
  {
    NumberedLog(events, index);
    F.AssembledIff(events, context, index, duplicates, false);
  }

  lemma NumberedLog(events: seq<Event>, index: map<string, Artifact>)
    requires events != [] && AtPositions(events) && DistinctIds(events)
    ensures Ordered(events) == events && Gaps(events) == [] && Collisions(events) == []
    ensures StateOf(events, index, false) == CORRUPT <==> HasTwo(events, EpisodeFinished)
    ensures StateOf(events, index, false) == COMPLETE <==> WholeRecord(events, index)
  {
    E.NumberedIsOrdered(events);
    NumberedIff(events);
    StateCorrupt(events, index, false);
    StateComplete(events, index, false);
  }

  lemma CrashedLog(drafts: seq<L.Draft>, who: L.Identity, stops: seq<nat>)
    requires L.Script(drafts, who)
    requires forall i :: 0 <= i < |stops| ==> stops[i] <= |drafts|
    ensures L.EmitAll(L.Recorder(L.Crashes(L.EMPTY, who, drafts, stops), 0), who, drafts).log.events
            == L.Output(drafts, who)
    ensures L.EmitAll(L.Recorder(L.EMPTY, 0), who, drafts).log.events == L.Output(drafts, who)
    ensures DistinctIds(L.Output(drafts, who))
  {
    L.ResumeCompletesTheLog(L.EMPTY, drafts, who, stops);
    assert L.EMPTY.events + L.Output(drafts, who) == L.Output(drafts, who);
    L.RecorderNumbersItsLog(who, drafts);
  }

  /**
   * Crashes leave no trace in the episode: the log of a deterministic producer that crashed at any points, and whose
   * last rerun was complete, assembles to the episode of a run that never crashed, or fails as it does, also inside any
   * other raw stream.
   */
  lemma CrashesLeaveNoTrace(drafts: seq<L.Draft>, who: L.Identity, stops: seq<nat>, raw: seq<Event>,
                            contexts: Contexts, index: map<string, Artifact>, r: AssemblyResult)
    requires L.Script(drafts, who) && drafts != []
    requires forall i :: 0 <= i < |stops| ==> stops[i] <= |drafts|
    requires var crashed := L.EmitAll(L.Recorder(L.Crashes(L.EMPTY, who, drafts, stops), 0), who, drafts);
             Unambiguous(raw, contexts) && Carries(raw, crashed.log.events, who.episodeId)
    requires who.episodeId in contexts && AssemblyOf(raw, contexts, index, r)
    ensures L.EmitAll(L.Recorder(L.EMPTY, 0), who, drafts).log.events == L.Output(drafts, who) != []
    ensures Yields(r, who.episodeId, L.Output(drafts, who),
                   Assembled(L.Output(drafts, who), contexts[who.episodeId], index, 0, false))
  {
    CrashedLog(drafts, who, stops);
    EpisodeFromStream(raw, L.Output(drafts, who), who.episodeId, contexts, index, r);
  }
}
