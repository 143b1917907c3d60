/** The proxy composed with the assembler: the episode that the log of any run becomes. */
module ProxyEpisodes {
  import opened Options
  import opened Trace
  import opened Episodes
  import opened Assembler
  import opened ModelProxy
  import opened ModelProxyRuns
  import L = EventLog
  import P = Pipeline

  function LogOf(cfg: Config, actions: seq<Action>): seq<Event> {
    Run(cfg, actions).shared.recorder.log.events
  }

  /** Every recorded request has its response: no call stopped between the two. */
  ghost predicate AllAnswered(sys: System) {
    forall t :: 0 <= t < |sys.threads| && Rank(sys.threads[t]) >= 2 ==> Rank(sys.threads[t]) == 4
  }

  /** Apart from the model spans, the log is a whole record of the episode. */
  ghost predicate OtherwiseWhole(events: seq<Event>, index: map<string, Artifact>) {
    && ParentsOccur(events)
    && Closed(events, ToolCall, ToolResult)
    && Closed(events, SandboxStarted, SandboxFinished)
    && Closed(events, VerificationStarted, VerificationFinished)
    && HasOne(events, EpisodeFinished)
    && RefsResolve(events, index)
  }

  lemma RunIsNumbered(cfg: Config, actions: seq<Action>)
    requires ModelProxyRuns.DistinctIds(cfg)
    ensures Episodes.AtPositions(LogOf(cfg, actions)) && Episodes.DistinctIds(LogOf(cfg, actions))
  {
    RunKeeps(cfg, actions);
  }

  /**
   * Whatever the interleaving and the failures, a run's log has no gap and no collision; its episode is CORRUPT exactly
   * when the episode was finished twice, and COMPLETE exactly when every recorded request was answered and the other
   * producers of the episode left a whole record too.
   */
  lemma ProxyEpisode(cfg: Config, actions: seq<Action>, index: map<string, Artifact>)
    requires ModelProxyRuns.DistinctIds(cfg) && LogOf(cfg, actions) != []
    ensures var events := LogOf(cfg, actions);
            && Ordered(events) == events && Gaps(events) == [] && Collisions(events) == []
            && (StateOf(events, index, false) == CORRUPT <==> HasTwo(events, EpisodeFinished))
            && (StateOf(events, index, false) == COMPLETE <==>
                AllAnswered(Run(cfg, actions)) && OtherwiseWhole(events, index))
  {
    var events := LogOf(cfg, actions);
    RunIsNumbered(cfg, actions);
    P.NumberedLog(events, index);
    ClosedIffAllAnswered(cfg, actions);
  }

  /** A call that stopped after its request keeps the episode from ever being COMPLETE, however the run goes on. */
  lemma StoppedCallIsNotComplete(cfg: Config, actions: seq<Action>, more: seq<Action>, t: nat,
                                 index: map<string, Artifact>)
    requires ModelProxyRuns.DistinctIds(cfg) && At(Run(cfg, actions), t, Dead(Sent))
    ensures LogOf(cfg, actions + more) != [] && StateOf(LogOf(cfg, actions + more), index, false) != COMPLETE
  {
    StoppedCallStaysOpen(cfg, actions, more, t);
    EndedStaysEnded(cfg, actions, more, t);
    assert Rank(Run(cfg, actions + more).threads[t]) == 2;
    ProxyEpisode(cfg, actions + more, index);
  }

  /** In any raw stream that carries the run's events, the assembly holds that episode, or names it as failed. */
  lemma ProxyEpisodeInAnyStream(cfg: Config, actions: seq<Action>, raw: seq<Event>, contexts: Contexts,
                                index: map<string, Artifact>, r: AssemblyResult)
    requires ModelProxyRuns.DistinctIds(cfg) && LogOf(cfg, actions) != []
    requires Unambiguous(raw, contexts) && P.Carries(raw, LogOf(cfg, actions), cfg.who.episodeId)
    requires cfg.who.episodeId in contexts && AssemblyOf(raw, contexts, index, r)
    ensures var id := cfg.who.episodeId;
            var one := Assembled(LogOf(cfg, actions), contexts[id], index, 0, false);
            && P.Yields(r, id, LogOf(cfg, actions), one)
            && (one.Ok? ==>
                  && (one.value.core.state == CORRUPT <==> HasTwo(LogOf(cfg, actions), EpisodeFinished))
                  && (one.value.core.state == COMPLETE <==>
                      AllAnswered(Run(cfg, actions)) && OtherwiseWhole(LogOf(cfg, actions), index)))
  {
    var id, events := cfg.who.episodeId, LogOf(cfg, actions);
    ProxyEpisode(cfg, actions, index);
    RunIsNumbered(cfg, actions);
    P.EpisodeFromStream(raw, events, id, contexts, index, r);
    if Assembled(events, contexts[id], index, 0, false).Ok? {
      AssembledState(events, contexts[id], index, 0, false);
    }
  }
}
