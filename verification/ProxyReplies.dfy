/** A generated text that makes the extraction raise, followed through the proxy to the recorded episode. */
module ProxyReplies {
  import opened Options
  import opened Json
  import opened Trace
  import opened ModelProxy
  import opened ModelProxyRuns
  import E = ProxyEpisodes
  import Episodes
  import H = RecoverCalls
  import V = EvidenceLog
  import X = ToolCalls

  /** What the upstream step yields: the captured evidence, or nothing when handling the reply raises. */
  function OutcomeOf(handled: Result<Fields, X.Error>, e: V.Evidence): Option<V.Evidence> {
    if handled.Ok? then Some(e) else None
  }

  /** A reply whose handling raises ends its call right after the request. */
  lemma RaisingReplyEndsTheCall(cfg: Config, actions: seq<Action>, t: nat, handled: Result<Fields, X.Error>,
                                e: V.Evidence)
    requires At(Run(cfg, actions), t, Live(Sent)) && handled.Err?
    ensures At(Run(cfg, actions + [Upstream(t, OutcomeOf(handled, e))]), t, Dead(Sent))
  {
    var longer := actions + [Upstream(t, None)];
    assert longer[..|longer| - 1] == actions;
  }

  /** The request of a call with a raising reply is never answered, and the episode is not COMPLETE. */
  ghost predicate LeftOpen(cfg: Config, actions: seq<Action>, t: nat, index: map<string, Episodes.Artifact>) {
    var sys := Run(cfg, actions);
    var events := sys.shared.recorder.log.events;
    && Recorded(events, ModelRequest, ThreadSpan(cfg, t))
    && !Recorded(events, ModelResponse, ThreadSpan(cfg, t))
    && !V.Stored(sys.shared.evidence.rows, cfg.ids(t))
    && events != [] && Episodes.StateOf(events, index, false) != Episodes.COMPLETE
  }

  lemma StoppedCallIsLeftOpen(cfg: Config, actions: seq<Action>, more: seq<Action>, t: nat,
                              index: map<string, Episodes.Artifact>)
    requires DistinctIds(cfg) && At(Run(cfg, actions), t, Dead(Sent))
    ensures LeftOpen(cfg, actions + more, t, index)
  {
    StoppedCallStaysOpen(cfg, actions, more, t);
    E.StoppedCallIsNotComplete(cfg, actions, more, t, index);
  }

  /**
   * A successful reply whose content prints, untagged and after text without braces, an object that has a list or an
   * object as its name stops its call: whatever happens afterwards, the call's request is recorded, it has no response
   * and no evidence row, and the recorded episode is not COMPLETE.
   */
  lemma ObjectNameSpoilsTheEpisode(cfg: Config, actions: seq<Action>, more: seq<Action>, t: nat, e: V.Evidence,
                                    status: int, response: Fields, tools: Json, ids: nat -> string,
                                    handled: Result<Fields, X.Error>,
                                    before: string, fields: Fields, name: Json, sp: string, after: string,
                                    index: map<string, Episodes.Artifact>)
    requires DistinctIds(cfg) && At(Run(cfg, actions), t, Live(Sent))
    requires 200 <= status < 300 && H.Open(response) && X.AllowedNames(tools) != {}
    requires H.TextOf(response) == before + (Print(Obj(fields), sp) + after)
    requires Get(fields, "name") == Some(name) && (name.Arr? || name.Obj?)
    requires WellFormed(Obj(fields)) && Blanks(sp)
    requires X.NoBrace(before) && X.Without(H.TextOf(response), X.TOOL_CALL.open)
    requires H.Handled(status, false, response, tools, ids, handled)
    ensures LeftOpen(cfg, actions + [Upstream(t, OutcomeOf(handled, e))] + more, t, index)
  {
    X.PrintedObjectNameRaises(before, fields, name, sp, after, X.AllowedNames(tools));
    H.RaisingIsAnError(status, response, tools, ids, handled);
    RaisingReplyEndsTheCall(cfg, actions, t, handled, e);
    StoppedCallIsLeftOpen(cfg, actions + [Upstream(t, OutcomeOf(handled, e))], more, t, index);
  }
}
