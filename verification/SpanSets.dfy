/**
 * The spans that occur in events, that stand as parents, and that events of one kind carry, collected event by event.
 */
module SpanSets {
  import opened Options
  import opened Trace
  import opened Episodes

  function Spans(events: seq<Event>): set<string> {
    if events == [] then {} else Spans(events[..|events| - 1]) + {events[|events| - 1].spanId}
  }

  function Parents(events: seq<Event>): set<string> {
    if events == [] then {}
    else
      var parent := events[|events| - 1].parent;
      Parents(events[..|events| - 1]) + (if parent.Some? then {parent.value} else {})
  }

  function Marked(events: seq<Event>, kind: EventType): set<string> {
    if events == [] then {}
    else
      var e := events[|events| - 1];
      Marked(events[..|events| - 1], kind) + (if e.kind == kind then {e.spanId} else {})
  }

  lemma SpansAre(events: seq<Event>)
    ensures Spans(events) == SpanIds(events)
    ensures Parents(events) <= Spans(events) <==> ParentsOccur(events)
    ensures forall kind :: Marked(events, kind) == SpansOf(events, kind)
  {
    SpansAreIds(events);
    ParentsAre(events);
    forall kind ensures Marked(events, kind) == SpansOf(events, kind) { MarkedAre(events, kind); }
    assert ParentsOccur(events) <==>
      forall i :: 0 <= i < |events| && events[i].parent.Some? ==> events[i].parent.value in SpanIds(events);
  }

  lemma {:induction false} SpansAreIds(events: seq<Event>)
    ensures Spans(events) == SpanIds(events)
  {
    if events != [] {
      var n := |events| - 1;
      SpansAreIds(events[..n]);
      assert forall i :: 0 <= i < n ==> events[..n][i] == events[i];
      forall span | span in SpanIds(events[..n]) ensures span in SpanIds(events) {
        var i :| 0 <= i < n && events[..n][i].spanId == span;
        assert events[i].spanId == span;
      }
    }
  }

  lemma {:induction false} ParentsAre(events: seq<Event>)
    ensures forall span :: span in Parents(events) <==> exists i :: 0 <= i < |events| && events[i].parent == Some(span)
  {
    if events != [] {
      var n := |events| - 1;
      ParentsAre(events[..n]);
      assert forall i :: 0 <= i < n ==> events[..n][i] == events[i];
      forall span | span in Parents(events[..n])
        ensures exists i :: 0 <= i < |events| && events[i].parent == Some(span)
      {
        var i :| 0 <= i < n && events[..n][i].parent == Some(span);
        assert events[i].parent == Some(span);
      }
    }
  }

  lemma MarkedAre(events: seq<Event>, kind: EventType)
    ensures Marked(events, kind) == SpansOf(events, kind)
  {
    forall span
      ensures span in Marked(events, kind) <==> span in SpansOf(events, kind)
    {
      MarkedMember(events, kind, span);
    }
  }

  lemma {:induction false} MarkedMember(events: seq<Event>, kind: EventType, span: string)
    ensures span in Marked(events, kind) <==>
            exists i :: 0 <= i < |events| && events[i].kind == kind && events[i].spanId == span
  {
    if events != [] {
      var n := |events| - 1;
      MarkedMember(events[..n], kind, span);
      assert forall i :: 0 <= i < n ==> events[..n][i] == events[i];
      if i :| 0 <= i < |events[..n]| && events[..n][i].kind == kind && events[..n][i].spanId == span {
        assert events[i].spanId == span;
      }
    }
  }

  lemma SpansAppend(events: seq<Event>, e: Event)
    ensures Spans(events + [e]) == Spans(events) + {e.spanId}
    ensures Parents(events + [e]) == Parents(events) + (if e.parent.Some? then {e.parent.value} else {})
    ensures forall kind ::
            Marked(events + [e], kind) == Marked(events, kind) + (if e.kind == kind then {e.spanId} else {})
  {
    assert (events + [e])[..|events|] == events;
  }
}
