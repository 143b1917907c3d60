/** The streaming client: it splits the stream into frames, parses each chunk and folds the deltas in order. */
module SseClient {
  import opened Options
  import opened Json
  import opened Ordering
  import opened SseReplay

  // ---------------------------------------------------------------- frames

  predicate LineBreak(c: char) {
    c == '\n' || c == '\r'
  }

  predicate OneLine(s: string) {
    s == "" || (!LineBreak(s[0]) && OneLine(s[1..]))
  }

  /** The length of the first line. */
  function LineEnd(s: string): (n: nat)
    ensures n <= |s|
  {
    if s == "" || LineBreak(s[0]) then 0 else 1 + LineEnd(s[1..])
  }

  /** The data of every event; each event is one `data:` line and a blank line. */
  function Payloads(s: string): Option<seq<string>>
    decreases |s|
  {
    if s == "" then Some([])
    else
      var n := LineEnd(s);
      if n < 6 || s[..6] != "data: " || n + 2 > |s| || !LineBreak(s[n + 1]) then None
      else match Payloads(s[n + 2..])
        case None => None
        case Some(more) => Some([s[6..n]] + more)
  }

  /** The parsed chunks up to the closing mark. */
  function Decode(payloads: seq<string>): Option<seq<Json>> {
    if payloads == [] then None
    else if payloads[0] == DONE then Some([])
    else match (Loads(payloads[0]), Decode(payloads[1..]))
      case (Some(chunk), Some(more)) => Some([chunk] + more)
      case _ => None
  }

  // ---------------------------------------------------------------- folding

  datatype Call = Call(index: Json, id: Json, kind: Json, name: Json, arguments: string)

  datatype Reply = Reply(pieces: seq<Json>, calls: seq<Call>, finish: Option<Json>)

  const NO_REPLY := Reply([], [], None)

  function Position(calls: seq<Call>, index: Json): Option<nat> {
    if calls == [] then None
    else if calls[|calls| - 1].index == index then Some(|calls| - 1)
    else Position(calls[..|calls| - 1], index)
  }

  function Inner(entry: Fields, key: string): Option<Json> {
    match Get(entry, "function")
    case Some(Obj(f)) => Get(f, key)
    case _ => None
  }

  function TextOf(v: Option<Json>): string {
    match v
    case Some(Str(t)) => t
    case _ => ""
  }

  /** A delta of a known index adds argument text; a new index opens a call. */
  function FoldCall(calls: seq<Call>, entry: Fields): (r: seq<Call>) {
    var index := OrElse(Get(entry, "index"), Null);
    var more := TextOf(Inner(entry, "arguments"));
    match Position(calls, index)
    case Some(p) => if p < |calls| then calls[p := calls[p].(arguments := calls[p].arguments + more)] else calls
    case None =>
      calls + [Call(index, OrElse(Get(entry, "id"), Null), OrElse(Get(entry, "type"), Null),
                    OrElse(Inner(entry, "name"), Null), more)]
  }

  function FoldCalls(calls: seq<Call>, entries: Items): seq<Call>
    decreases entries
  {
    match entries
    case NoItems => calls
    case Item(Obj(entry), more) => FoldCalls(FoldCall(calls, entry), more)
    case Item(_, more) => FoldCalls(calls, more)
  }

  function FoldDelta(r: Reply, delta: Fields, finish: Json): Reply {
    var calls := match Get(delta, "tool_calls") {
        case Some(Arr(entries)) => FoldCalls(r.calls, entries)
        case _ => r.calls
      };
    var pieces := match Get(delta, "content") { case None => r.pieces case Some(v) => r.pieces + [v] };
    Reply(pieces, calls, if finish == Null then r.finish else Some(finish))
  }

  function FoldChunk(r: Reply, chunk: Json): Reply {
    if !chunk.Obj? then r
    else match Choice(chunk.fields)
      case None => r
      case Some(choice) =>
        match Get(choice, "delta")
        case Some(Obj(delta)) => FoldDelta(r, delta, OrElse(Get(choice, "finish_reason"), Null))
        case _ => r
  }

  function FoldAll(chunks: seq<Json>): Reply {
    if chunks == [] then NO_REPLY else FoldChunk(FoldAll(chunks[..|chunks| - 1]), chunks[|chunks| - 1])
  }

  /** What the client makes of a stream. */
  function Receive(stream: string): Option<Reply> {
    match Payloads(stream)
    case None => None
    case Some(payloads) =>
      match Decode(payloads)
      case None => None
      case Some(chunks) => Some(FoldAll(chunks))
  }

  // ---------------------------------------------------------------- the framing round trip

  lemma {:induction false} OneLineJoin(a: string, b: string)
    requires OneLine(a) && OneLine(b)
    ensures OneLine(a + b)
  {
    if a == "" {
      assert a + b == b;
    } else {
      OneLineJoin(a[1..], b);
      assert (a + b)[1..] == a[1..] + b;
    }
  }

  lemma {:induction false} NoBreakIsOneLine(s: string)
    requires forall i :: 0 <= i < |s| ==> !LineBreak(s[i])
    ensures OneLine(s)
  {
    if s != "" { NoBreakIsOneLine(s[1..]); }
  }

  lemma {:induction false} TextIsOneLine(text: string, tail: string)
    requires OneLine(tail)
    ensures OneLine(EmitText(text, tail))
  {
    if text == "" {
      OneLineJoin(['"'], tail);
    } else {
      TextIsOneLine(text[1..], tail);
      NoBreakIsOneLine(EscapeChar(text[0]));
      OneLineJoin(EscapeChar(text[0]), EmitText(text[1..], tail));
    }
  }

  /** What is printed has no line break, so a frame holds it on one line. */
  lemma {:induction false} PrintIsOneLine(value: Json, tail: string)
    requires WellFormed(value) && OneLine(tail)
    ensures OneLine(Emit(value, " ", tail))
    decreases value, 0
  {
    match value
    case Null =>
      NoBreakIsOneLine("null");
      OneLineJoin("null", tail);
    case Bool(on) =>
      NoBreakIsOneLine(if on then "true" else "false");
      OneLineJoin(if on then "true" else "false", tail);
    case Num(literal) =>
      NoBreakIsOneLine(literal);
      OneLineJoin(literal, tail);
    case Str(text) =>
      TextIsOneLine(text, tail);
      OneLineJoin(['"'], EmitText(text, tail));
    case Arr(items) =>
      OneLineJoin([']'], tail);
      ItemsAreOneLine(items, [']'] + tail);
      OneLineJoin(['['], EmitItems(items, " ", [']'] + tail));
    case Obj(fields) =>
      OneLineJoin(['}'], tail);
      FieldsAreOneLine(fields, ['}'] + tail);
      OneLineJoin(['{'], EmitFields(fields, " ", ['}'] + tail));
  }

  lemma Comma(c: char, s: string)
    requires OneLine(s) && !LineBreak(c)
    ensures OneLine([c] + (" " + s))
  {
    OneLineJoin(" ", s);
    OneLineJoin([c], " " + s);
  }

  lemma {:induction false} ItemsAreOneLine(items: Items, tail: string)
    requires WellFormedItems(items) && OneLine(tail)
    ensures OneLine(EmitItems(items, " ", tail))
    decreases items, 1
  {
    match items
    case NoItems =>
    case Item(v, NoItems) => PrintIsOneLine(v, tail);
    case Item(v, more) =>
      ItemsAreOneLine(more, tail);
      Comma(',', EmitItems(more, " ", tail));
      PrintIsOneLine(v, [','] + (" " + EmitItems(more, " ", tail)));
  }

  lemma {:induction false} FieldsAreOneLine(fields: Fields, tail: string)
    requires WellFormedFields(fields) && OneLine(tail)
    ensures OneLine(EmitFields(fields, " ", tail))
    decreases fields, 1
  {
    match fields
    case NoFields =>
    case Field(k, v, rest) =>
      var after := if rest == NoFields then tail else [','] + (" " + EmitFields(rest, " ", tail));
      if rest != NoFields {
        FieldsAreOneLine(rest, tail);
        Comma(',', EmitFields(rest, " ", tail));
      }
      PrintIsOneLine(v, after);
      Comma(':', Emit(v, " ", after));
      TextIsOneLine(k, [':'] + (" " + Emit(v, " ", after)));
      OneLineJoin(['"'], EmitText(k, [':'] + (" " + Emit(v, " ", after))));
  }

  lemma {:induction false} LineEnds(s: string, tail: string)
    requires OneLine(s) && tail != "" && LineBreak(tail[0])
    ensures LineEnd(s + tail) == |s|
  {
    if s == "" {
      assert s + tail == tail;
    } else {
      LineEnds(s[1..], tail);
      assert (s + tail)[1..] == s[1..] + tail;
    }
  }

  /** The first event of `s` is the data line up to `n`, and `tail` follows its blank line. */
  predicate EventFirst(s: string, n: nat, p: string, tail: string) {
    && 6 <= n && n + 2 <= |s| && LineEnd(s) == n
    && s[..6] == "data: " && s[6..n] == p && s[n + 1] == '\n' && s[n + 2..] == tail
  }

  lemma SlicesOf(mark: string, p: string, gap: string, tail: string)
    requires |gap| == 2
    ensures var s, n := (mark + p) + (gap + tail), |mark| + |p|;
            |s| == n + 2 + |tail| && s[..|mark|] == mark && s[|mark|..n] == p && s[n + 1] == gap[1]
              && s[n + 2..] == tail
  {
  }

  lemma FrameIsFirst(p: string, tail: string)
    requires OneLine(p)
    ensures EventFirst(Frame(p) + tail, 6 + |p|, p, tail)
  {
    var mark, gap := "data: ", "\n\n";
    Regroup(mark + p, gap, tail);
    NoBreakIsOneLine(mark);
    OneLineJoin(mark, p);
    LineEnds(mark + p, gap + tail);
    SlicesOf(mark, p, gap, tail);
  }

  lemma FirstPayload(s: string, n: nat, p: string, tail: string)
    requires EventFirst(s, n, p, tail) && Payloads(tail).Some?
    ensures Payloads(s) == Some([p] + Payloads(tail).value)
  {
  }

  lemma OneFrameRead(p: string, tail: string)
    requires OneLine(p) && Payloads(tail).Some?
    ensures Payloads(Frame(p) + tail) == Some([p] + Payloads(tail).value)
  {
    FrameIsFirst(p, tail);
    FirstPayload(Frame(p) + tail, 6 + |p|, p, tail);
  }

  ghost predicate AllOneLine(payloads: seq<string>) {
    forall i :: 0 <= i < |payloads| ==> OneLine(payloads[i])
  }

  /** The client reads back exactly the payloads that were framed. */
  lemma {:induction false} FramesRoundTrip(payloads: seq<string>, tail: string)
    requires AllOneLine(payloads) && Payloads(tail).Some?
    ensures Payloads(Framed(payloads) + tail) == Some(payloads + Payloads(tail).value)
    decreases |payloads|
  {
    if payloads == [] {
      assert "" + tail == tail && payloads + Payloads(tail).value == Payloads(tail).value;
    } else {
      var n := |payloads| - 1;
      OneFrameRead(payloads[n], tail);
      FramesRoundTrip(payloads[..n], Frame(payloads[n]) + tail);
      Regroup(Framed(payloads[..n]), Frame(payloads[n]), tail);
      Regroup(payloads[..n], [payloads[n]], Payloads(tail).value);
      assert payloads[..n] + [payloads[n]] == payloads;
    }
  }

  ghost predicate AllObjects(chunks: seq<Json>) {
    forall i :: 0 <= i < |chunks| ==> WellFormed(chunks[i]) && chunks[i].Obj?
  }

  lemma {:induction false} PrintedAre(chunks: seq<Json>)
    ensures |Printed(chunks)| == |chunks|
    ensures forall i :: 0 <= i < |chunks| ==> Printed(chunks)[i] == Print(chunks[i], " ")
  {
    if chunks != [] { PrintedAre(chunks[..|chunks| - 1]); }
  }

  lemma {:induction false} DecodePrinted(chunks: seq<Json>, payloads: seq<string>)
    requires AllObjects(chunks) && |payloads| == |chunks| + 1 && payloads[|chunks|] == DONE
    requires forall i :: 0 <= i < |chunks| ==> payloads[i] == Print(chunks[i], " ")
    ensures Decode(payloads) == Some(chunks)
    decreases |chunks|
  {
    if chunks != [] {
      var chunk := chunks[0];
      LoadsRoundTrip(chunk, " ", "", "");
      assert "" + Emit(chunk, " ", "") == payloads[0];
      assert payloads[0][0] == '{' && DONE[0] == '[';
      DecodePrinted(chunks[1..], payloads[1..]);
      assert chunks == [chunk] + chunks[1..];
    }
  }

  /** A stream of chunks is received as the fold of those chunks. */
  lemma StreamIsReceived(chunks: seq<Json>)
    requires AllObjects(chunks)
    ensures Receive(Stream(chunks)) == Some(FoldAll(chunks))
  {
    var payloads := Printed(chunks) + [DONE];
    PrintedAre(chunks);
    forall i | 0 <= i < |payloads| ensures OneLine(payloads[i]) {
      if i < |chunks| {
        PrintIsOneLine(chunks[i], "");
      } else {
        NoBreakIsOneLine(DONE);
      }
    }
    FramesRoundTrip(payloads, "");
    assert Framed(payloads) + "" == Framed(payloads) && payloads + [] == payloads;
    DecodePrinted(chunks, payloads);
  }
}
