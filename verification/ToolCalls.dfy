/** `extract_tool_calls`: tool calls recovered from the text of a policy, tagged or bare. */
module ToolCalls {
  import opened Options
  import opened Json
  import opened Ordering
  import opened BraceScan

  /** The delimiters of the block pattern `<tool_call>(.*?)</tool_call>`. */
  datatype Tags = Tags(open: string, close: string)

  const TOOL_CALL := Tags("<tool_call>", "</tool_call>")

  datatype Call = Call(id: string, name: string, arguments: string)

  /** `name not in allowed` raises when the name is a list or a dictionary. */
  datatype Error = UnhashableName

  // ---------------------------------------------------------------- declared names

  /** `allowed_tool_names`: the function names of a list of tool declarations; anything else declares nothing. */
  function AllowedNames(tools: Json): set<string> {
    match tools
    case Arr(items) => NamesOf(items)
    case _ => {}
  }

  function NamesOf(items: Items): set<string> {
    match items
    case NoItems => {}
    case Item(tool, more) => NameOf(tool) + NamesOf(more)
  }

  function NameOf(tool: Json): set<string> {
    match tool
    case Obj(fields) =>
      (match Get(fields, "function") {
        case Some(Obj(f)) =>
          (match Get(f, "name") {
            case Some(Str(name)) => if name == "" then {} else {name}
            case _ => {}
          })
        case _ => {}
      })
    case _ => {}
  }

  // ---------------------------------------------------------------- tagged blocks

  /** The first occurrence of `pattern` at or after `from`. */
  function Find(text: string, pattern: string, from: nat): (r: Option<nat>)
    requires from <= |text|
    ensures r.Some? ==> from <= r.value && r.value + |pattern| <= |text| && pattern <= text[r.value..]
    decreases |text| - from
  {
    if pattern <= text[from..] then Some(from)
    else if from == |text| then None
    else Find(text, pattern, from + 1)
  }

  /** A match of the non-greedy block pattern: where it starts, where its body is, where it ends. */
  datatype Block = Block(start: nat, body: nat, bodyEnd: nat, end: nat)

  predicate ValidBlock(text: string, b: Block) {
    b.start < b.body <= b.bodyEnd < b.end <= |text|
  }

  /** The matches of the block pattern from `from` on, leftmost and shortest first. */
  function Blocks(text: string, tags: Tags, from: nat): (blocks: seq<Block>)
    requires from <= |text| && tags.open != "" && tags.close != ""
    ensures forall k :: 0 <= k < |blocks| ==> from <= blocks[k].start && ValidBlock(text, blocks[k])
    decreases |text| - from, 1
  {
    match Find(text, tags.open, from)
    case None => []
    case Some(i) => BlocksFrom(text, tags, i, Find(text, tags.close, i + |tags.open|))
  }

  /** The block that opens at `i` and closes at the match found for its closing tag, and the blocks after it. */
  function BlocksFrom(text: string, tags: Tags, i: nat, close: Option<nat>): (blocks: seq<Block>)
    requires tags.open != "" && tags.close != "" && i + |tags.open| <= |text|
    requires close.Some? ==> i + |tags.open| <= close.value && close.value + |tags.close| <= |text|
    ensures forall k :: 0 <= k < |blocks| ==> i <= blocks[k].start && ValidBlock(text, blocks[k])
    decreases |text| - i, 0
  {
    match close
    case None => []
    case Some(j) => [Block(i, i + |tags.open|, j, j + |tags.close|)] + Blocks(text, tags, j + |tags.close|)
  }

  function Bodies(text: string, blocks: seq<Block>): seq<string>
    requires forall k :: 0 <= k < |blocks| ==> ValidBlock(text, blocks[k])
  {
    if blocks == [] then []
    else
      assert ValidBlock(text, blocks[0]);
      [text[blocks[0].body..blocks[0].bodyEnd]] + Bodies(text, blocks[1..])
  }

  predicate Covered(start: nat, blocks: seq<Block>) {
    exists i :: 0 <= i < |blocks| && blocks[i].start <= start < blocks[i].end
  }

  /** The spans that no tagged block covers. */
  function Uncovered(spans: seq<(nat, string)>, blocks: seq<Block>): seq<string> {
    if spans == [] then []
    else (if Covered(spans[0].0, blocks) then [] else [spans[0].1]) + Uncovered(spans[1..], blocks)
  }

  function Candidates(text: string): seq<string> {
    Bodies(text, Blocks(text, TOOL_CALL, 0)) + Uncovered(Spans(text, 0), Blocks(text, TOOL_CALL, 0))
  }

  // ---------------------------------------------------------------- judging a candidate

  datatype Verdict = Nothing | Raises | Accept(name: string, arguments: Fields)

  function Judge(candidate: string, allowed: set<string>): Verdict {
    match Loads(candidate)
    case Some(Obj(fields)) => JudgeObject(fields, allowed)
    case _ => Nothing
  }

  function JudgeObject(fields: Fields, allowed: set<string>): Verdict {
    var arguments := match Get(fields, "arguments") { case None => Obj(NoFields) case Some(a) => a };
    match Get(fields, "name")
    case Some(Arr(_)) => Raises
    case Some(Obj(_)) => Raises
    case Some(Str(name)) =>
      if name !in allowed || !arguments.Obj? || arguments.fields == NoFields then Nothing
      else Accept(name, arguments.fields)
    case _ => Nothing
  }

  /** The accepted candidates, in order. */
  function Accepted(candidates: seq<string>, allowed: set<string>): seq<Verdict> {
    if candidates == [] then []
    else
      var front := Accepted(candidates[..|candidates| - 1], allowed);
      var verdict := Judge(candidates[|candidates| - 1], allowed);
      if verdict.Accept? then front + [verdict] else front
  }

  predicate Raising(candidates: seq<string>, allowed: set<string>) {
    exists i :: 0 <= i < |candidates| && Judge(candidates[i], allowed).Raises?
  }

  /** `calls` carries the accepted verdicts, each with its own generated id and its arguments printed compactly. */
  predicate Carries(calls: seq<Call>, verdicts: seq<Verdict>, ids: nat -> string) {
    && |calls| == |verdicts|
    && forall i :: 0 <= i < |calls| ==>
         verdicts[i].Accept? && calls[i] == Call(ids(i), verdicts[i].name, Compact(Obj(verdicts[i].arguments)))
  }

  predicate Extracted(candidates: seq<string>, allowed: set<string>, ids: nat -> string, r: Result<seq<Call>, Error>) {
    && (r.Err? <==> Raising(candidates, allowed))
    && (r.Ok? ==> Carries(r.value, Accepted(candidates, allowed), ids))
  }

  method ExtractToolCalls(text: string, tools: Json, ids: nat -> string) returns (r: Result<seq<Call>, Error>)
    ensures AllowedNames(tools) == {} ==> r == Ok([])
    ensures AllowedNames(tools) != {} ==> Extracted(Candidates(text), AllowedNames(tools), ids, r)
  {
    var allowed := AllowedNames(tools);
    if allowed == {} {
      return Ok([]);
    }
    if text == "" {
      return Ok([]);
    }
    var blocks := Blocks(text, TOOL_CALL, 0);
    var spans := BalancedJsonObjects(text);
    var candidates := Bodies(text, blocks) + Uncovered(spans, blocks);
    r := CallsIn(candidates, allowed, ids);
  }

  /** The loop over the candidates. */
  method CallsIn(candidates: seq<string>, allowed: set<string>, ids: nat -> string)
    returns (r: Result<seq<Call>, Error>)
    ensures Extracted(candidates, allowed, ids, r)
  {
    var calls: seq<Call> := [];
    for k := 0 to |candidates|
      invariant Extracted(candidates[..k], allowed, ids, Ok(calls))
    {
      ExtractedGrows(candidates, k, allowed, ids, calls);
      var parsed := Loads(candidates[k]);
      if parsed.None? || !parsed.value.Obj? {
        continue;
      }
      var fields := parsed.value.fields;
      var name := Get(fields, "name");
      if name.Some? && (name.value.Arr? || name.value.Obj?) {
        return Err(UnhashableName);
      }
      var arguments := match Get(fields, "arguments") { case None => Obj(NoFields) case Some(a) => a };
      if name.None? || !name.value.Str? || name.value.text !in allowed || !arguments.Obj? {
        continue;
      }
      if arguments.fields == NoFields {
        continue;
      }
      calls := calls + [Call(ids(|calls|), name.value.text, Compact(arguments))];
    }
    assert candidates[..|candidates|] == candidates;
    return Ok(calls);
  }

  lemma RaisingGrows(candidates: seq<string>, k: nat, allowed: set<string>)
    requires k < |candidates|
    ensures Raising(candidates[..k + 1], allowed) <==>
            Raising(candidates[..k], allowed) || Judge(candidates[k], allowed).Raises?
    ensures Raising(candidates[..k + 1], allowed) ==> Raising(candidates, allowed)
  {
    var next := candidates[..k + 1];
    assert next[k] == candidates[k];
    if i :| 0 <= i < k && Judge(candidates[..k][i], allowed).Raises? { assert next[i] == candidates[..k][i]; }
    if i :| 0 <= i < |next| && Judge(next[i], allowed).Raises? { assert i < k ==> candidates[..k][i] == next[i]; }
  }

  lemma CarriesMore(calls: seq<Call>, verdicts: seq<Verdict>, ids: nat -> string, v: Verdict)
    requires Carries(calls, verdicts, ids) && v.Accept?
    ensures Carries(calls + [Call(ids(|calls|), v.name, Compact(Obj(v.arguments)))], verdicts + [v], ids)
  {
  }

  /** What each verdict does to the calls extracted so far. */
  lemma ExtractedGrows(candidates: seq<string>, k: nat, allowed: set<string>, ids: nat -> string, calls: seq<Call>)
    requires k < |candidates| && Extracted(candidates[..k], allowed, ids, Ok(calls))
    ensures var v := Judge(candidates[k], allowed);
            match v
            case Nothing => Extracted(candidates[..k + 1], allowed, ids, Ok(calls))
            case Raises => Extracted(candidates, allowed, ids, Err(UnhashableName))
            case Accept(name, arguments) =>
              Extracted(candidates[..k + 1], allowed, ids,
                        Ok(calls + [Call(ids(|calls|), name, Compact(Obj(arguments)))]))
  {
    var v := Judge(candidates[k], allowed);
    AcceptedGrows(candidates, k, allowed);
    RaisingGrows(candidates, k, allowed);
    var before := Accepted(candidates[..k], allowed);
    assert before + [] == before;
    if v.Accept? { CarriesMore(calls, before, ids, v); }
  }

  lemma AcceptedGrows(candidates: seq<string>, k: nat, allowed: set<string>)
    requires k < |candidates|
    ensures Accepted(candidates[..k + 1], allowed) ==
            Accepted(candidates[..k], allowed)
              + (if Judge(candidates[k], allowed).Accept? then [Judge(candidates[k], allowed)] else [])
  {
    assert candidates[..k + 1][..k] == candidates[..k];
  }

  // ---------------------------------------------------------------- what a call is

  ghost predicate ComesFrom(call: Call, candidate: string, allowed: set<string>) {
    exists fields, arguments ::
      && Loads(candidate) == Some(Obj(fields))
      && Get(fields, "name") == Some(Str(call.name)) && call.name in allowed
      && Get(fields, "arguments") == Some(Obj(arguments)) && arguments != NoFields
      && call.arguments == Compact(Obj(arguments))
  }

  lemma AcceptComesFrom(candidate: string, allowed: set<string>, call: Call)
    requires var v := Judge(candidate, allowed);
             v.Accept? && call.name == v.name && call.arguments == Compact(Obj(v.arguments))
    ensures ComesFrom(call, candidate, allowed)
  {
    var fields := Loads(candidate).value.fields;
    assert Get(fields, "arguments") == Some(Obj(Judge(candidate, allowed).arguments));
  }

  lemma {:induction false} AcceptedFrom(candidates: seq<string>, allowed: set<string>, i: nat) returns (k: nat)
    requires i < |Accepted(candidates, allowed)|
    ensures k < |candidates| && Judge(candidates[k], allowed) == Accepted(candidates, allowed)[i]
    ensures Accepted(candidates, allowed)[i].Accept?
    decreases |candidates|
  {
    var front := candidates[..|candidates| - 1];
    if i < |Accepted(front, allowed)| {
      k := AcceptedFrom(front, allowed, i);
    } else {
      k := |candidates| - 1;
    }
  }

  /** No call is fabricated: each is read off a candidate that parses as an allowed call with arguments. */
  lemma NoCallIsFabricated(candidates: seq<string>, allowed: set<string>, calls: seq<Call>, ids: nat -> string, i: nat)
    requires Carries(calls, Accepted(candidates, allowed), ids) && i < |calls|
    ensures exists k :: 0 <= k < |candidates| && ComesFrom(calls[i], candidates[k], allowed)
  {
    var k := AcceptedFrom(candidates, allowed, i);
    AcceptComesFrom(candidates[k], allowed, calls[i]);
  }

  /**
   * A candidate that prints an object whose name is a list or an object makes the extraction raise, not yield nothing.
   */
  lemma ObjectNameRaises(fields: Fields, name: Json, sp: string, allowed: set<string>)
    requires Get(fields, "name") == Some(name) && (name.Arr? || name.Obj?)
    requires WellFormed(Obj(fields)) && Blanks(sp)
    ensures Judge(Print(Obj(fields), sp), allowed) == Raises
  {
    LoadsRoundTrip(Obj(fields), sp, "", "");
    assert "" + Emit(Obj(fields), sp, "") == Print(Obj(fields), sp);
  }

  // ---------------------------------------------------------------- finding the tags

  /** Tags have `<` only in front, so text without an occurrence cannot start one that reaches into the next `<`. */
  predicate TagLike(pattern: string) {
    pattern != "" && pattern[0] == '<' && forall k :: 0 < k < |pattern| ==> pattern[k] != '<'
  }

  predicate Without(text: string, pattern: string) {
    forall i :: 0 <= i <= |text| ==> !(pattern <= text[i..])
  }

  lemma OccurrenceStaysInFront(front: string, next: string, pattern: string, i: nat)
    requires TagLike(pattern) && next != "" && next[0] == '<'
    requires i < |front| && pattern <= (front + next)[i..]
    ensures pattern <= front[i..]
  {
    var text := (front + next)[i..];
    assert text == front[i..] + next;
    assert text[|front| - i] == '<';
  }

  /** `pattern` occurs at `at`, and nowhere between `from` and it. */
  predicate FirstAt(text: string, pattern: string, from: nat, at: nat) {
    && from <= at <= |text| && pattern <= text[at..]
    && forall i :: from <= i < at ==> !(pattern <= text[i..])
  }

  lemma {:induction false} FindIs(text: string, pattern: string, from: nat, at: nat)
    requires FirstAt(text, pattern, from, at)
    ensures Find(text, pattern, from) == Some(at)
    decreases at - from
  {
    if from < at {
      FindIs(text, pattern, from + 1, at);
    }
  }

  /** Where the tag `pattern` first occurs, when it begins `next` and does not occur in `front`. */
  lemma FirstAfter(head: string, front: string, next: string, pattern: string)
    requires TagLike(pattern) && Without(front, pattern) && pattern <= next
    ensures FirstAt(head + (front + next), pattern, |head|, |head| + |front|)
  {
    var text := head + (front + next);
    assert forall i :: |head| <= i <= |text| ==> text[i..] == (front + next)[i - |head|..];
    forall i | |head| <= i < |head| + |front| ensures !(pattern <= text[i..]) {
      if pattern <= text[i..] {
        OccurrenceStaysInFront(front, next, pattern, i - |head|);
      }
    }
    assert text[|head| + |front|..] == next;
  }

  lemma FindNothing(head: string, tail: string, pattern: string)
    requires Without(tail, pattern)
    ensures Find(head + tail, pattern, |head|) == None
  {
    var text := head + tail;
    assert forall i :: |head| <= i <= |text| ==> text[i..] == tail[i - |head|..];
  }

  predicate ValidTags(tags: Tags) {
    TagLike(tags.open) && TagLike(tags.close)
  }

  lemma OpenFound(before: string, body: string, after: string, tags: Tags)
    requires ValidTags(tags) && Without(before, tags.open)
    ensures FirstAt(Tagged(before, body, after, tags), tags.open, 0, |before|)
  {
    var next := tags.open + (body + (tags.close + after));
    assert tags.open <= next;
    FirstAfter("", before, next, tags.open);
    assert "" + (before + next) == before + next;
  }

  lemma CloseFound(before: string, body: string, after: string, tags: Tags)
    requires ValidTags(tags) && Without(body, tags.close)
    ensures FirstAt(Tagged(before, body, after, tags), tags.close, |before| + |tags.open|,
                    BlockOf(before, body, tags).bodyEnd)
  {
    var next := tags.close + after;
    assert tags.close <= next;
    FirstAfter(before + tags.open, body, next, tags.close);
    Regroup(before, tags.open, body + next);
  }

  lemma NoOpenLeft(before: string, body: string, after: string, tags: Tags)
    requires ValidTags(tags) && Without(after, tags.open)
    ensures |Tagged(before, body, after, tags)| == BlockOf(before, body, tags).end + |after|
    ensures Find(Tagged(before, body, after, tags), tags.open, BlockOf(before, body, tags).end) == None
  {
    FindNothing(before + tags.open + body + tags.close, after, tags.open);
    Regroup(before, tags.open, body + (tags.close + after));
    Regroup(before + tags.open, body, tags.close + after);
    Regroup(before + tags.open + body, tags.close, after);
  }

  lemma BlockFound(text: string, tags: Tags, block: Block)
    requires ValidTags(tags) && block.body == block.start + |tags.open| && block.end == block.bodyEnd + |tags.close|
    requires FirstAt(text, tags.open, 0, block.start) && FirstAt(text, tags.close, block.body, block.bodyEnd)
    requires block.end <= |text| && Find(text, tags.open, block.end) == None
    ensures Blocks(text, tags, 0) == [block]
  {
    FindIs(text, tags.open, 0, block.start);
    FindIs(text, tags.close, block.body, block.bodyEnd);
    NextBlock(text, tags, 0, block.start, block.bodyEnd);
    LastBlock(text, tags, block.end);
  }

  lemma NextBlock(text: string, tags: Tags, from: nat, i: nat, j: nat)
    requires ValidTags(tags) && from <= |text| && Find(text, tags.open, from) == Some(i)
    requires Find(text, tags.close, i + |tags.open|) == Some(j)
    ensures Blocks(text, tags, from)
            == [Block(i, i + |tags.open|, j, j + |tags.close|)] + Blocks(text, tags, j + |tags.close|)
  {
  }

  lemma LastBlock(text: string, tags: Tags, from: nat)
    requires ValidTags(tags) && from <= |text| && Find(text, tags.open, from) == None
    ensures Blocks(text, tags, from) == []
  {
  }

  /** In `before <tool_call> body </tool_call> after` the block pattern matches that block and no other. */
  lemma OneBlock(before: string, body: string, after: string, tags: Tags)
    requires ValidTags(tags)
    requires Without(before, tags.open) && Without(body, tags.close) && Without(after, tags.open)
    ensures Blocks(Tagged(before, body, after, tags), tags, 0) == [BlockOf(before, body, tags)]
  {
    OpenFound(before, body, after, tags);
    CloseFound(before, body, after, tags);
    NoOpenLeft(before, body, after, tags);
    BlockFound(Tagged(before, body, after, tags), tags, BlockOf(before, body, tags));
  }

  function BlockOf(before: string, body: string, tags: Tags): Block {
    var start := |before| + |tags.open|;
    Block(|before|, start, start + |body|, start + |body| + |tags.close|)
  }

  lemma BlockBody(before: string, body: string, after: string, tags: Tags)
    requires ValidTags(tags)
    ensures var text, block := Tagged(before, body, after, tags), BlockOf(before, body, tags);
            ValidBlock(text, block) && Bodies(text, [block]) == [body]
  {
    var text, block := Tagged(before, body, after, tags), BlockOf(before, body, tags);
    assert text[block.body..block.bodyEnd] == body;
    assert [block][1..] == [];
  }

  function Tagged(before: string, body: string, after: string, tags: Tags): string {
    before + (tags.open + (body + (tags.close + after)))
  }

  // ---------------------------------------------------------------- round trips

  predicate NoBrace(s: string) {
    '{' !in s
  }

  /** An object whose members name an allowed call with non-empty arguments. */
  predicate NamesCall(value: Json, allowed: set<string>, name: string, arguments: Fields) {
    && WellFormed(value) && value.Obj?
    && Get(value.fields, "name") == Some(Str(name)) && name in allowed
    && Get(value.fields, "arguments") == Some(Obj(arguments)) && arguments != NoFields
  }

  lemma {:induction false} AllCovered(spans: seq<(nat, string)>, blocks: seq<Block>)
    requires forall i :: 0 <= i < |spans| ==> Covered(spans[i].0, blocks)
    ensures Uncovered(spans, blocks) == []
  {
    if spans != [] { AllCovered(spans[1..], blocks); }
  }

  /**
   * Tagged round trip: an allowed call printed inside one block, with any blanks around it, is the one
   * candidate of the text, and is accepted with its name and arguments, whatever its arguments contain.
   */
  lemma TaggedRoundTrip(before: string, pad: string, value: Json, sp: string, padAfter: string, after: string,
                        allowed: set<string>, name: string, arguments: Fields)
    requires NamesCall(value, allowed, name, arguments)
    requires Blanks(pad) && Blanks(padAfter) && Blanks(sp)
    requires NoBrace(before) && NoBrace(after)
    requires Without(before, TOOL_CALL.open) && Without(after, TOOL_CALL.open)
    requires Without(pad + Emit(value, sp, padAfter), TOOL_CALL.close)
    ensures var candidates := Candidates(Tagged(before, pad + Emit(value, sp, padAfter), after, TOOL_CALL));
            Accepted(candidates, allowed) == [Accept(name, arguments)] && !Raising(candidates, allowed)
  {
    var body := pad + Emit(value, sp, padAfter);
    var tags := TOOL_CALL;
    OneCandidate(before, body, after, tags);
    assert Candidates(Tagged(before, body, after, tags)) == [body];
    PaddedCallIsAccepted(pad, value, sp, padAfter, allowed, name, arguments);
    assert [body][..0] == [];
  }

  lemma PaddedCallIsAccepted(pad: string, value: Json, sp: string, padAfter: string,
                             allowed: set<string>, name: string, arguments: Fields)
    requires NamesCall(value, allowed, name, arguments)
    requires Blanks(pad) && Blanks(padAfter) && Blanks(sp)
    ensures Judge(pad + Emit(value, sp, padAfter), allowed) == Accept(name, arguments)
  {
    LoadsRoundTrip(value, sp, pad, padAfter);
  }

  lemma OneCandidate(before: string, body: string, after: string, tags: Tags)
    requires NoBrace(before) && NoBrace(after) && ValidTags(tags)
    requires Without(before, tags.open) && Without(body, tags.close) && Without(after, tags.open)
    ensures var text := Tagged(before, body, after, tags);
            && Bodies(text, Blocks(text, tags, 0)) == [body]
            && Uncovered(Spans(text, 0), Blocks(text, tags, 0)) == []
  {
    OneBlock(before, body, after, tags);
    BlockBody(before, body, after, tags);
    SpansCovered(before, body, after, tags);
  }

  lemma SpansCovered(before: string, body: string, after: string, tags: Tags)
    requires NoBrace(before) && NoBrace(after)
    ensures Uncovered(Spans(Tagged(before, body, after, tags), 0), [BlockOf(before, body, tags)]) == []
  {
    var text, block := Tagged(before, body, after, tags), BlockOf(before, body, tags);
    SpansAreBalanced(text, 0);
    var spans := Spans(text, 0);
    forall i | 0 <= i < |spans| ensures Covered(spans[i].0, [block]) {
      BraceInBlock(before, body, after, tags, spans[i].0);
      assert [block][0] == block;
    }
    AllCovered(spans, [block]);
  }

  lemma BraceInBlock(before: string, body: string, after: string, tags: Tags, start: nat)
    requires NoBrace(before) && NoBrace(after)
    requires start < |Tagged(before, body, after, tags)| && Tagged(before, body, after, tags)[start] == '{'
    ensures BlockOf(before, body, tags).start <= start < BlockOf(before, body, tags).end
  {
    var text, end := Tagged(before, body, after, tags), BlockOf(before, body, tags).end;
    assert forall k :: 0 <= k < |before| ==> text[k] == before[k];
    assert forall k :: end <= k < |text| ==> text[k] == after[k - end];
  }

  lemma {:induction false} FirstSpan(text: string, from: nat, at: nat)
    requires from <= at < |text| && SpanAt(text, at).Some?
    requires forall i :: from <= i < at ==> text[i] != '{'
    ensures Spans(text, from) == [SpanAt(text, at).value] + Spans(text, at + 1)
    decreases at - from
  {
    if from < at { FirstSpan(text, from + 1, at); }
  }

  lemma {:induction false} NothingCovered(spans: seq<(nat, string)>)
    ensures |Uncovered(spans, [])| == |spans|
    ensures forall i :: 0 <= i < |spans| ==> Uncovered(spans, [])[i] == spans[i].1
  {
    if spans != [] { NothingCovered(spans[1..]); }
  }

  lemma {:induction false} AcceptedStarts(candidates: seq<string>, allowed: set<string>)
    requires candidates != [] && Judge(candidates[0], allowed).Accept?
    ensures Accepted(candidates, allowed) != [] && Accepted(candidates, allowed)[0] == Judge(candidates[0], allowed)
  {
    if |candidates| > 1 {
      AcceptedStarts(candidates[..|candidates| - 1], allowed);
    } else {
      assert candidates[..0] == [];
    }
  }

  /**
   * Bare round trip: with no tag in the text, a printed allowed call is the first one accepted, whatever follows it.
   */
  lemma BareRoundTrip(before: string, value: Json, sp: string, after: string,
                      allowed: set<string>, name: string, arguments: Fields)
    requires NamesCall(value, allowed, name, arguments) && Blanks(sp)
    requires NoBrace(before) && Without(before + (Print(value, sp) + after), TOOL_CALL.open)
    ensures var accepted := Accepted(Candidates(before + (Print(value, sp) + after)), allowed);
            accepted != [] && accepted[0] == Accept(name, arguments)
  {
    BareObjectIsFirst(before, value, sp, after);
    PrintedCallIsAccepted(value, sp, allowed, name, arguments);
    AcceptedStarts(Candidates(before + (Print(value, sp) + after)), allowed);
  }

  /**
   * A text that raises: printed bare in it, after text without braces and with no tag anywhere, is an object whose name
   * is a list or an object.
   */
  lemma PrintedObjectNameRaises(before: string, fields: Fields, name: Json, sp: string, after: string,
                                allowed: set<string>)
    requires Get(fields, "name") == Some(name) && (name.Arr? || name.Obj?)
    requires WellFormed(Obj(fields)) && Blanks(sp)
    requires NoBrace(before) && Without(before + (Print(Obj(fields), sp) + after), TOOL_CALL.open)
    ensures Raising(Candidates(before + (Print(Obj(fields), sp) + after)), allowed)
  {
    BareObjectIsFirst(before, Obj(fields), sp, after);
    ObjectNameRaises(fields, name, sp, allowed);
  }

  lemma BareObjectIsFirst(before: string, value: Json, sp: string, after: string)
    requires WellFormed(value) && value.Obj? && Blanks(sp)
    requires NoBrace(before) && Without(before + (Print(value, sp) + after), TOOL_CALL.open)
    ensures var candidates := Candidates(before + (Print(value, sp) + after));
            candidates != [] && candidates[0] == Print(value, sp)
  {
    var text := before + (Print(value, sp) + after);
    PrintedObjectIsTheSpan(before, value, sp, after);
    EmitStarts(value, sp, "");
    assert text[..|before|] == before;
    FirstCandidate(text, |before|, Print(value, sp));
  }

  lemma PrintedCallIsAccepted(value: Json, sp: string, allowed: set<string>, name: string, arguments: Fields)
    requires NamesCall(value, allowed, name, arguments) && Blanks(sp)
    ensures Judge(Print(value, sp), allowed) == Accept(name, arguments)
  {
    LoadsRoundTrip(value, sp, "", "");
    assert "" + Emit(value, sp, "") == Print(value, sp);
  }

  lemma FirstCandidate(text: string, at: nat, span: string)
    requires Without(text, TOOL_CALL.open) && at < |text| && SpanAt(text, at) == Some((at, span))
    requires NoBrace(text[..at])
    ensures Candidates(text) != [] && Candidates(text)[0] == span
  {
    assert forall i :: 0 <= i < at ==> text[i] == text[..at][i];
    FirstSpan(text, 0, at);
    NothingCovered(Spans(text, 0));
  }
}
