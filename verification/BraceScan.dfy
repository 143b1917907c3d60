/** `_balanced_json_objects`: from every opening brace, the shortest text after which the braces balance again. */
module BraceScan {
  import opened Options
  import opened Json

  /** What the scan remembers: brace depth, whether it is inside a string, whether a backslash just passed. */
  datatype Scan = Scan(depth: int, inString: bool, escaped: bool)

  const START := Scan(0, false, false)

  function Outside(depth: int): Scan {
    Scan(depth, false, false)
  }

  function Inside(depth: int): Scan {
    Scan(depth, true, false)
  }

  function Step(st: Scan, c: char): Scan {
    if st.inString then
      if st.escaped then st.(escaped := false)
      else if c == '\\' then st.(escaped := true)
      else if c == '"' then st.(inString := false)
      else st
    else if c == '"' then st.(inString := true)
    else if c == '{' then st.(depth := st.depth + 1)
    else if c == '}' then st.(depth := st.depth - 1)
    else st
  }

  /** The state after the first `n` characters. */
  function StateAt(st: Scan, s: string, n: nat): Scan
    requires n <= |s|
  {
    if n == 0 then st else Step(StateAt(st, s, n - 1), s[n - 1])
  }

  /** Where the scan of `s` from `st` stops: at the brace that brings the depth to zero. */
  function Close(s: string, st: Scan): (r: Option<nat>)
    ensures r.Some? ==> r.value < |s|
  {
    if s == "" then None
    else if !st.inString && s[0] == '}' && st.depth == 1 then Some(0)
    else Later(1, Close(s[1..], Step(st, s[0])))
  }

  function Later(n: nat, r: Option<nat>): Option<nat> {
    match r
    case None => None
    case Some(k) => Some(n + k)
  }

  /** `n` characters of `s` bring the scan back to where it began, and no fewer do. */
  ghost predicate FirstReturn(s: string, n: nat) {
    && 0 < n <= |s|
    && StateAt(START, s, n) == START
    && forall m :: 0 < m < n ==> StateAt(START, s, m) != START
  }

  /** A pair of the scan's result: an opening brace, and the shortest balanced text that starts there. */
  ghost predicate Balanced(text: string, start: nat, span: string) {
    && start < |text| && text[start] == '{'
    && span <= text[start..]
    && FirstReturn(text[start..], |span|)
  }

  /** Exactly the balanced spans of the text, in the order of their braces. */
  ghost predicate ListsBalanced(text: string, spans: seq<(nat, string)>) {
    && (forall i :: 0 <= i < |spans| ==> Balanced(text, spans[i].0, spans[i].1))
    && (forall i, j :: 0 <= i < j < |spans| ==> spans[i].0 < spans[j].0)
    && (forall start: nat, span :: Balanced(text, start, span) ==> (start, span) in spans)
  }

  // ---------------------------------------------------------------- the scan is the shortest return

  lemma {:induction false} StateShifts(st: Scan, s: string, n: nat)
    requires 0 < n <= |s|
    ensures StateAt(st, s, n) == StateAt(Step(st, s[0]), s[1..], n - 1)
  {
    if n > 1 {
      StateShifts(st, s, n - 1);
      assert s[1..][n - 2] == s[n - 1];
    }
  }

  /** From inside at least one brace, the scan stays inside until `Close` stops. */
  lemma {:induction false} DeepUntilClose(s: string, st: Scan, n: nat)
    requires st.depth >= 1 && n <= |s| && (Close(s, st).None? || n <= Close(s, st).value)
    ensures StateAt(st, s, n).depth >= 1
  {
    if n > 0 {
      StateShifts(st, s, n);
      DeepUntilClose(s[1..], Step(st, s[0]), n - 1);
    }
  }

  /** Where `Close` stops, the scan is back at `START`. */
  lemma {:induction false} BackAtClose(s: string, st: Scan)
    requires st.depth >= 1 && (st.escaped ==> st.inString) && Close(s, st).Some?
    ensures StateAt(st, s, Close(s, st).value + 1) == START
  {
    var n := Close(s, st).value;
    StateShifts(st, s, n + 1);
    if n > 0 { BackAtClose(s[1..], Step(st, s[0])); }
  }

  /** The same from an opening brace. */
  lemma AfterBrace(s: string, n: nat)
    requires s != "" && s[0] == '{' && 0 < n <= |s|
    ensures Close(s, START) == Later(1, Close(s[1..], Outside(1)))
    ensures (Close(s, START).None? || n <= Close(s, START).value) ==> StateAt(START, s, n).depth >= 1
    ensures Close(s, START) == Some(n - 1) ==> StateAt(START, s, n) == START
  {
    var st, t := Outside(1), s[1..];
    StateShifts(START, s, n);
    assert Close(s, START) == Later(1, Close(t, st));
    if Close(t, st).None? || n - 1 <= Close(t, st).value { DeepUntilClose(t, st, n - 1); }
    if Close(s, START) == Some(n - 1) { BackAtClose(t, st); }
  }

  /** Where `Close` stops after an opening brace, the scan is back for the first time. */
  lemma CloseReturns(s: string)
    requires s != "" && s[0] == '{' && Close(s, START).Some?
    ensures FirstReturn(s, Close(s, START).value + 1)
  {
    var n := Close(s, START).value + 1;
    AfterBrace(s, n);
    forall m | 0 < m < n ensures StateAt(START, s, m) != START { AfterBrace(s, m); }
  }

  lemma FirstReturnIsUnique(s: string, m: nat, n: nat)
    requires FirstReturn(s, m) && FirstReturn(s, n)
    ensures m == n
  {
  }

  /** Where the scan is back for the first time, `Close` stops. */
  lemma ReturnCloses(s: string, n: nat)
    requires s != "" && s[0] == '{' && FirstReturn(s, n)
    ensures Close(s, START) == Some(n - 1)
  {
    AfterBrace(s, n);
    CloseReturns(s);
    FirstReturnIsUnique(s, n, Close(s, START).value + 1);
  }

  lemma CloseAtBrace(s: string)
    requires s != "" && s[0] == '{'
    ensures Close(s, START).Some? ==> FirstReturn(s, Close(s, START).value + 1)
    ensures forall n :: FirstReturn(s, n) ==> Close(s, START) == Some(n - 1)
  {
    if Close(s, START).Some? { CloseReturns(s); }
    forall n | FirstReturn(s, n) ensures Close(s, START) == Some(n - 1) { ReturnCloses(s, n); }
  }

  // ---------------------------------------------------------------- the method

  function SpanAt(text: string, start: nat): Option<(nat, string)>
    requires start < |text|
  {
    if text[start] != '{' then None
    else match SpanEnd(text, start)
      case None => None
      case Some(n) => Some((start, text[start..start + n + 1]))
  }

  function Spans(text: string, from: nat): seq<(nat, string)>
    requires from <= |text|
    decreases |text| - from
  {
    if from == |text| then []
    else (match SpanAt(text, from) { case None => [] case Some(span) => [span] }) + Spans(text, from + 1)
  }

  /** The inner loop: where the braces opened at `start` close. */
  method ScanFrom(text: string, start: nat) returns (end: Option<nat>)
    requires start < |text| && text[start] == '{'
    ensures end == SpanEnd(text, start)
  {
    var depth, inString, escaped := 0, false, false;
    for at := start to |text|
      invariant SpanEnd(text, start) == Later(at - start, Close(text[at..], Scan(depth, inString, escaped)))
    {
      ghost var st := Scan(depth, inString, escaped);
      CloseSteps(text, at, st);
      var current := text[at];
      if inString {
        if escaped {
          escaped := false;
        } else if current == '\\' {
          escaped := true;
        } else if current == '"' {
          inString := false;
        }
      } else if current == '"' {
        inString := true;
      } else if current == '{' {
        depth := depth + 1;
      } else if current == '}' {
        depth := depth - 1;
        if depth == 0 {
          return Some(at - start);
        }
      }
      assert Scan(depth, inString, escaped) == Step(st, current);
    }
    return None;
  }

  lemma NextSpan(text: string, start: nat, found: seq<(nat, string)>)
    requires start < |text|
    ensures found + Spans(text, start)
            == (match SpanAt(text, start) { case None => found case Some(span) => found + [span] })
              + Spans(text, start + 1)
  {
  }

  /** The outer loop. */
  method ListSpans(text: string) returns (spans: seq<(nat, string)>)
    ensures spans == Spans(text, 0)
  {
    spans := [];
    for start := 0 to |text|
      invariant spans + Spans(text, start) == Spans(text, 0)
    {
      NextSpan(text, start, spans);
      if text[start] != '{' {
        continue;
      }
      var end := ScanFrom(text, start);
      if end.Some? {
        spans := spans + [(start, text[start..start + end.value + 1])];
      }
    }
  }

  method BalancedJsonObjects(text: string) returns (spans: seq<(nat, string)>)
    ensures spans == Spans(text, 0)
    ensures ListsBalanced(text, spans)
  {
    spans := ListSpans(text);
    SpansListBalanced(text);
  }

  lemma SpansListBalanced(text: string)
    ensures ListsBalanced(text, Spans(text, 0))
  {
    SpansAreBalanced(text, 0);
    SpansAreAll(text, 0);
  }

  function SpanEnd(text: string, start: nat): Option<nat>
    requires start <= |text|
  {
    Close(text[start..], START)
  }

  lemma CloseSteps(text: string, end: nat, st: Scan)
    requires end < |text|
    ensures Close(text[end..], st) == if !st.inString && text[end] == '}' && st.depth == 1 then Some(0)
                                      else Later(1, Close(text[end + 1..], Step(st, text[end])))
  {
    assert text[end..][1..] == text[end + 1..];
  }

  lemma {:induction false} SpansAreBalanced(text: string, from: nat)
    requires from <= |text|
    ensures forall i :: 0 <= i < |Spans(text, from)| ==> from <= Spans(text, from)[i].0
    ensures forall i :: 0 <= i < |Spans(text, from)| ==> Balanced(text, Spans(text, from)[i].0, Spans(text, from)[i].1)
    ensures forall i, j :: 0 <= i < j < |Spans(text, from)| ==> Spans(text, from)[i].0 < Spans(text, from)[j].0
    decreases |text| - from
  {
    if from < |text| {
      SpansAreBalanced(text, from + 1);
      SpanAtIsBalanced(text, from);
    }
  }

  lemma {:induction false} SpansAreAll(text: string, from: nat)
    requires from <= |text|
    ensures forall start: nat, span :: Balanced(text, start, span) && from <= start ==>
            (start, span) in Spans(text, from)
    decreases |text| - from
  {
    if from < |text| {
      SpansAreAll(text, from + 1);
      forall start: nat, span | Balanced(text, start, span) && from <= start
        ensures (start, span) in Spans(text, from)
      {
        if start == from {
          SpanAtIsBalanced(text, from);
        }
      }
    }
  }

  lemma SpanAtIsBalanced(text: string, start: nat)
    requires start < |text|
    ensures SpanAt(text, start).Some? ==>
            SpanAt(text, start).value.0 == start && Balanced(text, start, SpanAt(text, start).value.1)
    ensures forall span :: Balanced(text, start, span) ==> SpanAt(text, start) == Some((start, span))
  {
    if text[start] == '{' {
      CloseAtBrace(text[start..]);
      forall span | Balanced(text, start, span) ensures SpanAt(text, start) == Some((start, span)) {
        assert span == text[start..][..|span|] == text[start..start + |span|];
      }
    }
  }

  // ---------------------------------------------------------------- spans never cross outside strings

  lemma {:induction false} ShallowerClosesFirst(s: string, st: Scan, d: nat)
    requires d >= 1 && (st.depth >= 1 || (!st.inString && s != "" && s[0] == '{' && st.depth == 0))
    requires Close(s, st.(depth := st.depth + d)).Some?
    ensures Close(s, st).Some? && Close(s, st).value < Close(s, st.(depth := st.depth + d)).value
  {
    var next := Step(st, s[0]);
    assert Step(st.(depth := st.depth + d), s[0]) == next.(depth := next.depth + d);
    if !st.inString && s[0] == '}' && st.depth == 1 {
    } else {
      ShallowerClosesFirst(s[1..], next, d);
    }
  }

  lemma {:induction false} CloseAfter(s: string, n: nat)
    requires s != "" && s[0] == '{' && Close(s, START).Some? && n <= Close(s, START).value
    ensures Close(s, START) == Later(n, Close(s[n..], StateAt(START, s, n)))
  {
    if n > 0 {
      CloseAfter(s, n - 1);
      assert s[n - 1..][1..] == s[n..];
    } else {
      assert s[0..] == s;
    }
  }

  /** An opening brace that the outer scan meets outside a string has a span of its own, closed strictly earlier. */
  lemma InnerSpanClosesFirst(text: string, outer: nat, inner: nat, outerSpan: string)
    requires Balanced(text, outer, outerSpan)
    requires outer < inner < outer + |outerSpan| && text[inner] == '{'
    requires !StateAt(START, text[outer..], inner - outer).inString
    ensures SpanAt(text, inner).Some?
    ensures inner + |SpanAt(text, inner).value.1| < outer + |outerSpan|
  {
    var s, n := text[outer..], inner - outer;
    assert s[n..] == text[inner..];
    SpanAtIsBalanced(text, outer);
    InnerBraceClosesFirst(s, n);
  }

  lemma InnerBraceClosesFirst(s: string, n: nat)
    requires s != "" && s[0] == '{' && Close(s, START).Some?
    requires 0 < n <= Close(s, START).value && s[n] == '{' && !StateAt(START, s, n).inString
    ensures Close(s[n..], START).Some?
    ensures n + Close(s[n..], START).value < Close(s, START).value
  {
    CloseAfter(s, n);
    AfterBrace(s, n);
    NoEscapeOutside(START, s, n);
    ShallowerClosesFirst(s[n..], START, StateAt(START, s, n).depth);
  }

  lemma {:induction false} NoEscapeOutside(st: Scan, s: string, n: nat)
    requires n <= |s| && (st.escaped ==> st.inString)
    ensures StateAt(st, s, n).escaped ==> StateAt(st, s, n).inString
  {
    if n > 0 { NoEscapeOutside(st, s, n - 1); }
  }

  const CROSSING := ['{', '"', '{', '"', '}', '"', '}']

  /**
   * A brace inside a string is scanned too, and its span can cross the outer one: here the outer span closes at 4, and
   * the inner one begins before that, at 2, and closes after it, 4 characters on.
   */
  lemma SpansCrossInsideAString()
    ensures CROSSING[0] == '{' && CROSSING[2] == '{'
    ensures SpanEnd(CROSSING, 0) == Some(4) && SpanEnd(CROSSING, 2) == Some(4)
    ensures 2 < SpanEnd(CROSSING, 0).value < 2 + SpanEnd(CROSSING, 2).value
  {
    OuterSpan(CROSSING);
    InnerSpan(CROSSING);
  }

  lemma OuterSpan(text: string)
    requires |text| == 7 && text[0] == '{' && text[1] == '"' && text[2] == '{' && text[3] == '"' && text[4] == '}'
    ensures SpanEnd(text, 0) == Some(4)
  {
    CloseSteps(text, 4, Outside(1));
    CloseSteps(text, 3, Inside(1));
    CloseSteps(text, 2, Inside(1));
    CloseSteps(text, 1, Outside(1));
    CloseSteps(text, 0, START);
  }

  lemma InnerSpan(text: string)
    requires |text| == 7 && text[2] == '{' && text[3] == '"' && text[4] == '}' && text[5] == '"' && text[6] == '}'
    ensures SpanEnd(text, 2) == Some(4)
  {
    CloseSteps(text, 6, Outside(1));
    CloseSteps(text, 5, Inside(1));
    CloseSteps(text, 4, Inside(1));
    CloseSteps(text, 3, Outside(1));
    CloseSteps(text, 2, START);
  }

  // ---------------------------------------------------------------- agreement with the JSON parser

  /** From `st` the scan gets through the text before `rest` without stopping, and is then in `after`. */
  predicate Passes(s: string, st: Scan, rest: string, after: Scan) {
    |rest| <= |s| && Close(s, st) == Later(|s| - |rest|, Close(rest, after))
  }

  lemma Then(s: string, st: Scan, mid: string, at: Scan, rest: string, after: Scan)
    requires Passes(s, st, mid, at) && Passes(mid, at, rest, after)
    ensures Passes(s, st, rest, after)
  {
  }

  lemma CharPasses(s: string, st: Scan)
    requires s != "" && (st.inString || s[0] != '}' || st.depth != 1)
    ensures Passes(s, st, s[1..], Step(st, s[0]))
  {
  }

  /** One character, then blanks. */
  lemma CharAndBlanksPass(s: string, st: Scan)
    requires s != "" && (s[0] == ',' || s[0] == ':' || s[0] == '[') && !st.inString
    ensures Passes(s, st, SkipBlanks(s[1..]), st)
  {
    CharPasses(s, st);
    BlanksPass(s[1..], st);
    Then(s, st, s[1..], st, SkipBlanks(s[1..]), st);
  }

  lemma {:induction false} BlanksPass(s: string, st: Scan)
    requires !st.inString
    ensures Passes(s, st, SkipBlanks(s), st)
  {
    if s != "" && Blank(s[0]) { BlanksPass(s[1..], st); }
  }

  lemma {:induction false} NumberPasses(s: string, st: Scan)
    requires !st.inString
    ensures Passes(s, st, s[NumberRun(s)..], st)
  {
    if s != "" && NumberChar(s[0]) {
      NumberPasses(s[1..], st);
      assert s[1..][NumberRun(s[1..])..] == s[NumberRun(s)..];
    }
  }

  lemma {:induction false} PlainTextPasses(s: string, n: nat, st: Scan)
    requires n <= |s| && !st.escaped
    requires forall i :: 0 <= i < n ==> s[i] != '"' && s[i] != '\\' && s[i] != '{' && s[i] != '}'
    ensures Passes(s, st, s[n..], st)
  {
    if n > 0 {
      PlainTextPasses(s[1..], n - 1, st);
      assert s[1..][n - 1..] == s[n..];
    }
  }

  lemma BackslashPasses(s: string, depth: int)
    requires |s| >= 2 && s[0] == '\\'
    ensures Passes(s, Inside(depth), s[2..], Inside(depth))
  {
    assert s[1..][1..] == s[2..];
    CharPasses(s, Inside(depth));
    CharPasses(s[1..], Scan(depth, true, true));
  }

  lemma EscapePasses(s: string, n: nat, depth: int)
    requires |s| >= 2 && s[0] == '\\' && Unescape(s[1..]).Some? && n == Unescape(s[1..]).value.1
    ensures Passes(s, Inside(depth), s[1 + n..], Inside(depth))
  {
    BackslashPasses(s, depth);
    if n == 5 {
      HexDigitsPass(s[1..], depth);
      assert s[1..][1..] == s[2..] && s[1..][5..] == s[6..];
      Then(s, Inside(depth), s[2..], Inside(depth), s[6..], Inside(depth));
    }
  }

  lemma HexDigitsPass(t: string, depth: int)
    requires |t| >= 5 && HexNumber(t[1..5]).Some?
    ensures Passes(t[1..], Inside(depth), t[5..], Inside(depth))
  {
    forall i | 0 <= i < 4 ensures HexValue(t[1..][i]).Some? {
      assert t[1..5][i] == t[1..][i];
    }
    PlainTextPasses(t[1..], 4, Inside(depth));
    assert t[1..][4..] == t[5..];
  }

  /** The scan reads a string literal as the parser does. */
  lemma {:induction false} TextPasses(s: string, depth: int)
    requires ParseText(s).Some?
    ensures Passes(s, Inside(depth), ParseText(s).value.rest, Outside(depth))
  {
    if s[0] == '"' {
      CharPasses(s, Inside(depth));
    } else {
      var rest := ParseText(s).value.rest;
      var n := if s[0] == '\\' then 1 + Unescape(s[1..]).value.1 else 1;
      if s[0] == '\\' {
        EscapePasses(s, n - 1, depth);
      } else {
        CharPasses(s, Inside(depth));
      }
      TextPasses(s[n..], depth);
      Then(s, Inside(depth), s[n..], Inside(depth), rest, Outside(depth));
    }
  }

  lemma QuotedPasses(s: string, depth: int)
    requires s != "" && s[0] == '"' && ParseText(s[1..]).Some?
    ensures Passes(s, Outside(depth), ParseText(s[1..]).value.rest, Outside(depth))
  {
    CharPasses(s, Outside(depth));
    TextPasses(s[1..], depth);
    Then(s, Outside(depth), s[1..], Inside(depth), ParseText(s[1..]).value.rest, Outside(depth));
  }

  lemma WordPasses(s: string, word: string, st: Scan)
    requires word <= s && !st.escaped
    requires forall i :: 0 <= i < |word| ==> word[i] != '"' && word[i] != '\\' && word[i] != '{' && word[i] != '}'
    ensures Passes(s, st, s[|word|..], st)
  {
    PlainTextPasses(s, |word|, st);
  }

  /** Inside a brace, the scan gets through whatever value the parser reads. */
  lemma {:induction false} ValuePasses(s: string, depth: int)
    requires ParseValue(s).Some? && depth >= 1
    ensures Passes(s, Outside(depth), ParseValue(s).value.rest, Outside(depth))
    decreases |s|, 1
  {
    if s[0] == '"' {
      QuotedPasses(s, depth);
    } else if s[0] == '[' {
      CharAndBlanksPass(s, Outside(depth));
      var t := SkipBlanks(s[1..]);
      if t != "" && t[0] == ']' {
        CharPasses(t, Outside(depth));
      } else {
        ItemsPass(t, depth);
      }
      Then(s, Outside(depth), t, Outside(depth), ParseValue(s).value.rest, Outside(depth));
    } else if s[0] == '{' {
      ObjectCloses(s, depth);
    } else if "null" <= s {
      WordPasses(s, "null", Outside(depth));
    } else if "true" <= s {
      WordPasses(s, "true", Outside(depth));
    } else if "false" <= s {
      WordPasses(s, "false", Outside(depth));
    } else {
      NumberPasses(s, Outside(depth));
    }
  }

  lemma {:induction false} ItemsPass(s: string, depth: int)
    requires ParseItems(s).Some? && depth >= 1
    ensures Passes(s, Outside(depth), ParseItems(s).value.rest, Outside(depth))
    decreases |s|, 2
  {
    var st := Outside(depth);
    ValuePasses(s, depth);
    var rest := ParseValue(s).value.rest;
    var t := SkipBlanks(rest);
    BlanksPass(rest, st);
    Then(s, st, rest, st, t, st);
    if t[0] == ',' {
      var more := SkipBlanks(t[1..]);
      CharAndBlanksPass(t, st);
      ItemsPass(more, depth);
      Then(t, st, more, st, ParseItems(s).value.rest, st);
    } else {
      CharPasses(t, st);
    }
    Then(s, st, t, st, ParseItems(s).value.rest, st);
  }

  /** At its own closing brace the scan stops if that brace was the outermost, and passes it otherwise. */
  predicate Leaves(s: string, rest: string, depth: int) {
    && |rest| < |s|
    && Close(s, Outside(depth + 1)) ==
       (if depth == 0 then Some(|s| - |rest| - 1) else Later(|s| - |rest|, Close(rest, Outside(depth))))
  }

  lemma ThenLeaves(s: string, mid: string, rest: string, depth: int)
    requires Passes(s, Outside(depth + 1), mid, Outside(depth + 1)) && Leaves(mid, rest, depth)
    ensures Leaves(s, rest, depth)
  {
  }

  /** A member's key, colon and value, and the blanks between and after them. */
  lemma MemberPasses(s: string, k: string, v: string, w: string, depth: int)
    requires s != "" && s[0] == '"' && ParseText(s[1..]).Some? && ParseText(s[1..]).value.rest == k
    requires SkipBlanks(k) != "" && SkipBlanks(k)[0] == ':' && SkipBlanks(SkipBlanks(k)[1..]) == v
    requires Passes(v, Outside(depth), w, Outside(depth))
    ensures Passes(s, Outside(depth), SkipBlanks(w), Outside(depth))
  {
    var st, t, u := Outside(depth), SkipBlanks(k), SkipBlanks(w);
    QuotedPasses(s, depth);
    BlanksPass(k, st);
    Then(s, st, k, st, t, st);
    CharAndBlanksPass(t, st);
    Then(s, st, t, st, v, st);
    Then(s, st, v, st, w, st);
    BlanksPass(w, st);
    Then(s, st, w, st, u, st);
  }

  /** The pieces of a member list the parser accepted. */
  lemma MemberShape(s: string, acc: Fields) returns (k: Parsed<string>, v: string, w: Parsed<Json>, u: string)
    requires ParseFields(s, acc).Some?
    ensures s != "" && s[0] == '"' && ParseText(s[1..]) == Some(k)
    ensures SkipBlanks(k.rest) != "" && SkipBlanks(k.rest)[0] == ':' && v == SkipBlanks(SkipBlanks(k.rest)[1..])
    ensures ParseValue(v) == Some(w) && u == SkipBlanks(w.rest) && u != "" && |v| < |s| && |u| < |s|
    ensures if u[0] == '}' then ParseFields(s, acc).value.rest == u[1..]
            else u[0] == ',' && ParseFields(s, acc) == ParseFields(SkipBlanks(u[1..]), Put(acc, k.value, w.value))
  {
    k := ParseText(s[1..]).value;
    v := SkipBlanks(SkipBlanks(k.rest)[1..]);
    w := ParseValue(v).value;
    u := SkipBlanks(w.rest);
  }

  lemma CommaLeaves(u: string, rest: string, depth: int)
    requires u != "" && u[0] == ',' && Leaves(SkipBlanks(u[1..]), rest, depth)
    ensures Leaves(u, rest, depth)
  {
    CharAndBlanksPass(u, Outside(depth + 1));
    ThenLeaves(u, SkipBlanks(u[1..]), rest, depth);
  }

  /** A member, and then the closing brace or a comma and what leaves after it. */
  lemma MemberLeaves(s: string, k: string, v: string, w: string, rest: string, depth: int)
    requires s != "" && s[0] == '"' && ParseText(s[1..]).Some? && ParseText(s[1..]).value.rest == k && depth >= 0
    requires SkipBlanks(k) != "" && SkipBlanks(k)[0] == ':' && SkipBlanks(SkipBlanks(k)[1..]) == v
    requires Passes(v, Outside(depth + 1), w, Outside(depth + 1))
    requires var u := SkipBlanks(w);
             u != "" && (if u[0] == '}' then rest == u[1..] else u[0] == ',' && Leaves(SkipBlanks(u[1..]), rest, depth))
    ensures Leaves(s, rest, depth)
  {
    var u := SkipBlanks(w);
    if u[0] == '}' {
      BraceLeaves(u, depth);
    } else {
      CommaLeaves(u, rest, depth);
    }
    MemberPasses(s, k, v, w, depth + 1);
    ThenLeaves(s, u, rest, depth);
  }

  lemma {:induction false} FieldsLeave(s: string, acc: Fields, depth: int)
    requires ParseFields(s, acc).Some? && depth >= 0
    ensures Leaves(s, ParseFields(s, acc).value.rest, depth)
    decreases |s|, 0
  {
    var k, v, w, u := MemberShape(s, acc);
    ValuePasses(v, depth + 1);
    if u[0] == ',' {
      FieldsLeave(SkipBlanks(u[1..]), Put(acc, k.value, w.value), depth);
    }
    MemberLeaves(s, k.rest, v, w.rest, ParseFields(s, acc).value.rest, depth);
  }

  lemma BraceLeaves(s: string, depth: int)
    requires s != "" && s[0] == '}' && depth >= 0
    ensures Leaves(s, s[1..], depth)
  {
  }

  /** What follows the opening brace of an object the parser accepted. */
  lemma ObjectShape(s: string) returns (t: string)
    requires ParseValue(s).Some? && s[0] == '{'
    ensures t == SkipBlanks(s[1..]) && t != "" && |t| < |s|
    ensures if t[0] == '}' then ParseValue(s).value.rest == t[1..]
            else ParseFields(t, NoFields).Some? && ParseValue(s).value.rest == ParseFields(t, NoFields).value.rest
  {
    t := SkipBlanks(s[1..]);
  }

  lemma OpeningBrace(s: string, depth: int)
    requires s != "" && s[0] == '{' && depth >= 0
    ensures Close(s, Outside(depth)) == Later(1, Close(s[1..], Outside(depth + 1)))
  {
  }

  /** From an opening brace, blanks, and what leaves after them. */
  lemma BraceThenLeaves(s: string, t: string, rest: string, depth: int)
    requires s != "" && s[0] == '{' && depth >= 0 && t == SkipBlanks(s[1..]) && Leaves(t, rest, depth)
    ensures Close(s, Outside(depth)) ==
              if depth == 0 then Some(|s| - |rest| - 1) else Later(|s| - |rest|, Close(rest, Outside(depth)))
  {
    BlanksPass(s[1..], Outside(depth + 1));
    ThenLeaves(s[1..], t, rest, depth);
    BraceBeforeLeaves(s, rest, depth);
  }

  lemma BraceBeforeLeaves(s: string, rest: string, depth: int)
    requires s != "" && s[0] == '{' && depth >= 0 && Leaves(s[1..], rest, depth)
    ensures Close(s, Outside(depth)) ==
              if depth == 0 then Some(|s| - |rest| - 1) else Later(|s| - |rest|, Close(rest, Outside(depth)))
  {
    OpeningBrace(s, depth);
    OneLater(Close(s, Outside(depth)), Close(s[1..], Outside(depth + 1)), Close(rest, Outside(depth)),
             |s[1..]| - |rest|, depth);
  }

  lemma OneLater(whole: Option<nat>, part: Option<nat>, after: Option<nat>, n: nat, depth: int)
    requires n > 0 && whole == Later(1, part) && part == if depth == 0 then Some(n - 1) else Later(n, after)
    ensures whole == if depth == 0 then Some(n) else Later(n + 1, after)
  {
  }

  lemma {:induction false} ObjectCloses(s: string, depth: int)
    requires ParseValue(s).Some? && s[0] == '{' && depth >= 0
    ensures var rest := ParseValue(s).value.rest;
            Close(s, Outside(depth)) ==
              if depth == 0 then Some(|s| - |rest| - 1) else Later(|s| - |rest|, Close(rest, Outside(depth)))
    decreases |s|, 0
  {
    var t := ObjectShape(s);
    if t[0] == '}' {
      BraceLeaves(t, depth);
    } else {
      FieldsLeave(t, NoFields, depth);
    }
    var rest := ParseValue(s).value.rest;
    assert Leaves(t, rest, depth);
    BraceThenLeaves(s, t, rest, depth);
  }

  /** Wherever the JSON parser accepts an object, the scan's span is exactly the text the parser read. */
  lemma ParsedObjectIsTheSpan(text: string, start: nat)
    requires start < |text| && ParseValue(text[start..]).Some?
    requires ParseValue(text[start..]).value.value.Obj?
    ensures SpanAt(text, start) == Some((start, text[start..|text| - |ParseValue(text[start..]).value.rest|]))
  {
    ObjectCloses(text[start..], 0);
  }

  lemma PrintIsPrefix(value: Json, sp: string, after: string)
    ensures Emit(value, sp, after) == Print(value, sp) + after
  {
    EmitSplits(value, sp, "", after);
    assert "" + after == after;
  }

  lemma PrintedObjectCloses(value: Json, sp: string, after: string)
    requires WellFormed(value) && value.Obj? && Blanks(sp)
    ensures Close(Print(value, sp) + after, START) == Some(|Print(value, sp)| - 1)
  {
    PrintIsPrefix(value, sp, after);
    RoundTrip(value, sp, after);
    ObjectCloses(Emit(value, sp, after), 0);
  }

  /** Any printed object is its own span, whatever its strings contain and whatever text surrounds it. */
  lemma PrintedObjectIsTheSpan(before: string, value: Json, sp: string, after: string)
    requires WellFormed(value) && value.Obj? && Blanks(sp)
    ensures SpanAt(before + (Print(value, sp) + after), |before|) == Some((|before|, Print(value, sp)))
  {
    PrintedObjectCloses(value, sp, after);
    SpanOfPrefix(before, Print(value, sp), after);
  }

  lemma SpanOfPrefix(before: string, span: string, after: string)
    requires span != "" && span[0] == '{' && Close(span + after, START) == Some(|span| - 1)
    ensures SpanAt(before + (span + after), |before|) == Some((|before|, span))
  {
    var text := before + (span + after);
    assert text[|before|..] == span + after;
    assert text[|before|..|before| + |span|] == span;
  }
}
