/**
 * JSON values, the printer (`json.dumps` with non-ASCII text left as is) and the parser (`json.loads`).
 * Objects are ordered and keep one value per key, as Python dictionaries do; a number is kept as its literal.
 */
module Json {
  import opened Options

  datatype Json =
    | Null
    | Bool(on: bool)
    | Num(literal: string)
    | Str(text: string)
    | Arr(items: Items)
    | Obj(fields: Fields)

  datatype Items = NoItems | Item(head: Json, tail: Items)

  datatype Fields = NoFields | Field(key: string, value: Json, rest: Fields)

  /** What a parser read, and the text it left. */
  datatype Parsed<+T> = Parsed(value: T, rest: string)

  // ---------------------------------------------------------------- dictionaries

  function Keys(f: Fields): set<string> {
    match f
    case NoFields => {}
    case Field(k, _, rest) => {k} + Keys(rest)
  }

  function Get(f: Fields, key: string): Option<Json> {
    match f
    case NoFields => None
    case Field(k, v, rest) => if k == key then Some(v) else Get(rest, key)
  }

  /** `d.get(key, fallback)`, with a missing key as `None`. */
  function OrElse(value: Option<Json>, fallback: Json): Json {
    match value
    case None => fallback
    case Some(v) => v
  }

  /** `d[key] = value`: a known key keeps its place, a new one goes last. */
  function Put(f: Fields, key: string, value: Json): Fields {
    match f
    case NoFields => Field(key, value, NoFields)
    case Field(k, v, rest) => if k == key then Field(k, value, rest) else Field(k, v, Put(rest, key, value))
  }

  function Append(f: Fields, g: Fields): Fields {
    match f
    case NoFields => g
    case Field(k, v, rest) => Field(k, v, Append(rest, g))
  }

  predicate DistinctKeys(f: Fields) {
    match f
    case NoFields => true
    case Field(k, _, rest) => k !in Keys(rest) && DistinctKeys(rest)
  }

  lemma {:induction false} PutNewKey(f: Fields, key: string, value: Json, rest: Fields)
    requires key !in Keys(f)
    ensures Append(Put(f, key, value), rest) == Append(f, Field(key, value, rest))
    ensures Keys(Put(f, key, value)) == Keys(f) + {key}
  {
    match f
    case NoFields =>
    case Field(_, _, more) => PutNewKey(more, key, value, rest);
  }

  lemma {:induction false} AppendNothing(f: Fields)
    ensures Append(f, NoFields) == f
  {
    match f
    case NoFields =>
    case Field(_, _, rest) => AppendNothing(rest);
  }

  // ---------------------------------------------------------------- characters

  predicate Blank(c: char) {
    c == ' ' || c == '\t' || c == '\n' || c == '\r'
  }

  predicate Digit(c: char) {
    '0' <= c <= '9'
  }

  predicate NumberChar(c: char) {
    Digit(c) || c == '-' || c == '+' || c == '.' || c == 'e' || c == 'E'
  }

  function SkipBlanks(s: string): (r: string)
    ensures |r| <= |s|
    ensures r != "" ==> !Blank(r[0])
  {
    if s != "" && Blank(s[0]) then SkipBlanks(s[1..]) else s
  }

  function HexDigit(n: nat): char
    requires n < 16
  {
    if n < 10 then '0' + n as char else 'a' + (n - 10) as char
  }

  function HexValue(c: char): (r: Option<nat>)
    ensures r.Some? ==> r.value < 16
  {
    if '0' <= c <= '9' then Some(c as int - '0' as int)
    else if 'a' <= c <= 'f' then Some(c as int - 'a' as int + 10)
    else if 'A' <= c <= 'F' then Some(c as int - 'A' as int + 10)
    else None
  }

  function HexNumber(s: string): (r: Option<nat>)
    ensures r.Some? ==> forall i :: 0 <= i < |s| ==> HexValue(s[i]).Some?
  {
    if s == "" then Some(0)
    else match (HexNumber(s[..|s| - 1]), HexValue(s[|s| - 1])) {
      case (Some(high), Some(low)) => Some(16 * high + low)
      case _ => None
    }
  }

  // ---------------------------------------------------------------- strings

  /** The escapes of section 7 of RFC 8259 that `json.dumps` uses. */
  function EscapeChar(c: char): (s: string)
    ensures s != ""
  {
    if c == '"' then ['\\', '"']
    else if c == '\\' then ['\\', '\\']
    else if c == '\n' then ['\\', 'n']
    else if c == '\r' then ['\\', 'r']
    else if c == '\t' then ['\\', 't']
    else if c == 8 as char then ['\\', 'b']
    else if c == 12 as char then ['\\', 'f']
    else if c < ' ' then ['\\', 'u', '0', '0', HexDigit(c as int / 16), HexDigit(c as int % 16)]
    else [c]
  }

  /** The escaped text, its closing quote, then `tail`. */
  function EmitText(text: string, tail: string): string {
    if text == "" then ['"'] + tail else EscapeChar(text[0]) + EmitText(text[1..], tail)
  }

  /** One character after a backslash, given with its length in the text; surrogates are not modelled. */
  function Unescape(s: string): (r: Option<(char, nat)>)
    requires s != ""
    ensures r.Some? ==> 1 <= r.value.1 <= |s|
  {
    match s[0]
    case '"' => Some(('"', 1))
    case '\\' => Some(('\\', 1))
    case '/' => Some(('/', 1))
    case 'b' => Some((8 as char, 1))
    case 'f' => Some((12 as char, 1))
    case 'n' => Some(('\n', 1))
    case 'r' => Some(('\r', 1))
    case 't' => Some(('\t', 1))
    case 'u' =>
      if |s| < 5 then None
      else (match HexNumber(s[1..5]) {
        case Some(n) => if n < 0xD800 || 0xE000 <= n < 0x10000 then Some((n as char, 5)) else None
        case None => None
      })
    case _ => None
  }

  /** The rest of a string literal, from just after its opening quote. */
  function ParseText(s: string): (r: Option<Parsed<string>>)
    ensures r.Some? ==> |r.value.rest| < |s|
  {
    if s == "" then None
    else if s[0] == '"' then Some(Parsed("", s[1..]))
    else if s[0] == '\\' then
      if |s| == 1 then None
      else (match Unescape(s[1..]) {
        case None => None
        case Some((c, n)) => Prefixed(c, ParseText(s[1 + n..]))
      })
    else if s[0] < ' ' then None
    else Prefixed(s[0], ParseText(s[1..]))
  }

  function Prefixed(c: char, r: Option<Parsed<string>>): Option<Parsed<string>> {
    match r
    case None => None
    case Some(p) => Some(Parsed([c] + p.value, p.rest))
  }

  lemma UnescapeUndoesEscape(c: char, tail: string)
    ensures var s := EscapeChar(c);
            if |s| == 1 then s == [c] && c != '"' && c != '\\' && c >= ' '
            else s[0] == '\\' && Unescape(s[1..] + tail) == Some((c, |s| - 1))
  {
    var s := EscapeChar(c);
    if |s| == 6 {
      var t := s[1..] + tail;
      assert t[1..5] == s[2..];
      var n := c as int;
      HexDigitValue(n / 16);
      HexDigitValue(n % 16);
      assert s[2..][..3] == ['0', '0', HexDigit(n / 16)];
      assert ['0', '0', HexDigit(n / 16)][..2] == ['0', '0'];
      assert ['0', '0'][..1] == ['0'] && ['0'][..0] == "";
      assert HexNumber(['0']) == Some(0);
      assert HexNumber(['0', '0']) == Some(0);
      assert HexNumber(['0', '0', HexDigit(n / 16)]) == Some(n / 16);
    }
  }

  lemma HexDigitValue(n: nat)
    requires n < 16
    ensures HexValue(HexDigit(n)) == Some(n)
  {
  }

  lemma {:induction false} TextRoundTrip(text: string, tail: string)
    ensures ParseText(EmitText(text, tail)) == Some(Parsed(text, tail))
  {
    if text == "" {
    } else {
      TextRoundTrip(text[1..], tail);
      var more := EmitText(text[1..], tail);
      var s := EscapeChar(text[0]);
      UnescapeUndoesEscape(text[0], more);
      assert text == [text[0]] + text[1..];
      assert (s + more)[1..] == s[1..] + more;
      assert (s + more)[|s|..] == more;
    }
  }

  // ---------------------------------------------------------------- numbers

  function SkipDigits(s: string): string {
    if s != "" && Digit(s[0]) then SkipDigits(s[1..]) else s
  }

  /** Digits, at least one. */
  function Digits(s: string): Option<string> {
    if s != "" && Digit(s[0]) then Some(SkipDigits(s)) else None
  }

  /** The number grammar of section 6 of RFC 8259. */
  predicate NumberGrammar(s: string) {
    var unsigned := if s != "" && s[0] == '-' then s[1..] else s;
    var afterInt := if unsigned != "" && unsigned[0] == '0' then Some(unsigned[1..]) else Digits(unsigned);
    afterInt.Some? && (
      var t := afterInt.value;
      var afterFrac := if t != "" && t[0] == '.' then Digits(t[1..]) else Some(t);
      afterFrac.Some? && (
        var u := afterFrac.value;
        u == "" || ((u[0] == 'e' || u[0] == 'E') && (
          var v := u[1..];
          Digits(if v != "" && (v[0] == '+' || v[0] == '-') then v[1..] else v) == Some("")))))
  }

  predicate ValidNumber(s: string) {
    && s != "" && (Digit(s[0]) || s[0] == '-')
    && (forall i :: 0 <= i < |s| ==> NumberChar(s[i]))
    && NumberGrammar(s)
  }

  function NumberRun(s: string): (n: nat)
    ensures n <= |s|
    ensures forall i :: 0 <= i < n ==> NumberChar(s[i])
  {
    if s != "" && NumberChar(s[0]) then 1 + NumberRun(s[1..]) else 0
  }

  predicate EndsNumber(tail: string) {
    tail == "" || !NumberChar(tail[0])
  }

  lemma {:induction false} RunOfNumber(s: string, tail: string)
    requires EndsNumber(tail) && forall i :: 0 <= i < |s| ==> NumberChar(s[i])
    ensures NumberRun(s + tail) == |s|
  {
    if s == "" {
      assert s + tail == tail;
    } else {
      RunOfNumber(s[1..], tail);
      assert (s + tail)[1..] == s[1..] + tail;
    }
  }

  /** `str(n)`, also the JSON literal of a natural number. */
  function Decimal(n: nat): (s: string)
    ensures s != ""
  {
    if n < 10 then ['0' + n as char] else Decimal(n / 10) + ['0' + (n % 10) as char]
  }

  function DecimalValue(s: string): int {
    if s == "" then 0 else 10 * DecimalValue(s[..|s| - 1]) + (s[|s| - 1] as int - '0' as int)
  }

  lemma {:induction false} DecimalIsInjective(n: nat)
    ensures DecimalValue(Decimal(n)) == n
  {
    if n < 10 {
      assert Decimal(n)[..0] == "";
    } else {
      DecimalIsInjective(n / 10);
      assert Decimal(n)[..|Decimal(n)| - 1] == Decimal(n / 10);
    }
  }

  // ---------------------------------------------------------------- printer

  /** `value` printed with `sp` after every comma and colon, followed by `tail`. */
  function Emit(value: Json, sp: string, tail: string): string
    decreases value
  {
    match value
    case Null => "null" + tail
    case Bool(on) => (if on then "true" else "false") + tail
    case Num(literal) => literal + tail
    case Str(text) => ['"'] + EmitText(text, tail)
    case Arr(items) => ['['] + EmitItems(items, sp, [']'] + tail)
    case Obj(fields) => ['{'] + EmitFields(fields, sp, ['}'] + tail)
  }

  function EmitItems(items: Items, sp: string, tail: string): string
    decreases items
  {
    match items
    case NoItems => tail
    case Item(v, NoItems) => Emit(v, sp, tail)
    case Item(v, more) => Emit(v, sp, [','] + (sp + EmitItems(more, sp, tail)))
  }

  function EmitFields(fields: Fields, sp: string, tail: string): string
    decreases fields
  {
    match fields
    case NoFields => tail
    case Field(k, v, rest) =>
      ['"'] + EmitText(k, [':'] + (sp + Emit(v, sp,
        if rest == NoFields then tail else [','] + (sp + EmitFields(rest, sp, tail)))))
  }

  function Print(value: Json, sp: string): string {
    Emit(value, sp, "")
  }

  /** `json.dumps(value, ensure_ascii=False, separators=(",", ":"))`. */
  function Compact(value: Json): string {
    Print(value, "")
  }

  // ---------------------------------------------------------------- parser

  function ParseValue(s: string): (r: Option<Parsed<Json>>)
    ensures r.Some? ==> |r.value.rest| < |s|
    decreases |s|, 1
  {
    if s == "" then None
    else if s[0] == '"' then
      (match ParseText(s[1..]) {
        case None => None
        case Some(p) => Some(Parsed(Str(p.value), p.rest))
      })
    else if s[0] == '[' then
      var t := SkipBlanks(s[1..]);
      if t != "" && t[0] == ']' then Some(Parsed(Arr(NoItems), t[1..]))
      else (match ParseItems(t) {
        case None => None
        case Some(p) => Some(Parsed(Arr(p.value), p.rest))
      })
    else if s[0] == '{' then
      var t := SkipBlanks(s[1..]);
      if t != "" && t[0] == '}' then Some(Parsed(Obj(NoFields), t[1..]))
      else (match ParseFields(t, NoFields) {
        case None => None
        case Some(p) => Some(Parsed(Obj(p.value), p.rest))
      })
    else if "null" <= s then Some(Parsed(Null, s[4..]))
    else if "true" <= s then Some(Parsed(Bool(true), s[4..]))
    else if "false" <= s then Some(Parsed(Bool(false), s[5..]))
    else
      var n := NumberRun(s);
      if ValidNumber(s[..n]) then Some(Parsed(Num(s[..n]), s[n..])) else None
  }

  /** One or more elements and the closing bracket. */
  function ParseItems(s: string): (r: Option<Parsed<Items>>)
    ensures r.Some? ==> |r.value.rest| < |s|
    decreases |s|, 2
  {
    match ParseValue(s)
    case None => None
    case Some(p) =>
      var t := SkipBlanks(p.rest);
      if t == "" then None
      else if t[0] == ']' then Some(Parsed(Item(p.value, NoItems), t[1..]))
      else if t[0] == ',' then
        (match ParseItems(SkipBlanks(t[1..])) {
          case None => None
          case Some(q) => Some(Parsed(Item(p.value, q.value), q.rest))
        })
      else None
  }

  /** One or more members and the closing brace, added to the members `acc` read before them. */
  function ParseFields(s: string, acc: Fields): (r: Option<Parsed<Fields>>)
    ensures r.Some? ==> |r.value.rest| < |s|
    decreases |s|, 0
  {
    if s == "" || s[0] != '"' then None
    else match ParseText(s[1..])
      case None => None
      case Some(k) =>
        var t := SkipBlanks(k.rest);
        if t == "" || t[0] != ':' then None
        else match ParseValue(SkipBlanks(t[1..]))
          case None => None
          case Some(v) =>
            var u := SkipBlanks(v.rest);
            var grown := Put(acc, k.value, v.value);
            if u == "" then None
            else if u[0] == '}' then Some(Parsed(grown, u[1..]))
            else if u[0] == ',' then ParseFields(SkipBlanks(u[1..]), grown)
            else None
  }

  /** `json.loads`: one value, blanks around it, nothing else. */
  function Loads(s: string): Option<Json> {
    match ParseValue(SkipBlanks(s))
    case None => None
    case Some(p) => if SkipBlanks(p.rest) == "" then Some(p.value) else None
  }

  // ---------------------------------------------------------------- round trip

  predicate WellFormed(value: Json) {
    match value
    case Num(literal) => ValidNumber(literal)
    case Arr(items) => WellFormedItems(items)
    case Obj(fields) => DistinctKeys(fields) && WellFormedFields(fields)
    case _ => true
  }

  predicate WellFormedItems(items: Items) {
    match items
    case NoItems => true
    case Item(v, more) => WellFormed(v) && WellFormedItems(more)
  }

  predicate WellFormedFields(fields: Fields) {
    match fields
    case NoFields => true
    case Field(_, v, rest) => WellFormed(v) && WellFormedFields(rest)
  }

  predicate Blanks(s: string) {
    forall i :: 0 <= i < |s| ==> Blank(s[i])
  }

  lemma {:induction false} SkipLeadingBlanks(blanks: string, s: string)
    requires Blanks(blanks) && (s == "" || !Blank(s[0]))
    ensures SkipBlanks(blanks + s) == s
  {
    if blanks == "" {
      assert blanks + s == s;
    } else {
      SkipLeadingBlanks(blanks[1..], s);
      assert (blanks + s)[1..] == blanks[1..] + s;
    }
  }

  predicate StartsValue(s: string) {
    s != "" && !Blank(s[0]) && s[0] != ']' && s[0] != '}'
  }

  lemma EmitStarts(value: Json, sp: string, tail: string)
    requires WellFormed(value)
    ensures StartsValue(Emit(value, sp, tail))
  {
  }

  lemma NumberRoundTrip(literal: string, tail: string)
    requires ValidNumber(literal) && EndsNumber(tail)
    ensures ParseValue(literal + tail) == Some(Parsed(Num(literal), tail))
  {
    var s := literal + tail;
    RunOfNumber(literal, tail);
    assert s[..|literal|] == literal && s[|literal|..] == tail;
    assert s[0] == literal[0];
  }

  /** Parsing what was printed gives the value back and leaves the text that followed it. */
  lemma {:induction false} RoundTrip(value: Json, sp: string, tail: string)
    requires WellFormed(value) && Blanks(sp) && (value.Num? ==> EndsNumber(tail))
    ensures ParseValue(Emit(value, sp, tail)) == Some(Parsed(value, tail))
    decreases value, 0
  {
    var s := Emit(value, sp, tail);
    match value
    case Null => assert s[4..] == tail;
    case Bool(on) => assert s[if on then 4 else 5..] == tail;
    case Num(literal) => NumberRoundTrip(literal, tail);
    case Str(text) =>
      TextRoundTrip(text, tail);
      assert s[1..] == EmitText(text, tail);
    case Arr(items) =>
      assert s[1..] == EmitItems(items, sp, [']'] + tail);
      if items.Item? {
        ItemsRoundTrip(items, sp, tail);
      }
    case Obj(fields) =>
      assert s[1..] == EmitFields(fields, sp, ['}'] + tail);
      if fields.Field? {
        FieldsRoundTrip(fields, sp, tail, NoFields);
      }
  }

  lemma {:induction false} ItemsRoundTrip(items: Items, sp: string, tail: string)
    requires WellFormedItems(items) && items.Item? && Blanks(sp)
    ensures StartsValue(EmitItems(items, sp, [']'] + tail))
    ensures ParseItems(EmitItems(items, sp, [']'] + tail)) == Some(Parsed(items, tail))
    decreases items, 1
  {
    if items.tail == NoItems {
      EmitStarts(items.head, sp, [']'] + tail);
      RoundTrip(items.head, sp, [']'] + tail);
    } else {
      var more := EmitItems(items.tail, sp, [']'] + tail);
      ItemsRoundTrip(items.tail, sp, tail);
      SkipLeadingBlanks(sp, more);
      var after := [','] + (sp + more);
      assert after[1..] == sp + more;
      EmitStarts(items.head, sp, after);
      RoundTrip(items.head, sp, after);
    }
  }

  lemma OneField(s: string, k: string, colon: string, v: Json, after: string, acc: Fields)
    requires s != "" && s[0] == '"' && ParseText(s[1..]) == Some(Parsed(k, colon))
    requires colon != "" && colon[0] == ':'
    requires ParseValue(SkipBlanks(colon[1..])) == Some(Parsed(v, after))
    requires after != "" && (after[0] == '}' || after[0] == ',')
    ensures ParseFields(s, acc) == if after[0] == '}' then Some(Parsed(Put(acc, k, v), after[1..]))
                                   else ParseFields(SkipBlanks(after[1..]), Put(acc, k, v))
  {
    assert SkipBlanks(colon) == colon && SkipBlanks(after) == after;
  }

  lemma {:induction false} FieldsRoundTrip(fields: Fields, sp: string, tail: string, acc: Fields)
    requires WellFormedFields(fields) && fields.Field? && Blanks(sp)
    requires DistinctKeys(fields) && Keys(fields) !! Keys(acc)
    ensures EmitFields(fields, sp, ['}'] + tail) != "" && EmitFields(fields, sp, ['}'] + tail)[0] == '"'
    ensures ParseFields(EmitFields(fields, sp, ['}'] + tail), acc) == Some(Parsed(Append(acc, fields), tail))
    decreases fields, 1
  {
    var Field(k, v, rest) := fields;
    var close := ['}'] + tail;
    var more := EmitFields(rest, sp, close);
    var after := if rest == NoFields then close else [','] + (sp + more);
    var value := Emit(v, sp, after);
    var colon := [':'] + (sp + value);
    var s := EmitFields(fields, sp, close);
    assert s[1..] == EmitText(k, colon);
    TextRoundTrip(k, colon);
    assert colon[1..] == sp + value;
    EmitStarts(v, sp, after);
    SkipLeadingBlanks(sp, value);
    RoundTrip(v, sp, after);
    OneField(s, k, colon, v, after, acc);
    PutNewKey(acc, k, v, rest);
    if rest == NoFields {
      AppendNothing(Put(acc, k, v));
      assert after[1..] == tail;
    } else {
      assert after[1..] == sp + more;
      FieldsRoundTrip(rest, sp, tail, Put(acc, k, v));
      SkipLeadingBlanks(sp, more);
    }
  }

  lemma {:induction false} OnlyBlanks(s: string)
    requires Blanks(s)
    ensures SkipBlanks(s) == ""
  {
    if s != "" { OnlyBlanks(s[1..]); }
  }

  /** `json.loads` undoes `json.dumps`, whatever blanks surround the text. */
  lemma LoadsRoundTrip(value: Json, sp: string, before: string, after: string)
    requires WellFormed(value) && Blanks(sp) && Blanks(before) && Blanks(after)
    ensures Loads(before + Emit(value, sp, after)) == Some(value)
  {
    EmitStarts(value, sp, after);
    SkipLeadingBlanks(before, Emit(value, sp, after));
    RoundTrip(value, sp, after);
    OnlyBlanks(after);
  }

  // ---------------------------------------------------------------- printing in front of more text

  lemma {:induction false} TextSplits(text: string, a: string, b: string)
    ensures EmitText(text, a + b) == EmitText(text, a) + b
  {
    if text == "" {
    } else {
      TextSplits(text[1..], a, b);
    }
  }

  lemma Joined(c: char, sp: string, s: string, b: string)
    ensures [c] + (sp + s) + b == [c] + (sp + (s + b))
  {
  }

  /** A bracketed text `open inner(close a)` in front of `b`. */
  lemma Bracketed(open: char, inner: string, extended: string, b: string)
    requires extended == inner + b
    ensures [open] + extended == [open] + inner + b
  {
  }

  /** What is printed does not depend on what follows it. */
  lemma {:induction false} EmitSplits(value: Json, sp: string, a: string, b: string)
    ensures Emit(value, sp, a + b) == Emit(value, sp, a) + b
    decreases value, 0
  {
    match value
    case Str(text) =>
      TextSplits(text, a, b);
      Bracketed('"', EmitText(text, a), EmitText(text, a + b), b);
    case Arr(items) =>
      assert [']'] + a + b == [']'] + (a + b);
      ItemsSplit(items, sp, [']'] + a, b);
      Bracketed('[', EmitItems(items, sp, [']'] + a), EmitItems(items, sp, [']'] + (a + b)), b);
    case Obj(fields) =>
      assert ['}'] + a + b == ['}'] + (a + b);
      FieldsSplit(fields, sp, ['}'] + a, b);
      Bracketed('{', EmitFields(fields, sp, ['}'] + a), EmitFields(fields, sp, ['}'] + (a + b)), b);
    case Num(literal) => assert literal + (a + b) == literal + a + b;
    case Null => assert "null" + (a + b) == "null" + a + b;
    case Bool(on) => assert (if on then "true" else "false") + (a + b) == (if on then "true" else "false") + a + b;
  }

  lemma {:induction false} ItemsSplit(items: Items, sp: string, a: string, b: string)
    ensures EmitItems(items, sp, a + b) == EmitItems(items, sp, a) + b
    decreases items, 1
  {
    match items
    case NoItems =>
    case Item(v, NoItems) => EmitSplits(v, sp, a, b);
    case Item(v, more) =>
      ItemsSplit(more, sp, a, b);
      var after := [','] + (sp + EmitItems(more, sp, a));
      EmitSplits(v, sp, after, b);
      Joined(',', sp, EmitItems(more, sp, a), b);
  }

  lemma {:induction false} FieldsSplit(fields: Fields, sp: string, a: string, b: string)
    ensures EmitFields(fields, sp, a + b) == EmitFields(fields, sp, a) + b
    decreases fields, 1
  {
    match fields
    case NoFields =>
    case Field(k, v, rest) =>
      var more := EmitFields(rest, sp, a);
      var after := if rest == NoFields then a else [','] + (sp + more);
      if rest != NoFields {
        FieldsSplit(rest, sp, a, b);
        Joined(',', sp, more, b);
      }
      EmitSplits(v, sp, after, b);
      Joined(':', sp, Emit(v, sp, after), b);
      TextSplits(k, [':'] + (sp + Emit(v, sp, after)), b);
  }
}
