/**
  The bracket scanner that fishes a JSON block out of a model's answer
  (backend/agent/gemini_client.py, _extract_json_block), and the JSON texts of
  RFC 8259 it is meant for.
 */
module JsonExtract {
  import opened Common

  // ---- the scanner ----

  /** Index of the first `c` in `text`, or |text|. */
  function Find(text: string, c: char): (i: nat)
    ensures i <= |text| && c !in text[..i]
    ensures i < |text| ==> text[i] == c
  {
    if text == "" || text[0] == c then 0 else 1 + Find(text[1..], c)
  }

  datatype Scanner = Scanner(depth: int, inString: bool, escape: bool)

  /** One character: depth counts only the one kind of bracket, and only outside strings. */
  function Eat(s: Scanner, ch: char, open: char, close: char): Scanner {
    if s.escape then s.(escape := false)
    else if ch == '\\' && s.inString then s.(escape := true)
    else if ch == '\"' then s.(inString := !s.inString)
    else if s.inString then s
    else if ch == open then s.(depth := s.depth + 1)
    else if ch == close then s.(depth := s.depth - 1)
    else s
  }

  /** The character just read brought the depth back to zero. */
  predicate Closes(s: Scanner, ch: char, open: char, close: char) {
    !s.escape && !s.inString && ch == close && ch != '\"' && ch != open && s.depth == 1
  }

  /** Length of the prefix of `text` up to and including the closing bracket, if there is one. */
  function Scan(s: Scanner, text: string, open: char, close: char): (r: Option<nat>)
    ensures r.Some? ==> r.value <= |text|
    decreases |text|
  {
    if text == "" then None
    else if Closes(s, text[0], open, close) then Some(1)
    else Later(Scan(Eat(s, text[0], open, close), text[1..], open, close), 1)
  }

  function Later(found: Option<nat>, shift: nat): Option<nat> {
    match found
    case None => None
    case Some(n) => Some(n + shift)
  }

  const START: Scanner := Scanner(0, false, false)

  /** The block the scanner finds from the first `open` on, if it closes. */
  function Block(text: string, open: char, close: char): Option<string> {
    var start := Find(text, open);
    match Scan(START, text[start..], open, close)
    case None => None
    case Some(n) => Some(text[start..start + n])
  }

  /** Objects are looked for first, arrays only when no object block is found. */
  function Extract(text: string): string {
    match Block(text, '{', '}')
    case Some(block) => block
    case None =>
      match Block(text, '[', ']')
      case Some(block) => block
      case None => text
  }

  /** What the scan that began at `start` finds, in terms of the scanner after one more character. */
  lemma {:induction false} ScanNext(s: Scanner, text: string, start: nat, i: nat, open: char, close: char)
    requires start <= i < |text|
    ensures Later(Scan(s, text[i..], open, close), i - start) ==
      if Closes(s, text[i], open, close) then Some(i + 1 - start)
      else Later(Scan(Eat(s, text[i], open, close), text[i + 1..], open, close), i + 1 - start)
  {
    assert text[i..][1..] == text[i + 1..];
  }

  method ExtractBlock(text: string, open: char, close: char) returns (r: Option<string>)
    requires (open == '{' && close == '}') || (open == '[' && close == ']')
    ensures r == Block(text, open, close)
  {
    var start := Find(text, open);
    var depth, inString, escape := 0, false, false;
    ghost var found := Scan(START, text[start..], open, close);
    var i := start;
    while i < |text|
      invariant start <= i <= |text|
      invariant found == Later(Scan(Scanner(depth, inString, escape), text[i..], open, close), i - start)
    {
      var ch := text[i];
      ghost var s := Scanner(depth, inString, escape);
      ScanNext(s, text, start, i, open, close);
      i := i + 1;
      if escape {
        escape := false;
      } else if ch == '\\' && inString {
        escape := true;
      } else if ch == '\"' {
        inString := !inString;
      } else if inString {
      } else if ch == open {
        depth := depth + 1;
      } else if ch == close {
        depth := depth - 1;
        if depth == 0 {
          assert found == Some(i - start);
          return Some(text[start..i]);
        }
      }
      assert !Closes(s, ch, open, close) && Scanner(depth, inString, escape) == Eat(s, ch, open, close);
    }
    return None;
  }

  method ExtractJsonBlock(text: string) returns (r: string)
    ensures r == Extract(text)
  {
    var block := ExtractBlock(text, '{', '}');
    if block.None? {
      block := ExtractBlock(text, '[', ']');
    }
    return if block.Some? then block.value else text;
  }

  // ---- JSON texts ----

  /** One character of a string (RFC 8259, section 7). */
  datatype StrChar =
    | Plain(c: char)                                       // unescaped
    | Short(c: char)                                       // two-character escape
    | Unicode(h1: char, h2: char, h3: char, h4: char)

  /** A number (section 6): sign, digits, fraction and exponent as written. */
  datatype Number = Number(
    minus: bool,
    digits: string,
    fraction: Option<string>,
    exponent: Option<(char, string, string)>)

  /** A syntax tree that keeps every piece of whitespace, so that it stands for one exact text (section 2). */
  datatype Json =
    | Literal(name: string)
    | Num(number: Number)
    | Str(chars: seq<StrChar>)
    | Arr(items: Items)
    | Obj(members: Members)

  /** The inside of an array: blank, or values with the whitespace around them, separated by commas. */
  datatype Items = NoItems(ws: string) | Item(before: string, value: Json, after: string, rest: Option<Items>)
  datatype Members =
    | NoMembers(ws: string)
    | Member(before: string, key: seq<StrChar>, colonBefore: string, colonAfter: string, value: Json, after: string,
             rest: Option<Members>)

  predicate IsBlank(ws: string) {
    forall c :: c in ws ==> c in " \t\n\r"
  }

  predicate IsDigits(s: string) {
    s != "" && forall c :: c in s ==> '0' <= c <= '9'
  }

  predicate IsHex(c: char) {
    '0' <= c <= '9' || 'a' <= c <= 'f' || 'A' <= c <= 'F'
  }

  predicate StrCharOk(c: StrChar) {
    match c
    case Plain(c) => c != '\"' && c != '\\' && c >= ' '
    case Short(c) => c in "\"\\/bfnrt"
    case Unicode(h1, h2, h3, h4) => IsHex(h1) && IsHex(h2) && IsHex(h3) && IsHex(h4)
  }

  predicate CharsOk(cs: seq<StrChar>) {
    forall c :: c in cs ==> StrCharOk(c)
  }

  predicate NumberOk(n: Number) {
    && IsDigits(n.digits) && (n.digits[0] == '0' ==> |n.digits| == 1)
    && (n.fraction.Some? ==> IsDigits(n.fraction.value))
    && (n.exponent.Some? ==>
          n.exponent.value.0 in "eE" && n.exponent.value.1 in {"", "+", "-"} && IsDigits(n.exponent.value.2))
  }

  /** Follows the grammar of RFC 8259. */
  predicate Ok(j: Json) {
    match j
    case Literal(name) => name in {"false", "null", "true"}
    case Num(n) => NumberOk(n)
    case Str(cs) => CharsOk(cs)
    case Arr(items) => ItemsOk(items) && (items.Item? || IsBlank(items.ws))
    case Obj(members) => MembersOk(members)
  }

  predicate ItemsOk(items: Items) {
    match items
    case NoItems(ws) => IsBlank(ws)
    case Item(before, value, after, rest) =>
      && IsBlank(before) && Ok(value) && IsBlank(after)
      && (rest.Some? ==> rest.value.Item? && ItemsOk(rest.value))
  }

  predicate MembersOk(members: Members) {
    match members
    case NoMembers(ws) => IsBlank(ws)
    case Member(before, key, colonBefore, colonAfter, value, after, rest) =>
      && IsBlank(before) && CharsOk(key) && IsBlank(colonBefore) && IsBlank(colonAfter) && Ok(value) && IsBlank(after)
      && (rest.Some? ==> rest.value.Member? && MembersOk(rest.value))
  }

  function StrCharText(c: StrChar): string {
    match c
    case Plain(c) => [c]
    case Short(c) => ['\\', c]
    case Unicode(h1, h2, h3, h4) => ['\\', 'u', h1, h2, h3, h4]
  }

  function CharsText(cs: seq<StrChar>): string {
    if cs == [] then "" else StrCharText(cs[0]) + CharsText(cs[1..])
  }

  function Quoted(cs: seq<StrChar>): string {
    "\"" + CharsText(cs) + "\""
  }

  function NumberText(n: Number): string {
    (if n.minus then "-" else "") + n.digits
    + (if n.fraction.Some? then "." + n.fraction.value else "")
    + (if n.exponent.Some? then [n.exponent.value.0] + n.exponent.value.1 + n.exponent.value.2 else "")
  }

  function Print(j: Json): string {
    match j
    case Literal(name) => name
    case Num(n) => NumberText(n)
    case Str(cs) => Quoted(cs)
    case Arr(items) => "[" + ItemsText(items) + "]"
    case Obj(members) => "{" + MembersText(members) + "}"
  }

  function ItemsText(items: Items): string {
    match items
    case NoItems(ws) => ws
    case Item(before, value, after, rest) =>
      before + (Print(value) + (after + if rest.Some? then "," + ItemsText(rest.value) else ""))
  }

  function MembersText(members: Members): string {
    match members
    case NoMembers(ws) => ws
    case Member(before, key, colonBefore, colonAfter, value, after, rest) =>
      before + (Quoted(key) + (colonBefore + (":" + (colonAfter + (Print(value)
      + (after + if rest.Some? then "," + MembersText(rest.value) else ""))))))
  }

  // ---- scanning one piece of text after another ----

  /** From s, the scanner reads all of `text` without closing and is then in state t. */
  ghost predicate Reads(s: Scanner, text: string, t: Scanner, open: char, close: char)
    decreases |text|
  {
    if text == "" then s == t
    else !Closes(s, text[0], open, close) && Reads(Eat(s, text[0], open, close), text[1..], t, open, close)
  }

  lemma {:induction false} ReadsThen(s: Scanner, a: string, t: Scanner, b: string, u: Scanner, open: char, close: char)
    requires Reads(s, a, t, open, close) && Reads(t, b, u, open, close)
    ensures Reads(s, a + b, u, open, close)
    decreases |a|
  {
    if a == "" {
      assert a + b == b;
    } else {
      assert (a + b)[1..] == a[1..] + b;
      ReadsThen(Eat(s, a[0], open, close), a[1..], t, b, u, open, close);
    }
  }

  lemma {:induction false} ScanAfter(s: Scanner, a: string, t: Scanner, b: string, open: char, close: char)
    requires Reads(s, a, t, open, close)
    ensures Scan(s, a + b, open, close) == Later(Scan(t, b, open, close), |a|)
    decreases |a|
  {
    if a == "" {
      assert a + b == b;
    } else {
      assert (a + b)[1..] == a[1..] + b;
      ScanAfter(Eat(s, a[0], open, close), a[1..], t, b, open, close);
    }
  }

  ghost predicate Brackets(open: char, close: char) {
    (open == '{' && close == '}') || (open == '[' && close == ']')
  }

  /** Outside strings and inside at least one bracket: the states between the pieces of a JSON text. */
  ghost predicate Inside(s: Scanner) {
    s.depth >= 1 && !s.inString && !s.escape
  }

  /** No character of `text` means anything to the scanner outside strings. */
  ghost predicate Neutral(text: string) {
    forall c :: c in text ==> c !in "\"{}[]"
  }

  lemma {:induction false} NeutralReads(s: Scanner, text: string, open: char, close: char)
    requires Brackets(open, close) && Inside(s) && Neutral(text)
    ensures Reads(s, text, s, open, close)
    decreases |text|
  {
    if text != "" {
      assert text[0] in text;
      NeutralReads(s, text[1..], open, close);
    }
  }

  lemma {:induction false} BlankReads(s: Scanner, ws: string, open: char, close: char)
    requires Brackets(open, close) && Inside(s) && IsBlank(ws)
    ensures Reads(s, ws, s, open, close)
  {
    NeutralReads(s, ws, open, close);
  }

  lemma {:induction false} CommaReads(s: Scanner, text: string, open: char, close: char)
    requires Brackets(open, close) && Inside(s) && Reads(s, text, s, open, close)
    ensures Reads(s, "," + text, s, open, close)
  {
    NeutralReads(s, ",", open, close);
    ReadsThen(s, ",", s, text, s, open, close);
  }

  lemma {:induction false} CharReads(s: Scanner, c: StrChar, open: char, close: char)
    requires s.inString && !s.escape && StrCharOk(c)
    ensures Reads(s, StrCharText(c), s, open, close)
  {
    match c
    case Plain(c) => assert [c][1..] == "";
    case Short(c) =>
      var text := ['\\', c];
      assert text[1..] == [c] && [c][1..] == "";
      assert Eat(Eat(s, '\\', open, close), c, open, close) == s;
    case Unicode(h1, h2, h3, h4) =>
      var text := ['\\', 'u', h1, h2, h3, h4];
      assert text[1..] == ['u', h1, h2, h3, h4] && text[1..][1..] == [h1, h2, h3, h4];
      assert [h1, h2, h3, h4][1..] == [h2, h3, h4] && [h2, h3, h4][1..] == [h3, h4];
      assert [h3, h4][1..] == [h4] && [h4][1..] == "";
      assert Reads(s, [h4], s, open, close);
      assert Reads(s, [h3, h4], s, open, close);
      assert Reads(s, [h2, h3, h4], s, open, close);
      assert Reads(s, [h1, h2, h3, h4], s, open, close);
      assert Reads(s.(escape := true), ['u', h1, h2, h3, h4], s, open, close);
  }

  lemma {:induction false} CharsRead(s: Scanner, cs: seq<StrChar>, open: char, close: char)
    requires s.inString && !s.escape && CharsOk(cs)
    ensures Reads(s, CharsText(cs), s, open, close)
  {
    if cs != [] {
      assert cs[0] in cs;
      CharReads(s, cs[0], open, close);
      CharsRead(s, cs[1..], open, close);
      ReadsThen(s, StrCharText(cs[0]), s, CharsText(cs[1..]), s, open, close);
    }
  }

  lemma {:induction false} OneReads(s: Scanner, c: char, open: char, close: char)
    requires !Closes(s, c, open, close)
    ensures Reads(s, [c], Eat(s, c, open, close), open, close)
  {
    assert [c][1..] == "";
  }

  lemma {:induction false} QuotedReads(s: Scanner, cs: seq<StrChar>, open: char, close: char)
    requires Brackets(open, close) && Inside(s) && CharsOk(cs)
    ensures Reads(s, Quoted(cs), s, open, close)
  {
    var t := s.(inString := true);
    OneReads(s, '\"', open, close);
    CharsRead(t, cs, open, close);
    OneReads(t, '\"', open, close);
    ReadsThen(s, "\"", t, CharsText(cs), t, open, close);
    ReadsThen(s, "\"" + CharsText(cs), t, "\"", s, open, close);
  }

  lemma {:induction false} NumberNeutral(n: Number)
    requires NumberOk(n)
    ensures Neutral(NumberText(n))
  {
  }

  /** Brackets of either kind around a text that reads as nothing read as nothing themselves. */
  lemma {:induction false} BracketedReads(s: Scanner, o: char, body: string, c: char, open: char, close: char)
    requires Brackets(open, close) && Brackets(o, c) && Inside(s)
    requires Reads(Eat(s, o, open, close), body, Eat(s, o, open, close), open, close)
    ensures Reads(s, [o] + body + [c], s, open, close)
  {
    var t := Eat(s, o, open, close);
    OneReads(s, o, open, close);
    ReadsThen(s, [o], t, body, t, open, close);
    OneReads(t, c, open, close);
    ReadsThen(s, [o] + body, t, [c], s, open, close);
  }

  /** A complete JSON value inside a bracket leaves the scanner as it was and never closes that bracket. */
  lemma {:induction false} ValueReads(s: Scanner, j: Json, open: char, close: char)
    requires Brackets(open, close) && Inside(s) && Ok(j)
    ensures Reads(s, Print(j), s, open, close)
    decreases j
  {
    match j
    case Literal(name) => NeutralReads(s, name, open, close);
    case Num(n) =>
      NumberNeutral(n);
      NeutralReads(s, NumberText(n), open, close);
    case Str(cs) => QuotedReads(s, cs, open, close);
    case Arr(items) =>
      ItemsRead(Eat(s, '[', open, close), items, open, close);
      BracketedReads(s, '[', ItemsText(items), ']', open, close);
    case Obj(members) =>
      MembersRead(Eat(s, '{', open, close), members, open, close);
      BracketedReads(s, '{', MembersText(members), '}', open, close);
  }

  lemma {:induction false} ItemsRead(s: Scanner, items: Items, open: char, close: char)
    requires Brackets(open, close) && Inside(s) && ItemsOk(items)
    ensures Reads(s, ItemsText(items), s, open, close)
    decreases items
  {
    match items
    case NoItems(ws) => BlankReads(s, ws, open, close);
    case Item(before, value, after, rest) =>
      BlankReads(s, before, open, close);
      ValueReads(s, value, open, close);
      BlankReads(s, after, open, close);
      var tail := if rest.Some? then "," + ItemsText(rest.value) else "";
      if rest.Some? {
        ItemsRead(s, rest.value, open, close);
        CommaReads(s, ItemsText(rest.value), open, close);
      }
      ReadsThen(s, after, s, tail, s, open, close);
      ReadsThen(s, Print(value), s, after + tail, s, open, close);
      ReadsThen(s, before, s, Print(value) + (after + tail), s, open, close);
  }

  lemma {:induction false} MembersRead(s: Scanner, members: Members, open: char, close: char)
    requires Brackets(open, close) && Inside(s) && MembersOk(members)
    ensures Reads(s, MembersText(members), s, open, close)
    decreases members
  {
    match members
    case NoMembers(ws) => BlankReads(s, ws, open, close);
    case Member(before, key, colonBefore, colonAfter, value, after, rest) =>
      BlankReads(s, before, open, close);
      QuotedReads(s, key, open, close);
      BlankReads(s, colonBefore, open, close);
      NeutralReads(s, ":", open, close);
      BlankReads(s, colonAfter, open, close);
      ValueReads(s, value, open, close);
      BlankReads(s, after, open, close);
      var tail := if rest.Some? then "," + MembersText(rest.value) else "";
      if rest.Some? {
        MembersRead(s, rest.value, open, close);
        CommaReads(s, MembersText(rest.value), open, close);
      }
      PiecesRead(s, before, Quoted(key), colonBefore, colonAfter, Print(value), after, tail, open, close);
  }

  /** The pieces of a member, one after the other. */
  lemma {:induction false} PiecesRead(s: Scanner, before: string, key: string, colonBefore: string, colonAfter: string,
                                      value: string, after: string, tail: string, open: char, close: char)
    requires Reads(s, before, s, open, close) && Reads(s, key, s, open, close)
    requires Reads(s, colonBefore, s, open, close) && Reads(s, ":", s, open, close)
    requires Reads(s, colonAfter, s, open, close)
    requires Reads(s, value, s, open, close) && Reads(s, after, s, open, close) && Reads(s, tail, s, open, close)
    ensures Reads(s, before + (key + (colonBefore + (":" + (colonAfter + (value + (after + tail)))))), s, open, close)
  {
    ReadsThen(s, after, s, tail, s, open, close);
    ReadsThen(s, value, s, after + tail, s, open, close);
    var t1 := value + (after + tail);
    ReadsThen(s, colonAfter, s, t1, s, open, close);
    ReadsThen(s, ":", s, colonAfter + t1, s, open, close);
    ReadsThen(s, colonBefore, s, ":" + (colonAfter + t1), s, open, close);
    var t2 := colonBefore + (":" + (colonAfter + t1));
    ReadsThen(s, key, s, t2, s, open, close);
    ReadsThen(s, before, s, key + t2, s, open, close);
  }

  // ---- what is extracted ----

  lemma {:induction false} FindAfter(p: string, rest: string, c: char)
    requires c !in p
    ensures Find(p + rest, c) == |p| + Find(rest, c)
  {
    if p == "" {
      assert p + rest == rest;
    } else {
      assert (p + rest)[1..] == p[1..] + rest;
      FindAfter(p[1..], rest, c);
    }
  }

  /** A bracketed text whose inside reads as nothing is found whole, whatever stands before and after it. */
  lemma {:induction false} BlockFound(p: string, body: string, s: string, open: char, close: char)
    requires Brackets(open, close) && open !in p
    requires Reads(Scanner(1, false, false), body, Scanner(1, false, false), open, close)
    ensures Block(p + ([open] + body + [close]) + s, open, close) == Some([open] + body + [close])
  {
    var block := [open] + body + [close];
    var text := p + block + s;
    var one := Scanner(1, false, false);
    assert text == p + (block + s);
    FindAfter(p, block + s, open);
    assert text[|p|..] == [open] + body + ([close] + s);
    OneReads(START, open, open, close);
    ReadsThen(START, [open], one, body, one, open, close);
    ScanAfter(START, [open] + body, one, [close] + s, open, close);
    assert Scan(one, [close] + s, open, close) == Some(1);
    assert text[|p|..|p| + |block|] == block;
  }

  /** Every JSON object after text without an opening brace is extracted exactly, whatever follows it. */
  lemma {:induction false} ObjectExtracted(p: string, o: Json, s: string)
    requires o.Obj? && Ok(o) && '{' !in p
    ensures Extract(p + Print(o) + s) == Print(o)
  {
    MembersRead(Scanner(1, false, false), o.members, '{', '}');
    BlockFound(p, MembersText(o.members), s, '{', '}');
  }

  /** The same for arrays, if the whole text holds no opening brace. */
  lemma {:induction false} ArrayExtracted(p: string, a: Json, s: string)
    requires a.Arr? && Ok(a) && '[' !in p && '{' !in p + Print(a) + s
    ensures Extract(p + Print(a) + s) == Print(a)
  {
    var text := p + Print(a) + s;
    NoBlockWithout(text, '{', '}');
    ItemsRead(Scanner(1, false, false), a.items, '[', ']');
    BlockFound(p, ItemsText(a.items), s, '[', ']');
  }

  lemma {:induction false} NoBlockWithout(text: string, open: char, close: char)
    requires open !in text
    ensures Block(text, open, close) == None
  {
    assert Find(text, open) == |text|;
    assert text[|text|..] == "";
  }

  /** A text in which no bracket of either kind is both opened and closed comes back whole. */
  lemma {:induction false} WithoutBlockWhole(text: string)
    requires ('{' !in text || '}' !in text) && ('[' !in text || ']' !in text)
    ensures Extract(text) == text
  {
    NotClosed(text, '{', '}');
    NotClosed(text, '[', ']');
  }

  lemma {:induction false} NotClosed(text: string, open: char, close: char)
    requires Brackets(open, close) && (open !in text || close !in text)
    ensures Block(text, open, close) == None
  {
    var start := Find(text, open);
    if Scan(START, text[start..], open, close).Some? {
      ScanEnds(START, text[start..], open, close);
    }
  }

  /** A block, if there is one, is a piece of the text that starts at the first opening bracket. */
  lemma {:induction false} BlockIsPiece(text: string, open: char, close: char)
    requires Brackets(open, close) && Block(text, open, close).Some?
    ensures
      var b := Block(text, open, close).value;
      && b != "" && b[0] == open && b[|b| - 1] == close
      && b <= text[Find(text, open)..] && open !in text[..Find(text, open)]
  {
    var start := Find(text, open);
    ScanEnds(START, text[start..], open, close);
  }

  lemma {:induction false} ScanEnds(s: Scanner, text: string, open: char, close: char)
    requires Scan(s, text, open, close).Some?
    ensures
      var n := Scan(s, text, open, close).value;
      1 <= n <= |text| && text[n - 1] == close
    decreases |text|
  {
    if !Closes(s, text[0], open, close) {
      ScanEnds(Eat(s, text[0], open, close), text[1..], open, close);
    }
  }

  /**
    Exactly when an array is extracted: when no object block is found before
    arrays are tried. An opening brace anywhere may prevent it.
   */
  lemma {:induction false} ArrayExtractedExactlyWhen(p: string, a: Json, s: string)
    requires a.Arr? && Ok(a) && '[' !in p
    ensures Extract(p + Print(a) + s) == Print(a) <==> Block(p + Print(a) + s, '{', '}') == None
  {
    var text := p + Print(a) + s;
    ItemsRead(Scanner(1, false, false), a.items, '[', ']');
    BlockFound(p, ItemsText(a.items), s, '[', ']');
    if Block(text, '{', '}').Some? {
      BlockIsPiece(text, '{', '}');
      assert Print(a)[0] == '[';
    }
  }

  lemma {:induction false} Regroup(p: string, before: string, o: string, tail: string, s: string)
    ensures p + ("[" + (before + (o + tail)) + "]") + s == (p + "[" + before) + o + (tail + "]" + s)
  {
  }

  /** So the documented first complete block of either kind is not what comes back: an array yields its first object. */
  lemma {:induction false} ArrayOfObjectsLosesArray(p: string, before: string, o: Json, after: string,
      rest: Option<Items>, s: string)
    requires o.Obj? && Ok(o) && '{' !in p && ItemsOk(Item(before, o, after, rest))
    ensures
      var a := Arr(Item(before, o, after, rest));
      Extract(p + Print(a) + s) == Print(o) && Print(o) != Print(a)
  {
    var items := Item(before, o, after, rest);
    var tail := after + if rest.Some? then "," + ItemsText(rest.value) else "";
    assert ItemsText(items) == before + (Print(o) + tail);
    Regroup(p, before, Print(o), tail, s);
    assert '{' !in p + "[" + before;
    ObjectExtracted(p + "[" + before, o, tail + "]" + s);
    assert Print(o)[0] == '{' && Print(Arr(items))[0] == '[';
  }
}
