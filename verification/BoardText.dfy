/**
  How tall the text of a board item is estimated to be
  (backend/agent/miro_generation.py, _count_wrapped_lines, _estimate_item_height).
  Coordinates are exact reals.
 */
module BoardText {

  datatype Kind = TextItem | Shape | StickyNote | Frame | OtherKind

  /** An item of the board; `parent` is the id of the frame it is put in, if any. */
  datatype Item = Item(
    id: string,
    kind: Kind,
    hasParent: bool,
    parent: string,
    x: real,
    y: real,
    width: real,
    height: real,
    content: string,
    fontSize: real,
    bold: bool)

  function Max(a: real, b: real): real {
    if a >= b then a else b
  }

  function Min(a: real, b: real): real {
    if a <= b then a else b
  }

  function MaxInt(a: int, b: int): int {
    if a >= b then a else b
  }

  function Ceil(r: real): (c: int)
    ensures r <= c as real < r + 1.0
  {
    -((-r).Floor)
  }

  // ---- lines ----

  /** The characters at which `str.splitlines` ends a line; a carriage return and line feed end one together. */
  predicate IsLineEnd(c: char) {
    c in "\n\r\U{0B}\U{0C}\U{1C}\U{1D}\U{1E}\U{85}\U{2028}\U{2029}"
  }

  /** Length of the first line, without its end. */
  function LineLength(s: string): (n: nat)
    ensures n <= |s|
  {
    if s == "" || IsLineEnd(s[0]) then 0 else 1 + LineLength(s[1..])
  }

  /** What follows the first line and its end. */
  function AfterLine(s: string): (r: string)
    ensures s != "" ==> |r| < |s|
    ensures s == "" ==> r == ""
  {
    var n := LineLength(s);
    if n == |s| then ""
    else if s[n] == '\r' && n + 1 < |s| && s[n + 1] == '\n' then s[n + 2..]
    else s[n + 1..]
  }

  function SplitLines(s: string): seq<string>
    decreases |s|
  {
    if s == "" then [] else [s[..LineLength(s)]] + SplitLines(AfterLine(s))
  }

  predicate IsSpace(c: char) {
    || IsLineEnd(c) || c in "\t\U{1F} \U{A0}\U{1680}\U{202F}\U{205F}\U{3000}" || '\U{2000}' <= c <= '\U{200A}'
  }

  function StripLeft(s: string): (r: string)
    ensures |r| <= |s|
  {
    if s != "" && IsSpace(s[0]) then StripLeft(s[1..]) else s
  }

  function StripRight(s: string): (r: string)
    ensures |r| <= |s|
  {
    if s != "" && IsSpace(s[|s| - 1]) then StripRight(s[..|s| - 1]) else s
  }

  function Strip(s: string): string {
    StripRight(StripLeft(s))
  }

  function Newlines(s: string): nat {
    if s == "" then 0 else Newlines(s[1..]) + if s[0] == '\n' then 1 else 0
  }

  function CharsPerLine(width: real, fontSize: real): (n: int)
    ensures n >= 8
  {
    MaxInt(8, (width / Max(fontSize * 0.58, 1.0)).Floor)
  }

  /** Lines that one raw line wraps into. */
  function Wraps(line: string, perLine: int): (n: int)
    requires perLine >= 8
    ensures n >= 1
  {
    MaxInt(1, (|Strip(line)| + perLine - 1) / perLine)
  }

  function SumWraps(lines: seq<string>, perLine: int): (n: int)
    requires perLine >= 8
    ensures n >= |lines|
  {
    if lines == [] then 0 else SumWraps(lines[..|lines| - 1], perLine) + Wraps(lines[|lines| - 1], perLine)
  }

  function RawLines(content: string): seq<string> {
    if SplitLines(content) == [] then [content] else SplitLines(content)
  }

  function WrappedLines(content: string, width: real, fontSize: real): int {
    MaxInt(Newlines(content) + 1, SumWraps(RawLines(content), CharsPerLine(width, fontSize)))
  }

  lemma {:induction false} BlankLineWraps(line: string, perLine: int)
    requires perLine >= 8 && Strip(line) == ""
    ensures Wraps(line, perLine) == 1
  {
    assert (perLine - 1) / perLine == 0;
  }

  /** The lines one raw line takes up. */
  method WrapLine(line: string, perLine: int) returns (n: int)
    requires perLine >= 8
    ensures n == Wraps(line, perLine)
  {
    var stripped := Strip(line);
    if stripped == "" {
      BlankLineWraps(line, perLine);
      return 1;
    }
    return MaxInt(1, (|stripped| + perLine - 1) / perLine);
  }

  method CountWrappedLines(content: string, width: real, fontSize: real) returns (n: int)
    ensures n == WrappedLines(content, width, fontSize)
  {
    var perLine := CharsPerLine(width, fontSize);
    var lines := RawLines(content);
    var wrapped := 0;
    for i := 0 to |lines|
      invariant wrapped == SumWraps(lines[..i], perLine)
    {
      assert lines[..i + 1][..i] == lines[..i];
      var wraps := WrapLine(lines[i], perLine);
      wrapped := wrapped + wraps;
    }
    assert lines[..|lines|] == lines;
    return MaxInt(Newlines(content) + 1, wrapped);
  }

  function Characters(lines: seq<string>): nat {
    if lines == [] then 0 else Characters(lines[..|lines| - 1]) + |Strip(lines[|lines| - 1])|
  }

  lemma {:induction false} WrapsHold(line: string, perLine: int)
    requires perLine >= 8
    ensures Wraps(line, perLine) * perLine >= |Strip(line)|
  {
    var a := |Strip(line)| + perLine - 1;
    assert a == (a / perLine) * perLine + a % perLine;
    if Wraps(line, perLine) != a / perLine {
      assert a / perLine < 1;
    }
  }

  lemma {:induction false} AddProducts(a: int, b: int, k: int, x: int, y: int)
    requires a * k >= x && b * k >= y
    ensures (a + b) * k >= x + y
  {
    assert (a + b) * k == a * k + b * k;
  }

  lemma {:induction false} SumWrapsHold(lines: seq<string>, perLine: int)
    requires perLine >= 8
    ensures SumWraps(lines, perLine) * perLine >= Characters(lines)
  {
    if lines != [] {
      var n := |lines| - 1;
      SumWrapsHold(lines[..n], perLine);
      WrapsHold(lines[n], perLine);
      AddProducts(SumWraps(lines[..n], perLine), Wraps(lines[n], perLine), perLine,
                  Characters(lines[..n]), |Strip(lines[n])|);
    }
  }

  /** The counted lines have room for all the text, and for every line break in it. */
  lemma {:induction false} TextHasRoom(content: string, width: real, fontSize: real)
    ensures WrappedLines(content, width, fontSize) * CharsPerLine(width, fontSize) >= Characters(RawLines(content))
    ensures WrappedLines(content, width, fontSize) >= Newlines(content) + 1
    ensures WrappedLines(content, width, fontSize) >= |RawLines(content)|
  {
    var k := CharsPerLine(width, fontSize);
    SumWrapsHold(RawLines(content), k);
    var a, b := WrappedLines(content, width, fontSize), SumWraps(RawLines(content), k);
    MulMonotone(b, a, k);
  }

  lemma {:induction false} MulMonotone(a: int, b: int, k: int)
    requires a <= b && k >= 0
    ensures a * k <= b * k
  {
  }

  // ---- heights ----

  function Padding(item: Item): (p: int)
    ensures p >= 14
  {
    (match item.kind
     case TextItem => if item.bold then 18 else 14
     case Shape => if item.bold then 30 else 24
     case _ => if item.bold then 28 else 24)
    + (if '\n' in item.content then 6 else 0)
    + (if |item.content| > 120 then 8 else 0)
  }

  function FontSize(item: Item): real {
    if item.fontSize == 0.0 then 14.0 else item.fontSize
  }

  function LineHeight(item: Item): real {
    FontSize(item) * if item.kind.TextItem? then 1.45 else 1.35
  }

  predicate HoldsText(item: Item) {
    item.kind.TextItem? || item.kind.Shape? || item.kind.StickyNote?
  }

  function TextHeight(lines: int, lineHeight: real, padding: int): (h: real)
    ensures lines >= 0 && lineHeight >= 0.0 ==> h >= padding as real
  {
    assert lines >= 0 && lineHeight >= 0.0 ==> lines as real * lineHeight >= 0.0;
    Ceil(lines as real * lineHeight + padding as real) as real
  }

  function EstimatedHeight(item: Item): (h: real)
    ensures h >= item.height
  {
    if !HoldsText(item) then item.height
    else
      var lines := WrappedLines(item.content, Max(item.width, 1.0) - 24.0, FontSize(item));
      Max(item.height, TextHeight(lines, LineHeight(item), Padding(item)))
  }

  /** Unless its font size is negative, an item of text is at least as tall as its padding. */
  lemma {:induction false} TextIsTall(item: Item)
    requires HoldsText(item) && item.fontSize >= 0.0
    ensures EstimatedHeight(item) >= Padding(item) as real
  {
    assert LineHeight(item) >= 0.0;
    assert WrappedLines(item.content, Max(item.width, 1.0) - 24.0, FontSize(item)) >= 0;
  }
}
