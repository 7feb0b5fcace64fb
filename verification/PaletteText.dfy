/** The palette of a binary build: JSON.stringify of a list of names, and JSON.parse of such a list. */
module PaletteText {
  import opened JsonText
  import opened Options
  import opened Utf8

  // ----- JSON.stringify of a list of strings -----

  function HexDigit(n: int): char
    requires 0 <= n < 16
  {
    if n < 10 then '0' + n as char else 'a' + (n - 10) as char
  }

  /** The text of one character inside a string literal. */
  function EscapeChar(c: char): string {
    if c == '"' then "\\\""
    else if c == '\\' then "\\\\"
    else if c == '\U{8}' then "\\b"
    else if c == '\U{C}' then "\\f"
    else if c == '\n' then "\\n"
    else if c == '\r' then "\\r"
    else if c == '\t' then "\\t"
    else if c < ' ' then "\\u00" + [HexDigit(c as int / 16), HexDigit(c as int % 16)]
    else [c]
  }

  function Escape(s: string): string {
    if s == "" then "" else EscapeChar(s[0]) + Escape(s[1..])
  }

  function Stringify(names: seq<string>): string {
    "[" + StringifyItems(names) + "]"
  }

  function StringifyItems(names: seq<string>): string {
    if names == [] then ""
    else Quoted(Escape(names[0])) + (if |names| == 1 then "" else "," + StringifyItems(names[1..]))
  }

  // ----- JSON.parse of such a list -----

  function HexValue(c: char): Option<int> {
    if '0' <= c <= '9' then Some((c - '0') as int)
    else if 'a' <= c <= 'f' then Some((c - 'a') as int + 10)
    else if 'A' <= c <= 'F' then Some((c - 'A') as int + 10)
    else None
  }

  /** Four hexadecimal digits off the front. */
  function ReadHex(s: string): Option<int> {
    if |s| < 4 || HexValue(s[0]).None? || HexValue(s[1]).None? || HexValue(s[2]).None? || HexValue(s[3]).None? then None
    else Some(4096 * HexValue(s[0]).value + 256 * HexValue(s[1]).value + 16 * HexValue(s[2]).value + HexValue(s[3]).value)
  }

  /** What follows a backslash and a u: one code unit, or the first of a pair of them. */
  function ReadUnit(s: string): Option<(char, string)> {
    match ReadHex(s)
    case None => None
    case Some(unit) =>
      if 0 <= unit < 0xD800 || 0xE000 <= unit < 0x10000 then Some((unit as char, s[4..]))
      else if 0xD800 <= unit < 0xDC00 && "\\u" <= s[4..] then
        match ReadHex(s[6..])
        case None => None
        case Some(low) =>
          if 0xDC00 <= low < 0xE000 then Some(((0x10000 + 0x400 * (unit - 0xD800) + (low - 0xDC00)) as char, s[10..]))
          else None
      else None
  }

  /** One character read off the front of a string body, and the rest. */
  function ReadChar(s: string): Option<(char, string)> {
    if s == "" || s[0] == '"' || s[0] < ' ' then None
    else if s[0] != '\\' then Some((s[0], s[1..]))
    else if |s| < 2 then None
    else
      var rest := s[2..];
      match s[1]
      case '"' => Some(('"', rest))
      case '\\' => Some(('\\', rest))
      case '/' => Some(('/', rest))
      case 'b' => Some(('\U{8}', rest))
      case 'f' => Some(('\U{C}', rest))
      case 'n' => Some(('\n', rest))
      case 'r' => Some(('\r', rest))
      case 't' => Some(('\t', rest))
      case 'u' => ReadUnit(rest)
      case _ => None
  }

  lemma {:induction false} ReadCharShrinks(s: string)
    ensures ReadChar(s).Some? ==> |ReadChar(s).value.1| < |s|
  {
  }

  /** The rest of a string literal after its opening quote. */
  function ReadString(s: string): Option<(string, string)>
    decreases |s|
  {
    if s != "" && s[0] == '"' then Some(("", s[1..]))
    else
      match ReadChar(s)
      case None => None
      case Some((c, rest)) =>
        ReadCharShrinks(s);
        match ReadString(rest)
        case None => None
        case Some((more, tail)) => Some(([c] + more, tail))
  }

  lemma {:induction false} ReadStringShrinks(s: string)
    ensures ReadString(s).Some? ==> |ReadString(s).value.1| < |s|
    decreases |s|
  {
    if !(s != "" && s[0] == '"') && ReadChar(s).Some? {
      ReadCharShrinks(s);
      ReadStringShrinks(ReadChar(s).value.1);
    }
  }

  function SkipBlanks(s: string): (t: string)
    ensures |t| <= |s|
  {
    if s != "" && IsJsonSpace(s[0]) then SkipBlanks(s[1..]) else s
  }

  /** The items up to the closing bracket, which must end the text but for blanks. */
  function ReadItems(s: string): Option<seq<string>>
    decreases |s|
  {
    var t := SkipBlanks(s);
    if t == "" || t[0] != '"' then None
    else
      match ReadString(t[1..])
      case None => None
      case Some((name, rest)) =>
        ReadStringShrinks(t[1..]);
        var after := SkipBlanks(rest);
        if after != "" && after[0] == ']' then (if SkipBlanks(after[1..]) == "" then Some([name]) else None)
        else if after != "" && after[0] == ',' then
          match ReadItems(after[1..])
          case None => None
          case Some(names) => Some([name] + names)
        else None
  }

  function Parse(text: string): Option<seq<string>> {
    var t := SkipBlanks(text);
    if t == "" || t[0] != '[' then None
    else
      var inside := SkipBlanks(t[1..]);
      if inside != "" && inside[0] == ']' then (if SkipBlanks(inside[1..]) == "" then Some([]) else None)
      else ReadItems(t[1..])
  }

  // ----- the texts of a list of strings, by RFC 8259 sections 2, 5 and 7 -----

  /** A decimal digit, or one of the letters for ten to fifteen in either case. */
  predicate IsDigitOf(c: char, n: int) {
    || ('0' <= c <= '9' && n == c as int - 48)
    || ('a' <= c <= 'f' && n == c as int - 87)
    || ('A' <= c <= 'F' && n == c as int - 55)
  }

  /** Four hexadecimal digits. */
  datatype Hex = Hex(a: char, b: char, c: char, d: char)

  function HexText(h: Hex): string {
    [h.a, h.b, h.c, h.d]
  }

  predicate HasDigits(h: Hex, a: int, b: int, c: int, d: int) {
    IsDigitOf(h.a, a) && IsDigitOf(h.b, b) && IsDigitOf(h.c, c) && IsDigitOf(h.d, d)
  }

  ghost predicate IsNumber(h: Hex, n: int) {
    exists a, b, c, d :: HasDigits(h, a, b, c, d) && n == 4096 * a + 256 * b + 16 * c + d
  }

  /** The ways to write a character in a string literal: as it is, with a short escape, as a code
      unit or as a pair of surrogates. */
  datatype Glyph = AsIs(c: char) | Short(letter: char) | Unit(hex: Hex) | Pair(high: Hex, low: Hex)

  function GlyphText(g: Glyph): string {
    match g
    case AsIs(c) => [c]
    case Short(letter) => ['\\', letter]
    case Unit(hex) => ['\\', 'u'] + HexText(hex)
    case Pair(high, low) => ['\\', 'u'] + (HexText(high) + (['\\', 'u'] + HexText(low)))
  }

  /** The short escapes. */
  const ESCAPES: seq<(char, char)> :=
    [('"', '"'), ('\\', '\\'), ('/', '/'), ('b', '\U{8}'), ('f', '\U{C}'), ('n', '\n'), ('r', '\r'), ('t', '\t')]

  ghost predicate Means(g: Glyph, c: char) {
    match g
    case AsIs(d) => c == d && c >= ' ' && c != '"' && c != '\\'
    case Short(letter) => (letter, c) in ESCAPES
    case Unit(hex) => IsNumber(hex, c as int)
    case Pair(high, low) => exists h, l :: IsPair(high, low, h, l, c)
  }

  ghost predicate IsPair(high: Hex, low: Hex, h: int, l: int, c: char) {
    && IsNumber(high, h) && IsNumber(low, l) && 0xD800 <= h < 0xDC00 && 0xDC00 <= l < 0xE000
    && c as int == 0x10000 + 0x400 * (h - 0xD800) + (l - 0xDC00)
  }

  function BodyText(glyphs: seq<Glyph>): string {
    if glyphs == [] then "" else GlyphText(glyphs[0]) + BodyText(glyphs[1..])
  }

  /** The glyphs write the string, one for each character. */
  ghost predicate Write(glyphs: seq<Glyph>, s: string) {
    |glyphs| == |s| && forall k | 0 <= k < |s| :: Means(glyphs[k], s[k])
  }

  ghost predicate IsBodyFor(body: string, s: string) {
    exists glyphs :: Write(glyphs, s) && body == BodyText(glyphs)
  }

  /** The items of a list, the first of them written like this, and the closing bracket. */
  ghost predicate AreItems(s: string, names: seq<string>)
    decreases |names|
  {
    names != [] && exists before, body, after, tail :: BeginWith(s, names, before, body, after, tail)
  }

  ghost predicate BeginWith(s: string, names: seq<string>, before: string, body: string, after: string, tail: string)
    requires names != []
    decreases |names|, 0
  {
    && s == before + (Quoted(body) + (after + tail)) && Blank(before) && Blank(after) && IsBodyFor(body, names[0])
    && if |names| == 1 then IsEnd(tail) else tail != "" && tail[0] == ',' && AreItems(tail[1..], names[1..])
  }

  predicate IsEnd(s: string) {
    s != "" && s[0] == ']' && Blank(s[1..])
  }

  ghost predicate IsListOf(text: string, names: seq<string>) {
    exists before, inside :: text == before + ("[" + inside) && Blank(before)
      && if names == [] then exists pad, end :: inside == pad + end && Blank(pad) && IsEnd(end) else AreItems(inside, names)
  }

  // ----- the parser accepts exactly these texts -----

  lemma {:induction false} HexValueMeans(c: char, n: int)
    ensures HexValue(c) == Some(n) <==> IsDigitOf(c, n)
  {
  }

  /** The number of four digits, as ReadHex takes them. */
  function ValueOf(h: Hex): Option<int> {
    var a, b, c, d := HexValue(h.a), HexValue(h.b), HexValue(h.c), HexValue(h.d);
    if a.None? || b.None? || c.None? || d.None? then None
    else Some(4096 * a.value + 256 * b.value + 16 * c.value + d.value)
  }

  lemma {:induction false} ReadHexIsValue(h: Hex, s: string, rest: string)
    requires s == HexText(h) + rest
    ensures ReadHex(s) == ValueOf(h)
  {
    assert s[0] == h.a && s[1] == h.b && s[2] == h.c && s[3] == h.d;
  }

  lemma {:induction false} ValueMeans(h: Hex, n: int)
    ensures ValueOf(h) == Some(n) <==> IsNumber(h, n)
  {
    if ValueOf(h) == Some(n) {
      ReadHasDigits(h, HexValue(h.a).value, HexValue(h.b).value, HexValue(h.c).value, HexValue(h.d).value);
    }
    if IsNumber(h, n) {
      var a, b, c, d :| HasDigits(h, a, b, c, d) && n == 4096 * a + 256 * b + 16 * c + d;
      ReadHasDigits(h, a, b, c, d);
    }
  }

  lemma {:induction false} ReadHexMeans(h: Hex, rest: string, n: int)
    ensures ReadHex(HexText(h) + rest) == Some(n) <==> IsNumber(h, n)
  {
    ReadHexIsValue(h, HexText(h) + rest, rest);
    ValueMeans(h, n);
  }

  lemma {:induction false} ReadHasDigits(h: Hex, a: int, b: int, c: int, d: int)
    ensures HasDigits(h, a, b, c, d) <==>
      HexValue(h.a) == Some(a) && HexValue(h.b) == Some(b) && HexValue(h.c) == Some(c) && HexValue(h.d) == Some(d)
  {
    HexValueMeans(h.a, a);
    HexValueMeans(h.b, b);
    HexValueMeans(h.c, c);
    HexValueMeans(h.d, d);
  }

  lemma {:induction false} ReadGlyph(g: Glyph, c: char, rest: string)
    requires Means(g, c)
    ensures ReadChar(GlyphText(g) + rest) == Some((c, rest))
  {
    var s := GlyphText(g) + rest;
    match g
    case AsIs(_) => ReadAsIs(c, s, rest);
    case Short(letter) => ReadShort(letter, c, s, rest);
    case Unit(hex) => ReadUnitGlyph(hex, c, s, rest);
    case Pair(high, low) => ReadPairGlyph(high, low, c, s, rest);
  }

  lemma {:induction false} ReadAsIs(c: char, s: string, rest: string)
    requires c >= ' ' && c != '"' && c != '\\' && s == [c] + rest
    ensures ReadChar(s) == Some((c, rest))
  {
    assert s[1..] == rest;
  }

  lemma {:induction false} ReadUnitGlyph(hex: Hex, c: char, s: string, rest: string)
    requires IsNumber(hex, c as int) && s == GlyphText(Unit(hex)) + rest
    ensures ReadChar(s) == Some((c, rest))
  {
    ReadHexMeans(hex, rest, c as int);
    ReadEscaped(s, HexText(hex) + rest, HexText(hex), rest);
  }

  lemma {:induction false} ReadPairGlyph(high: Hex, low: Hex, c: char, s: string, rest: string)
    requires Means(Pair(high, low), c) && s == GlyphText(Pair(high, low)) + rest
    ensures ReadChar(s) == Some((c, rest))
  {
    var h, l :| IsPair(high, low, h, l, c);
    var next := ['\\', 'u'] + (HexText(low) + rest);
    ReadPair(high, low, h, l, c, rest, next);
    PairOpens(s, HexText(high), HexText(low), rest);
    ReadEscaped(s, HexText(high) + next, HexText(high), next);
  }

  lemma {:induction false} PairOpens(s: string, high: string, low: string, rest: string)
    requires s == ['\\', 'u'] + (high + (['\\', 'u'] + low)) + rest
    ensures s == ['\\', 'u'] + (high + (['\\', 'u'] + (low + rest)))
  {
  }

  lemma {:induction false} ReadShort(letter: char, c: char, s: string, rest: string)
    requires (letter, c) in ESCAPES && s == ['\\', letter] + rest
    ensures ReadChar(s) == Some((c, rest))
  {
    assert s[2..] == rest;
  }

  /** Behind a backslash and a u. */
  lemma {:induction false} ReadEscaped(s: string, t: string, digits: string, rest: string)
    requires s == ['\\', 'u'] + t && t == digits + rest && |digits| == 4
    ensures ReadChar(s) == ReadUnit(t) && t[4..] == rest
  {
    assert s[2..] == t;
  }

  lemma {:induction false} ReadPair(high: Hex, low: Hex, h: int, l: int, c: char, rest: string, next: string)
    requires IsPair(high, low, h, l, c) && next == ['\\', 'u'] + (HexText(low) + rest)
    ensures ReadUnit(HexText(high) + next) == Some((c, rest))
  {
    var s := HexText(high) + next;
    ReadHexMeans(high, next, h);
    ReadHexMeans(low, rest, l);
    SlicesOfPair(s, HexText(high), next, HexText(low), rest);
  }

  lemma {:induction false} SlicesOfPair(s: string, high: string, next: string, low: string, rest: string)
    requires s == high + next && next == ['\\', 'u'] + (low + rest) && |high| == |low| == 4
    ensures s[4..] == next && "\\u" <= next && s[6..] == low + rest && s[10..] == rest
  {
    assert next[..2] == "\\u";
    assert s[6..] == next[2..];
  }

  lemma {:induction false} HexOf(s: string) returns (h: Hex)
    requires |s| >= 4
    ensures s == HexText(h) + s[4..]
  {
    h := Hex(s[0], s[1], s[2], s[3]);
  }

  lemma {:induction false} ReadIsGlyph(s: string) returns (g: Glyph)
    requires ReadChar(s).Some?
    ensures s == GlyphText(g) + ReadChar(s).value.1 && Means(g, ReadChar(s).value.0)
  {
    if s[0] != '\\' {
      g := AsIs(s[0]);
    } else if s[1] != 'u' {
      g := Short(s[1]);
      ShortEscape(s, ReadChar(s).value.0);
    } else {
      g := UnitIsGlyph(s[2..]);
      assert s == ['\\', 'u'] + s[2..];
    }
  }

  lemma {:induction false} ShortEscape(s: string, c: char)
    requires |s| >= 2 && s[0] == '\\' && s[1] != 'u' && ReadChar(s).Some? && ReadChar(s).value.0 == c
    ensures (s[1], c) in ESCAPES
  {
    var k := match s[1]
      case '"' => 0
      case '\\' => 1
      case '/' => 2
      case 'b' => 3
      case 'f' => 4
      case 'n' => 5
      case 'r' => 6
      case _ => 7;
    assert ESCAPES[k] == (s[1], c);
  }

  lemma {:induction false} UnitIsGlyph(t: string) returns (g: Glyph)
    requires ReadUnit(t).Some?
    ensures ['\\', 'u'] + t == GlyphText(g) + ReadUnit(t).value.1 && Means(g, ReadUnit(t).value.0)
  {
    var unit := ReadHex(t).value;
    var hex := HexOf(t);
    ReadHexMeans(hex, t[4..], unit);
    if unit < 0xD800 || 0xE000 <= unit {
      g := Unit(hex);
    } else {
      var low := HexOf(t[6..]);
      ReadHexMeans(low, t[10..], ReadHex(t[6..]).value);
      g := Pair(hex, low);
      PairIsThere(t, hex, low);
      assert IsPair(hex, low, unit, ReadHex(t[6..]).value, ReadUnit(t).value.0);
    }
  }

  lemma {:induction false} PairIsThere(t: string, high: Hex, low: Hex)
    requires |t| >= 10 && "\\u" <= t[4..] && t == HexText(high) + t[4..] && t[6..] == HexText(low) + t[6..][4..]
    ensures ['\\', 'u'] + t == GlyphText(Pair(high, low)) + t[10..]
  {
    assert t[4..] == ['\\', 'u'] + t[6..];
    assert t[6..][4..] == t[10..];
  }

  lemma {:induction false} ReadBody(glyphs: seq<Glyph>, s: string, tail: string)
    requires Write(glyphs, s)
    ensures ReadString(BodyText(glyphs) + ("\"" + tail)) == Some((s, tail))
    decreases |s|
  {
    if s == "" {
      assert BodyText(glyphs) + ("\"" + tail) == "\"" + tail;
    } else {
      ReadBody(glyphs[1..], s[1..], tail);
      ReadOneMore(glyphs[0], s[0], BodyText(glyphs[1..]) + ("\"" + tail), s[1..], tail);
      assert BodyText(glyphs) + ("\"" + tail) == GlyphText(glyphs[0]) + (BodyText(glyphs[1..]) + ("\"" + tail));
      assert s == [s[0]] + s[1..];
    }
  }

  lemma {:induction false} ReadOneMore(g: Glyph, c: char, next: string, more: string, tail: string)
    requires Means(g, c) && ReadString(next) == Some((more, tail))
    ensures ReadString(GlyphText(g) + next) == Some(([c] + more, tail))
  {
    ReadGlyph(g, c, next);
  }

  lemma {:induction false} ReadIsBody(t: string) returns (glyphs: seq<Glyph>)
    requires ReadString(t).Some?
    ensures Write(glyphs, ReadString(t).value.0) && t == BodyText(glyphs) + ("\"" + ReadString(t).value.1)
    decreases |t|
  {
    if t[0] == '"' {
      glyphs := [];
      assert t == "\"" + t[1..];
    } else {
      ReadCharShrinks(t);
      var g := ReadIsGlyph(t);
      var rest := ReadIsBody(ReadChar(t).value.1);
      glyphs := [g] + rest;
      BodyGoesOn(g, rest, t, ReadChar(t).value.1, "\"" + ReadString(t).value.1);
    }
  }

  lemma {:induction false} BodyGoesOn(g: Glyph, rest: seq<Glyph>, t: string, next: string, tail: string)
    requires t == GlyphText(g) + next && next == BodyText(rest) + tail
    ensures t == BodyText([g] + rest) + tail
  {
    assert ([g] + rest)[1..] == rest;
    assert t == (GlyphText(g) + BodyText(rest)) + tail;
  }

  lemma {:induction false} SkipsBlank(b: string, rest: string)
    requires Blank(b) && (rest == "" || !IsJsonSpace(rest[0]))
    ensures SkipBlanks(b + rest) == rest
    decreases |b|
  {
    if b == "" {
      assert b + rest == rest;
    } else {
      SkipsBlank(b[1..], rest);
      assert (b + rest)[1..] == b[1..] + rest;
    }
  }

  lemma {:induction false} SkippedIsBlank(s: string) returns (b: string)
    ensures s == b + SkipBlanks(s) && Blank(b)
    ensures SkipBlanks(s) != "" ==> !IsJsonSpace(SkipBlanks(s)[0])
  {
    b := "";
    if s != "" && IsJsonSpace(s[0]) {
      var rest := SkippedIsBlank(s[1..]);
      b := [s[0]] + rest;
      assert s == [s[0]] + s[1..];
    }
  }

  lemma {:induction false} EndMeans(s: string)
    ensures IsEnd(s) <==> s != "" && s[0] == ']' && SkipBlanks(s[1..]) == ""
  {
    if s != "" {
      var b := SkippedIsBlank(s[1..]);
      if IsEnd(s) {
        SkipsBlank(s[1..], "");
        assert s[1..] + "" == s[1..];
      }
    }
  }

  lemma {:induction false} ReadListed(s: string, names: seq<string>)
    requires AreItems(s, names)
    ensures ReadItems(s) == Some(names)
    decreases |names|, 1
  {
    var before, body, after, tail :| BeginWith(s, names, before, body, after, tail);
    var rest := after + tail;
    ReadFirst(s, names[0], before, body, rest);
    assert s == before + (Quoted(body) + rest);
    if |names| == 1 {
      EndMeans(tail);
      SkipsBlank(after, tail);
      assert names == [names[0]];
      LastItem(s, body, names[0], after, tail);
    } else {
      ReadListed(tail[1..], names[1..]);
      SkipsBlank(after, tail);
      assert names == [names[0]] + names[1..];
      OneMoreItem(s, body, names[0], after, tail, names[1..]);
    }
  }

  lemma {:induction false} ReadFirst(s: string, name: string, before: string, body: string, rest: string)
    requires s == before + (Quoted(body) + rest) && Blank(before) && IsBodyFor(body, name)
    ensures SkipBlanks(s) == Quoted(body) + rest && ReadString(body + ("\"" + rest)) == Some((name, rest))
  {
    var glyphs :| Write(glyphs, name) && body == BodyText(glyphs);
    ReadBody(glyphs, name, rest);
    SkipsBlank(before, Quoted(body) + rest);
  }

  lemma {:induction false} LastItem(s: string, body: string, name: string, after: string, tail: string)
    requires SkipBlanks(s) == Quoted(body) + (after + tail) && ReadString(body + ("\"" + (after + tail))) == Some((name, after + tail))
    requires SkipBlanks(after + tail) == tail && tail != "" && tail[0] == ']' && SkipBlanks(tail[1..]) == ""
    ensures ReadItems(s) == Some([name])
  {
    assert SkipBlanks(s)[1..] == body + ("\"" + (after + tail));
  }

  lemma {:induction false} OneMoreItem(s: string, body: string, name: string, after: string, tail: string, names: seq<string>)
    requires SkipBlanks(s) == Quoted(body) + (after + tail) && ReadString(body + ("\"" + (after + tail))) == Some((name, after + tail))
    requires SkipBlanks(after + tail) == tail && tail != "" && tail[0] == ',' && ReadItems(tail[1..]) == Some(names)
    ensures ReadItems(s) == Some([name] + names)
  {
    assert SkipBlanks(s)[1..] == body + ("\"" + (after + tail));
  }

  lemma {:induction false} ReadIsListed(s: string)
    requires ReadItems(s).Some?
    ensures AreItems(s, ReadItems(s).value)
    decreases |s|
  {
    var before := SkippedIsBlank(s);
    var t := SkipBlanks(s);
    var (name, rest) := ReadString(t[1..]).value;
    var glyphs := ReadIsBody(t[1..]);
    var body := BodyText(glyphs);
    var after := SkippedIsBlank(rest);
    var tail := SkipBlanks(rest);
    assert t == Quoted(body) + rest && s == before + (Quoted(body) + (after + tail));
    if tail[0] == ']' {
      EndMeans(tail);
      assert BeginWith(s, [name], before, body, after, tail);
    } else {
      ReadStringShrinks(t[1..]);
      ReadIsListed(tail[1..]);
      var names := [name] + ReadItems(tail[1..]).value;
      assert names[1..] == ReadItems(tail[1..]).value;
      assert BeginWith(s, names, before, body, after, tail);
    }
  }

  /** Main result: the parser accepts exactly the JSON texts of lists of strings, however their
      characters and blanks are written, and reads those strings. */
  lemma {:induction false} ParseMeans(text: string, names: seq<string>)
    ensures Parse(text) == Some(names) <==> IsListOf(text, names)
  {
    if Parse(text) == Some(names) {
      ParsedIsList(text, names);
    }
    if IsListOf(text, names) {
      ListIsParsed(text, names);
    }
  }

  lemma {:induction false} ParsedIsList(text: string, names: seq<string>)
    requires Parse(text) == Some(names)
    ensures IsListOf(text, names)
  {
    var before := SkippedIsBlank(text);
    var inside := SkipBlanks(text)[1..];
    assert text == before + ("[" + inside);
    var pad := SkippedIsBlank(inside);
    var end := SkipBlanks(inside);
    EndMeans(end);
    if names != [] {
      ReadIsListed(inside);
    }
  }

  lemma {:induction false} ListIsParsed(text: string, names: seq<string>)
    requires IsListOf(text, names)
    ensures Parse(text) == Some(names)
  {
    var before, inside :| text == before + ("[" + inside) && Blank(before)
      && if names == [] then exists pad, end :: inside == pad + end && Blank(pad) && IsEnd(end) else AreItems(inside, names);
    SkipsBlank(before, "[" + inside);
    assert ("[" + inside)[1..] == inside;
    if names == [] {
      var pad, end :| inside == pad + end && Blank(pad) && IsEnd(end);
      SkipsBlank(pad, end);
      EndMeans(end);
    } else {
      ReadListed(inside, names);
      ItemsDoNotEnd(inside, names);
    }
  }

  lemma {:induction false} ItemsDoNotEnd(s: string, names: seq<string>)
    requires AreItems(s, names)
    ensures SkipBlanks(s) != "" && SkipBlanks(s)[0] == '"'
  {
    var before, body, after, tail :| BeginWith(s, names, before, body, after, tail);
    SkipsBlank(before, Quoted(body) + (after + tail));
  }

  // ----- stringify, then parse -----

  lemma {:induction false} EscapedIsGlyph(c: char) returns (g: Glyph)
    ensures EscapeChar(c) == GlyphText(g) && Means(g, c)
  {
    var piece := EscapeChar(c);
    if |piece| == 6 {
      var hi, lo := c as int / 16, c as int % 16;
      g := Unit(Hex('0', '0', HexDigit(hi), HexDigit(lo)));
      assert HasDigits(g.hex, 0, 0, hi, lo);
    } else if |piece| == 2 {
      g := Short(piece[1]);
      var k := if c == '"' then 0 else if c == '\\' then 1 else if c == '\U{8}' then 3 else if c == '\U{C}' then 4
               else if c == '\n' then 5 else if c == '\r' then 6 else 7;
      assert ESCAPES[k] == (piece[1], c);
    } else {
      g := AsIs(c);
    }
  }

  /** Of all ways to write a character stringify takes the shortest, with small hexadecimal digits. */
  lemma {:induction false} EscapeIsShortest(c: char, g: Glyph)
    requires Means(g, c)
    ensures |EscapeChar(c)| <= |GlyphText(g)|
    ensures |EscapeChar(c)| == 6 ==> forall k | 2 <= k < 6 :: !('A' <= EscapeChar(c)[k] <= 'F')
  {
    if g.Short? {
      ShortOnes(g.letter, c);
    }
  }

  lemma {:induction false} ShortOnes(letter: char, c: char)
    requires (letter, c) in ESCAPES
    ensures |EscapeChar(c)| <= 2
  {
    var k :| 0 <= k < |ESCAPES| && ESCAPES[k] == (letter, c);
  }

  lemma {:induction false} EscapedIsBody(s: string) returns (glyphs: seq<Glyph>)
    ensures Write(glyphs, s) && Escape(s) == BodyText(glyphs)
    decreases |s|
  {
    glyphs := [];
    if s != "" {
      var g := EscapedIsGlyph(s[0]);
      var rest := EscapedIsBody(s[1..]);
      glyphs := [g] + rest;
    }
  }

  lemma {:induction false} StringifiedAreItems(names: seq<string>)
    requires names != []
    ensures AreItems(StringifyItems(names) + "]", names)
    decreases |names|
  {
    var body := Escape(names[0]);
    var glyphs := EscapedIsBody(names[0]);
    var tail := if |names| == 1 then "]" else "," + (StringifyItems(names[1..]) + "]");
    if |names| > 1 {
      StringifiedAreItems(names[1..]);
      assert tail[1..] == StringifyItems(names[1..]) + "]";
    }
    ItemsBegin(names, StringifyItems(names) + "]", body, tail);
  }

  lemma {:induction false} ItemsBegin(names: seq<string>, s: string, body: string, tail: string)
    requires names != [] && s == Quoted(body) + tail && IsBodyFor(body, names[0])
    requires if |names| == 1 then IsEnd(tail) else tail != "" && tail[0] == ',' && AreItems(tail[1..], names[1..])
    ensures AreItems(s, names)
  {
    var none := "";
    assert s == none + (Quoted(body) + (none + tail));
    assert BeginWith(s, names, none, body, none, tail);
  }

  /** Parsing what stringify wrote gives the names back, whatever characters they hold. */
  lemma {:induction false} ParseOfStringify(names: seq<string>)
    ensures IsListOf(Stringify(names), names) && Parse(Stringify(names)) == Some(names)
  {
    var inside := StringifyItems(names) + "]";
    assert Stringify(names) == "" + ("[" + inside);
    if names == [] {
      assert inside == "" + "]" && IsEnd("]");
    } else {
      StringifiedAreItems(names);
    }
    ParseMeans(Stringify(names), names);
  }

  // ----- sizes -----

  lemma {:induction false} EncodeIsAtLeastAsLong(s: string)
    ensures |EncodeUtf8(s)| >= |s|
    decreases |s|
  {
    if s != "" {
      EncodeIsAtLeastAsLong(s[1..]);
    }
  }

  lemma {:induction false} ItemsAreLong(names: seq<string>)
    ensures |StringifyItems(names)| >= 3 * |names| - 1
    decreases |names|
  {
    if |names| > 1 {
      ItemsAreLong(names[1..]);
    }
  }

  /** Every name takes at least three bytes of the palette. */
  lemma {:induction false} PaletteSize(names: seq<string>)
    ensures |EncodeUtf8(Stringify(names))| >= 3 * |names| + 1
  {
    EncodeIsAtLeastAsLong(Stringify(names));
    ItemsAreLong(names);
  }
}
