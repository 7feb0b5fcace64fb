/** The incremental block scanner of the local build parser: it cuts the block objects
    out of a JSON text with a hand-written character machine, before (and often instead
    of) a full parse. */
module BlockScanner {
  import opened JsonText

  // ----- the character machine of streamBlocksFromText -----

  /** `cuts` holds the [start, end) slices handed to the block parser so far. */
  datatype Scan = Scan(
    inString: bool, escaped: bool, started: bool, done: bool,
    arrayDepth: int, objectDepth: int, objectStart: int,
    cuts: seq<(int, int)>)

  const INITIAL: Scan := Scan(false, false, false, false, 0, 0, -1, [])

  function Step(st: Scan, i: int, ch: char): Scan {
    if st.done then st
    else if st.inString then
      if st.escaped then st.(escaped := false)
      else if ch == '\\' then st.(escaped := true)
      else if ch == '"' then st.(inString := false)
      else st
    else if ch == '"' then st.(inString := true)
    else if !st.started then
      if ch == '[' then st.(started := true, arrayDepth := 1) else st
    else if ch == '[' then
      if st.objectDepth == 0 then st.(arrayDepth := st.arrayDepth + 1) else st
    else if ch == ']' then
      if st.objectDepth == 0 then
        st.(arrayDepth := st.arrayDepth - 1, done := st.arrayDepth - 1 <= 0)
      else st
    else if ch == '{' then
      st.(objectStart := if st.objectDepth == 0 then i else st.objectStart,
          objectDepth := st.objectDepth + 1)
    else if ch == '}' then
      if st.objectDepth == 0 then st
      else if st.objectDepth == 1 && st.objectStart >= 0 then
        st.(objectDepth := 0, objectStart := -1, cuts := st.cuts + [(st.objectStart, i + 1)])
      else st.(objectDepth := st.objectDepth - 1)
    else st
  }

  /** The machine run over `s`, whose first character stands at position `i`. */
  function Run(st: Scan, i: int, s: string): Scan
    decreases |s|
  {
    if s == "" then st else Run(Step(st, i, s[0]), i + 1, s[1..])
  }

  lemma {:induction false} RunAppend(st: Scan, i: int, a: string, b: string)
    ensures Run(st, i, a + b) == Run(Run(st, i, a), i + |a|, b)
    decreases |a|
  {
    if a == "" {
      assert a + b == b;
    } else {
      assert (a + b)[1..] == a[1..] + b;
      RunAppend(Step(st, i, a[0]), i + 1, a[1..], b);
    }
  }

  lemma {:induction false} RunVia(st: Scan, i: int, a: string, mid: Scan, b: string)
    requires Run(st, i, a) == mid
    ensures Run(st, i, a + b) == Run(mid, i + |a|, b)
  {
    RunAppend(st, i, a, b);
  }

  lemma {:induction false} RunBlank(st: Scan, i: int, s: string)
    requires Blank(s) && !st.inString
    ensures Run(st, i, s) == st
    decreases |s|
  {
    if s != "" {
      RunBlank(st, i + 1, s[1..]);
    }
  }

  lemma {:induction false} RunScalar(st: Scan, i: int, s: string)
    requires forall k | 0 <= k < |s| :: IsScalarChar(s[k])
    requires !st.inString
    ensures Run(st, i, s) == st
    decreases |s|
  {
    if s != "" {
      RunScalar(st, i + 1, s[1..]);
    }
  }

  lemma {:induction false} RunBody(st: Scan, i: int, s: string)
    requires IsBody(s) && st.inString && !st.escaped && !st.done
    ensures Run(st, i, s) == st
    decreases |s|
  {
    if s != "" {
      if s[0] == '\\' {
        assert s[1..][1..] == s[2..];
        RunBody(st, i + 2, s[2..]);
      } else {
        RunBody(st, i + 1, s[1..]);
      }
    }
  }

  lemma {:induction false} RunQuoted(st: Scan, i: int, s: string)
    requires IsBody(s) && !st.inString && !st.escaped && !st.done
    ensures Run(st, i, Quoted(s)) == st
  {
    var quoted := st.(inString := true);
    assert Quoted(s)[1..] == s + "\"";
    RunAppend(quoted, i + 1, s, "\"");
    RunBody(quoted, i + 1, s);
  }

  /** Between two tokens of the array being streamed. */
  predicate Ready(st: Scan) {
    && !st.inString && !st.escaped && st.started && !st.done
    && st.arrayDepth >= 1 && st.objectDepth >= 0
    && (st.objectDepth == 0 ==> st.objectStart == -1)
    && (st.objectDepth > 0 ==> st.objectStart >= 0)
  }

  /** The slices of the outermost objects of a value printed at position `i`. */
  function Outermost(v: Json, i: int): seq<(int, int)> {
    match v
    case Object(_, _) => [(i, i + |Print(v)|)]
    case Array(pad, elements) => OutermostElements(elements, i + 1 + |pad|)
    case _ => []
  }

  function OutermostElements(es: Elements, i: int): seq<(int, int)> {
    match es
    case NoElements => []
    case Element(before, value, after, rest) =>
      Outermost(value, i + |before|)
      + OutermostElements(rest,
          i + |Padded(before, Print(value), after)| + |Separator(rest.Element?)|)
  }

  /** The state a value leaves: the same one, plus its outermost objects when the machine
      is not inside an object already. */
  function After(st: Scan, found: seq<(int, int)>): Scan {
    if st.objectDepth == 0 then st.(cuts := st.cuts + found) else st
  }

  lemma {:induction false} RunPadded(st: Scan, i: int, before: string, s: string, mid: Scan, after: string)
    requires Blank(before) && Blank(after) && !st.inString && !mid.inString
    requires Run(st, i + |before|, s) == mid
    ensures Run(st, i, Padded(before, s, after)) == mid
  {
    RunBlank(st, i, before);
    RunVia(st, i, before, st, s + after);
    RunVia(st, i + |before|, s, mid, after);
    RunBlank(mid, i + |before| + |s|, after);
  }

  /** A bracket, blanks, contents and the closing bracket. */
  lemma {:induction false} RunBracketed(st: Scan, i: int, left: char, inner: Scan, pad: string, s: string, last: Scan, tail: string)
    requires Run(st, i, [left]) == inner && !inner.inString && Blank(pad)
    requires Run(inner, i + 1 + |pad|, s) == last
    ensures Run(st, i, [left] + (pad + (s + tail))) == Run(last, i + 1 + |pad| + |s|, tail)
  {
    RunBlank(inner, i + 1, pad);
    RunVia(inner, i + 1 + |pad|, s, last, tail);
    RunVia(inner, i + 1, pad, inner, s + tail);
    RunVia(st, i, [left], inner, pad + (s + tail));
  }

  lemma {:induction false} RunOne(st: Scan, i: int, c: char)
    ensures Run(st, i, [c]) == Step(st, i, c)
  {
    assert [c][1..] == "";
  }

  lemma {:induction false} AfterTwice(st: Scan, a: seq<(int, int)>, b: seq<(int, int)>)
    ensures After(After(st, a), b) == After(st, a + b)
  {
    assert st.cuts + a + b == st.cuts + (a + b);
  }

  lemma {:induction false} RunValue(st: Scan, i: int, v: Json)
    requires Ready(st) && WellFormed(v) && i >= 0
    ensures Run(st, i, Print(v)) == After(st, Outermost(v, i))
    decreases v, 0
  {
    match v
    case Scalar(text) => RunScalar(st, i, text);
    case Text(body) => RunQuoted(st, i, body);
    case Array(pad, elements) => RunArray(st, i, pad, elements, Print(v));
    case Object(pad, members) => RunObject(st, i, pad, members, Print(v));
  }

  lemma {:induction false} RunArray(st: Scan, i: int, pad: string, es: Elements, text: string)
    requires Ready(st) && Blank(pad) && WellFormedElements(es) && i >= 0
    requires text == "[" + (pad + (PrintElements(es) + "]"))
    ensures Run(st, i, text) == After(st, OutermostElements(es, i + 1 + |pad|))
    decreases es, 1
  {
    RunElements(Deeper(st), i + 1 + |pad|, es);
    RunBrackets(st, i, pad, PrintElements(es), OutermostElements(es, i + 1 + |pad|), text);
  }

  /** The state just behind a `[`. */
  function Deeper(st: Scan): Scan {
    if st.objectDepth == 0 then st.(arrayDepth := st.arrayDepth + 1) else st
  }

  lemma {:induction false} RunBrackets(st: Scan, i: int, pad: string, inside: string, found: seq<(int, int)>, text: string)
    requires Ready(st) && Blank(pad) && text == "[" + (pad + (inside + "]"))
    requires Run(Deeper(st), i + 1 + |pad|, inside) == After(Deeper(st), found)
    ensures Run(st, i, text) == After(st, found)
  {
    RunOne(st, i, '[');
    RunBracketed(st, i, '[', Deeper(st), pad, inside, After(Deeper(st), found), "]");
    RunOne(After(Deeper(st), found), i + 1 + |pad| + |inside|, ']');
  }

  lemma {:induction false} RunObject(st: Scan, i: int, pad: string, ms: Members, text: string)
    requires Ready(st) && Blank(pad) && WellFormedMembers(ms) && i >= 0
    requires text == "{" + (pad + (PrintMembers(ms) + "}"))
    ensures Run(st, i, text) == After(st, [(i, i + |text|)])
    decreases ms, 1
  {
    RunMembers(Inside(st, i), i + 1 + |pad|, ms);
    RunBraces(st, i, pad, PrintMembers(ms), text);
  }

  /** The state just behind the `{` at `i`. */
  function Inside(st: Scan, i: int): Scan {
    st.(objectStart := if st.objectDepth == 0 then i else st.objectStart, objectDepth := st.objectDepth + 1)
  }

  lemma {:induction false} RunBraces(st: Scan, i: int, pad: string, inside: string, text: string)
    requires Ready(st) && Blank(pad) && i >= 0 && text == "{" + (pad + (inside + "}"))
    requires Run(Inside(st, i), i + 1 + |pad|, inside) == Inside(st, i)
    ensures Run(st, i, text) == After(st, [(i, i + |text|)])
  {
    RunOne(st, i, '{');
    RunBracketed(st, i, '{', Inside(st, i), pad, inside, Inside(st, i), "}");
    RunOne(Inside(st, i), i + 1 + |pad| + |inside|, '}');
  }

  lemma {:induction false} RunSeparator(st: Scan, i: int, more: bool)
    requires !st.inString
    ensures Run(st, i, Separator(more)) == st
  {
    if more {
      RunOne(st, i, ',');
    }
  }

  lemma {:induction false} RunElements(st: Scan, i: int, es: Elements)
    requires Ready(st) && WellFormedElements(es) && i >= 0
    ensures Run(st, i, PrintElements(es)) == After(st, OutermostElements(es, i))
    decreases es, 0
  {
    match es
    case NoElements => assert st.cuts + [] == st.cuts;
    case Element(before, value, after, rest) =>
      var found := Outermost(value, i + |before|);
      var next := i + |Padded(before, Print(value), after)| + |Separator(rest.Element?)|;
      RunValue(st, i + |before|, value);
      ReadyAfter(st, found);
      RunElements(After(st, found), next, rest);
      RunThenRest(st, i, before, Print(value), after, rest.Element?, PrintElements(rest), found, OutermostElements(rest, next),
                  PrintElements(es), OutermostElements(es, i));
  }

  lemma {:induction false} ReadyAfter(st: Scan, found: seq<(int, int)>)
    requires Ready(st)
    ensures Ready(After(st, found))
  {
  }

  lemma {:induction false} RunThenRest(st: Scan, i: int, before: string, s: string, after: string, more: bool, tail: string,
                                       found: seq<(int, int)>, rest: seq<(int, int)>, text: string, all: seq<(int, int)>)
    requires text == Padded(before, s, after) + (Separator(more) + tail) && all == found + rest
    requires Ready(st) && Blank(before) && Blank(after)
    requires Run(st, i + |before|, s) == After(st, found)
    requires Run(After(st, found), i + |Padded(before, s, after)| + |Separator(more)|, tail) == After(After(st, found), rest)
    ensures Run(st, i, text) == After(st, all)
  {
    RunItem(st, i, before, s, after, After(st, found), more, tail);
    AfterTwice(st, found, rest);
  }

  lemma {:induction false} RunJoined(st: Scan, i: int, item: string, mid: Scan, more: bool, tail: string)
    requires Run(st, i, item) == mid && !mid.inString
    ensures Run(st, i, item + (Separator(more) + tail))
         == Run(mid, i + |item| + |Separator(more)|, tail)
  {
    RunVia(st, i, item, mid, Separator(more) + tail);
    RunSeparator(mid, i + |item|, more);
    RunVia(mid, i + |item|, Separator(more), mid, tail);
  }

  /** An element or a member's value, with the blanks around it and its separator. */
  lemma {:induction false} RunItem(st: Scan, i: int, before: string, s: string, after: string, mid: Scan, more: bool, tail: string)
    requires Blank(before) && Blank(after) && !st.inString && !mid.inString
    requires Run(st, i + |before|, s) == mid
    ensures
      var item := Padded(before, s, after);
      Run(st, i, item + (Separator(more) + tail)) == Run(mid, i + |item| + |Separator(more)|, tail)
  {
    RunPadded(st, i, before, s, mid, after);
    RunJoined(st, i, Padded(before, s, after), mid, more, tail);
  }

  lemma {:induction false} RunKey(st: Scan, i: int, before: string, key: string, afterKey: string, tail: string)
    requires Ready(st) && Blank(before) && IsBody(key) && Blank(afterKey)
    ensures Run(st, i, Padded(before, Quoted(key), afterKey) + (":" + tail))
         == Run(st, i + |Padded(before, Quoted(key), afterKey)| + 1, tail)
  {
    var head := Padded(before, Quoted(key), afterKey);
    RunQuoted(st, i + |before|, key);
    RunPadded(st, i, before, Quoted(key), st, afterKey);
    RunVia(st, i, head, st, ":" + tail);
    RunOne(st, i + |head|, ':');
    RunVia(st, i + |head|, ":", st, tail);
  }

  lemma {:induction false} RunMembers(st: Scan, i: int, ms: Members)
    requires Ready(st) && WellFormedMembers(ms) && i >= 0 && st.objectDepth > 0
    ensures Run(st, i, PrintMembers(ms)) == st
    decreases ms, 0
  {
    match ms
    case NoMembers =>
    case Member(before, key, afterKey, beforeValue, value, after, rest) =>
      var name := i + |Padded(before, Quoted(key), afterKey)| + 1;
      var next := name + |Padded(beforeValue, Print(value), after)| + |Separator(rest.Member?)|;
      RunValue(st, name + |beforeValue|, value);
      RunMembers(st, next, rest);
      RunMember(st, i, before, key, afterKey, beforeValue, Print(value), after, rest.Member?, PrintMembers(rest));
  }

  lemma {:induction false} RunMember(st: Scan, i: int, before: string, key: string, afterKey: string,
                                     beforeValue: string, s: string, after: string, more: bool, tail: string)
    requires Ready(st) && Blank(before) && IsBody(key) && Blank(afterKey) && Blank(beforeValue) && Blank(after)
    requires
      var name := i + |Padded(before, Quoted(key), afterKey)| + 1;
      var next := name + |Padded(beforeValue, s, after)| + |Separator(more)|;
      Run(st, name + |beforeValue|, s) == st && Run(st, next, tail) == st
    ensures
      Run(st, i, Padded(before, Quoted(key), afterKey) + (":" + (Padded(beforeValue, s, after) + (Separator(more) + tail)))) == st
  {
    var item := Padded(beforeValue, s, after);
    RunKey(st, i, before, key, afterKey, item + (Separator(more) + tail));
    RunItem(st, i + |Padded(before, Quoted(key), afterKey)| + 1, beforeValue, s, after, st, more, tail);
  }
}
