/** parseTopLevelJsonObjects and extractFirstJsonObject: the objects of a text that may hold
    several JSON texts, one after the other. */
module TopLevelObjects {
  import opened JsonText
  import opened Options
  import opened BlockScanner
  import opened BlockStream

  datatype Top = Top(inString: bool, escaped: bool, depth: int, start: int, cuts: seq<(int, int)>)

  const FRESH: Top := Top(false, false, 0, -1, [])

  function TopStep(st: Top, i: int, ch: char): Top {
    if st.inString then
      if st.escaped then st.(escaped := false)
      else if ch == '\\' then st.(escaped := true)
      else if ch == '"' then st.(inString := false)
      else st
    else if ch == '"' then st.(inString := true)
    else if ch == '{' then
      st.(start := if st.depth == 0 then i else st.start, depth := st.depth + 1)
    else if ch == '}' then
      if st.depth == 0 then st
      else if st.depth == 1 && st.start >= 0 then
        st.(depth := 0, start := -1, cuts := st.cuts + [(st.start, i + 1)])
      else st.(depth := st.depth - 1)
    else st
  }

  function TopRun(st: Top, i: int, s: string): Top
    decreases |s|
  {
    if s == "" then st else TopRun(TopStep(st, i, s[0]), i + 1, s[1..])
  }

  lemma {:induction false} TopRunAppend(st: Top, i: int, a: string, b: string)
    ensures TopRun(st, i, a + b) == TopRun(TopRun(st, i, a), i + |a|, b)
    decreases |a|
  {
    if a == "" {
      assert a + b == b;
    } else {
      assert (a + b)[1..] == a[1..] + b;
      TopRunAppend(TopStep(st, i, a[0]), i + 1, a[1..], b);
    }
  }

  predicate TopSound(st: Top, i: int) {
    CutsWithin(st.cuts, 0, i) && (st.start == -1 || 0 <= st.start < i)
  }

  lemma {:induction false} TopRunIsSound(st: Top, i: int, s: string)
    requires TopSound(st, i) && i >= 0
    ensures TopSound(TopRun(st, i, s), i + |s|)
    decreases |s|
  {
    if s != "" {
      TopRunIsSound(TopStep(st, i, s[0]), i + 1, s[1..]);
    }
  }

  /** The slices of the objects at nesting depth zero, brackets not counted. */
  function TopCuts(text: string): (cuts: seq<(int, int)>)
    ensures CutsWithin(cuts, 0, |text|)
  {
    TopRunIsSound(FRESH, 0, text);
    TopRun(FRESH, 0, text).cuts
  }

  // ----- the two machines agree -----

  function Forget(st: Scan): Top {
    Top(st.inString, st.escaped, st.objectDepth, st.objectStart, st.cuts)
  }

  /** Inside an array the block scanner does what this machine does. */
  lemma {:induction false} ScanSimulatesTop(st: Scan, i: int, s: string)
    requires st.started && !Run(st, i, s).done
    ensures Forget(Run(st, i, s)) == TopRun(Forget(st), i, s)
    decreases |s|
  {
    if s != "" {
      if st.done {
        RunWhenDone(st, i, s);
      }
      if Step(st, i, s[0]).done {
        RunWhenDone(Step(st, i, s[0]), i + 1, s[1..]);
      }
      ScanSimulatesTop(Step(st, i, s[0]), i + 1, s[1..]);
    }
  }

  lemma {:induction false} TopRunValue(cuts: seq<(int, int)>, i: int, v: Json)
    requires WellFormed(v) && i >= 0
    ensures TopRun(FRESH.(cuts := cuts), i, Print(v)) == FRESH.(cuts := cuts + Outermost(v, i))
  {
    var st := INITIAL.(started := true, arrayDepth := 1, cuts := cuts);
    RunValue(st, i, v);
    ScanSimulatesTop(st, i, Print(v));
  }

  lemma {:induction false} TopRunBlank(st: Top, i: int, s: string)
    requires Blank(s) && !st.inString
    ensures TopRun(st, i, s) == st
    decreases |s|
  {
    if s != "" {
      TopRunBlank(st, i + 1, s[1..]);
    }
  }

  /** Several JSON texts in a row, each with blanks around it. */
  function PrintTexts(docs: Elements): string {
    match docs
    case NoElements => ""
    case Element(before, v, after, rest) => Padded(before, Print(v), after) + PrintTexts(rest)
  }

  function OutermostOfTexts(docs: Elements, i: int): seq<(int, int)> {
    match docs
    case NoElements => []
    case Element(before, v, after, rest) =>
      Outermost(v, i + |before|) + OutermostOfTexts(rest, i + |Padded(before, Print(v), after)|)
  }

  lemma {:induction false} TopRunPadded(cuts: seq<(int, int)>, i: int, before: string, v: Json, after: string)
    requires Blank(before) && WellFormed(v) && Blank(after) && i >= 0
    ensures TopRun(FRESH.(cuts := cuts), i, Padded(before, Print(v), after))
         == FRESH.(cuts := cuts + Outermost(v, i + |before|))
  {
    var st := FRESH.(cuts := cuts);
    TopRunAppend(st, i, before, Print(v) + after);
    TopRunBlank(st, i, before);
    TopRunAppend(st, i + |before|, Print(v), after);
    TopRunValue(cuts, i + |before|, v);
    TopRunBlank(st.(cuts := cuts + Outermost(v, i + |before|)), i + |before| + |Print(v)|, after);
  }

  lemma {:induction false} TopRunTexts(cuts: seq<(int, int)>, i: int, docs: Elements)
    requires WellFormedElements(docs) && i >= 0
    ensures TopRun(FRESH.(cuts := cuts), i, PrintTexts(docs))
         == FRESH.(cuts := cuts + OutermostOfTexts(docs, i))
    decreases docs
  {
    match docs
    case NoElements => assert cuts + [] == cuts;
    case Element(before, v, after, rest) =>
      var here := Outermost(v, i + |before|);
      var next := i + |Padded(before, Print(v), after)|;
      TopRunPadded(cuts, i, before, v, after);
      TopRunTexts(cuts + here, next, rest);
      TopRunInTwo(cuts, i, Padded(before, Print(v), after), here, PrintTexts(rest), OutermostOfTexts(rest, next),
                  PrintTexts(docs), OutermostOfTexts(docs, i));
  }

  lemma {:induction false} TopRunInTwo(cuts: seq<(int, int)>, i: int, a: string, here: seq<(int, int)>,
                                       b: string, more: seq<(int, int)>, text: string, all: seq<(int, int)>)
    requires text == a + b && all == here + more
    requires TopRun(FRESH.(cuts := cuts), i, a) == FRESH.(cuts := cuts + here)
    requires TopRun(FRESH.(cuts := cuts + here), i + |a|, b) == FRESH.(cuts := cuts + here + more)
    ensures TopRun(FRESH.(cuts := cuts), i, text) == FRESH.(cuts := cuts + all)
  {
    TopRunAppend(FRESH.(cuts := cuts), i, a, b);
    assert cuts + here + more == cuts + all;
  }

  lemma {:induction false} TextsOfTexts(text: string, i: int, docs: Elements)
    requires StandsAt(text, i, PrintTexts(docs))
    ensures SlicesAre(text, OutermostOfTexts(docs, i), TextsOfElements(docs))
    decreases docs
  {
    match docs
    case NoElements =>
    case Element(before, v, after, rest) =>
      var item := Padded(before, Print(v), after);
      PartsStandAt(text, i, item, PrintTexts(rest));
      MiddleStandsAt(text, i, before, Print(v), after);
      OutermostTexts(text, i + |before|, v);
      TextsOfTexts(text, i + |item|, rest);
      SlicesAppend(text, Outermost(v, i + |before|), Texts(v),
                   OutermostOfTexts(rest, i + |item|), TextsOfElements(rest));
  }

  /** Main result: over any row of JSON texts, the slices are the outermost objects of all
      of them in order, whatever their strings and arrays hold. */
  lemma {:induction false} TopCutsOutermost(docs: Elements)
    requires WellFormedElements(docs)
    ensures Slices(PrintTexts(docs), TopCuts(PrintTexts(docs))) == TextsOfElements(docs)
  {
    var text := PrintTexts(docs);
    TopRunTexts([], 0, docs);
    assert [] + OutermostOfTexts(docs, 0) == OutermostOfTexts(docs, 0);
    assert text[0..|text|] == text;
    TextsOfTexts(text, 0, docs);
  }

  // ----- the parses -----

  /** The slices parsed one after the other until `limit` of them have been accepted. */
  function ParsedUpTo<T>(parse: string -> Option<T>, slices: seq<string>, limit: int, found: seq<T>): seq<T> {
    if slices == [] then found
    else
      var now := found + match parse(slices[0]) case Some(v) => [v] case None => [];
      if |now| >= limit then now else ParsedUpTo(parse, slices[1..], limit, now)
  }

  lemma {:induction false} ParsedHead<T>(parse: string -> Option<T>, slices: seq<string>)
    requires slices != []
    ensures Parsed(parse, slices)
      == (match parse(slices[0]) case Some(v) => [v] case None => []) + Parsed(parse, slices[1..])
    decreases |slices|
  {
    if |slices| > 1 {
      var init := slices[..|slices| - 1];
      assert init[1..] == slices[1..][..|slices[1..]| - 1];
      ParsedHead(parse, init);
    }
  }

  /** The limit keeps a prefix of what can be parsed at all. */
  lemma {:induction false} LimitKeepsPrefix<T>(parse: string -> Option<T>, slices: seq<string>, limit: int, found: seq<T>)
    requires |found| < limit
    ensures
      var all := found + Parsed(parse, slices);
      ParsedUpTo(parse, slices, limit, found) == if |all| <= limit then all else all[..limit]
    decreases |slices|
  {
    if slices != [] {
      ParsedHead(parse, slices);
      var here := match parse(slices[0]) case Some(v) => [v] case None => [];
      assert found + (here + Parsed(parse, slices[1..])) == found + here + Parsed(parse, slices[1..]);
      if |found + here| < limit {
        LimitKeepsPrefix(parse, slices[1..], limit, found + here);
      }
    }
  }

  lemma {:induction false} ParsedUpToMore<T>(parse: string -> Option<T>, a: seq<string>, b: seq<string>, limit: int, found: seq<T>)
    ensures
      var first := ParsedUpTo(parse, a, limit, found);
      ParsedUpTo(parse, a + b, limit, found)
      == if a != [] && |first| >= limit then first else ParsedUpTo(parse, b, limit, first)
    decreases |a|
  {
    if a == [] {
      assert a + b == b;
    } else {
      assert (a + b)[1..] == a[1..] + b;
      var now := found + match parse(a[0]) case Some(v) => [v] case None => [];
      if |now| < limit {
        ParsedUpToMore(parse, a[1..], b, limit, now);
      }
    }
  }

  function TopSlices(text: string): seq<string> {
    Slices(text, TopCuts(text))
  }

  /** The machine's state after the text up to `i`. */
  predicate TopReached(text: string, i: int, st: Top) {
    0 <= i <= |text| && st == TopRun(FRESH, 0, text[..i]) && TopSound(st, i)
  }

  lemma {:induction false} TopAdvance(text: string, i: nat, st: Top)
    requires i < |text| && TopReached(text, i, st)
    ensures TopReached(text, i + 1, TopStep(st, i, text[i]))
  {
    assert text[..i + 1] == text[..i] + [text[i]];
    TopRunAppend(FRESH, 0, text[..i], [text[i]]);
    assert [text[i]][1..] == "";
  }

  /** What follows only adds slices. */
  lemma {:induction false} TopRunExtends(st: Top, i: int, s: string)
    ensures st.cuts <= TopRun(st, i, s).cuts
    decreases |s|
  {
    if s != "" {
      TopRunExtends(TopStep(st, i, s[0]), i + 1, s[1..]);
    }
  }

  lemma {:induction false} StoppingEarly<T>(text: string, i: nat, st: Top, parse: string -> Option<T>, limit: int, parsed: seq<T>)
    requires TopReached(text, i, st)
    requires parsed == ParsedUpTo(parse, Slices(text, st.cuts), limit, [])
    requires st.cuts != [] && |parsed| >= limit
    ensures parsed == ParsedUpTo(parse, TopSlices(text), limit, [])
  {
    assert text == text[..i] + text[i..];
    TopRunAppend(FRESH, 0, text[..i], text[i..]);
    TopRunExtends(st, i, text[i..]);
    var cuts := TopCuts(text);
    var a, b := Slices(text, st.cuts), Slices(text, cuts[|st.cuts|..]);
    assert TopSlices(text) == a + b;
    ParsedUpToMore(parse, a, b, limit, []);
  }

  lemma {:induction false} ParseOneMore<T>(text: string, cuts: seq<(int, int)>, start: nat, end: nat, parse: string -> Option<T>,
                        limit: int, parsed: seq<T>)
    requires CutsWithin(cuts, 0, |text|) && start < end <= |text|
    requires parsed == ParsedUpTo(parse, Slices(text, cuts), limit, [])
    requires cuts == [] || |parsed| < limit
    ensures CutsWithin(cuts + [(start, end)], 0, |text|)
    ensures ParsedUpTo(parse, Slices(text, cuts + [(start, end)]), limit, [])
      == parsed + match parse(text[start..end]) case Some(v) => [v] case None => []
  {
    assert Slices(text, cuts + [(start, end)]) == Slices(text, cuts) + [text[start..end]];
    ParsedUpToMore(parse, Slices(text, cuts), [text[start..end]], limit, []);
  }

  /** The branches of the loop body; `closed` is where an object that ends here began. */
  method TopChar(ch: char, i: nat, inString: bool, escaped: bool, depth: int, start: int, ghost cuts: seq<(int, int)>)
    returns (inString': bool, escaped': bool, depth': int, start': int, closed: Option<int>)
    ensures TopStep(Top(inString, escaped, depth, start, cuts), i, ch)
      == Top(inString', escaped', depth', start', if closed.Some? then cuts + [(closed.value, i + 1)] else cuts)
    ensures closed.Some? ==> closed.value == start && start >= 0
  {
    inString', escaped', depth', start', closed := inString, escaped, depth, start, None;
    if inString {
      if escaped {
        escaped' := false;
      } else if ch == '\\' {
        escaped' := true;
      } else if ch == '"' {
        inString' := false;
      }
    } else if ch == '"' {
      inString' := true;
    } else if ch == '{' {
      if depth == 0 {
        start' := i;
      }
      depth' := depth + 1;
    } else if ch == '}' && depth != 0 {
      depth' := depth - 1;
      if depth' == 0 && start >= 0 {
        closed := Some(start);
        start' := -1;
      }
    }
  }

  /** The loop body up to there, at position i of the text. */
  method TopNext(text: string, i: nat, ghost st: Top, inString: bool, escaped: bool, depth: int, start: int,
                 ghost cuts: seq<(int, int)>)
    returns (ghost st': Top, inString': bool, escaped': bool, depth': int, start': int, closed: Option<int>)
    requires i < |text| && TopReached(text, i, st) && st == Top(inString, escaped, depth, start, cuts)
    ensures TopReached(text, i + 1, st')
    ensures st' == Top(inString', escaped', depth', start', if closed.Some? then cuts + [(closed.value, i + 1)] else cuts)
    ensures closed.Some? ==> 0 <= closed.value < i + 1
  {
    TopAdvance(text, i, st);
    st' := TopStep(st, i, text[i]);
    inString', escaped', depth', start', closed := TopChar(text[i], i, inString, escaped, depth, start, cuts);
  }

  lemma {:induction false} NothingParsed<T>(text: string, parse: string -> Option<T>, limit: int)
    ensures TopReached(text, 0, FRESH) && ParsedUpTo(parse, Slices(text, []), limit, []) == []
  {
  }

  method ParseTopLevelJsonObjects<T>(text: string, parse: string -> Option<T>, limit: int) returns (parsed: seq<T>)
    ensures parsed == ParsedUpTo(parse, TopSlices(text), limit, [])
  {
    parsed := [];
    var depth, start := 0, -1;
    var inString, escaped := false, false;
    ghost var st, cuts := FRESH, [];
    var i := 0;
    NothingParsed(text, parse, limit);
    while i < |text|
      invariant 0 <= i <= |text|
      invariant TopReached(text, i, st)
      invariant st == Top(inString, escaped, depth, start, cuts)
      invariant CutsWithin(cuts, 0, |text|)
      invariant parsed == ParsedUpTo(parse, Slices(text, cuts), limit, [])
      invariant cuts == [] || |parsed| < limit
    {
      var closed;
      st, inString, escaped, depth, start, closed := TopNext(text, i, st, inString, escaped, depth, start, cuts);
      if closed.Some? {
        ParseOneMore(text, cuts, closed.value, i + 1, parse, limit, parsed);
        match parse(text[closed.value..i + 1]) {
          case Some(value) => parsed := parsed + [value];
          case None =>
        }
        cuts := cuts + [(closed.value, i + 1)];
        if |parsed| >= limit {
          StoppingEarly(text, i + 1, st, parse, limit, parsed);
          return;
        }
      }
      i := i + 1;
    }
    assert text[..i] == text;
  }

  /** extractFirstJsonObject: the first slice that parses. */
  function ExtractFirst<T>(parse: string -> Option<T>, text: string): Option<T> {
    var parsed := Parsed(parse, TopSlices(text));
    if parsed == [] then None else Some(parsed[0])
  }
}
