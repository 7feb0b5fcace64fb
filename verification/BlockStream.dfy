/** streamBlocksFromText: what the character machine cuts out of a whole JSON text and out of any
    prefix of it, and the blocks it posts on the way. */
module BlockStream {
  import opened JsonText
  import opened Options
  import opened WhiteSpace
  import opened BlockScanner
  import opened ArrayFinder
  import opened PrimitiveGuard

  // ----- slices and blocks -----

  function Slices(text: string, cuts: seq<(int, int)>): seq<string>
    requires forall k | 0 <= k < |cuts| :: 0 <= cuts[k].0 <= cuts[k].1 <= |text|
  {
    seq(|cuts|, k requires 0 <= k < |cuts| => text[cuts[k].0..cuts[k].1])
  }

  /** The results of `parse` on the slices it accepts, in order. */
  function Parsed<T>(parse: string -> Option<T>, slices: seq<string>): seq<T> {
    if slices == [] then []
    else
      var rest := Parsed(parse, slices[..|slices| - 1]);
      match parse(slices[|slices| - 1])
      case Some(block) => rest + [block]
      case None => rest
  }

  // ----- streamBlocksFromText -----

  /** Every slice lies in the text read so far. */
  predicate CutsWithin(cuts: seq<(int, int)>, low: int, high: int) {
    forall k | 0 <= k < |cuts| :: low <= cuts[k].0 < cuts[k].1 <= high
  }

  predicate Sound(st: Scan, low: int, i: int) {
    && CutsWithin(st.cuts, low, i)
    && (st.objectStart == -1 || low <= st.objectStart < i)
  }

  lemma {:induction false} StepIsSound(st: Scan, low: int, i: int, ch: char)
    requires Sound(st, low, i) && 0 <= low <= i
    ensures Sound(Step(st, i, ch), low, i + 1)
  {
  }

  lemma {:induction false} RunIsSound(st: Scan, low: int, i: int, s: string)
    requires Sound(st, low, i) && 0 <= low <= i
    ensures Sound(Run(st, i, s), low, i + |s|)
    decreases |s|
  {
    if s != "" {
      StepIsSound(st, low, i, s[0]);
      RunIsSound(Step(st, i, s[0]), low, i + 1, s[1..]);
    }
  }

  /** The slices streamBlocksFromText hands to the block parser; None when it gives up. */
  function StreamCuts(text: string, field: string): (cuts: Option<seq<(int, int)>>)
    ensures cuts.Some? ==> CutsWithin(cuts.value, 0, |text|)
  {
    var start := Find(text, 0, field, false, false);
    FindIsAhead(text, 0, field, false, false);
    if HasPrimitives(text) || start < 0 then None
    else
      RunIsSound(INITIAL, 0, start, text[start..]);
      Some(Run(INITIAL, start, text[start..]).cuts)
  }

  /** The part of the slices that is complete in the first `n` characters. */
  function Closed(cuts: seq<(int, int)>, n: int): seq<(int, int)> {
    if cuts == [] then []
    else
      var last := cuts[|cuts| - 1];
      Closed(cuts[..|cuts| - 1], n) + if last.1 <= n then [last] else []
  }

  lemma {:induction false} ClosedIsAll(cuts: seq<(int, int)>, n: int)
    requires forall k | 0 <= k < |cuts| :: cuts[k].1 <= n
    ensures Closed(cuts, n) == cuts
  {
    if cuts != [] {
      ClosedIsAll(cuts[..|cuts| - 1], n);
    }
  }

  lemma {:induction false} ClosedAppend(a: seq<(int, int)>, b: seq<(int, int)>, n: int)
    ensures Closed(a + b, n) == Closed(a, n) + Closed(b, n)
    decreases |b|
  {
    if b == [] {
      assert a + b == a;
    } else {
      assert (a + b)[..|a + b| - 1] == a + b[..|b| - 1];
      ClosedAppend(a, b[..|b| - 1], n);
    }
  }

  lemma {:induction false} ClosedIsNone(cuts: seq<(int, int)>, n: int)
    requires forall k | 0 <= k < |cuts| :: n < cuts[k].1
    ensures Closed(cuts, n) == []
  {
    if cuts != [] {
      ClosedIsNone(cuts[..|cuts| - 1], n);
    }
  }

  /** A longer run only appends slices that end beyond where it started. */
  lemma {:induction false} RunExtends(st: Scan, i: int, s: string)
    ensures st.cuts <= Run(st, i, s).cuts
    ensures forall k | |st.cuts| <= k < |Run(st, i, s).cuts| :: i < Run(st, i, s).cuts[k].1
    decreases |s|
  {
    if s != "" {
      RunExtends(Step(st, i, s[0]), i + 1, s[1..]);
    }
  }

  lemma {:induction false} ClosedSplit(cuts: seq<(int, int)>, done: seq<(int, int)>, n: int)
    requires done <= cuts
    requires forall k | 0 <= k < |done| :: done[k].1 <= n
    requires forall k | |done| <= k < |cuts| :: n < cuts[k].1
    ensures Closed(cuts, n) == done
  {
    var later := cuts[|done|..];
    assert cuts == done + later;
    ClosedAppend(done, later, n);
    ClosedIsAll(done, n);
    ClosedIsNone(later, n);
  }

  /** Reading part of the text yields exactly the slices that are complete there. */
  lemma {:induction false} RunOfPrefix(start: nat, s: string, n: nat)
    requires n <= |s|
    ensures Run(INITIAL, start, s[..n]).cuts == Closed(Run(INITIAL, start, s).cuts, start + n)
  {
    var read, unread := s[..n], s[n..];
    assert s == read + unread;
    RunAppend(INITIAL, start, read, unread);
    RunIsSound(INITIAL, start, start, read);
    var mid := Run(INITIAL, start, read);
    RunExtends(mid, start + n, unread);
    ClosedSplit(Run(mid, start + n, unread).cuts, mid.cuts, start + n);
  }

  /** The array is found in a prefix as soon as its `[` is part of it. */
  lemma {:induction false} FindInPrefix(s: string, i: int, field: string, inString: bool, escaped: bool, n: nat)
    requires 0 <= i && n <= |s| && (escaped ==> inString)
    requires var p := Find(s, i, field, inString, escaped); i <= p < i + n
    ensures Find(s[..n], i, field, inString, escaped) == Find(s, i, field, inString, escaped)
    decreases |s|
  {
    var p := Find(s, i, field, inString, escaped);
    FindIsAhead(s, i, field, inString, escaped);
    assert |s[..n]| >= |Quoted(field)|;
    assert s[..n][1..] == s[1..][..n - 1];
    if inString {
      if escaped {
        FindInPrefix(s[1..], i + 1, field, true, false, n - 1);
      } else if s[0] == '\\' {
        FindInPrefix(s[1..], i + 1, field, true, true, n - 1);
      } else {
        FindInPrefix(s[1..], i + 1, field, s[0] != '"', false, n - 1);
      }
    } else if s[0] != '"' {
      FindInPrefix(s[1..], i + 1, field, false, false, n - 1);
    } else {
      LookaheadInPrefix(s, field, n);
      if Lookahead(s, field) < 0 {
        FindInPrefix(s[1..], i + 1, field, true, false, n - 1);
      }
    }
  }

  /** What Find reports lies past a whole quoted name. */
  lemma {:induction false} FindIsAhead(s: string, i: int, field: string, inString: bool, escaped: bool)
    requires i >= 0
    ensures var p := Find(s, i, field, inString, escaped);
      p == -1 || i + |Quoted(field)| <= p < i + |s|
    decreases |s|
  {
    if |s| >= |Quoted(field)| {
      FindIsAhead(s[1..], i + 1, field, true, false);
      FindIsAhead(s[1..], i + 1, field, true, true);
      FindIsAhead(s[1..], i + 1, field, false, false);
    }
  }

  lemma {:induction false} SpacesInPrefix(s: string, n: nat)
    requires n <= |s|
    ensures Spaces(s[..n]) == if Spaces(s) < n then Spaces(s) else n
    decreases |s|
  {
    if n > 0 && IsSpace(s[0]) {
      assert s[..n][1..] == s[1..][..n - 1];
      SpacesInPrefix(s[1..], n - 1);
    }
  }

  lemma {:induction false} ColonBracketOfPrefix(s: string, p: string, n: nat)
    requires n <= |s| && p == s[..n]
    ensures ColonBracket(p) == if ColonBracket(s) < n then ColonBracket(s) else -1
  {
    var j := AfterSpaces(s, ':');
    AfterSpacesInPrefix(s, n, ':');
    if 0 <= j < n {
      ColonInPrefix(s, p, n, j);
    }
  }

  lemma {:induction false} ColonInPrefix(s: string, p: string, n: nat, j: nat)
    requires j < n <= |s| && p == s[..n] && AfterSpaces(s, ':') == AfterSpaces(p, ':') == j
    ensures ColonBracket(p) == if ColonBracket(s) < n then ColonBracket(s) else -1
  {
    SliceOfPrefix(s, n, j + 1);
    BracketOfPrefix(s[j + 1..], p[j + 1..], n - (j + 1), j + 1);
  }

  lemma {:induction false} BracketOfPrefix(s: string, p: string, n: nat, offset: nat)
    requires n <= |s| && p == s[..n]
    ensures
      var bracket := Shifted(AfterSpaces(s, '['), offset);
      Shifted(AfterSpaces(p, '['), offset) == if bracket < offset + n then bracket else -1
  {
    AfterSpacesInPrefix(s, n, '[');
  }

  lemma {:induction false} AfterSpacesInPrefix(s: string, n: nat, ch: char)
    requires n <= |s|
    ensures AfterSpaces(s[..n], ch) == if AfterSpaces(s, ch) < n then AfterSpaces(s, ch) else -1
  {
    SpacesInPrefix(s, n);
  }

  lemma {:induction false} LookaheadInPrefix(s: string, field: string, n: nat)
    requires |Quoted(field)| <= n <= |s|
    ensures Lookahead(s[..n], field) == if Lookahead(s, field) < n then Lookahead(s, field) else -1
  {
    TokenInPrefix(Quoted(field), s, n);
    if Quoted(field) <= s {
      SliceOfPrefix(s, n, |Quoted(field)|);
      ColonBracketOfPrefix(s[|Quoted(field)|..], s[..n][|Quoted(field)|..], n - |Quoted(field)|);
    }
  }

  lemma {:induction false} TokenInPrefix(token: string, s: string, n: nat)
    requires |token| <= n <= |s|
    ensures token <= s[..n] <==> token <= s
  {
    assert s[..n][..|token|] == s[..|token|];
  }

  // ----- what is cut out of a JSON text -----

  /** The printed texts of the outermost objects of a value, in text order. */
  function Texts(v: Json): seq<string> {
    match v
    case Object(_, _) => [Print(v)]
    case Array(_, elements) => TextsOfElements(elements)
    case _ => []
  }

  function TextsOfElements(es: Elements): seq<string> {
    match es
    case NoElements => []
    case Element(_, value, _, rest) => Texts(value) + TextsOfElements(rest)
  }

  /** The printed texts of the elements that are objects themselves. */
  function ObjectElements(es: Elements): seq<string> {
    match es
    case NoElements => []
    case Element(_, value, _, rest) =>
      (if value.Object? then [Print(value)] else []) + ObjectElements(rest)
  }

  predicate HasNoArrayElement(es: Elements) {
    match es
    case NoElements => true
    case Element(_, value, _, rest) => !value.Array? && HasNoArrayElement(rest)
  }

  lemma {:induction false} FlatArrayTexts(es: Elements)
    requires HasNoArrayElement(es)
    ensures TextsOfElements(es) == ObjectElements(es)
  {
    match es
    case NoElements =>
    case Element(_, value, _, rest) => FlatArrayTexts(rest);
  }

  /** `s` stands in `text` at position `i`. */
  predicate StandsAt(text: string, i: int, s: string) {
    0 <= i <= i + |s| <= |text| && text[i..i + |s|] == s
  }

  lemma {:induction false} PartsStandAt(text: string, i: int, a: string, b: string)
    requires StandsAt(text, i, a + b)
    ensures StandsAt(text, i, a) && StandsAt(text, i + |a|, b)
  {
    var s := text[i..i + |a + b|];
    assert s[..|a|] == a && s[|a|..] == b;
    assert text[i..i + |a|] == s[..|a|];
    assert text[i + |a|..i + |a| + |b|] == s[|a|..];
  }

  lemma {:induction false} MiddleStandsAt(text: string, i: int, a: string, b: string, c: string)
    requires StandsAt(text, i, a + (b + c))
    ensures StandsAt(text, i + |a|, b)
  {
    PartsStandAt(text, i, a, b + c);
    PartsStandAt(text, i + |a|, b, c);
  }

  lemma {:induction false} ElementStandsAt(text: string, i: int, es: Elements)
    requires es.Element? && StandsAt(text, i, PrintElements(es))
    ensures StandsAt(text, i + |es.before|, Print(es.value))
    ensures StandsAt(text, i + |Padded(es.before, Print(es.value), es.after)| + |Separator(es.rest.Element?)|,
                     PrintElements(es.rest))
  {
    var item := Padded(es.before, Print(es.value), es.after);
    var sep := Separator(es.rest.Element?);
    PartsStandAt(text, i, item, sep + PrintElements(es.rest));
    MiddleStandsAt(text, i, es.before, Print(es.value), es.after);
    PartsStandAt(text, i + |item|, sep, PrintElements(es.rest));
  }

  lemma {:induction false} MemberStandsAt(text: string, i: int, ms: Members)
    requires ms.Member? && StandsAt(text, i, PrintMembers(ms))
    ensures
      var name := Padded(ms.before, Quoted(ms.key), ms.afterKey);
      var item := Padded(ms.beforeValue, Print(ms.value), ms.after);
      && StandsAt(text, i + |name| + 1 + |ms.beforeValue|, Print(ms.value))
      && StandsAt(text, i + |name| + 1 + |item| + |Separator(ms.rest.Member?)|, PrintMembers(ms.rest))
  {
    PartsOfMember(text, i, Padded(ms.before, Quoted(ms.key), ms.afterKey), ms.beforeValue, Print(ms.value), ms.after,
                  Separator(ms.rest.Member?), PrintMembers(ms.rest));
  }

  lemma {:induction false} PartsOfMember(text: string, i: int, name: string, before: string, value: string, after: string,
                                         sep: string, rest: string)
    requires StandsAt(text, i, name + (":" + (Padded(before, value, after) + (sep + rest))))
    ensures
      var item := Padded(before, value, after);
      && StandsAt(text, i + |name| + 1 + |before|, value)
      && StandsAt(text, i + |name| + 1 + |item| + |sep|, rest)
  {
    var item := Padded(before, value, after);
    PartsStandAt(text, i, name, ":" + (item + (sep + rest)));
    PartsStandAt(text, i + |name|, ":", item + (sep + rest));
    PartsStandAt(text, i + |name| + 1, item, sep + rest);
    MiddleStandsAt(text, i + |name| + 1, before, value, after);
    PartsStandAt(text, i + |name| + 1 + |item|, sep, rest);
  }

  predicate SlicesAre(text: string, cuts: seq<(int, int)>, texts: seq<string>) {
    && |cuts| == |texts|
    && forall k | 0 <= k < |cuts| ::
         0 <= cuts[k].0 <= cuts[k].1 <= |text| && text[cuts[k].0..cuts[k].1] == texts[k]
  }

  lemma {:induction false} SlicesAppend(text: string, a: seq<(int, int)>, s: seq<string>, b: seq<(int, int)>, t: seq<string>)
    requires SlicesAre(text, a, s) && SlicesAre(text, b, t)
    ensures SlicesAre(text, a + b, s + t)
  {
  }

  /** What stands between two brackets. */
  lemma {:induction false} InsideStandsAt(text: string, i: int, open: string, pad: string, inside: string, close: string)
    requires StandsAt(text, i, open + (pad + (inside + close)))
    ensures StandsAt(text, i + |open| + |pad|, inside)
  {
    PartsStandAt(text, i, open, pad + (inside + close));
    MiddleStandsAt(text, i + |open|, pad, inside, close);
  }

  lemma {:induction false} OutermostTexts(text: string, i: int, v: Json)
    requires StandsAt(text, i, Print(v))
    ensures SlicesAre(text, Outermost(v, i), Texts(v))
    decreases v, 0
  {
    match v
    case Array(pad, elements) =>
      InsideStandsAt(text, i, "[", pad, PrintElements(elements), "]");
      OutermostTextsOfElements(text, i + 1 + |pad|, elements);
    case _ =>
  }

  lemma {:induction false} OutermostTextsOfElements(text: string, i: int, es: Elements)
    requires StandsAt(text, i, PrintElements(es))
    ensures SlicesAre(text, OutermostElements(es, i), TextsOfElements(es))
    decreases es, 0
  {
    match es
    case NoElements =>
    case Element(before, value, after, rest) =>
      var next := i + |Padded(before, Print(value), after)| + |Separator(rest.Element?)|;
      OutermostTextsOfFirst(text, i, es);
      OutermostTextsOfRest(text, i, es, next);
      SlicesOfElement(text, i, es, next);
  }

  lemma {:induction false} OutermostTextsOfFirst(text: string, i: int, es: Elements)
    requires es.Element? && StandsAt(text, i, PrintElements(es))
    ensures SlicesAre(text, Outermost(es.value, i + |es.before|), Texts(es.value))
    decreases es, 0, 0
  {
    ElementStandsAt(text, i, es);
    OutermostTexts(text, i + |es.before|, es.value);
  }

  lemma {:induction false} OutermostTextsOfRest(text: string, i: int, es: Elements, next: int)
    requires es.Element? && StandsAt(text, i, PrintElements(es))
    requires next == i + |Padded(es.before, Print(es.value), es.after)| + |Separator(es.rest.Element?)|
    ensures SlicesAre(text, OutermostElements(es.rest, next), TextsOfElements(es.rest))
    decreases es, 0, 0
  {
    ElementStandsAt(text, i, es);
    OutermostTextsOfElements(text, next, es.rest);
  }

  lemma {:induction false} SlicesOfElement(text: string, i: int, es: Elements, next: int)
    requires es.Element?
    requires next == i + |Padded(es.before, Print(es.value), es.after)| + |Separator(es.rest.Element?)|
    requires SlicesAre(text, Outermost(es.value, i + |es.before|), Texts(es.value))
    requires SlicesAre(text, OutermostElements(es.rest, next), TextsOfElements(es.rest))
    ensures SlicesAre(text, OutermostElements(es, i), TextsOfElements(es))
  {
    SlicesAppend(text, Outermost(es.value, i + |es.before|), Texts(es.value),
                 OutermostElements(es.rest, next), TextsOfElements(es.rest));
  }

  /** The array that First reports is printed where First says it is. */
  ghost predicate IsPrinted(text: string, found: Option<(int, Json)>) {
    found.Some? ==>
      && found.value.1.Array? && WellFormed(found.value.1)
      && StandsAt(text, found.value.0, Print(found.value.1))
  }

  lemma {:induction false} FirstIsPrinted(text: string, i: int, v: Json, field: string)
    requires WellFormed(v) && StandsAt(text, i, Print(v))
    ensures IsPrinted(text, First(v, i, field))
    decreases v, 0
  {
    match v
    case Array(pad, elements) =>
      InsideStandsAt(text, i, "[", pad, PrintElements(elements), "]");
      FirstInElementsIsPrinted(text, i + 1 + |pad|, elements, field);
    case Object(pad, members) =>
      InsideStandsAt(text, i, "{", pad, PrintMembers(members), "}");
      FirstInMembersIsPrinted(text, i + 1 + |pad|, members, field);
    case _ =>
  }

  lemma {:induction false} FirstInElementsIsPrinted(text: string, i: int, es: Elements, field: string)
    requires WellFormedElements(es) && StandsAt(text, i, PrintElements(es))
    ensures IsPrinted(text, FirstInElements(es, i, field))
    decreases es, 0
  {
    match es
    case NoElements =>
    case Element(before, value, after, rest) =>
      ElementStandsAt(text, i, es);
      FirstIsPrinted(text, i + |before|, value, field);
      FirstInElementsIsPrinted(text,
        i + |Padded(before, Print(value), after)| + |Separator(rest.Element?)|, rest, field);
  }

  lemma {:induction false} FirstInMembersIsPrinted(text: string, i: int, ms: Members, field: string)
    requires WellFormedMembers(ms) && StandsAt(text, i, PrintMembers(ms))
    ensures IsPrinted(text, FirstInMembers(ms, i, field))
    decreases ms, 0
  {
    match ms
    case NoMembers =>
    case Member(before, key, afterKey, beforeValue, value, after, rest) =>
      var name := Padded(before, Quoted(key), afterKey);
      var item := Padded(beforeValue, Print(value), after);
      var at := i + |name| + 1 + |beforeValue|;
      var next := i + |name| + 1 + |item| + |Separator(rest.Member?)|;
      FirstInMemberIsPrinted(text, i, ms, field, at);
      FirstInOtherMembersIsPrinted(text, i, ms, field, next);
      FirstMemberOf(ms, i, field, at, next);
  }

  lemma {:induction false} FirstInMemberIsPrinted(text: string, i: int, ms: Members, field: string, at: int)
    requires ms.Member? && WellFormed(ms.value) && StandsAt(text, i, PrintMembers(ms))
    requires at == i + |Padded(ms.before, Quoted(ms.key), ms.afterKey)| + 1 + |ms.beforeValue|
    ensures IsPrinted(text, First(ms.value, at, field)) && StandsAt(text, at, Print(ms.value))
    decreases ms, 0, 0
  {
    MemberStandsAt(text, i, ms);
    FirstIsPrinted(text, at, ms.value, field);
  }

  lemma {:induction false} FirstInOtherMembersIsPrinted(text: string, i: int, ms: Members, field: string, next: int)
    requires ms.Member? && WellFormedMembers(ms) && StandsAt(text, i, PrintMembers(ms))
    requires next == i + |Padded(ms.before, Quoted(ms.key), ms.afterKey)| + 1
                     + |Padded(ms.beforeValue, Print(ms.value), ms.after)| + |Separator(ms.rest.Member?)|
    ensures IsPrinted(text, FirstInMembers(ms.rest, next, field))
    decreases ms, 0, 0
  {
    MemberStandsAt(text, i, ms);
    FirstInMembersIsPrinted(text, next, ms.rest, field);
  }

  lemma {:induction false} FirstMemberOf(ms: Members, i: int, field: string, at: int, next: int)
    requires ms.Member?
    requires at == i + |Padded(ms.before, Quoted(ms.key), ms.afterKey)| + 1 + |ms.beforeValue|
    requires next == at - |ms.beforeValue| + |Padded(ms.beforeValue, Print(ms.value), ms.after)|
                     + |Separator(ms.rest.Member?)|
    ensures FirstInMembers(ms, i, field) in
      {Some((at, ms.value)), First(ms.value, at, field), FirstInMembers(ms.rest, next, field)}
    ensures FirstInMembers(ms, i, field) == Some((at, ms.value)) ==>
      ms.value.Array? || First(ms.value, at, field) == Some((at, ms.value))
      || FirstInMembers(ms.rest, next, field) == Some((at, ms.value))
  {
  }

  lemma {:induction false} RunWhenDone(st: Scan, i: int, s: string)
    requires st.done
    ensures Run(st, i, s) == st
    decreases |s|
  {
    if s != "" {
      RunWhenDone(st, i + 1, s[1..]);
    }
  }

  /** Streaming from the `[` of an array stops at its `]`, whatever follows. */
  lemma {:induction false} RunOverArray(start: nat, pad: string, es: Elements, post: string)
    requires WellFormed(Array(pad, es))
    ensures Run(INITIAL, start, Print(Array(pad, es)) + post).cuts == Outermost(Array(pad, es), start)
  {
    var found := OutermostElements(es, start + 1 + |pad|);
    RunElements(INSIDE, start + 1 + |pad|, es);
    assert INSIDE.cuts + found == found;
    RunOverText(start, pad, PrintElements(es), found, post, Print(Array(pad, es)));
  }

  /** The state just behind the first `[`. */
  const INSIDE: Scan := INITIAL.(started := true, arrayDepth := 1)

  lemma {:induction false} RunOverText(start: nat, pad: string, inside: string, cuts: seq<(int, int)>, post: string, text: string)
    requires Blank(pad) && text == ['['] + (pad + (inside + "]"))
    requires Run(INSIDE, start + 1 + |pad|, inside) == INSIDE.(cuts := cuts)
    ensures Run(INITIAL, start, text + post).cuts == cuts
  {
    var last := INSIDE.(cuts := cuts);
    var at := start + 1 + |pad| + |inside|;
    var end := Step(last, at, ']');
    assert Run(INITIAL, start, text) == end by {
      RunOne(INITIAL, start, '[');
      RunBracketed(INITIAL, start, '[', INSIDE, pad, inside, last, "]");
      RunOne(last, at, ']');
    }
    RunVia(INITIAL, start, text, end, post);
    RunWhenDone(end, start + |text|, post);
  }

  lemma {:induction false} RunOverPrinted(text: string, start: nat, blocks: Json)
    requires blocks.Array? && WellFormed(blocks) && StandsAt(text, start, Print(blocks))
    ensures Run(INITIAL, start, text[start..]).cuts == Outermost(blocks, start)
    ensures SlicesAre(text, Outermost(blocks, start), Texts(blocks))
    ensures Slices(text, Outermost(blocks, start)) == Texts(blocks)
  {
    var post := text[start + |Print(blocks)|..];
    assert text[start..] == Print(blocks) + post;
    RunOverArray(start, blocks.pad, blocks.elements, post);
    OutermostTexts(text, start, blocks);
  }

  /** Main result. For every JSON text that passes the guard, the slices cut out are those
      of the outermost objects of the first `field` array, in order. */
  lemma {:induction false} StreamCutsOutermost(before: string, v: Json, after: string, field: string)
    requires Blank(before) && WellFormed(v) && Blank(after) && Plain(field)
    requires !MentionsPrimitives(Padded(before, Print(v), after))
    ensures
      var text := Padded(before, Print(v), after);
      match First(v, |before|, field)
      case None => StreamCuts(text, field) == None
      case Some((start, blocks)) =>
        && StandsAt(text, start, Print(blocks))
        && StreamCuts(text, field) == Some(Outermost(blocks, start))
        && Slices(text, Outermost(blocks, start)) == Texts(blocks)
  {
    var text := Padded(before, Print(v), after);
    GuardMeans(text);
    FindsFirstArray(before, v, after, field);
    PartsStandAt(text, 0, before, Print(v) + after);
    MiddleStandsAt(text, 0, before, Print(v), after);
    FirstIsPrinted(text, |before|, v, field);
    match First(v, |before|, field)
    case None =>
    case Some((start, blocks)) =>
      RunOverPrinted(text, start, blocks);
  }

  /** When the array has no array elements, these are exactly its object elements. */
  lemma {:induction false} StreamCutsObjectElements(before: string, v: Json, after: string, field: string)
    requires Blank(before) && WellFormed(v) && Blank(after) && Plain(field)
    requires !MentionsPrimitives(Padded(before, Print(v), after))
    requires First(v, |before|, field).Some?
    requires First(v, |before|, field).value.1.Array?
    requires HasNoArrayElement(First(v, |before|, field).value.1.elements)
    ensures
      var text := Padded(before, Print(v), after);
      var cuts := StreamCuts(text, field);
      && cuts.Some?
      && Slices(text, cuts.value) == ObjectElements(First(v, |before|, field).value.1.elements)
  {
    StreamCutsOutermost(before, v, after, field);
    FlatArrayTexts(First(v, |before|, field).value.1.elements);
  }

  // ----- texts that are left to the full parser -----

  /** Somewhere in the value a member named lines or boxes holds an array. */
  predicate HoldsPrimitives(v: Json) {
    match v
    case Array(_, elements) => ElementsHoldPrimitives(elements)
    case Object(_, members) => MembersHoldPrimitives(members)
    case _ => false
  }

  predicate ElementsHoldPrimitives(es: Elements) {
    match es
    case NoElements => false
    case Element(_, value, _, rest) => HoldsPrimitives(value) || ElementsHoldPrimitives(rest)
  }

  predicate MembersHoldPrimitives(ms: Members) {
    match ms
    case NoMembers => false
    case Member(_, key, _, _, value, _, rest) =>
      || (value.Array? && (IsSpelling(key, "lines") || IsSpelling(key, "boxes")))
      || HoldsPrimitives(value) || MembersHoldPrimitives(rest)
  }

  lemma {:induction false} StandsFrom(text: string, i: int, s: string)
    requires StandsAt(text, i, s)
    ensures s <= text[i..]
  {
  }

  /** A member that holds an array, as it is printed. */
  lemma {:induction false} MemberIsMentioned(text: string, i: int, ms: Members, rest: string)
    requires ms.Member? && ms.value.Array? && Blank(ms.afterKey) && Blank(ms.beforeValue)
    requires IsSpelling(ms.key, "lines") || IsSpelling(ms.key, "boxes")
    requires StandsAt(text, i, Quoted(ms.key) + (ms.afterKey + (":" + (ms.beforeValue + ("[" + rest)))))
    ensures MentionsPrimitives(text)
  {
    var found := ArrayOf(ms.key, ms.afterKey, ms.beforeValue);
    assert Quoted(ms.key) + (ms.afterKey + (":" + (ms.beforeValue + ("[" + rest)))) == found + rest;
    PartsStandAt(text, i, found, rest);
    StandsFrom(text, i, found);
    assert IsMention(text[i..], if IsSpelling(ms.key, "lines") then "lines" else "boxes", ms.key, ms.afterKey, ms.beforeValue);
  }

  lemma {:induction false} MemberOpens(text: string, i: int, ms: Members) returns (rest: string)
    requires ms.Member? && ms.value.Array? && StandsAt(text, i, PrintMembers(ms))
    ensures StandsAt(text, i + |ms.before|, Quoted(ms.key) + (ms.afterKey + (":" + (ms.beforeValue + ("[" + rest)))))
  {
    var inside := ms.value.pad + (PrintElements(ms.value.elements) + "]");
    rest := inside + (ms.after + (Separator(ms.rest.Member?) + PrintMembers(ms.rest)));
    assert Print(ms.value) == "[" + inside;
    OpenedMember(ms.before, Quoted(ms.key), ms.afterKey, ms.beforeValue, inside, ms.after,
                 Separator(ms.rest.Member?) + PrintMembers(ms.rest));
    PartsStandAt(text, i, ms.before, Quoted(ms.key) + (ms.afterKey + (":" + (ms.beforeValue + ("[" + rest)))));
  }

  lemma {:induction false} OpenedMember(before: string, name: string, a: string, b: string, inside: string, after: string, rest: string)
    ensures Padded(before, name, a) + (":" + (Padded(b, "[" + inside, after) + rest))
         == before + (name + (a + (":" + (b + ("[" + (inside + (after + rest)))))))
  {
  }

  lemma {:induction false} PrimitivesAreMentioned(text: string, i: int, v: Json)
    requires WellFormed(v) && StandsAt(text, i, Print(v)) && HoldsPrimitives(v)
    ensures MentionsPrimitives(text)
    decreases v, 0
  {
    match v
    case Array(pad, elements) =>
      InsideStandsAt(text, i, "[", pad, PrintElements(elements), "]");
      PrimitivesOfElements(text, i + 1 + |pad|, elements);
    case Object(pad, members) =>
      InsideStandsAt(text, i, "{", pad, PrintMembers(members), "}");
      PrimitivesOfMembers(text, i + 1 + |pad|, members);
    case _ =>
  }

  lemma {:induction false} PrimitivesOfElements(text: string, i: int, es: Elements)
    requires WellFormedElements(es) && StandsAt(text, i, PrintElements(es)) && ElementsHoldPrimitives(es)
    ensures MentionsPrimitives(text)
    decreases es, 0
  {
    ElementStandsAt(text, i, es);
    if HoldsPrimitives(es.value) {
      PrimitivesAreMentioned(text, i + |es.before|, es.value);
    } else {
      PrimitivesOfElements(text, i + |Padded(es.before, Print(es.value), es.after)| + |Separator(es.rest.Element?)|, es.rest);
    }
  }

  lemma {:induction false} PrimitivesOfMembers(text: string, i: int, ms: Members)
    requires WellFormedMembers(ms) && StandsAt(text, i, PrintMembers(ms)) && MembersHoldPrimitives(ms)
    ensures MentionsPrimitives(text)
    decreases ms, 0
  {
    if ms.value.Array? && (IsSpelling(ms.key, "lines") || IsSpelling(ms.key, "boxes")) {
      var rest := MemberOpens(text, i, ms);
      MemberIsMentioned(text, i + |ms.before|, ms, rest);
    } else if HoldsPrimitives(ms.value) {
      PrimitivesOfMember(text, i, ms, i + |Padded(ms.before, Quoted(ms.key), ms.afterKey)| + 1 + |ms.beforeValue|);
    } else {
      PrimitivesOfOtherMembers(text, i, ms,
        i + |Padded(ms.before, Quoted(ms.key), ms.afterKey)| + 1 + |Padded(ms.beforeValue, Print(ms.value), ms.after)|
        + |Separator(ms.rest.Member?)|);
    }
  }

  lemma {:induction false} PrimitivesOfMember(text: string, i: int, ms: Members, at: int)
    requires ms.Member? && WellFormed(ms.value) && StandsAt(text, i, PrintMembers(ms)) && HoldsPrimitives(ms.value)
    requires at == i + |Padded(ms.before, Quoted(ms.key), ms.afterKey)| + 1 + |ms.beforeValue|
    ensures MentionsPrimitives(text)
    decreases ms, 0, 0
  {
    MemberStandsAt(text, i, ms);
    PrimitivesAreMentioned(text, at, ms.value);
  }

  lemma {:induction false} PrimitivesOfOtherMembers(text: string, i: int, ms: Members, next: int)
    requires ms.Member? && WellFormedMembers(ms) && StandsAt(text, i, PrintMembers(ms)) && MembersHoldPrimitives(ms.rest)
    requires next == i + |Padded(ms.before, Quoted(ms.key), ms.afterKey)| + 1
                     + |Padded(ms.beforeValue, Print(ms.value), ms.after)| + |Separator(ms.rest.Member?)|
    ensures MentionsPrimitives(text)
    decreases ms, 0, 0
  {
    MemberStandsAt(text, i, ms);
    PrimitivesOfMembers(text, next, ms.rest);
  }

  /** Main result on the guard, for every JSON text: it is streamed if and only if it has a first
      `field` array and no name like lines or boxes stands before a colon and a bracket anywhere in
      it; a build that holds such an array is always left to the full parser. */
  lemma {:induction false} StreamsExactlyWhen(before: string, v: Json, after: string, field: string)
    requires Blank(before) && WellFormed(v) && Blank(after) && Plain(field)
    ensures
      var text := Padded(before, Print(v), after);
      && (StreamCuts(text, field).Some? <==> First(v, |before|, field).Some? && !MentionsPrimitives(text))
      && (HoldsPrimitives(v) ==> StreamCuts(text, field).None?)
  {
    var text := Padded(before, Print(v), after);
    GuardMeans(text);
    FindsFirstArray(before, v, after, field);
    PartsStandAt(text, 0, before, Print(v) + after);
    MiddleStandsAt(text, 0, before, Print(v), after);
    FirstIsPrinted(text, |before|, v, field);
    if HoldsPrimitives(v) {
      PrimitivesAreMentioned(text, |before|, v);
    }
  }

  // ----- prefixes -----

  lemma {:induction false} GuardOfPrefix(text: string, n: nat)
    requires n <= |text| && HasPrimitives(text[..n])
    ensures HasPrimitives(text)
  {
    var i :| 0 <= i <= n && (PrimitiveAt(text[..n][i..], "lines") || PrimitiveAt(text[..n][i..], "boxes"));
    PrimitiveBeyondPrefix(text, n, i);
    PrimitiveSomewhere(text, i);
  }

  lemma {:induction false} PrimitiveBeyondPrefix(text: string, n: nat, i: nat)
    requires i <= n <= |text| && (PrimitiveAt(text[..n][i..], "lines") || PrimitiveAt(text[..n][i..], "boxes"))
    ensures PrimitiveAt(text[i..], "lines") || PrimitiveAt(text[i..], "boxes")
  {
    SliceOfPrefix(text, n, i);
    PrimitiveInPrefix(text[..n][i..], text[i..], "lines");
    PrimitiveInPrefix(text[..n][i..], text[i..], "boxes");
  }

  lemma {:induction false} SliceOfPrefix(text: string, n: nat, i: nat)
    requires i <= n <= |text|
    ensures text[..n][i..] == text[i..][..n - i] <= text[i..]
  {
  }

  lemma {:induction false} PrimitiveSomewhere(text: string, i: nat)
    requires i <= |text| && (PrimitiveAt(text[i..], "lines") || PrimitiveAt(text[i..], "boxes"))
    ensures HasPrimitives(text)
  {
  }

  lemma {:induction false} PrimitiveInPrefix(p: string, s: string, field: string)
    requires p <= s
    ensures PrimitiveAt(p, field) ==> PrimitiveAt(s, field)
  {
    var t := |Quoted(field)|;
    if PrimitiveAt(p, field) {
      assert p[t..] == s[t..][..|p| - t];
      ColonBracketOfPrefix(s[t..], p[t..], |p| - t);
    }
  }

  /** On every prefix cut inside or after the array, streaming yields exactly the slices
      that are already complete there. */
  lemma {:induction false} StreamOfPrefix(text: string, field: string, n: nat)
    requires StreamCuts(text, field).Some?
    requires Find(text, 0, field, false, false) < n <= |text|
    ensures StreamCuts(text[..n], field) == Some(Closed(StreamCuts(text, field).value, n))
  {
    var start := Find(text, 0, field, false, false);
    if HasPrimitives(text[..n]) {
      GuardOfPrefix(text, n);
    }
    FindInPrefix(text, 0, field, false, false, n);
    SliceOfPrefix(text, n, start);
    RunOfPrefix(start, text[start..], n - start);
  }

  // ----- the loop itself -----

  const EMIT_INTERVAL_MS := 48
  const EMIT_BLOCK_THRESHOLD := 6000

  datatype Progress<T> = Progress(deltaBlocks: seq<T>, receivedBlocks: nat, totalBlocks: Option<nat>)

  /** All the blocks posted, in order. */
  function Delivered<T>(posted: seq<Progress<T>>): seq<T> {
    if posted == [] then []
    else Delivered(posted[..|posted| - 1]) + posted[|posted| - 1].deltaBlocks
  }

  /** No message is empty, and each one counts the blocks delivered up to it. */
  predicate Counted<T>(posted: seq<Progress<T>>) {
    forall k | 0 <= k < |posted| ::
      && posted[k].deltaBlocks != []
      && posted[k].receivedBlocks == |Delivered(posted[..k + 1])|
  }

  lemma {:induction false} PostOne<T>(posted: seq<Progress<T>>, p: Progress<T>)
    requires Counted(posted) && p.deltaBlocks != []
    requires p.receivedBlocks == |Delivered(posted) + p.deltaBlocks|
    ensures Delivered(posted + [p]) == Delivered(posted) + p.deltaBlocks
    ensures Counted(posted + [p])
  {
    var now := posted + [p];
    assert now[..|now| - 1] == posted;
    forall k | 0 <= k < |now|
      ensures now[k].deltaBlocks != [] && now[k].receivedBlocks == |Delivered(now[..k + 1])|
    {
      if k < |posted| {
        assert now[..k + 1] == posted[..k + 1];
      } else {
        assert now[..k + 1] == now;
      }
    }
  }

  lemma {:induction false} RunSnoc(start: nat, s: string, c: char)
    ensures Run(INITIAL, start, s + [c]) == Step(Run(INITIAL, start, s), start + |s|, c)
  {
    RunAppend(INITIAL, start, s, [c]);
    RunOne(Run(INITIAL, start, s), start + |s|, c);
  }

  lemma {:induction false} ParsedOneMore<T>(parse: string -> Option<T>, text: string, cuts: seq<(int, int)>, cut: (int, int))
    requires CutsWithin(cuts, 0, |text|) && 0 <= cut.0 <= cut.1 <= |text|
    ensures Parsed(parse, Slices(text, cuts + [cut]))
      == Parsed(parse, Slices(text, cuts))
         + match parse(text[cut.0..cut.1]) case Some(block) => [block] case None => []
  {
    var slices := Slices(text, cuts + [cut]);
    assert slices[..|slices| - 1] == Slices(text, cuts);
  }

  /** Posts the blocks gathered since the last message, if there are any and either enough
      of them or enough time has gone by. */
  method MaybeEmitProgress<T>(force: bool, posted: seq<Progress<T>>, deltaBlocks: seq<T>, received: nat,
                              totalHint: Option<nat>, now: int, lastEmitAt: int)
    returns (posted': seq<Progress<T>>, deltaBlocks': seq<T>, lastEmitAt': int)
    requires Counted(posted) && received == |Delivered(posted) + deltaBlocks|
    ensures
      var due := deltaBlocks != []
        && (force || |deltaBlocks| >= 6000 || now - lastEmitAt >= 48);
      if due then posted' == posted + [Progress(deltaBlocks, received, totalHint)] && deltaBlocks' == [] && lastEmitAt' == now
      else posted' == posted && deltaBlocks' == deltaBlocks && lastEmitAt' == lastEmitAt
    ensures Delivered(posted') + deltaBlocks' == Delivered(posted) + deltaBlocks && Counted(posted')
  {
    posted', deltaBlocks', lastEmitAt' := posted, deltaBlocks, lastEmitAt;
    if deltaBlocks == [] {
      return;
    }
    if !force && |deltaBlocks| < EMIT_BLOCK_THRESHOLD && now - lastEmitAt < EMIT_INTERVAL_MS {
      return;
    }
    PostOne(posted, Progress(deltaBlocks, received, totalHint));
    posted' := posted + [Progress(deltaBlocks, received, totalHint)];
    deltaBlocks', lastEmitAt' := [], now;
  }

  /** The machine's state after the text from `start` to `i`. */
  predicate Reached(text: string, start: int, i: int, st: Scan) {
    && 0 <= start <= i <= |text|
    && st == Run(INITIAL, start, text[start..i])
    && Sound(st, 0, i)
  }

  lemma {:induction false} Advance(text: string, start: nat, i: nat, st: Scan)
    requires Reached(text, start, i, st) && i < |text|
    ensures Reached(text, start, i + 1, Step(st, i, text[i]))
  {
    assert text[start..i + 1] == text[start..i] + [text[i]];
    RunSnoc(start, text[start..i], text[i]);
    StepIsSound(st, 0, i, text[i]);
  }

  lemma {:induction false} FinishedEarly(text: string, start: nat, i: nat, st: Scan)
    requires i < |text| && Reached(text, start, i + 1, st) && st.done
    ensures Run(INITIAL, start, text[start..]) == st
  {
    assert text[start..] == text[start..i + 1] + text[i + 1..];
    RunAppend(INITIAL, start, text[start..i + 1], text[i + 1..]);
    RunWhenDone(st, i + 1, text[i + 1..]);
  }

  /** The blocks are those of the slices cut so far, posted but for the last few. */
  ghost predicate Gathered<T>(parse: string -> Option<T>, text: string, cuts: seq<(int, int)>,
                              blocks: seq<T>, deltaBlocks: seq<T>, posted: seq<Progress<T>>) {
    && CutsWithin(cuts, 0, |text|)
    && blocks == Parsed(parse, Slices(text, cuts))
    && Delivered(posted) + deltaBlocks == blocks
    && Counted(posted)
  }

  /** An outermost object has just been closed: parse its slice and perhaps post a message. */
  method CloseObject<T>(text: string, parse: string -> Option<T>, start: nat, end: nat,
                        ghost st: Scan, ghost cuts: seq<(int, int)>,
                        blocks: seq<T>, deltaBlocks: seq<T>, posted: seq<Progress<T>>,
                        totalHint: Option<nat>, now: int, lastEmitAt: int)
    returns (blocks': seq<T>, deltaBlocks': seq<T>, posted': seq<Progress<T>>, lastEmitAt': int)
    requires Gathered(parse, text, cuts, blocks, deltaBlocks, posted)
    requires Sound(st, 0, end) && end <= |text| && st.cuts == cuts + [(start, end)] && start >= 0
    ensures Gathered(parse, text, cuts + [(start, end)], blocks', deltaBlocks', posted')
  {
    ClosedCut(text, st, end, cuts, start);
    blocks', deltaBlocks' := blocks, deltaBlocks;
    ParsedOneMore(parse, text, cuts, (start, end));
    match parse(text[start..end]) {
      case Some(block) =>
        blocks' := blocks' + [block];
        deltaBlocks' := deltaBlocks' + [block];
      case None =>
    }
    posted', deltaBlocks', lastEmitAt' :=
      MaybeEmitProgress(false, posted, deltaBlocks', |blocks'|, totalHint, now, lastEmitAt);
  }

  lemma {:induction false} NothingYet<T>(parse: string -> Option<T>, text: string, start: nat)
    requires start <= |text|
    ensures Reached(text, start, start, INITIAL) && Gathered(parse, text, [], [], [], [])
  {
  }

  lemma {:induction false} ClosedCut(text: string, st: Scan, end: nat, cuts: seq<(int, int)>, closed: int)
    requires Sound(st, 0, end) && end <= |text| && st.cuts == cuts + [(closed, end)]
    ensures 0 <= closed < end && CutsWithin(cuts + [(closed, end)], 0, |text|)
  {
    assert st.cuts[|cuts|] == (closed, end);
  }

  /** The branches of the loop body; `closed` is where an outermost object that ends here began. */
  method ScanChar(ch: char, i: nat, inString: bool, escaped: bool, started: bool,
                  arrayDepth: int, objectDepth: int, objectStart: int, ghost cuts: seq<(int, int)>)
    returns (inString': bool, escaped': bool, started': bool, finished: bool,
             arrayDepth': int, objectDepth': int, objectStart': int, closed: Option<int>)
    ensures Step(Scan(inString, escaped, started, false, arrayDepth, objectDepth, objectStart, cuts), i, ch)
      == Scan(inString', escaped', started', finished, arrayDepth', objectDepth', objectStart',
              if closed.Some? then cuts + [(closed.value, i + 1)] else cuts)
    ensures closed.Some? ==> !finished && closed.value >= 0
  {
    inString', escaped', started', finished := inString, escaped, started, false;
    arrayDepth', objectDepth', objectStart', closed := arrayDepth, objectDepth, objectStart, None;
    if inString {
      if escaped {
        escaped' := false;
      } else if ch == '\\' {
        escaped' := true;
      } else if ch == '"' {
        inString' := false;
      }
    } else if ch == '"' {
      inString' := true;
    } else if !started {
      if ch == '[' {
        started' := true;
        arrayDepth' := 1;
      }
    } else if ch == '[' {
      if objectDepth == 0 {
        arrayDepth' := arrayDepth + 1;
      }
    } else if ch == ']' {
      if objectDepth == 0 {
        arrayDepth' := arrayDepth - 1;
        finished := arrayDepth' <= 0;
      }
    } else if ch == '{' {
      if objectDepth == 0 {
        objectStart' := i;
      }
      objectDepth' := objectDepth + 1;
    } else if ch == '}' && objectDepth != 0 {
      objectDepth' := objectDepth - 1;
      if objectDepth' == 0 && objectStart >= 0 {
        closed := Some(objectStart);
        objectStart' := -1;
      }
    }
  }

  /** The loop body up to there, at position i of the text. */
  method ScanNext(text: string, ghost start: nat, i: nat, ghost st: Scan, inString: bool, escaped: bool, started: bool,
                  arrayDepth: int, objectDepth: int, objectStart: int, ghost cuts: seq<(int, int)>)
    returns (ghost st': Scan, inString': bool, escaped': bool, started': bool, finished: bool,
             arrayDepth': int, objectDepth': int, objectStart': int, closed: Option<int>)
    requires Reached(text, start, i, st) && i < |text|
    requires st == Scan(inString, escaped, started, false, arrayDepth, objectDepth, objectStart, cuts)
    ensures Reached(text, start, i + 1, st')
    ensures st' == Scan(inString', escaped', started', finished, arrayDepth', objectDepth', objectStart',
                        if closed.Some? then cuts + [(closed.value, i + 1)] else cuts)
    ensures closed.Some? ==> !finished && closed.value >= 0
  {
    Advance(text, start, i, st);
    st' := Step(st, i, text[i]);
    inString', escaped', started', finished, arrayDepth', objectDepth', objectStart', closed :=
      ScanChar(text[i], i, inString, escaped, started, arrayDepth, objectDepth, objectStart, cuts);
  }

  /** streamBlocksFromText. `clock(k)` is the k-th reading of the clock; it only decides how
      the blocks are grouped into messages. */
  method StreamBlocks<T>(text: string, parse: string -> Option<T>, totalHint: Option<nat>, clock: nat -> int)
    returns (result: Option<seq<T>>, posted: seq<Progress<T>>)
    ensures result == match StreamCuts(text, "blocks")
                      case None => None
                      case Some(cuts) => Some(Parsed(parse, Slices(text, cuts)))
    ensures result.Some? <==> !MentionsPrimitives(text) && Find(text, 0, "blocks", false, false) >= 0
    ensures Delivered(posted) == if result.Some? then result.value else []
    ensures Counted(posted)
  {
    posted := [];
    GuardMeans(text);
    if HasPrimitives(text) {
      return None, posted;
    }
    var start := FindArrayStart(text, "blocks");
    FindIsAhead(text, 0, "blocks", false, false);
    if start < 0 {
      return None, posted;
    }
    var blocks;
    blocks, posted := StreamFrom(text, start, parse, totalHint, clock);
    return Some(blocks), posted;
  }

  /** The loop over the text from the `[` of the array on, and the last message. */
  method StreamFrom<T>(text: string, start: nat, parse: string -> Option<T>, totalHint: Option<nat>, clock: nat -> int)
    returns (blocks: seq<T>, posted: seq<Progress<T>>)
    requires start <= |text|
    ensures
      var cuts := Run(INITIAL, start, text[start..]).cuts;
      CutsWithin(cuts, 0, |text|) && blocks == Parsed(parse, Slices(text, cuts))
    ensures Delivered(posted) == blocks && Counted(posted)
  {
    var deltaBlocks, readings, lastEmitAt;
    blocks, deltaBlocks, posted, readings, lastEmitAt := StreamLoop(text, start, parse, totalHint, clock);
    posted, deltaBlocks, lastEmitAt :=
      MaybeEmitProgress(true, posted, deltaBlocks, |blocks|, totalHint, clock(readings), lastEmitAt);
  }

  /** The loop body at position i. */
  method StreamChar<T>(text: string, ghost start: nat, parse: string -> Option<T>, totalHint: Option<nat>, clock: nat -> int,
                       i: nat, ghost st: Scan, ghost cuts: seq<(int, int)>, inString: bool, escaped: bool, started: bool,
                       arrayDepth: int, objectDepth: int, objectStart: int,
                       blocks: seq<T>, deltaBlocks: seq<T>, posted: seq<Progress<T>>, readings: nat, lastEmitAt: int)
    returns (ghost st': Scan, ghost cuts': seq<(int, int)>, inString': bool, escaped': bool, started': bool, finished: bool,
             arrayDepth': int, objectDepth': int, objectStart': int,
             blocks': seq<T>, deltaBlocks': seq<T>, posted': seq<Progress<T>>, readings': nat, lastEmitAt': int)
    requires Reached(text, start, i, st) && i < |text|
    requires st == Scan(inString, escaped, started, false, arrayDepth, objectDepth, objectStart, cuts)
    requires Gathered(parse, text, cuts, blocks, deltaBlocks, posted)
    ensures Reached(text, start, i + 1, st')
    ensures st' == Scan(inString', escaped', started', finished, arrayDepth', objectDepth', objectStart', cuts')
    ensures Gathered(parse, text, cuts', blocks', deltaBlocks', posted')
  {
    blocks', deltaBlocks', posted', readings', lastEmitAt' := blocks, deltaBlocks, posted, readings, lastEmitAt;
    cuts' := cuts;
    var closed;
    st', inString', escaped', started', finished, arrayDepth', objectDepth', objectStart', closed :=
      ScanNext(text, start, i, st, inString, escaped, started, arrayDepth, objectDepth, objectStart, cuts);
    if closed.Some? {
      var now := clock(readings);
      readings' := readings + 1;
      blocks', deltaBlocks', posted', lastEmitAt' :=
        CloseObject(text, parse, closed.value, i + 1, st', cuts, blocks, deltaBlocks, posted, totalHint, now, lastEmitAt);
      cuts' := cuts + [(closed.value, i + 1)];
    }
  }

  method StreamLoop<T>(text: string, start: nat, parse: string -> Option<T>, totalHint: Option<nat>, clock: nat -> int)
    returns (blocks: seq<T>, deltaBlocks: seq<T>, posted: seq<Progress<T>>, readings: nat, lastEmitAt: int)
    requires start <= |text|
    ensures Gathered(parse, text, Run(INITIAL, start, text[start..]).cuts, blocks, deltaBlocks, posted)
  {
    blocks, deltaBlocks, posted := [], [], [];
    var inString, escaped, started := false, false, false;
    var arrayDepth, objectDepth, objectStart := 0, 0, -1;
    readings := 1;
    lastEmitAt := clock(0);
    ghost var st, cuts := INITIAL, [];
    var i := start;
    NothingYet(parse, text, start);
    while i < |text|
      invariant start <= i <= |text|
      invariant Reached(text, start, i, st)
      invariant st == Scan(inString, escaped, started, false, arrayDepth, objectDepth, objectStart, cuts)
      invariant Gathered(parse, text, cuts, blocks, deltaBlocks, posted)
    {
      var finished;
      st, cuts, inString, escaped, started, finished, arrayDepth, objectDepth, objectStart,
        blocks, deltaBlocks, posted, readings, lastEmitAt :=
        StreamChar(text, start, parse, totalHint, clock, i, st, cuts, inString, escaped, started,
                   arrayDepth, objectDepth, objectStart, blocks, deltaBlocks, posted, readings, lastEmitAt);
      if finished {
        FinishedEarly(text, start, i, st);
        return;
      }
      i := i + 1;
    }
    assert text[start..i] == text[start..];
  }
}
