/** PRIMITIVE_ARRAY_RE: whether a text mentions an array of lines or boxes, so that it is left to the
    full parser. */
module PrimitiveGuard {
  import opened JsonText
  import opened WhiteSpace
  import opened ArrayFinder

  function Lower(c: char): char {
    if 'A' <= c <= 'Z' then c - 'A' + 'a' else c
  }

  /** `"field"\s*:\s*\[` matches at the start of `s`, letter case aside. */
  predicate PrimitiveAt(s: string, field: string) {
    var token := Quoted(field);
    && |token| <= |s|
    && (forall k | 0 <= k < |token| :: Lower(s[k]) == token[k])
    && ColonBracket(s[|token|..]) >= 0
  }

  predicate HasPrimitives(text: string) {
    exists i | 0 <= i <= |text| :: PrimitiveAt(text[i..], "lines") || PrimitiveAt(text[i..], "boxes")
  }

  // ----- what it recognises -----

  /** The small letter or its capital. */
  predicate IsLetter(c: char, small: char) {
    c == small || ('a' <= small <= 'z' && c as int == small as int - 'a' as int + 'A' as int)
  }

  predicate IsSpelling(name: string, field: string) {
    |name| == |field| && forall k | 0 <= k < |name| :: IsLetter(name[k], field[k])
  }

  /** A quoted name, blanks, a colon, blanks and an opening bracket. */
  function ArrayOf(name: string, a: string, b: string): string {
    Quoted(name) + (a + (":" + (b + "[")))
  }

  predicate IsMention(s: string, field: string, name: string, a: string, b: string) {
    IsSpelling(name, field) && IsBlank(a) && IsBlank(b) && ArrayOf(name, a, b) <= s
  }

  /** The text begins with such an array. */
  ghost predicate MentionsArray(s: string, field: string) {
    exists name, a, b :: IsMention(s, field, name, a, b)
  }

  ghost predicate MentionsPrimitives(text: string) {
    exists i | 0 <= i <= |text| :: MentionsArray(text[i..], "lines") || MentionsArray(text[i..], "boxes")
  }

  // ----- blanks -----

  lemma {:induction false} SpacesOfBlank(a: string, rest: string)
    requires IsBlank(a) && rest != "" && !IsSpace(rest[0])
    ensures Spaces(a + rest) == |a|
    decreases |a|
  {
    if a == "" {
      assert a + rest == rest;
    } else {
      SpacesOfBlank(a[1..], rest);
      assert (a + rest)[1..] == a[1..] + rest;
    }
  }

  lemma {:induction false} SpacesAreBlank(s: string)
    ensures IsBlank(s[..Spaces(s)])
    decreases |s|
  {
    if s != "" && IsSpace(s[0]) {
      SpacesAreBlank(s[1..]);
      assert s[..Spaces(s)] == [s[0]] + s[1..][..Spaces(s[1..])];
    }
  }

  /** A colon and a bracket are found between blanks, */
  lemma {:induction false} FindsColonBracket(a: string, b: string, rest: string)
    requires IsBlank(a) && IsBlank(b)
    ensures ColonBracket(a + (":" + (b + ("[" + rest)))) >= 0
  {
    var tail := b + ("[" + rest);
    SpacesOfBlank(a, ":" + tail);
    assert (a + (":" + tail))[|a| + 1..] == tail;
    SpacesOfBlank(b, "[" + rest);
  }

  lemma {:induction false} AfterBlanks(s: string, ch: char) returns (a: string)
    requires AfterSpaces(s, ch) >= 0
    ensures IsBlank(a) && |a| == AfterSpaces(s, ch) && s == a + ([ch] + s[|a| + 1..])
  {
    SpacesAreBlank(s);
    a := s[..Spaces(s)];
  }

  lemma {:induction false} PartsBegin(s: string, a: string, tail: string, b: string, rest: string)
    requires s == a + (":" + tail) && tail == b + ("[" + rest)
    ensures a + (":" + (b + "[")) <= s
  {
    assert s == (a + (":" + (b + "["))) + rest;
  }

  /** and nothing else is. */
  lemma {:induction false} ColonBracketIsThere(s: string) returns (a: string, b: string)
    requires ColonBracket(s) >= 0
    ensures IsBlank(a) && IsBlank(b) && a + (":" + (b + "[")) <= s
  {
    a := AfterBlanks(s, ':');
    var tail := s[|a| + 1..];
    b := AfterBlanks(tail, '[');
    PartsBegin(s, a, tail, b, tail[|b| + 1..]);
  }

  // ----- letters -----

  lemma {:induction false} LettersLower(c: char, small: char)
    requires 'a' <= small <= 'z'
    ensures IsLetter(c, small) <==> Lower(c) == small
  {
  }

  lemma {:induction false} SpellingIsLower(name: string, field: string)
    requires forall k | 0 <= k < |field| :: 'a' <= field[k] <= 'z'
    ensures IsSpelling(name, field) <==> |name| == |field| && forall k | 0 <= k < |name| :: Lower(name[k]) == field[k]
  {
    forall k | 0 <= k < |name| && |name| == |field| ensures IsLetter(name[k], field[k]) <==> Lower(name[k]) == field[k] {
      LettersLower(name[k], field[k]);
    }
  }

  // ----- the guard -----

  lemma {:induction false} MentionMatches(s: string, name: string, a: string, b: string, field: string)
    requires IsMention(s, field, name, a, b)
    requires forall k | 0 <= k < |field| :: 'a' <= field[k] <= 'z'
    ensures PrimitiveAt(s, field)
  {
    SpellingIsLower(name, field);
    var rest := s[|ArrayOf(name, a, b)|..];
    BehindName(s, name, a, b, rest);
    TokenStands(s, name, field);
    FindsColonBracket(a, b, rest);
    Matches(s, field, a + (":" + (b + ("[" + rest))));
  }

  lemma {:induction false} Matches(s: string, field: string, tail: string)
    requires |Quoted(field)| <= |s| && forall k | 0 <= k < |Quoted(field)| :: Lower(s[k]) == Quoted(field)[k]
    requires s[|Quoted(field)|..] == tail && ColonBracket(tail) >= 0
    ensures PrimitiveAt(s, field)
  {
  }

  lemma {:induction false} BehindName(s: string, name: string, a: string, b: string, rest: string)
    requires ArrayOf(name, a, b) <= s && rest == s[|ArrayOf(name, a, b)|..]
    ensures Quoted(name) <= s && s[|Quoted(name)|..] == a + (":" + (b + ("[" + rest)))
  {
    assert s == ArrayOf(name, a, b) + rest;
    assert s == Quoted(name) + (a + (":" + (b + ("[" + rest))));
  }

  lemma {:induction false} TokenStands(s: string, name: string, field: string)
    requires |name| == |field| && Quoted(name) <= s && forall k | 0 <= k < |name| :: Lower(name[k]) == field[k]
    ensures forall k | 0 <= k < |Quoted(field)| :: Lower(s[k]) == Quoted(field)[k]
  {
    forall k | 0 <= k < |Quoted(field)| ensures Lower(s[k]) == Quoted(field)[k] {
      assert s[k] == Quoted(name)[k];
    }
  }

  lemma {:induction false} MatchIsMentioned(s: string, field: string) returns (name: string, a: string, b: string)
    requires PrimitiveAt(s, field) && forall k | 0 <= k < |field| :: 'a' <= field[k] <= 'z'
    ensures IsMention(s, field, name, a, b)
  {
    var n := |Quoted(field)|;
    name := s[1..n - 1];
    NameStands(s, name, field);
    SpellingIsLower(name, field);
    a, b := ColonBracketIsThere(s[n..]);
    MentionStands(s, n, name, a, b, a + (":" + (b + "[")));
  }

  lemma {:induction false} MentionStands(s: string, n: nat, name: string, a: string, b: string, found: string)
    requires n <= |s| && s[..n] == Quoted(name) && found == a + (":" + (b + "[")) && found <= s[n..]
    ensures ArrayOf(name, a, b) <= s
  {
    assert s == s[..n] + s[n..];
    assert s == (Quoted(name) + found) + s[n..][|found|..];
  }

  lemma {:induction false} NameStands(s: string, name: string, field: string)
    requires PrimitiveAt(s, field) && name == s[1..|Quoted(field)| - 1]
    ensures |name| == |field| && Quoted(name) == s[..|Quoted(field)|]
    ensures forall k | 0 <= k < |name| :: Lower(name[k]) == field[k]
  {
    var token := Quoted(field);
    forall k | 0 <= k < |token| ensures Lower(s[k]) == token[k] {
    }
    assert Lower(s[0]) == '"' && Lower(s[|token| - 1]) == token[|token| - 1] == '"';
    forall k | 0 <= k < |name| ensures Lower(name[k]) == field[k] {
      assert name[k] == s[k + 1] && token[k + 1] == field[k];
    }
  }

  lemma {:induction false} MatchMeans(s: string, field: string)
    requires forall k | 0 <= k < |field| :: 'a' <= field[k] <= 'z'
    ensures PrimitiveAt(s, field) <==> MentionsArray(s, field)
  {
    if PrimitiveAt(s, field) {
      var name, a, b := MatchIsMentioned(s, field);
    }
    if MentionsArray(s, field) {
      var name, a, b :| IsMention(s, field, name, a, b);
      MentionMatches(s, name, a, b, field);
    }
  }

  lemma {:induction false} GuardMeansAt(s: string)
    ensures PrimitiveAt(s, "lines") || PrimitiveAt(s, "boxes") <==> MentionsArray(s, "lines") || MentionsArray(s, "boxes")
  {
    MatchMeans(s, "lines");
    MatchMeans(s, "boxes");
  }

  /** The guard finds exactly the texts that hold such an array somewhere, whatever the case of its
      name and the blanks around its colon. */
  lemma {:induction false} GuardMeans(text: string)
    ensures HasPrimitives(text) <==> MentionsPrimitives(text)
  {
    if HasPrimitives(text) {
      var i :| 0 <= i <= |text| && (PrimitiveAt(text[i..], "lines") || PrimitiveAt(text[i..], "boxes"));
      GuardMeansAt(text[i..]);
    }
    if MentionsPrimitives(text) {
      var i :| 0 <= i <= |text| && (MentionsArray(text[i..], "lines") || MentionsArray(text[i..], "boxes"));
      GuardMeansAt(text[i..]);
    }
  }
}
