/** White space and line terminators, as the class \s and String.prototype.trim know them. */
module WhiteSpace {

  /** What the regular expression class \s matches. */
  predicate IsSpace(c: char) {
    || '\t' <= c <= '\r'
    || c == ' '
    || c == '\U{A0}' || c == '\U{1680}'
    || '\U{2000}' <= c <= '\U{200A}'
    || c == '\U{2028}' || c == '\U{2029}' || c == '\U{202F}' || c == '\U{205F}'
    || c == '\U{3000}' || c == '\U{FEFF}'
  }

  /** The code points of white space and line terminators, by ECMAScript 2024 sections 12.2 and 12.3. */
  lemma {:induction false} SpaceCodes(c: char)
    ensures IsSpace(c) <==>
      var n := c as int;
      9 <= n <= 13 || 8192 <= n <= 8202 || n in {32, 160, 5760, 8232, 8233, 8239, 8287, 12288, 65279}
  {
  }

  /** text.trim() */
  function Trimmed(s: string): (t: string)
    ensures |t| <= |s|
  {
    TrimmedEnd(TrimmedStart(s))
  }

  function TrimmedStart(s: string): (t: string)
    ensures |t| <= |s|
  {
    if s != "" && IsSpace(s[0]) then TrimmedStart(s[1..]) else s
  }

  function TrimmedEnd(s: string): (t: string)
    ensures |t| <= |s|
  {
    if s != "" && IsSpace(s[|s| - 1]) then TrimmedEnd(s[..|s| - 1]) else s
  }

  predicate IsBlank(s: string) {
    forall k | 0 <= k < |s| :: IsSpace(s[k])
  }

  /** What is cut off is blank, and what is left neither begins nor ends with white space. */
  lemma {:induction false} TrimmedMeans(s: string) returns (before: string, after: string)
    ensures s == before + Trimmed(s) + after && IsBlank(before) && IsBlank(after)
    ensures Trimmed(s) != "" ==> !IsSpace(Trimmed(s)[0]) && !IsSpace(Trimmed(s)[|Trimmed(s)| - 1])
    ensures Trimmed(s) == "" <==> IsBlank(s)
  {
    before := StartMeans(s);
    after := EndMeans(TrimmedStart(s));
    MiddleMeans(s, before, Trimmed(s), after);
  }

  lemma {:induction false} MiddleMeans(s: string, before: string, t: string, after: string)
    requires s == before + (t + after) && IsBlank(before) && IsBlank(after) && (t != "" ==> !IsSpace(t[0]))
    ensures s == before + t + after && (t == "" <==> IsBlank(s))
  {
    if t == "" {
      assert s == before + after;
    } else {
      assert s[|before|] == t[0];
    }
  }

  lemma {:induction false} StartMeans(s: string) returns (before: string)
    ensures s == before + TrimmedStart(s) && IsBlank(before)
    ensures TrimmedStart(s) != "" ==> !IsSpace(TrimmedStart(s)[0])
  {
    before := "";
    if s != "" && IsSpace(s[0]) {
      var rest := StartMeans(s[1..]);
      before := [s[0]] + rest;
      assert s == [s[0]] + s[1..];
    }
  }

  lemma {:induction false} EndMeans(s: string) returns (after: string)
    ensures s == TrimmedEnd(s) + after && IsBlank(after)
    ensures TrimmedEnd(s) != "" ==> TrimmedEnd(s)[0] == s[0] && !IsSpace(TrimmedEnd(s)[|TrimmedEnd(s)| - 1])
  {
    after := "";
    if s != "" && IsSpace(s[|s| - 1]) {
      var rest := EndMeans(s[..|s| - 1]);
      after := rest + [s[|s| - 1]];
      assert s == s[..|s| - 1] + [s[|s| - 1]];
    }
  }

  predicate IsTrimmed(t: string) {
    t != "" && !IsSpace(t[0]) && !IsSpace(t[|t| - 1])
  }

  /** Blanks around a text are cut off, and nothing else. */
  lemma {:induction false} TrimmedIsThere(before: string, t: string, after: string)
    requires IsBlank(before) && IsBlank(after) && IsTrimmed(t)
    ensures Trimmed(before + (t + after)) == t
  {
    StartIsCut(before, t + after);
    EndIsCut(t, after);
  }

  lemma {:induction false} StartIsCut(before: string, rest: string)
    requires IsBlank(before) && rest != "" && !IsSpace(rest[0])
    ensures TrimmedStart(before + rest) == rest
    decreases |before|
  {
    if before == "" {
      assert before + rest == rest;
    } else {
      StartIsCut(before[1..], rest);
      assert (before + rest)[1..] == before[1..] + rest;
    }
  }

  lemma {:induction false} EndIsCut(t: string, after: string)
    requires IsBlank(after) && t != "" && !IsSpace(t[|t| - 1])
    ensures TrimmedEnd(t + after) == t
    decreases |after|
  {
    if after == "" {
      assert t + after == t;
    } else {
      EndIsCut(t, after[..|after| - 1]);
      assert (t + after)[..|t + after| - 1] == t + after[..|after| - 1];
    }
  }
}
