/** findArrayStart: where the array of the first member with a given name begins. */
module ArrayFinder {
  import opened JsonText
  import opened Options
  import opened WhiteSpace

  /** How many of the leading characters are white space. */
  function Spaces(s: string): (n: nat)
    ensures n <= |s|
    ensures n < |s| ==> !IsSpace(s[n])
  {
    if s == "" || !IsSpace(s[0]) then 0 else 1 + Spaces(s[1..])
  }

  /** Where in `s` a `[` stands that follows blanks, a colon and blanks; -1 if none does. */
  function ColonBracket(s: string): int {
    var j := AfterSpaces(s, ':');
    if j < 0 then -1 else Shifted(AfterSpaces(s[j + 1..], '['), j + 1)
  }

  function Shifted(found: int, offset: int): int {
    if found < 0 then -1 else offset + found
  }

  /** Where the character stands that follows the blanks, if it is this one. */
  function AfterSpaces(s: string, ch: char): (j: int)
    ensures j < |s|
  {
    var j := Spaces(s);
    if j == |s| || s[j] != ch then -1 else j
  }

  /** The look-ahead at a quote: the offset of the `[` when the field starts here. */
  function Lookahead(s: string, field: string): int {
    var token := Quoted(field);
    if !(token <= s) then -1
    else
      var c := ColonBracket(s[|token|..]);
      if c < 0 then -1 else |token| + c
  }

  /** The loop of findArrayStart on the text that remains at position `i`. */
  function Find(s: string, i: int, field: string, inString: bool, escaped: bool): int
    decreases |s|
  {
    if |s| < |Quoted(field)| then -1
    else if inString then
      if escaped then Find(s[1..], i + 1, field, true, false)
      else if s[0] == '\\' then Find(s[1..], i + 1, field, true, true)
      else Find(s[1..], i + 1, field, s[0] != '"', false)
    else if s[0] != '"' then Find(s[1..], i + 1, field, false, false)
    else if Lookahead(s, field) >= 0 then i + Lookahead(s, field)
    else Find(s[1..], i + 1, field, true, false)
  }

  method FindArrayStart(text: string, field: string) returns (start: int)
    ensures start == Find(text, 0, field, false, false)
  {
    var inString, escaped := false, false;
    var i := 0;
    assert text[0..] == text;
    while i <= |text| - |Quoted(field)|
      invariant 0 <= i <= |text|
      invariant escaped ==> inString
      invariant Find(text, 0, field, false, false) == Find(text[i..], i, field, inString, escaped)
      decreases |text| - i
    {
      var ch := text[i];
      assert text[i..][1..] == text[i + 1..];
      if inString {
        if escaped {
          escaped := false;
        } else if ch == '\\' {
          escaped := true;
        } else if ch == '"' {
          inString := false;
        }
      } else if ch == '"' {
        var j := BracketAfter(text, i, field);
        if j >= 0 {
          return j;
        }
        inString := true;
        escaped := false;
      }
      i := i + 1;
    }
    return -1;
  }

  /** The look-ahead of the loop: where the `[` of the field stands, or -1. */
  method BracketAfter(text: string, i: nat, field: string) returns (j: int)
    requires i + |Quoted(field)| <= |text|
    ensures j == -1 || j >= i
    ensures Lookahead(text[i..], field) == if j >= 0 then j - i else -1
  {
    var token := Quoted(field);
    if !(token <= text[i..]) {
      return -1;
    }
    assert text[i..][|token|..] == text[i + |token|..];
    j := BracketAfterColon(text, i + |token|);
  }

  method BracketAfterColon(text: string, from: nat) returns (j: int)
    requires from <= |text|
    ensures j == -1 || j >= from
    ensures ColonBracket(text[from..]) == if j >= 0 then j - from else -1
  {
    j := SkipSpaces(text, from);
    if j == |text| || text[j] != ':' {
      return -1;
    }
    assert text[from..][j - from + 1..] == text[j + 1..];
    j := SkipSpaces(text, j + 1);
    if j == |text| || text[j] != '[' {
      return -1;
    }
  }

  method SkipSpaces(text: string, from: nat) returns (j: nat)
    requires from <= |text|
    ensures j == from + Spaces(text[from..])
  {
    j := from;
    while j < |text| && IsSpace(text[j])
      invariant from <= j <= |text|
      invariant Spaces(text[from..]) == j - from + Spaces(text[j..])
    {
      assert text[j..][1..] == text[j + 1..];
      j := j + 1;
    }
  }

  // ----- what it finds in a JSON text -----

  predicate Plain(field: string) {
    forall k | 0 <= k < |field| :: field[k] != '"' && field[k] != '\\'
  }

  /** The first member in text order whose name is spelled `field` and that holds an array, in a
      value printed at position `i`: where its `[` stands, and the array. A name spelled with
      escapes is another one. */
  function First(v: Json, i: int, field: string): Option<(int, Json)> {
    match v
    case Array(pad, elements) => FirstInElements(elements, i + 1 + |pad|, field)
    case Object(pad, members) => FirstInMembers(members, i + 1 + |pad|, field)
    case _ => None
  }

  function FirstInElements(es: Elements, i: int, field: string): Option<(int, Json)> {
    match es
    case NoElements => None
    case Element(before, value, after, rest) =>
      var here := First(value, i + |before|, field);
      if here.Some? then here
      else FirstInElements(rest,
             i + |Padded(before, Print(value), after)| + |Separator(rest.Element?)|, field)
  }

  function FirstInMembers(ms: Members, i: int, field: string): Option<(int, Json)> {
    match ms
    case NoMembers => None
    case Member(before, key, afterKey, beforeValue, value, after, rest) =>
      var name := Padded(before, Quoted(key), afterKey);
      var item := Padded(beforeValue, Print(value), after);
      var at := i + |name| + 1 + |beforeValue|;
      if key == field && value.Array? then Some((at, value))
      else
        var here := First(value, at, field);
        if here.Some? then here
        else FirstInMembers(rest, i + |name| + 1 + |item| + |Separator(rest.Member?)|, field)
  }

  function OrElse(here: Option<(int, Json)>, otherwise: int): int {
    match here
    case Some(found) => found.0
    case None => otherwise
  }

  predicate NoColon(s: string) {
    s == "" || (if IsSpace(s[0]) then NoColon(s[1..]) else s[0] != ':')
  }

  lemma {:induction false} NoColonMeansNoBracket(s: string)
    requires NoColon(s)
    ensures ColonBracket(s) == -1
  {
    if s != "" && IsSpace(s[0]) {
      NoColonMeansNoBracket(s[1..]);
      assert s[1..][Spaces(s[1..])..] == s[Spaces(s)..];
    }
  }

  lemma {:induction false} NoColonAfterBlank(a: string, b: string)
    requires Blank(a) && NoColon(b)
    ensures NoColon(a + b)
    decreases |a|
  {
    if a == "" {
      assert a + b == b;
    } else {
      assert (a + b)[1..] == a[1..] + b;
      NoColonAfterBlank(a[1..], b);
    }
  }

  lemma {:induction false} SpacesOfBlank(a: string, b: string)
    requires Blank(a) && b != "" && !IsSpace(b[0])
    ensures Spaces(a + b) == |a|
    decreases |a|
  {
    if a == "" {
      assert a + b == b;
    } else {
      assert (a + b)[1..] == a[1..] + b;
      SpacesOfBlank(a[1..], b);
    }
  }

  /** Text without a quote is passed over. */
  lemma {:induction false} FindSkips(a: string, post: string, i: int, field: string)
    requires forall k | 0 <= k < |a| :: a[k] != '"'
    ensures Find(a + post, i, field, false, false) == Find(post, i + |a|, field, false, false)
    decreases |a|
  {
    if a == "" {
      assert a + post == post;
    } else {
      assert (a + post)[1..] == a[1..] + post;
      FindSkips(a[1..], post, i + 1, field);
    }
  }

  lemma {:induction false} FindLeavesBody(body: string, post: string, i: int, field: string)
    requires IsBody(body)
    ensures Find(body + ("\"" + post), i, field, true, false) == Find(post, i + |body| + 1, field, false, false)
    decreases |body|
  {
    var s := body + ("\"" + post);
    if body == "" {
      assert s[0] == '"' && s[1..] == post;
    } else if body[0] == '\\' {
      assert s[1..][1..] == body[2..] + ("\"" + post);
      FindLeavesBody(body[2..], post, i + 2, field);
    } else {
      assert s[1..] == body[1..] + ("\"" + post);
      FindLeavesBody(body[1..], post, i + 1, field);
    }
  }

  lemma {:induction false} FindString(body: string, post: string, i: int, field: string)
    requires IsBody(body)
    ensures var s := Quoted(body) + post;
      Find(s, i, field, false, false)
      == if Lookahead(s, field) >= 0 then i + Lookahead(s, field)
         else Find(post, i + |Quoted(body)|, field, false, false)
  {
    var s := Quoted(body) + post;
    assert s[1..] == body + ("\"" + post);
    FindLeavesBody(body, post, i + 1, field);
  }

  /** A plain name followed by a quote can only start a string that is that very name. */
  lemma {:induction false} NameIsWholeString(body: string, post: string, field: string)
    requires IsBody(body) && Plain(field)
    requires field + "\"" <= body + ("\"" + post)
    ensures body == field
    decreases |field|
  {
    var token, s := field + "\"", body + ("\"" + post);
    assert token[0] == s[0];
    if field != "" && body != "" {
      assert token[1..] == field[1..] + "\"" && s[1..] == body[1..] + ("\"" + post);
      NameIsWholeString(body[1..], post, field[1..]);
    }
  }

  lemma {:induction false} LookaheadNeedsField(body: string, post: string, field: string)
    requires IsBody(body) && Plain(field)
    ensures Lookahead(Quoted(body) + post, field)
      == if body == field && ColonBracket(post) >= 0 then |Quoted(field)| + ColonBracket(post) else -1
  {
    var s := Quoted(body) + post;
    var token := Quoted(field);
    if body == field {
      assert token <= s && s[|token|..] == post;
    } else if token <= s {
      assert token[1..] == field + "\"" && s[1..] == body + ("\"" + post);
      NameIsWholeString(body, post, field);
    }
  }

  lemma {:induction false} FirstCharacter(v: Json)
    requires WellFormed(v)
    ensures Print(v) != "" && !IsSpace(Print(v)[0]) && (Print(v)[0] == '[' <==> v.Array?)
  {
  }

  lemma {:induction false} KeyLookahead(afterKey: string, beforeValue: string, v: Json, post: string)
    requires Blank(afterKey) && Blank(beforeValue) && WellFormed(v)
    ensures ColonBracket(afterKey + (":" + (beforeValue + (Print(v) + post))))
      == if v.Array? then |afterKey| + 1 + |beforeValue| else -1
  {
    FirstCharacter(v);
    var inner := beforeValue + (Print(v) + post);
    SpacesOfBlank(afterKey, ":" + inner);
    var s := afterKey + (":" + inner);
    assert s[|afterKey| + 1..] == inner;
    SpacesOfBlank(beforeValue, Print(v) + post);
  }

  lemma {:induction false} FindValue(v: Json, post: string, i: int, field: string)
    requires WellFormed(v) && Plain(field) && NoColon(post)
    ensures Find(Print(v) + post, i, field, false, false)
      == OrElse(First(v, i, field), Find(post, i + |Print(v)|, field, false, false))
    decreases v, 0
  {
    match v
    case Scalar(text) => FindSkips(text, post, i, field);
    case Text(body) => FindText(body, post, i, field);
    case Array(pad, elements) => FindInArray(pad, elements, post, i, field);
    case Object(pad, members) => FindInObject(pad, members, post, i, field);
  }

  lemma {:induction false} FindInArray(pad: string, es: Elements, post: string, i: int, field: string)
    requires WellFormed(Array(pad, es)) && Plain(field) && NoColon(post)
    ensures Find(Print(Array(pad, es)) + post, i, field, false, false)
      == OrElse(First(Array(pad, es), i, field), Find(post, i + |Print(Array(pad, es))|, field, false, false))
    decreases es, 1
  {
    FindElements(es, "]" + post, i + 1 + |pad|, field);
    FindBracketed("[", pad, PrintElements(es), "]", post, i, field);
  }

  lemma {:induction false} FindInObject(pad: string, ms: Members, post: string, i: int, field: string)
    requires WellFormed(Object(pad, ms)) && Plain(field) && NoColon(post)
    ensures Find(Print(Object(pad, ms)) + post, i, field, false, false)
      == OrElse(First(Object(pad, ms), i, field), Find(post, i + |Print(Object(pad, ms))|, field, false, false))
    decreases ms, 1
  {
    FindMembers(ms, "}" + post, i + 1 + |pad|, field);
    FindBracketed("{", pad, PrintMembers(ms), "}", post, i, field);
  }

  lemma {:induction false} FindText(body: string, post: string, i: int, field: string)
    requires IsBody(body) && Plain(field) && NoColon(post)
    ensures Find(Quoted(body) + post, i, field, false, false)
         == Find(post, i + |Quoted(body)|, field, false, false)
  {
    FindString(body, post, i, field);
    LookaheadNeedsField(body, post, field);
    NoColonMeansNoBracket(post);
  }

  lemma {:induction false} FindBracketed(left: string, pad: string, s: string, right: string, post: string, i: int, field: string)
    requires |left| == |right| == 1 && left[0] != '"' && right[0] != '"' && Blank(pad)
    ensures Find(left + (pad + (s + right)) + post, i, field, false, false)
         == Find(s + (right + post), i + 1 + |pad|, field, false, false)
    ensures Find(right + post, i + 1 + |pad| + |s|, field, false, false)
         == Find(post, i + |left + (pad + (s + right))|, field, false, false)
  {
    BracketText(left, pad, s, right, post);
    FindSkips(left + pad, s + (right + post), i, field);
    FindSkips(right, post, i + 1 + |pad| + |s|, field);
  }

  lemma {:induction false} BracketText(left: string, pad: string, s: string, right: string, post: string)
    ensures left + (pad + (s + right)) + post == left + pad + (s + (right + post))
  {
  }

  lemma {:induction false} SeparatorHasNoColon(more: bool, rest: string, post: string)
    requires !more ==> rest == "" && NoColon(post)
    ensures NoColon(Separator(more) + (rest + post))
  {
    if !more {
      assert Separator(more) + (rest + post) == post;
    }
  }

  /** An element, with the blanks around it. */
  lemma {:induction false} FindItem(before: string, v: Json, after: string, tail: string, i: int, field: string)
    requires Blank(before) && WellFormed(v) && Blank(after) && NoColon(tail) && Plain(field)
    ensures Find(Padded(before, Print(v), after) + tail, i, field, false, false)
      == OrElse(First(v, i + |before|, field),
                Find(tail, i + |Padded(before, Print(v), after)|, field, false, false))
    decreases v, 1
  {
    PaddedText(before, Print(v), after, tail);
    FindSkips(before, Print(v) + (after + tail), i, field);
    NoColonAfterBlank(after, tail);
    FindValue(v, after + tail, i + |before|, field);
    FindSkips(after, tail, i + |before| + |Print(v)|, field);
  }

  /** A member, with the blanks around its name and its value, and its separator. */
  lemma {:induction false} FindMember(before: string, key: string, afterKey: string, beforeValue: string,
                                      v: Json, after: string, more: bool, rest: string, post: string,
                                      i: int, field: string, text: string)
    requires text == Padded(before, Quoted(key), afterKey)
                     + (":" + (Padded(beforeValue, Print(v), after) + (Separator(more) + rest)))
    requires Blank(before) && IsBody(key) && Blank(afterKey) && Blank(beforeValue)
    requires WellFormed(v) && Blank(after) && Plain(field) && (!more ==> rest == "" && NoColon(post))
    ensures
      var name := Padded(before, Quoted(key), afterKey);
      var item := Padded(beforeValue, Print(v), after);
      Find(text + post, i, field, false, false)
      == if key == field && v.Array? then i + |name| + 1 + |beforeValue|
         else OrElse(First(v, i + |name| + 1 + |beforeValue|, field),
                     Find(rest + post, i + |name| + 1 + |item| + |Separator(more)|, field, false, false))
    decreases v, 3
  {
    var name := Padded(before, Quoted(key), afterKey);
    var item := Padded(beforeValue, Print(v), after);
    FindValueOfMember(beforeValue, v, after, more, rest, post, i + |name| + 1, field);
    BracketOfMember(afterKey, beforeValue, v, after, Separator(more) + (rest + post));
    FindKey(before, key, afterKey, item + (Separator(more) + (rest + post)), i, field);
    MemberText(name, item, Separator(more), rest, post, text);
  }

  lemma {:induction false} FindValueOfMember(beforeValue: string, v: Json, after: string, more: bool, rest: string,
                                             post: string, at: int, field: string)
    requires Blank(beforeValue) && WellFormed(v) && Blank(after) && Plain(field) && (!more ==> rest == "" && NoColon(post))
    ensures
      var item := Padded(beforeValue, Print(v), after);
      Find(item + (Separator(more) + (rest + post)), at, field, false, false)
      == OrElse(First(v, at + |beforeValue|, field),
                Find(rest + post, at + |item| + |Separator(more)|, field, false, false))
    decreases v, 2
  {
    SeparatorHasNoColon(more, rest, post);
    FindItem(beforeValue, v, after, Separator(more) + (rest + post), at, field);
    FindSkips(Separator(more), rest + post, at + |Padded(beforeValue, Print(v), after)|, field);
  }

  lemma {:induction false} BracketOfMember(afterKey: string, beforeValue: string, v: Json, after: string, tail: string)
    requires Blank(afterKey) && Blank(beforeValue) && WellFormed(v)
    ensures ColonBracket(afterKey + (":" + (Padded(beforeValue, Print(v), after) + tail)))
      == if v.Array? then |afterKey| + 1 + |beforeValue| else -1
  {
    PaddedText(beforeValue, Print(v), after, tail);
    KeyLookahead(afterKey, beforeValue, v, after + tail);
  }

  lemma {:induction false} FindKey(before: string, key: string, afterKey: string, value: string, i: int, field: string)
    requires Blank(before) && IsBody(key) && Blank(afterKey) && Plain(field)
    ensures
      var name := Padded(before, Quoted(key), afterKey);
      var bracket := ColonBracket(afterKey + (":" + value));
      Find(name + (":" + value), i, field, false, false)
      == if key == field && bracket >= 0 then i + |before| + |Quoted(key)| + bracket
         else Find(value, i + |name| + 1, field, false, false)
  {
    var name := Padded(before, Quoted(key), afterKey);
    var afterName := afterKey + (":" + value);
    var at := i + |before| + |Quoted(key)|;
    BlankBeforeKey(before, key, afterKey, value, i, field);
    FindString(key, afterName, i + |before|, field);
    LookaheadNeedsField(key, afterName, field);
    BlankBeforeValue(afterKey, value, at, field);
  }

  lemma {:induction false} BlankBeforeKey(before: string, key: string, afterKey: string, value: string, i: int, field: string)
    requires Blank(before)
    ensures Find(Padded(before, Quoted(key), afterKey) + (":" + value), i, field, false, false)
         == Find(Quoted(key) + (afterKey + (":" + value)), i + |before|, field, false, false)
  {
    PaddedText(before, Quoted(key), afterKey, ":" + value);
    FindSkips(before, Quoted(key) + (afterKey + (":" + value)), i, field);
  }

  lemma {:induction false} BlankBeforeValue(afterKey: string, value: string, at: int, field: string)
    requires Blank(afterKey)
    ensures Find(afterKey + (":" + value), at, field, false, false) == Find(value, at + |afterKey| + 1, field, false, false)
  {
    FindSkips(afterKey, ":" + value, at, field);
    FindSkips(":", value, at + |afterKey|, field);
  }

  lemma {:induction false} PaddedText(before: string, key: string, afterKey: string, tail: string)
    ensures Padded(before, key, afterKey) + tail == before + (key + (afterKey + tail))
  {
  }

  lemma {:induction false} Regroup(item: string, sep: string, rest: string, post: string)
    ensures item + (sep + rest) + post == item + (sep + (rest + post))
  {
  }

  lemma {:induction false} FindElements(es: Elements, post: string, i: int, field: string)
    requires WellFormedElements(es) && Plain(field) && NoColon(post)
    ensures Find(PrintElements(es) + post, i, field, false, false)
      == OrElse(FirstInElements(es, i, field), Find(post, i + |PrintElements(es)|, field, false, false))
    decreases es, 0
  {
    match es
    case NoElements => assert PrintElements(es) + post == post;
    case Element(before, value, after, rest) =>
      var item := Padded(before, Print(value), after);
      var sep := Separator(rest.Element?);
      Regroup(item, sep, PrintElements(rest), post);
      SeparatorHasNoColon(rest.Element?, PrintElements(rest), post);
      FindItem(before, value, after, sep + (PrintElements(rest) + post), i, field);
      FindSkips(sep, PrintElements(rest) + post, i + |item|, field);
      FindElements(rest, post, i + |item| + |sep|, field);
  }

  lemma {:induction false} FindMembers(ms: Members, post: string, i: int, field: string)
    requires WellFormedMembers(ms) && Plain(field) && NoColon(post)
    ensures Find(PrintMembers(ms) + post, i, field, false, false)
      == OrElse(FirstInMembers(ms, i, field), Find(post, i + |PrintMembers(ms)|, field, false, false))
    decreases ms, 0
  {
    match ms
    case NoMembers => assert PrintMembers(ms) + post == post;
    case Member(before, key, afterKey, beforeValue, value, after, rest) =>
      var text := PrintMembers(rest);
      var next := i + MemberLength(ms);
      FindMembers(rest, post, next, field);
      FindMember(before, key, afterKey, beforeValue, value, after, rest.Member?, text, post, i, field, PrintMembers(ms));
      LengthOfMembers(ms);
  }

  /** The characters of the first member, its separator included. */
  function MemberLength(ms: Members): nat
    requires ms.Member?
  {
    |Padded(ms.before, Quoted(ms.key), ms.afterKey)| + 1 + |Padded(ms.beforeValue, Print(ms.value), ms.after)|
    + |Separator(ms.rest.Member?)|
  }

  lemma {:induction false} LengthOfMembers(ms: Members)
    requires ms.Member?
    ensures |PrintMembers(ms)| == MemberLength(ms) + |PrintMembers(ms.rest)|
  {
  }

  lemma {:induction false} MemberText(name: string, item: string, sep: string, rest: string, post: string, text: string)
    requires text == name + (":" + (item + (sep + rest)))
    ensures text + post == name + (":" + (item + (sep + (rest + post))))
  {
    Regroup(item, sep, rest, post);
    assert name + (":" + (item + (sep + rest))) + post == name + (":" + (item + (sep + rest) + post));
  }

  /** Main result: over every JSON text, the array of the first such member, or -1. */
  lemma {:induction false} FindsFirstArray(before: string, v: Json, after: string, field: string)
    requires Blank(before) && WellFormed(v) && Blank(after) && Plain(field)
    ensures Find(Padded(before, Print(v), after), 0, field, false, false)
      == OrElse(First(v, |before|, field), -1)
  {
    FindsNothingIn("", |Padded(before, Print(v), after)|, field);
    FindItem(before, v, after, "", 0, field);
    AppendNothing(Padded(before, Print(v), after));
  }

  lemma {:induction false} FindsNothingIn(s: string, i: int, field: string)
    requires |s| < 2
    ensures Find(s, i, field, false, false) == -1
  {
  }

  lemma {:induction false} AppendNothing(s: string)
    ensures s + "" == s
  {
  }
}
