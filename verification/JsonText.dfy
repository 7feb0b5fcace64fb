/** JSON texts as RFC 8259 defines them: values together with the whitespace and the
    raw (still escaped) string bodies they are written with, so that the printer below
    reaches every JSON text and not only the output of one serializer. */
module JsonText {
  import opened WhiteSpace

  datatype Json =
    | Scalar(text: string)                        // number, true, false, null
    | Text(body: string)                          // string literal, between its quotes
    | Array(pad: string, elements: Elements)
    | Object(pad: string, members: Members)

  datatype Elements =
    | NoElements
    | Element(before: string, value: Json, after: string, rest: Elements)

  datatype Members =
    | NoMembers
    | Member(before: string, key: string, afterKey: string, beforeValue: string,
             value: Json, after: string, rest: Members)

  // ----- characters -----

  /** The four whitespace characters of RFC 8259 section 2. */
  predicate IsJsonSpace(c: char) {
    c == ' ' || c == '\t' || c == '\n' || c == '\r'
  }

  predicate IsScalarChar(c: char) {
    && !IsSpace(c)
    && c != '"' && c != '[' && c != ']' && c != '{' && c != '}' && c != ':' && c != ','
  }

  predicate Blank(s: string) {
    forall k | 0 <= k < |s| :: IsJsonSpace(s[k])
  }

  predicate IsScalarText(s: string) {
    s != "" && forall k | 0 <= k < |s| :: IsScalarChar(s[k])
  }

  /** A string body of RFC 8259 section 7 has no bare quote and no dangling backslash.
      Nothing else about escapes matters to a scanner, so nothing else is demanded. */
  predicate IsBody(s: string) {
    if s == "" then true
    else if s[0] == '\\' then |s| >= 2 && IsBody(s[2..])
    else s[0] != '"' && IsBody(s[1..])
  }

  predicate WellFormed(v: Json) {
    match v
    case Scalar(text) => IsScalarText(text)
    case Text(body) => IsBody(body)
    case Array(pad, elements) => Blank(pad) && WellFormedElements(elements)
    case Object(pad, members) => Blank(pad) && WellFormedMembers(members)
  }

  predicate WellFormedElements(es: Elements) {
    match es
    case NoElements => true
    case Element(before, value, after, rest) =>
      Blank(before) && WellFormed(value) && Blank(after) && WellFormedElements(rest)
  }

  predicate WellFormedMembers(ms: Members) {
    match ms
    case NoMembers => true
    case Member(before, key, afterKey, beforeValue, value, after, rest) =>
      && Blank(before) && IsBody(key) && Blank(afterKey) && Blank(beforeValue)
      && WellFormed(value) && Blank(after) && WellFormedMembers(rest)
  }

  // ----- printing -----

  function Quoted(body: string): string {
    "\"" + body + "\""
  }

  function Print(v: Json): string {
    match v
    case Scalar(text) => text
    case Text(body) => Quoted(body)
    case Array(pad, elements) => "[" + (pad + (PrintElements(elements) + "]"))
    case Object(pad, members) => "{" + (pad + (PrintMembers(members) + "}"))
  }

  function PrintElements(es: Elements): string {
    match es
    case NoElements => ""
    case Element(before, value, after, rest) =>
      Padded(before, Print(value), after) + (Separator(rest.Element?) + PrintElements(rest))
  }

  function PrintMembers(ms: Members): string {
    match ms
    case NoMembers => ""
    case Member(before, key, afterKey, beforeValue, value, after, rest) =>
      Padded(before, Quoted(key), afterKey)
        + (":" + (Padded(beforeValue, Print(value), after)
          + (Separator(rest.Member?) + PrintMembers(rest))))
  }

  function Padded(before: string, s: string, after: string): string {
    before + (s + after)
  }

  function Separator(more: bool): string {
    if more then "," else ""
  }
}
