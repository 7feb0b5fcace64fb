/** The search for a tool call in a provider's response: breadth first through objects, arrays
    and JSON held in strings. */
module ToolCallSearch {
  import opened Options
  import opened WhiteSpace
  import opened JsonValue
  import opened TopLevelObjects
  import BlockStream
  import opened BreadthFirst

  /** JSON.parse; None when it throws. */
  type Parser = string -> Option<Value>

  const TOOL_NAME := "voxel.exec"

  // ----- JSON in strings -----

  /** The JSON a string holds, if any: the whole of it, or the first object that parses. */
  function MaybeParse(parse: Parser, text: string): Option<Value> {
    var trimmed := Trimmed(text);
    if trimmed == "" || (trimmed[0] != '{' && trimmed[0] != '[') then None
    else
      var found := if parse(trimmed).Some? then parse(trimmed) else ExtractFirst(parse, trimmed);
      if found == Some(Null) then None else found
  }

  /** The first of the top-level objects of a text that parse. */
  ghost predicate IsFirstObject(parse: Parser, text: string, v: Value) {
    var slices := TopSlices(text);
    exists k | 0 <= k < |slices| :: parse(slices[k]) == Some(v) && forall j | 0 <= j < k :: parse(slices[j]).None?
  }

  /** What the text `t` between blanks holds: an object or an array that is the whole of it, or,
      if the whole does not parse, its first object that does. */
  ghost predicate HoldsValue(parse: Parser, t: string, v: Value) {
    && IsTrimmed(t) && (t[0] == '{' || t[0] == '[') && v != Null
    && if parse(t).Some? then parse(t) == Some(v) else IsFirstObject(parse, t, v)
  }

  ghost predicate IsHeld(parse: Parser, text: string, v: Value) {
    exists before, t, after :: StandsBetween(text, before, t, after) && HoldsValue(parse, t, v)
  }

  predicate StandsBetween(text: string, before: string, t: string, after: string) {
    text == before + (t + after) && IsBlank(before) && IsBlank(after)
  }

  lemma {:induction false} FirstParsed(parse: Parser, slices: seq<string>)
    ensures
      var parsed := BlockStream.Parsed(parse, slices);
      && (parsed == [] <==> forall k | 0 <= k < |slices| :: parse(slices[k]).None?)
      && (parsed != [] ==>
            exists k | 0 <= k < |slices| :: parse(slices[k]) == Some(parsed[0]) && forall j | 0 <= j < k :: parse(slices[j]).None?)
    decreases |slices|
  {
    if slices != [] {
      var init := slices[..|slices| - 1];
      FirstParsed(parse, init);
      forall k | 0 <= k < |init| ensures init[k] == slices[k] {
      }
    }
  }

  lemma {:induction false} FirstObjectIsFirst(parse: Parser, text: string, v: Value)
    ensures ExtractFirst(parse, text) == Some(v) <==> IsFirstObject(parse, text, v)
  {
    FirstParsed(parse, TopSlices(text));
  }

  /** What MaybeParse makes of the text between the blanks. */
  lemma {:induction false} TrimmedHolds(parse: Parser, text: string, t: string, v: Value)
    requires t == Trimmed(text) && (t != "" ==> IsTrimmed(t))
    ensures MaybeParse(parse, text) == Some(v) <==> HoldsValue(parse, t, v)
  {
    FirstObjectIsFirst(parse, t, v);
  }

  /** A string is taken for JSON exactly when it holds some. */
  lemma {:induction false} MaybeParseMeans(parse: Parser, text: string, v: Value)
    ensures MaybeParse(parse, text) == Some(v) <==> IsHeld(parse, text, v)
  {
    var first, last := TrimmedMeans(text);
    assert first + Trimmed(text) + last == first + (Trimmed(text) + last);
    TrimmedHolds(parse, text, Trimmed(text), v);
    if IsHeld(parse, text, v) {
      var before, t, after :| StandsBetween(text, before, t, after) && HoldsValue(parse, t, v);
      TrimmedIsThere(before, t, after);
    } else {
      assert !StandsBetween(text, first, Trimmed(text), last) || !HoldsValue(parse, Trimmed(text), v);
    }
  }

  // ----- does a node hold the call? -----

  /** The call handed on: { tool, input } built from its parts, or an object used as it is. */
  datatype Envelope = Made(input: Option<Value>) | Given(call: Value)

  predicate Has(v: Value, key: string) {
    Get(v, key).Some?
  }

  predicate IsWrapped(v: Value) {
    v.Obj? && IsText(Get(v, "tool"), TOOL_NAME) && Has(v, "input")
  }

  function ToEnvelope(parse: Parser, name: Option<Value>, payload: Option<Value>): Option<Envelope> {
    if !IsText(name, TOOL_NAME) then None
    else if payload.Some? && payload.value.Str? then
      match MaybeParse(parse, payload.value.s)
      case None => None
      case Some(parsed) => Some(if IsWrapped(parsed) then Given(parsed) else Made(Some(parsed)))
    else if payload.Some? && IsWrapped(payload.value) then Some(Given(payload.value))
    else Some(Made(payload))
  }

  /** node.input ?? node.arguments ?? node.parameters */
  function Payload(v: Value): Option<Value> {
    Coalesce(Coalesce(Get(v, "input"), Get(v, "arguments")), Get(v, "parameters"))
  }

  predicate IsRawCall(v: Value) {
    v.Obj? && Has(v, "code") && Get(v, "code").value.Str? && Has(v, "gridSize") && Has(v, "palette")
  }

  function Match(parse: Parser, v: Value): Option<Envelope> {
    if !v.Obj? then None
    else if IsRawCall(v) then Some(Made(Some(v)))
    else if IsWrapped(v) then Some(Made(Get(v, "input")))
    else
      var direct := ToEnvelope(parse, Get(v, "name"), Payload(v));
      if direct.Some? then direct
      else if Has(v, "function") && Get(v, "function").value.Obj? then
        ToEnvelope(parse, Get(Get(v, "function").value, "name"), Payload(Get(v, "function").value))
      else None
  }

  // ----- what a call looks like -----

  /** The arguments of the function, with its three parameters. */
  predicate IsRaw(v: Value) {
    && v.Obj? && Get(v, "code").Some? && Get(v, "code").value.Str?
    && Get(v, "gridSize").Some? && Get(v, "palette").Some?
  }

  predicate IsEnvelope(v: Value) {
    v.Obj? && Get(v, "tool") == Some(Str("voxel.exec")) && Get(v, "input").Some?
  }

  /** Of three properties the first that is neither missing nor null. */
  predicate IsPayload(v: Value, payload: Option<Value>) {
    var input, arguments := Get(v, "input"), Get(v, "arguments");
    if input.Some? && input.value != Null then payload == input
    else if arguments.Some? && arguments.value != Null then payload == arguments
    else payload == Get(v, "parameters")
  }

  /** A text is handed on as the JSON it holds, and an envelope as it is. */
  ghost predicate IsHandedOn(parse: Parser, payload: Option<Value>, e: Envelope) {
    if payload.Some? && payload.value.Str? then
      exists w :: IsHeld(parse, payload.value.s, w) && e == if IsEnvelope(w) then Given(w) else Made(Some(w))
    else e == if payload.Some? && IsEnvelope(payload.value) then Given(payload.value) else Made(payload)
  }

  ghost predicate IsNamed(parse: Parser, v: Value, e: Envelope) {
    && Get(v, "name") == Some(Str("voxel.exec"))
    && exists payload :: IsPayload(v, payload) && IsHandedOn(parse, payload, e)
  }

  /** The arguments themselves; or an envelope; or a call by name, of the object or else of its
      function. */
  ghost predicate IsCall(parse: Parser, v: Value, e: Envelope) {
    && v.Obj?
    && if IsRaw(v) then e == Made(Some(v))
       else if IsEnvelope(v) then e == Made(Get(v, "input"))
       else
         || IsNamed(parse, v, e)
         || ((forall other :: !IsNamed(parse, v, other))
             && Get(v, "function").Some? && Get(v, "function").value.Obj? && IsNamed(parse, Get(v, "function").value, e))
  }

  lemma {:induction false} HandedOn(parse: Parser, payload: Option<Value>, e: Envelope)
    ensures ToEnvelope(parse, Some(Str("voxel.exec")), payload) == Some(e) <==> IsHandedOn(parse, payload, e)
  {
    if payload.Some? && payload.value.Str? {
      var s := payload.value.s;
      if MaybeParse(parse, s).Some? {
        MaybeParseMeans(parse, s, MaybeParse(parse, s).value);
      }
      if IsHandedOn(parse, payload, e) {
        var w :| IsHeld(parse, s, w) && e == if IsEnvelope(w) then Given(w) else Made(Some(w));
        MaybeParseMeans(parse, s, w);
      }
    }
  }

  lemma {:induction false} NamedMeans(parse: Parser, v: Value, e: Envelope)
    ensures ToEnvelope(parse, Get(v, "name"), Payload(v)) == Some(e) <==> IsNamed(parse, v, e)
  {
    HandedOn(parse, Payload(v), e);
    assert IsPayload(v, Payload(v));
  }

  /** A node is taken for a call, and handed on, in exactly these cases. */
  lemma {:induction false} MatchMeans(parse: Parser, v: Value, e: Envelope)
    ensures Match(parse, v) == Some(e) <==> IsCall(parse, v, e)
  {
    NamedMeans(parse, v, e);
    var direct := ToEnvelope(parse, Get(v, "name"), Payload(v));
    if direct.Some? {
      NamedMeans(parse, v, direct.value);
    }
    forall other ensures direct.None? ==> !IsNamed(parse, v, other) {
      NamedMeans(parse, v, other);
    }
    if Has(v, "function") {
      NamedMeans(parse, Get(v, "function").value, e);
    }
  }

  /** A provider's wrapper around a call: its name, and the payload under one of three keys. */
  predicate Names(v: Value, payload: Value) {
    v.Obj? && !IsRawCall(v) && !IsWrapped(v) && Get(v, "name") == Some(Str("voxel.exec")) && IsPayload(v, Some(payload))
  }

  /** The same arguments are found in whichever of the provider shapes they come: as a record or
      as text, named directly or under "function", whatever other properties the shape has. */
  lemma {:induction false} ProviderShapesAgree(parse: Parser, args: Value, text: string, v: Value)
    requires MaybeParse(parse, text) == Some(args) && args.Obj? && !IsWrapped(args)
    ensures !IsRawCall(v) && IsWrapped(v) && Get(v, "input") == Some(args) ==> Match(parse, v) == Some(Made(Some(args)))
    ensures Names(v, args) || Names(v, Str(text)) ==> Match(parse, v) == Some(Made(Some(args)))
    ensures v.Obj? && !IsRawCall(v) && !IsWrapped(v) && !IsText(Get(v, "name"), TOOL_NAME) && Has(v, "function")
      && (Names(Get(v, "function").value, args) || Names(Get(v, "function").value, Str(text)))
      ==> Match(parse, v) == Some(Made(Some(args)))
    ensures IsRawCall(args) ==> Match(parse, args) == Some(Made(Some(args)))
  {
  }

  // ----- the tree of nodes -----

  datatype Node = Node(value: Value, path: string)

  function Decimal(n: nat): string {
    if n < 10 then ['0' + n as char] else Decimal(n / 10) + ['0' + (n % 10) as char]
  }

  function Children(parse: Parser, node: Node): seq<Node> {
    match node.value
    case List(items) =>
      seq(|items|, i requires 0 <= i < |items| => Node(items[i], node.path + "[" + Decimal(i) + "]"))
    case Obj(fields) =>
      seq(|fields|, i requires 0 <= i < |fields| => Node(fields[i].value, node.path + "." + fields[i].key))
    case Str(s) =>
      (match MaybeParse(parse, s)
       case None => []
       case Some(parsed) => [Node(parsed, node.path + "<json>")])
    case _ => []
  }

  /** Decimal digits, without a zero in front, that count up to n. */
  lemma {:induction false} DecimalMeans(n: nat)
    ensures Decimal(n) != "" && (forall k | 0 <= k < |Decimal(n)| :: '0' <= Decimal(n)[k] <= '9')
    ensures Decimal(n)[0] == '0' ==> n == 0 && Decimal(n) == "0"
    ensures Amount(Decimal(n)) == n
  {
    if n >= 10 {
      DecimalMeans(n / 10);
      assert Decimal(n)[..|Decimal(n)| - 1] == Decimal(n / 10);
    }
  }

  /** The number that digits stand for. */
  function Amount(digits: string): int {
    if digits == "" then 0 else 10 * Amount(digits[..|digits| - 1]) + (digits[|digits| - 1] as int - '0' as int)
  }

  function Step(parse: Parser): Node -> seq<Node> {
    (node: Node) => Children(parse, node)
  }

  function Wanted(parse: Parser): Node -> bool {
    (node: Node) => Match(parse, node.value).Some?
  }

  // ----- sizes -----

  function Size(v: Value): (n: nat)
    ensures n >= 1
    decreases v, if v.List? then |v.items| + 1 else if v.Obj? then |v.fields| + 1 else 0
  {
    match v
    case List(items) => 2 + SizeOfItems(v, |items|)
    case Obj(fields) => 2 + SizeOfFields(v, |fields|)
    case Str(s) => 2 + |s|
    case _ => 1
  }

  function SizeOfItems(v: Value, n: nat): nat
    requires v.List? && n <= |v.items|
    decreases v, n
  {
    if n == 0 then 0 else SizeOfItems(v, n - 1) + Size(v.items[n - 1])
  }

  function SizeOfFields(v: Value, n: nat): nat
    requires v.Obj? && n <= |v.fields|
    decreases v, n
  {
    if n == 0 then 0 else SizeOfFields(v, n - 1) + |v.fields[n - 1].key| + Size(v.fields[n - 1].value)
  }

  function Total(nodes: seq<Node>): nat {
    if nodes == [] then 0 else Total(nodes[..|nodes| - 1]) + Size(nodes[|nodes| - 1].value)
  }

  /** A value takes at least as many characters to write as its size: two for the quotes of a
      string, the brackets of an array or the braces of an object, and at least one for
      everything else. */
  ghost predicate SizesAreBounded(parse: Parser) {
    forall text :: parse(text).Some? ==> Size(parse(text).value) <= |text|
  }

  lemma {:induction false} TotalInTwo(a: seq<Node>, b: seq<Node>)
    ensures Total(a + b) == Total(a) + Total(b)
    decreases |b|
  {
    if b == [] {
      assert a + b == a;
    } else {
      assert (a + b)[..|a + b| - 1] == a + b[..|b| - 1];
      TotalInTwo(a, b[..|b| - 1]);
    }
  }

  lemma {:induction false} TotalOfItems(parse: Parser, node: Node, n: nat)
    requires node.value.List? && n <= |node.value.items|
    ensures Total(Children(parse, node)[..n]) == SizeOfItems(node.value, n)
    decreases n
  {
    if n > 0 {
      TotalOfItems(parse, node, n - 1);
      assert Children(parse, node)[..n][..n - 1] == Children(parse, node)[..n - 1];
    }
  }

  lemma {:induction false} TotalOfFields(parse: Parser, node: Node, n: nat)
    requires node.value.Obj? && n <= |node.value.fields|
    ensures Total(Children(parse, node)[..n]) <= SizeOfFields(node.value, n)
    decreases n
  {
    if n > 0 {
      TotalOfFields(parse, node, n - 1);
      assert Children(parse, node)[..n][..n - 1] == Children(parse, node)[..n - 1];
    }
  }

  lemma {:induction false} ParsedIsSmaller(parse: Parser, text: string)
    requires SizesAreBounded(parse) && MaybeParse(parse, text).Some?
    ensures Size(MaybeParse(parse, text).value) <= |text|
  {
    var trimmed := Trimmed(text);
    if parse(trimmed).None? {
      FirstIsSmaller(parse, trimmed, TopSlices(trimmed));
    }
  }

  lemma {:induction false} FirstIsSmaller(parse: Parser, text: string, slices: seq<string>)
    requires SizesAreBounded(parse) && forall k | 0 <= k < |slices| :: |slices[k]| <= |text|
    ensures forall v | v in BlockStream.Parsed(parse, slices) :: Size(v) <= |text|
    decreases |slices|
  {
    if slices != [] {
      FirstIsSmaller(parse, text, slices[..|slices| - 1]);
    }
  }

  /** Replacing a node by its children makes the queue smaller, whatever is nested in strings. */
  lemma {:induction false} ChildrenAreSmaller(parse: Parser, node: Node)
    requires SizesAreBounded(parse)
    ensures Total(Children(parse, node)) < Size(node.value)
  {
    var children := Children(parse, node);
    assert children[..|children|] == children;
    match node.value
    case List(items) => TotalOfItems(parse, node, |items|);
    case Obj(fields) => TotalOfFields(parse, node, |fields|);
    case Str(s) =>
      if MaybeParse(parse, s).Some? {
        ParsedIsSmaller(parse, s);
        assert children[..0] == [];
      }
    case _ =>
  }

  // ----- the search -----

  /** Main result: the search ends on every payload; it finds nothing exactly when no reachable
      node matches, and otherwise the first match in breadth-first order. */
  method ExtractToolCall(parse: Parser, root: Value) returns (found: Option<(Envelope, string)>)
    requires SizesAreBounded(parse)
    ensures found.Some? <==> IsReachable(Step(parse), Wanted(parse), Node(root, "$"))
    ensures found.Some? ==> exists n: nat, i: nat :: IsFoundAt(parse, root, n, i, found.value)
    ensures found.Some? <==> HoldsCall(parse, root)
    ensures found.Some? ==> exists turns, v :: IsFirstCall(parse, root, turns, v, found.value)
  {
    ghost var step, wanted, top := Step(parse), Wanted(parse), Node(root, "$");
    ReachableHolds(parse, root);
    var queue := [Node(root, "$")];
    ghost var n: nat, i: nat := 0, 0;
    FirstQueue(step, wanted, top);
    while queue != []
      invariant IsQueue(step, wanted, top, n, i, queue)
      decreases Total(queue)
    {
      n, i := QueueHead(step, wanted, top, n, i, queue);
      var current := queue[0];
      var direct := Match(parse, current.value);
      if direct.Some? {
        assert IsFoundAt(parse, root, n, i, (direct.value, current.path));
        FirstIsReachable(step, wanted, top, n, i);
        ghost var turns, v := FoundIsFirst(parse, root, n, i, (direct.value, current.path));
        return Some((direct.value, current.path));
      }
      QueueShrinks(parse, queue);
      queue := queue[1..] + Children(parse, current);
      i := i + 1;
    }
    NothingLeft(step, wanted, top, n, i);
    return None;
  }

  /** The i-th node of level n is the first to match, and the call and its path are its own. */
  ghost predicate IsFoundFrom(parse: Parser, root: Node, n: nat, i: nat, found: (Envelope, string)) {
    && IsFirst(Step(parse), Wanted(parse), root, n, i)
    && var node := Level(Step(parse), root, n)[i];
       Match(parse, node.value) == Some(found.0) && node.path == found.1
  }

  ghost predicate IsFoundAt(parse: Parser, root: Value, n: nat, i: nat, found: (Envelope, string)) {
    IsFoundFrom(parse, Node(root, "$"), n, i, found)
  }

  lemma {:induction false} QueueShrinks(parse: Parser, queue: seq<Node>)
    requires SizesAreBounded(parse) && queue != []
    ensures Total(queue[1..] + Children(parse, queue[0])) < Total(queue)
  {
    assert queue == [queue[0]] + queue[1..];
    TotalInTwo([queue[0]], queue[1..]);
    assert [queue[0]][..0] == [];
    TotalInTwo(queue[1..], Children(parse, queue[0]));
    ChildrenAreSmaller(parse, queue[0]);
  }

  // ----- what can be reached -----

  /** One turn: to an item of an array, to a property of an object or into the JSON of a string. */
  ghost predicate Goes(parse: Parser, v: Value, turn: nat, to: Value, place: string) {
    match v
    case List(items) => turn < |items| && to == items[turn] && place == "[" + Decimal(turn) + "]"
    case Obj(fields) => turn < |fields| && to == fields[turn].value && place == "." + fields[turn].key
    case Str(s) => turn == 0 && IsHeld(parse, s, to) && place == "<json>"
    case _ => false
  }

  /** The turns lead from the payload to the value, along the path. */
  ghost predicate Leads(parse: Parser, root: Value, turns: seq<nat>, v: Value, path: string)
    decreases |turns|, 1
  {
    if turns == [] then v == root && path == "$"
    else exists from, before, place :: LeadsOn(parse, root, turns, from, before, place, v, path)
  }

  ghost predicate LeadsOn(parse: Parser, root: Value, turns: seq<nat>, from: Value, before: string, place: string, v: Value, path: string)
    requires turns != []
    decreases |turns|, 0
  {
    && Leads(parse, root, turns[..|turns| - 1], from, before)
    && Goes(parse, from, turns[|turns| - 1], v, place) && path == before + place
  }

  lemma {:induction false} ChildIsGone(parse: Parser, node: Node, turn: nat, v: Value, path: string)
    ensures turn < |Children(parse, node)| && Children(parse, node)[turn] == Node(v, path)
       <==> exists place :: Goes(parse, node.value, turn, v, place) && path == node.path + place
  {
    match node.value
    case List(items) =>
      if turn < |items| {
        assert node.path + "[" + Decimal(turn) + "]" == node.path + ("[" + Decimal(turn) + "]");
      }
    case Obj(fields) =>
      if turn < |fields| {
        assert node.path + "." + fields[turn].key == node.path + ("." + fields[turn].key);
      }
    case Str(s) => MaybeParseMeans(parse, s, v);
    case _ =>
  }

  lemma {:induction false} LastTurn(parse: Parser, root: Value, turns: seq<nat>, v: Value, path: string)
    returns (from: Value, before: string, place: string)
    requires turns != [] && Leads(parse, root, turns, v, path)
    ensures LeadsOn(parse, root, turns, from, before, place, v, path)
  {
    from, before, place :| LeadsOn(parse, root, turns, from, before, place, v, path);
  }

  /** Following the turns and being led by them is the same. */
  lemma {:induction false} FollowLeads(parse: Parser, root: Value, turns: seq<nat>, v: Value, path: string)
    ensures Follow(Step(parse), Node(root, "$"), turns) == Some(Node(v, path)) <==> Leads(parse, root, turns, v, path)
    decreases |turns|
  {
    if turns != [] {
      var init, turn := turns[..|turns| - 1], turns[|turns| - 1];
      var parent := Follow(Step(parse), Node(root, "$"), init);
      if parent.Some? {
        FollowLeads(parse, root, init, parent.value.value, parent.value.path);
        ChildIsGone(parse, parent.value, turn, v, path);
      }
      if Leads(parse, root, turns, v, path) {
        var from, before, place := LastTurn(parse, root, turns, v, path);
        FollowLeads(parse, root, init, from, before);
        ChildIsGone(parse, Node(from, before), turn, v, path);
      } else if parent.Some? && turn < |Children(parse, parent.value)| && Children(parse, parent.value)[turn] == Node(v, path) {
        var place :| Goes(parse, parent.value.value, turn, v, place) && path == parent.value.path + place;
        assert LeadsOn(parse, root, turns, parent.value.value, parent.value.path, place, v, path);
      }
    }
  }

  /** The call found: what the turns lead to holds it, and all other turns that lead to one come
      later. */
  ghost predicate IsFirstCall(parse: Parser, root: Value, turns: seq<nat>, v: Value, found: (Envelope, string)) {
    && Leads(parse, root, turns, v, found.1) && Match(parse, v) == Some(found.0)
    && forall others, w, path :: Leads(parse, root, others, w, path) && Match(parse, w).Some? ==>
         others == turns || ComesBefore(turns, others)
  }

  ghost predicate HoldsCall(parse: Parser, root: Value) {
    exists turns, v, path :: Leads(parse, root, turns, v, path) && Match(parse, v).Some?
  }

  lemma {:induction false} ReachableHolds(parse: Parser, root: Value)
    ensures IsReachable(Step(parse), Wanted(parse), Node(root, "$")) <==> HoldsCall(parse, root)
  {
    var step, top := Step(parse), Node(root, "$");
    if IsReachable(step, Wanted(parse), top) {
      var turns :| Follow(step, top, turns).Some? && Wanted(parse)(Follow(step, top, turns).value);
      var node := Follow(step, top, turns).value;
      FollowLeads(parse, root, turns, node.value, node.path);
    }
    if HoldsCall(parse, root) {
      var turns, v, path :| Leads(parse, root, turns, v, path) && Match(parse, v).Some?;
      FollowLeads(parse, root, turns, v, path);
      assert Wanted(parse)(Follow(step, top, turns).value);
    }
  }

  lemma {:induction false} FoundIsFirst(parse: Parser, root: Value, n: nat, i: nat, found: (Envelope, string))
    returns (turns: seq<nat>, v: Value)
    requires IsFoundAt(parse, root, n, i, found)
    ensures IsFirstCall(parse, root, turns, v, found)
  {
    var step, wanted, top := Step(parse), Wanted(parse), Node(root, "$");
    turns := FirstComesFirst(step, wanted, top, n, i);
    v := Level(step, top, n)[i].value;
    FollowLeads(parse, root, turns, v, found.1);
    forall others, w, path | Leads(parse, root, others, w, path) && Match(parse, w).Some?
      ensures others == turns || ComesBefore(turns, others)
    {
      FollowLeads(parse, root, others, w, path);
      assert wanted(Follow(step, top, others).value);
    }
  }

  // ----- wrappers -----

  /** The same nodes with paths that begin elsewhere. */
  function Under(prefix: string, nodes: seq<Node>): seq<Node> {
    seq(|nodes|, i requires 0 <= i < |nodes| => Node(nodes[i].value, prefix + nodes[i].path))
  }

  lemma {:induction false} ChildrenUnder(parse: Parser, node: Node, prefix: string)
    ensures Children(parse, Node(node.value, prefix + node.path)) == Under(prefix, Children(parse, node))
  {
    var moved := Children(parse, Node(node.value, prefix + node.path));
    var children := Children(parse, node);
    assert |moved| == |children|;
    forall i | 0 <= i < |children| ensures moved[i] == Node(children[i].value, prefix + children[i].path) {
      match node.value
      case List(items) =>
        assert prefix + node.path + "[" + Decimal(i) + "]" == prefix + (node.path + "[" + Decimal(i) + "]");
      case Obj(fields) =>
        assert prefix + node.path + "." + fields[i].key == prefix + (node.path + "." + fields[i].key);
      case Str(_) =>
        assert prefix + node.path + "<json>" == prefix + (node.path + "<json>");
      case _ =>
    }
  }

  lemma {:induction false} ExpandedUnder(parse: Parser, nodes: seq<Node>, prefix: string)
    ensures Expanded(Step(parse), Under(prefix, nodes)) == Under(prefix, Expanded(Step(parse), nodes))
    decreases |nodes|
  {
    if nodes != [] {
      var init := nodes[..|nodes| - 1];
      ExpandedUnder(parse, init, prefix);
      ChildrenUnder(parse, nodes[|nodes| - 1], prefix);
      assert Under(prefix, nodes)[..|nodes| - 1] == Under(prefix, init);
    }
  }

  lemma {:induction false} LevelUnder(parse: Parser, root: Node, prefix: string, n: nat)
    ensures Level(Step(parse), Node(root.value, prefix + root.path), n) == Under(prefix, Level(Step(parse), root, n))
    decreases n
  {
    if n > 0 {
      LevelUnder(parse, root, prefix, n - 1);
      ExpandedUnder(parse, Level(Step(parse), root, n - 1), prefix);
    }
  }

  /** What is found does not depend on where the paths begin. */
  lemma {:induction false} FirstUnder(parse: Parser, root: Node, prefix: string, n: nat, i: nat)
    ensures IsFirst(Step(parse), Wanted(parse), Node(root.value, prefix + root.path), n, i)
       <==> IsFirst(Step(parse), Wanted(parse), root, n, i)
  {
    var moved := Node(root.value, prefix + root.path);
    forall m: nat ensures NoneWanted(Wanted(parse), Level(Step(parse), moved, m))
                     <==> NoneWanted(Wanted(parse), Level(Step(parse), root, m)) {
      LevelUnder(parse, root, prefix, m);
      NoneWantedUnder(parse, Level(Step(parse), root, m), prefix);
    }
    LevelUnder(parse, root, prefix, n);
    var level := Level(Step(parse), root, n);
    if i < |level| {
      NoneWantedUnder(parse, level[..i], prefix);
      assert Under(prefix, level)[..i] == Under(prefix, level[..i]);
    }
  }

  lemma {:induction false} NoneWantedUnder(parse: Parser, nodes: seq<Node>, prefix: string)
    ensures NoneWanted(Wanted(parse), Under(prefix, nodes)) <==> NoneWanted(Wanted(parse), nodes)
  {
    forall k | 0 <= k < |nodes| ensures Wanted(parse)(Under(prefix, nodes)[k]) == Wanted(parse)(nodes[k]) {
    }
  }

  lemma {:induction false} FoundUnder(parse: Parser, root: Node, prefix: string, n: nat, i: nat, envelope: Envelope, path: string)
    ensures IsFoundFrom(parse, Node(root.value, prefix + root.path), n, i, (envelope, prefix + path))
       <==> IsFoundFrom(parse, root, n, i, (envelope, path))
  {
    FirstUnder(parse, root, prefix, n, i);
    LevelUnder(parse, root, prefix, n);
    var level := Level(Step(parse), root, n);
    if i < |level| {
      assert (prefix + level[i].path)[|prefix|..] == level[i].path;
      assert (prefix + path)[|prefix|..] == path;
    }
  }

  /** An array of one element, an object of one property, or a string that holds JSON. */
  ghost predicate Wraps(parse: Parser, outer: Value, inner: Value, place: string) {
    match outer
    case List(items) => items == [inner] && place == "[0]"
    case Obj(fields) => |fields| == 1 && fields[0].value == inner && place == "." + fields[0].key
    case Str(s) => IsHeld(parse, s, inner) && place == "<json>"
    case _ => false
  }

  lemma {:induction false} WrapperHasOneChild(parse: Parser, outer: Value, inner: Value, place: string)
    requires Wraps(parse, outer, inner, place)
    ensures Children(parse, Node(outer, "$")) == [Node(inner, "$" + place)]
  {
    match outer
    case List(items) =>
      assert Decimal(0) == "0";
      assert "$" + "[" + "0" + "]" == "$" + "[0]";
    case Obj(fields) => assert "$" + "." + fields[0].key == "$" + ("." + fields[0].key);
    case Str(s) => MaybeParseMeans(parse, s, inner);
    case _ =>
  }

  /** Main result: a wrapper around one value - an array of one element, an object of one
      property or JSON in a string - that is no call itself is transparent: the same call is
      found, one level deeper and behind a longer path. */
  lemma {:induction false} WrapperIsTransparent(parse: Parser, outer: Value, inner: Value, place: string,
                                                n: nat, i: nat, envelope: Envelope, path: string)
    requires Match(parse, outer).None? && Wraps(parse, outer, inner, place)
    ensures IsFoundAt(parse, outer, n + 1, i, (envelope, "$" + place + path))
       <==> IsFoundAt(parse, inner, n, i, (envelope, "$" + path))
  {
    var child := Node(inner, "$" + place);
    WrapperHasOneChild(parse, outer, inner, place);
    LevelsOfOnlyChild(Step(parse), Node(outer, "$"), child, n);
    FirstBelowOnlyChild(Step(parse), Wanted(parse), Node(outer, "$"), child, n, i);
    assert "$" + "" == "$" && "$" + place + "" == "$" + place;
    FoundUnder(parse, Node(inner, ""), "$", n, i, envelope, path);
    FoundUnder(parse, Node(inner, ""), "$" + place, n, i, envelope, path);
  }
}
