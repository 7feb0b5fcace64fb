/** The auditor's verdict on a stored stream artifact, and what the client's reader then makes of it. */
module ArtifactAudit {
  import opened Options
  import opened WhiteSpace
  import opened JsonValue
  import opened StreamReader

  // ----- the auditor -----

  datatype Problem =
    | EmptyArtifact
    | InvalidJson(line: nat)
    | EventIsNull(line: nat)              // reading event.type throws
    | NoHelloFirst
    | ChunkAfterComplete(line: nat)
    | NoBlocksArray(line: nat)
    | NonObjectBlock(line: nat, at: int)
    | MalformedBlock(line: nat, at: int)
    | ChunkOutOfOrder(line: nat)
    | ErrorEvent(line: nat)
    | UnsupportedEvent(line: nat)
    | BuildIdMismatch
    | VariantMismatch
    | ChecksumMismatch
    | NoComplete
    | HelloTotalMismatch
    | CompleteTotalMismatch
    | ChunkCountMismatch

  datatype Expected = Expected(buildId: string, variant: string, checksum: Option<string>)

  predicate IsNumber(v: Option<Value>) {
    v.Some? && v.value.Number?
  }

  /** typeof v === "number" and v !== n. */
  predicate ContradictsCount(v: Option<Value>, n: nat) {
    IsNumber(v) && v != Some(Count(n))
  }

  function NonEmpty(lines: seq<string>): seq<string> {
    if lines == [] then []
    else
      var rest := NonEmpty(lines[..|lines| - 1]);
      if lines[|lines| - 1] == "" then rest else rest + [lines[|lines| - 1]]
  }

  function CheckBlock(block: Value, line: nat, at: int): Option<Problem> {
    if !block.Obj? && !block.List? then Some(NonObjectBlock(line, at))
    else if !IsNumber(Get(block, "x")) || !IsNumber(Get(block, "y")) || !IsNumber(Get(block, "z"))
            || Get(block, "type").None? || !Get(block, "type").value.Str?
    then Some(MalformedBlock(line, at))
    else None
  }

  /** A block the auditor accepts where it looks. */
  predicate IsBlock(v: Value) {
    && IsNumber(Get(v, "x")) && IsNumber(Get(v, "y")) && IsNumber(Get(v, "z"))
    && Get(v, "type").Some? && Get(v, "type").value.Str?
  }

  /** The places the auditor looks at: first, middle and last. */
  function SpotChecks(n: nat): seq<nat> {
    if n == 0 then [] else [0, n / 2, n - 1]
  }

  // ----- what passing means -----

  function ChunkCount(events: seq<Value>): nat {
    if events == [] then 0
    else ChunkCount(events[..|events| - 1]) + (if Is(events[|events| - 1], "chunk") then 1 else 0)
  }

  /** The last complete event. */
  function LastComplete(events: seq<Value>): Option<Value> {
    if events == [] then None
    else if Is(events[|events| - 1], "complete") then Some(events[|events| - 1])
    else LastComplete(events[..|events| - 1])
  }

  /** The event at a line fits what came before it. */
  predicate Fits(events: seq<Value>, k: nat)
    requires k < |events|
  {
    var event := events[k];
    if k == 0 then Is(event, "hello")
    else if Is(event, "chunk") then
      && LastComplete(events[..k]).None?
      && Get(event, "blocks").Some? && Get(event, "blocks").value.List?
      && (forall at | at in SpotChecks(|ChunkEntries(event)|) :: IsBlock(ChunkEntries(event)[at]))
      && !ContradictsCount(Get(event, "index"), ChunkCount(events[..k]) + 1)
    else Is(event, "complete") || Is(event, "ping")
  }

  predicate AllFit(events: seq<Value>) {
    forall k | 0 <= k < |events| :: Fits(events, k)
  }

  predicate Passes(events: seq<Value>, expected: Expected) {
    && |events| > 0
    && AllFit(events)
    && IsText(Get(events[0], "buildId"), expected.buildId)
    && IsText(Get(events[0], "variant"), expected.variant)
    && (expected.checksum.Some? && expected.checksum.value != "" ==>
        IsText(Get(events[0], "checksum"), expected.checksum.value))
    && LastComplete(events).Some?
    && !ContradictsCount(Get(events[0], "totalBlocks"), |AllEntries(events)|)
    && !ContradictsCount(Get(LastComplete(events).value, "totalBlocks"), |AllEntries(events)|)
    && !ContradictsCount(Get(events[0], "chunkCount"), ChunkCount(events))
  }

  /** The events on the non-empty lines, if every one of them parses. */
  function Events(parse: Parser, lines: seq<string>): Option<seq<Value>> {
    if lines == [] then Some([])
    else
      var before := Events(parse, lines[..|lines| - 1]);
      var last := parse(lines[|lines| - 1]);
      if before.None? || last.None? then None else Some(before.value + [last.value])
  }

  /** The auditor finds no problem exactly when the artifact passes: every line is an event that
      fits its place, and the announced counts agree with what the chunks hold. */
  method VerifyStreamPayload(parse: Parser, text: string, expected: Expected) returns (problem: Option<Problem>)
    ensures
      var events := Events(parse, NonEmpty(Split(text)));
      problem.None? <==> events.Some? && Passes(events.value, expected)
  {
    var lines := NonEmpty(Split(text));
    if lines == [] {
      return Some(EmptyArtifact);
    }
    var hello: Option<Value> := None;
    var complete: Option<Value> := None;
    var seenBlocks: nat, seenChunks: nat := 0, 0;
    ghost var events: seq<Value> := [];
    for index := 0 to |lines|
      invariant IsAudited(parse, lines, index, events, hello, complete, seenBlocks, seenChunks)
    {
      NextEvent(parse, lines, index, events);
      var parsed := parse(lines[index]);
      if parsed.None? {
        return Some(InvalidJson(index + 1));
      }
      var event := parsed.value;
      problem := CheckEvent(event, index, complete, seenChunks, events);
      if problem.Some? {
        NeverPasses(parse, lines, index + 1, expected);
        return;
      }
      AuditGoesOn(parse, lines, index, events, event, hello, complete, seenBlocks, seenChunks);
      if index == 0 {
        hello := Some(event);
      } else if Is(event, "chunk") {
        seenBlocks := seenBlocks + |ChunkEntries(event)|;
        seenChunks := seenChunks + 1;
      } else if Is(event, "complete") {
        complete := Some(event);
      }
      events := events + [event];
    }
    assert lines[..|lines|] == lines;
    problem := CheckTotals(hello.value, complete, seenBlocks, seenChunks, expected);
  }

  /** The first lines have been audited without a problem. */
  ghost predicate IsAudited(parse: Parser, lines: seq<string>, index: nat, events: seq<Value>, hello: Option<Value>,
                            complete: Option<Value>, seenBlocks: nat, seenChunks: nat)
  {
    && index <= |lines| && Events(parse, lines[..index]) == Some(events) && |events| == index
    && AllFit(events)
    && hello == (if index == 0 then None else Some(events[0]))
    && complete == LastComplete(events)
    && seenBlocks == |AllEntries(events)| && seenChunks == ChunkCount(events)
  }

  lemma {:induction false} AuditGoesOn(parse: Parser, lines: seq<string>, index: nat, events: seq<Value>, event: Value,
                                       hello: Option<Value>, complete: Option<Value>, seenBlocks: nat, seenChunks: nat)
    requires IsAudited(parse, lines, index, events, hello, complete, seenBlocks, seenChunks) && index < |lines|
    requires parse(lines[index]) == Some(event) && Fits(events + [event], index)
    ensures
      var isChunk := index > 0 && Is(event, "chunk");
      IsAudited(parse, lines, index + 1, events + [event], if index == 0 then Some(event) else hello,
                if index > 0 && Is(event, "complete") then Some(event) else complete,
                if isChunk then seenBlocks + |ChunkEntries(event)| else seenBlocks,
                if isChunk then seenChunks + 1 else seenChunks)
  {
    NextEvent(parse, lines, index, events);
    FitsOnPrefix(events, event);
    CountsGoOn(events, event);
  }

  /** The checks on one line; the line number in a problem counts from one. */
  method CheckEvent(event: Value, index: nat, complete: Option<Value>, seenChunks: nat, ghost before: seq<Value>)
    returns (problem: Option<Problem>)
    requires index == |before| && complete == LastComplete(before) && seenChunks == ChunkCount(before)
    ensures problem.None? <==> Fits(before + [event], index)
  {
    assert (before + [event])[..index] == before && (before + [event])[index] == event;
    if event.Null? {
      return Some(EventIsNull(index + 1));
    }
    if index == 0 {
      return if Is(event, "hello") then None else Some(NoHelloFirst);
    }
    if Is(event, "chunk") {
      if complete.Some? {
        return Some(ChunkAfterComplete(index + 1));
      }
      var blocks := Get(event, "blocks");
      if blocks.None? || !blocks.value.List? {
        return Some(NoBlocksArray(index + 1));
      }
      assert ChunkEntries(event) == blocks.value.items;
      problem := SpotCheck(blocks.value.items, index + 1);
      if problem.Some? {
        return;
      }
      return if ContradictsCount(Get(event, "index"), seenChunks + 1) then Some(ChunkOutOfOrder(index + 1)) else None;
    }
    if Is(event, "complete") || Is(event, "ping") {
      return None;
    }
    return Some(if Is(event, "error") then ErrorEvent(index + 1) else UnsupportedEvent(index + 1));
  }

  method SpotCheck(blocks: seq<Value>, line: nat) returns (problem: Option<Problem>)
    ensures problem.None? <==> forall at | at in SpotChecks(|blocks|) :: IsBlock(blocks[at])
  {
    if |blocks| == 0 {
      return None;
    }
    var places := [0, |blocks| / 2, |blocks| - 1];
    for i := 0 to 3
      invariant forall j | 0 <= j < i :: IsBlock(blocks[places[j]])
    {
      problem := CheckBlock(blocks[places[i]], line, places[i]);
      if problem.Some? {
        assert places[i] in SpotChecks(|blocks|);
        return;
      }
    }
    return None;
  }

  method CheckTotals(hello: Value, complete: Option<Value>, seenBlocks: nat, seenChunks: nat, expected: Expected)
    returns (problem: Option<Problem>)
    ensures problem.None? <==>
      && IsText(Get(hello, "buildId"), expected.buildId)
      && IsText(Get(hello, "variant"), expected.variant)
      && (expected.checksum.Some? && expected.checksum.value != "" ==>
          IsText(Get(hello, "checksum"), expected.checksum.value))
      && complete.Some?
      && !ContradictsCount(Get(hello, "totalBlocks"), seenBlocks)
      && !ContradictsCount(Get(complete.value, "totalBlocks"), seenBlocks)
      && !ContradictsCount(Get(hello, "chunkCount"), seenChunks)
  {
    if !IsText(Get(hello, "buildId"), expected.buildId) {
      return Some(BuildIdMismatch);
    }
    if !IsText(Get(hello, "variant"), expected.variant) {
      return Some(VariantMismatch);
    }
    if expected.checksum.Some? && expected.checksum.value != "" && !IsText(Get(hello, "checksum"), expected.checksum.value) {
      return Some(ChecksumMismatch);
    }
    if complete.None? {
      return Some(NoComplete);
    }
    if ContradictsCount(Get(hello, "totalBlocks"), seenBlocks) {
      return Some(HelloTotalMismatch);
    }
    if ContradictsCount(Get(complete.value, "totalBlocks"), seenBlocks) {
      return Some(CompleteTotalMismatch);
    }
    if ContradictsCount(Get(hello, "chunkCount"), seenChunks) {
      return Some(ChunkCountMismatch);
    }
    return None;
  }

  lemma {:induction false} EventsOfPrefix(parse: Parser, lines: seq<string>, k: nat)
    requires k <= |lines|
    ensures Events(parse, lines[..k]).None? ==> Events(parse, lines).None?
    ensures Events(parse, lines).Some? ==>
      |Events(parse, lines).value| == |lines| && Events(parse, lines[..k]) == Some(Events(parse, lines).value[..k])
    decreases |lines|
  {
    if k == |lines| {
      assert lines[..k] == lines;
      if lines != [] {
        EventsOfPrefix(parse, lines[..|lines| - 1], |lines| - 1);
      }
      if Events(parse, lines).Some? {
        assert Events(parse, lines).value[..k] == Events(parse, lines).value;
      }
    } else {
      var init := lines[..|lines| - 1];
      assert init[..k] == lines[..k];
      EventsOfPrefix(parse, init, k);
      if Events(parse, lines).Some? {
        assert Events(parse, lines).value[..k] == Events(parse, init).value[..k];
      }
    }
  }

  lemma {:induction false} NextEvent(parse: Parser, lines: seq<string>, k: nat, events: seq<Value>)
    requires k < |lines| && Events(parse, lines[..k]) == Some(events)
    ensures match parse(lines[k])
            case None => Events(parse, lines).None?
            case Some(event) => Events(parse, lines[..k + 1]) == Some(events + [event])
  {
    assert lines[..k + 1][..k] == lines[..k];
    EventsOfPrefix(parse, lines, k + 1);
  }

  lemma {:induction false} CountsGoOn(events: seq<Value>, event: Value)
    ensures
      var more := events + [event];
      && AllEntries(more) == AllEntries(events) + (if Is(event, "chunk") then ChunkEntries(event) else [])
      && ChunkCount(more) == ChunkCount(events) + (if Is(event, "chunk") then 1 else 0)
      && LastComplete(more) == (if Is(event, "complete") then Some(event) else LastComplete(events))
  {
    assert (events + [event])[..|events|] == events;
  }

  lemma {:induction false} FitsOnPrefix(events: seq<Value>, event: Value)
    ensures AllFit(events + [event]) <==> AllFit(events) && Fits(events + [event], |events|)
  {
    forall k | 0 <= k < |events| ensures Fits(events + [event], k) == Fits(events, k) {
      assert (events + [event])[..k] == events[..k];
    }
  }

  lemma {:induction false} NeverPasses(parse: Parser, lines: seq<string>, k: nat, expected: Expected)
    requires 0 < k <= |lines|
    requires Events(parse, lines[..k]).Some? && |Events(parse, lines[..k]).value| == k
    requires !Fits(Events(parse, lines[..k]).value, k - 1)
    ensures Events(parse, lines).Some? ==> !Passes(Events(parse, lines).value, expected)
  {
    EventsOfPrefix(parse, lines, k);
    if Events(parse, lines).Some? {
      var events := Events(parse, lines).value;
      assert events[..k][..k - 1] == events[..k - 1];
      assert !Fits(events, k - 1);
    }
  }

  // ----- the lines that are looked at -----

  /** The places of the lines that are not empty, in order. */
  ghost predicate ArePlaces(lines: seq<string>, places: seq<nat>) {
    && (forall i, j | 0 <= i < j < |places| :: places[i] < places[j])
    && (forall i | 0 <= i < |places| :: places[i] < |lines|)
    && (forall k | 0 <= k < |lines| :: k in places <==> lines[k] != "")
  }

  lemma {:induction false} NonEmptyMeans(lines: seq<string>) returns (places: seq<nat>)
    ensures ArePlaces(lines, places) && |NonEmpty(lines)| == |places|
    ensures forall i | 0 <= i < |places| :: NonEmpty(lines)[i] == lines[places[i]]
    decreases |lines|
  {
    places := [];
    if lines != [] {
      var init, last := lines[..|lines| - 1], lines[|lines| - 1];
      places := NonEmptyMeans(init);
      assert lines == init + [last];
      if last != "" {
        PlacesGoOn(init, last, places);
        places := places + [|init|];
      }
    }
  }

  lemma {:induction false} PlacesGoOn(lines: seq<string>, last: string, places: seq<nat>)
    requires ArePlaces(lines, places) && last != ""
    ensures ArePlaces(lines + [last], places + [|lines|])
  {
    forall k | 0 <= k <= |lines| ensures k in places + [|lines|] <==> k in places || k == |lines| {
    }
  }

  lemma {:induction false} EventsMean(parse: Parser, lines: seq<string>)
    ensures Events(parse, lines).Some? <==> forall k | 0 <= k < |lines| :: parse(lines[k]).Some?
    ensures Events(parse, lines).Some? ==>
      && |Events(parse, lines).value| == |lines|
      && forall k | 0 <= k < |lines| :: parse(lines[k]) == Some(Events(parse, lines).value[k])
    decreases |lines|
  {
    if lines != [] {
      EventsMean(parse, lines[..|lines| - 1]);
    }
  }

  /** The events of an artifact: its non-empty lines, each of which parses. */
  ghost predicate AreEventsOf(parse: Parser, lines: seq<string>, places: seq<nat>, events: seq<Value>) {
    && ArePlaces(lines, places) && |events| == |places|
    && forall i | 0 <= i < |events| :: parse(lines[places[i]]) == Some(events[i])
  }

  lemma {:induction false} EventsOfLines(parse: Parser, text: string) returns (places: seq<nat>)
    ensures
      var events := Events(parse, NonEmpty(Split(text)));
      && (events.Some? <==> forall k | 0 <= k < |Split(text)| && Split(text)[k] != "" :: parse(Split(text)[k]).Some?)
      && (events.Some? ==> AreEventsOf(parse, Split(text), places, events.value))
  {
    var lines := Split(text);
    places := NonEmptyMeans(lines);
    EventsMean(parse, NonEmpty(lines));
    if Events(parse, NonEmpty(lines)).Some? {
      forall k | 0 <= k < |lines| && lines[k] != "" ensures parse(lines[k]).Some? {
        var i :| 0 <= i < |places| && places[i] == k;
        assert parse(NonEmpty(lines)[i]).Some?;
      }
    }
  }

  // ----- the client on an artifact that passes -----

  /** JSON.parse refuses a text of white space only. */
  ghost predicate RefusesBlank(parse: Parser) {
    forall line | Trimmed(line) == "" :: parse(line).None?
  }

  /** Auditor and client see the same events. */
  lemma {:induction false} SameEvents(parse: Parser, lines: seq<string>, p: Progress)
    requires RefusesBlank(parse) && Events(parse, NonEmpty(lines)).Some?
    ensures HandleLines(parse, lines, p) == HandleAll(Events(parse, NonEmpty(lines)).value, p)
    decreases |lines|
  {
    if lines != [] {
      var init, last := lines[..|lines| - 1], lines[|lines| - 1];
      if last != "" {
        assert NonEmpty(lines)[..|NonEmpty(lines)| - 1] == NonEmpty(init);
      }
      SameEvents(parse, init, p);
      assert last == "" ==> Trimmed(last) == "";
      if last != "" {
        var events := Events(parse, NonEmpty(lines)).value;
        assert events[..|events| - 1] == Events(parse, NonEmpty(init)).value;
      }
    }
  }

  /** The last usable total among the events: the one the client believes. */
  function LastTotal(events: seq<Value>): Option<Value> {
    if events == [] then None
    else
      var event := events[|events| - 1];
      var before := LastTotal(events[..|events| - 1]);
      if Is(event, "ping") then before else Or(Get(event, "totalBlocks"), before)
  }

  /** What the client has gathered after events that all fit. */
  lemma {:induction false} GathersFitting(events: seq<Value>, start: Gathered)
    requires events != [] && AllFit(events)
    requires start.total.None? && !start.hasComplete && start.packed == []
    ensures HandleAll(events, Reading(start)) == Reading(Gathered(
      Get(events[0], "variant"), Coalesce(Get(events[0], "checksum"), start.checksum),
      LastTotal(events), LastComplete(events).Some?, Stored(AllEntries(events))))
    decreases |events|
  {
    var init, event := events[..|events| - 1], events[|events| - 1];
    assert Fits(events, |events| - 1);
    if init != [] {
      FitsOnPrefix(init, event);
      assert init + [event] == events;
      GathersFitting(init, start);
      StoredInTwo(AllEntries(init), ChunkEntries(event));
      assert AllEntries(init) + [] == AllEntries(init);
    }
  }

  /** The outcome the client reaches on an artifact that passes: it never throws; it falls back
      exactly when the last total it was told exceeds the number of entries it could store. */
  lemma {:induction false} OutcomeOfPassing(parse: Parser, text: string, expected: Expected)
    requires RefusesBlank(parse) && Events(parse, NonEmpty(Split(text))).Some?
    requires Passes(Events(parse, NonEmpty(Split(text))).value, expected)
    ensures
      var events := Events(parse, NonEmpty(Split(text))).value;
      var start := Start(expected.variant, expected.checksum);
      var blocks := Stored(AllEntries(events));
      OutcomeOf(parse, text, start) ==
      match LastTotal(events) {
        case Some(Number(Finite(n))) =>
          if n > |blocks| as real then FallBack else Arrival(events, expected, blocks)
        case _ => Arrival(events, expected, blocks)
      }
  {
    var events := Events(parse, NonEmpty(Split(text))).value;
    var start := Start(expected.variant, expected.checksum);
    SameEvents(parse, Split(text), Reading(start));
    GathersFitting(events, start);
  }

  function Arrival(events: seq<Value>, expected: Expected, blocks: seq<Value>): Outcome
    requires events != []
  {
    var told := Get(events[0], "checksum");
    Delivered(Some(Str(expected.variant)),
              if told.Some? && told.value != Null then told
              else match expected.checksum case Some(checksum) => Some(Str(checksum)) case None => Some(Null),
              blocks)
  }

  predicate IsPositive(v: Option<Value>) {
    match v
    case Some(Number(Finite(n))) => n > 0.0
    case Some(Number(Infinite(positive))) => positive
    case _ => false
  }

  /** Main result: when the artifact passes and its last complete event carries a positive
      numeric total, the client ends with exactly the blocks of all chunks, as many as that
      total, if and only if no chunk holds a falsy entry; otherwise it falls back. */
  lemma {:induction false} AuditPredictsDelivery(parse: Parser, text: string, expected: Expected)
    requires RefusesBlank(parse) && Events(parse, NonEmpty(Split(text))).Some?
    requires Passes(Events(parse, NonEmpty(Split(text))).value, expected)
    requires IsPositive(Get(LastComplete(Events(parse, NonEmpty(Split(text))).value).value, "totalBlocks"))
    ensures
      var events := Events(parse, NonEmpty(Split(text))).value;
      var entries := AllEntries(events);
      var outcome := OutcomeOf(parse, text, Start(expected.variant, expected.checksum));
      && Get(LastComplete(events).value, "totalBlocks") == Some(Count(|entries|))
      && outcome == if NoFalsyEntry(events) then Arrival(events, expected, entries) else FallBack
  {
    var events := Events(parse, NonEmpty(Split(text))).value;
    OutcomeOfPassing(parse, text, expected);
    LastTotalIsComplete(events);
    StoredShrinks(AllEntries(events));
    FalsyEntries(events);
  }

  /** Nothing after the last complete event brings another total. */
  lemma {:induction false} LastTotalIsComplete(events: seq<Value>)
    requires events != [] && AllFit(events)
    requires LastComplete(events).Some? && IsPositive(Get(LastComplete(events).value, "totalBlocks"))
    ensures LastTotal(events) == Get(LastComplete(events).value, "totalBlocks")
    decreases |events|
  {
    var init, event := events[..|events| - 1], events[|events| - 1];
    assert Fits(events, |events| - 1);
    if !Is(event, "complete") {
      FitsOnPrefix(init, event);
      assert init + [event] == events;
      LastTotalIsComplete(init);
    }
  }

  lemma {:induction false} StoredShrinks(entries: seq<Value>)
    ensures |Stored(entries)| <= |entries|
    ensures |Stored(entries)| == |entries| <==> forall e | e in entries :: !IsFalsy(e)
    ensures |Stored(entries)| == |entries| ==> Stored(entries) == entries
    decreases |entries|
  {
    if entries != [] {
      StoredShrinks(entries[..|entries| - 1]);
      assert entries == entries[..|entries| - 1] + [entries[|entries| - 1]];
    }
  }

  ghost predicate NoFalsyEntry(events: seq<Value>) {
    forall k, at | 0 <= k < |events| && Is(events[k], "chunk") && 0 <= at < |ChunkEntries(events[k])| ::
      !IsFalsy(ChunkEntries(events[k])[at])
  }

  lemma {:induction false} FalsyEntries(events: seq<Value>)
    ensures NoFalsyEntry(events) <==> forall e | e in AllEntries(events) :: !IsFalsy(e)
    decreases |events|
  {
    if events != [] {
      var init, event := events[..|events| - 1], events[|events| - 1];
      FalsyEntries(init);
      assert events == init + [event];
      if NoFalsyEntry(events) {
        forall k, at | 0 <= k < |init| && Is(init[k], "chunk") && 0 <= at < |ChunkEntries(init[k])|
          ensures !IsFalsy(ChunkEntries(init[k])[at])
        {
          assert events[k] == init[k];
        }
        assert NoFalsyEntry(init);
      } else if Is(event, "chunk") && (forall at | 0 <= at < |ChunkEntries(event)| :: !IsFalsy(ChunkEntries(event)[at])) {
        assert !NoFalsyEntry(init);
      }
    }
  }

  /** Chunks of at most three blocks leave nothing unchecked, so for them passing is enough. */
  lemma {:induction false} SmallChunksAreDelivered(events: seq<Value>, expected: Expected)
    requires Passes(events, expected)
    requires forall k | 0 <= k < |events| :: |ChunkEntries(events[k])| <= 3
    ensures NoFalsyEntry(events)
  {
    forall k, at | 0 <= k < |events| && Is(events[k], "chunk") && 0 <= at < |ChunkEntries(events[k])|
      ensures !IsFalsy(ChunkEntries(events[k])[at])
    {
      assert Fits(events, k);
      assert at in SpotChecks(|ChunkEntries(events[k])|);
      assert IsBlock(ChunkEntries(events[k])[at]);
    }
  }

  // ----- what the spot checks miss -----

  function SampleBlock(): Value {
    Obj([Field("x", Count(1)), Field("y", Count(2)), Field("z", Count(3)), Field("type", Str("stone"))])
  }

  /** A hello, one chunk of four entries the second of which is null, and a complete event. */
  function SampleEvents(): seq<Value> {
    [Obj([Field("type", Str("hello")), Field("buildId", Str("b1")), Field("variant", Str("full")), Field("totalBlocks", Count(4))]),
     Obj([Field("type", Str("chunk")), Field("blocks", List([SampleBlock(), Null, SampleBlock(), SampleBlock()]))]),
     Obj([Field("type", Str("complete")), Field("totalBlocks", Count(4))])]
  }

  /** The claim without its condition is false: these events pass, and the client falls back. */
  lemma {:induction false} PassesButFallsBack()
    ensures Passes(SampleEvents(), Expected("b1", "full", None))
    ensures Result(HandleAll(SampleEvents(), Reading(Start("full", None)))) == FallBack
  {
    SamplePasses();
    SampleEntries();
    GathersFitting(SampleEvents(), Start("full", None));
  }

  lemma {:induction false} SamplePasses()
    ensures Passes(SampleEvents(), Expected("b1", "full", None))
    ensures LastTotal(SampleEvents()) == Some(Count(4))
  {
    SampleFields();
    SampleEntries();
    SampleFits();
    var events := SampleEvents();
    assert events[..2][..1] == events[..1];
    assert ChunkCount(events[..1]) == 0;
  }

  lemma {:induction false} SampleFits()
    ensures Fits(SampleEvents(), 0) && Fits(SampleEvents(), 1) && Fits(SampleEvents(), 2)
  {
    SampleFields();
    var events := SampleEvents();
    assert events[..1][..0] == [];
    assert LastComplete(events[..1]).None?;
    assert ChunkEntries(events[1]) == [SampleBlock(), Null, SampleBlock(), SampleBlock()];
  }

  lemma {:induction false} SampleEntries()
    ensures AllEntries(SampleEvents()) == [SampleBlock(), Null, SampleBlock(), SampleBlock()]
    ensures Stored(AllEntries(SampleEvents())) == [SampleBlock(), SampleBlock(), SampleBlock()]
  {
    SampleFields();
    var events := SampleEvents();
    var entries := [SampleBlock(), Null, SampleBlock(), SampleBlock()];
    assert ChunkEntries(events[1]) == entries;
    assert events[..2][..1] == events[..1] && events[..1][..0] == [];
    assert AllEntries(events[..1]) == [];
    assert AllEntries(events[..2]) == entries;
    assert AllEntries(events) == entries;
    SampleStored();
  }

  lemma {:induction false} SampleStored()
    ensures Stored([SampleBlock(), Null, SampleBlock(), SampleBlock()]) == [SampleBlock(), SampleBlock(), SampleBlock()]
  {
    var entries := [SampleBlock(), Null, SampleBlock(), SampleBlock()];
    assert entries[..3][..2] == [SampleBlock(), Null] && entries[..3][..2][..1] == [SampleBlock()];
    assert Stored(entries[..3][..2][..1]) == [SampleBlock()];
    assert Stored(entries[..3][..2]) == [SampleBlock()];
    assert Stored(entries[..3]) == [SampleBlock(), SampleBlock()];
  }

  lemma {:induction false} SampleFields()
    ensures
      var hello, chunk, complete := SampleEvents()[0], SampleEvents()[1], SampleEvents()[2];
      && Is(hello, "hello") && IsText(Get(hello, "buildId"), "b1") && IsText(Get(hello, "variant"), "full")
      && Get(hello, "totalBlocks") == Some(Count(4)) && Get(hello, "chunkCount").None?
      && Is(chunk, "chunk") && Get(chunk, "index").None? && Get(chunk, "totalBlocks").None?
      && Get(chunk, "blocks") == Some(List([SampleBlock(), Null, SampleBlock(), SampleBlock()]))
      && Is(complete, "complete") && Get(complete, "totalBlocks") == Some(Count(4))
      && IsBlock(SampleBlock())
  {
  }
}
