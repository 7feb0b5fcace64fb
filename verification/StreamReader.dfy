/** The client's reader of a build stream: lines of JSON events, delivered in arbitrary pieces. */
module StreamReader {
  import opened Options
  import opened WhiteSpace
  import opened JsonValue

  /** JSON.parse; None when it throws. */
  type Parser = string -> Option<Value>

  // ----- one event -----

  /** What the reader has gathered. The variant and the checksum are None while undefined. */
  datatype Gathered = Gathered(
    variant: Option<Value>,
    checksum: Option<Value>,
    total: Option<Value>,
    hasComplete: bool,
    packed: seq<Value>)

  datatype Progress = Reading(gathered: Gathered) | Thrown(message: Option<Value>)

  /** The entries that appendPackedVoxelBlocks stores: it skips the falsy ones. */
  function Stored(entries: seq<Value>): seq<Value> {
    if entries == [] then []
    else
      var rest := Stored(entries[..|entries| - 1]);
      var entry := entries[|entries| - 1];
      if IsFalsy(entry) then rest else rest + [entry]
  }

  function ChunkEntries(event: Value): seq<Value> {
    match Get(event, "blocks")
    case Some(List(items)) => items
    case _ => []
  }

  function ErrorMessage(event: Value): Option<Value> {
    Or(Get(event, "message"), Some(Str("Build stream failed")))
  }

  /** What one event does to the reader. */
  function Handle(event: Value, g: Gathered): Progress {
    var kind := Get(event, "type");
    var total := Or(Get(event, "totalBlocks"), g.total);
    if IsText(kind, "error") then Thrown(ErrorMessage(event))
    else if IsText(kind, "hello") then
      Reading(g.(variant := Get(event, "variant"), checksum := Coalesce(Get(event, "checksum"), g.checksum), total := total))
    else if IsText(kind, "chunk") then Reading(g.(packed := g.packed + Stored(ChunkEntries(event)), total := total))
    else if IsText(kind, "complete") then Reading(g.(hasComplete := true, total := total))
    else Reading(g)
  }

  function ParseLine(parse: Parser, line: string): Option<Value> {
    if Trimmed(line) == "" then None else parse(line)
  }

  function HandleLine(parse: Parser, line: string, g: Gathered): Progress {
    match ParseLine(parse, line)
    case None => Reading(g)
    case Some(event) => Handle(event, g)
  }

  /** All lines in order, up to the first that throws. */
  function HandleLines(parse: Parser, lines: seq<string>, p: Progress): Progress {
    if lines == [] then p
    else
      var before := HandleLines(parse, lines[..|lines| - 1], p);
      if before.Thrown? then before else HandleLine(parse, lines[|lines| - 1], before.gathered)
  }

  // ----- lines -----

  /** text.split("\n"): always at least one piece. */
  function Split(text: string): (lines: seq<string>)
    ensures |lines| >= 1
  {
    if text == "" then [""] else Extended(Split(text[..|text| - 1]), text[|text| - 1])
  }

  /** The lines after one more character. */
  function Extended(lines: seq<string>, c: char): (more: seq<string>)
    requires |lines| >= 1
    ensures |more| >= 1
  {
    if c == '\n' then lines + [""] else lines[..|lines| - 1] + [lines[|lines| - 1] + [c]]
  }

  lemma {:induction false} ExtendTheSecond(a: seq<string>, b: seq<string>, c: char)
    requires |b| >= 1
    ensures Extended(a + b, c) == a + Extended(b, c)
  {
    assert (a + b)[..|a + b| - 1] == a + b[..|b| - 1];
  }

  function Join(pieces: seq<string>): string {
    if pieces == [] then "" else Join(pieces[..|pieces| - 1]) + pieces[|pieces| - 1]
  }

  /** Splitting a text whose unfinished last line was kept aside, and then the rest. */
  lemma {:induction false} SplitInTwo(a: string, b: string)
    ensures
      var first := Split(a);
      Split(a + b) == first[..|first| - 1] + Split(first[|first| - 1] + b)
    decreases |b|
  {
    var init, last := Split(a)[..|Split(a)| - 1], Split(a)[|Split(a)| - 1];
    if b == "" {
      SplitBefore(a);
    } else {
      var b', c := b[..|b| - 1], b[|b| - 1];
      SplitInTwo(a, b');
      SplitBothOneMore(a + b', last + b', init, c);
      OneCharAtATime(a, b);
      OneCharAtATime(last, b);
    }
  }

  lemma {:induction false} OneCharAtATime(a: string, b: string)
    requires b != ""
    ensures a + b == (a + b[..|b| - 1]) + [b[|b| - 1]]
  {
  }

  lemma {:induction false} SplitBefore(a: string)
    ensures
      var first := Split(a);
      Split(a + "") == first[..|first| - 1] + Split(first[|first| - 1] + "")
  {
    LastLineIsOneLine(a);
    assert a + "" == a && Split(a)[|Split(a)| - 1] + "" == Split(a)[|Split(a)| - 1];
  }

  lemma {:induction false} SplitBothOneMore(whole: string, tail: string, init: seq<string>, c: char)
    requires Split(whole) == init + Split(tail)
    ensures Split(whole + [c]) == init + Split(tail + [c])
  {
    SplitOneMore(whole, c);
    SplitOneMore(tail, c);
    ExtendTheSecond(init, Split(tail), c);
  }

  lemma {:induction false} SplitOneMore(text: string, c: char)
    ensures Split(text + [c]) == Extended(Split(text), c)
  {
    assert (text + [c])[..|text|] == text;
  }

  /** No piece of a split holds a newline, so splitting the last one again changes nothing. */
  lemma {:induction false} LastLineIsOneLine(a: string)
    ensures
      var first := Split(a);
      Split(first[|first| - 1]) == [first[|first| - 1]]
    decreases |a|
  {
    if a != "" {
      var before := Split(a[..|a| - 1]);
      LastLineIsOneLine(a[..|a| - 1]);
      if a[|a| - 1] != '\n' {
        var last := before[|before| - 1] + [a[|a| - 1]];
        assert last[..|last| - 1] == before[|before| - 1];
      }
    }
  }

  lemma {:induction false} HandleInTwo(parse: Parser, a: seq<string>, b: seq<string>, p: Progress)
    ensures HandleLines(parse, a + b, p) == HandleLines(parse, b, HandleLines(parse, a, p))
    decreases |b|
  {
    if b == [] {
      assert a + b == a;
    } else {
      HandleInTwo(parse, a, b[..|b| - 1], p);
      assert (a + b)[..|a + b| - 1] == a + b[..|b| - 1];
    }
  }

  lemma {:induction false} NothingAfterThrow(parse: Parser, lines: seq<string>, p: Progress)
    requires p.Thrown?
    ensures HandleLines(parse, lines, p) == p
    decreases |lines|
  {
    if lines != [] {
      NothingAfterThrow(parse, lines[..|lines| - 1], p);
    }
  }

  // ----- the outcome -----

  datatype Outcome =
    | Delivered(variant: Option<Value>, checksum: Option<Value>, blocks: seq<Value>)
    | FallBack
    | Failed(message: Option<Value>)

  /** The announced total, when it is a usable number. */
  function Announced(g: Gathered): Option<real> {
    match g.total
    case Some(Number(Finite(n))) => if n >= 0.0 then Some(n) else None
    case _ => None
  }

  predicate LooksComplete(g: Gathered) {
    g.hasComplete && (Announced(g).None? || |g.packed| as real >= Announced(g).value)
  }

  function Result(p: Progress): Outcome {
    if p.Thrown? then Failed(p.message)
    else if LooksComplete(p.gathered) then Delivered(p.gathered.variant, p.gathered.checksum, p.gathered.packed)
    else FallBack
  }

  function Start(variant: string, checksum: Option<string>): Gathered {
    Gathered(Some(Str(variant)), if checksum.Some? then Some(Str(checksum.value)) else Some(Null), None, false, [])
  }

  /** The outcome of reading a text, told without any buffering. */
  function OutcomeOf(parse: Parser, text: string, start: Gathered): Outcome {
    Result(HandleLines(parse, Split(text), Reading(start)))
  }

  // ----- what the outcome means -----

  predicate Is(event: Value, kind: string) {
    IsText(Get(event, "type"), kind)
  }

  /** The events of a text: its lines that are not blank and parse, in order. */
  function EventsIn(parse: Parser, lines: seq<string>): seq<Value> {
    if lines == [] then []
    else
      var before, last := EventsIn(parse, lines[..|lines| - 1]), lines[|lines| - 1];
      if !IsBlank(last) && parse(last).Some? then before + [parse(last).value] else before
  }

  function HandleAll(events: seq<Value>, p: Progress): Progress {
    if events == [] then p
    else
      var before := HandleAll(events[..|events| - 1], p);
      if before.Thrown? then before else Handle(events[|events| - 1], before.gathered)
  }

  lemma {:induction false} LinesAreEvents(parse: Parser, lines: seq<string>, p: Progress)
    ensures HandleLines(parse, lines, p) == HandleAll(EventsIn(parse, lines), p)
    decreases |lines|
  {
    if lines != [] {
      var init, last := lines[..|lines| - 1], lines[|lines| - 1];
      LinesAreEvents(parse, init, p);
      var before, after := TrimmedMeans(last);
      if !IsBlank(last) && parse(last).Some? {
        assert EventsIn(parse, lines)[..|EventsIn(parse, lines)| - 1] == EventsIn(parse, init);
      }
    }
  }

  /** The entries of all chunks, in order. */
  function AllEntries(events: seq<Value>): seq<Value> {
    if events == [] then []
    else
      AllEntries(events[..|events| - 1])
      + (if Is(events[|events| - 1], "chunk") then ChunkEntries(events[|events| - 1]) else [])
  }

  /** The same, told without the reader's own function. */
  function EntriesIn(events: seq<Value>): seq<Value> {
    if events == [] then []
    else
      var before, event := EntriesIn(events[..|events| - 1]), events[|events| - 1];
      match Get(event, "blocks")
      case Some(List(items)) => if Is(event, "chunk") then before + items else before
      case _ => before
  }

  lemma {:induction false} EntriesAreThese(events: seq<Value>)
    ensures AllEntries(events) == EntriesIn(events)
    decreases |events|
  {
    if events != [] {
      EntriesAreThese(events[..|events| - 1]);
    }
  }

  lemma {:induction false} StoredInTwo(a: seq<Value>, b: seq<Value>)
    ensures Stored(a + b) == Stored(a) + Stored(b)
    decreases |b|
  {
    if b == [] {
      assert a + b == a;
    } else {
      assert (a + b)[..|a + b| - 1] == a + b[..|b| - 1];
      StoredInTwo(a, b[..|b| - 1]);
    }
  }

  /** The blocks are the entries at these places, which are those of all that are not falsy. */
  ghost predicate AreStored(entries: seq<Value>, blocks: seq<Value>, places: seq<nat>) {
    && |places| == |blocks|
    && (forall i, j | 0 <= i < j < |places| :: places[i] < places[j])
    && (forall i | 0 <= i < |places| :: places[i] < |entries| && blocks[i] == entries[places[i]])
    && (forall k | 0 <= k < |entries| :: k in places <==> !IsFalsy(entries[k]))
  }

  lemma {:induction false} StoredMeans(entries: seq<Value>) returns (places: seq<nat>)
    ensures AreStored(entries, Stored(entries), places)
    decreases |entries|
  {
    places := [];
    if entries != [] {
      var init, entry := entries[..|entries| - 1], entries[|entries| - 1];
      places := StoredMeans(init);
      assert entries == init + [entry];
      StoredGoesOn(init, entry, Stored(init), places);
      if !IsFalsy(entry) {
        places := places + [|init|];
      }
    }
  }

  lemma {:induction false} StoredGoesOn(entries: seq<Value>, entry: Value, blocks: seq<Value>, places: seq<nat>)
    requires AreStored(entries, blocks, places)
    ensures if IsFalsy(entry) then AreStored(entries + [entry], blocks, places)
            else AreStored(entries + [entry], blocks + [entry], places + [|entries|])
  {
    forall k | 0 <= k < |entries| + 1
      ensures k in places + [|entries|] <==> k in places || k == |entries|
      ensures k == |entries| ==> k !in places
    {
    }
  }

  /** An event that names a usable total. */
  predicate NamesTotal(event: Value) {
    && (Is(event, "hello") || Is(event, "chunk") || Is(event, "complete"))
    && Get(event, "totalBlocks").Some? && !IsFalsy(Get(event, "totalBlocks").value)
  }

  predicate IsHello(event: Value) {
    Is(event, "hello")
  }

  predicate NamesChecksum(event: Value) {
    Is(event, "hello") && Get(event, "checksum").Some? && Get(event, "checksum").value != Null
  }

  /** The last value of a field among the events that are asked, or else the one from before. */
  ghost predicate IsLatest(events: seq<Value>, asked: Value -> bool, field: string, before: Option<Value>, latest: Option<Value>) {
    && (forall k | 0 <= k < |events| && asked(events[k]) && (forall j | k < j < |events| :: !asked(events[j])) ::
          latest == Get(events[k], field))
    && ((forall k | 0 <= k < |events| :: !asked(events[k])) ==> latest == before)
  }

  lemma {:induction false} LatestGoesOn(events: seq<Value>, asked: Value -> bool, field: string, before: Option<Value>,
                                        latest: Option<Value>, last: Option<Value>)
    requires events != [] && IsLatest(events[..|events| - 1], asked, field, before, latest)
    requires last == if asked(events[|events| - 1]) then Get(events[|events| - 1], field) else latest
    ensures IsLatest(events, asked, field, before, last)
  {
    var init := events[..|events| - 1];
    forall k | 0 <= k < |events| && asked(events[k]) && (forall j | k < j < |events| :: !asked(events[j]))
      ensures last == Get(events[k], field)
    {
      if k < |init| {
        assert init[k] == events[k] && !asked(events[|init|]);
        assert forall j | k < j < |init| :: !asked(init[j]);
      }
    }
    if forall k | 0 <= k < |events| :: !asked(events[k]) {
      assert forall k | 0 <= k < |init| :: !asked(init[k]);
    }
  }

  ghost predicate HasComplete(events: seq<Value>) {
    exists k :: 0 <= k < |events| && Is(events[k], "complete")
  }

  /** The first error event. */
  predicate IsFirstError(events: seq<Value>, k: int) {
    0 <= k < |events| && Is(events[k], "error") && forall j | 0 <= j < k :: !Is(events[j], "error")
  }

  predicate HasNoError(events: seq<Value>) {
    forall k | 0 <= k < |events| :: !Is(events[k], "error")
  }

  /** What has been gathered from events none of which is an error. */
  ghost predicate IsGathered(events: seq<Value>, start: Gathered, g: Gathered) {
    && (g.hasComplete <==> start.hasComplete || HasComplete(events))
    && g.packed == start.packed + Stored(AllEntries(events))
    && IsLatest(events, NamesTotal, "totalBlocks", start.total, g.total)
    && IsLatest(events, IsHello, "variant", start.variant, g.variant)
    && IsLatest(events, NamesChecksum, "checksum", start.checksum, g.checksum)
  }

  /** What one event that is no error adds. */
  lemma {:induction false} HandleAdds(event: Value, g: Gathered)
    requires !Is(event, "error")
    ensures Handle(event, g).Reading?
    ensures
      var now := Handle(event, g).gathered;
      && (now.hasComplete <==> g.hasComplete || Is(event, "complete"))
      && now.packed == g.packed + (if Is(event, "chunk") then Stored(ChunkEntries(event)) else [])
      && now.total == (if NamesTotal(event) then Get(event, "totalBlocks") else g.total)
      && now.variant == (if IsHello(event) then Get(event, "variant") else g.variant)
      && now.checksum == (if NamesChecksum(event) then Get(event, "checksum") else g.checksum)
  {
  }

  lemma {:induction false} PackedGoesOn(events: seq<Value>, packed: seq<Value>)
    requires events != []
    ensures
      var init, event := events[..|events| - 1], events[|events| - 1];
      packed + Stored(AllEntries(events))
        == packed + Stored(AllEntries(init)) + (if Is(event, "chunk") then Stored(ChunkEntries(event)) else [])
  {
    var init, event := events[..|events| - 1], events[|events| - 1];
    if Is(event, "chunk") {
      StoredInTwo(AllEntries(init), ChunkEntries(event));
    } else {
      assert AllEntries(init) + [] == AllEntries(init);
    }
  }

  lemma {:induction false} CompleteGoesOn(events: seq<Value>)
    requires events != []
    ensures HasComplete(events) <==> HasComplete(events[..|events| - 1]) || Is(events[|events| - 1], "complete")
  {
    if HasComplete(events[..|events| - 1]) {
      var k :| 0 <= k < |events| - 1 && Is(events[..|events| - 1][k], "complete");
      assert Is(events[k], "complete");
    }
  }

  lemma {:induction false} Gathers(events: seq<Value>, start: Gathered)
    requires HasNoError(events)
    ensures HandleAll(events, Reading(start)).Reading? && IsGathered(events, start, HandleAll(events, Reading(start)).gathered)
    decreases |events|
  {
    if events != [] {
      var init := events[..|events| - 1];
      Gathers(init, start);
      GatheredGoesOn(events, start, HandleAll(init, Reading(start)).gathered);
    }
  }

  lemma {:induction false} GatheredGoesOn(events: seq<Value>, start: Gathered, before: Gathered)
    requires events != [] && !Is(events[|events| - 1], "error") && IsGathered(events[..|events| - 1], start, before)
    ensures Handle(events[|events| - 1], before).Reading?
    ensures IsGathered(events, start, Handle(events[|events| - 1], before).gathered)
  {
    var event := events[|events| - 1];
    HandleAdds(event, before);
    var now := Handle(event, before).gathered;
    PackedGoesOn(events, start.packed);
    CompleteGoesOn(events);
    LatestGoesOn(events, NamesTotal, "totalBlocks", start.total, before.total, now.total);
    LatestGoesOn(events, IsHello, "variant", start.variant, before.variant, now.variant);
    LatestGoesOn(events, NamesChecksum, "checksum", start.checksum, before.checksum, now.checksum);
  }

  /** The message of an error event, or one of the client's own. */
  predicate IsMessage(event: Value, message: Option<Value>) {
    var told := Get(event, "message");
    if told.Some? && !IsFalsy(told.value) then message == told else message == Some(Str("Build stream failed"))
  }

  /** After an error event nothing counts. */
  lemma {:induction false} FirstErrorCounts(events: seq<Value>, k: nat, start: Gathered)
    requires IsFirstError(events, k)
    ensures HandleAll(events, Reading(start)).Thrown? && IsMessage(events[k], HandleAll(events, Reading(start)).message)
    decreases |events|
  {
    var init := events[..|events| - 1];
    if k < |init| {
      assert IsFirstError(init, k);
      FirstErrorCounts(init, k, start);
    } else {
      LastErrorCounts(events, init, start);
    }
  }

  lemma {:induction false} LastErrorCounts(events: seq<Value>, init: seq<Value>, start: Gathered)
    requires events != [] && init == events[..|events| - 1] && HasNoError(init) && Is(events[|init|], "error")
    ensures HandleAll(events, Reading(start)).Thrown? && IsMessage(events[|init|], HandleAll(events, Reading(start)).message)
  {
    Gathers(init, start);
    ErrorThrows(events[|init|], HandleAll(init, Reading(start)).gathered);
  }

  lemma {:induction false} ErrorThrows(event: Value, g: Gathered)
    requires Is(event, "error")
    ensures Handle(event, g).Thrown? && IsMessage(event, Handle(event, g).message)
  {
  }

  /** The least number of blocks that a total asks for; anything but a finite number that is not
      negative asks for none. */
  function Asked(total: Option<Value>): real {
    match total
    case Some(Number(Finite(n))) => if n >= 0.0 then n else 0.0
    case _ => 0.0
  }

  /** What the client makes of the events of a stream. With an error event it fails with the
      message of the first one. Otherwise it has the variant, the checksum and the total of the
      last event that names one, and all entries that are not falsy. It delivers these exactly
      when some event says that the stream is complete and the total asks for no more of them;
      else it falls back. */
  ghost predicate IsOutcome(events: seq<Value>, start: Gathered, outcome: Outcome) {
    if HasNoError(events) then
      exists total, variant, checksum, blocks :: IsReading(events, start, total, variant, checksum, blocks, outcome)
    else
      exists k :: IsFirstError(events, k) && outcome.Failed? && IsMessage(events[k], outcome.message)
  }

  ghost predicate IsReading(events: seq<Value>, start: Gathered, total: Option<Value>, variant: Option<Value>,
                            checksum: Option<Value>, blocks: seq<Value>, outcome: Outcome)
  {
    && IsLatest(events, NamesTotal, "totalBlocks", start.total, total)
    && IsLatest(events, IsHello, "variant", start.variant, variant)
    && IsLatest(events, NamesChecksum, "checksum", start.checksum, checksum)
    && (exists places :: AreStored(EntriesIn(events), blocks, places))
    && outcome == if HasComplete(events) && Asked(total) <= |blocks| as real
                  then Delivered(variant, checksum, blocks) else FallBack
  }

  predicate IsFresh(g: Gathered) {
    !g.hasComplete && g.packed == []
  }

  /** Main result for every text. */
  lemma {:induction false} OutcomeMeans(parse: Parser, text: string, start: Gathered)
    requires IsFresh(start)
    ensures IsOutcome(EventsIn(parse, Split(text)), start, OutcomeOf(parse, text, start))
  {
    var events := EventsIn(parse, Split(text));
    LinesAreEvents(parse, Split(text), Reading(start));
    if HasNoError(events) {
      Gathers(events, start);
      OutcomeOfGathered(events, start, HandleAll(events, Reading(start)).gathered);
    } else {
      var k := FirstError(events);
      FirstErrorCounts(events, k, start);
    }
  }

  /** In particular for what the client begins with: the variant it asked for, and the checksum it knows. */
  lemma {:induction false} OutcomeFromStart(parse: Parser, text: string, variant: string, checksum: Option<string>)
    ensures
      var known := match checksum case Some(c) => Str(c) case None => Null;
      IsOutcome(EventsIn(parse, Split(text)), Gathered(Some(Str(variant)), Some(known), None, false, []),
                OutcomeOf(parse, text, Start(variant, checksum)))
  {
    OutcomeMeans(parse, text, Start(variant, checksum));
  }

  lemma {:induction false} OutcomeOfGathered(events: seq<Value>, start: Gathered, g: Gathered)
    requires IsFresh(start) && HasNoError(events) && IsGathered(events, start, g)
    ensures IsOutcome(events, start, Result(Reading(g)))
  {
    EntriesAreThese(events);
    var places := StoredMeans(AllEntries(events));
    ResultOfReading(g);
    IsReadingOf(events, start, g, places, Result(Reading(g)));
  }

  lemma {:induction false} ResultOfReading(g: Gathered)
    ensures Result(Reading(g)) ==
      if g.hasComplete && Asked(g.total) <= |g.packed| as real then Delivered(g.variant, g.checksum, g.packed) else FallBack
  {
  }

  lemma {:induction false} IsReadingOf(events: seq<Value>, start: Gathered, g: Gathered, places: seq<nat>, outcome: Outcome)
    requires IsFresh(start) && IsGathered(events, start, g) && AreStored(EntriesIn(events), g.packed, places)
    requires outcome ==
      if g.hasComplete && Asked(g.total) <= |g.packed| as real then Delivered(g.variant, g.checksum, g.packed) else FallBack
    ensures IsReading(events, start, g.total, g.variant, g.checksum, g.packed, outcome)
  {
  }

  lemma {:induction false} FirstError(events: seq<Value>) returns (k: nat)
    requires !HasNoError(events)
    ensures IsFirstError(events, k)
    decreases |events|
  {
    var init := events[..|events| - 1];
    if HasNoError(init) {
      k := |init|;
      assert forall j | 0 <= j < k :: events[j] == init[j];
    } else {
      k := FirstError(init);
    }
  }

  /** The lines of a text, joined by newlines. */
  function Lined(lines: seq<string>): string
    requires lines != []
  {
    if |lines| == 1 then lines[0] else Lined(lines[..|lines| - 1]) + "\n" + lines[|lines| - 1]
  }

  /** Splitting leaves no newline in a line and loses nothing else. */
  lemma {:induction false} SplitMeans(text: string)
    ensures Lined(Split(text)) == text && forall k | 0 <= k < |Split(text)| :: '\n' !in Split(text)[k]
    decreases |text|
  {
    if text != "" {
      var init, c := text[..|text| - 1], text[|text| - 1];
      SplitMeans(init);
      LinedGoesOn(Split(init), c);
      assert text == init + [c];
    }
  }

  lemma {:induction false} LinedGoesOn(lines: seq<string>, c: char)
    requires lines != [] && forall k | 0 <= k < |lines| :: '\n' !in lines[k]
    ensures Lined(Extended(lines, c)) == Lined(lines) + [c]
    ensures forall k | 0 <= k < |Extended(lines, c)| :: '\n' !in Extended(lines, c)[k]
  {
    var more, n := Extended(lines, c), |lines|;
    if c == '\n' {
      assert more[..n] == lines;
    } else {
      assert more[..n - 1] == lines[..n - 1];
      if n > 1 {
        assert Lined(lines) == Lined(lines[..n - 1]) + "\n" + lines[n - 1];
        assert Lined(more) == Lined(lines[..n - 1]) + "\n" + (lines[n - 1] + [c]);
      }
    }
  }

  // ----- the reader -----

  class Reader {
    const parse: Parser
    var buffer: string
    var gathered: Gathered
    var thrown: Option<Option<Value>>

    constructor (parse: Parser, start: Gathered)
      ensures this.parse == parse && Now() == Reading(start) && buffer == ""
    {
      this.parse, buffer, gathered, thrown := parse, "", start, None;
    }

    ghost function Now(): Progress
      reads this
    {
      if thrown.Some? then Thrown(thrown.value) else Reading(gathered)
    }

    method ProcessLine(line: string)
      requires thrown.None?
      modifies `gathered, `thrown
      ensures Now() == HandleLine(parse, line, old(gathered))
    {
      var parsed := ParseLine(parse, line);
      if parsed.None? {
        return;
      }
      var event := parsed.value;
      var kind := Get(event, "type");
      if IsText(kind, "ping") {
        return;
      }
      if IsText(kind, "error") {
        thrown := Some(ErrorMessage(event));
        return;
      }
      if IsText(kind, "hello") {
        gathered := gathered.(
          variant := Get(event, "variant"),
          checksum := Coalesce(Get(event, "checksum"), gathered.checksum),
          total := Or(Get(event, "totalBlocks"), gathered.total));
        return;
      }
      if IsText(kind, "chunk") {
        Append(ChunkEntries(event));
        gathered := gathered.(total := Or(Get(event, "totalBlocks"), gathered.total));
        return;
      }
      if IsText(kind, "complete") {
        gathered := gathered.(hasComplete := true, total := Or(Get(event, "totalBlocks"), gathered.total));
      }
    }

    method Append(entries: seq<Value>)
      modifies `gathered
      ensures gathered == old(gathered).(packed := old(gathered).packed + Stored(entries))
    {
      var was := gathered.packed;
      for i := 0 to |entries|
        invariant gathered == old(gathered).(packed := was + Stored(entries[..i]))
      {
        assert entries[..i + 1][..i] == entries[..i];
        if !IsFalsy(entries[i]) {
          gathered := gathered.(packed := gathered.packed + [entries[i]]);
        }
      }
      assert entries[..|entries|] == entries;
    }

    method ProcessLines(lines: seq<string>)
      requires thrown.None?
      modifies `gathered, `thrown
      ensures Now() == HandleLines(parse, lines, Reading(old(gathered)))
    {
      var i := 0;
      while i < |lines| && thrown.None?
        invariant 0 <= i <= |lines|
        invariant Now() == HandleLines(parse, lines[..i], Reading(old(gathered)))
      {
        assert lines[..i + 1][..i] == lines[..i];
        ProcessLine(lines[i]);
        i := i + 1;
      }
      assert lines == lines[..i] + lines[i..] && lines[..|lines|] == lines;
      HandleInTwo(parse, lines[..i], lines[i..], Reading(old(gathered)));
      if thrown.Some? {
        NothingAfterThrow(parse, lines[i..], Now());
      }
    }

    /** One piece of decoded text: the finished lines are handled, the rest stays in the buffer. */
    method Feed(piece: string)
      requires thrown.None?
      modifies this
      ensures
        var lines := Split(old(buffer) + piece);
        buffer == lines[|lines| - 1] && Now() == HandleLines(parse, lines[..|lines| - 1], Reading(old(gathered)))
    {
      buffer := buffer + piece;
      var lines := Split(buffer);
      buffer := lines[|lines| - 1];
      ProcessLines(lines[..|lines| - 1]);
    }

    /** Main result: however the text is cut into pieces, reading it piece by piece ends as if
        the whole text had been split into lines once. */
    method ReadAll(pieces: seq<string>) returns (outcome: Outcome)
      requires thrown.None? && buffer == ""
      modifies this
      ensures outcome == OutcomeOf(parse, Join(pieces), old(gathered))
    {
      ghost var start := gathered;
      var i := 0;
      while i < |pieces| && thrown.None?
        invariant 0 <= i <= |pieces|
        invariant
          var lines := Split(Join(pieces[..i]));
          buffer == lines[|lines| - 1] && Now() == HandleLines(parse, lines[..|lines| - 1], Reading(start))
      {
        assert pieces[..i + 1][..i] == pieces[..i];
        PieceByPiece(parse, Join(pieces[..i]), pieces[i], Reading(start));
        Feed(pieces[i]);
        i := i + 1;
      }
      ThrowIsFinal(parse, pieces, i, Reading(start));
      if thrown.Some? {
        return Failed(thrown.value);
      }
      assert pieces[..i] == pieces;
      TailCounts(parse, Join(pieces), Reading(start));
      if Trimmed(buffer) != "" {
        ProcessLine(buffer);
      }
      if thrown.Some? {
        return Failed(thrown.value);
      }
      if LooksComplete(gathered) {
        return Delivered(gathered.variant, gathered.checksum, gathered.packed);
      }
      return FallBack;
    }
  }

  /** The state between two pieces: the finished lines handled, the last one kept. */
  lemma {:induction false} PieceByPiece(parse: Parser, text: string, piece: string, p: Progress)
    ensures
      var before, after := Split(text), Split(text + piece);
      var more := Split(before[|before| - 1] + piece);
      && after[|after| - 1] == more[|more| - 1]
      && HandleLines(parse, after[..|after| - 1], p)
        == HandleLines(parse, more[..|more| - 1], HandleLines(parse, before[..|before| - 1], p))
  {
    var before, after := Split(text), Split(text + piece);
    var more := Split(before[|before| - 1] + piece);
    SplitInTwo(text, piece);
    assert after[..|after| - 1] == before[..|before| - 1] + more[..|more| - 1];
    HandleInTwo(parse, before[..|before| - 1], more[..|more| - 1], p);
  }

  lemma {:induction false} TailCounts(parse: Parser, text: string, p: Progress)
    ensures
      var lines := Split(text);
      var before := HandleLines(parse, lines[..|lines| - 1], p);
      HandleLines(parse, lines, p) ==
      if before.Thrown? then before else HandleLine(parse, lines[|lines| - 1], before.gathered)
  {
  }

  /** Once a line has thrown, the pieces still to come change nothing. */
  lemma {:induction false} ThrowIsFinal(parse: Parser, pieces: seq<string>, i: nat, p: Progress)
    requires i <= |pieces|
    ensures
      var lines := Split(Join(pieces[..i]));
      var now := HandleLines(parse, lines[..|lines| - 1], p);
      now.Thrown? ==> HandleLines(parse, Split(Join(pieces)), p) == now
  {
    var lines := Split(Join(pieces[..i]));
    var now := HandleLines(parse, lines[..|lines| - 1], p);
    JoinInTwo(pieces, i);
    SplitInTwo(Join(pieces[..i]), Join(pieces[i..]));
    var rest := Split(lines[|lines| - 1] + Join(pieces[i..]));
    HandleInTwo(parse, lines[..|lines| - 1], rest, p);
    if now.Thrown? {
      NothingAfterThrow(parse, rest, now);
    }
  }

  lemma {:induction false} JoinInTwo(pieces: seq<string>, i: nat)
    requires i <= |pieces|
    ensures Join(pieces) == Join(pieces[..i]) + Join(pieces[i..])
    decreases |pieces|
  {
    if i == |pieces| {
      assert pieces[..i] == pieces;
    } else {
      var init := pieces[..|pieces| - 1];
      JoinInTwo(init, i);
      assert init[..i] == pieces[..i] && init[i..] == pieces[i..][..|pieces| - i - 1];
    }
  }
}
