/** The cache of hydrated builds: least recently used, bounded by entries and by bytes. */
module BuildCache {
  import opened Options

  // ----- JavaScript maps: entries in insertion order -----

  function Keys<V>(m: seq<(string, V)>): seq<string> {
    seq(|m|, i requires 0 <= i < |m| => m[i].0)
  }

  /** The place of a key, or the length when it is absent. */
  function Place(keys: seq<string>, key: string): (i: nat)
    ensures i <= |keys|
    ensures i < |keys| ==> keys[i] == key
    ensures forall j | 0 <= j < i :: keys[j] != key
  {
    if keys == [] || keys[0] == key then 0 else 1 + Place(keys[1..], key)
  }

  function Find<V>(m: seq<(string, V)>, key: string): Option<V> {
    var i := Place(Keys(m), key);
    if i < |m| then Some(m[i].1) else None
  }

  function Dropped<T>(s: seq<T>, i: nat): seq<T> {
    if i < |s| then s[..i] + s[i + 1..] else s
  }

  function Delete<V>(m: seq<(string, V)>, key: string): seq<(string, V)> {
    Dropped(m, Place(Keys(m), key))
  }

  function Put<V>(m: seq<(string, V)>, key: string, v: V): seq<(string, V)> {
    var i := Place(Keys(m), key);
    if i < |m| then m[i := (key, v)] else m + [(key, v)]
  }

  // ----- the recency list -----

  datatype Slot<B> = Slot(key: string, build: B, weight: int)

  datatype Limits = Limits(maxEntryBytes: int, maxEntries: int, maxTotalBytes: int)

  predicate ValidLimits(limits: Limits) {
    limits.maxEntryBytes > 0 && limits.maxEntries > 0 && limits.maxTotalBytes > 0
  }

  function SlotKeys<B>(slots: seq<Slot<B>>): seq<string> {
    seq(|slots|, i requires 0 <= i < |slots| => slots[i].key)
  }

  function Without<B>(slots: seq<Slot<B>>, key: string): seq<Slot<B>> {
    Dropped(slots, Place(SlotKeys(slots), key))
  }

  function Weight<B>(slots: seq<Slot<B>>): int {
    if slots == [] then 0 else slots[0].weight + Weight(slots[1..])
  }

  predicate Fits<B>(slots: seq<Slot<B>>, limits: Limits) {
    |slots| <= limits.maxEntries && Weight(slots) <= limits.maxTotalBytes
  }

  /** The longest suffix within both limits. */
  function Trimmed<B>(slots: seq<Slot<B>>, limits: Limits): seq<Slot<B>> {
    if slots == [] || Fits(slots, limits) then slots else Trimmed(slots[1..], limits)
  }

  /** Least recently used first; distinct keys; every weight admissible. */
  predicate IsRecency<B>(slots: seq<Slot<B>>, limits: Limits) {
    && (forall i | 0 <= i < |slots| :: 0 < slots[i].weight <= limits.maxEntryBytes)
    && (forall i, j | 0 <= i < j < |slots| :: slots[i].key != slots[j].key)
  }

  predicate IsAdmissible(weight: int, limits: Limits) {
    0 < weight <= limits.maxEntryBytes
  }

  function Inserted<B>(slots: seq<Slot<B>>, slot: Slot<B>, limits: Limits): seq<Slot<B>> {
    if IsAdmissible(slot.weight, limits) then Trimmed(Without(slots, slot.key) + [slot], limits) else slots
  }

  /** A hit moves the slot to the recent end. */
  function Touched<B>(slots: seq<Slot<B>>, key: string): seq<Slot<B>> {
    var i := Place(SlotKeys(slots), key);
    if i < |slots| then Without(slots, key) + [slots[i]] else slots
  }

  function Lookup<B>(slots: seq<Slot<B>>, key: string): Option<B> {
    var i := Place(SlotKeys(slots), key);
    if i < |slots| then Some(slots[i].build) else None
  }

  // ----- what the list operations mean -----

  /** Trimming keeps a suffix that fits, and no longer suffix fits. */
  lemma {:induction false} TrimmedIsLongest<B>(slots: seq<Slot<B>>, limits: Limits)
    requires ValidLimits(limits)
    ensures
      var cut := |slots| - |Trimmed(slots, limits)|;
      && 0 <= cut && Trimmed(slots, limits) == slots[cut..]
      && Fits(slots[cut..], limits)
      && forall k | 0 <= k < cut :: !Fits(slots[k..], limits)
    decreases |slots|
  {
    if slots != [] && !Fits(slots, limits) {
      TrimmedIsLongest(slots[1..], limits);
      var cut := |slots| - |Trimmed(slots, limits)|;
      assert slots[1..][cut - 1..] == slots[cut..];
      forall k | 0 <= k < cut ensures !Fits(slots[k..], limits) {
        if k > 0 {
          assert slots[1..][k - 1..] == slots[k..];
        }
      }
    }
  }

  lemma {:induction false} WeightInTwo<B>(a: seq<Slot<B>>, b: seq<Slot<B>>)
    ensures Weight(a + b) == Weight(a) + Weight(b)
    decreases |a|
  {
    if a == [] {
      assert a + b == b;
    } else {
      assert (a + b)[1..] == a[1..] + b;
      WeightInTwo(a[1..], b);
    }
  }

  lemma {:induction false} WeightIsPositive<B>(slots: seq<Slot<B>>)
    requires forall i | 0 <= i < |slots| :: 0 < slots[i].weight
    ensures Weight(slots) >= 0
    decreases |slots|
  {
    if slots != [] {
      WeightIsPositive(slots[1..]);
    }
  }

  /** What is removed takes exactly its own weight away. */
  lemma {:induction false} WeightWithout<B>(slots: seq<Slot<B>>, i: nat)
    requires i < |slots| && forall k | 0 <= k < |slots| :: 0 < slots[k].weight
    ensures Weight(Dropped(slots, i)) == Weight(slots) - slots[i].weight >= 0
  {
    assert slots == slots[..i] + ([slots[i]] + slots[i + 1..]);
    WeightInTwo(slots[..i], [slots[i]] + slots[i + 1..]);
    WeightInTwo([slots[i]], slots[i + 1..]);
    WeightInTwo(slots[..i], slots[i + 1..]);
    WeightIsPositive(slots[..i]);
    WeightIsPositive(slots[i + 1..]);
  }

  lemma {:induction false} KeyIsGone<B>(slots: seq<Slot<B>>, key: string, limits: Limits)
    requires IsRecency(slots, limits)
    ensures IsRecency(Without(slots, key), limits)
    ensures forall i | 0 <= i < |Without(slots, key)| :: Without(slots, key)[i].key != key
  {
    var p := Place(SlotKeys(slots), key);
    forall i | 0 <= i < |Without(slots, key)| ensures Without(slots, key)[i].key != key {
      assert SlotKeys(slots)[if p < |slots| && i >= p then i + 1 else i] != key || p < |slots|;
    }
  }

  // ----- runs -----

  datatype Op<B> = Insert(slot: Slot<B>) | Touch(key: string)

  function Apply<B>(op: Op<B>, slots: seq<Slot<B>>, limits: Limits): seq<Slot<B>> {
    match op
    case Insert(slot) => Inserted(slots, slot, limits)
    case Touch(key) => Touched(slots, key)
  }

  function After<B>(ops: seq<Op<B>>, limits: Limits): seq<Slot<B>> {
    if ops == [] then [] else Apply(ops[|ops| - 1], After(ops[..|ops| - 1], limits), limits)
  }

  /** The accesses that took effect, with nothing ever evicted: the full recency history. */
  function Unbounded<B>(ops: seq<Op<B>>, limits: Limits): seq<Slot<B>> {
    if ops == [] then []
    else
      var all := Unbounded(ops[..|ops| - 1], limits);
      match ops[|ops| - 1]
      case Insert(slot) => if IsAdmissible(slot.weight, limits) then Without(all, slot.key) + [slot] else all
      case Touch(key) => if Lookup(After(ops[..|ops| - 1], limits), key).Some? then Touched(all, key) else all
  }

  /** Main result over runs: after any reads and inserts the cache fits its limits, and what it
      holds is a most recent part of the full history, so whatever was evicted is older than
      everything kept. */
  lemma {:induction false} EvictsTheOldest<B>(ops: seq<Op<B>>, limits: Limits)
    requires ValidLimits(limits)
    ensures IsRecency(After(ops, limits), limits) && Fits(After(ops, limits), limits)
    ensures IsRecency(Unbounded(ops, limits), limits)
    ensures IsSuffix(After(ops, limits), Unbounded(ops, limits))
    decreases |ops|
  {
    if ops != [] {
      var init, op := ops[..|ops| - 1], ops[|ops| - 1];
      EvictsTheOldest(init, limits);
      var kept, all := After(init, limits), Unbounded(init, limits);
      match op
      case Insert(slot) =>
        if IsAdmissible(slot.weight, limits) {
          InsertKeepsSuffix(kept, all, slot, limits);
        }
      case Touch(key) =>
        if Lookup(kept, key).Some? {
          TouchKeepsSuffix(kept, all, key, limits);
        }
    }
  }

  lemma {:induction false} InsertKeepsSuffix<B>(kept: seq<Slot<B>>, all: seq<Slot<B>>, slot: Slot<B>, limits: Limits)
    requires ValidLimits(limits) && IsAdmissible(slot.weight, limits)
    requires IsRecency(kept, limits) && IsRecency(all, limits) && IsSuffix(kept, all)
    ensures IsRecency(Inserted(kept, slot, limits), limits) && Fits(Inserted(kept, slot, limits), limits)
    ensures IsRecency(Without(all, slot.key) + [slot], limits)
    ensures IsSuffix(Inserted(kept, slot, limits), Without(all, slot.key) + [slot])
  {
    var more, most := Without(kept, slot.key) + [slot], Without(all, slot.key) + [slot];
    InsertKeepsRecency(kept, slot, limits);
    InsertKeepsRecency(all, slot, limits);
    assert IsSuffix(more, most) by {
      SuffixWithout(kept, all, slot.key, limits);
      SuffixPlusOne(Without(kept, slot.key), Without(all, slot.key), slot);
    }
    TrimmingKeepsRecency(more, limits);
    TrimmedIsLongest(more, limits);
    SuffixOfSuffix(more, most, |more| - |Trimmed(more, limits)|);
  }

  lemma {:induction false} TrimmingKeepsRecency<B>(slots: seq<Slot<B>>, limits: Limits)
    requires ValidLimits(limits) && IsRecency(slots, limits)
    ensures IsRecency(Trimmed(slots, limits), limits)
  {
    TrimmedIsLongest(slots, limits);
  }

  lemma {:induction false} InsertKeepsRecency<B>(slots: seq<Slot<B>>, slot: Slot<B>, limits: Limits)
    requires IsRecency(slots, limits) && IsAdmissible(slot.weight, limits)
    ensures IsRecency(Without(slots, slot.key) + [slot], limits)
  {
    KeyIsGone(slots, slot.key, limits);
  }

  lemma {:induction false} SuffixOfSuffix<B>(part: seq<Slot<B>>, whole: seq<Slot<B>>, cut: nat)
    requires IsSuffix(part, whole) && cut <= |part|
    ensures IsSuffix(part[cut..], whole)
  {
  }

  lemma {:induction false} TouchKeepsSuffix<B>(kept: seq<Slot<B>>, all: seq<Slot<B>>, key: string, limits: Limits)
    requires Lookup(kept, key).Some? && Fits(kept, limits)
    requires IsRecency(kept, limits) && IsRecency(all, limits) && IsSuffix(kept, all)
    ensures IsRecency(Touched(kept, key), limits) && Fits(Touched(kept, key), limits)
    ensures IsRecency(Touched(all, key), limits) && IsSuffix(Touched(kept, key), Touched(all, key))
  {
    TouchKeepsRecency(kept, key, limits);
    TouchKeepsRecency(all, key, limits);
    SuffixWithout(kept, all, key, limits);
    var i, j := Place(SlotKeys(kept), key), Place(SlotKeys(all), key);
    assert kept[i] == all[j];
    SuffixPlusOne(Without(kept, key), Without(all, key), kept[i]);
  }

  lemma {:induction false} SuffixPlusOne<B>(part: seq<Slot<B>>, whole: seq<Slot<B>>, slot: Slot<B>)
    requires IsSuffix(part, whole)
    ensures IsSuffix(part + [slot], whole + [slot])
  {
  }

  /** Touching reorders: the same slots, the same weight. */
  lemma {:induction false} TouchKeepsRecency<B>(slots: seq<Slot<B>>, key: string, limits: Limits)
    requires IsRecency(slots, limits)
    ensures IsRecency(Touched(slots, key), limits) && |Touched(slots, key)| == |slots|
    ensures Weight(Touched(slots, key)) == Weight(slots)
  {
    var i := Place(SlotKeys(slots), key);
    if i < |slots| {
      KeyIsGone(slots, key, limits);
      WeightWithout(slots, i);
      WeightInTwo(Without(slots, key), [slots[i]]);
    }
  }

  predicate IsSuffix<B(==)>(part: seq<Slot<B>>, whole: seq<Slot<B>>) {
    |part| <= |whole| && part == whole[|whole| - |part|..]
  }

  lemma {:induction false} SuffixWithout<B>(part: seq<Slot<B>>, whole: seq<Slot<B>>, key: string, limits: Limits)
    requires IsSuffix(part, whole) && IsRecency(whole, limits)
    ensures IsSuffix(Without(part, key), Without(whole, key))
    ensures
      var i, j := Place(SlotKeys(part), key), Place(SlotKeys(whole), key);
      i < |part| ==> j == i + |whole| - |part|
  {
    var i, j := Place(SlotKeys(part), key), Place(SlotKeys(whole), key);
    SuffixPlace(part, whole, key, limits);
    DropKeepsSuffix(part, whole, i, j);
  }

  lemma {:induction false} DropKeepsSuffix<B>(part: seq<Slot<B>>, whole: seq<Slot<B>>, i: nat, j: nat)
    requires IsSuffix(part, whole)
    requires if i < |part| then j == i + |whole| - |part| else j < |whole| - |part| || j == |whole|
    ensures IsSuffix(Dropped(part, i), Dropped(whole, j))
  {
    if i < |part| {
      DropFromSuffix(part, whole, i);
    } else if j < |whole| {
      DropBeforeSuffix(part, whole, j);
    }
  }

  lemma {:induction false} DropBeforeSuffix<B>(part: seq<Slot<B>>, whole: seq<Slot<B>>, j: nat)
    requires IsSuffix(part, whole) && j < |whole| - |part|
    ensures IsSuffix(part, Dropped(whole, j))
  {
    assert Dropped(whole, j)[|whole| - |part| - 1..] == whole[|whole| - |part|..];
  }

  lemma {:induction false} DropFromSuffix<B>(part: seq<Slot<B>>, whole: seq<Slot<B>>, i: nat)
    requires IsSuffix(part, whole) && i < |part|
    ensures IsSuffix(Dropped(part, i), Dropped(whole, i + |whole| - |part|))
  {
    var n := |whole| - |part|;
    assert Dropped(whole, i + n)[n..] == Dropped(part, i);
  }

  lemma {:induction false} SuffixPlace<B>(part: seq<Slot<B>>, whole: seq<Slot<B>>, key: string, limits: Limits)
    requires IsSuffix(part, whole) && IsRecency(whole, limits)
    ensures
      var n, i, j := |whole| - |part|, Place(SlotKeys(part), key), Place(SlotKeys(whole), key);
      if i < |part| then j == i + n else j < n || j == |whole|
  {
    var n, i, j := |whole| - |part|, Place(SlotKeys(part), key), Place(SlotKeys(whole), key);
    assert forall k | n <= k < |whole| :: SlotKeys(whole)[k] == SlotKeys(part)[k - n];
    if i < |part| {
      assert SlotKeys(whole)[n + i] == key;
    }
  }

  /** An entry within the total limit survives its own insert. */
  lemma {:induction false} NewestStays<B>(slots: seq<Slot<B>>, slot: Slot<B>, limits: Limits)
    requires ValidLimits(limits) && IsRecency(slots, limits) && IsAdmissible(slot.weight, limits)
    ensures Lookup(Inserted(slots, slot, limits), slot.key)
         == if slot.weight <= limits.maxTotalBytes then Some(slot.build) else None
  {
    var all := Without(slots, slot.key) + [slot];
    var kept := Trimmed(all, limits);
    var cut := |all| - |kept|;
    KeyIsGone(slots, slot.key, limits);
    TrimmedIsLongest(all, limits);
    assert all[|all| - 1..] == [slot];
    assert Weight([slot]) == slot.weight;
    if slot.weight <= limits.maxTotalBytes {
      assert Fits(all[|all| - 1..], limits);
      assert kept[|kept| - 1] == slot;
      assert SlotKeys(kept)[|kept| - 1] == slot.key;
      var p := Place(SlotKeys(kept), slot.key);
      assert kept[p] == all[cut + p];
    } else if kept != [] {
      WeightInTwo(kept[..|kept| - 1], [slot]);
      assert kept == kept[..|kept| - 1] + [slot];
      WeightIsPositive(kept[..|kept| - 1]);
      assert false;
    }
  }

  // ----- what is found in the cache -----

  lemma {:induction false} LookupFinds<B>(slots: seq<Slot<B>>, key: string, limits: Limits)
    requires IsRecency(slots, limits)
    ensures forall i | 0 <= i < |slots| && slots[i].key == key :: Lookup(slots, key) == Some(slots[i].build)
    ensures (forall i | 0 <= i < |slots| :: slots[i].key != key) ==> Lookup(slots, key) == None
    ensures Lookup(slots, key).Some? ==> exists i | 0 <= i < |slots| :: slots[i].key == key
  {
    var p := Place(SlotKeys(slots), key);
    forall i | 0 <= i < |slots| && slots[i].key == key ensures p == i {
      assert SlotKeys(slots)[i] == key;
      assert p < |slots| ==> slots[p].key == SlotKeys(slots)[p];
    }
    if p < |slots| {
      assert slots[p].key == SlotKeys(slots)[p] == key;
    }
  }

  /** The build last inserted under a key, if it could be cached at all. */
  function LastPut<B>(ops: seq<Op<B>>, limits: Limits, key: string): Option<B> {
    if ops == [] then None
    else
      match ops[|ops| - 1]
      case Insert(slot) =>
        if slot.key == key && 0 < slot.weight <= limits.maxEntryBytes then Some(slot.build)
        else LastPut(ops[..|ops| - 1], limits, key)
      case Touch(_) => LastPut(ops[..|ops| - 1], limits, key)
  }

  /** Every slot holds what was put last under its key. */
  ghost predicate AreLatest<B>(slots: seq<Slot<B>>, ops: seq<Op<B>>, limits: Limits) {
    forall i | 0 <= i < |slots| :: LastPut(ops, limits, slots[i].key) == Some(slots[i].build)
  }

  lemma {:induction false} SlotsAreLatest<B>(ops: seq<Op<B>>, limits: Limits)
    requires ValidLimits(limits)
    ensures AreLatest(After(ops, limits), ops, limits)
    decreases |ops|
  {
    if ops != [] {
      var init := ops[..|ops| - 1];
      SlotsAreLatest(init, limits);
      EvictsTheOldest(init, limits);
      match ops[|ops| - 1]
      case Insert(slot) => InsertKeepsLatest(After(init, limits), slot, init, ops, limits);
      case Touch(key) => TouchKeepsLatest(After(init, limits), key, init, ops, limits);
    }
  }

  lemma {:induction false} WithoutKeepsLatest<B>(slots: seq<Slot<B>>, key: string, ops: seq<Op<B>>, limits: Limits)
    requires AreLatest(slots, ops, limits)
    ensures AreLatest(Without(slots, key), ops, limits)
  {
    var p := Place(SlotKeys(slots), key);
    forall i | 0 <= i < |Without(slots, key)|
      ensures Without(slots, key)[i] == slots[if p < |slots| && i >= p then i + 1 else i]
    {
    }
  }

  lemma {:induction false} InsertKeepsLatest<B>(slots: seq<Slot<B>>, slot: Slot<B>, init: seq<Op<B>>, ops: seq<Op<B>>, limits: Limits)
    requires ValidLimits(limits) && IsRecency(slots, limits) && AreLatest(slots, init, limits)
    requires ops == init + [Insert(slot)]
    ensures AreLatest(Inserted(slots, slot, limits), ops, limits)
  {
    assert ops[..|ops| - 1] == init;
    if IsAdmissible(slot.weight, limits) {
      var rest := Without(slots, slot.key);
      WithoutKeepsLatest(slots, slot.key, init, limits);
      KeyIsGone(slots, slot.key, limits);
      TrimmedIsLongest(rest + [slot], limits);
      OneMoreIsLatest(rest, slot, init, ops, limits);
    }
  }

  lemma {:induction false} OneMoreIsLatest<B>(rest: seq<Slot<B>>, slot: Slot<B>, init: seq<Op<B>>, ops: seq<Op<B>>, limits: Limits)
    requires AreLatest(rest, init, limits) && (forall i | 0 <= i < |rest| :: rest[i].key != slot.key)
    requires ops == init + [Insert(slot)] && IsAdmissible(slot.weight, limits)
    ensures AreLatest(rest + [slot], ops, limits)
  {
    assert ops[..|ops| - 1] == init;
  }

  lemma {:induction false} TouchKeepsLatest<B>(slots: seq<Slot<B>>, key: string, init: seq<Op<B>>, ops: seq<Op<B>>, limits: Limits)
    requires AreLatest(slots, init, limits) && ops == init + [Touch(key)]
    ensures AreLatest(Touched(slots, key), ops, limits)
  {
    assert ops[..|ops| - 1] == init;
    WithoutKeepsLatest(slots, key, init, limits);
  }

  /** Main result on reads: whatever has been read and inserted, the build found under a key is the
      one inserted last under it. */
  lemma {:induction false} FoundIsLatest<B>(ops: seq<Op<B>>, limits: Limits, key: string)
    requires ValidLimits(limits)
    ensures Lookup(After(ops, limits), key).Some? ==> Lookup(After(ops, limits), key) == LastPut(ops, limits, key)
  {
    SlotsAreLatest(ops, limits);
    EvictsTheOldest(ops, limits);
    LookupFinds(After(ops, limits), key, limits);
  }

  lemma {:induction false} LastOf<B>(ops: seq<Op<B>>, op: Op<B>, limits: Limits)
    ensures After(ops + [op], limits) == Apply(op, After(ops, limits), limits)
  {
    assert (ops + [op])[..|ops|] == ops;
  }

  /** An insert is found if it fits, and changes nothing if it is too heavy. */
  lemma {:induction false} InsertIsFound<B>(ops: seq<Op<B>>, slot: Slot<B>, limits: Limits)
    requires ValidLimits(limits)
    ensures
      var before, after := After(ops, limits), After(ops + [Insert(slot)], limits);
      if 0 < slot.weight <= limits.maxEntryBytes then
        Lookup(after, slot.key) == if slot.weight <= limits.maxTotalBytes then Some(slot.build) else None
      else after == before
  {
    LastOf(ops, Insert(slot), limits);
    EvictsTheOldest(ops, limits);
    if IsAdmissible(slot.weight, limits) {
      NewestStays(After(ops, limits), slot, limits);
    }
  }

  /** A read loses nothing, and makes what it finds the last to be evicted. */
  lemma {:induction false} TouchLosesNothing<B>(ops: seq<Op<B>>, key: string, limits: Limits)
    requires ValidLimits(limits)
    ensures
      var before, after := After(ops, limits), After(ops + [Touch(key)], limits);
      && multiset(after) == multiset(before)
      && (Lookup(before, key).Some? ==> after != [] && after[|after| - 1].key == key)
      && (Lookup(before, key).None? ==> after == before)
  {
    LastOf(ops, Touch(key), limits);
    TouchedIsReordered(After(ops, limits), key);
  }

  lemma {:induction false} TouchedIsReordered<B>(slots: seq<Slot<B>>, key: string)
    ensures multiset(Touched(slots, key)) == multiset(slots)
    ensures Lookup(slots, key).Some? ==> Touched(slots, key) != [] && Touched(slots, key)[|slots| - 1].key == key
    ensures |Touched(slots, key)| == |slots|
    ensures Lookup(slots, key).None? ==> Touched(slots, key) == slots
  {
    var i := Place(SlotKeys(slots), key);
    if i < |slots| {
      assert slots[i].key == SlotKeys(slots)[i];
      MovedToTheEnd(slots, i);
      assert Touched(slots, key) == slots[..i] + slots[i + 1..] + [slots[i]];
    }
  }

  lemma {:induction false} MovedToTheEnd<T>(s: seq<T>, i: nat)
    requires i < |s|
    ensures multiset(s[..i] + s[i + 1..] + [s[i]]) == multiset(s)
  {
    assert s == s[..i] + [s[i]] + s[i + 1..];
  }

  // ----- the cache -----

  datatype Ref = Ref(buildId: string, variant: string, checksum: Option<string>)

  function KeyOf(ref: Ref): string {
    ref.buildId + ":" + ref.variant + ":" + (if ref.checksum.Some? then ref.checksum.value else "none")
  }

  predicate HasNoColon(s: string) {
    ':' !in s
  }

  /** Two refs share a key exactly when they are the same, but for a checksum "none", which is taken
      for a missing one. */
  lemma {:induction false} KeysTell(a: Ref, b: Ref)
    requires HasNoColon(a.buildId) && HasNoColon(b.buildId) && HasNoColon(a.variant) && HasNoColon(b.variant)
    ensures KeyOf(a) == KeyOf(b) <==>
      && a.buildId == b.buildId && a.variant == b.variant
      && (a.checksum == b.checksum || {a.checksum, b.checksum} == {None, Some("none")})
  {
    var x := if a.checksum.Some? then a.checksum.value else "none";
    var y := if b.checksum.Some? then b.checksum.value else "none";
    assert KeyOf(a) == a.buildId + (":" + (a.variant + (":" + x)));
    assert KeyOf(b) == b.buildId + (":" + (b.variant + (":" + y)));
    if KeyOf(a) == KeyOf(b) {
      PartsTell(a.buildId, a.variant + (":" + x), b.buildId, b.variant + (":" + y));
      PartsTell(a.variant, x, b.variant, y);
    }
  }

  lemma {:induction false} PartsTell(a: string, x: string, b: string, y: string)
    requires HasNoColon(a) && HasNoColon(b) && a + (":" + x) == b + (":" + y)
    ensures a == b && x == y
  {
    ColonInLonger(a, x, b, y);
    ColonInLonger(b, y, a, x);
    var s := a + (":" + x);
    assert s[..|a|] == a && (b + (":" + y))[..|b|] == b;
    assert s[|a| + 1..] == x && (b + (":" + y))[|b| + 1..] == y;
  }

  lemma {:induction false} ColonInLonger(a: string, x: string, b: string, y: string)
    requires a + (":" + x) == b + (":" + y)
    ensures |a| < |b| ==> !HasNoColon(b)
  {
    if |a| < |b| {
      assert b[|a|] == (b + (":" + y))[|a|] == (a + (":" + x))[|a|] == ':';
    }
  }

  function Max(a: int, b: int): int { if a >= b then a else b }

  // ----- the two maps seen as one list -----

  predicate Aligned<B>(cache: seq<(string, B)>, weights: seq<(string, int)>) {
    |cache| == |weights| && forall i | 0 <= i < |cache| :: cache[i].0 == weights[i].0
  }

  function Zip<B>(cache: seq<(string, B)>, weights: seq<(string, int)>): seq<Slot<B>>
    requires Aligned(cache, weights)
  {
    seq(|cache|, i requires 0 <= i < |cache| => Slot(cache[i].0, cache[i].1, weights[i].1))
  }

  lemma {:induction false} SameKeys<B>(cache: seq<(string, B)>, weights: seq<(string, int)>)
    requires Aligned(cache, weights)
    ensures SlotKeys(Zip(cache, weights)) == Keys(cache) == Keys(weights)
  {
  }

  lemma {:induction false} ZipDelete<B>(cache: seq<(string, B)>, weights: seq<(string, int)>, key: string)
    requires Aligned(cache, weights)
    ensures Aligned(Delete(cache, key), Delete(weights, key))
    ensures Zip(Delete(cache, key), Delete(weights, key)) == Without(Zip(cache, weights), key)
  {
    SameKeys(cache, weights);
  }

  lemma {:induction false} ZipFind<B>(cache: seq<(string, B)>, weights: seq<(string, int)>, key: string)
    requires Aligned(cache, weights)
    ensures
      var slots, i := Zip(cache, weights), Place(SlotKeys(Zip(cache, weights)), key);
      && Find(cache, key) == Lookup(slots, key)
      && Find(weights, key) == if i < |slots| then Some(slots[i].weight) else None
  {
    SameKeys(cache, weights);
  }

  lemma {:induction false} ZipPut<B>(cache: seq<(string, B)>, weights: seq<(string, int)>, key: string, build: B, weight: int)
    requires Aligned(cache, weights) && Find(cache, key).None?
    ensures Aligned(Put(cache, key, build), Put(weights, key, weight))
    ensures Zip(Put(cache, key, build), Put(weights, key, weight)) == Zip(cache, weights) + [Slot(key, build, weight)]
  {
    SameKeys(cache, weights);
  }

  class BuildCache<B> {
    const limits: Limits
    var cache: seq<(string, B)>
    var weights: seq<(string, int)>
    var bytes: int

    ghost function Slots(): seq<Slot<B>>
      requires Aligned(cache, weights)
      reads this
    {
      Zip(cache, weights)
    }

    /** Both maps hold the same keys in the same order, and the counter is exact. */
    ghost predicate Valid()
      reads this
    {
      && ValidLimits(limits) && Aligned(cache, weights)
      && IsRecency(Slots(), limits) && bytes == Weight(Slots())
    }

    constructor (limits: Limits)
      requires ValidLimits(limits)
      ensures Valid() && Slots() == [] && this.limits == limits
    {
      this.limits, cache, weights, bytes := limits, [], [], 0;
    }

    method Insert(ref: Ref, build: B, weight: int)
      requires Valid()
      modifies this
      ensures Valid() && Slots() == Inserted(old(Slots()), Slot(KeyOf(ref), build, weight), limits)
    {
      if weight <= 0 || weight > limits.maxEntryBytes {
        return;
      }
      var key := KeyOf(ref);
      ZipFind(cache, weights, key);
      KeyIsGone(Slots(), key, limits);
      if Find(cache, key).Some? {
        Forget(key);
      }
      Append(key, build, weight);
      Evict();
    }

    /** Removes a key from both maps; the counter never has to be clipped at zero. */
    method Forget(key: string)
      requires Valid() && Lookup(Slots(), key).Some?
      modifies this
      ensures Valid() && Slots() == Without(old(Slots()), key)
      ensures bytes == old(bytes) - old(Slots()[Place(SlotKeys(Slots()), key)].weight)
    {
      ZipFind(cache, weights, key);
      ZipDelete(cache, weights, key);
      WeightWithout(Slots(), Place(SlotKeys(Slots()), key));
      KeyIsGone(Slots(), key, limits);
      var weight := Find(weights, key);
      bytes := Max(0, bytes - Max(0, if weight.Some? then weight.value else 0));
      cache := Delete(cache, key);
      weights := Delete(weights, key);
    }

    method Append(key: string, build: B, weight: int)
      requires Valid() && (forall i | 0 <= i < |Slots()| :: Slots()[i].key != key) && IsAdmissible(weight, limits)
      modifies this
      ensures Valid() && Slots() == old(Slots()) + [Slot(key, build, weight)]
    {
      SameKeys(cache, weights);
      ZipPut(cache, weights, key, build, weight);
      WeightInTwo(Slots(), [Slot(key, build, weight)]);
      cache := Put(cache, key, build);
      weights := Put(weights, key, weight);
      bytes := bytes + weight;
    }

    method Evict()
      requires Valid()
      modifies this
      ensures Valid() && Slots() == Trimmed(old(Slots()), limits)
    {
      while |cache| > limits.maxEntries || bytes > limits.maxTotalBytes
        invariant Valid() && Trimmed(Slots(), limits) == Trimmed(old(Slots()), limits)
        decreases |cache|
      {
        ghost var slots := Slots();
        SameKeys(cache, weights);
        assert SlotKeys(slots)[0] == cache[0].0;
        Forget(cache[0].0);
        assert Without(slots, slots[0].key) == slots[1..];
      }
    }

    method TouchKey(key: string) returns (hit: Option<B>)
      requires Valid()
      modifies this
      ensures Valid() && hit == Lookup(old(Slots()), key) && Slots() == Touched(old(Slots()), key)
    {
      ZipFind(cache, weights, key);
      ZipDelete(cache, weights, key);
      TouchKeepsRecency(Slots(), key, limits);
      KeyIsGone(Slots(), key, limits);
      hit := Find(cache, key);
      if hit.None? {
        return;
      }
      var weight := Find(weights, key);
      SameKeys(Delete(cache, key), Delete(weights, key));
      ZipPut(Delete(cache, key), Delete(weights, key), key, hit.value, weight.value);
      cache := Put(Delete(cache, key), key, hit.value);
      if weight.Some? {
        weights := Put(Delete(weights, key), key, weight.value);
      }
    }

    /** A preview may be served by the full build. */
    method Read(ref: Ref) returns (hit: Option<B>)
      requires Valid()
      modifies this
      ensures Valid()
      ensures
        var exact, full := KeyOf(ref), KeyOf(ref.(variant := "full"));
        var key := if Lookup(old(Slots()), exact).None? && ref.variant == "preview" then full else exact;
        hit == Lookup(old(Slots()), key) && Slots() == Touched(old(Slots()), key)
    {
      hit := TouchKey(KeyOf(ref));
      if hit.Some? {
        return;
      }
      if ref.variant == "preview" {
        hit := TouchKey(KeyOf(ref.(variant := "full")));
      }
    }
  }
}
