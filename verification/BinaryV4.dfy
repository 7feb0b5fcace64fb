/** The binary v4 build encoding: a 16-byte header, the palette as JSON, then positions and
    type ids as little-endian 16-bit words. */
module BinaryV4 {
  import opened Options
  import opened PaletteText
  import opened Utf8

  datatype Block = Block(x: int, y: int, z: int, kind: string)

  /** A decoded block; its type is None when its id lies beyond the palette. */
  datatype Decoded = Decoded(x: int, y: int, z: int, kind: Option<string>)

  const MAGIC := 0x4d425634

  // ----- words -----

  type Word = w: int | 0 <= w < 0x10000

  /** What a Uint16Array stores. */
  function ToWord(n: int): Word {
    n % 0x10000
  }

  function BigEndian16(n: Word): seq<Byte> {
    [n / 0x100, n % 0x100]
  }

  function BigEndian32(n: int): seq<Byte>
    requires 0 <= n < 0x1_0000_0000
  {
    BigEndian16(n / 0x10000) + BigEndian16(n % 0x10000)
  }

  function Read16BE(bytes: seq<Byte>, at: nat): Word
    requires at + 2 <= |bytes|
  {
    var high: int, low: int := bytes[at], bytes[at + 1];
    0x100 * high + low
  }

  function Read32BE(bytes: seq<Byte>, at: nat): nat
    requires at + 4 <= |bytes|
  {
    var high: int, low: int := Read16BE(bytes, at), Read16BE(bytes, at + 2);
    0x10000 * high + low
  }

  function Read16LE(bytes: seq<Byte>, at: nat): Word
    requires at + 2 <= |bytes|
  {
    var low: int, high: int := bytes[at], bytes[at + 1];
    low + 0x100 * high
  }

  /** The memory of a Uint16Array on a little-endian host. */
  function LittleEndian(words: seq<Word>): seq<Byte> {
    if words == [] then []
    else
      var w := words[|words| - 1];
      LittleEndian(words[..|words| - 1]) + [w % 0x100, w / 0x100]
  }

  lemma {:induction false} LittleEndianAt(words: seq<Word>, k: nat)
    requires k < |words|
    ensures |LittleEndian(words)| == 2 * |words|
    ensures Read16LE(LittleEndian(words), 2 * k) == words[k]
    decreases |words|
  {
    var init := words[..|words| - 1];
    LittleEndianLength(init);
    if k < |init| {
      LittleEndianAt(init, k);
    }
  }

  lemma {:induction false} LittleEndianLength(words: seq<Word>)
    ensures |LittleEndian(words)| == 2 * |words|
    decreases |words|
  {
    if words != [] {
      LittleEndianLength(words[..|words| - 1]);
    }
  }

  // ----- the palette -----

  function Kinds(blocks: seq<Block>): seq<string> {
    seq(|blocks|, k requires 0 <= k < |blocks| => blocks[k].kind)
  }

  /** The distinct names in the order of their first occurrence. */
  function Palette(names: seq<string>): seq<string> {
    if names == [] then []
    else
      var before := Palette(names[..|names| - 1]);
      var name := names[|names| - 1];
      if name in before then before else before + [name]
  }

  predicate IsDuplicateFree(names: seq<string>) {
    forall j, k | 0 <= j < k < |names| :: names[j] != names[k]
  }

  function IndexOf(names: seq<string>, name: string): (i: nat)
    requires name in names
    ensures i < |names| && names[i] == name
    ensures forall j | 0 <= j < i :: names[j] != name
  {
    if names[0] == name then 0 else 1 + IndexOf(names[1..], name)
  }

  lemma {:induction false} PaletteGrows(names: seq<string>, k: nat)
    requires k <= |names|
    ensures Palette(names[..k]) <= Palette(names)
    decreases |names|
  {
    if k == |names| {
      assert names[..k] == names;
    } else {
      PaletteGrows(names[..|names| - 1], k);
      assert names[..|names| - 1][..k] == names[..k];
    }
  }

  /** The palette holds each name exactly once, ordered by where it occurs first. */
  lemma {:induction false} PaletteIsFirstOccurrences(names: seq<string>)
    ensures IsDuplicateFree(Palette(names))
    ensures forall name :: name in Palette(names) <==> name in names
    ensures forall j, k | 0 <= j < k < |Palette(names)| ::
      Palette(names)[j] in names && Palette(names)[k] in names
      && IndexOf(names, Palette(names)[j]) < IndexOf(names, Palette(names)[k])
    decreases |names|
  {
    if names != [] {
      var init := names[..|names| - 1];
      var name := names[|names| - 1];
      assert names == init + [name];
      PaletteIsFirstOccurrences(init);
      forall p | p in init ensures IndexOf(names, p) == IndexOf(init, p) < |init| {
        SameIndex(init, [name], p);
      }
      if name !in init {
        assert IndexOf(names, name) == |init|;
      }
    }
  }

  lemma {:induction false} SameIndex(a: seq<string>, b: seq<string>, name: string)
    requires name in a
    ensures IndexOf(a + b, name) == IndexOf(a, name)
  {
    var i := IndexOf(a, name);
    assert (a + b)[i] == name;
    forall j | 0 <= j < i ensures (a + b)[j] != name {
    }
  }

  lemma {:induction false} KindInPalette(blocks: seq<Block>, k: nat)
    requires k < |blocks|
    ensures blocks[k].kind in Palette(Kinds(blocks))
  {
    PaletteIsFirstOccurrences(Kinds(blocks));
    assert Kinds(blocks)[k] == blocks[k].kind;
  }

  // ----- encoding -----

  function Coordinate(block: Block, axis: int): int {
    if axis == 0 then block.x else if axis == 1 then block.y else block.z
  }

  /** Positions of all blocks: x, y, z interleaved. */
  function Positions(blocks: seq<Block>): seq<Word> {
    seq(3 * |blocks|, k requires 0 <= k < 3 * |blocks| => ToWord(Coordinate(blocks[k / 3], k % 3)))
  }

  function IdIn(palette: seq<string>, name: string): Word {
    if name in palette then ToWord(IndexOf(palette, name)) else 0
  }

  function TypeIds(blocks: seq<Block>): seq<Word> {
    seq(|blocks|, k requires 0 <= k < |blocks| => IdIn(Palette(Kinds(blocks)), blocks[k].kind))
  }

  function Header(paletteLength: Word, blockCount: int): seq<Byte>
    requires 0 <= blockCount < 0x1_0000_0000
  {
    BigEndian32(MAGIC) + [4, 0] + BigEndian16(paletteLength) + BigEndian32(blockCount) + [0, 0, 0, 0]
  }

  function WithBody(front: seq<Byte>, blocks: seq<Block>): seq<Byte> {
    front + LittleEndian(Positions(blocks)) + LittleEndian(TypeIds(blocks))
  }

  /** The bytes; None when a length does not fit its header field and Node throws. */
  function Encoded(blocks: seq<Block>): Option<seq<Byte>> {
    var palette := EncodeUtf8(Stringify(Palette(Kinds(blocks))));
    if |palette| >= 0x10000 || |blocks| >= 0x1_0000_0000 then None
    else Some(WithBody(Header(|palette|, |blocks|) + palette, blocks))
  }

  // ----- decoding -----

  function Min(a: int, b: int): int { if a <= b then a else b }

  /** decodeV4; None for every exception it throws. */
  function Decode(bytes: seq<Byte>): Option<seq<Decoded>> {
    if |bytes| < 12 || Read32BE(bytes, 0) != MAGIC then None
    else
      var paletteLength: int := Read16BE(bytes, 6);
      var count := Read32BE(bytes, 8);
      var from := Min(16, |bytes|);
      var to := Min(16 + paletteLength, |bytes|);
      var text := DecodeUtf8(bytes[from..to]);
      var names := if text.Some? then Parse(text.value) else None;
      var positionsAt := 16 + paletteLength;
      var typeIdsAt := positionsAt + 6 * count;
      if names.None? || (count > 0 && typeIdsAt + 2 * count > |bytes|) then None
      else Some(seq(count, k requires 0 <= k < count =>
        DecodedBlock(bytes, positionsAt, typeIdsAt, names.value, k)))
  }

  function DecodedBlock(bytes: seq<Byte>, positionsAt: nat, typeIdsAt: nat, names: seq<string>, k: nat): Decoded
    requires positionsAt + 6 * k + 6 <= |bytes| && typeIdsAt + 2 * k + 2 <= |bytes|
  {
    var id := Read16LE(bytes, typeIdsAt + 2 * k);
    Decoded(
      Read16LE(bytes, positionsAt + 6 * k),
      Read16LE(bytes, positionsAt + 6 * k + 2),
      Read16LE(bytes, positionsAt + 6 * k + 4),
      if id < |names| then Some(names[id]) else None)
  }

  // ----- the round trip -----

  /** The blocks with their coordinates cut to 16 bits. */
  function Wrapped(blocks: seq<Block>): seq<Decoded> {
    seq(|blocks|, k requires 0 <= k < |blocks| =>
      Decoded(ToWord(blocks[k].x), ToWord(blocks[k].y), ToWord(blocks[k].z), Some(blocks[k].kind)))
  }

  function Same(blocks: seq<Block>): seq<Decoded> {
    seq(|blocks|, k requires 0 <= k < |blocks| =>
      Decoded(blocks[k].x, blocks[k].y, blocks[k].z, Some(blocks[k].kind)))
  }

  lemma {:induction false} Big32(n: int, a: seq<Byte>, c: seq<Byte>)
    requires 0 <= n < 0x1_0000_0000
    ensures Read32BE(a + BigEndian32(n) + c, |a|) == n
  {
    var b := BigEndian32(n);
    var bytes := a + b + c;
    assert bytes[|a|] == b[0] && bytes[|a| + 1] == b[1] && bytes[|a| + 2] == b[2] && bytes[|a| + 3] == b[3];
  }

  lemma {:induction false} HeaderReads(paletteLength: int, blockCount: int, rest: seq<Byte>)
    requires 0 <= paletteLength < 0x10000 && 0 <= blockCount < 0x1_0000_0000
    ensures
      var bytes := Header(paletteLength, blockCount) + rest;
      && |Header(paletteLength, blockCount)| == 16
      && Read32BE(bytes, 0) == MAGIC
      && Read16BE(bytes, 6) == paletteLength
      && Read32BE(bytes, 8) == blockCount
  {
    var bytes := Header(paletteLength, blockCount) + rest;
    var magic, length, count := BigEndian32(MAGIC), BigEndian16(paletteLength), BigEndian32(blockCount);
    Big32(MAGIC, [], [4, 0] + length + count + [0, 0, 0, 0] + rest);
    assert bytes == [] + magic + ([4, 0] + length + count + [0, 0, 0, 0] + rest);
    assert bytes[6] == length[0] && bytes[7] == length[1];
    Big32(blockCount, magic + [4, 0] + length, [0, 0, 0, 0] + rest);
    assert bytes == magic + [4, 0] + length + count + ([0, 0, 0, 0] + rest);
  }

  lemma {:induction false} ReadPart(a: seq<Byte>, words: seq<Word>, c: seq<Byte>, k: nat)
    requires k < |words|
    ensures |LittleEndian(words)| == 2 * |words|
    ensures Read16LE(a + LittleEndian(words) + c, |a| + 2 * k) == words[k]
  {
    LittleEndianAt(words, k);
  }

  /** Every block comes back: in place, with its type, its coordinates cut to 16 bits. */
  lemma {:induction false} BlockComesBack(blocks: seq<Block>, front: seq<Byte>, k: nat)
    requires k < |blocks| && |Palette(Kinds(blocks))| <= 0x10000
    ensures
      var bytes := WithBody(front, blocks);
      && |LittleEndian(Positions(blocks))| == 6 * |blocks| && |bytes| == |front| + 8 * |blocks|
      && DecodedBlock(bytes, |front|, |front| + 6 * |blocks|, Palette(Kinds(blocks)), k) == Wrapped(blocks)[k]
  {
    CornerComesBack(blocks, front, LittleEndian(TypeIds(blocks)), k);
    IdComesBack(blocks, front + LittleEndian(Positions(blocks)), k);
  }

  lemma {:induction false} CornerIsAt(blocks: seq<Block>, k: nat)
    requires k < |blocks|
    ensures Positions(blocks)[3 * k] == ToWord(blocks[k].x)
    ensures Positions(blocks)[3 * k + 1] == ToWord(blocks[k].y)
    ensures Positions(blocks)[3 * k + 2] == ToWord(blocks[k].z)
  {
  }

  lemma {:induction false} CornerComesBack(blocks: seq<Block>, front: seq<Byte>, rest: seq<Byte>, k: nat)
    requires k < |blocks|
    ensures
      var bytes := front + LittleEndian(Positions(blocks)) + rest;
      && |LittleEndian(Positions(blocks))| == 6 * |blocks|
      && Read16LE(bytes, |front| + 6 * k) == ToWord(blocks[k].x)
      && Read16LE(bytes, |front| + 6 * k + 2) == ToWord(blocks[k].y)
      && Read16LE(bytes, |front| + 6 * k + 4) == ToWord(blocks[k].z)
  {
    var words := Positions(blocks);
    var x: nat, y: nat, z: nat := 3 * k, 3 * k + 1, 3 * k + 2;
    CornerIsAt(blocks, k);
    ReadPart(front, words, rest, x);
    ReadPart(front, words, rest, y);
    ReadPart(front, words, rest, z);
  }

  lemma {:induction false} IdComesBack(blocks: seq<Block>, front: seq<Byte>, k: nat)
    requires k < |blocks| && |Palette(Kinds(blocks))| <= 0x10000
    ensures
      var names := Palette(Kinds(blocks));
      var bytes := front + LittleEndian(TypeIds(blocks));
      && |bytes| == |front| + 2 * |blocks|
      && Read16LE(bytes, |front| + 2 * k) < |names|
      && names[Read16LE(bytes, |front| + 2 * k)] == blocks[k].kind
  {
    ReadLast(front, TypeIds(blocks), k);
    IdIsOfKind(blocks, k);
  }

  lemma {:induction false} ReadLast(a: seq<Byte>, words: seq<Word>, k: nat)
    requires k < |words|
    ensures |LittleEndian(words)| == 2 * |words|
    ensures Read16LE(a + LittleEndian(words), |a| + 2 * k) == words[k]
  {
    ReadPart(a, words, [], k);
    assert a + LittleEndian(words) + [] == a + LittleEndian(words);
  }

  lemma {:induction false} IdIsOfKind(blocks: seq<Block>, k: nat)
    requires k < |blocks| && |Palette(Kinds(blocks))| <= 0x10000
    ensures TypeIds(blocks)[k] < |Palette(Kinds(blocks))|
    ensures Palette(Kinds(blocks))[TypeIds(blocks)[k]] == blocks[k].kind
  {
    KindInPalette(blocks, k);
  }

  // ----- the format, byte by byte -----

  /** Four letters, the version, the length of the palette and the number of blocks, the most
      significant byte first. */
  predicate IsHeader(h: seq<Byte>, paletteLength: int, blockCount: int) {
    && |h| == 16
    && h[..6] == [0x4d, 0x42, 0x56, 0x34, 4, 0]
    && 256 * (h[6] as int) + h[7] as int == paletteLength
    && 16_777_216 * (h[8] as int) + 65_536 * (h[9] as int) + 256 * (h[10] as int) + h[11] as int == blockCount
    && h[12..] == [0, 0, 0, 0]
  }

  /** Two bytes, the least significant first. */
  predicate StandsAt(bytes: seq<Byte>, at: nat, n: int) {
    at + 2 <= |bytes| && bytes[at] as int + 256 * (bytes[at + 1] as int) == n
  }

  /** The k-th block: its corner in three words, and behind all corners the place of its type among
      the names. */
  ghost predicate HoldsBlock(bytes: seq<Byte>, at: nat, names: seq<string>, blocks: seq<Block>, k: nat)
    requires k < |blocks|
  {
    && StandsAt(bytes, at + 6 * k, blocks[k].x % 65_536)
    && StandsAt(bytes, at + 6 * k + 2, blocks[k].y % 65_536)
    && StandsAt(bytes, at + 6 * k + 4, blocks[k].z % 65_536)
    && exists id :: 0 <= id < |names| && names[id] == blocks[k].kind && StandsAt(bytes, at + 6 * |blocks| + 2 * k, id)
  }

  lemma {:induction false} HeaderIsHeader(paletteLength: Word, blockCount: int)
    requires 0 <= blockCount < 0x1_0000_0000
    ensures IsHeader(Header(paletteLength, blockCount), paletteLength, blockCount)
  {
    var h := Header(paletteLength, blockCount);
    assert h == [0x4d, 0x42, 0x56, 0x34, 4, 0] + BigEndian16(paletteLength) + BigEndian32(blockCount) + [0, 0, 0, 0];
  }

  /** The bytes of every build that can be encoded. */
  lemma {:induction false} EncodedLayout(blocks: seq<Block>)
    requires Encoded(blocks).Some?
    ensures
      var bytes, names := Encoded(blocks).value, Palette(Kinds(blocks));
      var palette := EncodeUtf8(Stringify(names));
      && |bytes| == 16 + |palette| + 8 * |blocks|
      && IsHeader(bytes[..16], |palette|, |blocks|)
      && bytes[16..16 + |palette|] == palette
      && HoldsBlocks(bytes, 16 + |palette|, names, blocks)
  {
    var bytes, names := Encoded(blocks).value, Palette(Kinds(blocks));
    var palette := EncodeUtf8(Stringify(names));
    var header := Header(|palette|, |blocks|);
    HeaderIsHeader(|palette|, |blocks|);
    PaletteSize(names);
    FrontStands(bytes, header, palette, blocks);
    BlocksAreHeld(blocks, header + palette);
  }

  lemma {:induction false} FrontStands(bytes: seq<Byte>, header: seq<Byte>, palette: seq<Byte>, blocks: seq<Block>)
    requires bytes == WithBody(header + palette, blocks) && |header| == 16
    ensures |bytes| == 16 + |palette| + 8 * |blocks|
    ensures bytes[..16] == header && bytes[16..16 + |palette|] == palette
  {
    LittleEndianLength(Positions(blocks));
    LittleEndianLength(TypeIds(blocks));
  }

  ghost predicate HoldsBlocks(bytes: seq<Byte>, at: nat, names: seq<string>, blocks: seq<Block>) {
    forall k | 0 <= k < |blocks| :: HoldsBlock(bytes, at, names, blocks, k)
  }

  lemma {:induction false} BlocksAreHeld(blocks: seq<Block>, front: seq<Byte>)
    requires |Palette(Kinds(blocks))| <= 0x10000
    ensures HoldsBlocks(WithBody(front, blocks), |front|, Palette(Kinds(blocks)), blocks)
  {
    forall k | 0 <= k < |blocks| ensures HoldsBlock(WithBody(front, blocks), |front|, Palette(Kinds(blocks)), blocks, k) {
      BlockIsHeld(blocks, front, k);
    }
  }

  lemma {:induction false} BlockIsHeld(blocks: seq<Block>, front: seq<Byte>, k: nat)
    requires k < |blocks| && |Palette(Kinds(blocks))| <= 0x10000
    ensures HoldsBlock(WithBody(front, blocks), |front|, Palette(Kinds(blocks)), blocks, k)
  {
    CornerComesBack(blocks, front, LittleEndian(TypeIds(blocks)), k);
    IdComesBack(blocks, front + LittleEndian(Positions(blocks)), k);
    var bytes := WithBody(front, blocks);
    assert StandsAt(bytes, |front| + 6 * |blocks| + 2 * k, Read16LE(bytes, |front| + 6 * |blocks| + 2 * k));
  }

  // ----- the main results -----

  /** Main result: whatever the blocks, if they can be encoded at all they decode to the same
      blocks in the same order, coordinates taken modulo 2^16. */
  lemma {:induction false} DecodeOfEncoded(blocks: seq<Block>)
    requires Encoded(blocks).Some?
    ensures Decode(Encoded(blocks).value) == Some(Wrapped(blocks))
  {
    var names := Palette(Kinds(blocks));
    var length := |EncodeUtf8(Stringify(names))|;
    EncodedReads(blocks, length);
    DecodeFrom(Encoded(blocks).value, length, names, Wrapped(blocks));
  }

  /** The bytes read as a header, a palette and blocks. */
  ghost predicate Reads(bytes: seq<Byte>, length: nat, names: seq<string>, blocks: seq<Decoded>) {
    && |bytes| == 16 + length + 8 * |blocks|
    && Read32BE(bytes, 0) == MAGIC && Read16BE(bytes, 6) == length && Read32BE(bytes, 8) == |blocks|
    && DecodeUtf8(bytes[16..16 + length]) == Some(Stringify(names)) && Parse(Stringify(names)) == Some(names)
    && forall k | 0 <= k < |blocks| ::
      DecodedBlock(bytes, 16 + length, 16 + length + 6 * |blocks|, names, k) == blocks[k]
  }

  lemma {:induction false} EncodedReads(blocks: seq<Block>, length: nat)
    requires Encoded(blocks).Some? && length == |EncodeUtf8(Stringify(Palette(Kinds(blocks))))|
    ensures Reads(Encoded(blocks).value, length, Palette(Kinds(blocks)), Wrapped(blocks))
  {
    var names := Palette(Kinds(blocks));
    var front := Header(length, |blocks|) + EncodeUtf8(Stringify(names));
    FrontComesBack(blocks, length);
    PaletteSize(names);
    HeaderReads(length, |blocks|, []);
    PartsRead(Encoded(blocks).value, front, length, names, blocks);
  }

  lemma {:induction false} PartsRead(bytes: seq<Byte>, front: seq<Byte>, length: nat, names: seq<string>, blocks: seq<Block>)
    requires bytes == WithBody(front, blocks) && |front| == 16 + length && |bytes| == 16 + length + 8 * |blocks|
    requires Read32BE(bytes, 0) == MAGIC && Read16BE(bytes, 6) == length && Read32BE(bytes, 8) == |blocks|
    requires DecodeUtf8(bytes[16..16 + length]) == Some(Stringify(names)) && Parse(Stringify(names)) == Some(names)
    requires names == Palette(Kinds(blocks)) && |names| <= 0x10000
    ensures Reads(bytes, length, names, Wrapped(blocks))
  {
    BlocksComeBack(blocks, front, 16 + length);
  }

  lemma {:induction false} FrontComesBack(blocks: seq<Block>, length: nat)
    requires Encoded(blocks).Some? && length == |EncodeUtf8(Stringify(Palette(Kinds(blocks))))|
    ensures
      var bytes, names := Encoded(blocks).value, Palette(Kinds(blocks));
      && |bytes| == 16 + length + 8 * |blocks|
      && Read32BE(bytes, 0) == MAGIC && Read16BE(bytes, 6) == length && Read32BE(bytes, 8) == |blocks|
      && DecodeUtf8(bytes[16..16 + length]) == Some(Stringify(names))
      && Parse(Stringify(names)) == Some(names)
  {
    var names := Palette(Kinds(blocks));
    var positions, ids := LittleEndian(Positions(blocks)), LittleEndian(TypeIds(blocks));
    LittleEndianLength(Positions(blocks));
    LittleEndianLength(TypeIds(blocks));
    FrontReads(names, |blocks|, positions + ids);
    Regroup(Header(length, |blocks|) + EncodeUtf8(Stringify(names)), positions, ids);
  }

  lemma {:induction false} BlocksComeBack(blocks: seq<Block>, front: seq<Byte>, at: nat)
    requires |Palette(Kinds(blocks))| <= 0x10000 && at == |front|
    ensures
      var bytes := WithBody(front, blocks);
      && |bytes| == at + 8 * |blocks|
      && forall k | 0 <= k < |blocks| ::
        DecodedBlock(bytes, at, at + 6 * |blocks|, Palette(Kinds(blocks)), k) == Wrapped(blocks)[k]
  {
    LittleEndianLength(Positions(blocks));
    LittleEndianLength(TypeIds(blocks));
    var bytes := WithBody(front, blocks);
    forall k | 0 <= k < |blocks|
      ensures DecodedBlock(bytes, at, at + 6 * |blocks|, Palette(Kinds(blocks)), k) == Wrapped(blocks)[k]
    {
      BlockComesBack(blocks, front, k);
    }
  }

  lemma {:induction false} Regroup(a: seq<Byte>, b: seq<Byte>, c: seq<Byte>)
    ensures a + (b + c) == a + b + c
  {
  }

  /** What the decoder makes of bytes whose parts read as a palette and as blocks. */
  lemma {:induction false} DecodeFrom(bytes: seq<Byte>, length: nat, names: seq<string>, blocks: seq<Decoded>)
    requires Reads(bytes, length, names, blocks)
    ensures Decode(bytes) == Some(blocks)
  {
    assert Decode(bytes).Some?;
    assert Decode(bytes).value == blocks;
  }

  /** The header and the palette are read back, whatever follows them. */
  lemma {:induction false} FrontReads(names: seq<string>, count: nat, rest: seq<Byte>)
    requires |EncodeUtf8(Stringify(names))| < 0x10000 && count < 0x1_0000_0000
    ensures
      var palette := EncodeUtf8(Stringify(names));
      var bytes := Header(|palette|, count) + palette + rest;
      && |bytes| == 16 + |palette| + |rest|
      && Read32BE(bytes, 0) == MAGIC && Read16BE(bytes, 6) == |palette| && Read32BE(bytes, 8) == count
      && DecodeUtf8(bytes[16..16 + |palette|]) == Some(Stringify(names))
      && Parse(Stringify(names)) == Some(names)
  {
    var palette := EncodeUtf8(Stringify(names));
    var bytes := Header(|palette|, count) + palette + rest;
    HeaderReads(|palette|, count, palette + rest);
    assert Header(|palette|, count) + (palette + rest) == bytes;
    assert bytes[16..16 + |palette|] == palette;
    DecodeOfEncode(Stringify(names));
    ParseOfStringify(names);
  }

  predicate FitsWords(blocks: seq<Block>) {
    forall k | 0 <= k < |blocks| ::
      0 <= blocks[k].x < 0x10000 && 0 <= blocks[k].y < 0x10000 && 0 <= blocks[k].z < 0x10000
  }

  /** The round trip gives back exactly the build just when its coordinates fit 16 bits. */
  lemma {:induction false} RoundTripExactly(blocks: seq<Block>)
    requires Encoded(blocks).Some?
    ensures Decode(Encoded(blocks).value) == Some(Same(blocks)) <==> FitsWords(blocks)
  {
    DecodeOfEncoded(blocks);
    WrappingChangesNothing(blocks);
  }

  lemma {:induction false} WrappingChangesNothing(blocks: seq<Block>)
    ensures Wrapped(blocks) == Same(blocks) <==> FitsWords(blocks)
  {
    if Wrapped(blocks) == Same(blocks) {
      forall k | 0 <= k < |blocks|
        ensures 0 <= blocks[k].x < 0x10000 && 0 <= blocks[k].y < 0x10000 && 0 <= blocks[k].z < 0x10000
      {
        assert Wrapped(blocks)[k] == Same(blocks)[k];
      }
    }
  }

  // ----- the loops -----

  method EncodeV4(blocks: seq<Block>) returns (result: Option<seq<Byte>>)
    ensures result == Encoded(blocks)
  {
    var typeNames, positions, typeIds := CollectBlocks(blocks);
    result := Assemble(typeNames, positions[..], typeIds[..]);
  }

  method CollectBlocks(blocks: seq<Block>)
    returns (typeNames: seq<string>, positions: array<Word>, typeIds: array<Word>)
    ensures typeNames == Palette(Kinds(blocks))
    ensures positions[..] == Positions(blocks) && typeIds[..] == TypeIds(blocks)
  {
    typeNames := [];
    var typeIdByName: map<string, nat> := map[];
    typeIds := new Word[|blocks|];
    positions := new Word[3 * |blocks|];
    var i := 0;
    while i < |blocks|
      invariant 0 <= i <= |blocks|
      invariant typeNames == Palette(Kinds(blocks)[..i]) && IdsOf(typeIdByName, typeNames)
      invariant forall k | 0 <= k < 3 * i :: positions[k] == Positions(blocks)[k]
      invariant forall k | 0 <= k < i :: typeIds[k] == TypeIds(blocks)[k]
    {
      typeNames, typeIdByName := CollectBlock(blocks, i, typeNames, typeIdByName, positions, typeIds);
      i := i + 1;
    }
    assert Kinds(blocks)[..i] == Kinds(blocks);
  }

  method CollectBlock(blocks: seq<Block>, i: nat, names: seq<string>, ids: map<string, nat>,
                      positions: array<Word>, typeIds: array<Word>)
    returns (names': seq<string>, ids': map<string, nat>)
    requires i < |blocks| && positions.Length == 3 * |blocks| && typeIds.Length == |blocks| && positions != typeIds
    requires names == Palette(Kinds(blocks)[..i]) && IdsOf(ids, names)
    modifies positions, typeIds
    ensures names' == Palette(Kinds(blocks)[..i + 1]) && IdsOf(ids', names')
    ensures forall k | 0 <= k < 3 * i :: positions[k] == old(positions[k])
    ensures forall k | 3 * i <= k < 3 * i + 3 :: positions[k] == Positions(blocks)[k]
    ensures forall k | 0 <= k < i :: typeIds[k] == old(typeIds[k])
    ensures typeIds[i] == TypeIds(blocks)[i]
  {
    var typeId: nat;
    typeId, names', ids' := InternName(blocks[i].kind, names, ids);
    IdIsFinal(blocks, i, names', typeId);
    StoreBlock(blocks[i], typeId, i, positions, typeIds);
    ThreeFields(Positions(blocks), positions[..], i, blocks);
  }

  lemma {:induction false} ThreeFields(all: seq<Word>, stored: seq<Word>, i: nat, blocks: seq<Block>)
    requires i < |blocks| && all == Positions(blocks) && 3 * i + 3 <= |stored|
    requires stored[3 * i] == ToWord(blocks[i].x) && stored[3 * i + 1] == ToWord(blocks[i].y)
    requires stored[3 * i + 2] == ToWord(blocks[i].z)
    ensures forall k | 3 * i <= k < 3 * i + 3 :: stored[k] == all[k]
  {
    CornerIsAt(blocks, i);
  }

  method StoreBlock(block: Block, typeId: nat, i: nat, positions: array<Word>, typeIds: array<Word>)
    requires 3 * i + 3 <= positions.Length && i < typeIds.Length && positions != typeIds
    modifies positions, typeIds
    ensures forall k | 0 <= k < 3 * i :: positions[k] == old(positions[k])
    ensures positions[3 * i] == ToWord(block.x) && positions[3 * i + 1] == ToWord(block.y)
    ensures positions[3 * i + 2] == ToWord(block.z)
    ensures forall k | 0 <= k < i :: typeIds[k] == old(typeIds[k])
    ensures typeIds[i] == ToWord(typeId)
  {
    positions[3 * i] := ToWord(block.x);
    positions[3 * i + 1] := ToWord(block.y);
    positions[3 * i + 2] := ToWord(block.z);
    typeIds[i] := ToWord(typeId);
  }

  /** The map gives each name its place in the list. */
  ghost predicate IdsOf(ids: map<string, nat>, names: seq<string>) {
    && (forall j | 0 <= j < |names| :: names[j] in ids)
    && (forall name | name in ids :: ids[name] < |names| && names[ids[name]] == name)
  }

  method InternName(name: string, names: seq<string>, ids: map<string, nat>)
    returns (id: nat, names': seq<string>, ids': map<string, nat>)
    requires IdsOf(ids, names)
    ensures names' == if name in names then names else names + [name]
    ensures IdsOf(ids', names') && id < |names'| && names'[id] == name
  {
    names', ids' := names, ids;
    if name !in ids {
      ids' := ids[name := |names|];
      names' := names + [name];
    }
    id := ids'[name];
  }

  method Assemble(typeNames: seq<string>, positions: seq<Word>, typeIds: seq<Word>) returns (result: Option<seq<Byte>>)
    ensures
      var palette := EncodeUtf8(Stringify(typeNames));
      result == if |palette| >= 0x10000 || |typeIds| >= 0x1_0000_0000 then None
                else Some(Header(|palette|, |typeIds|) + palette + LittleEndian(positions) + LittleEndian(typeIds))
  {
    var palette := EncodeUtf8(Stringify(typeNames));
    if |palette| >= 0x10000 || |typeIds| >= 0x1_0000_0000 {
      return None;
    }
    var header := WriteHeader(|palette|, |typeIds|);
    return Some(header[..] + palette + LittleEndian(positions) + LittleEndian(typeIds));
  }

  /** The id given to a name when it first turns up is its place in the whole palette. */
  lemma {:induction false} IdIsFinal(blocks: seq<Block>, i: nat, names: seq<string>, id: nat)
    requires i < |blocks|
    requires
      var before := Palette(Kinds(blocks)[..i]);
      names == if blocks[i].kind in before then before else before + [blocks[i].kind]
    requires id < |names| && names[id] == blocks[i].kind
    ensures names == Palette(Kinds(blocks)[..i + 1])
    ensures TypeIds(blocks)[i] == ToWord(id)
  {
    var kinds := Kinds(blocks);
    assert kinds[..i + 1][..i] == kinds[..i] && kinds[..i + 1][i] == blocks[i].kind;
    PaletteGrows(kinds, i + 1);
    PaletteIsFirstOccurrences(kinds);
    KindInPalette(blocks, i);
    IndexIsUnique(Palette(kinds), blocks[i].kind, id);
  }

  lemma {:induction false} IndexIsUnique(names: seq<string>, name: string, id: nat)
    requires IsDuplicateFree(names) && id < |names| && names[id] == name
    ensures IndexOf(names, name) == id
  {
    assert IndexOf(names, name) <= id;
  }

  function Overwrite(bytes: seq<Byte>, at: nat, part: seq<Byte>): seq<Byte>
    requires at + |part| <= |bytes|
  {
    bytes[..at] + part + bytes[at + |part|..]
  }

  lemma {:induction false} OverwriteFrame(a: seq<Byte>, b: seq<Byte>, c: seq<Byte>, part: seq<Byte>)
    requires |part| == |b|
    ensures Overwrite(a + b + c, |a|, part) == a + part + c
  {
  }

  method WriteHeader(paletteLength: nat, blockCount: nat) returns (header: array<Byte>)
    requires paletteLength < 0x10000 && blockCount < 0x1_0000_0000
    ensures fresh(header) && header[..] == Header(paletteLength, blockCount)
  {
    header := new Byte[16](_ => 0);
    Write32BE(header, MAGIC, 0);
    header[4] := 4;
    header[5] := 0;
    assert header[..] == BigEndian32(MAGIC) + [4, 0] + [0, 0] + [0, 0, 0, 0, 0, 0, 0, 0];
    OverwriteFrame(BigEndian32(MAGIC) + [4, 0], [0, 0], [0, 0, 0, 0, 0, 0, 0, 0], BigEndian16(paletteLength));
    Write16BE(header, paletteLength, 6);
    WriteCount(header, BigEndian32(MAGIC) + [4, 0] + BigEndian16(paletteLength), blockCount);
  }

  method WriteCount(header: array<Byte>, ghost front: seq<Byte>, blockCount: nat)
    requires blockCount < 0x1_0000_0000
    requires |front| == 8 && header[..] == front + [0, 0, 0, 0, 0, 0, 0, 0]
    modifies header
    ensures header[..] == front + BigEndian32(blockCount) + [0, 0, 0, 0]
  {
    assert header[..] == front + [0, 0, 0, 0] + [0, 0, 0, 0];
    OverwriteFrame(front, [0, 0, 0, 0], [0, 0, 0, 0], BigEndian32(blockCount));
    Write32BE(header, blockCount, 8);
    assert BigEndian32(0) == [0, 0, 0, 0];
    OverwriteFrame(front + BigEndian32(blockCount), [0, 0, 0, 0], [], [0, 0, 0, 0]);
    assert header[..] == front + BigEndian32(blockCount) + [0, 0, 0, 0] + [];
    Write32BE(header, 0, 12);
    assert header[..] == front + BigEndian32(blockCount) + [0, 0, 0, 0] + [];
  }

  method Write16BE(a: array<Byte>, n: Word, at: nat)
    requires at + 2 <= a.Length
    modifies a
    ensures a[..] == Overwrite(old(a[..]), at, BigEndian16(n))
  {
    a[at] := n / 0x100;
    a[at + 1] := n % 0x100;
  }

  method Write32BE(a: array<Byte>, n: nat, at: nat)
    requires at + 4 <= a.Length && n < 0x1_0000_0000
    modifies a
    ensures a[..] == Overwrite(old(a[..]), at, BigEndian32(n))
  {
    Write16BE(a, n / 0x10000, at);
    Write16BE(a, n % 0x10000, at + 2);
  }

  method DecodeV4(bytes: seq<Byte>) returns (result: Option<seq<Decoded>>)
    ensures result == Decode(bytes)
  {
    if |bytes| < 12 || Read32BE(bytes, 0) != MAGIC {
      return None;
    }
    var paletteLength: int := Read16BE(bytes, 6);
    var count := Read32BE(bytes, 8);
    var text := DecodeUtf8(bytes[Min(16, |bytes|)..Min(16 + paletteLength, |bytes|)]);
    if text.None? {
      return None;
    }
    var names := Parse(text.value);
    if names.None? {
      return None;
    }
    var positionsAt := 16 + paletteLength;
    var typeIdsAt := positionsAt + 6 * count;
    if count > 0 && typeIdsAt + 2 * count > |bytes| {
      return None;
    }
    var blocks := ReadBlocks(bytes, positionsAt, typeIdsAt, names.value, count);
    assert Decode(bytes).value == blocks;
    return Some(blocks);
  }

  method ReadWords(bytes: seq<Byte>, at: nat, count: nat) returns (words: array<Word>)
    requires at + 2 * count <= |bytes|
    ensures fresh(words) && words.Length == count
    ensures forall k | 0 <= k < count :: words[k] == Read16LE(bytes, at + 2 * k)
  {
    words := new Word[count];
    for i := 0 to count
      invariant forall k | 0 <= k < i :: words[k] == Read16LE(bytes, at + 2 * k)
    {
      words[i] := Read16LE(bytes, at + 2 * i);
    }
  }

  method ReadBlocks(bytes: seq<Byte>, positionsAt: nat, typeIdsAt: nat, names: seq<string>, count: nat)
    returns (blocks: seq<Decoded>)
    requires count > 0 ==> positionsAt + 6 * count <= typeIdsAt && typeIdsAt + 2 * count <= |bytes|
    ensures |blocks| == count
    ensures forall k | 0 <= k < count :: blocks[k] == DecodedBlock(bytes, positionsAt, typeIdsAt, names, k)
  {
    blocks := [];
    if count == 0 {
      return;
    }
    var positions := ReadWords(bytes, positionsAt, 3 * count);
    var typeIds := ReadWords(bytes, typeIdsAt, count);
    for i := 0 to count
      invariant |blocks| == i
      invariant forall k | 0 <= k < i :: blocks[k] == DecodedBlock(bytes, positionsAt, typeIdsAt, names, k)
    {
      var kind := if typeIds[i] < |names| then Some(names[typeIds[i]]) else None;
      blocks := blocks + [Decoded(positions[3 * i], positions[3 * i + 1], positions[3 * i + 2], kind)];
    }
  }
}
