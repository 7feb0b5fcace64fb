/** Counting the faces of a build with an index from packed coordinates to block types. */
module MeshCost {
  import opened Options
  import opened PackedPosition

  datatype Block = Block(x: int, y: int, z: int, kind: string)

  datatype Face = East | West | North | South | Up | Down

  datatype Direction = Direction(face: Face, dx: int, dy: int, dz: int)

  const DIRS := [Direction(East, 1, 0, 0), Direction(West, -1, 0, 0), Direction(North, 0, 0, -1),
                 Direction(South, 0, 0, 1), Direction(Up, 0, 1, 0), Direction(Down, 0, -1, 0)]

  /** The palette's block types, the types that hide what is behind them, and the faces that
      have a texture. */
  datatype Palette = Palette(allowed: set<string>, isOccluder: string -> bool, hasTexture: (string, Face) -> bool)

  // ----- the geometry -----

  predicate IsAt(block: Block, x: int, y: int, z: int) {
    block.x == x && block.y == y && block.z == z
  }

  /** The type at a position: that of the last allowed block there. */
  function TypeAt(blocks: seq<Block>, palette: Palette, x: int, y: int, z: int): Option<string> {
    if blocks == [] then None
    else
      var last := blocks[|blocks| - 1];
      if last.kind in palette.allowed && IsAt(last, x, y, z) then Some(last.kind)
      else TypeAt(blocks[..|blocks| - 1], palette, x, y, z)
  }

  /** A face is drawn unless its neighbour has the same type or hides it; a neighbour whose type
      is the empty string counts as none. */
  predicate IsDrawn(block: Block, neighbor: Option<string>, palette: Palette, face: Face) {
    && (neighbor.None? || neighbor.value == "" || (neighbor.value != block.kind && !palette.isOccluder(neighbor.value)))
    && palette.hasTexture(block.kind, face)
  }

  /** The first n faces of a block, counted on the geometry. */
  function FacesOf(block: Block, all: seq<Block>, palette: Palette, n: nat): nat
    requires n <= |DIRS|
  {
    if n == 0 then 0
    else
      var d := DIRS[n - 1];
      var neighbor := TypeAt(all, palette, block.x + d.dx, block.y + d.dy, block.z + d.dz);
      FacesOf(block, all, palette, n - 1) + (if IsDrawn(block, neighbor, palette, d.face) then 1 else 0)
  }

  /** One if the face is drawn towards the neighbour at a position. */
  function Drawn(block: Block, all: seq<Block>, palette: Palette, x: int, y: int, z: int, face: Face): nat {
    if IsDrawn(block, TypeAt(all, palette, x, y, z), palette, face) then 1 else 0
  }

  /** The six faces: towards each position that is one step away along one axis. */
  lemma {:induction false} SixFaces(block: Block, all: seq<Block>, palette: Palette)
    ensures |DIRS| == 6
    ensures
      var x, y, z := block.x, block.y, block.z;
      FacesOf(block, all, palette, 6) ==
        Drawn(block, all, palette, x + 1, y, z, East) + Drawn(block, all, palette, x - 1, y, z, West)
        + Drawn(block, all, palette, x, y + 1, z, Up) + Drawn(block, all, palette, x, y - 1, z, Down)
        + Drawn(block, all, palette, x, y, z + 1, South) + Drawn(block, all, palette, x, y, z - 1, North)
  {
    var f := (n: nat) requires n <= |DIRS| => FacesOf(block, all, palette, n);
    assert f(1) == f(0) + Drawn(block, all, palette, block.x + 1, block.y, block.z, East);
    assert f(2) == f(1) + Drawn(block, all, palette, block.x - 1, block.y, block.z, West);
    assert f(3) == f(2) + Drawn(block, all, palette, block.x, block.y, block.z - 1, North);
    assert f(4) == f(3) + Drawn(block, all, palette, block.x, block.y, block.z + 1, South);
    assert f(5) == f(4) + Drawn(block, all, palette, block.x, block.y + 1, block.z, Up);
    assert f(6) == f(5) + Drawn(block, all, palette, block.x, block.y - 1, block.z, Down);
  }

  function Faces(blocks: seq<Block>, all: seq<Block>, palette: Palette): nat {
    if blocks == [] then 0
    else
      var last := blocks[|blocks| - 1];
      Faces(blocks[..|blocks| - 1], all, palette)
      + (if last.kind in palette.allowed then FacesOf(last, all, palette, |DIRS|) else 0)
  }

  function VisibleBlocks(blocks: seq<Block>, all: seq<Block>, palette: Palette): nat {
    if blocks == [] then 0
    else
      var last := blocks[|blocks| - 1];
      VisibleBlocks(blocks[..|blocks| - 1], all, palette)
      + (if last.kind in palette.allowed && FacesOf(last, all, palette, |DIRS|) > 0 then 1 else 0)
  }

  // ----- the index -----

  function Index(blocks: seq<Block>, palette: Palette): map<nat, string> {
    if blocks == [] then map[]
    else
      var last := blocks[|blocks| - 1];
      var before := Index(blocks[..|blocks| - 1], palette);
      if last.kind in palette.allowed then before[KeyOf(last.x, last.y, last.z) := last.kind] else before
  }

  function Found(index: map<nat, string>, key: nat): Option<string> {
    if key in index then Some(index[key]) else None
  }

  predicate IsInRange(block: Block) {
    0 <= block.x <= 1022 && 0 <= block.y <= 1022 && 0 <= block.z <= 1022
  }

  /** The key of a position in or beside the grid meets that of a block only at the block itself. */
  lemma {:induction false} KeysMeetAtTheBlock(x: int, y: int, z: int, block: Block)
    requires -1 <= x <= 1023 && -1 <= y <= 1023 && -1 <= z <= 1023 && IsInRange(block)
    ensures KeyOf(x, y, z) == KeyOf(block.x, block.y, block.z) <==> IsAt(block, x, y, z)
  {
    KeysCollide(x, y, z, block.x, block.y, block.z);
  }

  /** Main result: the index answers for every block position and every neighbour of one what the
      geometry says; keys that wrap around never meet a block. */
  lemma {:induction false} IndexAgrees(blocks: seq<Block>, palette: Palette, x: int, y: int, z: int)
    requires forall i | 0 <= i < |blocks| :: IsInRange(blocks[i])
    requires -1 <= x <= 1023 && -1 <= y <= 1023 && -1 <= z <= 1023
    ensures Found(Index(blocks, palette), KeyOf(x, y, z)) == TypeAt(blocks, palette, x, y, z)
    decreases |blocks|
  {
    if blocks != [] {
      var last := blocks[|blocks| - 1];
      IndexAgrees(blocks[..|blocks| - 1], palette, x, y, z);
      KeysMeetAtTheBlock(x, y, z, last);
    }
  }

  /** With a coordinate of 1023 the index is wrong: the west neighbour of x = 0 wraps onto it. */
  lemma {:induction false} WrapsAt1023(palette: Palette)
    requires "stone" in palette.allowed
    ensures
      var blocks := [Block(1023, 0, 0, "stone")];
      && Found(Index(blocks, palette), KeyOf(-1, 0, 0)) == Some("stone")
      && TypeAt(blocks, palette, -1, 0, 0) == None
  {
    var blocks := [Block(1023, 0, 0, "stone")];
    assert blocks[..0] == [];
  }

  // ----- the loops -----

  /** The totals printed are those of the geometry. */
  method CountFaces(blocks: seq<Block>, palette: Palette) returns (faces: nat, visibleBlocks: nat)
    requires forall i | 0 <= i < |blocks| :: IsInRange(blocks[i])
    ensures faces == Faces(blocks, blocks, palette)
    ensures visibleBlocks == VisibleBlocks(blocks, blocks, palette)
  {
    var blocksByPos: map<nat, string> := map[];
    for i := 0 to |blocks|
      invariant blocksByPos == Index(blocks[..i], palette)
    {
      assert blocks[..i + 1][..i] == blocks[..i];
      var block := blocks[i];
      if block.kind in palette.allowed {
        var key := EncodePosition(block.x, block.y, block.z);
        blocksByPos := blocksByPos[key := block.kind];
      }
    }
    assert blocks[..|blocks|] == blocks;
    faces, visibleBlocks := 0, 0;
    for i := 0 to |blocks|
      invariant faces == Faces(blocks[..i], blocks, palette)
      invariant visibleBlocks == VisibleBlocks(blocks[..i], blocks, palette)
    {
      assert blocks[..i + 1][..i] == blocks[..i];
      var block := blocks[i];
      if block.kind in palette.allowed {
        var emitted := CountFacesOf(block, blocks, palette, blocksByPos);
        if emitted > 0 {
          visibleBlocks := visibleBlocks + 1;
        }
        faces := faces + emitted;
      }
    }
  }

  method CountFacesOf(block: Block, ghost blocks: seq<Block>, palette: Palette, blocksByPos: map<nat, string>)
    returns (emitted: nat)
    requires (forall i | 0 <= i < |blocks| :: IsInRange(blocks[i])) && IsInRange(block)
    requires blocksByPos == Index(blocks, palette)
    ensures emitted == FacesOf(block, blocks, palette, |DIRS|)
  {
    emitted := 0;
    for k := 0 to |DIRS|
      invariant emitted == FacesOf(block, blocks, palette, k)
    {
      var d := DIRS[k];
      IndexAgrees(blocks, palette, block.x + d.dx, block.y + d.dy, block.z + d.dz);
      var key := EncodePosition(block.x + d.dx, block.y + d.dy, block.z + d.dz);
      var neighbor := Found(blocksByPos, key);
      if neighbor.Some? && neighbor.value != "" {
        if neighbor.value == block.kind || palette.isOccluder(neighbor.value) {
          continue;
        }
      }
      if palette.hasTexture(block.kind, d.face) {
        emitted := emitted + 1;
      }
    }
  }
}
