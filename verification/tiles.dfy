/**
  The tile quad-tree of `src/lib.rs`: the `Tile` address, its validating
  constructor, parent and child navigation, and its TileCache path.

  The zoom is Rust's `u8`, kept as an 8-bit vector because `Tile::new`
  validates coordinates with a bitwise computation on it (Rust's `^` is
  exclusive-or, not a power). The coordinates are Rust's `u32`, kept as
  bounded naturals: the only arithmetic on them is halving, doubling and
  adding one, which Rust computes exactly as long as nothing overflows.
*/
module Tiles {
  import opened Ints
  import opened Wrappers
  import Decimal
  import CachePaths

  datatype Tile = Tile(zoom: bv8, x: u32, y: u32)

  /** `std::u8::MAX`, the zoom `Tile::subtiles` refuses to go below. */
  const MaxZoom: bv8 := 0xFF

  /**
    The bound `2^(zoom as u32)` in plain arithmetic: exclusive-or with 2
    flips bit 1 of the zoom, so it adds 2 when the zoom is 0 or 1 modulo 4
    and subtracts 2 when it is 2 or 3 modulo 4.
  */
  function ArithBound(zoom: bv8): (b: int) {
    var z := zoom as int;
    if (z / 2) % 2 == 0 then z + 2 else z - 2
  }

  /**
    The bound `Tile::new` compares a coordinate with, `2^(zoom as u32)`:
    two exclusive-or the zoom, as a `u32`. It is never a power of two
    beyond zoom 1; `ArithBound` gives its value.
  */
  function XorBound(zoom: bv8): (b: bv32)
    ensures b as int == ArithBound(zoom)
  {
    var b := (2 as bv32) ^ (zoom as bv32);
    var z := zoom as int;
    assert b as int == if (z / 2) % 2 == 0 then z + 2 else z - 2;
    b
  }

  /** At zooms 0, 1, 2 and 3 the bound is 2, 3, 0 and 1; zoom 255 has 253. */
  lemma ArithBoundValues()
    ensures ArithBound(0) == 2 && ArithBound(1) == 3 && ArithBound(2) == 0 && ArithBound(3) == 1
    ensures ArithBound(255) == 253
  {
  }

  /**
    `Tile::new`: a tile exists exactly when both coordinates are below the
    exclusive-or bound of its zoom, and then it holds the given fields.
  */
  function New(zoom: bv8, x: u32, y: u32): (r: Option<Tile>)
    ensures r.Some? <==> x < ArithBound(zoom) && y < ArithBound(zoom)
    ensures r.Some? ==> r.value == Tile(zoom, x, y)
  {
    if x < XorBound(zoom) as int && y < XorBound(zoom) as int then
      Some(Tile(zoom, x, y))
    else
      None
  }

  /** `c` is one of the four tiles `t` splits into at the next zoom. */
  predicate ChildOf(c: Tile, t: Tile) {
    c.zoom != 0 && c.zoom - 1 == t.zoom && c.x / 2 == t.x && c.y / 2 == t.y
  }

  /**
    The position of a tile inside its parent, in the fixed child order:
    0 top-left, 1 top-right, 2 bottom-left, 3 bottom-right. The parity of
    `x` gives the column and the parity of `y` the row.
  */
  function Quadrant(c: Tile): (q: nat) {
    c.x % 2 + 2 * (c.y % 2)
  }

  /**
    `Tile::parent`: nothing at zoom 0; otherwise the tile one zoom up that
    contains this one, but only when that tile passes `Tile::new`'s
    validation, since the parent is built through it.
  */
  function Parent(t: Tile): (r: Option<Tile>)
    ensures t.zoom == 0 ==> r.None?
    ensures t.zoom != 0 ==>
      (r.Some? <==> t.x / 2 < ArithBound(t.zoom - 1) && t.y / 2 < ArithBound(t.zoom - 1))
    ensures r.Some? ==> ChildOf(t, r.value)
  {
    if t.zoom == 0 then None else New(t.zoom - 1, t.x / 2, t.y / 2)
  }

  /** Subtiles can double and increment both coordinates without overflowing a `u32`. */
  predicate CanSplit(t: Tile) {
    2 * t.x + 1 < 0x1_0000_0000 && 2 * t.y + 1 < 0x1_0000_0000
  }

  /**
    `Tile::subtiles`: nothing at `MaxZoom`; otherwise the
    four children, in quadrant order (`SubtilesAreAllChildren` shows no
    other tile is a child). The children are built directly, without
    `Tile::new`'s validation. Rust's `2*x` and `x+1` are unchecked, so the
    caller must keep them in range.
  */
  function Subtiles(t: Tile): (r: Option<seq<Tile>>)
    requires t.zoom != MaxZoom ==> CanSplit(t)
    ensures r.None? <==> t.zoom == MaxZoom
    ensures r.Some? ==> |r.value| == 4
    ensures r.Some? ==> forall i :: 0 <= i < |r.value| ==> ChildOf(r.value[i], t) && Quadrant(r.value[i]) == i
  {
    if t.zoom == MaxZoom then
      None
    else
      var z := t.zoom + 1;
      var x := 2 * t.x;
      var y := 2 * t.y;
      Some([Tile(z, x, y), Tile(z, x + 1, y), Tile(z, x, y + 1), Tile(z, x + 1, y + 1)])
  }

  /**
    `Tile::tc_path`: the TileCache path of the tile with the given
    extension, the same text `zxy_to_tc_path` gives for its fields.
  */
  function TcPath(t: Tile, ext: string): (r: string)
    ensures r == CachePaths.ZxyToTcPath(t.zoom as int, t.x, t.y, ext)
  {
    var tc := CachePaths.XyToTc(t.x, t.y);
    Decimal.DecStr(t.zoom as int) + "/" + tc[0] + "/" + tc[1] + "/" + tc[2] + "/" + tc[3] + "/" + tc[4] + "/" + tc[5] + "." + ext
  }

  // ---------------------------------------------------------------------
  // Navigation properties
  // ---------------------------------------------------------------------

  /** The subtiles of `t` are exactly the tiles whose parent arithmetic leads back to `t`. */
  lemma SubtilesAreAllChildren(t: Tile)
    requires t.zoom != MaxZoom && CanSplit(t)
    ensures forall c :: c in Subtiles(t).value <==> ChildOf(c, t)
  {
    var kids := Subtiles(t).value;
    forall c | ChildOf(c, t)
      ensures c in kids
    {
      assert c == kids[Quadrant(c)];
    }
  }

  /** A tile lies among the subtiles of its parent, whenever it has one. */
  lemma SubtilesOfParentContain(t: Tile)
    requires Parent(t).Some?
    ensures CanSplit(Parent(t).value)
    ensures Subtiles(Parent(t).value).Some?
    ensures t in Subtiles(Parent(t).value).value
  {
    var p := Parent(t).value;
    SubtilesAreAllChildren(p);
  }

  /**
    The parent of every subtile of `t` is exactly what `Tile::new` makes of
    `t`'s fields: `t` itself when `t` is valid, and nothing otherwise.
  */
  lemma ParentOfSubtiles(t: Tile)
    requires t.zoom != MaxZoom && CanSplit(t)
    ensures forall c :: c in Subtiles(t).value ==> Parent(c) == New(t.zoom, t.x, t.y)
  {
  }

  /** At zoom 2 the bound is 0, so `Tile::new` rejects every coordinate. */
  lemma NoTileAtZoomTwo(x: u32, y: u32)
    ensures New(2, x, y) == None
  {
  }

  /**
    A valid tile whose parent is missing although its zoom is not 0: the
    parent zoom 2 admits no tile.
  */
  lemma OrphanAtZoomThree()
    ensures New(3, 0, 0) == Some(Tile(3, 0, 0))
    ensures Parent(Tile(3, 0, 0)) == None
  {
  }

  /** The TileCache path of a tile determines the tile and the extension. */
  lemma TcPathRoundTrip(t: Tile, ext: string)
    ensures CachePaths.ParseTcPath(TcPath(t, ext))
         == Some(CachePaths.PathParts(t.zoom as int, t.x, t.y, ext))
  {
    CachePaths.TcPathRoundTrip(t.zoom as int, t.x, t.y, ext);
  }

  /** The assertions on tiles from the `tiles` test of `src/lib.rs`. */
  lemma TilesExample()
    ensures New(1, 5, 5) == None
    ensures New(1, 0, 0) == Some(Tile(1, 0, 0))
    ensures Parent(Tile(1, 0, 0)) == New(0, 0, 0) == Some(Tile(0, 0, 0))
    ensures Subtiles(Tile(0, 0, 0)) == Some([Tile(1, 0, 0), Tile(1, 1, 0), Tile(1, 0, 1), Tile(1, 1, 1)])
    ensures New(1, 1, 0) == Some(Tile(1, 1, 0))
    ensures New(1, 0, 1) == Some(Tile(1, 0, 1))
    ensures New(1, 1, 1) == Some(Tile(1, 1, 1))
  {
  }

  // The TileCache paths from the `tiles` test of `src/lib.rs`. Each
  // `...Text` lemma evaluates `zxy_to_tc_path` on the tile's fields; the
  // tile-level lemma then follows from `TcPath`'s contract.

  lemma TcPathExampleZeroText()
    ensures CachePaths.ZxyToTcPath(0, 0, 0, "png") == "0/000/000/000/000/000/000.png"
  {
    CachePaths.TcPathOfDigits(0, 0, 0, "png");
    assert Decimal.DigitChar(0) == '0' && Decimal.DigitChar(1) == '1';
    assert "0/000/000/000/000/000/000.png" == "0/000/000/00" + "0/000/000/00" + "0.png";
  }

  lemma TcPathExampleZero()
    ensures TcPath(Tile(0, 0, 0), "png") == "0/000/000/000/000/000/000.png"
  {
    TcPathExampleZeroText();
  }

  lemma TcPathExampleTopLeftText()
    ensures CachePaths.ZxyToTcPath(1, 0, 0, "png") == "1/000/000/000/000/000/000.png"
  {
    CachePaths.TcPathOfDigits(1, 0, 0, "png");
    assert Decimal.DigitChar(0) == '0' && Decimal.DigitChar(1) == '1';
    assert "1/000/000/000/000/000/000.png" == "1/000/000/00" + "0/000/000/00" + "0.png";
  }

  lemma TcPathExampleTopLeft()
    ensures TcPath(Tile(1, 0, 0), "png") == "1/000/000/000/000/000/000.png"
  {
    TcPathExampleTopLeftText();
  }

  lemma TcPathExampleTopRightText()
    ensures CachePaths.ZxyToTcPath(1, 1, 0, "png") == "1/000/000/001/000/000/000.png"
  {
    CachePaths.TcPathOfDigits(1, 1, 0, "png");
    assert Decimal.DigitChar(0) == '0' && Decimal.DigitChar(1) == '1';
    assert "1/000/000/001/000/000/000.png" == "1/000/000/00" + "1/000/000/00" + "0.png";
  }

  lemma TcPathExampleTopRight()
    ensures TcPath(Tile(1, 1, 0), "png") == "1/000/000/001/000/000/000.png"
  {
    TcPathExampleTopRightText();
  }

  lemma TcPathExampleBottomLeftText()
    ensures CachePaths.ZxyToTcPath(1, 0, 1, "png") == "1/000/000/000/000/000/001.png"
  {
    CachePaths.TcPathOfDigits(1, 0, 1, "png");
    assert Decimal.DigitChar(0) == '0' && Decimal.DigitChar(1) == '1';
    assert "1/000/000/000/000/000/001.png" == "1/000/000/00" + "0/000/000/00" + "1.png";
  }

  lemma TcPathExampleBottomLeft()
    ensures TcPath(Tile(1, 0, 1), "png") == "1/000/000/000/000/000/001.png"
  {
    TcPathExampleBottomLeftText();
  }

  lemma TcPathExampleBottomRightText()
    ensures CachePaths.ZxyToTcPath(1, 1, 1, "png") == "1/000/000/001/000/000/001.png"
  {
    CachePaths.TcPathOfDigits(1, 1, 1, "png");
    assert Decimal.DigitChar(0) == '0' && Decimal.DigitChar(1) == '1';
    assert "1/000/000/001/000/000/001.png" == "1/000/000/00" + "1/000/000/00" + "1.png";
  }

  lemma TcPathExampleBottomRight()
    ensures TcPath(Tile(1, 1, 1), "png") == "1/000/000/001/000/000/001.png"
  {
    TcPathExampleBottomRightText();
  }

  // ---------------------------------------------------------------------
  // The validation as evidently intended: a power of two, not an XOR
  // ---------------------------------------------------------------------

  function Pow2(k: nat): (p: nat)
    ensures 1 <= p
  {
    if k == 0 then 1 else 2 * Pow2(k - 1)
  }

  /** `Tile::new` with the bound read as the power `2^zoom`. */
  function NewIntended(zoom: bv8, x: u32, y: u32): (r: Option<Tile>)
    ensures r.Some? ==> r.value == Tile(zoom, x, y)
  {
    if x < Pow2(zoom as int) && y < Pow2(zoom as int) then Some(Tile(zoom, x, y)) else None
  }

  /** `Tile::parent` built through `NewIntended`. */
  function ParentIntended(t: Tile): (r: Option<Tile>)
    ensures t.zoom == 0 ==> r.None?
    ensures r.Some? ==> ChildOf(t, r.value)
  {
    if t.zoom == 0 then None else NewIntended(t.zoom - 1, t.x / 2, t.y / 2)
  }

  /**
    Under the power-of-two bound every level is fully populated: a valid
    tile above zoom 0 always has a parent, and lies among its subtiles.
    `OrphanAtZoomThree` shows this fails for `Tile::new` as written.
  */
  lemma IntendedParentIsValid(t: Tile)
    requires NewIntended(t.zoom, t.x, t.y).Some? && t.zoom != 0
    ensures ParentIntended(t).Some?
    ensures CanSplit(ParentIntended(t).value)
    ensures t in Subtiles(ParentIntended(t).value).value
  {
    var z := t.zoom as int;
    assert (t.zoom - 1) as int == z - 1;
    assert Pow2(z) == 2 * Pow2(z - 1);
    assert t.x / 2 < Pow2(z - 1) && t.y / 2 < Pow2(z - 1);
    var p := ParentIntended(t).value;
    assert p.zoom != MaxZoom;
    assert 2 * p.x + 1 <= t.x + 1 && 2 * p.y + 1 <= t.y + 1;
    assert CanSplit(p);
    SubtilesAreAllChildren(p);
  }

  /** ... and all four subtiles of a valid tile are valid. */
  lemma IntendedSubtilesAreValid(t: Tile)
    requires NewIntended(t.zoom, t.x, t.y).Some? && t.zoom != MaxZoom && CanSplit(t)
    ensures forall c :: c in Subtiles(t).value ==> NewIntended(c.zoom, c.x, c.y).Some?
  {
    var z := t.zoom as int;
    assert (t.zoom + 1) as int == z + 1;
    assert Pow2(z + 1) == 2 * Pow2(z);
  }

  /** Zoom 2 holds sixteen tiles under the intended bound; `Tile::new` admits none. */
  lemma IntendedZoomTwo()
    ensures NewIntended(2, 3, 3) == Some(Tile(2, 3, 3))
    ensures NewIntended(2, 4, 0) == None
    ensures New(2, 3, 3) == None
    ensures ParentIntended(Tile(3, 0, 0)) == Some(Tile(2, 0, 0))
  {
  }
}
