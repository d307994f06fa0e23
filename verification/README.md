# Slippy-map tile core in Dafny

This project models the tile-addressing core of `src/lib.rs` in the
slippy-map tiles library. A slippy map divides the world into a quad-tree of
square tiles. Each tile is addressed by a zoom level and a column/row pair
`(x, y)`. The model covers:

- the `Tile` record (`u8` zoom, `u32` x and y) and its validating
  constructor `Tile::new`;
- quad-tree navigation: `Tile::parent` and `Tile::subtiles`;
- the cache path encoders:
  - the TileCache layout (`xy_to_tc`, `zxy_to_tc_path`, `Tile::tc_path`),
    which splits each coordinate into millions, thousands and units groups
    of at least three digits;
  - the MapProxy layout (`xy_to_mp`, `zxy_to_mp_path`), which splits each
    coordinate into two groups of at least four digits.

Files:

- `wrappers.dfy`: `Option`.
- `ints.dfy`: the unsigned integer ranges.
- `decimal.dfy`: decimal rendering as Rust's `{}` and `{:0w}` print it, with
  a reading-back function `ParseDec` that states what a rendering means.
- `cache_paths.dfy`: the two path layouts and a decoder for each. The
  decoders are the partners of the encoders: they recover the zoom,
  coordinates and extension.
- `tiles.dfy`: `Tile`, its operations, and the validation as evidently
  intended.

`Tile::new` validates with `x < 2^(zoom as u32)`. In Rust `^` is bitwise
exclusive-or, not a power, so the bound is `2 XOR zoom`: 2 at zoom 0, 3 at
zoom 1, 0 at zoom 2 and 1 at zoom 3. The model keeps this behaviour and
writes it as `(2 as bv32) ^ (zoom as bv32)`.

The code evidently means a power of two: `2^(zoom as u32)` is written as
one, and `subtiles` (src/lib.rs:35-38) doubles the columns at each zoom, so
zoom z needs 2^z of them. The code has no zoom cap. The model follows the
code as written; the corrected, power-of-two validation appears
separately, under Findings.

The zoom is an 8-bit vector (`bv8`) because the validation computes on its
bits. The coordinates are naturals below 2^32. `parent` and `subtiles`
only halve, double and increment them, and Rust computes those exactly
while nothing overflows.

## Model

| member | source | states |
|---|---|---|
| Tiles.XorBound | src/lib.rs:10 | The bound `2^(zoom as u32)`, computed as exclusive-or on 32 bits, equals zoom+2 when zoom is 0 or 1 modulo 4, and zoom−2 when it is 2 or 3 modulo 4 |
| Tiles.ArithBoundValues | src/lib.rs:10 | The validation bound is 2, 3, 0 and 1 at zooms 0 to 3, and 253 at zoom 255 |
| Tiles.New | src/lib.rs:9-15 | A tile is made exactly when both coordinates are below the exclusive-or bound of the zoom; the tile made has exactly the given fields |
| Tiles.Parent | src/lib.rs:17-26 | No parent at zoom 0. Otherwise a parent exists exactly when x/2 and y/2 pass `Tile::new`'s validation one zoom up, and that parent is the tile whose child arithmetic leads back to this one |
| Tiles.Subtiles | src/lib.rs:29-40 | No subtiles exactly at zoom 255. Otherwise there are four tiles at zoom+1, each halving back to this tile; the i-th has column parity i mod 2 and row parity i div 2 (top-left, top-right, bottom-left, bottom-right) |
| Tiles.SubtilesAreAllChildren | src/lib.rs:24-38 | The subtiles are exactly the tiles whose zoom−1, x/2 and y/2 give back this tile, the arithmetic `parent` applies |
| Tiles.SubtilesOfParentContain | src/lib.rs:17-40 | Whenever a tile has a parent, it lies among that parent's subtiles |
| Tiles.ParentOfSubtiles | src/lib.rs:17-40 | Every subtile's parent is what `Tile::new` makes of this tile's fields: this tile when it is valid, and nothing otherwise |
| Tiles.NoTileAtZoomTwo | src/lib.rs:10 | At zoom 2 `Tile::new` rejects every coordinate pair |
| Tiles.OrphanAtZoomThree | src/lib.rs:9-26 | Tile (3, 0, 0) is valid but has no parent, although its zoom is not 0 |
| Tiles.TcPath | src/lib.rs:59-62 | A tile's TileCache path is the `zxy_to_tc_path` text of its zoom, x and y |
| Tiles.TcPathRoundTrip | src/lib.rs:59-62 | The TileCache path of a tile decodes back to the tile's zoom, x, y and the extension |
| Tiles.TilesExample | src/lib.rs:143-170 | The test's tiles: (1,5,5) is rejected, (1,0,0) is accepted, its parent is (0,0,0), and the subtiles of (0,0,0) are the four zoom-1 tiles in order |
| Tiles.TcPathExampleZero | src/lib.rs:156 | Tile (0,0,0) has path `0/000/000/000/000/000/000.png` |
| Tiles.TcPathExampleTopLeft | src/lib.rs:162 | Tile (1,0,0) has path `1/000/000/000/000/000/000.png` |
| Tiles.TcPathExampleTopRight | src/lib.rs:165 | Tile (1,1,0) has path `1/000/000/001/000/000/000.png` |
| Tiles.TcPathExampleBottomLeft | src/lib.rs:168 | Tile (1,0,1) has path `1/000/000/000/000/000/001.png` |
| Tiles.TcPathExampleBottomRight | src/lib.rs:171 | Tile (1,1,1) has path `1/000/000/001/000/000/001.png` |
| Tiles.NewIntended | src/lib.rs:9-15 | Corrected validation with a power-of-two bound; a tile it makes has exactly the given fields |
| Tiles.ParentIntended | src/lib.rs:17-26 | Corrected `parent`: none at zoom 0, and any parent it returns contains the tile |
| Tiles.IntendedParentIsValid | src/lib.rs:9-40 | Under the power-of-two bound, every valid tile above zoom 0 has a parent and lies among that parent's subtiles |
| Tiles.IntendedSubtilesAreValid | src/lib.rs:9-40 | Under the power-of-two bound, all four subtiles of a valid tile are valid |
| Tiles.IntendedZoomTwo | src/lib.rs:10 | Zoom 2 admits tile (2,3,3) and rejects (2,4,0) under the power-of-two bound; `Tile::new` rejects (2,3,3); and (3,0,0) has parent (2,0,0) |
| Decimal.DecStr | src/lib.rs:96 | `{}` rendering: a non-empty digit string with no leading zero unless it is the single digit `0` |
| Decimal.DecStrReadsBack | src/lib.rs:96 | The `{}` rendering reads back as the number, and its length is the number's decimal digit count |
| Decimal.PadDec | src/lib.rs:85-90 | `{:0w}` rendering: digits only, never shorter than the width, longer only when the unpadded rendering is longer, padded only up to exactly the width |
| Decimal.PadDecReadsBack | src/lib.rs:85-90 | The `{:0w}` rendering reads back as the number: padding zeros do not change the value |
| Decimal.PadDecDigit | src/lib.rs:85-90 | A single digit padded to width w is w−1 zeros and that digit |
| CachePaths.TcGroups | src/lib.rs:85-90 | One coordinate's three TileCache groups read back as the coordinate; the lower two have three digits and the top one three or four, with no padding zero when it has four |
| CachePaths.XyToTc | src/lib.rs:83-92 | Six all-digit groups; groups 1, 2, 4 and 5 have exactly three digits and groups 0 and 3 have three or four, and a four-digit top group has no padding zero |
| CachePaths.XyToTcReadsBack | src/lib.rs:83-92 | The first three groups recombine (millions, thousands, units) to x and the last three to y |
| CachePaths.MpGroups | src/lib.rs:101-104 | One coordinate's two MapProxy groups read back as the coordinate; the low one has four digits and the high one four to six, with no padding zero when it has more than four |
| CachePaths.XyToMp | src/lib.rs:99-106 | Four all-digit groups; groups 1 and 3 have exactly four digits and groups 0 and 2 have four to six, and a high group longer than four digits has no padding zero |
| CachePaths.XyToMpReadsBack | src/lib.rs:99-106 | Groups 0 and 1 recombine (ten-thousands, units) to x and groups 2 and 3 to y |
| CachePaths.TcPathShape | src/lib.rs:94-97 | `zxy_to_tc_path` (modelled by `CachePaths.ZxyToTcPath`) gives the unpadded zoom, then each `xy_to_tc` group preceded by '/', then '.' and the extension |
| CachePaths.MpPathShape | src/lib.rs:108-111 | `zxy_to_mp_path` (modelled by `CachePaths.ZxyToMpPath`) gives the unpadded zoom, then each `xy_to_mp` group preceded by '/', then '.' and the extension |
| CachePaths.TcPathRoundTrip | src/lib.rs:94-97 | Decoding a TileCache path gives back its zoom, x, y and extension, whatever the extension contains |
| CachePaths.MpPathRoundTrip | src/lib.rs:108-111 | Decoding a MapProxy path gives back its zoom, x, y and extension |
| CachePaths.TcPathInjective | src/lib.rs:94-97 | Two TileCache paths are equal exactly when their zooms, x, y and extensions are all equal |
| CachePaths.MpPathInjective | src/lib.rs:108-111 | Two MapProxy paths are equal exactly when their zooms, x, y and extensions are all equal |
| CachePaths.TcExample | src/lib.rs:119-126 | `xy_to_tc(3, 4)` is `000`, `000`, `003`, `000`, `000`, `004` |
| CachePaths.TcPathExample | src/lib.rs:128 | `zxy_to_tc_path(2, 3, 4, "png")` is `2/000/000/003/000/000/004.png` |
| CachePaths.MpExample | src/lib.rs:133-137 | `xy_to_mp(3, 4)` is `0000`, `0003`, `0000`, `0004` |
| CachePaths.MpPathExample | src/lib.rs:139 | `zxy_to_mp_path(2, 3, 4, "png")` is `2/0000/0003/0000/0004.png` |
| CachePaths.TcOfDigits | src/lib.rs:83-92 | For coordinates below ten, the groups are `000`, `000`, then `00` followed by the digit |
| CachePaths.TcPathOfDigits | src/lib.rs:94-97 | For a zoom and coordinates below ten, the TileCache path is the zoom digit, two zero groups, `00` and the x digit, two zero groups, `00` and the y digit, then '.' and the extension |

## Left out

- `Tile::centre_point` and `Tile::center_point` (src/lib.rs:43-57): these are f32 trigonometry (`powi`, `sinh`, `atan`, π) followed by an `unwrap`. They are floating point and are not modelled.
- `LatLon` and `LatLon::new` (src/lib.rs:66-81): an f32 range check. It is floating point and is not modelled.
- Tiles.TcPath: `Tile::tc_path` accepts any `Display` value as the extension. The model takes the extension as a string, meaning that value's rendering.
- Tiles.Subtiles: requires `2x+1` and `2y+1` to fit in a `u32` below zoom 255. Rust's `2*x` and `x+1` are unchecked there: they panic in debug builds and wrap in release builds. Neither behaviour is modelled.
- The mod_tile path layout is only a TODO in the source (src/lib.rs:113), so there is nothing to model.
- The `mod test` block (src/lib.rs:115-176) is not modelled as code. Its assertions appear as the example lemmas, except the `centre_point` comparison at src/lib.rs:155, which is floating point.
- The decoders `CachePaths.ParseTcPath` and `CachePaths.ParseMpPath` have no counterpart in the source. They exist only to state what a path determines.

## Findings

| source | as written | input that shows it | evidently intended | confidence | as-written member | corrected member |
|---|---|---|---|---|---|---|
| src/lib.rs:10 | `x < 2^(zoom as u32)` is a bitwise exclusive-or, so the bound is `2 XOR zoom` | `Tile::new(2, 0, 0)` is `None` (zoom 2 has no tiles at all), and `Tile::new(3, 0, 0)` is valid but its `parent()` is `None` | `x < 2` to the power `zoom`, so each zoom holds `2^zoom × 2^zoom` tiles and every valid tile has a valid parent | not executed | Tiles.OrphanAtZoomThree | Tiles.IntendedParentIsValid |
