/** The fixed-width unsigned integer types the tile core stores its fields in. */
module Ints {

  /** Rust `u8`: the zoom level of a tile. */
  type u8 = n: nat | n < 0x100

  /** Rust `u32`: a tile column or row. */
  type u32 = n: nat | n < 0x1_0000_0000
}
