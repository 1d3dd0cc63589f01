/** Shared value types: fixed-width integers as explicit ranges, byte strings, options. */
module Types {
  type Byte = x: int | 0 <= x < 0x100
  type Uint32 = x: int | 0 <= x < 0x1_0000_0000
  type Uint64 = x: int | 0 <= x < 0x1_0000_0000_0000_0000

  /** Go strings and byte slices: no encoding is assumed. */
  type Text = seq<Byte>

  datatype Option<+T> = None | Some(value: T)
}
