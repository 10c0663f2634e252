/** Value types shared by the playlist-item model. */
module PlaylistTypes {

  const INT32_MIN: int := -0x8000_0000
  const INT32_LIMIT: int := 0x8000_0000
  const UINT32_LIMIT: int := 0x1_0000_0000

  /** A C++ `int` (32 bits, signed). */
  type int32 = x: int | INT32_MIN <= x < INT32_LIMIT

  /** A C++ `unsigned int` (32 bits). */
  type uint32 = x: int | 0 <= x < UINT32_LIMIT

  /** `indexRange`: a (first, second) pair of frame indices. */
  datatype IndexRange = IndexRange(first: int32, second: int32)

  /** The sentinel range an item starts with: "not set yet". */
  const UNSET_RANGE: IndexRange := IndexRange(-1, -1)

  /** `playlistItemType`: an item is either indexed (frame range) or static (duration). */
  datatype ItemType = Indexed | Static

  datatype Option<T> = None | Some(value: T)

  function Max(a: int32, b: int32): (m: int32)
    ensures m == a || m == b
    ensures m >= a && m >= b
  {
    if a >= b then a else b
  }

  function Min(a: int32, b: int32): (m: int32)
    ensures m == a || m == b
    ensures m <= a && m <= b
  {
    if a <= b then a else b
  }
}
