/** Constants, scalar types and node records shared by the whole model. */
module Types {

  const LEAF_KEY_NUM: nat := 14
  const NON_LEAF_KEY_NUM: nat := 15
  const LEFT_KEY_NUM: nat := NON_LEAF_KEY_NUM / 2
  const RIGHT_KEY_NUM: nat := NON_LEAF_KEY_NUM - LEFT_KEY_NUM

  /** A node address; NULL is the null pointer. */
  type Ptr = int
  const NULL: Ptr := 0

  type byte = x: int | 0 <= x < 256

  /** Search keys: the non-negative half of `long long`, so that the difference of two keys never overflows. */
  const KEY_LIMIT: int := 0x8000_0000_0000_0000
  type Key = k: int | 0 <= k < KEY_LIMIT

  /** The one-byte fingerprint function. Nothing below depends on which function it is. */
  const hashcode1B: Key -> byte

  /** A key with a child pointer (inner node) or with a record pointer (leaf). */
  datatype IdxEntry = IdxEntry(k: Key, ch: Ptr)

  /** A DRAM inner node. `ent[0].k` overlaps the lock and the count, so it is not a key. */
  datatype Inner = Inner(lock: bool, num: int, ent: seq<IdxEntry>)

  datatype Option<+T> = None | Some(value: T)

  /** Memory just allocated for an inner node: any contents. */
  type RawInner = n: Inner | |n.ent| == NON_LEAF_KEY_NUM + 1
    witness Inner(false, 0, seq(NON_LEAF_KEY_NUM + 1, _ => IdxEntry(0, NULL)))
}
