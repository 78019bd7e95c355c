/** Little-endian bytes, and memory read through a pointer that may run past its buffer. */
module Bytes {
  type byte = b: int | 0 <= b < 0x100
  type u16 = w: int | 0 <= w < 0x1_0000
  type u32 = w: int | 0 <= w < 0x1_0000_0000

  type i32 = x: int | -0x8000_0000 <= x < 0x8000_0000

  /** An int passed for a uint32_t, and back. */
  function Unsigned(x: i32): u32 { if x < 0 then x + 0x1_0000_0000 else x }

  function Signed(w: u32): (x: i32)
    ensures Unsigned(x) == w
  {
    if w < 0x8000_0000 then w else w - 0x1_0000_0000
  }

  /** The bytes a pointer finds from offset 0 on: the buffer it points to and whatever lies behind it. */
  type Memory = seq<byte>

  function At(m: Memory, p: int): byte {
    if 0 <= p < |m| then m[p] else 0
  }

  function Read(m: Memory, p: int, n: nat): (s: seq<byte>)
    ensures |s| == n && Holds(m, p, s)
    ensures 0 <= p && p + n <= |m| ==> s == m[p..p + n]
    decreases n, p
  {
    if n == 0 then [] else [At(m, p)] + Read(m, p + 1, n - 1)
  }

  datatype Option<+T> = None | Some(value: T)

  function U16(w: u16): (s: seq<byte>)
    ensures |s| == 2
  {
    [w % 0x100, w / 0x100]
  }

  function U32(w: u32): (s: seq<byte>)
    ensures |s| == 4
  {
    [w % 0x100, w / 0x100 % 0x100, w / 0x100 / 0x100 % 0x100, w / 0x100 / 0x100 / 0x100]
  }

  /** The least significant byte comes first. */
  lemma LeastSignificantFirst(w: u16, v: u32)
    ensures var s := U16(w); w == (s[0] as int) + 0x100 * (s[1] as int)
    ensures var s := U32(v);
            v == (s[0] as int) + 0x100 * (s[1] as int) + 0x1_0000 * (s[2] as int) + 0x100_0000 * (s[3] as int)
  {}

  function Word16(m: Memory, p: int): u16 {
    At(m, p) + 0x100 * At(m, p + 1)
  }

  function Word32(m: Memory, p: int): u32 {
    At(m, p) + 0x100 * (At(m, p + 1) + 0x100 * (At(m, p + 2) + 0x100 * At(m, p + 3)))
  }

  /** Memory holds the bytes of s from offset p on. */
  predicate Holds(m: Memory, p: int, s: seq<byte>) {
    forall i :: 0 <= i < |s| ==> At(m, p + i) == s[i]
  }

  lemma HoldsSplit(m: Memory, p: int, a: seq<byte>, b: seq<byte>)
    requires Holds(m, p, a + b)
    ensures Holds(m, p, a) && Holds(m, p + |a|, b)
  {
    forall i | 0 <= i < |a| ensures At(m, p + i) == a[i] {
      assert (a + b)[i] == a[i];
    }
    forall i | 0 <= i < |b| ensures At(m, p + |a| + i) == b[i] {
      assert (a + b)[|a| + i] == b[i];
    }
  }

  lemma HoldsRead(m: Memory, p: int, s: seq<byte>, i: nat, n: nat)
    requires Holds(m, p, s) && i + n <= |s|
    ensures Read(m, p + i, n) == s[i..i + n]
  {
    var r := Read(m, p + i, n);
    forall k | 0 <= k < n ensures r[k] == s[i + k] {
      assert At(m, p + i + k) == r[k];
      assert At(m, p + (i + k)) == s[i + k];
    }
  }

  lemma HoldsWord16(m: Memory, p: int, w: u16)
    requires Holds(m, p, U16(w))
    ensures Word16(m, p) == w
  {
    assert At(m, p + 0) == U16(w)[0] && At(m, p + 1) == U16(w)[1];
  }

  lemma HoldsWord32(m: Memory, p: int, w: u32)
    requires Holds(m, p, U32(w))
    ensures Word32(m, p) == w
  {
    var s := U32(w);
    assert At(m, p + 0) == s[0] && At(m, p + 1) == s[1] && At(m, p + 2) == s[2] && At(m, p + 3) == s[3];
  }
}
