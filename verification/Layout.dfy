/** Integers as the bytes a little-endian 64-bit Linux target stores them in. */
module Layout {
  type byte = x: nat | x < 256
  type u8 = byte
  type u32 = x: nat | x < 0x1_0000_0000
  type u64 = x: nat | x < 0x1_0000_0000_0000_0000
  type i32 = x: int | -0x8000_0000 <= x < 0x8000_0000
  type i64 = x: int | -0x8000_0000_0000_0000 <= x < 0x8000_0000_0000_0000

  /** 256 to the power of the width. */
  function Bound(width: nat): (b: nat)
    ensures b >= 1
  {
    if width == 0 then 1 else 256 * Bound(width - 1)
  }

  function Le(n: nat, width: nat): (s: seq<byte>)
    ensures |s| == width
  {
    if width == 0 then [] else [n % 256] + Le(n / 256, width - 1)
  }

  function FromLe(s: seq<byte>): nat {
    if s == [] then 0 else s[0] + 256 * FromLe(s[1..])
  }

  lemma {:induction false} LeRoundTrip(n: nat, width: nat)
    requires n < Bound(width)
    ensures FromLe(Le(n, width)) == n
  {
    if width > 0 {
      LeRoundTrip(n / 256, width - 1);
      assert Le(n, width)[1..] == Le(n / 256, width - 1);
    }
  }

  lemma {:induction false} FromLeBound(s: seq<byte>)
    ensures FromLe(s) < Bound(|s|)
  {
    if s != [] {
      FromLeBound(s[1..]);
    }
  }

  lemma Bounds()
    ensures Bound(1) == 256 && Bound(4) == 0x1_0000_0000 && Bound(8) == 0x1_0000_0000_0000_0000
  {
    assert Bound(2) == 0x1_0000 && Bound(3) == 0x100_0000;
    assert Bound(5) == 0x100_0000_0000 && Bound(6) == 0x1_0000_0000_0000 && Bound(7) == 0x100_0000_0000_0000;
  }

  // ---------- the widths in use ----------

  /** Some bytes of each width. */
  const FOUR: seq<byte> := [0, 0, 0, 0]
  const EIGHT: seq<byte> := FOUR + FOUR

  function U32(n: u32): seq<byte> { Le(n, |FOUR|) }
  function I32(n: i32): seq<byte> { Le(if n < 0 then n + 0x1_0000_0000 else n, |FOUR|) }
  function U64(n: u64): seq<byte> { Le(n, |EIGHT|) }
  function I64(n: i64): seq<byte> { Le(if n < 0 then n + 0x1_0000_0000_0000_0000 else n, |EIGHT|) }

  function GetU32(s: seq<byte>): u32
    requires |s| == 4
  {
    Bounds();
    FromLeBound(s);
    FromLe(s)
  }

  function GetU64(s: seq<byte>): u64
    requires |s| == 8
  {
    Bounds();
    FromLeBound(s);
    FromLe(s)
  }

  /** `as i32` of an unsigned value, and `as i64`. */
  function AsI32(n: u32): i32 { if n < 0x8000_0000 then n else n - 0x1_0000_0000 }
  function AsI64(n: u64): i64 { if n < 0x8000_0000_0000_0000 then n else n - 0x1_0000_0000_0000_0000 }

  /** `as u32` and `as u64` of a signed value. */
  function AsU32(n: i32): u32 { if n < 0 then n + 0x1_0000_0000 else n }
  function AsU64(n: i64): u64 { if n < 0 then n + 0x1_0000_0000_0000_0000 else n }

  function GetI32(s: seq<byte>): i32
    requires |s| == 4
  {
    AsI32(GetU32(s))
  }

  function GetI64(s: seq<byte>): i64
    requires |s| == 8
  {
    AsI64(GetU64(s))
  }

  lemma RoundTrip32(u: u32, i: i32)
    ensures GetU32(U32(u)) == u && GetI32(I32(i)) == i
  {
    Bounds();
    LeRoundTrip(u, |FOUR|);
    LeRoundTrip(if i < 0 then i + 0x1_0000_0000 else i, |FOUR|);
  }

  lemma RoundTrip64(u: u64, i: i64)
    ensures GetU64(U64(u)) == u && GetI64(I64(i)) == i
  {
    Bounds();
    LeRoundTrip(u, |EIGHT|);
    LeRoundTrip(if i < 0 then i + 0x1_0000_0000_0000_0000 else i, |EIGHT|);
  }

  /** An array of i32, one after the other. */
  function I32s(xs: seq<i32>): (s: seq<byte>)
    ensures |s| == 4 * |xs|
  {
    if xs == [] then [] else I32(xs[0]) + I32s(xs[1..])
  }

  function GetI32s(s: seq<byte>): seq<i32>
    requires |s| % 4 == 0
  {
    if s == [] then [] else [GetI32(s[..4])] + GetI32s(s[4..])
  }

  lemma {:induction false} RoundTrip32s(xs: seq<i32>)
    ensures GetI32s(I32s(xs)) == xs
  {
    if xs != [] {
      RoundTrip32(0, xs[0]);
      RoundTrip32s(xs[1..]);
      assert I32s(xs)[..4] == I32(xs[0]) && I32s(xs)[4..] == I32s(xs[1..]);
    }
  }
}
