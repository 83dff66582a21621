/**
 * Bytes, 32-byte keys, little-endian integers and the integer casts the Rust
 * code performs (`as i64` on a `u64`, wrapping `u64` arithmetic).
 */
module Bytes {
  type Byte = x: int | 0 <= x < 256
  type Bytes = seq<Byte>

  /** A Solana public key, a merkle tree id or a program id: exactly 32 bytes. */
  type Pubkey = k: seq<Byte> | |k| == 32 witness seq(32, _ => 0)

  /** A transaction signature: exactly 64 bytes. */
  type Signature = s: seq<Byte> | |s| == 64 witness seq(64, _ => 0)

  const U32_LIMIT: nat := 0x1_0000_0000
  const U64_LIMIT: nat := 0x1_0000_0000_0000_0000
  const I64_LIMIT: nat := 0x8000_0000_0000_0000

  predicate IsU32(x: int) { 0 <= x < U32_LIMIT }
  predicate IsU64(x: int) { 0 <= x < U64_LIMIT }

  type U8 = x: int | 0 <= x < 0x100
  type U16 = x: int | 0 <= x < 0x1_0000
  type U32 = x: int | 0 <= x < 0x1_0000_0000
  type U64 = x: int | 0 <= x < 0x1_0000_0000_0000_0000

  function Pow256(n: nat): (r: nat)
    ensures r >= 1
  {
    if n == 0 then 1 else 256 * Pow256(n - 1)
  }

  /** The low `n` bytes of `v`, least significant first (`to_le_bytes`). */
  function LeBytes(v: nat, n: nat): (r: Bytes)
    ensures |r| == n
  {
    if n == 0 then [] else [v % 256] + LeBytes(v / 256, n - 1)
  }

  /** The unsigned integer a little-endian byte string denotes (`from_le_bytes`). */
  function LeValue(s: Bytes): nat
  {
    if s == [] then 0 else s[0] + 256 * LeValue(s[1..])
  }

  lemma {:induction false} LeValueBound(s: Bytes)
    ensures LeValue(s) < Pow256(|s|)
  {
    if s != [] {
      LeValueBound(s[1..]);
    }
  }

  /** Decoding an encoding gives the number back, whenever it fits in `n` bytes. */
  lemma {:induction false} LeRoundTrip(v: nat, n: nat)
    requires v < Pow256(n)
    ensures LeValue(LeBytes(v, n)) == v
  {
    if n > 0 {
      LeRoundTrip(v / 256, n - 1);
      assert LeBytes(v, n)[1..] == LeBytes(v / 256, n - 1);
    }
  }

  /** Encoding a decoded string gives the string back. */
  lemma {:induction false} LeBytesOfValue(s: Bytes)
    ensures LeBytes(LeValue(s), |s|) == s
  {
    if s != [] {
      LeBytesOfValue(s[1..]);
      assert (s[0] + 256 * LeValue(s[1..])) / 256 == LeValue(s[1..]);
    }
  }

  /** Two numbers that fit in `n` bytes have the same encoding only if they are equal. */
  lemma LeBytesInjective(v: nat, w: nat, n: nat)
    requires v < Pow256(n) && w < Pow256(n)
    requires LeBytes(v, n) == LeBytes(w, n)
    ensures v == w
  {
    LeRoundTrip(v, n);
    LeRoundTrip(w, n);
  }

  lemma Pow256Four()
    ensures Pow256(4) == U32_LIMIT
  {
  }

  lemma Pow256Eight()
    ensures Pow256(8) == U64_LIMIT
  {
  }

  /** `x as i64` for a `u64`: values from 2^63 upwards wrap to negative numbers. */
  function AsI64(x: nat): (r: int)
    requires IsU64(x)
    ensures -(I64_LIMIT as int) <= r < I64_LIMIT
    ensures r % U64_LIMIT == x % U64_LIMIT
    ensures r == x <==> x < I64_LIMIT
  {
    if x < I64_LIMIT then x else x - U64_LIMIT
  }

  /** `u64` arithmetic as a release build performs it: modulo 2^64. */
  function WrapU64(x: int): (r: nat)
    ensures IsU64(r)
    ensures IsU64(x) ==> r == x
    ensures (r - x) % U64_LIMIT == 0
  {
    x % U64_LIMIT
  }
}
