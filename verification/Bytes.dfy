/** Machine integers, little-endian encoding, and the two result types used everywhere. */
module Bytes {

  type u8 = x: int | 0 <= x < 0x100
  type u16 = x: int | 0 <= x < 0x1_0000
  type u32 = x: int | 0 <= x < 0x1_0000_0000
  type u64 = x: int | 0 <= x < 0x1_0000_0000_0000_0000

  const U32_MAX: u32 := 0xFFFF_FFFF
  const U64_MAX: u64 := 0xFFFF_FFFF_FFFF_FFFF

  datatype Option<+T> = None | Some(value: T)

  datatype Result<+T, +E> = Ok(value: T) | Err(error: E)

  /** A checksum routine (CRC-32 in the program); every theorem holds for any routine. */
  type Crc = seq<u8> -> u32

  function SaturatingIncrement(x: u64): (r: u64)
  {
    if x == U64_MAX then U64_MAX else x + 1
  }

  function Pow256(width: nat): (p: nat)
    ensures p >= 1
  {
    if width == 0 then 1 else 256 * Pow256(width - 1)
  }

  /** The `width` low-order bytes of `x`, least significant first. */
  function Le(width: nat, x: nat): (bytes: seq<u8>)
    ensures |bytes| == width
  {
    if width == 0 then [] else [x % 256] + Le(width - 1, x / 256)
  }

  function FromLe(bytes: seq<u8>): (x: nat)
  {
    if bytes == [] then 0 else bytes[0] + 256 * FromLe(bytes[1..])
  }

  lemma {:induction false} FromLeBound(bytes: seq<u8>)
    ensures FromLe(bytes) < Pow256(|bytes|)
  {
    if bytes != [] {
      FromLeBound(bytes[1..]);
    }
  }

  lemma {:induction false} LeRoundTrip(width: nat, x: nat)
    requires x < Pow256(width)
    ensures FromLe(Le(width, x)) == x
  {
    if width > 0 {
      LeRoundTrip(width - 1, x / 256);
      assert Le(width, x)[1..] == Le(width - 1, x / 256);
    }
  }

  lemma {:induction false} LeCanonical(bytes: seq<u8>)
    ensures Le(|bytes|, FromLe(bytes)) == bytes
  {
    if bytes != [] {
      var higher := FromLe(bytes[1..]);
      LeCanonical(bytes[1..]);
      assert (bytes[0] + 256 * higher) % 256 == bytes[0] && (bytes[0] + 256 * higher) / 256 == higher;
      assert Le(|bytes|, FromLe(bytes)) == [bytes[0]] + Le(|bytes| - 1, higher);
    }
  }

  lemma Pow256Values()
    ensures Pow256(2) == 0x1_0000
    ensures Pow256(4) == 0x1_0000_0000
    ensures Pow256(8) == 0x1_0000_0000_0000_0000
  {
    assert Pow256(1) == 256 * Pow256(0);
    assert Pow256(2) == 256 * Pow256(1);
    assert Pow256(3) == 256 * Pow256(2);
    assert Pow256(4) == 256 * Pow256(3);
    assert Pow256(5) == 256 * Pow256(4);
    assert Pow256(6) == 256 * Pow256(5);
    assert Pow256(7) == 256 * Pow256(6);
    assert Pow256(8) == 256 * Pow256(7);
  }

  function FromLe16(bytes: seq<u8>): (x: u16)
    requires |bytes| == 2
  {
    Pow256Values();
    FromLeBound(bytes);
    FromLe(bytes)
  }

  function FromLe32(bytes: seq<u8>): (x: u32)
    requires |bytes| == 4
  {
    Pow256Values();
    FromLeBound(bytes);
    FromLe(bytes)
  }

  function FromLe64(bytes: seq<u8>): (x: u64)
    requires |bytes| == 8
  {
    Pow256Values();
    FromLeBound(bytes);
    FromLe(bytes)
  }

  lemma Le16RoundTrip(x: u16)
    ensures FromLe16(Le(2, x)) == x
  {
    Pow256Values();
    LeRoundTrip(2, x);
  }

  lemma Le32RoundTrip(x: u32)
    ensures FromLe32(Le(4, x)) == x
  {
    Pow256Values();
    LeRoundTrip(4, x);
  }

  lemma Le64RoundTrip(x: u64)
    ensures FromLe64(Le(8, x)) == x
  {
    Pow256Values();
    LeRoundTrip(8, x);
  }
}
