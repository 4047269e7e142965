/** Bytes, 512-byte sectors and the little-endian fields both FAT32 readers decode
  * (the `u16`, `u32` and `same` helpers of fat32-root.ts). */
module Bytes {

  type byte = x: int | 0 <= x < 256

  const SECTOR_BYTES: nat := 512

  /** A sector that nothing was ever written to. */
  function Blank(): (s: seq<byte>)
    ensures |s| == SECTOR_BYTES && forall i :: 0 <= i < |s| ==> s[i] == 0
  {
    seq(SECTOR_BYTES, _ => 0)
  }

  datatype Option<+T> = None | Some(value: T)

  /** The readers' exceptions carry only a message for the user, so one constructor stands for all. */
  datatype Result<+T> = Ok(value: T) | Err(message: string)

  /** Small ranges keep the bit-vector conversion cheap to verify. */
  lemma ByteRoundTrip(b: byte)
    ensures (b as bv8) as int == b
  {
    if b < 128 {
      if b < 64 {
        if b < 32 {
          if b < 16 {}
        } else {
          if b < 48 {}
        }
      } else {
        if b < 96 {
          if b < 80 {}
        } else {
          if b < 112 {}
        }
      }
    } else {
      if b < 192 {
        if b < 160 {
          if b < 144 {}
        } else {
          if b < 176 {}
        }
      } else {
        if b < 224 {
          if b < 208 {}
        } else {
          if b < 240 {}
        }
      }
    }
  }

  function U16(b: seq<byte>, o: nat): (v: nat)
    requires o + 1 < |b|
    ensures v < 0x1_0000
  {
    var lo: int, hi: int := b[o], b[o + 1];
    lo + 0x100 * hi
  }

  function U32(b: seq<byte>, o: nat): (v: nat)
    requires o + 3 < |b|
    ensures v < 0x1_0000_0000
  {
    U16(b, o) + 0x1_0000 * U16(b, o + 2)
  }

  /** `(v & mask) !== 0` for a mask with the single bit `weight`. */
  predicate Bit(v: nat, weight: nat)
    requires weight > 0
  {
    v / weight % 2 == 1
  }

  function CeilDiv(a: nat, b: nat): (q: nat)
    requires b > 0
  {
    (a + b - 1) / b
  }

  function Min(a: nat, b: nat): nat {
    if a <= b then a else b
  }

  function SetOf<T>(s: seq<T>): set<T> {
    set x | x in s
  }

  predicate Distinct<T(==)>(s: seq<T>) {
    forall i, j :: 0 <= i < j < |s| ==> s[i] != s[j]
  }
}
