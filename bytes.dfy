/**
 * Little-endian fixed-width integers, as `encoding/binary` reads them with
 * `binary.LittleEndian`: the unsigned 16-, 32- and 64-bit values and the
 * two's-complement 32-bit value, with their encoders.
 */
module Bytes {
  import opened Fmt

  type byte = x: int | 0 <= x < 0x100

  type u16 = x: int | 0 <= x < 0x1_0000
  type u32 = x: int | 0 <= x < 0x1_0000_0000
  type u64 = x: int | 0 <= x < 0x1_0000_0000_0000_0000
  type i32 = x: int | -0x8000_0000 <= x < 0x8000_0000

  /** `binary.LittleEndian.Uint16`: the low byte comes first. */
  function U16(b: seq<byte>): (v: u16)
    requires |b| == 2
  {
    b[0] as int + 0x100 * (b[1] as int)
  }

  /** `binary.LittleEndian.Uint32`: the low half comes first. */
  function U32(b: seq<byte>): (v: u32)
    requires |b| == 4
  {
    U16(b[..2]) + 0x1_0000 * U16(b[2..])
  }

  /** `binary.LittleEndian.Uint64`: the low word comes first. */
  function U64(b: seq<byte>): (v: u64)
    requires |b| == 8
  {
    U32(b[..4]) + 0x1_0000_0000 * U32(b[4..])
  }

  /** An `int32` field: the 32 bits read as two's complement. */
  function I32(b: seq<byte>): (v: i32)
    requires |b| == 4
  {
    var u := U32(b);
    if u < 0x8000_0000 then u else u - 0x1_0000_0000
  }

  /** The two bytes of a 16-bit value, low byte first. */
  function Le16(x: u16): (b: seq<byte>)
    ensures |b| == 2
  {
    [x % 0x100, x / 0x100]
  }

  function Le32(x: u32): (b: seq<byte>)
    ensures |b| == 4
  {
    Le16(x % 0x1_0000) + Le16(x / 0x1_0000)
  }

  function Le64(x: u64): (b: seq<byte>)
    ensures |b| == 8
  {
    Le32(x % 0x1_0000_0000) + Le32(x / 0x1_0000_0000)
  }

  /** The two's-complement bytes of a signed 32-bit value. */
  function LeI32(x: i32): (b: seq<byte>)
    ensures |b| == 4
  {
    Le32(if x >= 0 then x else x + 0x1_0000_0000)
  }

  // ---------------------------------------------------------------- round trips

  lemma U16Le16(x: u16)
    ensures U16(Le16(x)) == x
  {
  }

  lemma Le16U16(b: seq<byte>)
    requires |b| == 2
    ensures Le16(U16(b)) == b
  {
    ModUnique(U16(b), 0x100, b[1], b[0]);
  }

  lemma U32Le32(x: u32)
    ensures U32(Le32(x)) == x
  {
    var b := Le32(x);
    assert b[..2] == Le16(x % 0x1_0000) && b[2..] == Le16(x / 0x1_0000);
    U16Le16(x % 0x1_0000);
    U16Le16(x / 0x1_0000);
  }

  lemma Le32U32(b: seq<byte>)
    requires |b| == 4
    ensures Le32(U32(b)) == b
  {
    var lo := U16(b[..2]);
    var hi := U16(b[2..]);
    ModUnique(U32(b), 0x1_0000, hi, lo);
    Le16U16(b[..2]);
    Le16U16(b[2..]);
    assert b == b[..2] + b[2..];
  }

  lemma U64Le64(x: u64)
    ensures U64(Le64(x)) == x
  {
    var b := Le64(x);
    assert b[..4] == Le32(x % 0x1_0000_0000) && b[4..] == Le32(x / 0x1_0000_0000);
    U32Le32(x % 0x1_0000_0000);
    U32Le32(x / 0x1_0000_0000);
  }

  lemma Le64U64(b: seq<byte>)
    requires |b| == 8
    ensures Le64(U64(b)) == b
  {
    var lo := U32(b[..4]);
    var hi := U32(b[4..]);
    ModUnique(U64(b), 0x1_0000_0000, hi, lo);
    Le32U32(b[..4]);
    Le32U32(b[4..]);
    assert b == b[..4] + b[4..];
  }

  lemma I32LeI32(x: i32)
    ensures I32(LeI32(x)) == x
  {
    U32Le32(if x >= 0 then x else x + 0x1_0000_0000);
  }

  lemma LeI32I32(b: seq<byte>)
    requires |b| == 4
    ensures LeI32(I32(b)) == b
  {
    Le32U32(b);
  }

  /** The sign of an `int32` field is its top bit. */
  lemma I32Sign(b: seq<byte>)
    requires |b| == 4
    ensures I32(b) < 0 <==> b[3] >= 0x80
  {
    assert b[2..][1] == b[3];
  }
}
