/** The CRC-32 of crc32fast: reflected polynomial, all-ones start value, inverted result. */
module Crc32 {
  import opened Base

  const POLYNOMIAL: bv32 := 0xEDB8_8320
  const ALL_ONES: bv32 := 0xFFFF_FFFF

  function ShiftBit(c: bv32): bv32 {
    if c & 1 == 1 then (c >> 1) ^ POLYNOMIAL else c >> 1
  }

  function FoldByte(c: bv32, b: byte): bv32 {
    FoldBits(c, b as bv32)
  }

  function FoldBits(c: bv32, b: bv32): bv32 {
    var x := c ^ b;
    ShiftBit(ShiftBit(ShiftBit(ShiftBit(ShiftBit(ShiftBit(ShiftBit(ShiftBit(x))))))))
  }

  /** Left fold, taken from the end so that appending a byte is one more step. */
  function FoldLeft<S>(step: (S, byte) -> S, s: S, data: seq<byte>): S {
    if data == [] then s else step(FoldLeft(step, s, data[..|data| - 1]), data[|data| - 1])
  }

  /** The register after feeding it all of `data`. */
  function Fold(c: bv32, data: seq<byte>): bv32 {
    FoldLeft(FoldByte, c, data)
  }

  function Invert(c: bv32): u32 {
    (c ^ ALL_ONES) as int
  }

  function Checksum(data: seq<byte>): u32 {
    Invert(Fold(ALL_ONES, data))
  }

  /** Folding two pieces one after the other is folding their concatenation. */
  lemma {:induction false} FoldLeftAppend<S>(step: (S, byte) -> S, s: S, a: seq<byte>, b: seq<byte>)
    ensures FoldLeft(step, s, a + b) == FoldLeft(step, FoldLeft(step, s, a), b)
  {
    if b == [] {
      assert a + b == a;
    } else {
      FoldLeftAppend(step, s, a, b[..|b| - 1]);
      assert (a + b)[..|a + b| - 1] == a + b[..|b| - 1];
    }
  }

  lemma {:induction false} Feed(data: seq<byte>, b: byte, before: bv32, after: bv32)
    requires Fold(ALL_ONES, data) == before && FoldByte(before, b) == after
    ensures Fold(ALL_ONES, data + [b]) == after
  {
    assert (data + [b])[..|data|] == data;
  }

  lemma {:induction false} FirstDigits(d: seq<byte>)
    requires Fold(ALL_ONES, d) == 0xFFFF_FFFF
    ensures Fold(ALL_ONES, d + [0x31] + [0x32] + [0x33]) == 0x77B7_9C2D
  {
    Feed(d, 0x31, 0xFFFF_FFFF, 0x7C23_1048);
    Feed(d + [0x31], 0x32, 0x7C23_1048, 0xB0AC_BB32);
    Feed(d + [0x31] + [0x32], 0x33, 0xB0AC_BB32, 0x77B7_9C2D);
  }

  lemma {:induction false} MiddleDigits(d: seq<byte>)
    requires Fold(ALL_ONES, d) == 0x77B7_9C2D
    ensures Fold(ALL_ONES, d + [0x34] + [0x35] + [0x36]) == 0xF68D_2C9E
  {
    Feed(d, 0x34, 0x77B7_9C2D, 0x641C_1F5C);
    Feed(d + [0x34], 0x35, 0x641C_1F5C, 0x340A_C5E3);
    Feed(d + [0x34] + [0x35], 0x36, 0x340A_C5E3, 0xF68D_2C9E);
  }

  lemma {:induction false} LastDigits(d: seq<byte>)
    requires Fold(ALL_ONES, d) == 0xF68D_2C9E
    ensures Fold(ALL_ONES, d + [0x37] + [0x38] + [0x39]) == 0x340B_C6D9
  {
    Feed(d, 0x37, 0xF68D_2C9E, 0xAFFC_9660);
    Feed(d + [0x37], 0x38, 0xAFFC_9660, 0x651F_2550);
    Feed(d + [0x37] + [0x38], 0x39, 0x651F_2550, 0x340B_C6D9);
  }

  lemma {:induction false} NineDigits(none: seq<byte>, all: seq<byte>)
    requires none == [] && all == none + [0x31] + [0x32] + [0x33] + [0x34] + [0x35] + [0x36] + [0x37] + [0x38] + [0x39]
    ensures Checksum(all) == 0xCBF4_3926
  {
    FirstDigits(none);
    var three := none + [0x31] + [0x32] + [0x33];
    MiddleDigits(three);
    LastDigits(three + [0x34] + [0x35] + [0x36]);
  }

  /** The check value of CRC-32/ISO-HDLC: the checksum of the nine ASCII digits "123456789". */
  lemma {:induction false} CheckValue()
    ensures Checksum([0x31, 0x32, 0x33, 0x34, 0x35, 0x36, 0x37, 0x38, 0x39]) == 0xCBF4_3926
  {
    NineDigits([], [0x31, 0x32, 0x33, 0x34, 0x35, 0x36, 0x37, 0x38, 0x39]);
  }

  // ---------------------------------------------------------------------------------------
  // What a change of the data does
  // ---------------------------------------------------------------------------------------

  /** One step is linear, takes bit k + 1 to bit k, and takes bit 0 to the polynomial. */
  lemma {:induction false} ShiftBitIsLinear(c: bv32, d: bv32)
    ensures ShiftBit(c ^ d) == ShiftBit(c) ^ ShiftBit(d)
  {
    ShiftedSum(c, d);
    if c & 1 == 1 && d & 1 == 1 {
      SumWithout(c >> 1, d >> 1);
    } else if c & 1 == 1 || d & 1 == 1 {
      SumWith(c >> 1, d >> 1);
    }
  }

  lemma {:induction false} ShiftedSum(c: bv32, d: bv32)
    ensures (c ^ d) >> 1 == (c >> 1) ^ (d >> 1)
    ensures (c ^ d) & 1 == 1 <==> !(c & 1 == 1 <==> d & 1 == 1)
  {
  }

  lemma {:induction false} SumWith(c: bv32, d: bv32)
    ensures (c ^ POLYNOMIAL) ^ d == (c ^ d) ^ POLYNOMIAL == c ^ (d ^ POLYNOMIAL)
  {
  }

  lemma {:induction false} SumWithout(c: bv32, d: bv32)
    ensures (c ^ POLYNOMIAL) ^ (d ^ POLYNOMIAL) == c ^ d
  {
  }

  lemma {:induction false} ShiftBitOfBits(c: bv32)
    requires c & 0x8000_0000 == 0
    ensures ShiftBit(1) == POLYNOMIAL && ShiftBit(c << 1) == c
  {
    assert (c << 1) & 1 == 0 && (c << 1) >> 1 == c;
  }

  /** No two registers are taken to the same one, because the polynomial has the highest bit. */
  lemma {:induction false} ShiftBitIsInjective(c: bv32, d: bv32)
    ensures ShiftBit(c) == ShiftBit(d) <==> c == d
  {
  }

  /** Nor are any by eight steps. */
  lemma {:induction false} EightStepsAreInjective(c: bv32, d: bv32)
    ensures (ShiftBit(ShiftBit(ShiftBit(ShiftBit(ShiftBit(ShiftBit(ShiftBit(ShiftBit(c)))))))) ==
             ShiftBit(ShiftBit(ShiftBit(ShiftBit(ShiftBit(ShiftBit(ShiftBit(ShiftBit(d))))))))) <==> c == d
  {
    var c2, d2 := ShiftBit(ShiftBit(c)), ShiftBit(ShiftBit(d));
    var c4, d4 := ShiftBit(ShiftBit(c2)), ShiftBit(ShiftBit(d2));
    var c6, d6 := ShiftBit(ShiftBit(c4)), ShiftBit(ShiftBit(d4));
    ShiftBitIsInjective(c, d);
    ShiftBitIsInjective(ShiftBit(c), ShiftBit(d));
    ShiftBitIsInjective(c2, d2);
    ShiftBitIsInjective(ShiftBit(c2), ShiftBit(d2));
    ShiftBitIsInjective(c4, d4);
    ShiftBitIsInjective(ShiftBit(c4), ShiftBit(d4));
    ShiftBitIsInjective(c6, d6);
    ShiftBitIsInjective(ShiftBit(c6), ShiftBit(d6));
  }

  lemma {:induction false} Cancels(x: bv32, c: bv32, d: bv32)
    ensures c ^ x == d ^ x <==> c == d
    ensures x ^ c == x ^ d <==> c == d
  {
  }

  lemma {:induction false} FoldBitsIsInjective(c: bv32, d: bv32, b: bv32)
    ensures FoldBits(c, b) == FoldBits(d, b) <==> c == d
  {
    EightStepsAreInjective(c ^ b, d ^ b);
    Cancels(b, c, d);
  }

  lemma {:induction false} FoldBitsDiffer(c: bv32, a: bv32, b: bv32)
    ensures FoldBits(c, a) == FoldBits(c, b) <==> a == b
  {
    EightStepsAreInjective(c ^ a, c ^ b);
    Cancels(c, a, b);
  }

  /** After the same byte registers differ iff they did before. */
  lemma {:induction false} FoldByteIsInjective(c: bv32, d: bv32, b: byte)
    ensures FoldByte(c, b) == FoldByte(d, b) <==> c == d
  {
    FoldBitsIsInjective(c, d, b as bv32);
  }

  /** And so they do after different bytes. */
  lemma {:induction false} FoldBytesDiffer(c: bv32, a: byte, b: byte)
    ensures FoldByte(c, a) == FoldByte(c, b) <==> a == b
  {
    FoldBitsDiffer(c, a as bv32, b as bv32);
    BytesDiffer(a, b);
  }

  lemma {:induction false} BytesDiffer(a: byte, b: byte)
    ensures a as bv32 == b as bv32 <==> a == b
  {
    ByteBits(a);
    ByteBits(b);
  }

  lemma {:induction false} ByteBits(b: byte)
    ensures (b as bv8) as int == b && b as bv32 == (b as bv8) as bv32
  {
  }

  lemma {:induction false} FoldKeepsApart(c: bv32, d: bv32, data: seq<byte>)
    ensures Fold(c, data) == Fold(d, data) <==> c == d
  {
    if data != [] {
      var front, last := data[..|data| - 1], data[|data| - 1];
      FoldKeepsApart(c, d, front);
      FoldByteIsInjective(Fold(c, front), Fold(d, front), last);
    }
  }

  lemma {:induction false} InvertIsInjective(c: bv32, d: bv32)
    ensures Invert(c) == Invert(d) <==> c == d
  {
    Cancels(ALL_ONES, c, d);
    IntOfRegister(c ^ ALL_ONES);
    IntOfRegister(d ^ ALL_ONES);
  }

  lemma {:induction false} IntOfRegister(c: bv32)
    ensures (c as int) as bv32 == c
  {
  }

  lemma {:induction false} FoldAround(before: seq<byte>, a: byte, after: seq<byte>)
    ensures Fold(ALL_ONES, before + [a] + after) == Fold(FoldByte(Fold(ALL_ONES, before), a), after)
  {
    FoldLeftAppend(FoldByte, ALL_ONES, before + [a], after);
    Feed(before, a, Fold(ALL_ONES, before), FoldByte(Fold(ALL_ONES, before), a));
  }

  /** The checksum notices every change of a single byte. */
  lemma {:induction false} OneByteShows(before: seq<byte>, a: byte, b: byte, after: seq<byte>)
    ensures Checksum(before + [a] + after) == Checksum(before + [b] + after) <==> a == b
  {
    var c := Fold(ALL_ONES, before);
    FoldAround(before, a, after);
    FoldAround(before, b, after);
    FoldBytesDiffer(c, a, b);
    FoldKeepsApart(FoldByte(c, a), FoldByte(c, b), after);
    InvertIsInjective(Fold(ALL_ONES, before + [a] + after), Fold(ALL_ONES, before + [b] + after));
  }

  /** A rolling checksum: `crc32fast::Hasher`. */
  class Hasher {
    var register: bv32
    ghost var fed: seq<byte>

    ghost predicate Valid()
      reads this
    {
      register == Fold(ALL_ONES, fed)
    }

    constructor ()
      ensures Valid() && fed == []
    {
      register := ALL_ONES;
      fed := [];
    }

    method Update(data: seq<byte>)
      requires Valid()
      modifies this
      ensures Valid() && fed == old(fed) + data
    {
      FoldLeftAppend(FoldByte, ALL_ONES, fed, data);
      register := Fold(register, data);
      fed := fed + data;
    }

    method Finalize() returns (sum: u32)
      requires Valid()
      ensures sum == Checksum(fed)
    {
      sum := Invert(register);
    }
  }
}
