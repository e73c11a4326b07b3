/** The 24-byte little-endian header that opens every slot of the chunk file. */
module HeaderCodec {
  import opened Base

  const MAGIC: u32 := 0x4348_4B01
  const HEADER_SIZE: nat := 24

  datatype ChunkHeader = ChunkHeader(magic: u32, id: u64, checksum: u32, dataLen: u32)

  /** The number of values that `width` bytes can hold. */
  function Span(width: nat): (n: nat)
    ensures n > 0
  {
    if width == 0 then 1 else 0x100 * Span(width - 1)
  }

  function LeBytes(n: nat, width: nat): (bytes: seq<byte>)
    ensures |bytes| == width
  {
    if width == 0 then [] else [n % 0x100] + LeBytes(n / 0x100, width - 1)
  }

  function LeValue(bytes: seq<byte>): (n: nat)
    ensures n < Span(|bytes|)
  {
    if bytes == [] then 0 else bytes[0] + 0x100 * LeValue(bytes[1..])
  }

  /** Byte number `i` is digit number `i` to the base 256, the lowest first. */
  lemma {:induction false} LeByteAt(n: nat, width: nat, i: nat)
    requires i < width
    ensures LeBytes(n, width)[i] == n / Span(i) % 0x100
  {
    if i > 0 {
      LeByteAt(n / 0x100, width - 1, i - 1);
      DivTwice(n, Span(i - 1));
    }
  }

  lemma {:induction false} DivTwice(n: nat, m: nat)
    requires m > 0
    ensures n / (0x100 * m) == n / 0x100 / m
  {
    var q, r := n / 0x100, n % 0x100;
    var p, s := q / m, q % m;
    assert n == 0x100 * (p * m + s) + r == p * (0x100 * m) + (0x100 * s + r);
    assert 0 <= 0x100 * s + r < 0x100 * m;
    QuotientIs(n, 0x100 * m, p, 0x100 * s + r);
  }

  lemma {:induction false} QuotientIs(n: nat, m: nat, p: nat, r: nat)
    requires r < m && n == p * m + r
    ensures n / m == p
  {
    var q := n / m;
    assert q * m <= n < (q + 1) * m && n < (p + 1) * m;
    TimesGrows(q + 1, p, m);
    TimesGrows(p + 1, q, m);
  }

  lemma {:induction false} TimesGrows(a: nat, b: nat, m: nat)
    ensures a <= b ==> a * m <= b * m
  {
  }

  lemma {:induction false} LeRoundTrip(n: nat, width: nat)
    requires n < Span(width)
    ensures LeValue(LeBytes(n, width)) == n
  {
    if width > 0 {
      LeRoundTrip(n / 0x100, width - 1);
      assert LeBytes(n, width)[1..] == LeBytes(n / 0x100, width - 1);
    }
  }

  lemma {:induction false} LeCanonical(bytes: seq<byte>)
    ensures LeBytes(LeValue(bytes), |bytes|) == bytes
  {
    if bytes != [] {
      LeCanonical(bytes[1..]);
    }
  }

  lemma {:induction false} SpanOfWords()
    ensures Span(4) == 0x1_0000_0000
    ensures Span(8) == 0x1_0000_0000_0000_0000
  {
    assert Span(2) == 0x1_0000;
    assert Span(6) == 0x1_0000_0000_0000;
  }

  function LeU32(bytes: seq<byte>): u32
    requires |bytes| == 4
  {
    SpanOfWords();
    LeValue(bytes)
  }

  function LeU64(bytes: seq<byte>): u64
    requires |bytes| == 8
  {
    SpanOfWords();
    LeValue(bytes)
  }

  function ToBytes(h: ChunkHeader): (bytes: seq<byte>)
    ensures |bytes| == HEADER_SIZE
  {
    LeBytes(h.magic, 4) + LeBytes(h.id, 8) + LeBytes(h.checksum, 4) + LeBytes(h.dataLen, 4) + [0, 0, 0, 0]
  }

  function FromBytes(bytes: seq<byte>): ChunkHeader
    requires |bytes| == HEADER_SIZE
  {
    ChunkHeader(LeU32(bytes[..4]), LeU64(bytes[4..12]), LeU32(bytes[12..16]), LeU32(bytes[16..20]))
  }

  lemma {:induction false} FieldsOfBytes(h: ChunkHeader)
    ensures ToBytes(h)[..4] == LeBytes(h.magic, 4)
    ensures ToBytes(h)[4..12] == LeBytes(h.id, 8)
    ensures ToBytes(h)[12..16] == LeBytes(h.checksum, 4)
    ensures ToBytes(h)[16..20] == LeBytes(h.dataLen, 4)
  {
  }

  /** Every header survives the codec. */
  lemma {:induction false} HeaderRoundTrip(h: ChunkHeader)
    ensures FromBytes(ToBytes(h)) == h
  {
    SpanOfWords();
    FieldsOfBytes(h);
    LeRoundTrip(h.magic, 4);
    LeRoundTrip(h.id, 8);
    LeRoundTrip(h.checksum, 4);
    LeRoundTrip(h.dataLen, 4);
  }

  /** The codec is onto the byte strings whose four padding bytes are zero, and onto no others. */
  lemma {:induction false} BytesRoundTrip(bytes: seq<byte>)
    requires |bytes| == HEADER_SIZE
    ensures ToBytes(FromBytes(bytes)) == bytes <==> bytes[20..] == [0, 0, 0, 0]
  {
    LeCanonical(bytes[..4]);
    LeCanonical(bytes[4..12]);
    LeCanonical(bytes[12..16]);
    LeCanonical(bytes[16..20]);
    assert bytes == bytes[..4] + bytes[4..12] + bytes[12..16] + bytes[16..20] + bytes[20..];
    assert ToBytes(FromBytes(bytes))[20..] == [0, 0, 0, 0];
  }

  const ZERO_HEADER: seq<byte> := [0, 0, 0, 0, 0, 0, 0, 0, 0, 0, 0, 0, 0, 0, 0, 0, 0, 0, 0, 0, 0, 0, 0, 0]

  /** The magic number does not start with a zero byte, so zeroing the first byte is enough to lose it. */
  lemma {:induction false} ZeroByteIsBlank(bytes: seq<byte>)
    requires |bytes| == HEADER_SIZE && bytes[0] == 0
    ensures FromBytes(bytes).magic != MAGIC
  {
    assert LeValue(bytes[..4]) == 0x100 * LeValue(bytes[..4][1..]);
  }

  /** A zeroed header is not mistaken for a chunk. */
  lemma {:induction false} ZeroHeaderIsBlank()
    ensures FromBytes(ZERO_HEADER).magic == 0 != MAGIC
  {
    assert LeBytes(0, 4) == [0, 0, 0, 0] == ZERO_HEADER[..4];
    SpanOfWords();
    LeRoundTrip(0, 4);
  }
}
