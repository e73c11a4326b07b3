/**
 * What the bytes of a chunk file say. A slot is seen either as blank or as a chunk, and the
 * scan that rebuilds index and free list after a restart is a function of what is seen.
 */
module SlotImage {
  import opened Base
  import opened HeaderCodec
  import opened FlatFile
  import Crc32

  const SLOT_SIZE: nat := 8 * 1024 * 1024
  const SLOT_DATA_SIZE: nat := SLOT_SIZE - HEADER_SIZE

  function Slot(disk: seq<byte>, i: nat): (s: seq<byte>)
    requires (i + 1) * SLOT_SIZE <= |disk|
    ensures |s| == SLOT_SIZE
  {
    disk[i * SLOT_SIZE..(i + 1) * SLOT_SIZE]
  }

  /**
   * A slot is a chunk if its header has the magic number and a possible length, and an intact
   * one if the payload also has the checksum that the header announces.
   */
  datatype SlotView = Blank | Chunk(id: u64, data: seq<byte>, intact: bool)
  {
    /** The id under which a recovery scan accepts the slot; a fast scan believes every chunk header. */
    function Mark(fast: bool): Option<u64> {
      if Chunk? && (fast || intact) then Some(id) else None
    }
  }

  function ViewOf(header: ChunkHeader, body: seq<byte>): SlotView
    requires |body| == SLOT_DATA_SIZE
  {
    if header.magic == MAGIC && header.dataLen <= SLOT_DATA_SIZE then
      var data := body[..header.dataLen];
      Chunk(header.id, data, Crc32.Checksum(data) == header.checksum)
    else
      Blank
  }

  function View(slot: seq<byte>): SlotView
    requires |slot| == SLOT_SIZE
  {
    ViewOf(FromBytes(slot[..HEADER_SIZE]), slot[HEADER_SIZE..])
  }

  /** The first `n` slots as they are seen. */
  function Views(disk: seq<byte>, n: nat): (views: seq<SlotView>)
    requires n * SLOT_SIZE <= |disk|
    ensures |views| == n
    ensures forall i: nat | i < n :: views[i] == View(Slot(disk, i))
  {
    seq(n, i requires 0 <= i < n => View(Slot(disk, i)))
  }

  datatype Recovery = Recovery(index: map<u64, nat>, free: seq<nat>)

  /** Index and free list after scanning the slots in ascending order. */
  function Scan(views: seq<SlotView>, fast: bool): Recovery {
    if views == [] then
      Recovery(map[], [])
    else
      var i := |views| - 1;
      var r := Scan(views[..i], fast);
      match views[i].Mark(fast)
      case Some(id) => r.(index := r.index[id := i])
      case None => r.(free := r.free + [i])
  }

  lemma {:induction false} ScanStep(views: seq<SlotView>, i: nat, fast: bool)
    requires i < |views|
    ensures var r := Scan(views[..i], fast);
            Scan(views[..i + 1], fast) ==
            match views[i].Mark(fast)
            case Some(id) => r.(index := r.index[id := i])
            case None => r.(free := r.free + [i])
  {
    assert views[..i + 1][..i] == views[..i];
  }

  /** The free list holds exactly the rejected slots, in ascending order. */
  lemma {:induction false} ScanFree(views: seq<SlotView>, fast: bool)
    ensures forall i: nat :: i in Scan(views, fast).free <==> i < |views| && views[i].Mark(fast).None?
    ensures forall j, k | 0 <= j < k < |Scan(views, fast).free| :: Scan(views, fast).free[j] < Scan(views, fast).free[k]
  {
    if views != [] {
      ScanFree(views[..|views| - 1], fast);
      var before := Scan(views[..|views| - 1], fast).free;
      assert forall j | 0 <= j < |before| :: before[j] in before;
    }
  }

  /** An id is indexed iff some slot is accepted under it, and then at the highest such slot. */
  lemma {:induction false} ScanIndex(views: seq<SlotView>, fast: bool)
    ensures forall id | id in Scan(views, fast).index ::
              Scan(views, fast).index[id] < |views| && views[Scan(views, fast).index[id]].Mark(fast) == Some(id)
    ensures forall i: nat | i < |views| && views[i].Mark(fast).Some? ::
              views[i].Mark(fast).value in Scan(views, fast).index &&
              i <= Scan(views, fast).index[views[i].Mark(fast).value]
  {
    if views != [] {
      ScanIndex(views[..|views| - 1], fast);
    }
  }

  /** No two slots are accepted under the same id. */
  ghost predicate AcceptedOnce(views: seq<SlotView>, fast: bool) {
    forall i: nat, j: nat | i < j < |views| && views[i].Mark(fast).Some? :: views[i].Mark(fast) != views[j].Mark(fast)
  }

  /** The last slot doubles an id iff the scan before it has indexed that id. */
  lemma {:induction false} AcceptedOnceStep(views: seq<SlotView>, fast: bool)
    requires views != []
    ensures var i := |views| - 1;
            AcceptedOnce(views, fast) <==>
            && AcceptedOnce(views[..i], fast)
            && (views[i].Mark(fast).Some? ==> views[i].Mark(fast).value !in Scan(views[..i], fast).index)
  {
    var i := |views| - 1;
    var index := Scan(views[..i], fast).index;
    ScanIndex(views[..i], fast);
    assert forall k | 0 <= k < i :: views[..i][k] == views[k];
    if views[i].Mark(fast).Some? && views[i].Mark(fast).value in index {
      var j := index[views[i].Mark(fast).value];
      assert j < i && views[j].Mark(fast) == views[i].Mark(fast);
    }
  }

  /** Index entries and free slots never outnumber the slots, and account for all of them iff no id is accepted twice. */
  lemma {:induction false} ScanCount(views: seq<SlotView>, fast: bool)
    ensures var r := Scan(views, fast);
            |r.index| + |r.free| <= |views| && (|r.index| + |r.free| == |views| <==> AcceptedOnce(views, fast))
  {
    if views != [] {
      ScanCount(views[..|views| - 1], fast);
      AcceptedOnceStep(views, fast);
    }
  }

  /** A write that stays inside slot `i` leaves the bytes of every other slot alone. */
  lemma {:induction false} SlotFrame(disk: seq<byte>, i: nat, at: nat, data: seq<byte>, j: nat)
    requires (i + 1) * SLOT_SIZE <= |disk| && (j + 1) * SLOT_SIZE <= |disk|
    requires at + |data| <= SLOT_SIZE
    ensures j != i ==> Slot(Patch(disk, i * SLOT_SIZE + at, data), j) == Slot(disk, j)
    ensures Slot(Patch(disk, i * SLOT_SIZE + at, data), i) == Patch(Slot(disk, i), at, data)
  {
    PatchInside(disk, i * SLOT_SIZE, (i + 1) * SLOT_SIZE, at, data);
    if j < i {
      assert (j + 1) * SLOT_SIZE <= i * SLOT_SIZE;
      PatchFrame(disk, i * SLOT_SIZE + at, data, j * SLOT_SIZE, (j + 1) * SLOT_SIZE);
    } else if j > i {
      assert (i + 1) * SLOT_SIZE <= j * SLOT_SIZE;
      PatchFrame(disk, i * SLOT_SIZE + at, data, j * SLOT_SIZE, (j + 1) * SLOT_SIZE);
    }
  }

  /** A write that stays inside slot `i` changes what is seen of slot `i` only. */
  lemma {:induction false} ViewsFrame(disk: seq<byte>, n: nat, i: nat, at: nat, data: seq<byte>)
    requires n * SLOT_SIZE == |disk| && i < n && at + |data| <= SLOT_SIZE
    ensures var after := Patch(disk, i * SLOT_SIZE + at, data);
            Views(after, n) == Views(disk, n)[i := View(Patch(Slot(disk, i), at, data))]
  {
    var after := Patch(disk, i * SLOT_SIZE + at, data);
    forall j: nat | j < n
      ensures Slot(after, j) == if j == i then Patch(Slot(disk, i), at, data) else Slot(disk, j)
    {
      SlotFrame(disk, i, at, data, j);
    }
  }

  /** Header and payload as they are written for a chunk. */
  function ChunkBytes(id: u64, data: seq<byte>): (bytes: seq<byte>)
    requires |data| <= SLOT_DATA_SIZE
    ensures |bytes| == HEADER_SIZE + |data|
  {
    ToBytes(ChunkHeader(MAGIC, id, Crc32.Checksum(data), |data|)) + data
  }

  /** `after` differs from `before` inside slot `i` at most. */
  ghost predicate OnlySlotChanged(before: seq<byte>, after: seq<byte>, i: nat) {
    && |after| == |before|
    && forall k | 0 <= k < |before| && !(i * SLOT_SIZE <= k < (i + 1) * SLOT_SIZE) :: after[k] == before[k]
  }

  lemma {:induction false} PatchInsideSlot(before: seq<byte>, i: nat, at: nat, data: seq<byte>)
    requires (i + 1) * SLOT_SIZE <= |before| && at + |data| <= SLOT_SIZE
    ensures OnlySlotChanged(before, Patch(before, i * SLOT_SIZE + at, data), i)
  {
  }

  lemma {:induction false} OtherSlotsUnchanged(before: seq<byte>, after: seq<byte>, n: nat, i: nat)
    requires n * SLOT_SIZE == |before| && OnlySlotChanged(before, after, i)
    ensures forall j: nat | j < n && j != i :: Slot(after, j) == Slot(before, j)
    ensures i < n ==> Views(after, n) == Views(before, n)[i := Views(after, n)[i]]
  {
    forall j: nat | j < n && j != i
      ensures Slot(after, j) == Slot(before, j)
    {
      assert j < i ==> (j + 1) * SLOT_SIZE <= i * SLOT_SIZE;
      assert j > i ==> (i + 1) * SLOT_SIZE <= j * SLOT_SIZE;
    }
  }

  /** A slot that begins with the bytes of a chunk shows that chunk, whatever follows. */
  lemma {:induction false} ChunkBytesAreSeen(slot: seq<byte>, id: u64, data: seq<byte>)
    requires |slot| == SLOT_SIZE && |data| <= SLOT_DATA_SIZE
    requires slot[..HEADER_SIZE + |data|] == ChunkBytes(id, data)
    ensures View(slot) == Chunk(id, data, true)
  {
    var h := ChunkHeader(MAGIC, id, Crc32.Checksum(data), |data|);
    HeaderRoundTrip(h);
    assert slot[..HEADER_SIZE] == ChunkBytes(id, data)[..HEADER_SIZE] == ToBytes(h);
    assert slot[HEADER_SIZE..][..|data|] == ChunkBytes(id, data)[HEADER_SIZE..] == data;
  }

  lemma {:induction false} ZeroHeaderIsSeen(slot: seq<byte>)
    requires |slot| == SLOT_SIZE && slot[..HEADER_SIZE] == ZERO_HEADER
    ensures View(slot) == Blank
  {
    ZeroHeaderIsBlank();
  }

  /** A chunk written to a slot is seen there, whatever the slot held before. */
  lemma {:induction false} WrittenChunkIsSeen(disk: seq<byte>, n: nat, i: nat, id: u64, data: seq<byte>)
    requires n * SLOT_SIZE == |disk| && i < n && |data| <= SLOT_DATA_SIZE
    ensures Views(Patch(disk, i * SLOT_SIZE, ChunkBytes(id, data)), n) == Views(disk, n)[i := Chunk(id, data, true)]
  {
    ViewsFrame(disk, n, i, 0, ChunkBytes(id, data));
    ChunkBytesAreSeen(Patch(Slot(disk, i), 0, ChunkBytes(id, data)), id, data);
  }

  /** A slot whose header has been zeroed is blank. */
  lemma {:induction false} ErasedSlotIsBlank(disk: seq<byte>, n: nat, i: nat)
    requires n * SLOT_SIZE == |disk| && i < n
    ensures Views(Patch(disk, i * SLOT_SIZE, ZERO_HEADER), n) == Views(disk, n)[i := Blank]
  {
    ViewsFrame(disk, n, i, 0, ZERO_HEADER);
    ZeroHeaderIsSeen(Patch(Slot(disk, i), 0, ZERO_HEADER));
  }

  /** However little of the zero header was written: the slot is as it was, or blank. */
  lemma {:induction false} TornEraseIsBlank(before: seq<byte>, n: nat, i: nat, after: seq<byte>)
    requires n * SLOT_SIZE == |before| && i < n && TornWrite(before, i * SLOT_SIZE, ZERO_HEADER, after)
    ensures after == before || Views(after, n) == Views(before, n)[i := Blank]
  {
    var k :| 0 <= k <= |ZERO_HEADER| && after == Patch(before, i * SLOT_SIZE, ZERO_HEADER[..k]);
    if k == 0 {
      assert after == before;
    } else {
      ViewsFrame(before, n, i, 0, ZERO_HEADER[..k]);
      assert ZERO_HEADER[..k][0] == 0;
      ZeroByteIsBlank(Patch(Slot(before, i), 0, ZERO_HEADER[..k])[..HEADER_SIZE]);
    }
  }

  /** Every slot of a zero-filled file is blank. */
  lemma {:induction false} ZeroFileIsBlank(disk: seq<byte>, n: nat)
    requires n * SLOT_SIZE == |disk|
    requires forall k | 0 <= k < |disk| :: disk[k] == 0
    ensures forall i: nat | i < n :: Views(disk, n)[i] == Blank
  {
    forall i: nat | i < n
      ensures Views(disk, n)[i] == Blank
    {
      assert Slot(disk, i)[..HEADER_SIZE] == ZERO_HEADER;
      ZeroHeaderIsSeen(Slot(disk, i));
    }
  }
}
