/** The slot store of a storage node, running on a file. */
module ChunkFile {
  import opened Base
  import opened HeaderCodec
  import opened FlatFile
  import opened SlotImage
  import opened SlotStore
  import Crc32

  /** Writes header and payload of one chunk, then syncs if asked to. */
  method WriteChunkAt(file: DiskFile, slot: nat, header: seq<byte>, data: seq<byte>, fsync: bool) returns (r: Result<()>)
    requires |header| == HEADER_SIZE && |data| <= SLOT_DATA_SIZE && (slot + 1) * SLOT_SIZE <= |file.bytes|
    modifies file`bytes, file`durable
    ensures r.Ok? ==> file.bytes == Patch(old(file.bytes), slot * SLOT_SIZE, header + data)
    ensures r.Ok? ==> file.durable == if fsync then file.bytes else old(file.durable)
    ensures r.Err? ==> file.durable == old(file.durable)
    ensures OnlySlotChanged(old(file.bytes), file.bytes, slot)
    ensures file.reliable ==> r.Ok?
  {
    var offset := slot * SLOT_SIZE;
    ghost var before := file.bytes;
    r := WriteAllAt(file, header, offset);
    TornInsideSlot(before, slot, 0, header, file.bytes);
    if r.Err? {
      return;
    }
    assert data == [] ==> header + data == header;
    if data != [] {
      ghost var between := file.bytes;
      PatchTwice(before, offset, header, data);
      r := WriteAllAt(file, data, offset + HEADER_SIZE);
      TornInsideSlot(between, slot, HEADER_SIZE, data, file.bytes);
      OnlySlotTwice(before, between, file.bytes, slot);
      if r.Err? {
        return;
      }
    }
    if fsync {
      r := file.SyncData();
    }
  }

  lemma {:induction false} OnlySlotTwice(a: seq<byte>, b: seq<byte>, c: seq<byte>, slot: nat)
    requires OnlySlotChanged(a, b, slot) && OnlySlotChanged(b, c, slot)
    ensures OnlySlotChanged(a, c, slot)
  {
  }

  lemma {:induction false} TornInsideSlot(before: seq<byte>, slot: nat, at: nat, data: seq<byte>, after: seq<byte>)
    requires (slot + 1) * SLOT_SIZE <= |before| && at + |data| <= SLOT_SIZE
    requires TornWrite(before, slot * SLOT_SIZE + at, data, after)
    ensures OnlySlotChanged(before, after, slot)
  {
    var k :| 0 <= k <= |data| && after == Patch(before, slot * SLOT_SIZE + at, data[..k]);
    PatchInsideSlot(before, slot, at, data[..k]);
  }

  method ReadChunkHeader(file: DiskFile, slot: nat) returns (r: Result<ChunkHeader>)
    ensures r.Ok? ==> slot * SLOT_SIZE + HEADER_SIZE <= |file.bytes|
    ensures r.Ok? ==> r.value == FromBytes(file.bytes[slot * SLOT_SIZE..slot * SLOT_SIZE + HEADER_SIZE])
    ensures file.reliable && (slot + 1) * SLOT_SIZE <= |file.bytes| ==> r.Ok?
  {
    var bytes := ReadExactAt(file, HEADER_SIZE, slot * SLOT_SIZE);
    if bytes.Err? {
      return Err(bytes.error);
    }
    return Ok(FromBytes(bytes.value));
  }

  /** `data` is what the file holds for `len` bytes after the header of a slot, even past the slot's end. */
  ghost predicate Announced(bytes: seq<byte>, slot: nat, len: nat, data: seq<byte>) {
    var at := slot * SLOT_SIZE + HEADER_SIZE;
    at + len <= |bytes| && data == bytes[at..at + len]
  }

  /** Reads the header and, under the magic number, exactly the payload it announces. */
  method ReadChunk(file: DiskFile, slot: nat) returns (r: Result<(ChunkHeader, seq<byte>)>)
    requires (slot + 1) * SLOT_SIZE <= |file.bytes|
    ensures r.Ok? ==> r.value.0 == FromBytes(Slot(file.bytes, slot)[..HEADER_SIZE])
    ensures r.Ok? ==>
              match View(Slot(file.bytes, slot))
              case Chunk(id, data, intact) =>
                r.value.1 == data && r.value.0.id == id && (intact <==> Crc32.Checksum(data) == r.value.0.checksum)
              case Blank =>
                r.value.0.magic != MAGIC || r.value.0.dataLen > SLOT_DATA_SIZE
    ensures r.Ok? && r.value.0.magic == MAGIC ==> Announced(file.bytes, slot, r.value.0.dataLen, r.value.1)
    ensures file.reliable && View(Slot(file.bytes, slot)).Chunk? ==> r.Ok?
  {
    ghost var s := Slot(file.bytes, slot);
    var header := ReadChunkHeader(file, slot);
    if header.Err? {
      return Err(header.error);
    }
    assert s[..HEADER_SIZE] == file.bytes[slot * SLOT_SIZE..slot * SLOT_SIZE + HEADER_SIZE];
    if header.value.magic != MAGIC {
      return Ok((header.value, []));
    }
    var data := [];
    if header.value.dataLen > 0 {
      var read := ReadExactAt(file, header.value.dataLen, slot * SLOT_SIZE + HEADER_SIZE);
      if read.Err? {
        return Err(read.error);
      }
      data := read.value;
    }
    assert header.value.dataLen <= SLOT_DATA_SIZE ==> data == s[HEADER_SIZE..][..header.value.dataLen];
    return Ok((header.value, data));
  }

  class ChunkStore {
    const file: DiskFile
    var index: map<u64, nat>
    /** Stack of available slots: pop to allocate, push to free. */
    var freeSlots: seq<nat>
    const totalSlots: nat
    const policy: SyncPolicy
    var writeCounter: u64

    /** Slots neither indexed nor free: one per failed delete, and after a recovery one per further slot of an id. */
    ghost var lostSlots: nat
    ghost var log: SyncLog

    ghost predicate Sized()
      reads this, file
    {
      |file.bytes| == totalSlots * SLOT_SIZE && |file.durable| == totalSlots * SLOT_SIZE
    }

    ghost function State(): StoreState
      requires Sized()
      reads this, file
    {
      StoreState(Views(file.bytes, totalSlots), index, freeSlots)
    }

    /** The slot ledger: no slot has two uses, and every slot is accounted for. */
    ghost predicate Valid()
      reads this, file
    {
      && Sized()
      && State().Ledger()
      && |index| + |freeSlots| + lostSlots == totalSlots
    }

    /** The log leads from what the disk shows for certain to `state`. */
    ghost predicate Tracks(state: StoreState)
      reads this, file
    {
      && Sized()
      && log.synced.views == Views(file.durable, totalSlots)
      && LagBounded(log, state, policy, writeCounter)
    }

    ghost predicate Durable()
      reads this, file
    {
      Sized() && Tracks(State())
    }

    /** Opens the backing file; every slot starts out free. */
    constructor Open(content: seq<byte>, slots: nat, reliable: bool, policy: SyncPolicy)
      ensures fresh(file) && file.reliable == reliable && totalSlots == slots && this.policy == policy
      ensures file.bytes == file.durable == DiskFile.Resized(content, slots * SLOT_SIZE)
      ensures index == map[] && freeSlots == seq(slots, i => i)
      ensures Valid() && lostSlots == 0 && Durable() && log == SyncLog(State(), [])
    {
      this.file := new DiskFile(content, slots * SLOT_SIZE, reliable);
      this.index := map[];
      this.freeSlots := seq(slots, i => i);
      this.totalSlots := slots;
      this.policy := policy;
      this.writeCounter := 0;
      this.lostSlots := 0;
      new;
      log := SyncLog(State(), []);
    }

    method FindSlot() returns (slot: Option<nat>)
      modifies this`freeSlots
      ensures old(freeSlots) == [] ==> slot == None && freeSlots == []
      ensures old(freeSlots) != [] ==>
                slot == Some(old(freeSlots)[|old(freeSlots)| - 1]) && freeSlots == old(freeSlots)[..|old(freeSlots)| - 1]
    {
      if freeSlots == [] {
        return None;
      }
      slot := Some(freeSlots[|freeSlots| - 1]);
      freeSlots := freeSlots[..|freeSlots| - 1];
    }

    method ClearSlot(slot: nat)
      requires slot < totalSlots
      modifies this`freeSlots
      ensures freeSlots == old(freeSlots) + [slot]
    {
      freeSlots := freeSlots + [slot];
    }

    /** Counts the write and says whether it is to be followed by a sync. */
    method ShouldFsyncWrite() returns (fsync: bool)
      modifies this`writeCounter
      ensures policy.CountedWrite(old(writeCounter), writeCounter, fsync)
      ensures policy.Counts() ==> writeCounter == WrappingNext(old(writeCounter))
      ensures policy.Counts() ==> (fsync <==> writeCounter % policy.everyNWrites.value == 0)
      ensures !policy.Counts() ==> writeCounter == old(writeCounter) && !fsync
    {
      if policy.Counts() {
        NextCount(writeCounter, policy.everyNWrites.value);
        writeCounter := WrappingNext(writeCounter);
        return writeCounter % policy.everyNWrites.value == 0;
      }
      return false;
    }

    /** Writes a chunk to a slot, with a sync when the write counter calls for one. */
    method FillSlot(slot: nat, id: u64, data: seq<byte>) returns (r: Result<()>, fsync: bool)
      requires Sized() && slot < totalSlots && |data| <= SLOT_DATA_SIZE
      modifies this`writeCounter, file`bytes, file`durable
      ensures Sized() && OnlySlotChanged(old(file.bytes), file.bytes, slot)
      ensures Views(file.bytes, totalSlots) == old(Views(file.bytes, totalSlots))[slot := Views(file.bytes, totalSlots)[slot]]
      ensures r.Ok? ==> Views(file.bytes, totalSlots)[slot] == Chunk(id, data, true)
      ensures r.Ok? ==> file.durable == if fsync then file.bytes else old(file.durable)
      ensures policy.CountedWrite(old(writeCounter), writeCounter, fsync)
      ensures file.reliable ==> r.Ok?
    {
      WrittenChunkIsSeen(file.bytes, totalSlots, slot, id, data);
      fsync := ShouldFsyncWrite();
      var header := ToBytes(ChunkHeader(MAGIC, id, Crc32.Checksum(data), |data|));
      r := WriteChunkAt(file, slot, header, data, fsync);
      OtherSlotsUnchanged(old(file.bytes), file.bytes, totalSlots, slot);
    }

    /** Fills a slot just popped from the free stack of `before`, and indexes it. */
    method FillAndIndex(slot: nat, id: u64, data: seq<byte>, ghost before: StoreState) returns (r: Result<()>)
      requires Sized() && before == StoreState(Views(file.bytes, totalSlots), index, freeSlots + [slot])
      requires before.Ledger() && before.CanPut(id, data)
      modifies this`writeCounter, this`index, this`log, file`bytes, file`durable
      ensures Sized() && OnlySlotChanged(old(file.bytes), file.bytes, slot)
      ensures r.Ok? ==> State() == before.Put(id, data) && State().Ledger()
      ensures r.Err? ==> index == old(index)
      ensures old(Tracks(before)) && r.Ok? ==> Durable()
      ensures file.reliable ==> r.Ok?
    {
      ghost var count := writeCounter;
      assert before.free[|before.free| - 1] == slot;
      var fsync;
      r, fsync := FillSlot(slot, id, data);
      if r.Ok? {
        index := index[id := slot];
        assert State().views == before.views[slot := Chunk(id, data, true)];
        assert State() == before.Put(id, data);
        PutKeepsLedger(before, id, data);
        if old(Tracks(before)) {
          LagAfterPut(log, before, policy, count, writeCounter, PutOp(id, data), fsync);
        }
        log := Logged(log, PutOp(id, data), State(), fsync);
      }
    }

    /** Stores a chunk under a new id. A chunk that is about to be written must fit the slot. */
    method PutChunk(id: u64, data: seq<byte>) returns (r: Result<()>)
      requires Valid() && (|data| <= SLOT_DATA_SIZE || id in index || freeSlots == [])
      modifies this, file
      ensures Valid() && lostSlots == old(lostSlots)
      ensures id in old(index) ==> r == Err(AlreadyExists)
      ensures id !in old(index) && old(freeSlots) == [] ==> r == Err(StorageFull)
      ensures id in old(index) || old(freeSlots) == [] ==> State() == old(State()) && file.bytes == old(file.bytes)
      ensures r.Ok? ==> old(State().CanPut(id, data)) && State() == old(State().Put(id, data))
      ensures r.Err? ==> index == old(index) && freeSlots == old(freeSlots)
      ensures r.Err? && old(State().CanPut(id, data)) ==>
                OnlySlotChanged(old(file.bytes), file.bytes, old(freeSlots)[|old(freeSlots)| - 1])
      ensures file.reliable ==> (r.Ok? <==> old(State().CanPut(id, data)))
      ensures (r.Ok? || file.reliable) && old(Durable()) ==> Durable()
    {
      ghost var before := State();
      if id in index {
        return Err(AlreadyExists);
      }
      var slot := FindSlot();
      if slot.None? {
        return Err(StorageFull);
      }
      assert freeSlots + [slot.value] == before.free;
      r := FillAndIndex(slot.value, id, data, before);
      if r.Err? {
        ClearSlot(slot.value);
        assert State().Ledger() by {
          assert State().index == before.index && State().free == before.free && |State().views| == |before.views|;
        }
      }
    }

    /** Returns a chunk and its checksum. */
    method GetChunk(id: u64) returns (r: Result<(seq<byte>, u32)>)
      requires Valid()
      ensures id !in index ==> r == Err(NotFound)
      ensures r.Ok? ==>
                var header := FromBytes(Slot(file.bytes, index[id])[..HEADER_SIZE]);
                && header.magic == MAGIC && Announced(file.bytes, index[id], header.dataLen, r.value.0)
                && header.checksum == r.value.1 == Crc32.Checksum(r.value.0)
      ensures r.Ok? && State().views[index[id]].Chunk? ==>
                State().views[index[id]].intact && r.value == (State().Contents()[id], Crc32.Checksum(State().Contents()[id]))
      ensures id in index && State().views[index[id]].Chunk? && !State().views[index[id]].intact ==> r.Err?
      ensures file.reliable && id in index && State().views[index[id]].Chunk? && State().views[index[id]].intact ==> r.Ok?
      ensures file.reliable && State().Consistent(false) ==>
                (r.Ok? <==> id in index) && (r.Ok? ==> id in State().Contents() && r.value.0 == State().Contents()[id])
    {
      if id !in index {
        return Err(NotFound);
      }
      var read := ReadChunk(file, index[id]);
      if read.Err? {
        return Err(read.error);
      }
      var (header, data) := read.value;
      if header.magic != MAGIC {
        return Err(InvalidData);
      }
      if header.checksum != Crc32.Checksum(data) {
        return Err(InvalidData);
      }
      return Ok((data, header.checksum));
    }

    /** Zeroes the header of a slot on disk so that a recovery will not find the chunk. */
    method Erase(slot: nat) returns (r: Result<()>)
      requires Sized() && slot < totalSlots
      modifies file`bytes, file`durable
      ensures Sized() && OnlySlotChanged(old(file.bytes), file.bytes, slot)
      ensures Views(file.bytes, totalSlots) == old(Views(file.bytes, totalSlots))[slot := Views(file.bytes, totalSlots)[slot]]
      ensures r.Ok? ==> Views(file.bytes, totalSlots)[slot] == Blank
      ensures file.bytes == old(file.bytes) || Views(file.bytes, totalSlots)[slot] == Blank
      ensures r.Ok? ==> file.durable == if policy.onDelete then file.bytes else old(file.durable)
      ensures file.reliable ==> r.Ok?
    {
      ghost var before := file.bytes;
      ErasedSlotIsBlank(before, totalSlots, slot);
      r := WriteAllAt(file, ZERO_HEADER, slot * SLOT_SIZE);
      TornInsideSlot(before, slot, 0, ZERO_HEADER, file.bytes);
      TornEraseIsBlank(before, totalSlots, slot, file.bytes);
      OtherSlotsUnchanged(before, file.bytes, totalSlots, slot);
      if r.Ok? && policy.onDelete {
        r := file.SyncData();
      }
    }

    /** Erases and frees the slot of `id`, which `before` still indexes. */
    method EraseAndFree(slot: nat, id: u64, ghost before: StoreState) returns (r: Result<()>)
      requires Sized() && before.Ledger() && id in before.index && slot == before.index[id]
      requires State() == before.(index := before.index - {id})
      modifies this`freeSlots, this`log, file`bytes, file`durable
      ensures Sized() && OnlySlotChanged(old(file.bytes), file.bytes, slot)
      ensures r.Ok? ==> State() == before.Delete(id) && State().Ledger()
      ensures r.Err? ==> State() == FailedDelete(before, id, file.bytes != old(file.bytes))
      ensures r.Ok? && old(Tracks(before)) ==> Durable()
      ensures file.reliable ==> r.Ok?
    {
      r := Erase(slot);
      if r.Ok? {
        ClearSlot(slot);
        DeleteKeepsLedger(before, id);
        assert State().views == before.views[slot := Blank];
        assert State() == before.Delete(id);
        if old(Tracks(before)) {
          LagAfterDelete(log, before, policy, writeCounter, DeleteOp(id));
        }
        log := Logged(log, DeleteOp(id), State(), policy.onDelete);
      }
    }

    /** Forgets a chunk: drops it from the index, zeroes its header and frees its slot. */
    method DeleteChunk(id: u64) returns (r: Result<()>)
      requires Valid()
      modifies this, file
      ensures Valid()
      ensures id !in old(index) ==> r.Ok? && file.bytes == old(file.bytes)
      ensures r.Ok? ==> State() == old(State().Delete(id)) && lostSlots == old(lostSlots)
      ensures r.Err? ==> id in old(index)
      ensures r.Err? ==> State() == FailedDelete(old(State()), id, file.bytes != old(file.bytes))
      ensures r.Err? ==> lostSlots == old(lostSlots) + 1
      ensures id in old(index) ==> OnlySlotChanged(old(file.bytes), file.bytes, old(index)[id])
      ensures file.reliable ==> r.Ok?
      ensures r.Ok? && old(Durable()) ==> Durable()
    {
      ghost var before := State();
      r := Ok(());
      if id in index {
        var slot := index[id];
        index := index - {id};
        r := EraseAndFree(slot, id, before);
        if r.Err? {
          lostSlots := lostSlots + 1;
        }
      }
    }

    /** What a recovery scan makes of one slot. */
    method ScanSlot(i: nat, fast: bool) returns (r: Result<Option<u64>>)
      requires Sized() && i < totalSlots
      ensures r.Ok? ==> r.value == Views(file.bytes, totalSlots)[i].Mark(fast)
      ensures file.reliable ==> r.Ok?
    {
      ghost var slot := Slot(file.bytes, i);
      var header := ReadChunkHeader(file, i);
      if header.Err? {
        return Err(header.error);
      }
      assert slot[..HEADER_SIZE] == file.bytes[i * SLOT_SIZE..i * SLOT_SIZE + HEADER_SIZE];
      if header.value.magic != MAGIC || header.value.dataLen > SLOT_DATA_SIZE {
        return Ok(None);
      }
      if fast {
        return Ok(Some(header.value.id));
      }
      var read := ReadChunk(file, i);
      if read.Err? {
        return Err(read.error);
      }
      if header.value.checksum != Crc32.Checksum(read.value.1) {
        return Ok(None);
      }
      return Ok(Some(header.value.id));
    }

    /** Scans the slots in ascending order until the end or the first failing read. */
    method ScanSlots(slotCount: nat, fast: bool) returns (r: Result<()>)
      requires Sized() && slotCount == totalSlots
      modifies this`index, this`freeSlots
      ensures r.Ok? ==> State() == RecoveredState(Views(file.bytes, totalSlots), fast)
      ensures State().Ledger() && |index| + |freeSlots| <= totalSlots
      ensures r.Ok? ==> (|index| + |freeSlots| == totalSlots <==> AcceptedOnce(Views(file.bytes, totalSlots), fast))
      ensures file.reliable ==> r.Ok?
    {
      ghost var views := Views(file.bytes, totalSlots);
      index := map[];
      freeSlots := [];
      var i := 0;
      while i < slotCount
        invariant 0 <= i <= slotCount
        invariant Recovery(index, freeSlots) == Scan(views[..i], fast)
      {
        var mark := ScanSlot(i, fast);
        if mark.Err? {
          ScanKeepsLedger(views, i, fast);
          return Err(mark.error);
        }
        ScanStep(views, i, fast);
        match mark.value {
          case Some(id) => index := index[id := i];
          case None => freeSlots := freeSlots + [i];
        }
        i := i + 1;
      }
      assert views[..i] == views;
      WholeScan(views, fast);
      return Ok(());
    }

    /** Rebuilds index and free stack from the file. */
    method RecoverIndex(fast: bool) returns (r: Result<()>)
      requires Sized()
      modifies this
      ensures Valid()
      ensures r.Ok? ==> State() == RecoveredState(Views(file.bytes, totalSlots), fast)
      ensures r.Ok? ==> (lostSlots == 0 <==> AcceptedOnce(Views(file.bytes, totalSlots), fast))
      ensures r.Ok? && file.durable == file.bytes ==> Durable() && log == SyncLog(State(), [])
      ensures file.reliable ==> r.Ok?
    {
      r := ScanSlots(|file.bytes| / SLOT_SIZE, fast);
      lostSlots := totalSlots - |index| - |freeSlots|;
      if file.durable == file.bytes {
        log := SyncLog(State(), []);
      }
    }
  }

  /** The counter's wrap-around to zero never lengthens the distance to the next sync. */
  lemma {:induction false} NextCount(c: u64, n: nat)
    requires n > 0
    ensures WrappingNext(c) % n == 0 || WrappingNext(c) % n == c % n + 1
  {
    if c == U64_MAX {
      ModOfSum(0, 0, n);
    } else {
      NextRemainder(c, n);
    }
  }

  lemma {:induction false} NextRemainder(c: nat, n: nat)
    requires n > 0
    ensures (c + 1) % n == if c % n == n - 1 then 0 else c % n + 1
  {
    var q, r := c / n, c % n;
    assert c + 1 == q * n + (r + 1);
    if r == n - 1 {
      assert c + 1 == (q + 1) * n;
      ModOfSum(q + 1, 0, n);
    } else {
      ModOfSum(q, r + 1, n);
    }
  }

  lemma {:induction false} ModOfSum(q: nat, r: nat, n: nat)
    requires r < n
    ensures (q * n + r) % n == r
  {
    var x := q * n + r;
    var d := x / n - q;
    assert x == (x / n) * n + x % n;
    assert d * n == r - x % n;
    MultipleGrows(d, n);
  }

  lemma {:induction false} MultipleGrows(d: int, n: int)
    requires n > 0
    ensures d >= 1 ==> d * n >= n
    ensures d <= -1 ==> d * n <= -n
  {
    if d >= 1 {
      assert d * n == (d - 1) * n + n;
    }
    if d <= -1 {
      assert d * n == (d + 1) * n - n;
    }
  }
}
