/**
 * Restarting a storage node: after a clean stop, and after a crash in the middle of an
 * operation. A crash keeps or loses the 24-byte header as a whole; payload bytes may be torn
 * in any way.
 */
module CrashRecovery {
  import opened Base
  import opened HeaderCodec
  import opened FlatFile
  import opened SlotImage
  import opened SlotStore
  import opened ChunkFile
  import Crc32

  /** Starts a storage node: opens its file, and recovers the index if the file was there before. */
  method Construct(existing: Option<seq<byte>>, slots: nat, reliable: bool, policy: SyncPolicy, fast: bool)
    returns (r: Result<ChunkStore>)
    ensures r.Ok? ==> fresh(r.value) && r.value.Valid() && r.value.Durable() && r.value.totalSlots == slots
    ensures r.Ok? ==> r.value.log == SyncLog(r.value.State(), []) && r.value.file.reliable == reliable && r.value.policy == policy
    ensures r.Ok? && existing.None? ==>
              r.value.index == map[] && r.value.State().Consistent(false) && r.value.State().Consistent(true)
    ensures r.Ok? && existing.Some? ==>
              var bytes := DiskFile.Resized(existing.value, slots * SLOT_SIZE);
              && (|existing.value| == slots * SLOT_SIZE ==> bytes == existing.value)
              && r.value.file.bytes == bytes && r.value.State() == RecoveredState(Views(bytes, slots), fast)
    ensures reliable ==> r.Ok?
  {
    var content := if existing.Some? then existing.value else [];
    var store := new ChunkStore.Open(content, slots, reliable, policy);
    if existing.None? {
      ZeroFileIsBlank(store.file.bytes, slots);
      FreshIsConsistent(store.State(), false);
      FreshIsConsistent(store.State(), true);
    } else {
      var recovered := store.RecoverIndex(fast);
      if recovered.Err? {
        return Err(recovered.error);
      }
    }
    return Ok(store);
  }

  lemma {:induction false} UniqueMarks(t: StoreState, fast: bool)
    requires t.Consistent(fast)
    ensures AcceptedOnce(t.views, fast)
  {
  }

  /** Restarting on the slots of a consistent store finds a consistent store with the same chunks. */
  lemma {:induction false} CleanRestart(t: StoreState, fast: bool)
    requires t.Consistent(fast)
    ensures var r := RecoveredState(t.views, fast);
            r.Consistent(fast) && r.index == t.index && r.Contents() == t.Contents()
  {
    RecoveredIndex(t, fast);
    UniqueMarks(t, fast);
    RecoveredIsConsistent(t.views, fast);
  }

  /** What recovery finds when one free slot comes to show `shown`: of two slots with one id the higher counts. */
  ghost function WithSlotShowing(s: StoreState, slot: nat, shown: SlotView): map<u64, seq<byte>> {
    match shown.Mark(false)
    case None => s.Contents()
    case Some(id) =>
      if id in s.index && slot < s.index[id] then s.Contents() else s.Contents()[id := shown.data]
  }

  ghost function HigherIndexed(s: StoreState, slot: nat, shown: SlotView): map<u64, nat> {
    match shown.Mark(false)
    case None => s.index
    case Some(id) => if id in s.index && slot < s.index[id] then s.index else s.index[id := slot]
  }

  /** What `ScanIndex` says of the index that a scan of these slots builds. */
  ghost predicate IndexesHighest(views: seq<SlotView>, index: map<u64, nat>) {
    && (forall id | id in index :: index[id] < |views| && views[index[id]].Mark(false) == Some(id))
    && (forall i: nat | i < |views| && views[i].Mark(false).Some? ::
          views[i].Mark(false).value in index && i <= index[views[i].Mark(false).value])
  }

  lemma {:induction false} HigherIsIndexed(s: StoreState, index: map<u64, nat>, slot: nat, shown: SlotView, id: u64)
    requires s.Consistent(false) && slot < |s.views| && slot in s.free && IndexesHighest(s.views[slot := shown], index)
    ensures id in index <==> id in HigherIndexed(s, slot, shown)
    ensures id in index ==> index[id] == HigherIndexed(s, slot, shown)[id]
  {
    var views := s.views[slot := shown];
    assert views[slot] == shown;
    if id in s.index {
      assert s.index[id] != slot && views[s.index[id]].Mark(false) == Some(id);
    }
    if id in index && index[id] != slot {
      assert s.views[index[id]].Mark(false) == Some(id);
    }
  }

  lemma {:induction false} IndexOfRewritten(s: StoreState, slot: nat, shown: SlotView)
    requires s.Consistent(false) && slot < |s.views| && slot in s.free
    ensures RecoveredState(s.views[slot := shown], false).index == HigherIndexed(s, slot, shown)
  {
    var index := RecoveredState(s.views[slot := shown], false).index;
    ScanIndex(s.views[slot := shown], false);
    assert IndexesHighest(s.views[slot := shown], index);
    forall id
      ensures id in index <==> id in HigherIndexed(s, slot, shown)
      ensures id in index ==> index[id] == HigherIndexed(s, slot, shown)[id]
    {
      HigherIsIndexed(s, index, slot, shown, id);
    }
  }

  /** What a store stands for when every index entry points at a chunk. */
  lemma {:induction false} ContentsKeys(s: StoreState)
    requires forall id | id in s.index :: s.index[id] < |s.views| && s.views[s.index[id]].Chunk?
    ensures s.Contents().Keys == s.index.Keys
    ensures forall id | id in s.index :: s.Contents()[id] == s.views[s.index[id]].data
  {
  }

  lemma {:induction false} ChunkOfRewritten(s: StoreState, slot: nat, shown: SlotView, id: u64)
    requires s.Consistent(false) && slot < |s.views| && slot in s.free && id in HigherIndexed(s, slot, shown)
    requires s.Contents().Keys == s.index.Keys && forall x | x in s.index :: s.Contents()[x] == s.views[s.index[x]].data
    ensures var i := HigherIndexed(s, slot, shown)[id];
            && i < |s.views| && s.views[slot := shown][i].Chunk?
            && id in WithSlotShowing(s, slot, shown) && WithSlotShowing(s, slot, shown)[id] == s.views[slot := shown][i].data
  {
    if id in s.index {
      assert s.index[id] != slot && s.views[s.index[id]].Mark(false) == Some(id);
    }
  }

  lemma {:induction false} KeysOfRewritten(s: StoreState, slot: nat, shown: SlotView)
    requires s.Contents().Keys == s.index.Keys
    ensures WithSlotShowing(s, slot, shown).Keys == HigherIndexed(s, slot, shown).Keys
  {
  }

  lemma {:induction false} IsContents(t: StoreState, m: map<u64, seq<byte>>)
    requires m.Keys == t.index.Keys
    requires forall id | id in m :: t.index[id] < |t.views| && t.views[t.index[id]].Chunk? && m[id] == t.views[t.index[id]].data
    ensures t.Contents() == m
  {
    ContentsKeys(t);
  }

  lemma {:induction false} ContentsOfRewritten(s: StoreState, t: StoreState, slot: nat, shown: SlotView)
    requires s.Consistent(false) && slot < |s.views| && slot in s.free
    requires t.views == s.views[slot := shown] && t.index == HigherIndexed(s, slot, shown)
    ensures t.Contents() == WithSlotShowing(s, slot, shown)
  {
    ContentsKeys(s);
    KeysOfRewritten(s, slot, shown);
    var m := WithSlotShowing(s, slot, shown);
    forall id | id in m
      ensures t.index[id] < |t.views| && t.views[t.index[id]].Chunk? && m[id] == t.views[t.index[id]].data
    {
      ChunkOfRewritten(s, slot, shown, id);
    }
    IsContents(t, m);
  }

  /** Rewriting a free slot in any way changes what recovery finds by at most the chunk that this slot now shows. */
  lemma {:induction false} OneSlotRewritten(s: StoreState, slot: nat, shown: SlotView)
    requires s.Consistent(false) && slot < |s.views| && slot in s.free
    ensures RecoveredState(s.views[slot := shown], false).Contents() == WithSlotShowing(s, slot, shown)
  {
    IndexOfRewritten(s, slot, shown);
    ContentsOfRewritten(s, RecoveredState(s.views[slot := shown], false), slot, shown);
  }

  /** It stays consistent unless this slot shows an id that is stored elsewhere. */
  lemma {:induction false} RewrittenIsConsistent(s: StoreState, slot: nat, shown: SlotView)
    requires s.Consistent(false) && slot < |s.views| && slot in s.free
    ensures RecoveredState(s.views[slot := shown], false).Consistent(false) <==>
            (shown.Mark(false).Some? ==> shown.Mark(false).value !in s.index)
  {
    var views := s.views[slot := shown];
    UniqueMarks(s, false);
    RecoveredIsConsistent(views, false);
    if shown.Mark(false).Some? && shown.Mark(false).value in s.index {
      var j := s.index[shown.Mark(false).value];
      assert views[j].Mark(false) == views[slot].Mark(false);
      assert j < slot || slot < j;
    }
  }

  // ---------------------------------------------------------------------------------------
  // A crash in the middle of a put
  // ---------------------------------------------------------------------------------------

  function HeaderBytes(disk: seq<byte>, slot: nat): seq<byte>
    requires (slot + 1) * SLOT_SIZE <= |disk|
  {
    Slot(disk, slot)[..HEADER_SIZE]
  }

  function ChunkHeaderFor(id: u64, data: seq<byte>): ChunkHeader
    requires |data| <= SLOT_DATA_SIZE
  {
    ChunkHeader(MAGIC, id, Crc32.Checksum(data), |data|)
  }

  /** The header of the chunk being put reached the disk; if not, the old one is still there. */
  ghost predicate HeaderLanded(image: seq<byte>, slot: nat, id: u64, data: seq<byte>)
    requires |data| <= SLOT_DATA_SIZE && (slot + 1) * SLOT_SIZE <= |image|
  {
    HeaderBytes(image, slot) == ToBytes(ChunkHeaderFor(id, data))
  }

  /** A disk image that a crash inside `PutChunk(id, data)` may leave when it was writing to `slot`. */
  ghost predicate PutCrashImage(disk: seq<byte>, image: seq<byte>, slot: nat, id: u64, data: seq<byte>) {
    && |data| <= SLOT_DATA_SIZE
    && (slot + 1) * SLOT_SIZE <= |disk|
    && OnlySlotChanged(disk, image, slot)
    && (HeaderLanded(image, slot, id, data) || HeaderBytes(image, slot) == HeaderBytes(disk, slot))
  }

  /** The payload bytes found where `len` bytes were to be written. */
  function TornPayload(image: seq<byte>, slot: nat, len: nat): (torn: seq<byte>)
    requires (slot + 1) * SLOT_SIZE <= |image| && len <= SLOT_DATA_SIZE
    ensures |torn| == len
  {
    Slot(image, slot)[HEADER_SIZE..][..len]
  }

  /** Under the new header the slot shows the torn payload, intact iff its checksum is the intended one. */
  lemma {:induction false} LandedHeaderShows(image: seq<byte>, slot: nat, id: u64, data: seq<byte>)
    requires |data| <= SLOT_DATA_SIZE && (slot + 1) * SLOT_SIZE <= |image|
    requires HeaderLanded(image, slot, id, data)
    ensures var torn := TornPayload(image, slot, |data|);
            View(Slot(image, slot)) == Chunk(id, torn, Crc32.Checksum(torn) == Crc32.Checksum(data))
  {
    HeaderRoundTrip(ChunkHeaderFor(id, data));
  }

  /** Under the old header the slot shows a chunk iff it did before, with the same id and length. */
  lemma {:induction false} OldHeaderShows(disk: seq<byte>, image: seq<byte>, slot: nat)
    requires (slot + 1) * SLOT_SIZE <= |disk| == |image|
    requires HeaderBytes(image, slot) == HeaderBytes(disk, slot)
    ensures match View(Slot(disk, slot))
            case Blank => View(Slot(image, slot)) == Blank
            case Chunk(id, data, _) => View(Slot(image, slot)).Chunk? && View(Slot(image, slot)).id == id &&
                                       |View(Slot(image, slot)).data| == |data|
  {
  }

  /** What a slow recovery finds after the crash, as a map. */
  ghost function ContentsAfterCrash(image: seq<byte>, total: nat): map<u64, seq<byte>>
    requires total * SLOT_SIZE <= |image|
  {
    RecoveredState(Views(image, total), false).Contents()
  }

  /** The map that recovery should find, case by case. */
  ghost function FoundAfterCrash(s: StoreState, image: seq<byte>, slot: nat, id: u64, data: seq<byte>): map<u64, seq<byte>>
    requires |data| <= SLOT_DATA_SIZE && (slot + 1) * SLOT_SIZE <= |image|
  {
    var torn := TornPayload(image, slot, |data|);
    if !HeaderLanded(image, slot, id, data) then WithSlotShowing(s, slot, View(Slot(image, slot)))
    else if Crc32.Checksum(torn) == Crc32.Checksum(data) then s.Contents()[id := torn]
    else s.Contents()
  }

  /** Recovery from this image finds the chunks of `s`, whatever it finds under `id`. */
  ghost predicate FindsTheOthers(s: StoreState, image: seq<byte>, total: nat, id: u64) {
    total * SLOT_SIZE <= |image| && ContentsAfterCrash(image, total) - {id} == s.Contents()
  }

  /** A store over `disk` that is about to put `data` under `id` into `slot`. */
  ghost predicate Putting(s: StoreState, disk: seq<byte>, total: nat, slot: nat, id: u64, data: seq<byte>) {
    && |disk| == total * SLOT_SIZE && s.views == Views(disk, total)
    && s.Consistent(false) && s.CanPut(id, data)
    && slot == s.free[|s.free| - 1] && slot < total && (slot + 1) * SLOT_SIZE <= |disk|
  }

  /**
   * A crash inside a put, exactly. If the new header landed, recovery finds the new id iff the payload has the
   * intended checksum. If not, it finds the old chunks, unless the slot carried the header of a chunk that an
   * earlier recovery had rejected, and the payload now matches that header: then the rejected chunk comes back.
   */
  lemma {:induction false} CrashInPutExactly(s: StoreState, disk: seq<byte>, image: seq<byte>, total: nat, slot: nat, id: u64, data: seq<byte>)
    requires Putting(s, disk, total, slot, id, data)
    requires PutCrashImage(disk, image, slot, id, data) && |image| == |disk|
    ensures ContentsAfterCrash(image, total) == FoundAfterCrash(s, image, slot, id, data)
    ensures RecoveredState(Views(image, total), false).Consistent(false) <==>
            (View(Slot(image, slot)).Mark(false).Some? ==> View(Slot(image, slot)).Mark(false).value !in s.index)
  {
    PopFree(s.free);
    OtherSlotsUnchanged(disk, image, total, slot);
    if HeaderLanded(image, slot, id, data) {
      LandedHeaderShows(image, slot, id, data);
    }
    OneSlotRewritten(s, slot, View(Slot(image, slot)));
    RewrittenIsConsistent(s, slot, View(Slot(image, slot)));
  }

  /**
   * The slot about to be filled carries the header of another chunk, and some payload under it would be accepted
   * and change the map. All of this can be read off the disk before the put.
   */
  ghost predicate CanRevive(s: StoreState, header: ChunkHeader, slot: nat, id: u64) {
    && header.magic == MAGIC && header.dataLen <= SLOT_DATA_SIZE && header.id != id
    && (header.id in s.index ==> s.index[header.id] < slot)
    && exists payload :: Revives(s, header, payload)
  }

  ghost predicate Revives(s: StoreState, header: ChunkHeader, payload: seq<byte>) {
    && |payload| == header.dataLen && Crc32.Checksum(payload) == header.checksum
    && (header.id in s.Contents() ==> payload != s.Contents()[header.id])
  }

  /** Such a payload reaching the disk without the new header is a possible crash image. */
  lemma {:induction false} RevivingImage(disk: seq<byte>, slot: nat, id: u64, data: seq<byte>, header: ChunkHeader, payload: seq<byte>)
    returns (image: seq<byte>)
    requires (slot + 1) * SLOT_SIZE <= |disk| && |data| <= SLOT_DATA_SIZE
    requires header == FromBytes(HeaderBytes(disk, slot)) && header.magic == MAGIC && header.id != id
    requires |payload| == header.dataLen <= SLOT_DATA_SIZE && Crc32.Checksum(payload) == header.checksum
    ensures PutCrashImage(disk, image, slot, id, data) && |image| == |disk| && !HeaderLanded(image, slot, id, data)
    ensures View(Slot(image, slot)) == Chunk(header.id, payload, true)
  {
    image := Patch(disk, slot * SLOT_SIZE + HEADER_SIZE, payload);
    PatchInsideSlot(disk, slot, HEADER_SIZE, payload);
    PatchInside(disk, slot * SLOT_SIZE, (slot + 1) * SLOT_SIZE, HEADER_SIZE, payload);
    assert Slot(image, slot) == Patch(Slot(disk, slot), HEADER_SIZE, payload);
    assert HeaderBytes(image, slot) == HeaderBytes(disk, slot);
    assert Slot(image, slot)[HEADER_SIZE..][..|payload|] == payload;
    HeaderRoundTrip(ChunkHeaderFor(id, data));
  }

  lemma {:induction false} ApartFrom(m: map<u64, seq<byte>>, id: u64, k: u64, v: seq<byte>)
    requires id !in m
    ensures m - {id} == m && (m[k := v] - {id} == m <==> k == id || (k in m && m[k] == v))
  {
    assert k != id ==> k in m[k := v] - {id};
  }

  /** What the slot shows once the payload may have changed under its header. */
  ghost predicate ShownUnder(header: ChunkHeader, shown: SlotView) {
    shown.Mark(false).Some? ==>
      && header.magic == MAGIC && header.dataLen <= SLOT_DATA_SIZE && shown.id == header.id
      && |shown.data| == header.dataLen && Crc32.Checksum(shown.data) == header.checksum
  }

  lemma {:induction false} OldHeaderBounds(disk: seq<byte>, image: seq<byte>, slot: nat)
    requires (slot + 1) * SLOT_SIZE <= |disk| == |image|
    requires HeaderBytes(image, slot) == HeaderBytes(disk, slot)
    ensures ShownUnder(FromBytes(HeaderBytes(disk, slot)), View(Slot(image, slot)))
  {
  }

  /** Under a header that revives nothing, whatever the slot comes to show leaves the other ids as they were. */
  lemma {:induction false} UnrevivedIsSame(s: StoreState, slot: nat, id: u64, header: ChunkHeader, shown: SlotView)
    requires s.Consistent(false) && slot in s.free && id !in s.index && !CanRevive(s, header, slot, id)
    requires ShownUnder(header, shown)
    ensures WithSlotShowing(s, slot, shown) - {id} == s.Contents()
  {
    ContentsKeys(s);
    ApartFrom(s.Contents(), id, id, []);
    if shown.Mark(false).Some? {
      ApartFrom(s.Contents(), id, shown.id, shown.data);
      assert Revives(s, header, shown.data) || (shown.id in s.Contents() && shown.data == s.Contents()[shown.id]);
      assert shown.id in s.index ==> s.index[shown.id] != slot;
    }
  }

  /** And one that revives a chunk changes another id than the one being put. */
  lemma {:induction false} RevivedDiffers(s: StoreState, slot: nat, id: u64, header: ChunkHeader, payload: seq<byte>)
    requires s.Consistent(false) && id !in s.index && header.id != id && Revives(s, header, payload)
    requires header.id in s.index ==> s.index[header.id] < slot
    ensures WithSlotShowing(s, slot, Chunk(header.id, payload, true)) - {id} != s.Contents()
  {
    ContentsKeys(s);
    ApartFrom(s.Contents(), id, header.id, payload);
  }

  lemma {:induction false} LandedIsSame(s: StoreState, image: seq<byte>, slot: nat, id: u64, data: seq<byte>)
    requires s.Consistent(false) && id !in s.index
    requires |data| <= SLOT_DATA_SIZE && (slot + 1) * SLOT_SIZE <= |image| && HeaderLanded(image, slot, id, data)
    ensures FoundAfterCrash(s, image, slot, id, data) - {id} == s.Contents()
  {
    ContentsKeys(s);
    ApartFrom(s.Contents(), id, id, TornPayload(image, slot, |data|));
  }

  /** On one crash image, with nothing to revive, only the id being put can differ from the old map. */
  lemma {:induction false} NothingRevived(s: StoreState, disk: seq<byte>, image: seq<byte>, total: nat, slot: nat, id: u64, data: seq<byte>)
    requires Putting(s, disk, total, slot, id, data)
    requires PutCrashImage(disk, image, slot, id, data)
    requires !CanRevive(s, FromBytes(HeaderBytes(disk, slot)), slot, id)
    ensures FindsTheOthers(s, image, total, id)
  {
    CrashInPutExactly(s, disk, image, total, slot, id, data);
    if HeaderLanded(image, slot, id, data) {
      LandedIsSame(s, image, slot, id, data);
    } else {
      PopFree(s.free);
      OldHeaderBounds(disk, image, slot);
      UnrevivedIsSame(s, slot, id, FromBytes(HeaderBytes(disk, slot)), View(Slot(image, slot)));
    }
  }

  lemma {:induction false} ImageShowing(s: StoreState, disk: seq<byte>, image: seq<byte>, total: nat, slot: nat, id: u64, data: seq<byte>, shown: SlotView)
    requires Putting(s, disk, total, slot, id, data)
    requires PutCrashImage(disk, image, slot, id, data) && |image| == |disk|
    requires !HeaderLanded(image, slot, id, data) && View(Slot(image, slot)) == shown
    ensures ContentsAfterCrash(image, total) == WithSlotShowing(s, slot, shown)
  {
    CrashInPutExactly(s, disk, image, total, slot, id, data);
  }

  lemma {:induction false} ReviveOne(s: StoreState, disk: seq<byte>, total: nat, slot: nat, id: u64, data: seq<byte>, header: ChunkHeader, payload: seq<byte>)
    returns (image: seq<byte>)
    requires Putting(s, disk, total, slot, id, data) && |data| <= SLOT_DATA_SIZE && (slot + 1) * SLOT_SIZE <= |disk|
    requires header == FromBytes(HeaderBytes(disk, slot)) && header.magic == MAGIC && header.dataLen <= SLOT_DATA_SIZE
    requires header.id != id && (header.id in s.index ==> s.index[header.id] < slot) && Revives(s, header, payload)
    ensures PutCrashImage(disk, image, slot, id, data) && !FindsTheOthers(s, image, total, id)
  {
    RevivedDiffers(s, slot, id, header, payload);
    image := RevivingImage(disk, slot, id, data, header, payload);
    ImageShowing(s, disk, image, total, slot, id, data, Chunk(header.id, payload, true));
  }

  /** With something to revive, some crash image shows it. */
  lemma {:induction false} RevivalShows(s: StoreState, disk: seq<byte>, total: nat, slot: nat, id: u64, data: seq<byte>)
    requires Putting(s, disk, total, slot, id, data) && CanRevive(s, FromBytes(HeaderBytes(disk, slot)), slot, id)
    ensures exists image :: PutCrashImage(disk, image, slot, id, data) && !FindsTheOthers(s, image, total, id)
  {
    var header := FromBytes(HeaderBytes(disk, slot));
    var payload :| Revives(s, header, payload);
    var image := ReviveOne(s, disk, total, slot, id, data, header, payload);
  }

  /**
   * Whatever image a crash inside the put leaves, recovery finds the old map apart from the id being put - if and
   * only if the slot does not carry the header of a rejected chunk that some payload would bring back.
   */
  lemma {:induction false} CrashInPutIff(s: StoreState, disk: seq<byte>, total: nat, slot: nat, id: u64, data: seq<byte>)
    requires Putting(s, disk, total, slot, id, data)
    ensures (forall image | PutCrashImage(disk, image, slot, id, data) :: FindsTheOthers(s, image, total, id)) <==>
            !CanRevive(s, FromBytes(HeaderBytes(disk, slot)), slot, id)
  {
    var header := FromBytes(HeaderBytes(disk, slot));
    if CanRevive(s, header, slot, id) {
      RevivalShows(s, disk, total, slot, id, data);
    } else {
      forall image | PutCrashImage(disk, image, slot, id, data)
        ensures FindsTheOthers(s, image, total, id)
      {
        NothingRevived(s, disk, image, total, slot, id, data);
      }
    }
  }

  /**
   * On a store whose free slots carry no leftover headers, then: the old chunks, all unchanged, and the new id
   * iff its header landed and the payload has the intended checksum. In particular the whole chunk is there
   * when all of it was written.
   */
  lemma {:induction false} CrashInPut(s: StoreState, disk: seq<byte>, image: seq<byte>, total: nat, slot: nat, id: u64, data: seq<byte>)
    requires Putting(s, disk, total, slot, id, data) && s.Consistent(true)
    requires PutCrashImage(disk, image, slot, id, data) && |image| == |disk|
    ensures var torn := TornPayload(image, slot, |data|);
            var survived := HeaderLanded(image, slot, id, data) && Crc32.Checksum(torn) == Crc32.Checksum(data);
            && RecoveredState(Views(image, total), false).Consistent(false)
            && ContentsAfterCrash(image, total) == if survived then s.Contents()[id := torn] else s.Contents()
  {
    PopFree(s.free);
    BlankIfFree(s, slot);
    CrashInPutExactly(s, disk, image, total, slot, id, data);
    if HeaderLanded(image, slot, id, data) {
      LandedHeaderShows(image, slot, id, data);
    } else {
      OldHeaderShows(disk, image, slot);
    }
  }

  lemma {:induction false} BlankIfFree(s: StoreState, slot: nat)
    requires s.Consistent(true) && slot in s.free && slot < |s.views|
    ensures s.views[slot] == Blank
  {
  }

  // ---------------------------------------------------------------------------------------
  // A rejected chunk that comes back
  // ---------------------------------------------------------------------------------------

  /** Such a payload exists: a one-byte chunk torn to zero is rejected, and accepted once the byte is right. */
  lemma {:induction false} LeftoverExists(id: u64, body: seq<byte>)
    requires |body| == SLOT_DATA_SIZE
    ensures var header := ChunkHeader(MAGIC, id, Crc32.Checksum([1]), 1);
            && ViewOf(header, body[0 := 0]) == Chunk(id, [0], false)
            && ViewOf(header, body[0 := 1]) == Chunk(id, [1], true)
  {
    assert body[0 := 0][..1] == [0];
    assert body[0 := 1][..1] == [1];
    DifferentChecksums();
  }

  lemma {:induction false} DifferentChecksums()
    ensures Crc32.Checksum([0]) != Crc32.Checksum([1])
  {
    assert [0][..0] == [];
    assert [1][..0] == [];
  }

  lemma {:induction false} OneSlotDisk(header: ChunkHeader, body: seq<byte>)
    requires |body| == SLOT_DATA_SIZE
    ensures var disk := ToBytes(header) + body;
            && |disk| == SLOT_SIZE && HeaderBytes(disk, 0) == ToBytes(header)
            && Views(disk, 1) == [ViewOf(header, body)]
  {
    var disk := ToBytes(header) + body;
    assert Slot(disk, 0) == disk;
    assert disk[..HEADER_SIZE] == ToBytes(header) && disk[HEADER_SIZE..] == body;
    HeaderRoundTrip(header);
  }

  lemma {:induction false} ScanOfOne(view: SlotView)
    ensures Scan([view], false) ==
            match view.Mark(false)
            case Some(id) => Recovery(map[id := 0], [])
            case None => Recovery(map[], [0])
  {
    assert [view][..0] == [];
  }

  lemma {:induction false} StoresOfOne(view: SlotView)
    ensures var s := RecoveredState([view], false);
            && s.Consistent(false)
            && s.index == (if view.Mark(false).Some? then map[view.id := 0] else map[])
            && s.free == (if view.Mark(false).Some? then [] else [0])
            && s.Contents() == if view.Mark(false).Some? then map[view.id := view.data] else map[]
  {
    ScanOfOne(view);
    RecoveredIsConsistent([view], false);
  }

  /**
   * One slot, on which a recovery has rejected the torn chunk 7. Putting chunk 8 there crashes after its payload
   * and before its header: recovery then finds chunk 7, which the store before the put did not have.
   */
  lemma {:induction false} LeftoverComesBack(body: seq<byte>)
    requires |body| == SLOT_DATA_SIZE
    ensures var header := ChunkHeader(MAGIC, 7, Crc32.Checksum([1]), 1);
            var disk, image := ToBytes(header) + body[0 := 0], ToBytes(header) + body[0 := 1];
            && |disk| == |image| == SLOT_SIZE
            && var s := RecoveredState(Views(disk, 1), false);
            && Putting(s, disk, 1, 0, 8, [1]) && PutCrashImage(disk, image, 0, 8, [1])
            && s.Contents() == map[] && ContentsAfterCrash(image, 1) == map[7 := [1]]
  {
    var header := ChunkHeader(MAGIC, 7, Crc32.Checksum([1]), 1);
    var disk, image := ToBytes(header) + body[0 := 0], ToBytes(header) + body[0 := 1];
    LeftoverExists(7, body);
    OneSlotDisk(header, body[0 := 0]);
    OneSlotDisk(header, body[0 := 1]);
    StoresOfOne(Chunk(7, [0], false));
    StoresOfOne(Chunk(7, [1], true));
  }

  // ---------------------------------------------------------------------------------------
  // A crash in the middle of a delete
  // ---------------------------------------------------------------------------------------

  /** A disk image that a crash inside `DeleteChunk` may leave: the header of `slot` is zeroed or not. */
  ghost predicate DeleteCrashImage(disk: seq<byte>, image: seq<byte>, slot: nat) {
    && (slot + 1) * SLOT_SIZE <= |disk|
    && (image == disk || image == Patch(disk, slot * SLOT_SIZE, ZERO_HEADER))
  }

  /** A crash inside a delete leaves the map with or without that chunk, according to the header. */
  lemma {:induction false} CrashInDelete(s: StoreState, disk: seq<byte>, image: seq<byte>, total: nat, id: u64)
    requires |disk| == total * SLOT_SIZE && s.views == Views(disk, total)
    requires s.Consistent(false) && id in s.index
    requires DeleteCrashImage(disk, image, s.index[id])
    ensures RecoveredState(Views(image, total), false).Consistent(false)
    ensures ContentsAfterCrash(image, total) == if image == disk then s.Contents() else s.Contents() - {id}
  {
    if image == disk {
      CleanRestart(s, false);
    } else {
      ErasedSlotIsBlank(disk, total, s.index[id]);
      assert s.Delete(id).views == Views(image, total);
      DeleteKeepsConsistent(s, id, false);
      DeleteRefinesMap(s, id);
      CleanRestart(s.Delete(id), false);
    }
  }

  // ---------------------------------------------------------------------------------------
  // A delete that failed
  // ---------------------------------------------------------------------------------------

  /** What a restart finds while slot `k` is lost: its chunk again, unless the id is stored in a higher slot. */
  lemma {:induction false} RestartWithLostSlot(t: StoreState, k: nat)
    requires k < |t.views| && Mended(t, k).Consistent(false)
    ensures RecoveredState(t.views, false).Contents() == WithSlotShowing(Mended(t, k), k, t.views[k])
    ensures RecoveredState(t.views, false).Consistent(false) <==>
            (t.views[k].Mark(false).Some? ==> t.views[k].Mark(false).value !in t.index)
  {
    var m := Mended(t, k);
    assert m.free[0] == k;
    assert m.views[k := t.views[k]] == t.views;
    OneSlotRewritten(m, k, t.views[k]);
    RewrittenIsConsistent(m, k, t.views[k]);
  }

  lemma {:induction false} RestartWithChunk(t: StoreState, k: nat, id: u64, stale: seq<byte>, erased: bool)
    requires k < |t.views| && Mended(t, k).Consistent(false) && Mended(t, k).Contents() == t.Contents()
    requires t.views[k] == if erased then Blank else Chunk(id, stale, true)
    ensures var found := RecoveredState(t.views, false);
            && found.Contents() == (if erased || (id in t.index && k < t.index[id]) then t.Contents()
                                    else t.Contents()[id := stale])
            && (found.Contents() == t.Contents() <==>
                  erased || (id in t.index && k < t.index[id]) || (id in t.Contents() && t.Contents()[id] == stale))
            && (found.Consistent(false) <==> erased || id !in t.index)
  {
    RestartWithLostSlot(t, k);
  }

  /** The chunk of a failed delete is still accepted, or its slot is blank. */
  lemma {:induction false} LostSlotShows(s: StoreState, id: u64, erased: bool)
    requires s.Consistent(false) && id in s.index
    ensures id in s.Contents()
    ensures FailedDelete(s, id, erased).views[s.index[id]] == if erased then Blank else Chunk(id, s.Contents()[id], true)
  {
    assert s.views[s.index[id]].Mark(false) == Some(id);
  }

  lemma {:induction false} RunAfterFailedDelete(s: StoreState, id: u64, erased: bool, ops: seq<Op>)
    requires s.Consistent(false) && id in s.index && Acknowledged(FailedDelete(s, id, erased), ops)
    ensures var t, k := After(FailedDelete(s, id, erased), ops), s.index[id];
            && t.Contents() == Applied(s.Contents() - {id}, ops)
            && k < |t.views| && Mended(t, k).Consistent(false) && Mended(t, k).Contents() == t.Contents()
            && t.views[k] == FailedDelete(s, id, erased).views[k]
  {
    var f, k := FailedDelete(s, id, erased), s.index[id];
    FailedDeleteMends(s, id, erased, false);
    RunMends(f, k, ops, false);
    RunRefinesMap(f, ops);
    MendedContents(f, k);
    MendedContents(After(f, ops), k);
  }

  /**
   * A delete failed, and any acknowledged operations followed. In memory they mean what they would after a
   * successful delete. A restart finds the same map - if and only if the header was erased, or the id was stored
   * again in a higher slot or with the same bytes; otherwise it finds the deleted bytes under the id. It ends
   * with every slot indexed or free if and only if the header was erased or the id is not stored again.
   */
  lemma {:induction false} RestartAfterFailedDelete(s: StoreState, id: u64, erased: bool, ops: seq<Op>)
    requires s.Consistent(false) && id in s.index && Acknowledged(FailedDelete(s, id, erased), ops)
    ensures var t, stale := After(FailedDelete(s, id, erased), ops), s.Contents()[id];
            var found := RecoveredState(t.views, false);
            && t.Contents() == Applied(s.Contents() - {id}, ops)
            && found.Contents() == (if erased || (id in t.index && s.index[id] < t.index[id]) then t.Contents()
                                    else t.Contents()[id := stale])
            && (found.Contents() == t.Contents() <==>
                  erased || (id in t.index && s.index[id] < t.index[id]) || (id in t.Contents() && t.Contents()[id] == stale))
            && (found.Consistent(false) <==> erased || id !in t.index)
  {
    LostSlotShows(s, id, erased);
    RunAfterFailedDelete(s, id, erased, ops);
    RestartWithChunk(After(FailedDelete(s, id, erased), ops), s.index[id], id, s.Contents()[id], erased);
  }

  lemma {:induction false} ScanOfSame(a: SlotView, b: SlotView, id: u64)
    requires a.Mark(false) == b.Mark(false) == Some(id)
    ensures Scan([a, b], false) == Recovery(map[id := 1], [])
  {
    assert [a, b][..1] == [a];
    ScanOfOne(a);
  }

  /** Chunk 7 sits in slot 1, deleting it fails, and new bytes for it go to slot 0. */
  lemma {:induction false} StoredAgain(stale: seq<byte>, latest: seq<byte>)
    requires |latest| <= SLOT_DATA_SIZE
    ensures var s := StoreState([Blank, Chunk(7, stale, true)], map[7 := 1], [0]);
            && s.Consistent(false)
            && Acknowledged(FailedDelete(s, 7, false), [PutOp(7, latest)])
            && After(FailedDelete(s, 7, false), [PutOp(7, latest)]) ==
               StoreState([Chunk(7, latest, true), Chunk(7, stale, true)], map[7 := 0], [])
  {
    var f := FailedDelete(StoreState([Blank, Chunk(7, stale, true)], map[7 := 1], [0]), 7, false);
    RunExtends(f, [], PutOp(7, latest));
    assert [] + [PutOp(7, latest)] == [PutOp(7, latest)];
    assert f.index == map[] && f.Put(7, latest).free == [];
  }

  /** A restart then finds the old bytes in place of the acknowledged ones, and slot 0 is lost. */
  lemma {:induction false} StaleBytesReturn(stale: seq<byte>, latest: seq<byte>)
    requires |latest| <= SLOT_DATA_SIZE
    ensures var t := StoreState([Chunk(7, latest, true), Chunk(7, stale, true)], map[7 := 0], []);
            var found := RecoveredState(t.views, false);
            && t.Contents() == map[7 := latest] && found.Contents() == map[7 := stale]
            && found.index == map[7 := 1] && found.free == []
  {
    ScanOfSame(Chunk(7, latest, true), Chunk(7, stale, true), 7);
  }
}
