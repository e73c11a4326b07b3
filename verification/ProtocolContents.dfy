/**
 * What is read is what was written. Over every interleaving each stored copy of a chunk is the bytes
 * its id was issued for, so a download returns the concatenation of what the chunks it looked up were
 * issued for, whichever replicas answer and whatever happens meanwhile.
 */
module ProtocolContents {
  import opened Base
  import opened Metadata
  import opened MetadataInvariants
  import opened Cluster
  import opened Chunking
  import opened Protocol
  import Crc32

  type Bytes = map<u64, seq<byte>>

  ghost predicate CopiesSound(c: ClusterState, intended: Bytes) {
    forall address, id | c.Copy(address, id).Some? :: id in intended && c.Copy(address, id).value == intended[id]
  }

  ghost predicate RecordSound(chunk: MetaChunk, intended: Bytes) {
    chunk.id in intended && (chunk.status.Confirmed? ==> chunk.checksum == Crc32.Checksum(intended[chunk.id]))
  }

  ghost predicate RecordsSound(m: MetaState, intended: Bytes) {
    forall id | id in m.chunks :: m.chunks[id].id == id && RecordSound(m.chunks[id], intended)
  }

  predicate Issued(ids: seq<u64>, intended: Bytes) {
    forall id | id in ids :: id in intended
  }

  /** What the chunks of a list were issued for. */
  function ContentsOf(ids: seq<u64>, intended: Bytes): seq<seq<byte>>
    requires Issued(ids, intended)
  {
    seq(|ids|, i requires 0 <= i < |ids| => assert ids[i] in ids; intended[ids[i]])
  }

  ghost predicate PutSound(p: Proc, intended: Bytes)
    requires p.Put?
  {
    && p.done <= |p.pieces|
    && (p.put.Writing? || p.put.Confirming? ==> p.done < |p.pieces| && p.put.id in intended && intended[p.put.id] == p.pieces[p.done])
    && (p.put.PutDone? ==> p.done == |p.pieces|)
  }

  ghost predicate GetSound(p: Proc, intended: Bytes)
    requires p.Get?
  {
    match p.get
    case Reading(refs, got) =>
      && |refs| == |p.ids|
      && (forall k | 0 <= k < |refs| :: refs[k].id == p.ids[k])
      && (forall k | k in got :: k < |p.ids| && p.ids[k] in intended && got[k] == intended[p.ids[k]])
    case Delivered(data) => Issued(p.ids, intended) && data == Flatten(ContentsOf(p.ids, intended))
    case _ => true
  }

  ghost predicate CopySound(p: Proc, intended: Bytes)
    requires p.Copy?
  {
    && p.chunk.status.Confirmed? && RecordSound(p.chunk, intended)
    && (p.copy.Storing? ==> p.copy.data == intended[p.chunk.id])
  }

  ghost predicate ProcSound(p: Proc, intended: Bytes) {
    match p
    case Put(_, _, _, _) => PutSound(p, intended)
    case Get(_, _, _) => GetSound(p, intended)
    case Delete(_, _, _) => true
    case Copy(_, _) => CopySound(p, intended)
  }

  ghost predicate ProcsSound(w: World) {
    forall pid | pid in w.procs :: ProcSound(w.procs[pid], w.intended)
  }

  /** Copies, records and whatever processes carry around agree with what the chunk ids were issued for. */
  ghost predicate Sound(w: World) {
    CopiesSound(w.cluster, w.intended) && RecordsSound(w.cluster.meta, w.intended) && ProcsSound(w)
  }

  // ---------------------------------------------------------------------------------------
  // Step by step
  // ---------------------------------------------------------------------------------------

  ghost predicate Grows(a: Bytes, b: Bytes) {
    forall id | id in a :: id in b && b[id] == a[id]
  }

  lemma {:induction false} SameContents(ids: seq<u64>, a: Bytes, b: Bytes)
    requires Grows(a, b) && Issued(ids, a)
    ensures Issued(ids, b) && ContentsOf(ids, a) == ContentsOf(ids, b)
  {
    forall i | 0 <= i < |ids|
      ensures ids[i] in b && b[ids[i]] == a[ids[i]]
    {
      assert ids[i] in ids;
    }
  }

  lemma {:induction false} ProcStaysSound(p: Proc, a: Bytes, b: Bytes)
    requires Grows(a, b) && ProcSound(p, a)
    ensures ProcSound(p, b)
  {
    if p.Get? && p.get.Delivered? {
      SameContents(p.ids, a, b);
    }
  }

  lemma {:induction false} StoredCopiesSound(c: ClusterState, address: Address, id: u64, data: seq<byte>, intended: Bytes)
    requires CopiesSound(c, intended) && c.CanStore(address, id) && id in intended && intended[id] == data
    ensures CopiesSound(c.Store(address, id, data), intended)
  {
    var t := c.Store(address, id, data);
    forall a, x | t.Copy(a, x).Some?
      ensures x in intended && t.Copy(a, x).value == intended[x]
    {
      assert (a == address && x == id) || t.Copy(a, x) == c.Copy(a, x);
    }
  }

  lemma {:induction false} FewerCopiesSound(c: ClusterState, address: Address, id: u64, intended: Bytes)
    requires CopiesSound(c, intended) && address in c.disks
    ensures CopiesSound(c.Erase(address, id), intended)
  {
    var t := c.Erase(address, id);
    forall a, x | t.Copy(a, x).Some?
      ensures x in intended && t.Copy(a, x).value == intended[x]
    {
      assert t.Copy(a, x) == c.Copy(a, x);
    }
  }

  lemma {:induction false} GrownCopiesSound(c: ClusterState, t: ClusterState, a: Bytes, b: Bytes)
    requires CopiesSound(c, a) && Grows(a, b)
    requires forall address, id :: t.Copy(address, id) == c.Copy(address, id)
    ensures CopiesSound(t, b)
  {
    forall address, id | t.Copy(address, id).Some?
      ensures id in b && t.Copy(address, id).value == b[id]
    {
      assert t.Copy(address, id) == c.Copy(address, id);
    }
  }

  lemma {:induction false} FewerRecordsSound(m: MetaState, t: MetaState, intended: Bytes)
    requires RecordsSound(m, intended) && forall id | id in t.chunks :: id in m.chunks && t.chunks[id] == m.chunks[id]
    ensures RecordsSound(t, intended)
  {
  }

  lemma {:induction false} NewRecordSound(m: MetaState, t: MetaState, chunk: MetaChunk, a: Bytes, b: Bytes)
    requires RecordsSound(m, a) && Grows(a, b) && RecordSound(chunk, b) && t.chunks == m.chunks[chunk.id := chunk]
    ensures RecordsSound(t, b)
  {
  }

  /** One process moves on, and neither chunk ids nor other processes change. */
  lemma {:induction false} MovedStaysSound(w: World, t: World, pid: nat)
    requires ProcsSound(w) && t.intended == w.intended && Moves(w, t, pid)
    requires CopiesSound(t.cluster, t.intended) && RecordsSound(t.cluster.meta, t.intended) && ProcSound(t.procs[pid], t.intended)
    ensures Sound(t)
  {
  }

  lemma {:induction false} AllocateKeepsSound(w: World, pid: nat, id: u64, node: u64)
    requires Sound(w) && PutEnabled(w, pid, Allocate(id, node))
    ensures Sound(AfterAllocate(w, pid, id, node))
  {
    var t := AfterAllocate(w, pid, id, node);
    NewRecordSound(w.cluster.meta, t.cluster.meta, t.cluster.meta.chunks[id], w.intended, t.intended);
    GrownCopiesSound(w.cluster, t.cluster, w.intended, t.intended);
    forall q | q in t.procs
      ensures ProcSound(t.procs[q], t.intended)
    {
      if q != pid {
        ProcStaysSound(w.procs[q], w.intended, t.intended);
      }
    }
  }

  lemma {:induction false} ConfirmKeepsSound(w: World, pid: nat)
    requires Sound(w) && PutEnabled(w, pid, Confirm)
    ensures Sound(AfterConfirm(w, pid))
  {
    var t := AfterConfirm(w, pid);
    var p := w.procs[pid];
    assert ProcSound(p, w.intended);
    if t.procs[pid].put.Next? {
      var chunk := MetaChunk(p.put.id, p.name, Crc32.Checksum(p.pieces[p.done]), [p.put.node], Confirmed);
      NewRecordSound(w.cluster.meta, t.cluster.meta, chunk, w.intended, w.intended);
      GrownCopiesSound(w.cluster, t.cluster, w.intended, t.intended);
    }
    MovedStaysSound(w, t, pid);
  }

  lemma {:induction false} WriteKeepsSound(w: World, pid: nat)
    requires Sound(w) && PutEnabled(w, pid, Write)
    ensures Sound(AfterWrite(w, pid))
  {
    var p := w.procs[pid];
    assert ProcSound(p, w.intended);
    StoredCopiesSound(w.cluster, p.put.address, p.put.id, p.pieces[p.done], w.intended);
    MovedStaysSound(w, AfterWrite(w, pid), pid);
  }

  lemma {:induction false} CreateKeepsSound(w: World, pid: nat, name: string, checksum: u32, pieces: seq<seq<byte>>)
    requires Sound(w) && PutEnabled(w, pid, Create(name, checksum, pieces))
    ensures Sound(AfterCreate(w, pid, name, checksum, pieces))
  {
    var t := AfterCreate(w, pid, name, checksum, pieces);
    if name !in w.cluster.meta.objects {
      GrownCopiesSound(w.cluster, t.cluster, w.intended, t.intended);
      FewerRecordsSound(w.cluster.meta, t.cluster.meta, w.intended);
    }
    MovedStaysSound(w, t, pid);
  }

  lemma {:induction false} UndoKeepsSound(w: World, pid: nat)
    requires Sound(w) && PutEnabled(w, pid, Undo)
    ensures Sound(AfterUndo(w, pid))
  {
    var t := AfterUndo(w, pid);
    assert ProcSound(w.procs[pid], w.intended);
    GrownCopiesSound(w.cluster, t.cluster, w.intended, t.intended);
    FewerRecordsSound(w.cluster.meta, t.cluster.meta, w.intended);
    MovedStaysSound(w, t, pid);
  }

  lemma {:induction false} PutStepKeepsSound(w: World, pid: nat, s: PutStep)
    requires Sound(w) && PutEnabled(w, pid, s)
    ensures Sound(ApplyPut(w, pid, s))
  {
    match s
    case Allocate(id, node) => AllocateKeepsSound(w, pid, id, node);
    case Confirm => ConfirmKeepsSound(w, pid);
    case Write => WriteKeepsSound(w, pid);
    case Create(name, checksum, pieces) => CreateKeepsSound(w, pid, name, checksum, pieces);
    case Undo => UndoKeepsSound(w, pid);
    case _ =>
      assert ProcSound(w.procs[pid], w.intended);
      MovedStaysSound(w, ApplyPut(w, pid, s), pid);
  }

  lemma {:induction false} DeliverKeepsSound(w: World, pid: nat)
    requires Sound(w) && GetEnabled(w, pid, Deliver)
    ensures Sound(AfterDeliver(w, pid))
  {
    var p := w.procs[pid];
    assert ProcSound(p, w.intended);
    assert Issued(p.ids, w.intended) by {
      forall id | id in p.ids
        ensures id in w.intended
      {
        var k :| 0 <= k < |p.ids| && p.ids[k] == id;
        assert k in p.get.got;
      }
    }
    assert seq(|p.get.refs|, k requires 0 <= k < |p.get.refs| => p.get.got[k]) == ContentsOf(p.ids, w.intended);
    MovedStaysSound(w, AfterDeliver(w, pid), pid);
  }

  lemma {:induction false} GetStepKeepsSound(w: World, pid: nat, s: GetStep)
    requires Sound(w) && GetEnabled(w, pid, s)
    ensures Sound(ApplyGet(w, pid, s))
  {
    if s.Deliver? {
      DeliverKeepsSound(w, pid);
    } else {
      MovedStaysSound(w, ApplyGet(w, pid, s), pid);
    }
  }

  lemma {:induction false} DeleteStepKeepsSound(w: World, pid: nat, s: DeleteStep)
    requires Sound(w) && DeleteEnabled(w, pid, s)
    ensures Sound(ApplyDelete(w, pid, s))
  {
    var t := ApplyDelete(w, pid, s);
    if s.Erase? {
      var (id, address) := w.procs[pid].delete.targets[s.k];
      FewerCopiesSound(w.cluster, address, id, w.intended);
    } else {
      GrownCopiesSound(w.cluster, t.cluster, w.intended, t.intended);
      FewerRecordsSound(w.cluster.meta, t.cluster.meta, w.intended);
    }
    MovedStaysSound(w, t, pid);
  }

  lemma {:induction false} RecordKeepsSound(w: World, pid: nat)
    requires Sound(w) && CopyEnabled(w, pid, Record)
    ensures Sound(AfterRecord(w, pid))
  {
    var t := AfterRecord(w, pid);
    GrownCopiesSound(w.cluster, t.cluster, w.intended, t.intended);
    if t.cluster.meta != w.cluster.meta {
      var id := w.procs[pid].chunk.id;
      NewRecordSound(w.cluster.meta, t.cluster.meta, t.cluster.meta.chunks[id], w.intended, w.intended);
    }
    MovedStaysSound(w, t, pid);
  }

  lemma {:induction false} CopyStepKeepsSound(w: World, pid: nat, s: CopyStep)
    requires Sound(w) && CopyEnabled(w, pid, s)
    ensures Sound(ApplyCopy(w, pid, s))
  {
    if !s.List? {
      assert ProcSound(w.procs[pid], w.intended);
    }
    if s.Record? {
      RecordKeepsSound(w, pid);
    } else {
      if s.Save? {
        var p := w.procs[pid];
        StoredCopiesSound(w.cluster, p.copy.address, p.chunk.id, p.copy.data, w.intended);
      }
      if s.Clean? {
        var p := w.procs[pid];
        FewerCopiesSound(w.cluster, p.copy.address, p.chunk.id, w.intended);
      }
      MovedStaysSound(w, ApplyCopy(w, pid, s), pid);
    }
  }

  lemma {:induction false} RegisterKeepsSound(w: World, node: u64, address: Address)
    requires Sound(w) && Enabled(w, Register(node, address))
    ensures Sound(AfterRegister(w, node, address))
  {
    var t := AfterRegister(w, node, address);
    GrownCopiesSound(w.cluster, t.cluster, w.intended, t.intended);
    FewerRecordsSound(w.cluster.meta, t.cluster.meta, w.intended);
  }

  lemma {:induction false} DeregisterKeepsSound(w: World, node: u64)
    requires Sound(w) && Enabled(w, Deregister(node))
    ensures Sound(Apply(w, Deregister(node)))
  {
    var t := Apply(w, Deregister(node));
    GrownCopiesSound(w.cluster, t.cluster, w.intended, t.intended);
    FewerRecordsSound(w.cluster.meta, t.cluster.meta, w.intended);
  }

  lemma {:induction false} FailKeepsSound(w: World, pid: nat)
    requires Sound(w) && Enabled(w, Fail(pid))
    ensures Sound(Apply(w, Fail(pid)))
  {
    assert ProcSound(w.procs[pid], w.intended);
    MovedStaysSound(w, Apply(w, Fail(pid)), pid);
  }

  lemma {:induction false} StepKeepsSound(w: World, s: Step)
    requires Sound(w) && Enabled(w, s)
    ensures Sound(Apply(w, s))
  {
    match s
    case Register(node, address) => RegisterKeepsSound(w, node, address);
    case Deregister(node) => DeregisterKeepsSound(w, node);
    case Fail(pid) => FailKeepsSound(w, pid);
    case PutBy(pid, put) => PutStepKeepsSound(w, pid, put);
    case GetBy(pid, get) => GetStepKeepsSound(w, pid, get);
    case DeleteBy(pid, delete) => DeleteStepKeepsSound(w, pid, delete);
    case CopyBy(pid, copy) => CopyStepKeepsSound(w, pid, copy);
  }

  /** In every reachable state every copy of a chunk is the bytes that the gateway first wrote for it. */
  lemma {:induction false} RunKeepsSound(w: World, steps: seq<Step>)
    requires Sound(w) && Runs(w, steps)
    ensures Sound(After(w, steps))
    decreases |steps|
  {
    if steps != [] {
      StepKeepsSound(w, steps[0]);
      RunKeepsSound(Apply(w, steps[0]), steps[1..]);
    }
  }

  lemma {:induction false} EmptyWorldIsSound()
    ensures Sound(EMPTY_WORLD)
  {
  }

  lemma {:induction false} StepGrows(w: World, s: Step)
    requires Enabled(w, s)
    ensures Grows(w.intended, Apply(w, s).intended)
  {
    match s
    case PutBy(pid, put) => PutGrows(w, pid, put);
    case GetBy(pid, get) => GetMoves(w, pid, get);
    case DeleteBy(pid, delete) => DeleteMoves(w, pid, delete);
    case CopyBy(pid, copy) => CopyMoves(w, pid, copy);
    case _ =>
  }

  lemma {:induction false} PutGrows(w: World, pid: nat, s: PutStep)
    requires PutEnabled(w, pid, s)
    ensures Grows(w.intended, ApplyPut(w, pid, s).intended)
  {
  }

  lemma {:induction false} RunGrows(w: World, steps: seq<Step>)
    requires Runs(w, steps)
    ensures Grows(w.intended, After(w, steps).intended)
    decreases |steps|
  {
    if steps != [] {
      StepGrows(w, steps[0]);
      RunGrows(Apply(w, steps[0]), steps[1..]);
    }
  }

  /** Copies of one chunk are alike wherever and whenever they are found: on two nodes, and at two times of any run. */
  lemma {:induction false} CopiesNeverDiffer(before: seq<Step>, steps: seq<Step>, id: u64, here: Address, there: Address)
    requires Runs(EMPTY_WORLD, before) && Runs(After(EMPTY_WORLD, before), steps)
    ensures var first := After(EMPTY_WORLD, before).cluster.Copy(here, id);
            var second := After(After(EMPTY_WORLD, before), steps).cluster.Copy(there, id);
            first.Some? && second.Some? ==> first == second
  {
    var w := After(EMPTY_WORLD, before);
    EmptyWorldIsSound();
    RunKeepsSound(EMPTY_WORLD, before);
    RunKeepsSound(w, steps);
    RunGrows(w, steps);
  }

  // ---------------------------------------------------------------------------------------
  // Downloads
  // ---------------------------------------------------------------------------------------

  lemma {:induction false} GetKeepsList(w: World, pid: nat, s: GetStep)
    requires GetEnabled(w, pid, s) && GetAt(w, pid)
    ensures GetAt(ApplyGet(w, pid, s), pid) && ApplyGet(w, pid, s).procs[pid].ids == w.procs[pid].ids
  {
  }

  /** A download keeps to the chunk list that it has looked up. */
  lemma {:induction false} StepKeepsList(w: World, s: Step, pid: nat)
    requires Enabled(w, s) && GetAt(w, pid)
    ensures GetAt(Apply(w, s), pid) && Apply(w, s).procs[pid].ids == w.procs[pid].ids
  {
    if s == Fail(pid) {
    } else if s.GetBy? && s.pid == pid {
      GetKeepsList(w, pid, s.get);
    } else {
      OnlyActorMoves(w, s);
    }
  }

  lemma {:induction false} RunKeepsList(w: World, steps: seq<Step>, pid: nat)
    requires Runs(w, steps) && GetAt(w, pid)
    ensures GetAt(After(w, steps), pid) && After(w, steps).procs[pid].ids == w.procs[pid].ids
    decreases |steps|
  {
    if steps != [] {
      StepKeepsList(w, steps[0], pid);
      RunKeepsList(Apply(w, steps[0]), steps[1..], pid);
    }
  }

  /**
   * A download that succeeds returns what the chunks listed at its look-up were issued for: whichever
   * replicas it read from, and whatever uploads, deletions and replications happened in between.
   */
  lemma {:induction false} DownloadReturnsLookedUp(w: World, pid: nat, name: string, steps: seq<Step>)
    requires Sound(w) && GetEnabled(w, pid, Look(name)) && name in w.cluster.meta.objects
    requires Issued(w.cluster.meta.objects[name].chunks, w.intended)
    requires Runs(AfterLook(w, pid, name), steps)
    ensures var t := After(AfterLook(w, pid, name), steps);
            GetAt(t, pid) &&
            var p := t.procs[pid];
            (p.get.Delivered? ==> p.get.data == Flatten(ContentsOf(w.cluster.meta.objects[name].chunks, w.intended)))
  {
    var begun := AfterLook(w, pid, name);
    GetStepKeepsSound(w, pid, Look(name));
    RunKeepsSound(begun, steps);
    RunKeepsList(begun, steps, pid);
    RunGrows(begun, steps);
    var end := After(begun, steps);
    SameContents(w.cluster.meta.objects[name].chunks, w.intended, end.intended);
    assert ProcSound(end.procs[pid], end.intended);
  }

  /** The checksum that a replication compares with never differs from that of the copy it has read. */
  lemma {:induction false} ChecksumsMatch(w: World, pid: nat)
    requires Sound(w) && CopyEnabled(w, pid, Fetch)
    ensures AfterFetch(w, pid).procs[pid].copy.Storing?
  {
    assert ProcSound(w.procs[pid], w.intended);
  }
}
