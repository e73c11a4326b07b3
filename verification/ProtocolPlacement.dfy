/**
 * Replication safety. As long as no DELETE erases copies, every node recorded for a chunk holds it,
 * with the recorded checksum; and the copy that a replication cleans up after its record was rejected
 * is never one that is recorded, because nobody else can have written it.
 */
module ProtocolPlacement {
  import opened Base
  import opened Metadata
  import opened Cluster
  import opened Protocol
  import opened ProtocolContents
  import Crc32

  /** The copy that a process has written and not yet recorded or given up. */
  function Holding(p: Proc): Option<(u64, Address)> {
    match p
    case Put(_, _, _, Confirming(id, _, address)) => Some((id, address))
    case Copy(chunk, Recording(_, address)) => Some((chunk.id, address))
    case Copy(chunk, Cleaning(_, address)) => Some((chunk.id, address))
    case _ => None
  }

  /** The node, with its address, that a process writes to. */
  function Aiming(p: Proc): Option<(u64, Address)> {
    match p
    case Put(_, _, _, Writing(_, node, address)) => Some((node, address))
    case Put(_, _, _, Confirming(_, node, address)) => Some((node, address))
    case Copy(_, Targeted(node, address)) => Some((node, address))
    case Copy(_, Fetching(node, address, _)) => Some((node, address))
    case Copy(_, Storing(node, address, _)) => Some((node, address))
    case Copy(_, Recording(node, address)) => Some((node, address))
    case Copy(_, Cleaning(node, address)) => Some((node, address))
    case _ => None
  }

  /** Every node recorded for a chunk has a copy of it. */
  ghost predicate ReplicasInPlace(w: World) {
    forall id, n | id in w.cluster.meta.chunks && n in w.cluster.meta.chunks[id].storageNodes :: InPlace(w, id, n)
  }

  predicate InPlace(w: World, id: u64, n: u64) {
    n in w.addressOf && w.cluster.Copy(w.addressOf[n], id).Some?
  }

  predicate RecordedAt(w: World, id: u64, address: Address) {
    id in w.cluster.meta.chunks &&
    exists n | n in w.cluster.meta.chunks[id].storageNodes :: n in w.addressOf && w.addressOf[n] == address
  }

  /** A held copy is there, is not recorded, and is held by one process only. */
  ghost predicate HoldingsAreOwn(w: World) {
    && (forall q | q in w.procs && Holding(w.procs[q]).Some? :: OwnCopy(w, Holding(w.procs[q]).value))
    && (forall q, r | q in w.procs && r in w.procs && Holding(w.procs[q]).Some? && Holding(w.procs[q]) == Holding(w.procs[r]) :: q == r)
  }

  predicate OwnCopy(w: World, held: (u64, Address)) {
    w.cluster.Copy(held.1, held.0).Some? && !RecordedAt(w, held.0, held.1)
  }

  ghost predicate AddressesKnown(w: World) {
    && (forall n | n in w.cluster.meta.nodes :: n in w.addressOf && w.addressOf[n] == w.cluster.meta.nodes[n])
    && (forall q | q in w.procs && Aiming(w.procs[q]).Some? ::
          Aiming(w.procs[q]).value.0 in w.addressOf && w.addressOf[Aiming(w.procs[q]).value.0] == Aiming(w.procs[q]).value.1)
  }

  ghost predicate Placed(w: World) {
    ReplicasInPlace(w) && HoldingsAreOwn(w) && AddressesKnown(w)
  }

  // ---------------------------------------------------------------------------------------
  // Step by step
  // ---------------------------------------------------------------------------------------

  /** No copy changes, records may go but not change their nodes, and processes may let go of what they hold. */
  ghost predicate Quiet(w: World, t: World) {
    && (forall address, id :: t.cluster.Copy(address, id) == w.cluster.Copy(address, id))
    && (forall id | id in t.cluster.meta.chunks ::
          t.cluster.meta.chunks[id].storageNodes == [] ||
          (id in w.cluster.meta.chunks && t.cluster.meta.chunks[id].storageNodes == w.cluster.meta.chunks[id].storageNodes))
    && (forall n | n in w.addressOf :: n in t.addressOf && t.addressOf[n] == w.addressOf[n])
    && (forall q | q in t.procs && Holding(t.procs[q]).Some? :: q in w.procs && Holding(w.procs[q]) == Holding(t.procs[q]))
  }

  lemma {:induction false} QuietKeepsPlaced(w: World, t: World)
    requires Placed(w) && Quiet(w, t) && AddressesKnown(t)
    ensures Placed(t)
  {
    forall id, n | id in t.cluster.meta.chunks && n in t.cluster.meta.chunks[id].storageNodes
      ensures InPlace(t, id, n)
    {
      assert InPlace(w, id, n);
    }
    forall q | q in t.procs && Holding(t.procs[q]).Some?
      ensures OwnCopy(t, Holding(t.procs[q]).value)
    {
      var held := Holding(t.procs[q]).value;
      assert OwnCopy(w, held);
      if held.0 in t.cluster.meta.chunks {
        forall n | n in t.cluster.meta.chunks[held.0].storageNodes
          ensures n in t.addressOf && t.addressOf[n] != held.1
        {
          assert InPlace(w, held.0, n);
        }
      }
    }
  }

  /** A process writes a copy where there was none, and holds it from then on. */
  lemma {:induction false} WrittenIsPlaced(w: World, t: World, pid: nat, id: u64, address: Address, data: seq<byte>)
    requires Placed(w) && w.cluster.CanStore(address, id) && t.cluster == w.cluster.Store(address, id, data)
    requires t.addressOf == w.addressOf && Moves(w, t, pid)
    requires Holding(t.procs[pid]) == Some((id, address)) && AddressesKnown(t)
    ensures Placed(t)
  {
    forall a, x | w.cluster.Copy(a, x).Some?
      ensures t.cluster.Copy(a, x) == w.cluster.Copy(a, x) && (a != address || x != id)
    {
    }
    forall x, n | x in t.cluster.meta.chunks && n in t.cluster.meta.chunks[x].storageNodes
      ensures InPlace(t, x, n) && (x == id ==> t.addressOf[n] != address)
    {
      assert InPlace(w, x, n);
    }
    assert !RecordedAt(t, id, address);
    forall q | q in t.procs && Holding(t.procs[q]).Some? && q != pid
      ensures OwnCopy(t, Holding(t.procs[q]).value) && Holding(t.procs[q]) != Some((id, address))
    {
      assert OwnCopy(w, Holding(w.procs[q]).value);
    }
  }

  /** A process records the copy it holds: the node joins the chunk's record, or is the first in it. */
  lemma {:induction false} RecordedIsPlaced(w: World, t: World, pid: nat, chunk: MetaChunk, node: u64)
    requires Placed(w) && pid in w.procs && Aiming(w.procs[pid]).Some? && Aiming(w.procs[pid]).value.0 == node
    requires Holding(w.procs[pid]) == Some((chunk.id, Aiming(w.procs[pid]).value.1))
    requires t.cluster.disks == w.cluster.disks && t.cluster.meta.chunks == w.cluster.meta.chunks[chunk.id := chunk]
    requires chunk.storageNodes == [node] ||
             (chunk.id in w.cluster.meta.chunks && chunk.storageNodes == w.cluster.meta.chunks[chunk.id].storageNodes + [node])
    requires t.addressOf == w.addressOf && Moves(w, t, pid)
    requires Holding(t.procs[pid]).None? && AddressesKnown(t)
    ensures Placed(t)
  {
    var address := Aiming(w.procs[pid]).value.1;
    assert OwnCopy(w, (chunk.id, address)) && w.addressOf[node] == address;
    forall a, x
      ensures t.cluster.Copy(a, x) == w.cluster.Copy(a, x)
    {
    }
    forall id, n | id in t.cluster.meta.chunks && n in t.cluster.meta.chunks[id].storageNodes
      ensures InPlace(t, id, n)
    {
      if id != chunk.id || n != node {
        assert InPlace(w, id, n);
      }
    }
    forall q | q in t.procs && Holding(t.procs[q]).Some?
      ensures OwnCopy(t, Holding(t.procs[q]).value)
    {
      var held := Holding(w.procs[q]).value;
      assert OwnCopy(w, held);
      assert held != (chunk.id, address);
      if held.0 in t.cluster.meta.chunks {
        forall n | n in t.cluster.meta.chunks[held.0].storageNodes
          ensures n in t.addressOf && t.addressOf[n] != held.1
        {
          assert n == node || InPlace(w, held.0, n);
        }
      }
    }
  }

  /** Erasing a copy keeps replicas in place if and only if the copy is neither recorded nor held by another process. */
  lemma {:induction false} ErasedIsPlacedIff(w: World, t: World, id: u64, address: Address)
    requires Placed(w) && address in w.cluster.disks && w.cluster.Copy(address, id).Some?
    requires t.cluster == w.cluster.Erase(address, id) && t.addressOf == w.addressOf && AddressesKnown(t)
    requires forall q | q in t.procs && Holding(t.procs[q]).Some? :: q in w.procs && Holding(w.procs[q]) == Holding(t.procs[q])
    ensures Placed(t) <==> !RecordedAt(w, id, address) && forall q | q in t.procs :: Holding(t.procs[q]) != Some((id, address))
  {
    forall a, x
      ensures t.cluster.Copy(a, x) == if a == address && x == id then None else w.cluster.Copy(a, x)
    {
    }
    if RecordedAt(w, id, address) {
      var n :| n in w.cluster.meta.chunks[id].storageNodes && n in w.addressOf && w.addressOf[n] == address;
      assert !InPlace(t, id, n);
    } else if q :| q in t.procs && Holding(t.procs[q]) == Some((id, address)) {
      assert !OwnCopy(t, (id, address));
    } else {
      forall x, n | x in t.cluster.meta.chunks && n in t.cluster.meta.chunks[x].storageNodes
        ensures InPlace(t, x, n)
      {
        assert InPlace(w, x, n);
      }
      forall q | q in t.procs && Holding(t.procs[q]).Some?
        ensures OwnCopy(t, Holding(t.procs[q]).value)
      {
        var held := Holding(t.procs[q]).value;
        assert OwnCopy(w, held) && held != (id, address);
        assert RecordedAt(t, held.0, held.1) ==> RecordedAt(w, held.0, held.1);
      }
    }
  }

  ghost predicate NoNewReplicas(m: MetaState, t: MetaState) {
    forall id | id in t.chunks ::
      t.chunks[id].storageNodes == [] || (id in m.chunks && t.chunks[id].storageNodes == m.chunks[id].storageNodes)
  }

  /** One process moves on without writing, erasing or recording anything; it may let go of a copy, or be told a node's address. */
  lemma {:induction false} MovedStaysPlaced(w: World, t: World, pid: nat)
    requires Placed(w) && Moves(w, t, pid)
    requires t.cluster.disks == w.cluster.disks && t.addressOf == w.addressOf && t.cluster.meta.nodes == w.cluster.meta.nodes
    requires NoNewReplicas(w.cluster.meta, t.cluster.meta)
    requires Holding(t.procs[pid]).Some? ==> pid in w.procs && Holding(w.procs[pid]) == Holding(t.procs[pid])
    requires Aiming(t.procs[pid]).Some? ==>
               (pid in w.procs && Aiming(w.procs[pid]) == Aiming(t.procs[pid])) ||
               (var (node, address) := Aiming(t.procs[pid]).value; node in w.cluster.meta.nodes && w.cluster.meta.nodes[node] == address)
    ensures Placed(t)
  {
    forall address, id
      ensures t.cluster.Copy(address, id) == w.cluster.Copy(address, id)
    {
    }
    QuietKeepsPlaced(w, t);
  }

  /** A process that no longer aims at a node leaves the other addresses known. */
  lemma {:induction false} NowhereAimed(w: World, t: World, pid: nat)
    requires AddressesKnown(w) && Moves(w, t, pid) && Aiming(t.procs[pid]).None?
    requires t.cluster.meta.nodes == w.cluster.meta.nodes && t.addressOf == w.addressOf
    ensures AddressesKnown(t)
  {
  }

  /** The same when nothing but the process changes. */
  lemma {:induction false} JustMovedStaysPlaced(w: World, t: World, pid: nat, p: Proc)
    requires Placed(w) && t == w.WithProc(pid, p)
    requires Holding(p).Some? ==> pid in w.procs && Holding(w.procs[pid]) == Holding(p)
    requires Aiming(p).Some? ==> pid in w.procs && Aiming(w.procs[pid]) == Aiming(p)
    ensures Placed(t)
  {
    MovedStaysPlaced(w, t, pid);
  }

  lemma {:induction false} FailKeepsPlaced(w: World, pid: nat)
    requires Placed(w) && Enabled(w, Fail(pid))
    ensures Placed(Apply(w, Fail(pid)))
  {
    MovedStaysPlaced(w, Apply(w, Fail(pid)), pid);
  }

  lemma {:induction false} CreateKeepsPlaced(w: World, pid: nat, name: string, checksum: u32, pieces: seq<seq<byte>>)
    requires Placed(w) && PutEnabled(w, pid, Create(name, checksum, pieces))
    ensures Placed(AfterCreate(w, pid, name, checksum, pieces))
  {
    var t := AfterCreate(w, pid, name, checksum, pieces);
    if name in w.cluster.meta.objects {
      JustMovedStaysPlaced(w, t, pid, Put(name, pieces, 0, PutFailed));
    } else {
      MovedStaysPlaced(w, t, pid);
    }
  }

  lemma {:induction false} AllocateKeepsPlaced(w: World, pid: nat, id: u64, node: u64)
    requires Placed(w) && PutEnabled(w, pid, Allocate(id, node))
    ensures Placed(AfterAllocate(w, pid, id, node))
  {
    MovedStaysPlaced(w, AfterAllocate(w, pid, id, node), pid);
  }

  lemma {:induction false} WriteKeepsPlaced(w: World, pid: nat)
    requires Placed(w) && PutEnabled(w, pid, Write)
    ensures Placed(AfterWrite(w, pid))
  {
    var p := w.procs[pid];
    WrittenIsPlaced(w, AfterWrite(w, pid), pid, p.put.id, p.put.address, p.pieces[p.done]);
  }

  lemma {:induction false} ConfirmKeepsPlaced(w: World, pid: nat)
    requires Placed(w) && PutEnabled(w, pid, Confirm)
    ensures Placed(AfterConfirm(w, pid))
  {
    var t := AfterConfirm(w, pid);
    var p := w.procs[pid];
    if t.procs[pid].put.Undoing? {
      JustMovedStaysPlaced(w, t, pid, p.(put := Undoing));
    } else {
      NowhereAimed(w, t, pid);
      RecordedIsPlaced(w, t, pid, t.cluster.meta.chunks[p.put.id], p.put.node);
    }
  }

  lemma {:induction false} UndoKeepsPlaced(w: World, pid: nat)
    requires Placed(w) && PutEnabled(w, pid, Undo)
    ensures Placed(AfterUndo(w, pid))
  {
    MovedStaysPlaced(w, AfterUndo(w, pid), pid);
  }

  lemma {:induction false} PutStepKeepsPlaced(w: World, pid: nat, s: PutStep)
    requires Placed(w) && PutEnabled(w, pid, s)
    ensures Placed(ApplyPut(w, pid, s))
  {
    match s
    case Create(name, checksum, pieces) => CreateKeepsPlaced(w, pid, name, checksum, pieces);
    case Allocate(id, node) => AllocateKeepsPlaced(w, pid, id, node);
    case Write => WriteKeepsPlaced(w, pid);
    case Confirm => ConfirmKeepsPlaced(w, pid);
    case Undo => UndoKeepsPlaced(w, pid);
    case _ => MovedStaysPlaced(w, ApplyPut(w, pid, s), pid);
  }

  lemma {:induction false} GetStepKeepsPlaced(w: World, pid: nat, s: GetStep)
    requires Placed(w) && GetEnabled(w, pid, s)
    ensures Placed(ApplyGet(w, pid, s))
  {
    GetMoves(w, pid, s);
    MovedStaysPlaced(w, ApplyGet(w, pid, s), pid);
  }

  lemma {:induction false} UnlistKeepsPlaced(w: World, pid: nat)
    requires Placed(w) && DeleteEnabled(w, pid, Unlist)
    ensures Placed(AfterUnlist(w, pid))
  {
    MovedStaysPlaced(w, AfterUnlist(w, pid), pid);
  }

  lemma {:induction false} DropKeepsPlaced(w: World, pid: nat)
    requires Placed(w) && DeleteEnabled(w, pid, Drop)
    ensures Placed(AfterDrop(w, pid))
  {
    MovedStaysPlaced(w, AfterDrop(w, pid), pid);
  }

  lemma {:induction false} DeleteStepKeepsPlaced(w: World, pid: nat, s: DeleteStep)
    requires Placed(w) && DeleteEnabled(w, pid, s) && !s.Erase?
    ensures Placed(ApplyDelete(w, pid, s))
  {
    if s.Unlist? {
      UnlistKeepsPlaced(w, pid);
    } else if s.Drop? {
      DropKeepsPlaced(w, pid);
    } else {
      MovedStaysPlaced(w, ApplyDelete(w, pid, s), pid);
    }
  }

  lemma {:induction false} SaveKeepsPlaced(w: World, pid: nat)
    requires Placed(w) && CopyEnabled(w, pid, Save)
    ensures Placed(AfterSave(w, pid))
  {
    var p := w.procs[pid];
    WrittenIsPlaced(w, AfterSave(w, pid), pid, p.chunk.id, p.copy.address, p.copy.data);
  }

  lemma {:induction false} RecordKeepsPlaced(w: World, pid: nat)
    requires Sound(w) && Placed(w) && CopyEnabled(w, pid, Record)
    ensures Placed(AfterRecord(w, pid))
  {
    var t := AfterRecord(w, pid);
    var p := w.procs[pid];
    if t.procs[pid].copy.Finished? {
      NowhereAimed(w, t, pid);
      RecordedIsPlaced(w, t, pid, t.cluster.meta.chunks[p.chunk.id], p.copy.node);
    } else {
      JustMovedStaysPlaced(w, t, pid, p.(copy := Cleaning(p.copy.node, p.copy.address)));
    }
  }

  lemma {:induction false} CleanKeepsPlaced(w: World, pid: nat)
    requires Placed(w) && CopyEnabled(w, pid, Clean)
    ensures Placed(AfterClean(w, pid))
  {
    var p := w.procs[pid];
    assert Holding(p) == Some((p.chunk.id, p.copy.address));
    assert OwnCopy(w, (p.chunk.id, p.copy.address));
    ErasedIsPlacedIff(w, AfterClean(w, pid), p.chunk.id, p.copy.address);
  }

  lemma {:induction false} FetchKeepsPlaced(w: World, pid: nat)
    requires Placed(w) && CopyEnabled(w, pid, Fetch)
    ensures Placed(AfterFetch(w, pid))
  {
    JustMovedStaysPlaced(w, AfterFetch(w, pid), pid, AfterFetch(w, pid).procs[pid]);
  }

  lemma {:induction false} CopyStepKeepsPlaced(w: World, pid: nat, s: CopyStep)
    requires Sound(w) && Placed(w) && CopyEnabled(w, pid, s)
    ensures Placed(ApplyCopy(w, pid, s))
  {
    match s
    case Fetch => FetchKeepsPlaced(w, pid);
    case Save => SaveKeepsPlaced(w, pid);
    case Record => RecordKeepsPlaced(w, pid);
    case Clean => CleanKeepsPlaced(w, pid);
    case _ => MovedStaysPlaced(w, ApplyCopy(w, pid, s), pid);
  }

  lemma {:induction false} RegisterKeepsPlaced(w: World, node: u64, address: Address)
    requires Placed(w) && Enabled(w, Register(node, address))
    ensures Placed(AfterRegister(w, node, address))
  {
    QuietKeepsPlaced(w, AfterRegister(w, node, address));
  }

  lemma {:induction false} DeregisterKeepsPlaced(w: World, node: u64)
    requires Placed(w) && Enabled(w, Deregister(node))
    ensures Placed(Apply(w, Deregister(node)))
  {
    QuietKeepsPlaced(w, Apply(w, Deregister(node)));
  }

  predicate IsErasure(s: Step) {
    s.DeleteBy? && s.delete.Erase?
  }

  lemma {:induction false} StepKeepsPlaced(w: World, s: Step)
    requires Sound(w) && Placed(w) && Enabled(w, s) && !IsErasure(s)
    ensures Placed(Apply(w, s))
  {
    match s
    case Register(node, address) => RegisterKeepsPlaced(w, node, address);
    case Deregister(node) => DeregisterKeepsPlaced(w, node);
    case Fail(pid) => FailKeepsPlaced(w, pid);
    case PutBy(pid, put) => PutStepKeepsPlaced(w, pid, put);
    case GetBy(pid, get) => GetStepKeepsPlaced(w, pid, get);
    case DeleteBy(pid, delete) => DeleteStepKeepsPlaced(w, pid, delete);
    case CopyBy(pid, copy) => CopyStepKeepsPlaced(w, pid, copy);
  }

  /** A deletion's erasure is the exception, exactly when the copy is recorded or held. */
  lemma {:induction false} EraseKeepsPlacedIff(w: World, pid: nat, k: nat)
    requires Placed(w) && DeleteEnabled(w, pid, Erase(k))
    requires var target := w.procs[pid].delete.targets[k]; w.cluster.Copy(target.1, target.0).Some?
    ensures var target := w.procs[pid].delete.targets[k];
            Placed(AfterErase(w, pid, k)) <==>
              !RecordedAt(w, target.0, target.1) && forall q | q in w.procs :: Holding(w.procs[q]) != Some(target)
  {
    var (id, address) := w.procs[pid].delete.targets[k];
    ErasedIsPlacedIff(w, AfterErase(w, pid, k), id, address);
  }

  // ---------------------------------------------------------------------------------------
  // Whole runs
  // ---------------------------------------------------------------------------------------

  predicate WithoutErasures(steps: seq<Step>) {
    forall s | s in steps :: !IsErasure(s)
  }

  lemma {:induction false} RunKeepsPlaced(w: World, steps: seq<Step>)
    requires Sound(w) && Placed(w) && Runs(w, steps) && WithoutErasures(steps)
    ensures Sound(After(w, steps)) && Placed(After(w, steps))
    decreases |steps|
  {
    if steps != [] {
      StepKeepsSound(w, steps[0]);
      StepKeepsPlaced(w, steps[0]);
      RunKeepsPlaced(Apply(w, steps[0]), steps[1..]);
    }
  }

  /** In runs without erasures, every node recorded for a confirmed chunk holds its bytes, and the recorded checksum is theirs. */
  lemma {:induction false} RecordedReplicasHoldTheChunk(steps: seq<Step>, id: u64, n: u64)
    requires Runs(EMPTY_WORLD, steps) && WithoutErasures(steps)
    requires var m := After(EMPTY_WORLD, steps).cluster.meta;
             id in m.chunks && m.chunks[id].status.Confirmed? && n in m.chunks[id].storageNodes
    ensures var w := After(EMPTY_WORLD, steps);
            && n in w.addressOf && id in w.intended
            && w.cluster.Copy(w.addressOf[n], id) == Some(w.intended[id])
            && Crc32.Checksum(w.intended[id]) == w.cluster.meta.chunks[id].checksum
  {
    EmptyWorldIsSound();
    RunKeepsPlaced(EMPTY_WORLD, steps);
    var w := After(EMPTY_WORLD, steps);
    assert InPlace(w, id, n);
  }

  /** Cleaning up after a rejected record erases a copy that nobody has recorded, and no other. */
  lemma {:induction false} CleanupSparesReplicas(steps: seq<Step>, pid: nat, id: u64, n: u64)
    requires Runs(EMPTY_WORLD, steps) && WithoutErasures(steps)
    requires CopyEnabled(After(EMPTY_WORLD, steps), pid, Clean)
    requires var m := After(EMPTY_WORLD, steps).cluster.meta; id in m.chunks && n in m.chunks[id].storageNodes
    ensures var w := After(EMPTY_WORLD, steps);
            && n in w.addressOf && w.cluster.Copy(w.addressOf[n], id).Some?
            && AfterClean(w, pid).cluster.Copy(w.addressOf[n], id) == w.cluster.Copy(w.addressOf[n], id)
  {
    EmptyWorldIsSound();
    RunKeepsPlaced(EMPTY_WORLD, steps);
    var w := After(EMPTY_WORLD, steps);
    var p := w.procs[pid];
    assert InPlace(w, id, n);
    assert OwnCopy(w, Holding(p).value);
  }
}
