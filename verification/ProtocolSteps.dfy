/**
 * What the steps of the protocol do, one by one: to the copies on the storage nodes, and to the
 * objects as a reader sees them.
 */
module ProtocolSteps {
  import opened Base
  import opened Metadata
  import opened MetadataInvariants
  import opened MetadataMeaning
  import opened Cluster
  import opened Chunking
  import opened Protocol
  import opened ProtocolContents
  import opened ProtocolPlacement
  import Crc32

  // ---------------------------------------------------------------------------------------
  // Copies
  // ---------------------------------------------------------------------------------------

  /** One copy, and no other, becomes this. */
  ghost predicate OnlyCopy(a: ClusterState, b: ClusterState, address: Address, id: u64, copy: Option<seq<byte>>) {
    && b.Copy(address, id) == copy && b.disks.Keys == a.disks.Keys
    && forall other, x: u64 | (other, x) != (address, id) :: b.Copy(other, x) == a.Copy(other, x)
  }

  ghost predicate SameCopies(a: ClusterState, b: ClusterState) {
    forall address, id: u64 :: b.Copy(address, id) == a.Copy(address, id)
  }

  /** A PUT stores the piece it is at, and no other of its steps touches a copy. */
  lemma {:induction false} PutStepCopies(w: World, pid: nat, s: PutStep)
    requires PutEnabled(w, pid, s)
    ensures s.Write? ==> var p := w.procs[pid];
                         OnlyCopy(w.cluster, ApplyPut(w, pid, s).cluster, p.put.address, p.put.id, Some(p.pieces[p.done]))
    ensures !s.Write? ==> SameCopies(w.cluster, ApplyPut(w, pid, s).cluster)
  {
  }

  /** A DELETE erases exactly the copies it has listed. */
  lemma {:induction false} DeleteStepCopies(w: World, pid: nat, s: DeleteStep)
    requires DeleteEnabled(w, pid, s)
    ensures s.Erase? ==> var (id, address) := w.procs[pid].delete.targets[s.k];
                         OnlyCopy(w.cluster, ApplyDelete(w, pid, s).cluster, address, id, None)
    ensures !s.Erase? ==> SameCopies(w.cluster, ApplyDelete(w, pid, s).cluster)
  {
  }

  /** A replication stores what it has read, and erases it again when it cleans up. */
  lemma {:induction false} CopyStepCopies(w: World, pid: nat, s: CopyStep)
    requires CopyEnabled(w, pid, s)
    ensures s.Save? ==> var p := w.procs[pid];
                        OnlyCopy(w.cluster, ApplyCopy(w, pid, s).cluster, p.copy.address, p.chunk.id, Some(p.copy.data))
    ensures s.Clean? ==> var p := w.procs[pid];
                         OnlyCopy(w.cluster, ApplyCopy(w, pid, s).cluster, p.copy.address, p.chunk.id, None)
    ensures !s.Save? && !s.Clean? ==> SameCopies(w.cluster, ApplyCopy(w, pid, s).cluster)
  {
  }

  lemma {:induction false} RegisterCopies(w: World, node: u64, address: Address)
    ensures SameCopies(w.cluster, AfterRegister(w, node, address).cluster)
  {
  }

  /** No other step touches a copy. */
  lemma {:induction false} OtherStepCopies(w: World, s: Step)
    requires Enabled(w, s) && !s.PutBy? && !s.DeleteBy? && !s.CopyBy?
    ensures SameCopies(w.cluster, Apply(w, s).cluster)
  {
    match s
    case Register(node, address) => RegisterCopies(w, node, address);
    case GetBy(pid, get) => GetMoves(w, pid, get);
    case _ =>
  }

  /** The step of a replication that lets go of a copy has recorded or erased it; a failing record leads to cleaning up. */
  lemma {:induction false} CopyEndsClean(w: World, pid: nat, s: CopyStep)
    requires CopyEnabled(w, pid, s) && !s.List? && Holding(w.procs[pid]).Some? && Holding(ApplyCopy(w, pid, s).procs[pid]).None?
    ensures var (t, p) := (ApplyCopy(w, pid, s), w.procs[pid]);
            || t.cluster.Copy(p.copy.address, p.chunk.id).None?
            || (p.chunk.id in t.cluster.meta.chunks && p.copy.node in t.cluster.meta.chunks[p.chunk.id].storageNodes)
  {
    if s.Record? {
      RecordExtends(w, pid);
    } else {
      assert s.Clean?;
      CopyStepCopies(w, pid, s);
    }
  }

  lemma {:induction false} FailedRecordIsCleaned(w: World, pid: nat)
    requires CopyAt(w, pid) && w.procs[pid].copy.Recording?
    ensures var p := Apply(w, Fail(pid)).procs[pid];
            p.Copy? && p.copy.Cleaning? && Holding(p) == Holding(w.procs[pid])
  {
  }

  // ---------------------------------------------------------------------------------------
  // Objects and records
  // ---------------------------------------------------------------------------------------

  lemma {:induction false} PutStepKeepsReferential(w: World, pid: nat, s: PutStep)
    requires Referential(w.cluster.meta) && PutEnabled(w, pid, s)
    ensures Referential(ApplyPut(w, pid, s).cluster.meta)
  {
    match s
    case Allocate(id, node) => AllocateChunkKeeps(w.cluster.meta, w.procs[pid].name, Draw(id, Some(node)));
    case Confirm =>
      var p := w.procs[pid];
      ConfirmChunkKeeps(w.cluster.meta, p.put.id, p.name, Crc32.Checksum(p.pieces[p.done]), p.put.node);
    case Undo => DeleteObjectKeeps(w.cluster.meta, w.procs[pid].name);
    case _ =>
  }

  lemma {:induction false} DeleteStepKeepsReferential(w: World, pid: nat, s: DeleteStep)
    requires Referential(w.cluster.meta) && DeleteEnabled(w, pid, s)
    ensures Referential(ApplyDelete(w, pid, s).cluster.meta)
  {
    match s
    case Unlist => DeleteChunkKeeps(w.cluster.meta, w.procs[pid].ids[w.procs[pid].delete.next]);
    case Drop => DeleteObjectKeeps(w.cluster.meta, w.procs[pid].name);
    case _ =>
  }

  lemma {:induction false} CopyStepKeepsReferential(w: World, pid: nat, s: CopyStep)
    requires Referential(w.cluster.meta) && CopyEnabled(w, pid, s)
    ensures Referential(ApplyCopy(w, pid, s).cluster.meta)
  {
    if s.Record? {
      AddChunkReplicaKeeps(w.cluster.meta, w.procs[pid].chunk.id, w.procs[pid].copy.node);
    }
  }

  /** Every step keeps the referential invariant of the metadata. */
  lemma {:induction false} StepKeepsReferential(w: World, s: Step)
    requires Referential(w.cluster.meta) && Enabled(w, s)
    ensures Referential(Apply(w, s).cluster.meta)
  {
    match s
    case PutBy(pid, put) => PutStepKeepsReferential(w, pid, put);
    case GetBy(pid, get) => GetMoves(w, pid, get);
    case DeleteBy(pid, delete) => DeleteStepKeepsReferential(w, pid, delete);
    case CopyBy(pid, copy) => CopyStepKeepsReferential(w, pid, copy);
    case _ =>
  }

  lemma {:induction false} RunKeepsReferential(w: World, steps: seq<Step>)
    requires Referential(w.cluster.meta) && Runs(w, steps)
    ensures Referential(After(w, steps).cluster.meta)
    decreases |steps|
  {
    if steps != [] {
      StepKeepsReferential(w, steps[0]);
      RunKeepsReferential(Apply(w, steps[0]), steps[1..]);
    }
  }

  /** A PUT's steps as a reader sees them: an empty object, one more record, no object; all else goes unseen. */
  lemma {:induction false} PutStepViews(w: World, pid: nat, s: PutStep)
    requires Referential(w.cluster.meta) && PutEnabled(w, pid, s)
    ensures var (before, after, t) := (View(w.cluster.meta), View(ApplyPut(w, pid, s).cluster.meta), ApplyPut(w, pid, s));
            match s
            case Create(name, checksum, _) =>
              && after == (if name in before then before else before[name := ObjectView(checksum, 0, [])])
              && (t.procs[pid].put.Next? <==> name !in before)
            case Confirm =>
              var p := w.procs[pid];
              if t.procs[pid].put.Next? then
                p.name in before && var v := before[p.name];
                after == before[p.name := v.(records := v.records +
                  [Some(MetaChunk(p.put.id, p.name, Crc32.Checksum(p.pieces[p.done]), [p.put.node], Confirmed))])]
              else
                after == before
            case Undo => after == before - {w.procs[pid].name}
            case _ => after == before
  {
    var m := w.cluster.meta;
    match s
    case Create(name, checksum, _) => PutObjectAddsEmpty(m, checksum, name);
    case Allocate(id, node) => AllocateReserves(m, w.procs[pid].name, Draw(id, Some(node)));
    case Confirm => ConfirmView(w, pid);
    case Undo => DropView(m, w.procs[pid].name);
    case _ =>
  }

  lemma {:induction false} ConfirmView(w: World, pid: nat)
    requires Referential(w.cluster.meta) && PutEnabled(w, pid, Confirm)
    ensures var (before, after, p) := (View(w.cluster.meta), View(AfterConfirm(w, pid).cluster.meta), w.procs[pid]);
            if AfterConfirm(w, pid).procs[pid].put.Next? then
              p.name in before && var v := before[p.name];
              after == before[p.name := v.(records := v.records +
                [Some(MetaChunk(p.put.id, p.name, Crc32.Checksum(p.pieces[p.done]), [p.put.node], Confirmed))])]
            else
              after == before
  {
    var p := w.procs[pid];
    if ConfirmChunk(w.cluster.meta, p.put.id, p.name, Crc32.Checksum(p.pieces[p.done]), p.put.node).result.Ok? {
      ConfirmAppendsRecord(w.cluster.meta, p.put.id, p.name, Crc32.Checksum(p.pieces[p.done]), p.put.node);
    }
  }

  lemma {:induction false} DropView(m: MetaState, name: string)
    requires Referential(m)
    ensures View(DeleteObject(m, name).state) == View(m) - {name}
  {
    if name in m.objects {
      DeleteObjectRemovesView(m, name);
    } else {
      assert View(m) - {name} == View(m);
    }
  }

  /** A DELETE's steps: a listed chunk is gone with its record, wherever it was listed; at the end the object is. */
  lemma {:induction false} DeleteStepViews(w: World, pid: nat, s: DeleteStep)
    requires Referential(w.cluster.meta) && DeleteEnabled(w, pid, s)
    ensures var (m, t) := (w.cluster.meta, ApplyDelete(w, pid, s).cluster.meta);
            match s
            case Unlist =>
              var id := w.procs[pid].ids[w.procs[pid].delete.next];
              && id !in t.chunks && (forall other | other != id :: RecordOf(t.chunks, other) == RecordOf(m.chunks, other))
              && t.objects.Keys == m.objects.Keys
              && (forall name, a, b | name in m.objects && m.objects[name].chunks == a + [id] + b :: t.objects[name].chunks == a + b)
              && (forall name | name in m.objects && id !in m.objects[name].chunks :: t.objects[name] == m.objects[name])
            case Drop => View(t) == View(m) - {w.procs[pid].name}
            case _ => t == m
  {
    match s
    case Unlist => UnlistTakesOne(w.cluster.meta, w.procs[pid].ids[w.procs[pid].delete.next]);
    case Drop => DropView(w.cluster.meta, w.procs[pid].name);
    case _ =>
  }

  lemma {:induction false} UnlistTakesOne(m: MetaState, id: u64)
    requires Referential(m)
    ensures var t := DeleteChunk(m, id).state;
            && id !in t.chunks && (forall other | other != id :: RecordOf(t.chunks, other) == RecordOf(m.chunks, other))
            && t.objects.Keys == m.objects.Keys
            && (forall name, a, b | name in m.objects && m.objects[name].chunks == a + [id] + b :: t.objects[name].chunks == a + b)
            && (forall name | name in m.objects && id !in m.objects[name].chunks :: t.objects[name] == m.objects[name])
  {
    var t := DeleteChunk(m, id).state;
    forall name, a, b | name in m.objects && m.objects[name].chunks == a + [id] + b
      ensures t.objects[name].chunks == a + b
    {
      DeleteChunkDropsRecord(m, id, name, a, b);
    }
    forall name | name in m.objects && id !in m.objects[name].chunks
      ensures t.objects[name] == m.objects[name]
    {
      WithoutElements(m.objects[name].chunks, id);
    }
  }

  /** The record of this chunk has one more node at its end, and nothing else is different. */
  ghost predicate Extended(m: MetaState, t: MetaState, id: u64, node: u64) {
    && id in m.chunks && id in t.chunks && t.objects == m.objects && t.nodes == m.nodes
    && t.chunks[id] == m.chunks[id].(storageNodes := m.chunks[id].storageNodes + [node])
    && forall other | other != id :: RecordOf(t.chunks, other) == RecordOf(m.chunks, other)
  }

  lemma {:induction false} AddedExtends(m: MetaState, id: u64, node: u64)
    ensures var due := AddChunkReplica(m, id, node);
            if due.result.Ok? then Extended(m, due.state, id, node) else due.state == m
  {
  }

  lemma {:induction false} RecordExtends(w: World, pid: nat)
    requires CopyEnabled(w, pid, Record)
    ensures var (m, t, p) := (w.cluster.meta, AfterRecord(w, pid), w.procs[pid]);
            if Holding(t.procs[pid]).None? then Extended(m, t.cluster.meta, p.chunk.id, p.copy.node) else t.cluster.meta == m
  {
    AddedExtends(w.cluster.meta, w.procs[pid].chunk.id, w.procs[pid].copy.node);
  }

  /** A replication changes one record, by its target, if that is accepted; no other of its steps changes a record. */
  lemma {:induction false} CopyStepRecords(w: World, pid: nat, s: CopyStep)
    requires CopyEnabled(w, pid, s) && !s.Record?
    ensures ApplyCopy(w, pid, s).cluster.meta == w.cluster.meta
  {
  }
}
