/**
 * Processes that are left alone get to their ends: an upload completes, a download delivers what was
 * uploaded, a deletion leaves nothing, and a replication makes one more replica. So the steps of the
 * protocol, taken in a row, come to what the handlers and the replication cycle do.
 */
module ProtocolAlone {
  import opened Base
  import opened Metadata
  import opened MetadataInvariants
  import opened Cluster
  import opened Chunking
  import opened Protocol
  import opened ProtocolContents
  import Replication
  import Calls
  import Crc32

  ghost predicate OnlyBy(steps: seq<Step>, pid: nat) {
    forall i | 0 <= i < |steps| :: Actor(steps[i]) == Some(pid)
  }

  lemma {:induction false} FirstThen(w: World, s: Step, rest: seq<Step>, pid: nat)
    requires Enabled(w, s) && Runs(Apply(w, s), rest) && Actor(s) == Some(pid) && OnlyBy(rest, pid)
    ensures Runs(w, [s] + rest) && After(w, [s] + rest) == After(Apply(w, s), rest) && OnlyBy([s] + rest, pid)
  {
    RunsFirst(w, s, rest);
  }

  /** An upload at this point can go on: its object is there, and so is a node, and there are ids. */
  ghost predicate CanUpload(w: World, pid: nat, node: u64, n: nat) {
    && Sound(w) && PutAt(w, pid) && w.procs[pid].put.Next? && w.procs[pid].done + n == |w.procs[pid].pieces|
    && w.procs[pid].name in w.cluster.meta.objects
    && node in w.cluster.meta.nodes && w.cluster.meta.nodes[node] in w.cluster.disks
    && |w.intended| + n <= U64_MAX + 1
  }

  /** An id that was never issued is free among the records and on every disk. */
  lemma {:induction false} UnissuedIsFree(w: World, node: u64, id: u64)
    requires Sound(w) && node in w.cluster.meta.nodes && w.cluster.meta.nodes[node] in w.cluster.disks && id !in w.intended
    ensures ValidDraw(w.cluster.meta, Draw(id, Some(node))) && w.cluster.CanStore(w.cluster.meta.nodes[node], id)
  {
    assert id in w.cluster.meta.chunks ==> RecordSound(w.cluster.meta.chunks[id], w.intended);
    assert w.cluster.Copy(w.cluster.meta.nodes[node], id).None?;
  }

  lemma {:induction false} AllocateAlone(w: World, pid: nat, node: u64, id: u64)
    requires PutAt(w, pid) && w.procs[pid].put.Next? && w.procs[pid].done < |w.procs[pid].pieces|
    requires id !in w.intended && ValidDraw(w.cluster.meta, Draw(id, Some(node)))
    ensures PutEnabled(w, pid, Allocate(id, node))
    ensures var (t, p) := (AfterAllocate(w, pid, id, node), w.procs[pid]);
            && t.procs == w.procs[pid := p.(put := Writing(id, node, w.cluster.meta.nodes[node]))]
            && t.intended == w.intended[id := p.pieces[p.done]] && t.cluster.disks == w.cluster.disks
            && t.cluster.meta.nodes == w.cluster.meta.nodes && t.cluster.meta.objects == w.cluster.meta.objects
            && id in t.cluster.meta.chunks && t.cluster.meta.chunks[id].status.Pending?
  {
  }

  lemma {:induction false} WriteAlone(w: World, pid: nat, id: u64, node: u64, address: Address)
    requires PutAt(w, pid) && w.procs[pid].put == Writing(id, node, address) && w.procs[pid].done < |w.procs[pid].pieces|
    requires w.cluster.CanStore(address, id)
    ensures PutEnabled(w, pid, Write)
    ensures var (t, p) := (AfterWrite(w, pid), w.procs[pid]);
            && t.procs == w.procs[pid := p.(put := Confirming(id, node, address))]
            && t.intended == w.intended && t.cluster.disks.Keys == w.cluster.disks.Keys && t.cluster.meta == w.cluster.meta
  {
  }

  lemma {:induction false} ConfirmAlone(w: World, pid: nat, id: u64, node: u64, address: Address)
    requires PutAt(w, pid) && w.procs[pid].put == Confirming(id, node, address) && w.procs[pid].done < |w.procs[pid].pieces|
    requires node in w.cluster.meta.nodes && w.procs[pid].name in w.cluster.meta.objects
    requires id in w.cluster.meta.chunks && w.cluster.meta.chunks[id].status.Pending?
    ensures PutEnabled(w, pid, Confirm)
    ensures var (t, p) := (AfterConfirm(w, pid), w.procs[pid]);
            && t.procs == w.procs[pid := p.(done := p.done + 1, put := Next)]
            && t.intended == w.intended && t.cluster.disks == w.cluster.disks && t.cluster.meta.nodes == w.cluster.meta.nodes
            && p.name in t.cluster.meta.objects
            && t.cluster.meta.objects[p.name].chunks == w.cluster.meta.objects[p.name].chunks + [id]
  {
  }

  /** One more piece is uploaded. */
  ghost predicate OnePieceUp(w: World, t: World, pid: nat, id: u64)
    requires PutAt(w, pid) && w.procs[pid].done < |w.procs[pid].pieces|
  {
    var p := w.procs[pid];
    && t.procs == w.procs[pid := p.(done := p.done + 1, put := Next)]
    && t.intended == w.intended[id := p.pieces[p.done]] && id !in w.intended
    && t.cluster.meta.nodes == w.cluster.meta.nodes && t.cluster.disks.Keys == w.cluster.disks.Keys
    && p.name in w.cluster.meta.objects && p.name in t.cluster.meta.objects
    && t.cluster.meta.objects[p.name].chunks == w.cluster.meta.objects[p.name].chunks + [id]
  }

  /** The next piece goes through allocation, writing and confirmation. */
  lemma {:induction false} OnePieceAlone(w: World, pid: nat, node: u64, n: nat)
    returns (id: u64, w1: World, w2: World, w3: World)
    requires CanUpload(w, pid, node, n) && n > 0
    ensures PutEnabled(w, pid, Allocate(id, node)) && w1 == AfterAllocate(w, pid, id, node)
    ensures PutEnabled(w1, pid, Write) && w2 == AfterWrite(w1, pid)
    ensures PutEnabled(w2, pid, Confirm) && w3 == AfterConfirm(w2, pid)
    ensures OnePieceUp(w, w3, pid, id)
  {
    Calls.SomeIdIsFree(w.intended.Keys);
    id :| id !in w.intended;
    UnissuedIsFree(w, node, id);
    AllocateAlone(w, pid, node, id);
    w1 := AfterAllocate(w, pid, id, node);
    w2, w3 := ReservedGoesUp(w, w1, pid, id, node, w.cluster.meta.nodes[node]);
  }

  /** An id was reserved: writing and confirming follow. */
  lemma {:induction false} ReservedGoesUp(w: World, w1: World, pid: nat, id: u64, node: u64, address: Address) returns (w2: World, w3: World)
    requires PutAt(w, pid) && w.procs[pid].done < |w.procs[pid].pieces|
    requires w1.procs == w.procs[pid := w.procs[pid].(put := Writing(id, node, address))]
    requires w1.intended == w.intended[id := w.procs[pid].pieces[w.procs[pid].done]] && id !in w.intended
    requires w1.cluster.disks == w.cluster.disks && w1.cluster.CanStore(address, id)
    requires w1.cluster.meta.nodes == w.cluster.meta.nodes && node in w.cluster.meta.nodes
    requires w1.cluster.meta.objects == w.cluster.meta.objects && w.procs[pid].name in w.cluster.meta.objects
    requires id in w1.cluster.meta.chunks && w1.cluster.meta.chunks[id].status.Pending?
    ensures PutEnabled(w1, pid, Write) && w2 == AfterWrite(w1, pid)
    ensures PutEnabled(w2, pid, Confirm) && w3 == AfterConfirm(w2, pid)
    ensures OnePieceUp(w, w3, pid, id)
  {
    WriteAlone(w1, pid, id, node, address);
    w2 := AfterWrite(w1, pid);
    ConfirmAlone(w2, pid, id, node, address);
    w3 := AfterConfirm(w2, pid);
  }

  lemma {:induction false} StillCanUpload(w: World, t: World, pid: nat, node: u64, n: nat, id: u64)
    requires CanUpload(w, pid, node, n) && n > 0 && OnePieceUp(w, t, pid, id) && Sound(t)
    ensures CanUpload(t, pid, node, n - 1)
  {
    assert |t.intended| == |t.intended.Keys| && t.intended.Keys == w.intended.Keys + {id};
  }

  /** What an upload that is left alone comes to: its object lists a chunk for every piece, in order. */
  ghost predicate Uploaded(w: World, t: World, pid: nat, ids: seq<u64>)
    requires PutAt(w, pid) && w.procs[pid].done <= |w.procs[pid].pieces|
  {
    var p := w.procs[pid];
    && t.procs == w.procs[pid := p.(done := |p.pieces|, put := PutDone)]
    && p.name in w.cluster.meta.objects && p.name in t.cluster.meta.objects
    && t.cluster.meta.objects[p.name].chunks == w.cluster.meta.objects[p.name].chunks + ids
    && Issued(ids, t.intended) && ContentsOf(ids, t.intended) == p.pieces[p.done..]
    && Grows(w.intended, t.intended)
  }

  lemma {:induction false} UploadedInFront(w: World, w3: World, t: World, pid: nat, id: u64, more: seq<u64>)
    requires PutAt(w, pid) && w.procs[pid].done < |w.procs[pid].pieces| && OnePieceUp(w, w3, pid, id)
    requires Uploaded(w3, t, pid, more)
    ensures Uploaded(w, t, pid, [id] + more)
  {
    var p := w.procs[pid];
    PieceInFront(w3.intended, t.intended, id, more, p.pieces, p.done);
    assert w.cluster.meta.objects[p.name].chunks + [id] + more == w.cluster.meta.objects[p.name].chunks + ([id] + more);
  }

  lemma {:induction false} ThreeSteps(w: World, w1: World, w2: World, pid: nat, a: Step, b: Step, c: Step, rest: seq<Step>) returns (steps: seq<Step>)
    requires Actor(a) == Actor(b) == Actor(c) == Some(pid) && OnlyBy(rest, pid)
    requires Enabled(w, a) && w1 == Apply(w, a) && Enabled(w1, b) && w2 == Apply(w1, b) && Enabled(w2, c) && Runs(Apply(w2, c), rest)
    ensures Runs(w, steps) && OnlyBy(steps, pid) && After(w, steps) == After(Apply(w2, c), rest)
  {
    FirstThen(w2, c, rest, pid);
    FirstThen(w1, b, [c] + rest, pid);
    FirstThen(w, a, [b] + ([c] + rest), pid);
    steps := [a] + ([b] + ([c] + rest));
  }

  lemma {:induction false} NothingLeftToUpload(w: World, pid: nat, node: u64)
    requires CanUpload(w, pid, node, 0)
    ensures PutEnabled(w, pid, Complete) && Uploaded(w, ApplyPut(w, pid, Complete), pid, [])
  {
    assert ContentsOf([], w.intended) == [];
  }

  /** An upload that is left alone completes. */
  lemma {:induction false} PutAlone(w: World, pid: nat, node: u64, n: nat) returns (steps: seq<Step>, ids: seq<u64>)
    requires CanUpload(w, pid, node, n)
    ensures Runs(w, steps) && OnlyBy(steps, pid) && Uploaded(w, After(w, steps), pid, ids)
    decreases n
  {
    if n == 0 {
      NothingLeftToUpload(w, pid, node);
      FirstThen(w, PutBy(pid, Complete), [], pid);
      steps, ids := [PutBy(pid, Complete)] + [], [];
    } else {
      var id, w1, w2, w3 := OnePieceAlone(w, pid, node, n);
      AllocateKeepsSound(w, pid, id, node);
      WriteKeepsSound(w1, pid);
      ConfirmKeepsSound(w2, pid);
      StillCanUpload(w, w3, pid, node, n, id);
      var rest, more := PutAlone(w3, pid, node, n - 1);
      steps := ThreeSteps(w, w1, w2, pid, PutBy(pid, Allocate(id, node)), PutBy(pid, Write), PutBy(pid, Confirm), rest);
      UploadedInFront(w, w3, After(w, steps), pid, id, more);
      ids := [id] + more;
    }
  }

  lemma {:induction false} PieceInFront(before: Bytes, after: Bytes, id: u64, more: seq<u64>, pieces: seq<seq<byte>>, done: nat)
    requires done < |pieces| && Grows(before, after) && id in before && before[id] == pieces[done]
    requires Issued(more, after) && ContentsOf(more, after) == pieces[done + 1..]
    ensures Issued([id] + more, after) && ContentsOf([id] + more, after) == pieces[done..]
  {
    assert pieces[done..] == [pieces[done]] + pieces[done + 1..];
    assert ContentsOf([id] + more, after) == [after[id]] + ContentsOf(more, after);
  }

  /** Some replica of the chunk is there. */
  ghost predicate SomewhereThere(c: ClusterState, ref: ChunkRef) {
    exists a :: a in ref.addresses && c.Copy(a, ref.id).Some?
  }

  /** A download at this point can go on: chunk `k` and those after it have a replica that is there. */
  ghost predicate CanRead(w: World, pid: nat, k: nat) {
    && GetAt(w, pid) && w.procs[pid].get.Reading? && k <= |w.procs[pid].get.refs|
    && (forall j | 0 <= j < k :: j in w.procs[pid].get.got)
    && forall j | k <= j < |w.procs[pid].get.refs| :: SomewhereThere(w.cluster, w.procs[pid].get.refs[j])
  }

  /** A download that is left alone delivers. */
  lemma {:induction false} ReadAlone(w: World, pid: nat, k: nat) returns (steps: seq<Step>)
    requires CanRead(w, pid, k)
    ensures Runs(w, steps) && OnlyBy(steps, pid)
    ensures GetAt(After(w, steps), pid) && After(w, steps).procs[pid].get.Delivered? && After(w, steps).cluster == w.cluster
    decreases |w.procs[pid].get.refs| - k
  {
    var p := w.procs[pid];
    if k == |p.get.refs| {
      FirstThen(w, GetBy(pid, Deliver), [], pid);
      steps := [GetBy(pid, Deliver)] + [];
    } else {
      assert SomewhereThere(w.cluster, p.get.refs[k]);
      var a :| a in p.get.refs[k].addresses && w.cluster.Copy(a, p.get.refs[k].id).Some?;
      var t := AfterRead(w, pid, k, a);
      var rest := ReadAlone(t, pid, k + 1);
      FirstThen(w, GetBy(pid, Read(k, a)), rest, pid);
      steps := [GetBy(pid, Read(k, a))] + rest;
    }
  }

  lemma {:induction false} GetAlone(w: World, pid: nat) returns (steps: seq<Step>)
    requires GetEnabled(w, pid, Resolve)
    requires forall ref | ref in Refs(w.cluster.meta, w.procs[pid].ids) :: SomewhereThere(w.cluster, ref)
    ensures Runs(w, steps) && OnlyBy(steps, pid)
    ensures GetAt(After(w, steps), pid) && After(w, steps).procs[pid].get.Delivered? && After(w, steps).cluster == w.cluster
  {
    var t := ApplyGet(w, pid, Resolve);
    assert forall j | 0 <= j < |t.procs[pid].get.refs| :: t.procs[pid].get.refs[j] in Refs(w.cluster.meta, w.procs[pid].ids);
    var rest := ReadAlone(t, pid, 0);
    FirstThen(w, GetBy(pid, Resolve), rest, pid);
    steps := [GetBy(pid, Resolve)] + rest;
  }

  // ---------------------------------------------------------------------------------------
  // From the first step on
  // ---------------------------------------------------------------------------------------

  /** The whole upload: the object is created, and lists a chunk for every piece, issued for exactly that piece. */
  lemma {:induction false} UploadAlone(w: World, pid: nat, name: string, checksum: u32, pieces: seq<seq<byte>>, node: u64)
    returns (steps: seq<Step>, ids: seq<u64>)
    requires Sound(w) && pid !in w.procs && name !in w.cluster.meta.objects
    requires node in w.cluster.meta.nodes && w.cluster.meta.nodes[node] in w.cluster.disks && |w.intended| + |pieces| <= U64_MAX + 1
    ensures Runs(w, steps) && OnlyBy(steps, pid)
    ensures var t := After(w, steps);
            && t.procs == w.procs[pid := Put(name, pieces, |pieces|, PutDone)]
            && name in t.cluster.meta.objects && t.cluster.meta.objects[name].chunks == ids
            && Issued(ids, t.intended) && ContentsOf(ids, t.intended) == pieces
  {
    var s := PutBy(pid, Create(name, checksum, pieces));
    var begun := AfterCreate(w, pid, name, checksum, pieces);
    CreateKeepsSound(w, pid, name, checksum, pieces);
    var rest;
    rest, ids := PutAlone(begun, pid, node, |pieces|);
    FirstThen(w, s, rest, pid);
    steps := [s] + rest;
    assert pieces[0..] == pieces;
  }

  /** The whole download: what the listed chunks were issued for, and nothing on the remote side changes. */
  lemma {:induction false} DownloadAlone(w: World, pid: nat, name: string) returns (steps: seq<Step>)
    requires Sound(w) && pid !in w.procs && Readable(w.cluster.meta, name) && Issued(w.cluster.meta.objects[name].chunks, w.intended)
    requires forall ref | ref in RefsOf(w.cluster.meta, name) :: SomewhereThere(w.cluster, ref)
    ensures Runs(w, steps) && OnlyBy(steps, pid) && After(w, steps).cluster == w.cluster && GetAt(After(w, steps), pid)
    ensures After(w, steps).procs[pid].get == Delivered(Flatten(ContentsOf(w.cluster.meta.objects[name].chunks, w.intended)))
  {
    var begun := AfterLook(w, pid, name);
    var rest := GetAlone(begun, pid);
    DownloadReturnsLookedUp(w, pid, name, rest);
    FirstThen(w, GetBy(pid, Look(name)), rest, pid);
    steps := [GetBy(pid, Look(name))] + rest;
  }

  // ---------------------------------------------------------------------------------------
  // A deletion
  // ---------------------------------------------------------------------------------------

  /** From target `k` on all copies are erased whose nodes are there, and nothing else happens. */
  ghost predicate ErasedFrom(w: World, t: World, targets: seq<(u64, Address)>, k: nat) {
    && t.procs == w.procs && t.cluster.meta == w.cluster.meta && t.cluster.disks.Keys == w.cluster.disks.Keys
    && (forall j | k <= j < |targets| && targets[j].1 in w.cluster.disks :: t.cluster.Copy(targets[j].1, targets[j].0).None?)
    && (forall address, id | t.cluster.Copy(address, id).Some? :: t.cluster.Copy(address, id) == w.cluster.Copy(address, id))
  }

  lemma {:induction false} ErasedOne(w: World, pid: nat, k: nat)
    requires DeleteEnabled(w, pid, Erase(k))
    ensures var (t, target) := (AfterErase(w, pid, k), w.procs[pid].delete.targets[k]);
            && t.procs == w.procs && t.cluster.meta == w.cluster.meta && t.cluster.disks.Keys == w.cluster.disks.Keys
            && t.cluster.Copy(target.1, target.0).None?
            && (forall address, id | t.cluster.Copy(address, id).Some? :: t.cluster.Copy(address, id) == w.cluster.Copy(address, id))
  {
  }

  lemma {:induction false} EraseAlone(w: World, pid: nat, k: nat) returns (steps: seq<Step>)
    requires DeleteAt(w, pid) && w.procs[pid].delete.Erasing? && k <= |w.procs[pid].delete.targets|
    ensures Runs(w, steps) && OnlyBy(steps, pid) && ErasedFrom(w, After(w, steps), w.procs[pid].delete.targets, k)
    decreases |w.procs[pid].delete.targets| - k
  {
    var targets := w.procs[pid].delete.targets;
    if k == |targets| {
      steps := [];
    } else if targets[k].1 !in w.cluster.disks {
      steps := EraseAlone(w, pid, k + 1);
    } else {
      var t := AfterErase(w, pid, k);
      ErasedOne(w, pid, k);
      var rest := EraseAlone(t, pid, k + 1);
      FirstThen(w, DeleteBy(pid, Erase(k)), rest, pid);
      steps := [DeleteBy(pid, Erase(k))] + rest;
    }
  }

  /** The object and the records of the chunks from `k` on are gone, and no record is new. */
  ghost predicate UnlistedFrom(w: World, t: World, name: string, ids: seq<u64>, k: nat) {
    && t.cluster.disks == w.cluster.disks && name !in t.cluster.meta.objects
    && (forall j | k <= j < |ids| :: ids[j] !in t.cluster.meta.chunks)
    && (forall id | id in t.cluster.meta.chunks :: id in w.cluster.meta.chunks)
  }

  lemma {:induction false} UnlistAlone(w: World, pid: nat) returns (steps: seq<Step>)
    requires DeleteAt(w, pid) && w.procs[pid].delete.Unlisting? && w.procs[pid].delete.next <= |w.procs[pid].ids|
    ensures Runs(w, steps) && OnlyBy(steps, pid) && UnlistedFrom(w, After(w, steps), w.procs[pid].name, w.procs[pid].ids, w.procs[pid].delete.next)
    ensures DeleteAt(After(w, steps), pid) && After(w, steps).procs[pid].delete.Ended?
    decreases |w.procs[pid].ids| - w.procs[pid].delete.next
  {
    var p := w.procs[pid];
    if p.delete.next == |p.ids| {
      FirstThen(w, DeleteBy(pid, Drop), [], pid);
      steps := [DeleteBy(pid, Drop)] + [];
    } else {
      var t := AfterUnlist(w, pid);
      var rest := UnlistAlone(t, pid);
      FirstThen(w, DeleteBy(pid, Unlist), rest, pid);
      steps := [DeleteBy(pid, Unlist)] + rest;
    }
  }

  lemma {:induction false} RunsThen(w: World, first: seq<Step>, rest: seq<Step>)
    requires Runs(w, first) && Runs(After(w, first), rest)
    ensures Runs(w, first + rest) && After(w, first + rest) == After(After(w, first), rest)
    decreases |first|
  {
    if first == [] {
      assert first + rest == rest;
    } else {
      RunsThen(Apply(w, first[0]), first[1..], rest);
      RunsFirst(w, first[0], first[1..] + rest);
      assert first + rest == [first[0]] + (first[1..] + rest);
    }
  }

  /** The copies go, and then the records. */
  lemma {:induction false} ErasingAlone(w: World, pid: nat) returns (steps: seq<Step>)
    requires DeleteAt(w, pid) && w.procs[pid].delete.Erasing?
    ensures Runs(w, steps) && OnlyBy(steps, pid) && DeleteAt(After(w, steps), pid) && After(w, steps).procs[pid].delete.Ended?
    ensures var (t, p) := (After(w, steps), w.procs[pid]);
            && p.name !in t.cluster.meta.objects && (forall id | id in p.ids :: id !in t.cluster.meta.chunks)
            && forall target | target in p.delete.targets && target.1 in w.cluster.disks :: t.cluster.Copy(target.1, target.0).None?
  {
    var p := w.procs[pid];
    var first := EraseAlone(w, pid, 0);
    var erased := After(w, first);
    var unlisting := ApplyDelete(erased, pid, EndErasing);
    var rest := UnlistAlone(unlisting, pid);
    FirstThen(erased, DeleteBy(pid, EndErasing), rest, pid);
    RunsThen(w, first, [DeleteBy(pid, EndErasing)] + rest);
    steps := first + ([DeleteBy(pid, EndErasing)] + rest);
    assert forall address, id :: After(unlisting, rest).cluster.Copy(address, id) == erased.cluster.Copy(address, id);
  }

  /** The whole deletion: no object, no record of its chunks, and no copy at any recorded replica that is there. */
  lemma {:induction false} DeleteAlone(w: World, pid: nat, name: string) returns (steps: seq<Step>)
    requires pid !in w.procs && Readable(w.cluster.meta, name)
    ensures Runs(w, steps) && OnlyBy(steps, pid)
    ensures var (m, t) := (w.cluster.meta, After(w, steps).cluster);
            && name !in t.meta.objects
            && forall id | id in m.objects[name].chunks ::
                 && id !in t.meta.chunks
                 && forall address | RecordedAt(m, id, address) && address in w.cluster.disks :: t.Copy(address, id).None?
  {
    var looked := AfterLookToDelete(w, pid, name);
    var erasing := ApplyDelete(looked, pid, Target);
    TargetsExactly(w.cluster.meta, name);
    var rest := ErasingAlone(erasing, pid);
    FirstThen(looked, DeleteBy(pid, Target), rest, pid);
    FirstThen(w, DeleteBy(pid, LookToDelete(name)), [DeleteBy(pid, Target)] + rest, pid);
    steps := [DeleteBy(pid, LookToDelete(name))] + ([DeleteBy(pid, Target)] + rest);
    forall id, address: Address | id in w.cluster.meta.objects[name].chunks && RecordedAt(w.cluster.meta, id, address) && address in w.cluster.disks
      ensures After(w, steps).cluster.Copy(address, id).None?
    {
      assert (id, address) in erasing.procs[pid].delete.targets;
    }
  }

  // ---------------------------------------------------------------------------------------
  // A replication
  // ---------------------------------------------------------------------------------------

  /** Chunk `id` can gain a replica on node `n`: it has too few, its first can be read, and the node has room for it. */
  ghost predicate CanGain(w: World, id: u64, n: u64) {
    && Replication.UnderReplicated(w.cluster.meta, id) && w.cluster.meta.chunks[id].id == id
    && Replication.Eligible(w.cluster.meta.nodes, w.cluster.meta.chunks[id], n) && w.cluster.CanStore(w.cluster.meta.nodes[n], id)
    && w.cluster.meta.chunks[id].storageNodes != [] && w.cluster.meta.chunks[id].storageNodes[0] in w.cluster.meta.nodes
    && w.cluster.Copy(w.cluster.meta.nodes[w.cluster.meta.chunks[id].storageNodes[0]], id).Some?
  }

  /** Up to the copy having been read only the process moves. */
  lemma {:induction false} FetchAlone(w: World, pid: nat, id: u64, n: u64) returns (steps: seq<Step>)
    requires Sound(w) && pid !in w.procs && CanGain(w, id, n)
    ensures Runs(w, steps) && OnlyBy(steps, pid)
    ensures var (m, chunk) := (w.cluster.meta, w.cluster.meta.chunks[id]);
            var data := w.cluster.Copy(m.nodes[chunk.storageNodes[0]], id).value;
            After(w, steps) == w.WithProc(pid, Copy(chunk, Storing(n, m.nodes[n], data)))
  {
    var m, chunk := w.cluster.meta, w.cluster.meta.chunks[id];
    var source := m.nodes[chunk.storageNodes[0]];
    var w1, w2 := w.WithProc(pid, Copy(chunk, Listed)), w.WithProc(pid, Copy(chunk, Targeted(n, m.nodes[n])));
    var w3 := w.WithProc(pid, Copy(chunk, Fetching(n, m.nodes[n], source)));
    var w4 := w.WithProc(pid, Copy(chunk, Storing(n, m.nodes[n], w.cluster.Copy(source, id).value)));
    ListedMatches(w, w1, pid, id);
    ChosenMatches(w, w1, w2, pid, chunk, n);
    LocatedMatches(w, w2, w3, pid, chunk, n);
    FetchedMatches(w, w3, w4, pid, id, n, source);
    FirstThen(w3, CopyBy(pid, Fetch), [], pid);
    steps := ThreeSteps(w, w1, w2, pid, CopyBy(pid, List(id)), CopyBy(pid, Choose(n)), CopyBy(pid, Locate), [CopyBy(pid, Fetch)] + []);
  }

  lemma {:induction false} ListedMatches(w: World, w1: World, pid: nat, id: u64)
    requires pid !in w.procs && Replication.UnderReplicated(w.cluster.meta, id) && w1 == w.WithProc(pid, Copy(w.cluster.meta.chunks[id], Listed))
    ensures CopyEnabled(w, pid, List(id)) && ApplyCopy(w, pid, List(id)) == w1
  {
  }

  lemma {:induction false} ChosenMatches(w: World, w1: World, w2: World, pid: nat, chunk: MetaChunk, n: u64)
    requires Replication.Eligible(w.cluster.meta.nodes, chunk, n) && w1 == w.WithProc(pid, Copy(chunk, Listed))
    requires w2 == w.WithProc(pid, Copy(chunk, Targeted(n, w.cluster.meta.nodes[n])))
    ensures CopyEnabled(w1, pid, Choose(n)) && ApplyCopy(w1, pid, Choose(n)) == w2
  {
  }

  lemma {:induction false} LocatedMatches(w: World, w2: World, w3: World, pid: nat, chunk: MetaChunk, n: u64)
    requires n in w.cluster.meta.nodes && chunk.storageNodes != [] && chunk.storageNodes[0] in w.cluster.meta.nodes
    requires w2 == w.WithProc(pid, Copy(chunk, Targeted(n, w.cluster.meta.nodes[n])))
    requires w3 == w.WithProc(pid, Copy(chunk, Fetching(n, w.cluster.meta.nodes[n], w.cluster.meta.nodes[chunk.storageNodes[0]])))
    ensures CopyEnabled(w2, pid, Locate) && AfterLocate(w2, pid) == w3
  {
  }

  lemma {:induction false} FetchedMatches(w: World, w3: World, w4: World, pid: nat, id: u64, n: u64, source: Address)
    requires Sound(w) && CanGain(w, id, n) && w.cluster.Copy(source, id).Some?
    requires w3 == w.WithProc(pid, Copy(w.cluster.meta.chunks[id], Fetching(n, w.cluster.meta.nodes[n], source)))
    requires w4 == w.WithProc(pid, Copy(w.cluster.meta.chunks[id], Storing(n, w.cluster.meta.nodes[n], w.cluster.Copy(source, id).value)))
    ensures CopyEnabled(w3, pid, Fetch) && AfterFetch(w3, pid) == w4
  {
    assert RecordSound(w.cluster.meta.chunks[id], w.intended);
  }

  lemma {:induction false} StoredIsRecorded(w: World, pid: nat, chunk: MetaChunk, n: u64, data: seq<byte>)
    requires n in w.cluster.meta.nodes && CopyAt(w, pid) && w.procs[pid] == Copy(chunk, Storing(n, w.cluster.meta.nodes[n], data))
    requires w.cluster.CanStore(w.cluster.meta.nodes[n], chunk.id) && AddChunkReplica(w.cluster.meta, chunk.id, n).result.Ok?
    ensures CopyEnabled(w, pid, Save) && CopyEnabled(AfterSave(w, pid), pid, Record)
    ensures var (t, m) := (AfterRecord(AfterSave(w, pid), pid).cluster, w.cluster.meta);
            && t.meta == AddChunkReplica(m, chunk.id, n).state && t.Copy(m.nodes[n], chunk.id) == Some(data)
  {
  }

  /** The whole replication: the node has a copy of the first replica, and is recorded last. */
  lemma {:induction false} ReplicateAlone(w: World, pid: nat, id: u64, n: u64) returns (steps: seq<Step>)
    requires Sound(w) && pid !in w.procs && CanGain(w, id, n)
    ensures Runs(w, steps) && OnlyBy(steps, pid)
    ensures var (m, t) := (w.cluster.meta, After(w, steps).cluster);
            && id in t.meta.chunks && t.meta.chunks[id] == m.chunks[id].(storageNodes := m.chunks[id].storageNodes + [n])
            && t.Copy(m.nodes[n], id) == w.cluster.Copy(m.nodes[m.chunks[id].storageNodes[0]], id)
            && t.meta.objects == m.objects
  {
    var first := FetchAlone(w, pid, id, n);
    var fetched := After(w, first);
    var saved := AfterSave(fetched, pid);
    StoredIsRecorded(fetched, pid, w.cluster.meta.chunks[id], n, fetched.procs[pid].copy.data);
    FirstThen(saved, CopyBy(pid, Record), [], pid);
    FirstThen(fetched, CopyBy(pid, Save), [CopyBy(pid, Record)] + [], pid);
    RunsThen(w, first, [CopyBy(pid, Save)] + ([CopyBy(pid, Record)] + []));
    steps := first + ([CopyBy(pid, Save)] + ([CopyBy(pid, Record)] + []));
  }
}
