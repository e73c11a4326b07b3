/**
 * The object protocol with everything in flight at once: any number of uploads, downloads, deletions
 * and replications, interleaved step by step with each other and with storage nodes joining and
 * leaving. A step is one remote call taking effect; a call that fails has no effect.
 */
module Protocol {
  import opened Base
  import opened Metadata
  import opened Cluster
  import opened Chunking
  import Replication
  import Crc32

  // ---------------------------------------------------------------------------------------
  // Processes
  // ---------------------------------------------------------------------------------------

  /** Where a PUT stands with its piece number `done`. */
  datatype PutStage =
    | Next
    | Writing(id: u64, node: u64, address: Address)
    | Confirming(id: u64, node: u64, address: Address)
    | Undoing
    | PutDone
    | PutFailed

  datatype GetStage =
    | Resolving
    | Reading(refs: seq<ChunkRef>, got: map<nat, seq<byte>>)
    | Delivered(data: seq<byte>)
    | GivenUp

  datatype DeleteStage =
    | Locating
    | Erasing(targets: seq<(u64, Address)>)
    | Unlisting(next: nat)
    | Ended

  datatype CopyStage =
    | Listed
    | Targeted(node: u64, address: Address)
    | Fetching(node: u64, address: Address, source: Address)
    | Storing(node: u64, address: Address, data: seq<byte>)
    | Recording(node: u64, address: Address)
    | Cleaning(node: u64, address: Address)
    | Finished

  /** A PUT has confirmed `done` pieces; GET and DELETE have read a chunk list; a replication has read a record. */
  datatype Proc =
    | Put(name: string, pieces: seq<seq<byte>>, done: nat, put: PutStage)
    | Get(name: string, ids: seq<u64>, get: GetStage)
    | Delete(name: string, ids: seq<u64>, delete: DeleteStage)
    | Copy(chunk: MetaChunk, copy: CopyStage)

  /** Which PUT created the object, and whether nothing but that PUT has changed its chunk list since. */
  datatype Origin = Origin(pid: nat, intact: bool)

  /**
   * The cluster, the processes, and what is remembered of the past: for every chunk id ever issued the
   * bytes and the object name it was issued for, for every object its origin, for every node id ever
   * registered its address.
   */
  datatype World = World(
    cluster: ClusterState,
    procs: map<nat, Proc>,
    intended: map<u64, seq<byte>>,
    issuedTo: map<u64, string>,
    origins: map<string, Origin>,
    addressOf: map<u64, Address>)
  {
    function WithMeta(m: MetaState): World {
      this.(cluster := cluster.(meta := m))
    }

    function WithProc(pid: nat, p: Proc): World {
      this.(procs := procs[pid := p])
    }

    /** Someone other than the creator changes an object's chunk list. */
    function Spoil(name: string): World {
      if name in origins then this.(origins := origins[name := origins[name].(intact := false)]) else this
    }
  }

  const EMPTY_WORLD := World(ClusterState(EMPTY_STATE, map[]), map[], map[], map[], map[], map[])

  // ---------------------------------------------------------------------------------------
  // Steps
  // ---------------------------------------------------------------------------------------

  datatype PutStep =
    | Create(name: string, checksum: u32, pieces: seq<seq<byte>>)
    | Allocate(id: u64, node: u64)
    | Write
    | Abandon
    | Confirm
    | Complete
    | Undo

  datatype GetStep =
    | Look(name: string)
    | Resolve
    | Read(k: nat, address: Address)
    | Deliver

  datatype DeleteStep =
    | LookToDelete(name: string)
    | Target
    | Erase(k: nat)
    | EndErasing
    | Unlist
    | Drop

  datatype CopyStep =
    | List(id: u64)
    | Choose(node: u64)
    | Locate
    | Fetch
    | Save
    | Record
    | Clean

  /** A storage node joins or leaves, a call of a process fails, or it takes effect. */
  datatype Step =
    | Register(node: u64, address: Address)
    | Deregister(node: u64)
    | Fail(pid: nat)
    | PutBy(pid: nat, put: PutStep)
    | GetBy(pid: nat, get: GetStep)
    | DeleteBy(pid: nat, delete: DeleteStep)
    | CopyBy(pid: nat, copy: CopyStep)

  predicate PutAt(w: World, pid: nat) {
    pid in w.procs && w.procs[pid].Put?
  }

  predicate GetAt(w: World, pid: nat) {
    pid in w.procs && w.procs[pid].Get?
  }

  predicate DeleteAt(w: World, pid: nat) {
    pid in w.procs && w.procs[pid].Delete?
  }

  predicate CopyAt(w: World, pid: nat) {
    pid in w.procs && w.procs[pid].Copy?
  }

  predicate PutEnabled(w: World, pid: nat, s: PutStep) {
    match s
    case Create(_, _, _) => pid !in w.procs
    case Allocate(id, node) =>
      && PutAt(w, pid) && w.procs[pid].put.Next? && w.procs[pid].done < |w.procs[pid].pieces|
      && id !in w.intended && ValidDraw(w.cluster.meta, Draw(id, Some(node)))
    case Write =>
      && PutAt(w, pid) && w.procs[pid].put.Writing? && w.procs[pid].done < |w.procs[pid].pieces|
      && w.cluster.CanStore(w.procs[pid].put.address, w.procs[pid].put.id)
    case Abandon => PutAt(w, pid) && w.procs[pid].put.Writing?
    case Confirm => PutAt(w, pid) && w.procs[pid].put.Confirming? && w.procs[pid].done < |w.procs[pid].pieces|
    case Complete => PutAt(w, pid) && w.procs[pid].put.Next? && w.procs[pid].done == |w.procs[pid].pieces|
    case Undo => PutAt(w, pid) && w.procs[pid].put.Undoing?
  }

  predicate GetEnabled(w: World, pid: nat, s: GetStep) {
    match s
    case Look(_) => pid !in w.procs
    case Resolve => GetAt(w, pid) && w.procs[pid].get.Resolving? && Resolvable(w.cluster.meta, w.procs[pid].ids)
    case Read(k, address) =>
      && GetAt(w, pid) && w.procs[pid].get.Reading? && k < |w.procs[pid].get.refs|
      && address in w.procs[pid].get.refs[k].addresses && w.cluster.Copy(address, w.procs[pid].get.refs[k].id).Some?
    case Deliver =>
      GetAt(w, pid) && w.procs[pid].get.Reading? && forall k | 0 <= k < |w.procs[pid].get.refs| :: k in w.procs[pid].get.got
  }

  predicate DeleteEnabled(w: World, pid: nat, s: DeleteStep) {
    match s
    case LookToDelete(_) => pid !in w.procs
    case Target => DeleteAt(w, pid) && w.procs[pid].delete.Locating? && Resolvable(w.cluster.meta, w.procs[pid].ids)
    case Erase(k) =>
      && DeleteAt(w, pid) && w.procs[pid].delete.Erasing? && k < |w.procs[pid].delete.targets|
      && w.procs[pid].delete.targets[k].1 in w.cluster.disks
    case EndErasing => DeleteAt(w, pid) && w.procs[pid].delete.Erasing?
    case Unlist => DeleteAt(w, pid) && w.procs[pid].delete.Unlisting? && w.procs[pid].delete.next < |w.procs[pid].ids|
    case Drop => DeleteAt(w, pid) && w.procs[pid].delete.Unlisting? && w.procs[pid].delete.next == |w.procs[pid].ids|
  }

  predicate CopyEnabled(w: World, pid: nat, s: CopyStep) {
    match s
    case List(id) => pid !in w.procs && Replication.UnderReplicated(w.cluster.meta, id)
    case Choose(node) =>
      CopyAt(w, pid) && w.procs[pid].copy.Listed? && node in w.cluster.meta.nodes && node !in w.procs[pid].chunk.storageNodes
    case Locate =>
      && CopyAt(w, pid) && w.procs[pid].copy.Targeted?
      && w.procs[pid].chunk.storageNodes != [] && w.procs[pid].chunk.storageNodes[0] in w.cluster.meta.nodes
    case Fetch =>
      && CopyAt(w, pid) && w.procs[pid].copy.Fetching?
      && w.cluster.Copy(w.procs[pid].copy.source, w.procs[pid].chunk.id).Some?
    case Save =>
      && CopyAt(w, pid) && w.procs[pid].copy.Storing?
      && w.cluster.CanStore(w.procs[pid].copy.address, w.procs[pid].chunk.id)
    case Record => CopyAt(w, pid) && w.procs[pid].copy.Recording?
    case Clean => CopyAt(w, pid) && w.procs[pid].copy.Cleaning? && w.procs[pid].copy.address in w.cluster.disks
  }

  /** Chunk ids, node ids and process ids are never issued twice. */
  predicate Enabled(w: World, s: Step) {
    match s
    case Register(node, address) => node !in w.addressOf && node !in w.cluster.meta.nodes
    case Deregister(node) => node in w.cluster.meta.nodes
    case Fail(pid) => pid in w.procs
    case PutBy(pid, put) => PutEnabled(w, pid, put)
    case GetBy(pid, get) => GetEnabled(w, pid, get)
    case DeleteBy(pid, delete) => DeleteEnabled(w, pid, delete)
    case CopyBy(pid, copy) => CopyEnabled(w, pid, copy)
  }

  /** How a process goes on when its next call fails. */
  function AfterFailure(p: Proc): Proc {
    match p
    case Put(_, _, _, stage) =>
      (match stage
       case Undoing => p.(put := PutFailed)
       case PutDone => p
       case PutFailed => p
       case _ => p.(put := Undoing))
    case Get(_, _, stage) => if stage.Delivered? then p else p.(get := GivenUp)
    case Delete(_, ids, stage) =>
      (match stage
       case Locating => p.(delete := Ended)
       case Erasing(_) => p.(delete := Unlisting(0))
       case Unlisting(next) => if next < |ids| then p.(delete := Unlisting(next + 1)) else p.(delete := Ended)
       case Ended => p)
    case Copy(_, stage) =>
      (match stage
       case Recording(node, address) => p.(copy := Cleaning(node, address))
       case _ => p.(copy := Finished))
  }

  function AfterCreate(w: World, pid: nat, name: string, checksum: u32, pieces: seq<seq<byte>>): World {
    var due := PutObject(w.cluster.meta, checksum, name);
    if due.result.Ok? then
      w.WithMeta(due.state).(origins := w.origins[name := Origin(pid, true)]).WithProc(pid, Put(name, pieces, 0, Next))
    else
      w.WithProc(pid, Put(name, pieces, 0, PutFailed))
  }

  function AfterAllocate(w: World, pid: nat, id: u64, node: u64): World
    requires PutEnabled(w, pid, Allocate(id, node))
  {
    var p := w.procs[pid];
    w.WithMeta(AllocateChunk(w.cluster.meta, p.name, Draw(id, Some(node))).state)
     .(intended := w.intended[id := p.pieces[p.done]], issuedTo := w.issuedTo[id := p.name])
     .WithProc(pid, p.(put := Writing(id, node, w.cluster.meta.nodes[node])))
  }

  function AfterWrite(w: World, pid: nat): World
    requires PutEnabled(w, pid, Write)
  {
    var p := w.procs[pid];
    var stage := p.put;
    w.(cluster := w.cluster.Store(stage.address, stage.id, p.pieces[p.done]))
     .WithProc(pid, p.(put := Confirming(stage.id, stage.node, stage.address)))
  }

  /** The world after a confirmation that succeeded and made `m` of the metadata. */
  function WithConfirmed(w: World, pid: nat, m: MetaState): World
    requires PutAt(w, pid)
  {
    var p := w.procs[pid];
    var own := p.name in w.origins && w.origins[p.name].pid == pid;
    (if own then w else w.Spoil(p.name)).WithMeta(m).WithProc(pid, p.(done := p.done + 1, put := Next))
  }

  function AfterConfirm(w: World, pid: nat): World
    requires PutEnabled(w, pid, Confirm)
  {
    var p := w.procs[pid];
    var due := ConfirmChunk(w.cluster.meta, p.put.id, p.name, Crc32.Checksum(p.pieces[p.done]), p.put.node);
    if due.result.Ok? then WithConfirmed(w, pid, due.state) else w.WithProc(pid, p.(put := Undoing))
  }

  function AfterUndo(w: World, pid: nat): World
    requires PutEnabled(w, pid, Undo)
  {
    var p := w.procs[pid];
    w.WithMeta(DeleteObject(w.cluster.meta, p.name).state).(origins := w.origins - {p.name}).WithProc(pid, p.(put := PutFailed))
  }

  function AfterLook(w: World, pid: nat, name: string): World {
    var found := name in w.cluster.meta.objects;
    w.WithProc(pid, if found then Get(name, w.cluster.meta.objects[name].chunks, Resolving) else Get(name, [], GivenUp))
  }

  function AfterRead(w: World, pid: nat, k: nat, address: Address): World
    requires GetEnabled(w, pid, Read(k, address))
  {
    var p := w.procs[pid];
    var data := w.cluster.Copy(address, p.get.refs[k].id).value;
    w.WithProc(pid, p.(get := Reading(p.get.refs, p.get.got[k := data])))
  }

  function AfterDeliver(w: World, pid: nat): World
    requires GetEnabled(w, pid, Deliver)
  {
    var p := w.procs[pid];
    var parts := seq(|p.get.refs|, k requires 0 <= k < |p.get.refs| => p.get.got[k]);
    w.WithProc(pid, p.(get := Delivered(Flatten(parts))))
  }

  function AfterLookToDelete(w: World, pid: nat, name: string): World {
    var found := name in w.cluster.meta.objects;
    w.WithProc(pid, if found then Delete(name, w.cluster.meta.objects[name].chunks, Locating) else Delete(name, [], Ended))
  }

  function AfterErase(w: World, pid: nat, k: nat): World
    requires DeleteEnabled(w, pid, Erase(k))
  {
    var (id, address) := w.procs[pid].delete.targets[k];
    w.(cluster := w.cluster.Erase(address, id)).WithProc(pid, w.procs[pid])
  }

  function AfterUnlist(w: World, pid: nat): World
    requires DeleteEnabled(w, pid, Unlist)
  {
    var p := w.procs[pid];
    var m := w.cluster.meta;
    var id := p.ids[p.delete.next];
    var hit := id in m.chunks && m.chunks[id].objectName in m.objects && id in m.objects[m.chunks[id].objectName].chunks;
    (if hit then w.Spoil(m.chunks[id].objectName) else w)
      .WithMeta(DeleteChunk(m, id).state).WithProc(pid, p.(delete := Unlisting(p.delete.next + 1)))
  }

  function AfterDrop(w: World, pid: nat): World
    requires DeleteEnabled(w, pid, Drop)
  {
    var p := w.procs[pid];
    w.WithMeta(DeleteObject(w.cluster.meta, p.name).state).(origins := w.origins - {p.name}).WithProc(pid, p.(delete := Ended))
  }

  function AfterLocate(w: World, pid: nat): World
    requires CopyEnabled(w, pid, Locate)
  {
    var p := w.procs[pid];
    w.WithProc(pid, p.(copy := Fetching(p.copy.node, p.copy.address, w.cluster.meta.nodes[p.chunk.storageNodes[0]])))
  }

  function AfterFetch(w: World, pid: nat): World
    requires CopyEnabled(w, pid, Fetch)
  {
    var p := w.procs[pid];
    var data := w.cluster.Copy(p.copy.source, p.chunk.id).value;
    if Crc32.Checksum(data) == p.chunk.checksum then w.WithProc(pid, p.(copy := Storing(p.copy.node, p.copy.address, data)))
    else w.WithProc(pid, p.(copy := Finished))
  }

  function AfterSave(w: World, pid: nat): World
    requires CopyEnabled(w, pid, Save)
  {
    var p := w.procs[pid];
    w.(cluster := w.cluster.Store(p.copy.address, p.chunk.id, p.copy.data))
     .WithProc(pid, p.(copy := Recording(p.copy.node, p.copy.address)))
  }

  function AfterRecord(w: World, pid: nat): World
    requires CopyEnabled(w, pid, Record)
  {
    var p := w.procs[pid];
    var due := AddChunkReplica(w.cluster.meta, p.chunk.id, p.copy.node);
    if due.result.Ok? then w.WithMeta(due.state).WithProc(pid, p.(copy := Finished))
    else w.WithProc(pid, p.(copy := Cleaning(p.copy.node, p.copy.address)))
  }

  function AfterClean(w: World, pid: nat): World
    requires CopyEnabled(w, pid, Clean)
  {
    var p := w.procs[pid];
    w.(cluster := w.cluster.Erase(p.copy.address, p.chunk.id)).WithProc(pid, p.(copy := Finished))
  }

  function AfterRegister(w: World, node: u64, address: Address): World {
    var disks := if address in w.cluster.disks then w.cluster.disks else w.cluster.disks[address := map[]];
    w.(cluster := ClusterState(w.cluster.meta.(nodes := w.cluster.meta.nodes[node := address]), disks),
       addressOf := w.addressOf[node := address])
  }

  function ApplyPut(w: World, pid: nat, s: PutStep): World
    requires PutEnabled(w, pid, s)
  {
    match s
    case Create(name, checksum, pieces) => AfterCreate(w, pid, name, checksum, pieces)
    case Allocate(id, node) => AfterAllocate(w, pid, id, node)
    case Write => AfterWrite(w, pid)
    case Abandon => w.WithProc(pid, w.procs[pid].(put := PutFailed))
    case Confirm => AfterConfirm(w, pid)
    case Complete => w.WithProc(pid, w.procs[pid].(put := PutDone))
    case Undo => AfterUndo(w, pid)
  }

  function ApplyGet(w: World, pid: nat, s: GetStep): World
    requires GetEnabled(w, pid, s)
  {
    match s
    case Look(name) => AfterLook(w, pid, name)
    case Resolve => w.WithProc(pid, w.procs[pid].(get := Reading(Refs(w.cluster.meta, w.procs[pid].ids), map[])))
    case Read(k, address) => AfterRead(w, pid, k, address)
    case Deliver => AfterDeliver(w, pid)
  }

  function ApplyDelete(w: World, pid: nat, s: DeleteStep): World
    requires DeleteEnabled(w, pid, s)
  {
    match s
    case LookToDelete(name) => AfterLookToDelete(w, pid, name)
    case Target => w.WithProc(pid, w.procs[pid].(delete := Erasing(Targets(Refs(w.cluster.meta, w.procs[pid].ids)))))
    case Erase(k) => AfterErase(w, pid, k)
    case EndErasing => w.WithProc(pid, w.procs[pid].(delete := Unlisting(0)))
    case Unlist => AfterUnlist(w, pid)
    case Drop => AfterDrop(w, pid)
  }

  function ApplyCopy(w: World, pid: nat, s: CopyStep): World
    requires CopyEnabled(w, pid, s)
  {
    match s
    case List(id) => w.WithProc(pid, Copy(w.cluster.meta.chunks[id], Listed))
    case Choose(node) => w.WithProc(pid, w.procs[pid].(copy := Targeted(node, w.cluster.meta.nodes[node])))
    case Locate => AfterLocate(w, pid)
    case Fetch => AfterFetch(w, pid)
    case Save => AfterSave(w, pid)
    case Record => AfterRecord(w, pid)
    case Clean => AfterClean(w, pid)
  }

  function Apply(w: World, s: Step): World
    requires Enabled(w, s)
  {
    match s
    case Register(node, address) => AfterRegister(w, node, address)
    case Deregister(node) => w.WithMeta(DeleteStorageNode(w.cluster.meta, node).state)
    case Fail(pid) => w.WithProc(pid, AfterFailure(w.procs[pid]))
    case PutBy(pid, put) => ApplyPut(w, pid, put)
    case GetBy(pid, get) => ApplyGet(w, pid, get)
    case DeleteBy(pid, delete) => ApplyDelete(w, pid, delete)
    case CopyBy(pid, copy) => ApplyCopy(w, pid, copy)
  }

  /** The process that takes the step; storage nodes join and leave without one. */
  function Actor(s: Step): Option<nat> {
    if s.Register? || s.Deregister? then None else Some(s.pid)
  }

  /** Nothing happens to any process but this one. */
  ghost predicate Moves(w: World, t: World, pid: nat) {
    pid in t.procs && t.procs == w.procs[pid := t.procs[pid]]
  }

  lemma {:induction false} PutMoves(w: World, pid: nat, s: PutStep)
    requires PutEnabled(w, pid, s)
    ensures Moves(w, ApplyPut(w, pid, s), pid)
  {
  }

  lemma {:induction false} GetMoves(w: World, pid: nat, s: GetStep)
    requires GetEnabled(w, pid, s)
    ensures Moves(w, ApplyGet(w, pid, s), pid)
    ensures ApplyGet(w, pid, s) == w.(procs := ApplyGet(w, pid, s).procs)
  {
  }

  lemma {:induction false} DeleteMoves(w: World, pid: nat, s: DeleteStep)
    requires DeleteEnabled(w, pid, s)
    ensures Moves(w, ApplyDelete(w, pid, s), pid) && ApplyDelete(w, pid, s).intended == w.intended
  {
  }

  lemma {:induction false} CopyMoves(w: World, pid: nat, s: CopyStep)
    requires CopyEnabled(w, pid, s)
    ensures Moves(w, ApplyCopy(w, pid, s), pid) && ApplyCopy(w, pid, s).intended == w.intended
  {
  }

  lemma {:induction false} CopyKeepsObjects(w: World, pid: nat, s: CopyStep)
    requires CopyEnabled(w, pid, s)
    ensures ApplyCopy(w, pid, s).origins == w.origins && ApplyCopy(w, pid, s).cluster.meta.objects == w.cluster.meta.objects
  {
  }

  /** A step moves its own process only, and processes are never forgotten. */
  lemma {:induction false} OnlyActorMoves(w: World, s: Step)
    requires Enabled(w, s)
    ensures match Actor(s) case None => Apply(w, s).procs == w.procs case Some(pid) => Moves(w, Apply(w, s), pid)
  {
    match s
    case Register(_, _) =>
    case Deregister(_) =>
    case Fail(_) =>
    case PutBy(pid, put) => PutMoves(w, pid, put);
    case GetBy(pid, get) => GetMoves(w, pid, get);
    case DeleteBy(pid, delete) => DeleteMoves(w, pid, delete);
    case CopyBy(pid, copy) => CopyMoves(w, pid, copy);
  }

  /** A run: every step is enabled where it is taken. */
  ghost predicate Runs(w: World, steps: seq<Step>)
    decreases |steps|
  {
    steps == [] || (Enabled(w, steps[0]) && Runs(Apply(w, steps[0]), steps[1..]))
  }

  ghost function After(w: World, steps: seq<Step>): World
    requires Runs(w, steps)
    decreases |steps|
  {
    if steps == [] then w else After(Apply(w, steps[0]), steps[1..])
  }

  /** A step in front of a run. */
  lemma {:induction false} RunsFirst(w: World, s: Step, rest: seq<Step>)
    requires Enabled(w, s) && Runs(Apply(w, s), rest)
    ensures Runs(w, [s] + rest) && After(w, [s] + rest) == After(Apply(w, s), rest)
  {
    assert ([s] + rest)[1..] == rest;
  }

  lemma {:induction false} TwoSteps(w: World, first: Step, second: Step, rest: seq<Step>) returns (steps: seq<Step>)
    requires Enabled(w, first) && Enabled(Apply(w, first), second) && Runs(Apply(Apply(w, first), second), rest)
    ensures Runs(w, steps) && After(w, steps) == After(Apply(Apply(w, first), second), rest)
  {
    RunsFirst(Apply(w, first), second, rest);
    RunsFirst(w, first, [second] + rest);
    steps := [first] + ([second] + rest);
  }
}
