/**
 * What a completed upload can rely on. Its object stays, with exactly the uploaded pieces, until a
 * DELETE of that name has looked it up - provided that no process from before is left that can still
 * touch the name: no other PUT that is under way or about to undo itself, and no DELETE that is past
 * its look-up. The condition is exact, since each such process can take the object away by itself.
 */
module ProtocolDurability {
  import opened Base
  import opened Metadata
  import opened MetadataInvariants
  import opened Cluster
  import opened Chunking
  import opened Protocol
  import opened ProtocolContents
  import opened ProtocolUploads
  import Crc32

  // ---------------------------------------------------------------------------------------
  // Chunk ids stay with the name they were issued to
  // ---------------------------------------------------------------------------------------

  type Names = map<u64, string>

  ghost predicate AllNamed(ids: seq<u64>, issuedTo: Names, name: string) {
    forall id | id in ids :: id in issuedTo && issuedTo[id] == name
  }

  ghost predicate MetaNamed(m: MetaState, issuedTo: Names) {
    && (forall id | id in m.chunks :: id in issuedTo && issuedTo[id] == m.chunks[id].objectName)
    && (forall name | name in m.objects :: AllNamed(m.objects[name].chunks, issuedTo, name))
  }

  ghost predicate ProcNamed(p: Proc, issuedTo: Names) {
    match p
    case Put(name, _, _, Writing(id, _, _)) => id in issuedTo && issuedTo[id] == name
    case Put(name, _, _, Confirming(id, _, _)) => id in issuedTo && issuedTo[id] == name
    case Delete(name, ids, stage) => AllNamed(ids, issuedTo, name) && (stage.Unlisting? ==> stage.next <= |ids|)
    case _ => true
  }

  /** Records, lists, uploads and deletions name the object that a chunk id was issued for. */
  ghost predicate Named(w: World) {
    && w.issuedTo.Keys == w.intended.Keys
    && MetaNamed(w.cluster.meta, w.issuedTo)
    && forall q | q in w.procs :: ProcNamed(w.procs[q], w.issuedTo)
  }

  lemma {:induction false} MovedStaysNamed(w: World, t: World, pid: nat)
    requires Named(w) && Moves(w, t, pid) && t.issuedTo == w.issuedTo && t.intended == w.intended
    requires MetaNamed(t.cluster.meta, t.issuedTo) && ProcNamed(t.procs[pid], t.issuedTo)
    ensures Named(t)
  {
  }

  lemma {:induction false} FewerStayNamed(m: MetaState, t: MetaState, issuedTo: Names)
    requires MetaNamed(m, issuedTo)
    requires forall id | id in t.chunks :: id in m.chunks && t.chunks[id].objectName == m.chunks[id].objectName
    requires forall name | name in t.objects ::
               t.objects[name].chunks == [] ||
               (name in m.objects && forall id | id in t.objects[name].chunks :: id in m.objects[name].chunks)
    ensures MetaNamed(t, issuedTo)
  {
    forall name | name in t.objects
      ensures AllNamed(t.objects[name].chunks, issuedTo, name)
    {
      if t.objects[name].chunks != [] {
        assert AllNamed(m.objects[name].chunks, issuedTo, name);
      }
    }
  }

  lemma {:induction false} AllocateKeepsNamed(w: World, pid: nat, id: u64, node: u64)
    requires Named(w) && PutEnabled(w, pid, Allocate(id, node))
    ensures Named(AfterAllocate(w, pid, id, node))
  {
    var t := AfterAllocate(w, pid, id, node);
    assert id !in w.issuedTo.Keys;
    forall q | q in t.procs
      ensures ProcNamed(t.procs[q], t.issuedTo)
    {
      assert q != pid ==> ProcNamed(w.procs[q], w.issuedTo);
    }
    forall name | name in t.cluster.meta.objects
      ensures AllNamed(t.cluster.meta.objects[name].chunks, t.issuedTo, name)
    {
      assert AllNamed(w.cluster.meta.objects[name].chunks, w.issuedTo, name);
    }
  }

  lemma {:induction false} ConfirmStaysNamed(m: MetaState, id: u64, name: string, checksum: u32, node: u64, issuedTo: Names)
    requires MetaNamed(m, issuedTo) && id in issuedTo && issuedTo[id] == name
    ensures MetaNamed(ConfirmChunk(m, id, name, checksum, node).state, issuedTo)
  {
    var t := ConfirmChunk(m, id, name, checksum, node).state;
    forall other | other in t.objects
      ensures AllNamed(t.objects[other].chunks, issuedTo, other)
    {
      assert AllNamed(m.objects[other].chunks, issuedTo, other);
    }
  }

  lemma {:induction false} ConfirmKeepsNamed(w: World, pid: nat)
    requires Named(w) && PutEnabled(w, pid, Confirm)
    ensures Named(AfterConfirm(w, pid))
  {
    var p := w.procs[pid];
    assert ProcNamed(p, w.issuedTo);
    ConfirmStaysNamed(w.cluster.meta, p.put.id, p.name, Crc32.Checksum(p.pieces[p.done]), p.put.node, w.issuedTo);
    PutMoves(w, pid, Confirm);
    MovedStaysNamed(w, AfterConfirm(w, pid), pid);
  }

  lemma {:induction false} NewObjectIsNamed(m: MetaState, name: string, checksum: u32, issuedTo: Names)
    requires MetaNamed(m, issuedTo)
    ensures MetaNamed(PutObject(m, checksum, name).state, issuedTo)
  {
    FewerStayNamed(m, PutObject(m, checksum, name).state, issuedTo);
  }

  lemma {:induction false} CreateKeepsNamed(w: World, pid: nat, name: string, checksum: u32, pieces: seq<seq<byte>>)
    requires Named(w) && PutEnabled(w, pid, Create(name, checksum, pieces))
    ensures Named(AfterCreate(w, pid, name, checksum, pieces))
  {
    var t := AfterCreate(w, pid, name, checksum, pieces);
    PutMoves(w, pid, Create(name, checksum, pieces));
    NewObjectIsNamed(w.cluster.meta, name, checksum, w.issuedTo);
    MovedStaysNamed(w, t, pid);
  }

  lemma {:induction false} UndoKeepsNamed(w: World, pid: nat)
    requires Named(w) && PutEnabled(w, pid, Undo)
    ensures Named(AfterUndo(w, pid))
  {
    var t := AfterUndo(w, pid);
    FewerStayNamed(w.cluster.meta, t.cluster.meta, w.issuedTo);
    MovedStaysNamed(w, t, pid);
  }

  lemma {:induction false} PutStepKeepsNamed(w: World, pid: nat, s: PutStep)
    requires Named(w) && PutEnabled(w, pid, s)
    ensures Named(ApplyPut(w, pid, s))
  {
    match s
    case Create(name, checksum, pieces) => CreateKeepsNamed(w, pid, name, checksum, pieces);
    case Allocate(id, node) => AllocateKeepsNamed(w, pid, id, node);
    case Confirm => ConfirmKeepsNamed(w, pid);
    case Undo => UndoKeepsNamed(w, pid);
    case _ =>
      assert ProcNamed(w.procs[pid], w.issuedTo);
      MovedStaysNamed(w, ApplyPut(w, pid, s), pid);
  }

  lemma {:induction false} UnlistKeepsNamed(w: World, pid: nat)
    requires Named(w) && DeleteEnabled(w, pid, Unlist)
    ensures Named(AfterUnlist(w, pid))
  {
    var t, m := AfterUnlist(w, pid), w.cluster.meta;
    var id := w.procs[pid].ids[w.procs[pid].delete.next];
    assert ProcNamed(w.procs[pid], w.issuedTo);
    if id in m.chunks && m.chunks[id].objectName in m.objects {
      WithoutElements(m.objects[m.chunks[id].objectName].chunks, id);
    }
    FewerStayNamed(m, t.cluster.meta, w.issuedTo);
    MovedStaysNamed(w, t, pid);
  }

  lemma {:induction false} DropKeepsNamed(w: World, pid: nat)
    requires Named(w) && DeleteEnabled(w, pid, Drop)
    ensures Named(AfterDrop(w, pid))
  {
    var t := AfterDrop(w, pid);
    assert ProcNamed(w.procs[pid], w.issuedTo);
    FewerStayNamed(w.cluster.meta, t.cluster.meta, w.issuedTo);
    MovedStaysNamed(w, t, pid);
  }

  lemma {:induction false} LookKeepsNamed(w: World, pid: nat, name: string)
    requires Named(w) && DeleteEnabled(w, pid, LookToDelete(name))
    ensures Named(AfterLookToDelete(w, pid, name))
  {
    assert name in w.cluster.meta.objects ==> AllNamed(w.cluster.meta.objects[name].chunks, w.issuedTo, name);
    MovedStaysNamed(w, AfterLookToDelete(w, pid, name), pid);
  }

  lemma {:induction false} DeleteStepKeepsNamed(w: World, pid: nat, s: DeleteStep)
    requires Named(w) && DeleteEnabled(w, pid, s)
    ensures Named(ApplyDelete(w, pid, s))
  {
    match s
    case Unlist => UnlistKeepsNamed(w, pid);
    case Drop => DropKeepsNamed(w, pid);
    case LookToDelete(name) => LookKeepsNamed(w, pid, name);
    case _ =>
      assert ProcNamed(w.procs[pid], w.issuedTo);
      MovedStaysNamed(w, ApplyDelete(w, pid, s), pid);
  }

  lemma {:induction false} GetStepKeepsNamed(w: World, pid: nat, s: GetStep)
    requires Named(w) && GetEnabled(w, pid, s)
    ensures Named(ApplyGet(w, pid, s))
  {
    GetMoves(w, pid, s);
    GettersStay(w, pid, s);
    MovedStaysNamed(w, ApplyGet(w, pid, s), pid);
  }

  lemma {:induction false} RecordKeepsNamed(w: World, pid: nat)
    requires Named(w) && CopyEnabled(w, pid, Record)
    ensures Named(AfterRecord(w, pid))
  {
    var t := AfterRecord(w, pid);
    FewerStayNamed(w.cluster.meta, t.cluster.meta, w.issuedTo);
    MovedStaysNamed(w, t, pid);
  }

  lemma {:induction false} CopyStepKeepsNamed(w: World, pid: nat, s: CopyStep)
    requires Named(w) && CopyEnabled(w, pid, s)
    ensures Named(ApplyCopy(w, pid, s))
  {
    if s.Record? {
      RecordKeepsNamed(w, pid);
    } else {
      CopyMoves(w, pid, s);
      MovedStaysNamed(w, ApplyCopy(w, pid, s), pid);
    }
  }

  lemma {:induction false} FailKeepsNamed(w: World, pid: nat)
    requires Named(w) && Enabled(w, Fail(pid))
    ensures Named(Apply(w, Fail(pid)))
  {
    assert ProcNamed(w.procs[pid], w.issuedTo);
    MovedStaysNamed(w, Apply(w, Fail(pid)), pid);
  }

  lemma {:induction false} StepKeepsNamed(w: World, s: Step)
    requires Named(w) && Enabled(w, s)
    ensures Named(Apply(w, s))
  {
    match s
    case PutBy(pid, put) => PutStepKeepsNamed(w, pid, put);
    case GetBy(pid, get) => GetStepKeepsNamed(w, pid, get);
    case DeleteBy(pid, delete) => DeleteStepKeepsNamed(w, pid, delete);
    case CopyBy(pid, copy) => CopyStepKeepsNamed(w, pid, copy);
    case Fail(pid) => FailKeepsNamed(w, pid);
    case Register(_, _) => FewerStayNamed(w.cluster.meta, Apply(w, s).cluster.meta, w.issuedTo);
    case Deregister(_) => FewerStayNamed(w.cluster.meta, Apply(w, s).cluster.meta, w.issuedTo);
  }

  lemma {:induction false} RunKeepsNamed(w: World, steps: seq<Step>)
    requires Named(w) && Runs(w, steps)
    ensures Named(After(w, steps))
    decreases |steps|
  {
    if steps != [] {
      StepKeepsNamed(w, steps[0]);
      RunKeepsNamed(Apply(w, steps[0]), steps[1..]);
    }
  }

  lemma {:induction false} ReachableIsNamed(steps: seq<Step>)
    requires Runs(EMPTY_WORLD, steps)
    ensures Named(After(EMPTY_WORLD, steps))
  {
    RunKeepsNamed(EMPTY_WORLD, steps);
  }

  // ---------------------------------------------------------------------------------------
  // Processes that can still touch an object
  // ---------------------------------------------------------------------------------------

  /** A PUT that may still confirm or undo, or a DELETE past its look-up. */
  predicate CanTouch(p: Proc, name: string) {
    || (p.Put? && p.name == name && !p.put.PutDone? && !p.put.PutFailed?)
    || (p.Delete? && p.name == name && (p.delete.Erasing? || p.delete.Unlisting?))
  }

  /** Some process other than the object's creator can. */
  ghost predicate Leftover(w: World, name: string, creator: nat) {
    exists q :: q in w.procs && q != creator && CanTouch(w.procs[q], name)
  }

  /** No DELETE of that name gets past its look-up by this step, and the creator does not undo its own upload. */
  predicate Leaves(w: World, s: Step, name: string, creator: nat)
    requires Enabled(w, s)
  {
    && !(s.DeleteBy? && s.delete.Target? && w.procs[s.pid].name == name)
    && s != PutBy(creator, Undo)
  }

  ghost predicate LeftAlone(w: World, steps: seq<Step>, name: string, creator: nat)
    requires Runs(w, steps)
    decreases |steps|
  {
    steps == [] ||
    (Leaves(w, steps[0], name, creator) && LeftAlone(Apply(w, steps[0]), steps[1..], name, creator))
  }

  /** The object is there, with the pieces its creator has confirmed. */
  ghost predicate Stands(w: World, name: string, creator: nat) {
    name in w.cluster.meta.objects && FromCreator(w, creator, name, w.cluster.meta.objects[name].chunks)
  }

  /** The creator is known and unrivalled. */
  ghost predicate Secure(w: World, name: string, creator: nat) {
    && Sound(w) && OriginsSound(w) && Named(w)
    && name in w.origins && w.origins[name] == Origin(creator, true)
    && !Leftover(w, name, creator)
  }

  lemma {:induction false} SecureStands(w: World, name: string, creator: nat)
    requires Secure(w, name, creator)
    ensures Stands(w, name, creator)
  {
    assert OriginSound(w, name);
  }

  /** A deletion takes chunks off the list of the object it was asked to delete, and off no other. */
  lemma {:induction false} DeletionsKeepToTheirName(w: World, pid: nat, name: string)
    requires Named(w) && DeleteEnabled(w, pid, Unlist) && Shortens(w, DeleteBy(pid, Unlist), name)
    ensures w.procs[pid].name == name
  {
    var p := w.procs[pid];
    assert ProcNamed(p, w.issuedTo);
    assert p.ids[p.delete.next] in p.ids;
  }

  /** Without leftovers a step that leaves the object alone neither removes nor changes it. */
  lemma {:induction false} SecureIsUntouched(w: World, s: Step, name: string, creator: nat)
    requires Secure(w, name, creator) && Enabled(w, s) && Leaves(w, s, name, creator)
    ensures !Removes(w, s, name) && !Shortens(w, s, name) && !Intrudes(w, s, name)
  {
    assert OriginSound(w, name);
    if s.DeleteBy? && s.delete.Unlist? && Shortens(w, s, name) {
      DeletionsKeepToTheirName(w, s.pid, name);
    }
    if Actor(s).Some? && s.pid in w.procs && s.pid != creator {
      assert !CanTouch(w.procs[s.pid], name);
    }
  }

  lemma {:induction false} PutTouchesFromBefore(w: World, pid: nat, s: PutStep, name: string)
    requires PutEnabled(w, pid, s) && name in w.cluster.meta.objects && CanTouch(ApplyPut(w, pid, s).procs[pid], name)
    ensures pid in w.procs && CanTouch(w.procs[pid], name)
  {
  }

  lemma {:induction false} DeleteTouchesFromBefore(w: World, pid: nat, s: DeleteStep, name: string)
    requires DeleteEnabled(w, pid, s) && CanTouch(ApplyDelete(w, pid, s).procs[pid], name)
    requires !(s.Target? && w.procs[pid].name == name)
    ensures pid in w.procs && CanTouch(w.procs[pid], name)
  {
  }

  /** While the name is taken and no DELETE looks it up, nobody becomes able to touch it. */
  lemma {:induction false} TouchesFromBefore(w: World, s: Step, name: string, creator: nat, q: nat)
    requires Enabled(w, s) && Leaves(w, s, name, creator) && name in w.cluster.meta.objects
    requires q in Apply(w, s).procs && CanTouch(Apply(w, s).procs[q], name)
    ensures q in w.procs && CanTouch(w.procs[q], name)
  {
    OnlyActorMoves(w, s);
    if Actor(s) == Some(q) {
      match s
      case PutBy(pid, put) => PutTouchesFromBefore(w, pid, put, name);
      case DeleteBy(pid, delete) => DeleteTouchesFromBefore(w, pid, delete, name);
      case GetBy(pid, get) => GettersStay(w, pid, get);
      case CopyBy(pid, copy) => CopiersStay(w, pid, copy);
      case Fail(_) =>
    }
  }

  lemma {:induction false} StepKeepsSecure(w: World, s: Step, name: string, creator: nat)
    requires Secure(w, name, creator) && Enabled(w, s) && Leaves(w, s, name, creator)
    ensures Secure(Apply(w, s), name, creator)
  {
    StepKeepsSound(w, s);
    StepKeepsOrigins(w, s);
    StepKeepsNamed(w, s);
    SecureIsUntouched(w, s, name, creator);
    IntactUntil(w, s, name);
    var t := Apply(w, s);
    if Leftover(t, name, creator) {
      var q :| q in t.procs && q != creator && CanTouch(t.procs[q], name);
      TouchesFromBefore(w, s, name, creator, q);
    }
  }

  lemma {:induction false} RunKeepsSecure(w: World, steps: seq<Step>, name: string, creator: nat)
    requires Secure(w, name, creator) && Runs(w, steps) && LeftAlone(w, steps, name, creator)
    ensures Secure(After(w, steps), name, creator)
    decreases |steps|
  {
    if steps != [] {
      StepKeepsSecure(w, steps[0], name, creator);
      RunKeepsSecure(Apply(w, steps[0]), steps[1..], name, creator);
    }
  }

  // ---------------------------------------------------------------------------------------
  // Durability, exactly
  // ---------------------------------------------------------------------------------------

  /** A DELETE that is unlisting can drop the object whatever else fails. */
  lemma {:induction false} UnlistingCanDrop(w: World, pid: nat, name: string, creator: nat) returns (steps: seq<Step>)
    requires DeleteAt(w, pid) && w.procs[pid].name == name && w.procs[pid].delete.Unlisting?
    requires w.procs[pid].delete.next <= |w.procs[pid].ids|
    ensures Runs(w, steps) && LeftAlone(w, steps, name, creator) && name !in After(w, steps).cluster.meta.objects
    decreases |w.procs[pid].ids| - w.procs[pid].delete.next
  {
    if w.procs[pid].delete.next == |w.procs[pid].ids| {
      var s := DeleteBy(pid, Drop);
      RunsFirst(w, s, []);
      LeftAloneFirst(w, s, [], name, creator);
      steps := [s] + [];
    } else {
      var rest := UnlistingCanDrop(Apply(w, Fail(pid)), pid, name, creator);
      RunsFirst(w, Fail(pid), rest);
      LeftAloneFirst(w, Fail(pid), rest, name, creator);
      steps := [Fail(pid)] + rest;
    }
  }

  lemma {:induction false} LeftAloneFirst(w: World, s: Step, rest: seq<Step>, name: string, creator: nat)
    requires Enabled(w, s) && Runs(Apply(w, s), rest) && Leaves(w, s, name, creator) && LeftAlone(Apply(w, s), rest, name, creator)
    ensures Runs(w, [s] + rest) && LeftAlone(w, [s] + rest, name, creator)
  {
    RunsFirst(w, s, rest);
    assert ([s] + rest)[1..] == rest;
  }

  lemma {:induction false} UndoingCanUndo(w: World, pid: nat, name: string, creator: nat) returns (steps: seq<Step>)
    requires PutAt(w, pid) && w.procs[pid].name == name && w.procs[pid].put.Undoing? && pid != creator
    ensures Runs(w, steps) && LeftAlone(w, steps, name, creator) && name !in After(w, steps).cluster.meta.objects
  {
    var s := PutBy(pid, Undo);
    RunsFirst(w, s, []);
    LeftAloneFirst(w, s, [], name, creator);
    steps := [s] + [];
  }

  /** Every process that can touch the name can take the object away by itself. */
  lemma {:induction false} LeftoverCanRemove(w: World, pid: nat, name: string, creator: nat) returns (steps: seq<Step>)
    requires Named(w) && pid in w.procs && CanTouch(w.procs[pid], name) && pid != creator
    ensures Runs(w, steps) && LeftAlone(w, steps, name, creator) && name !in After(w, steps).cluster.meta.objects
  {
    var p := w.procs[pid];
    if p.Put? && p.put.Undoing? {
      steps := UndoingCanUndo(w, pid, name, creator);
    } else if p.Put? {
      var rest := UndoingCanUndo(Apply(w, Fail(pid)), pid, name, creator);
      RunsFirst(w, Fail(pid), rest);
      LeftAloneFirst(w, Fail(pid), rest, name, creator);
      steps := [Fail(pid)] + rest;
    } else if p.delete.Erasing? {
      var s := DeleteBy(pid, EndErasing);
      var rest := UnlistingCanDrop(Apply(w, s), pid, name, creator);
      RunsFirst(w, s, rest);
      LeftAloneFirst(w, s, rest, name, creator);
      steps := [s] + rest;
    } else {
      assert ProcNamed(p, w.issuedTo);
      steps := UnlistingCanDrop(w, pid, name, creator);
    }
  }

  /**
   * An object stands through every run that leaves it alone if and only if no other process is left that
   * can touch its name. The creator may be under way or done; when it is done it has nothing to undo.
   */
  lemma {:induction false} StandsIffNoLeftover(w: World, name: string)
    requires Sound(w) && OriginsSound(w) && Named(w) && name in w.origins && w.origins[name].intact
    ensures (forall steps | Runs(w, steps) && LeftAlone(w, steps, name, w.origins[name].pid) ::
               Stands(After(w, steps), name, w.origins[name].pid)) <==>
            !Leftover(w, name, w.origins[name].pid)
  {
    var creator := w.origins[name].pid;
    if Leftover(w, name, creator) {
      var q :| q in w.procs && q != creator && CanTouch(w.procs[q], name);
      var steps := LeftoverCanRemove(w, q, name, creator);
      assert !Stands(After(w, steps), name, creator);
    } else {
      forall steps | Runs(w, steps) && LeftAlone(w, steps, name, creator)
        ensures Stands(After(w, steps), name, creator)
      {
        RunKeepsSecure(w, steps, name, creator);
        SecureStands(After(w, steps), name, creator);
      }
    }
  }

  /**
   * Hence what was uploaded can be downloaded: looked up at any time after the upload has completed and before a
   * DELETE has looked the name up, the object is delivered, if at all, as exactly the uploaded pieces, even if
   * deletions begin while the download is under way.
   */
  lemma {:induction false} CompletedUploadIsDelivered(w: World, steps: seq<Step>, pid: nat, name: string, more: seq<Step>)
    requires Sound(w) && OriginsSound(w) && Named(w) && name in w.origins && w.origins[name].intact
    requires !Leftover(w, name, w.origins[name].pid)
    requires Runs(w, steps) && LeftAlone(w, steps, name, w.origins[name].pid)
    requires GetEnabled(After(w, steps), pid, Look(name)) && Runs(AfterLook(After(w, steps), pid, name), more)
    ensures var (t, end) := (After(w, steps), After(AfterLook(After(w, steps), pid, name), more));
            && PutAt(t, w.origins[name].pid) && GetAt(end, pid)
            && (t.procs[w.origins[name].pid].put.PutDone? && end.procs[pid].get.Delivered? ==>
                  end.procs[pid].get.data == Flatten(t.procs[w.origins[name].pid].pieces))
  {
    RunKeepsSecure(w, steps, name, w.origins[name].pid);
    DownloadReturnsUploaded(After(w, steps), pid, name, more);
  }

  // ---------------------------------------------------------------------------------------
  // A rollback that takes another's object
  // ---------------------------------------------------------------------------------------

  /** PUT number 0 has created "x" and then failed. */
  ghost function Failing(): World {
    World(ClusterState(MetaState(map["x" := MetaObject("x", 0, [], 0)], map[], map[]), map[]),
          map[0 := Put("x", [], 0, Undoing)], map[], map[], map["x" := Origin(0, true)], map[])
  }

  /** A DELETE has looked "x" up, and has nothing to erase. */
  ghost function Doomed(): World {
    var w := Failing();
    w.(procs := map[0 := w.procs[0], 1 := Delete("x", [], Erasing([]))])
  }

  /** It is done. */
  ghost function Gone(): World {
    var w := Failing();
    w.(cluster := ClusterState(EMPTY_STATE, map[]), procs := map[0 := w.procs[0], 1 := Delete("x", [], Ended)], origins := map[])
  }

  /** PUT number 2 has uploaded "x" again. */
  ghost function Renewed(): World {
    var w := Failing();
    w.(procs := map[0 := w.procs[0], 1 := Delete("x", [], Ended), 2 := Put("x", [], 0, PutDone)], origins := map["x" := Origin(2, true)])
  }

  lemma {:induction false} ToFailing(rest: seq<Step>) returns (steps: seq<Step>)
    requires Runs(Failing(), rest)
    ensures Runs(EMPTY_WORLD, steps) && After(EMPTY_WORLD, steps) == After(Failing(), rest)
  {
    var s := PutBy(0, Create("x", 0, []));
    assert Apply(Apply(EMPTY_WORLD, s), Fail(0)) == Failing();
    steps := TwoSteps(EMPTY_WORLD, s, Fail(0), rest);
  }

  lemma {:induction false} ToDoomed(rest: seq<Step>) returns (steps: seq<Step>)
    requires Runs(Doomed(), rest)
    ensures Runs(Failing(), steps) && After(Failing(), steps) == After(Doomed(), rest)
  {
    var s := DeleteBy(1, LookToDelete("x"));
    assert Apply(Apply(Failing(), s), DeleteBy(1, Target)) == Doomed();
    steps := TwoSteps(Failing(), s, DeleteBy(1, Target), rest);
  }

  lemma {:induction false} ToGone(rest: seq<Step>) returns (steps: seq<Step>)
    requires Runs(Gone(), rest)
    ensures Runs(Doomed(), steps) && After(Doomed(), steps) == After(Gone(), rest)
  {
    var s := DeleteBy(1, EndErasing);
    assert Apply(Apply(Doomed(), s), DeleteBy(1, Drop)) == Gone();
    steps := TwoSteps(Doomed(), s, DeleteBy(1, Drop), rest);
  }

  lemma {:induction false} ToRenewed(rest: seq<Step>) returns (steps: seq<Step>)
    requires Runs(Renewed(), rest)
    ensures Runs(Gone(), steps) && After(Gone(), steps) == After(Renewed(), rest)
  {
    var s := PutBy(2, Create("x", 0, []));
    assert Apply(Apply(Gone(), s), PutBy(2, Complete)) == Renewed();
    steps := TwoSteps(Gone(), s, PutBy(2, Complete), rest);
  }

  lemma {:induction false} RunToRenewed() returns (steps: seq<Step>)
    ensures Runs(EMPTY_WORLD, steps) && After(EMPTY_WORLD, steps) == Renewed()
  {
    steps := ToRenewed([]);
    steps := ToGone(steps);
    steps := ToDoomed(steps);
    steps := ToFailing(steps);
  }

  /**
   * A completed object can be removed though nobody deletes it: a PUT that failed long ago, whose own object a
   * DELETE has removed meanwhile, rolls back by name and so removes the object that another PUT has completed.
   * No upload is under way and every DELETE has ended.
   */
  lemma {:induction false} RollbackTakesAnothersObject() returns (before: seq<Step>, rollback: Step)
    ensures Runs(EMPTY_WORLD, before) && Enabled(After(EMPTY_WORLD, before), rollback)
    ensures var w := After(EMPTY_WORLD, before);
            && "x" in w.origins && w.origins["x"].intact && PutAt(w, w.origins["x"].pid)
            && w.procs[w.origins["x"].pid].put.PutDone?
            && (forall q | DeleteAt(w, q) :: w.procs[q].delete.Ended?)
            && Owned(w) && Disciplined(w, rollback) && Leaves(w, rollback, "x", w.origins["x"].pid)
            && "x" !in Apply(w, rollback).origins
  {
    before := RunToRenewed();
    rollback := PutBy(0, Undo);
  }
}
