/**
 * What an object lists. While nobody but its creator changes its chunk list, an object consists of the
 * first pieces of the upload that created it, and of all of them once that upload has completed. The
 * exception is exact: a deletion takes chunks off the list, or a PUT confirms a chunk into an object
 * that another PUT created under the same name.
 */
module ProtocolUploads {
  import opened Base
  import opened Metadata
  import opened MetadataInvariants
  import opened Cluster
  import opened Chunking
  import opened Protocol
  import opened ProtocolContents
  import Crc32

  /** The object's creator is known, and every chunk it lists has been issued. */
  ghost predicate Created(w: World, q: nat, name: string, ids: seq<u64>) {
    && PutAt(w, q) && w.procs[q].name == name && w.procs[q].done <= |w.procs[q].pieces|
    && Issued(ids, w.intended)
  }

  /** The chunks listed were issued for the first `done` pieces of the creator. */
  ghost predicate FromCreator(w: World, q: nat, name: string, ids: seq<u64>) {
    Created(w, q, name, ids) && ContentsOf(ids, w.intended) == w.procs[q].pieces[..w.procs[q].done]
  }

  ghost predicate OriginSound(w: World, name: string)
    requires name in w.cluster.meta.objects && name in w.origins
  {
    && Created(w, w.origins[name].pid, name, w.cluster.meta.objects[name].chunks)
    && (w.origins[name].intact ==> FromCreator(w, w.origins[name].pid, name, w.cluster.meta.objects[name].chunks))
  }

  ghost predicate OriginsSound(w: World) {
    && (forall name :: name in w.origins <==> name in w.cluster.meta.objects)
    && (forall name | name in w.origins :: OriginSound(w, name))
  }

  // ---------------------------------------------------------------------------------------
  // Step by step
  // ---------------------------------------------------------------------------------------

  ghost predicate SamePuts(w: World, t: World) {
    forall q | PutAt(w, q) :: PutAt(t, q) && t.procs[q].name == w.procs[q].name && t.procs[q].pieces == w.procs[q].pieces && t.procs[q].done == w.procs[q].done
  }

  lemma {:induction false} CreatorRemains(w: World, t: World, q: nat, name: string, ids: seq<u64>)
    requires Created(w, q, name, ids) && SamePuts(w, t) && Grows(w.intended, t.intended)
    ensures Created(t, q, name, ids)
    ensures FromCreator(w, q, name, ids) ==> FromCreator(t, q, name, ids)
  {
    SameContents(ids, w.intended, t.intended);
  }

  /** A step that changes no list, creates and confirms nothing, but may remove objects or mark them as changed. */
  lemma {:induction false} SameListsStaySound(w: World, t: World)
    requires OriginsSound(w) && SamePuts(w, t) && Grows(w.intended, t.intended)
    requires forall name :: name in t.origins <==> name in t.cluster.meta.objects
    requires forall name | name in t.origins ::
               && name in w.origins && t.origins[name].pid == w.origins[name].pid
               && (forall id | id in t.cluster.meta.objects[name].chunks :: id in w.cluster.meta.objects[name].chunks)
               && (t.origins[name].intact ==> w.origins[name].intact &&
                                               t.cluster.meta.objects[name].chunks == w.cluster.meta.objects[name].chunks)
    ensures OriginsSound(t)
  {
    forall name | name in t.origins
      ensures OriginSound(t, name)
    {
      assert OriginSound(w, name);
      CreatorRemains(w, t, w.origins[name].pid, name, w.cluster.meta.objects[name].chunks);
    }
  }

  /** A new object starts with no chunks, as its creator starts with no piece confirmed. */
  lemma {:induction false} NewObjectIsSound(w: World, t: World, pid: nat, name: string, pieces: seq<seq<byte>>)
    requires OriginsSound(w) && pid !in w.procs && name !in w.cluster.meta.objects
    requires t.procs == w.procs[pid := Put(name, pieces, 0, Next)] && t.intended == w.intended
    requires t.origins == w.origins[name := Origin(pid, true)]
    requires forall other :: other in t.cluster.meta.objects <==> other in w.cluster.meta.objects || other == name
    requires forall other | other in w.cluster.meta.objects ::
               t.cluster.meta.objects[other].chunks == w.cluster.meta.objects[other].chunks
    requires t.cluster.meta.objects[name].chunks == []
    ensures OriginsSound(t)
  {
    forall other | other in t.origins
      ensures OriginSound(t, other)
    {
      if other == name {
        assert ContentsOf([], t.intended) == pieces[..0];
      } else {
        assert OriginSound(w, other);
        CreatorRemains(w, t, w.origins[other].pid, other, w.cluster.meta.objects[other].chunks);
      }
    }
  }

  lemma {:induction false} CreateKeepsOrigins(w: World, pid: nat, name: string, checksum: u32, pieces: seq<seq<byte>>)
    requires OriginsSound(w) && PutEnabled(w, pid, Create(name, checksum, pieces))
    ensures OriginsSound(AfterCreate(w, pid, name, checksum, pieces))
  {
    var t := AfterCreate(w, pid, name, checksum, pieces);
    if name in w.cluster.meta.objects {
      SameListsStaySound(w, t);
    } else {
      NewObjectIsSound(w, t, pid, name, pieces);
    }
  }

  /** A list gets one more chunk. */
  ghost predicate Appended(w: World, t: World, name: string, id: u64) {
    && name in w.cluster.meta.objects
    && t.cluster.meta.objects.Keys == w.cluster.meta.objects.Keys
    && t.cluster.meta.objects[name].chunks == w.cluster.meta.objects[name].chunks + [id]
    && forall other | other in w.cluster.meta.objects && other != name ::
         t.cluster.meta.objects[other].chunks == w.cluster.meta.objects[other].chunks
  }

  /** A confirmation that succeeds: the chunk is appended, and the object is marked unless it is the PUT's own. */
  ghost predicate ConfirmDone(w: World, t: World, pid: nat, p: Proc, id: u64)
    requires p.Put?
  {
    && t.procs[pid := p] == w.procs[pid := p] && pid in t.procs
    && t.procs[pid] == p.(done := p.done + 1, put := Next)
    && Appended(w, t, p.name, id)
    && t.origins.Keys == w.origins.Keys
    && forall name | name in w.origins ::
         t.origins[name] == if name == p.name && w.origins[name].pid != pid then w.origins[name].(intact := false) else w.origins[name]
  }

  lemma {:induction false} ConfirmLists(m: MetaState, t: MetaState, id: u64, name: string, checksum: u32, node: u64)
    requires ConfirmChunk(m, id, name, checksum, node).result.Ok? && t == ConfirmChunk(m, id, name, checksum, node).state
    ensures name in m.objects && t.objects.Keys == m.objects.Keys && t.objects[name].chunks == m.objects[name].chunks + [id]
    ensures forall other | other in m.objects && other != name :: t.objects[other].chunks == m.objects[other].chunks
  {
  }

  lemma {:induction false} ConfirmedIsDone(w: World, pid: nat, m: MetaState, id: u64)
    requires PutAt(w, pid) && Appended(w, WithConfirmed(w, pid, m), w.procs[pid].name, id)
    ensures ConfirmDone(w, WithConfirmed(w, pid, m), pid, w.procs[pid], id)
  {
  }

  lemma {:induction false} ConfirmAppends(w: World, pid: nat)
    requires PutEnabled(w, pid, Confirm)
    ensures AfterConfirm(w, pid).intended == w.intended && PutAt(AfterConfirm(w, pid), pid)
    ensures AfterConfirm(w, pid).procs[pid].put.Next? ==> ConfirmDone(w, AfterConfirm(w, pid), pid, w.procs[pid], w.procs[pid].put.id)
  {
    var t, p := AfterConfirm(w, pid), w.procs[pid];
    if t.procs[pid].put.Next? {
      ConfirmLists(w.cluster.meta, t.cluster.meta, p.put.id, p.name, Crc32.Checksum(p.pieces[p.done]), p.put.node);
      ConfirmedIsDone(w, pid, t.cluster.meta, p.put.id);
    }
  }

  lemma {:induction false} ConfirmFails(w: World, pid: nat)
    requires PutEnabled(w, pid, Confirm) && !AfterConfirm(w, pid).procs[pid].put.Next?
    ensures AfterConfirm(w, pid) == w.WithProc(pid, w.procs[pid].(put := Undoing))
  {
  }

  /** The creator's own confirmation appends what was issued for its next piece. */
  lemma {:induction false} NextPieceIsListed(w: World, t: World, pid: nat, name: string, ids: seq<u64>, id: u64)
    requires FromCreator(w, pid, name, ids) && t.intended == w.intended && Moves(w, t, pid)
    requires w.procs[pid].done < |w.procs[pid].pieces| && id in w.intended && w.intended[id] == w.procs[pid].pieces[w.procs[pid].done]
    requires t.procs[pid] == w.procs[pid].(done := w.procs[pid].done + 1, put := Next)
    ensures FromCreator(t, pid, name, ids + [id])
  {
    var p := w.procs[pid];
    assert ContentsOf(ids + [id], w.intended) == ContentsOf(ids, w.intended) + [w.intended[id]];
    assert p.pieces[..p.done + 1] == p.pieces[..p.done] + [p.pieces[p.done]];
  }

  lemma {:induction false} AppendedIsCreated(w: World, t: World, q: nat, name: string, ids: seq<u64>, id: u64)
    requires Created(w, q, name, ids) && t.intended == w.intended && id in w.intended
    requires PutAt(t, q) && t.procs[q].name == name && t.procs[q].done <= |t.procs[q].pieces|
    ensures Created(t, q, name, ids + [id])
  {
  }

  lemma {:induction false} ConfirmKeepsOrigin(w: World, pid: nat, name: string)
    requires Sound(w) && OriginsSound(w) && PutEnabled(w, pid, Confirm) && name in w.origins
    ensures name in AfterConfirm(w, pid).origins && name in AfterConfirm(w, pid).cluster.meta.objects
    ensures OriginSound(AfterConfirm(w, pid), name)
  {
    var t, p := AfterConfirm(w, pid), w.procs[pid];
    var q, ids := w.origins[name].pid, w.cluster.meta.objects[name].chunks;
    PutMoves(w, pid, Confirm);
    ConfirmAppends(w, pid);
    assert ProcSound(p, w.intended) && OriginSound(w, name);
    if !t.procs[pid].put.Next? {
      ConfirmFails(w, pid);
    } else if name == p.name {
      AppendedIsCreated(w, t, q, name, ids, p.put.id);
      if t.origins[name].intact {
        NextPieceIsListed(w, t, pid, name, ids, p.put.id);
      }
    }
  }

  lemma {:induction false} ConfirmKeepsOrigins(w: World, pid: nat)
    requires Sound(w) && OriginsSound(w) && PutEnabled(w, pid, Confirm)
    ensures OriginsSound(AfterConfirm(w, pid))
  {
    var t := AfterConfirm(w, pid);
    PutMoves(w, pid, Confirm);
    ConfirmAppends(w, pid);
    if !t.procs[pid].put.Next? {
      ConfirmFails(w, pid);
    }
    forall name | name in t.origins
      ensures OriginSound(t, name)
    {
      ConfirmKeepsOrigin(w, pid, name);
    }
  }

  lemma {:induction false} UnlistKeepsOrigins(w: World, pid: nat)
    requires OriginsSound(w) && DeleteEnabled(w, pid, Unlist)
    ensures OriginsSound(AfterUnlist(w, pid))
  {
    var t := AfterUnlist(w, pid);
    var id := w.procs[pid].ids[w.procs[pid].delete.next];
    var m := w.cluster.meta;
    if id in m.chunks && m.chunks[id].objectName in m.objects {
      WithoutElements(m.objects[m.chunks[id].objectName].chunks, id);
    }
    SameListsStaySound(w, t);
  }

  /** What all other steps do to the lists: nothing, or an object goes. */
  ghost predicate SameLists(w: World, t: World) {
    && SamePuts(w, t) && Grows(w.intended, t.intended)
    && (forall name :: name in t.origins <==> name in t.cluster.meta.objects)
    && (forall name | name in t.origins :: name in w.origins && name in w.cluster.meta.objects && t.origins[name] == w.origins[name] &&
          t.cluster.meta.objects[name].chunks == w.cluster.meta.objects[name].chunks)
  }

  lemma {:induction false} PutKeepsLists(w: World, pid: nat, s: PutStep)
    requires OriginsSound(w) && PutEnabled(w, pid, s) && !s.Create? && !s.Confirm?
    ensures SameLists(w, ApplyPut(w, pid, s))
  {
    PutMoves(w, pid, s);
    PutGrows(w, pid, s);
  }

  lemma {:induction false} DeleteKeepsLists(w: World, pid: nat, s: DeleteStep)
    requires OriginsSound(w) && DeleteEnabled(w, pid, s) && !s.Unlist?
    ensures SameLists(w, ApplyDelete(w, pid, s))
  {
    DeleteMoves(w, pid, s);
  }

  lemma {:induction false} CopyKeepsLists(w: World, pid: nat, s: CopyStep)
    requires OriginsSound(w) && CopyEnabled(w, pid, s)
    ensures SameLists(w, ApplyCopy(w, pid, s))
  {
    CopyMoves(w, pid, s);
    CopyKeepsObjects(w, pid, s);
  }

  lemma {:induction false} GetKeepsLists(w: World, pid: nat, s: GetStep)
    requires OriginsSound(w) && GetEnabled(w, pid, s)
    ensures SameLists(w, ApplyGet(w, pid, s))
  {
    GetMoves(w, pid, s);
  }

  lemma {:induction false} PutStepKeepsOrigins(w: World, pid: nat, s: PutStep)
    requires Sound(w) && OriginsSound(w) && PutEnabled(w, pid, s)
    ensures OriginsSound(ApplyPut(w, pid, s))
  {
    match s
    case Create(name, checksum, pieces) => CreateKeepsOrigins(w, pid, name, checksum, pieces);
    case Confirm => ConfirmKeepsOrigins(w, pid);
    case _ =>
      PutKeepsLists(w, pid, s);
      SameListsStaySound(w, ApplyPut(w, pid, s));
  }

  lemma {:induction false} DeleteStepKeepsOrigins(w: World, pid: nat, s: DeleteStep)
    requires OriginsSound(w) && DeleteEnabled(w, pid, s)
    ensures OriginsSound(ApplyDelete(w, pid, s))
  {
    if s.Unlist? {
      UnlistKeepsOrigins(w, pid);
    } else {
      DeleteKeepsLists(w, pid, s);
      SameListsStaySound(w, ApplyDelete(w, pid, s));
    }
  }

  lemma {:induction false} OthersKeepLists(w: World, s: Step)
    requires OriginsSound(w) && Enabled(w, s) && !s.PutBy? && !(s.DeleteBy? && s.delete.Unlist?)
    ensures SameLists(w, Apply(w, s))
  {
    match s
    case DeleteBy(pid, delete) => DeleteKeepsLists(w, pid, delete);
    case GetBy(pid, get) => GetKeepsLists(w, pid, get);
    case CopyBy(pid, copy) => CopyKeepsLists(w, pid, copy);
    case _ =>
  }

  lemma {:induction false} StepKeepsOrigins(w: World, s: Step)
    requires Sound(w) && OriginsSound(w) && Enabled(w, s)
    ensures OriginsSound(Apply(w, s))
  {
    match s
    case PutBy(pid, put) => PutStepKeepsOrigins(w, pid, put);
    case DeleteBy(pid, delete) => DeleteStepKeepsOrigins(w, pid, delete);
    case _ =>
      OthersKeepLists(w, s);
      SameListsStaySound(w, Apply(w, s));
  }

  lemma {:induction false} RunKeepsOrigins(w: World, steps: seq<Step>)
    requires Sound(w) && OriginsSound(w) && Runs(w, steps)
    ensures Sound(After(w, steps)) && OriginsSound(After(w, steps))
    decreases |steps|
  {
    if steps != [] {
      StepKeepsSound(w, steps[0]);
      StepKeepsOrigins(w, steps[0]);
      RunKeepsOrigins(Apply(w, steps[0]), steps[1..]);
    }
  }

  /** Every reachable state has these properties. */
  lemma {:induction false} ReachableIsSound(steps: seq<Step>)
    requires Runs(EMPTY_WORLD, steps)
    ensures Sound(After(EMPTY_WORLD, steps)) && OriginsSound(After(EMPTY_WORLD, steps))
  {
    EmptyWorldIsSound();
    RunKeepsOrigins(EMPTY_WORLD, steps);
  }

  // ---------------------------------------------------------------------------------------
  // What a download returns
  // ---------------------------------------------------------------------------------------

  /**
   * The object protocol's promise. Looked up while intact, an object is downloaded, if at all, as a
   * whole-chunk front of what its creator uploads: the pieces confirmed by then, hence all of them if
   * the upload had completed.
   */
  lemma {:induction false} DownloadReturnsUploaded(w: World, pid: nat, name: string, steps: seq<Step>)
    requires Sound(w) && OriginsSound(w) && GetEnabled(w, pid, Look(name))
    requires name in w.origins && w.origins[name].intact
    requires Runs(AfterLook(w, pid, name), steps)
    ensures var t := After(AfterLook(w, pid, name), steps);
            GetAt(t, pid) && PutAt(w, w.origins[name].pid) &&
            var upload := w.procs[w.origins[name].pid];
            && upload.name == name && upload.done <= |upload.pieces|
            && (t.procs[pid].get.Delivered? ==> t.procs[pid].get.data == Flatten(upload.pieces[..upload.done]))
            && (t.procs[pid].get.Delivered? && upload.put.PutDone? ==> t.procs[pid].get.data == Flatten(upload.pieces))
  {
    assert OriginSound(w, name);
    DownloadReturnsLookedUp(w, pid, name, steps);
    var upload := w.procs[w.origins[name].pid];
    assert ProcSound(upload, w.intended);
    assert upload.pieces[..|upload.pieces|] == upload.pieces;
  }

  // ---------------------------------------------------------------------------------------
  // When objects stay intact
  // ---------------------------------------------------------------------------------------

  /** The step takes a chunk off the object's list. */
  predicate Shortens(w: World, s: Step, name: string)
    requires Enabled(w, s)
  {
    s.DeleteBy? && s.delete.Unlist? &&
    var id := w.procs[s.pid].ids[w.procs[s.pid].delete.next];
    var m := w.cluster.meta;
    id in m.chunks && m.chunks[id].objectName == name && name in m.objects && id in m.objects[name].chunks
  }

  /** The step adds a chunk to the object that is not its creator's. */
  predicate Intrudes(w: World, s: Step, name: string)
    requires Enabled(w, s)
  {
    && s.PutBy? && s.put.Confirm? && w.procs[s.pid].name == name && name in w.origins && w.origins[name].pid != s.pid
    && AfterConfirm(w, s.pid).procs[s.pid].put.Next?
  }

  /** The step deletes this object. */
  predicate Removes(w: World, s: Step, name: string)
    requires Enabled(w, s)
  {
    ((s.PutBy? && s.put.Undo?) || (s.DeleteBy? && s.delete.Drop?)) && w.procs[s.pid].name == name
  }

  lemma {:induction false} PutOrigin(w: World, pid: nat, s: PutStep, name: string)
    requires PutEnabled(w, pid, s) && name in w.origins && name in w.cluster.meta.objects
    ensures !Removes(w, PutBy(pid, s), name) ==> name in ApplyPut(w, pid, s).origins
    ensures name in ApplyPut(w, pid, s).origins ==>
              ApplyPut(w, pid, s).origins[name] ==
              w.origins[name].(intact := w.origins[name].intact && !Intrudes(w, PutBy(pid, s), name))
  {
  }

  lemma {:induction false} DeleteOrigin(w: World, pid: nat, s: DeleteStep, name: string)
    requires DeleteEnabled(w, pid, s) && name in w.origins && name in w.cluster.meta.objects
    ensures !Removes(w, DeleteBy(pid, s), name) ==> name in ApplyDelete(w, pid, s).origins
    ensures name in ApplyDelete(w, pid, s).origins ==>
              ApplyDelete(w, pid, s).origins[name] ==
              w.origins[name].(intact := w.origins[name].intact && !Shortens(w, DeleteBy(pid, s), name))
  {
  }

  lemma {:induction false} GetAndCopyKeepOrigins(w: World, s: Step)
    requires Enabled(w, s) && !s.PutBy? && !s.DeleteBy?
    ensures Apply(w, s).origins == w.origins
  {
    match s
    case GetBy(pid, get) => GetMoves(w, pid, get);
    case CopyBy(pid, copy) => CopyKeepsObjects(w, pid, copy);
    case _ =>
  }

  /**
   * An object that is there keeps its origin until it is deleted, and stops being intact in exactly two ways: a
   * deletion takes a chunk off its list, or a PUT that did not create it confirms a chunk into it.
   */
  lemma {:induction false} IntactUntil(w: World, s: Step, name: string)
    requires Enabled(w, s) && name in w.origins && name in w.cluster.meta.objects
    ensures !Removes(w, s, name) ==> name in Apply(w, s).origins
    ensures name in Apply(w, s).origins ==>
              Apply(w, s).origins[name] ==
              w.origins[name].(intact := w.origins[name].intact && !Shortens(w, s, name) && !Intrudes(w, s, name))
  {
    match s
    case PutBy(pid, put) => PutOrigin(w, pid, put, name);
    case DeleteBy(pid, delete) => DeleteOrigin(w, pid, delete, name);
    case _ => GetAndCopyKeepOrigins(w, s);
  }

  predicate Uploading(p: Proc, name: string) {
    p.Put? && p.name == name && (p.put.Next? || p.put.Writing? || p.put.Confirming?)
  }

  /** Nobody removes an object while an upload of that name, other than a failed one that undoes itself, is under way. */
  ghost predicate Disciplined(w: World, s: Step)
    requires Enabled(w, s)
  {
    forall name | Removes(w, s, name) :: forall q | q in w.procs && q != s.pid :: !Uploading(w.procs[q], name)
  }

  /** Uploads under way upload into the objects they created. */
  ghost predicate Owned(w: World) {
    forall q, name | q in w.procs && Uploading(w.procs[q], name) :: name in w.origins && w.origins[name].pid == q
  }

  lemma {:induction false} PutUploadingBefore(w: World, pid: nat, s: PutStep, name: string)
    requires PutEnabled(w, pid, s) && !s.Create? && Uploading(ApplyPut(w, pid, s).procs[pid], name)
    ensures pid in w.procs && Uploading(w.procs[pid], name) && !s.Undo?
  {
  }

  /** Only steps of PUTs make uploads, and failing steps make none. */
  lemma {:induction false} OthersAreNotUploading(w: World, s: Step, name: string)
    requires Enabled(w, s) && !s.PutBy? && Actor(s).Some? && s.pid in Apply(w, s).procs
    ensures !Uploading(Apply(w, s).procs[s.pid], name)
  {
    match s
    case GetBy(pid, get) => GettersStay(w, pid, get);
    case DeleteBy(pid, delete) => DeletersStay(w, pid, delete);
    case CopyBy(pid, copy) => CopiersStay(w, pid, copy);
    case Fail(pid) =>
  }

  lemma {:induction false} GettersStay(w: World, pid: nat, s: GetStep)
    requires GetEnabled(w, pid, s)
    ensures GetAt(ApplyGet(w, pid, s), pid)
  {
  }

  lemma {:induction false} DeletersStay(w: World, pid: nat, s: DeleteStep)
    requires DeleteEnabled(w, pid, s)
    ensures DeleteAt(ApplyDelete(w, pid, s), pid)
  {
  }

  lemma {:induction false} CopiersStay(w: World, pid: nat, s: CopyStep)
    requires CopyEnabled(w, pid, s)
    ensures CopyAt(ApplyCopy(w, pid, s), pid)
  {
  }

  lemma {:induction false} UploadingBefore(w: World, s: Step, q: nat, name: string)
    requires Enabled(w, s) && !(s.PutBy? && s.put.Create?) && q in Apply(w, s).procs && Uploading(Apply(w, s).procs[q], name)
    ensures q in w.procs && Uploading(w.procs[q], name) && (Removes(w, s, name) ==> q != s.pid)
  {
    OnlyActorMoves(w, s);
    if Actor(s) == Some(q) {
      if s.PutBy? {
        PutUploadingBefore(w, q, s.put, name);
      } else {
        OthersAreNotUploading(w, s, name);
      }
    }
  }

  lemma {:induction false} UploaderOwns(w: World, s: Step, q: nat, name: string)
    requires OriginsSound(w) && Owned(w) && Enabled(w, s) && Disciplined(w, s) && !(s.PutBy? && s.put.Create?)
    requires q in Apply(w, s).procs && Uploading(Apply(w, s).procs[q], name)
    ensures name in Apply(w, s).origins && Apply(w, s).origins[name].pid == q
  {
    UploadingBefore(w, s, q, name);
    IntactUntil(w, s, name);
  }

  /** A process that is not uploading cannot break ownership, nor can a new one that owns what it creates. */
  lemma {:induction false} NewcomerKeepsOwned(w: World, t: World, pid: nat, name: string)
    requires OriginsSound(w) && Owned(w) && Moves(w, t, pid) && pid !in w.procs
    requires t.procs[pid].Put? && t.procs[pid].name == name
    requires if t.procs[pid].put.Next? then name !in w.origins && t.origins == w.origins[name := Origin(pid, true)]
             else t.procs[pid].put.PutFailed? && t.origins == w.origins
    ensures Owned(t)
  {
    forall q, x | q in t.procs && Uploading(t.procs[q], x)
      ensures x in t.origins && t.origins[x].pid == q
    {
      assert q != pid ==> Uploading(w.procs[q], x);
    }
  }

  lemma {:induction false} CreateKeepsOwned(w: World, pid: nat, name: string, checksum: u32, pieces: seq<seq<byte>>)
    requires OriginsSound(w) && Owned(w) && PutEnabled(w, pid, Create(name, checksum, pieces))
    ensures Owned(AfterCreate(w, pid, name, checksum, pieces))
  {
    NewcomerKeepsOwned(w, AfterCreate(w, pid, name, checksum, pieces), pid, name);
  }

  ghost predicate OwnedAt(t: World, q: nat, name: string) {
    name in t.origins && t.origins[name].pid == q
  }

  lemma {:induction false} StepKeepsOwned(w: World, s: Step)
    requires OriginsSound(w) && Owned(w) && Enabled(w, s) && Disciplined(w, s)
    ensures Owned(Apply(w, s))
  {
    if s.PutBy? && s.put.Create? {
      CreateKeepsOwned(w, s.pid, s.put.name, s.put.checksum, s.put.pieces);
    } else {
      var t := Apply(w, s);
      forall q, name | q in t.procs && Uploading(t.procs[q], name)
        ensures OwnedAt(t, q, name)
      {
        UploaderOwns(w, s, q, name);
      }
    }
  }

  lemma {:induction false} OwnersDoNotIntrude(w: World, s: Step, name: string)
    requires Owned(w) && Enabled(w, s)
    ensures !Intrudes(w, s, name)
  {
    if s.PutBy? && s.put.Confirm? {
      assert Uploading(w.procs[s.pid], w.procs[s.pid].name);
    }
  }

  ghost predicate DisciplinedRun(w: World, steps: seq<Step>)
    requires Runs(w, steps)
    decreases |steps|
  {
    steps == [] || (Disciplined(w, steps[0]) && DisciplinedRun(Apply(w, steps[0]), steps[1..]))
  }

  /** The run takes no chunk off the list of this object, and nobody removes it: neither a deletion nor a rollback. */
  ghost predicate Undeleted(w: World, steps: seq<Step>, name: string)
    requires Runs(w, steps)
    decreases |steps|
  {
    steps == [] ||
    (!Shortens(w, steps[0], name) && name in Apply(w, steps[0]).origins && Undeleted(Apply(w, steps[0]), steps[1..], name))
  }

  /** Under that discipline an object that nobody removes or takes chunks from stays as its creator uploads it. */
  lemma {:induction false} DisciplineKeepsIntact(w: World, steps: seq<Step>, name: string)
    requires Sound(w) && OriginsSound(w) && Owned(w) && Runs(w, steps) && DisciplinedRun(w, steps)
    requires name in w.origins && w.origins[name].intact && Undeleted(w, steps, name)
    ensures var t := After(w, steps);
            OriginsSound(t) && Owned(t) && name in t.origins && t.origins[name].intact && t.origins[name].pid == w.origins[name].pid
    decreases |steps|
  {
    if steps != [] {
      var s := steps[0];
      StepKeepsSound(w, s);
      StepKeepsOrigins(w, s);
      StepKeepsOwned(w, s);
      OwnersDoNotIntrude(w, s, name);
      IntactUntil(w, s, name);
      DisciplineKeepsIntact(Apply(w, s), steps[1..], name);
    }
  }

  // ---------------------------------------------------------------------------------------
  // Exactly when an object is what its creator uploaded
  // ---------------------------------------------------------------------------------------

  /** By how much the list is longer than what its creator has confirmed. */
  ghost function Excess(w: World, name: string): int
    requires OriginsSound(w) && name in w.origins
  {
    assert OriginSound(w, name);
    |w.cluster.meta.objects[name].chunks| - w.procs[w.origins[name].pid].done
  }

  lemma {:induction false} ConfirmExcess(w: World, pid: nat, name: string)
    requires Sound(w) && OriginsSound(w) && PutEnabled(w, pid, Confirm) && name in w.origins
    ensures name in AfterConfirm(w, pid).origins && OriginsSound(AfterConfirm(w, pid))
    ensures Excess(AfterConfirm(w, pid), name) == Excess(w, name) + (if Intrudes(w, PutBy(pid, Confirm), name) then 1 else 0)
  {
    PutMoves(w, pid, Confirm);
    ConfirmAppends(w, pid);
    ConfirmKeepsOrigins(w, pid);
    if !AfterConfirm(w, pid).procs[pid].put.Next? {
      ConfirmFails(w, pid);
    }
    assert OriginSound(w, name);
  }

  lemma {:induction false} SameExcess(w: World, t: World, name: string)
    requires OriginsSound(w) && OriginsSound(t) && SamePuts(w, t) && name in w.origins && name in t.origins
    requires t.origins[name].pid == w.origins[name].pid
    requires t.cluster.meta.objects[name].chunks == w.cluster.meta.objects[name].chunks
    ensures Excess(t, name) == Excess(w, name)
  {
    assert OriginSound(w, name);
  }

  lemma {:induction false} CreateExcess(w: World, pid: nat, name: string, s: PutStep)
    requires OriginsSound(w) && PutEnabled(w, pid, s) && s.Create? && name in w.origins
    requires OriginsSound(ApplyPut(w, pid, s))
    ensures name in ApplyPut(w, pid, s).origins && Excess(ApplyPut(w, pid, s), name) == Excess(w, name)
  {
    PutMoves(w, pid, s);
    SameExcess(w, ApplyPut(w, pid, s), name);
  }

  lemma {:induction false} OtherListsStay(m: MetaState, id: u64, name: string)
    requires name in m.objects
    requires !(id in m.chunks && m.chunks[id].objectName == name && id in m.objects[name].chunks)
    ensures var t := DeleteChunk(m, id).state; name in t.objects && t.objects[name].chunks == m.objects[name].chunks
  {
    WithoutElements(m.objects[name].chunks, id);
  }

  lemma {:induction false} UnlistExcess(w: World, pid: nat, name: string)
    requires OriginsSound(w) && DeleteEnabled(w, pid, Unlist) && name in w.origins
    requires !Shortens(w, DeleteBy(pid, Unlist), name) && OriginsSound(AfterUnlist(w, pid))
    ensures name in AfterUnlist(w, pid).origins && Excess(AfterUnlist(w, pid), name) == Excess(w, name)
  {
    OtherListsStay(w.cluster.meta, w.procs[pid].ids[w.procs[pid].delete.next], name);
    DeleteMoves(w, pid, Unlist);
    DeleteOrigin(w, pid, Unlist, name);
    SameExcess(w, AfterUnlist(w, pid), name);
  }

  lemma {:induction false} PutExcess(w: World, pid: nat, s: PutStep, name: string)
    requires Sound(w) && OriginsSound(w) && PutEnabled(w, pid, s) && name in w.origins
    requires name in ApplyPut(w, pid, s).origins && OriginsSound(ApplyPut(w, pid, s))
    ensures Excess(ApplyPut(w, pid, s), name) == Excess(w, name) + (if Intrudes(w, PutBy(pid, s), name) then 1 else 0)
  {
    match s
    case Create(_, _, _) => CreateExcess(w, pid, name, s);
    case Confirm => ConfirmExcess(w, pid, name);
    case _ =>
      PutKeepsLists(w, pid, s);
      SameExcess(w, ApplyPut(w, pid, s), name);
  }

  /** Only a foreign confirmation makes the list longer in comparison, each by one; only a deletion makes it shorter. */
  lemma {:induction false} StepExcess(w: World, s: Step, name: string)
    requires Sound(w) && OriginsSound(w) && Enabled(w, s) && name in w.origins
    requires name in Apply(w, s).origins && !Shortens(w, s, name) && OriginsSound(Apply(w, s))
    ensures Excess(Apply(w, s), name) == Excess(w, name) + (if Intrudes(w, s, name) then 1 else 0)
  {
    if s.PutBy? {
      PutExcess(w, s.pid, s.put, name);
    } else if s.DeleteBy? && s.delete.Unlist? {
      UnlistExcess(w, s.pid, name);
    } else {
      OthersKeepLists(w, s);
      SameExcess(w, Apply(w, s), name);
    }
  }

  /** The number of foreign confirmations into the object along a run. */
  ghost function Intrusions(w: World, steps: seq<Step>, name: string): nat
    requires Runs(w, steps)
    decreases |steps|
  {
    if steps == [] then 0
    else (if Intrudes(w, steps[0], name) then 1 else 0) + Intrusions(Apply(w, steps[0]), steps[1..], name)
  }

  lemma {:induction false} RunExcess(w: World, steps: seq<Step>, name: string)
    requires Sound(w) && OriginsSound(w) && Runs(w, steps) && name in w.origins && Undeleted(w, steps, name)
    ensures var t := After(w, steps);
            && OriginsSound(t) && name in t.origins && t.origins[name].pid == w.origins[name].pid
            && Excess(t, name) == Excess(w, name) + Intrusions(w, steps, name)
            && (t.origins[name].intact <==> w.origins[name].intact && Intrusions(w, steps, name) == 0)
    decreases |steps|
  {
    if steps != [] {
      var s := steps[0];
      StepKeepsSound(w, s);
      StepKeepsOrigins(w, s);
      IntactUntil(w, s, name);
      StepExcess(w, s, name);
      RunExcess(Apply(w, s), steps[1..], name);
    }
  }

  /**
   * While nobody removes it or takes chunks off it, an object lists exactly what its creator has confirmed, all
   * of it once the upload is complete, if and only if no other PUT has confirmed a chunk into it; and each that has shows.
   */
  lemma {:induction false} WholeIffNoIntrusion(w: World, steps: seq<Step>, name: string)
    requires Sound(w) && OriginsSound(w) && Runs(w, steps) && Undeleted(w, steps, name)
    requires name in w.origins && w.origins[name].intact
    ensures var t := After(w, steps);
            && OriginsSound(t) && name in t.origins && PutAt(t, t.origins[name].pid)
            && var (upload, ids) := (t.procs[t.origins[name].pid], t.cluster.meta.objects[name].chunks);
            && upload.done <= |upload.pieces| && Issued(ids, t.intended)
            && |ids| == upload.done + Intrusions(w, steps, name)
            && (ContentsOf(ids, t.intended) == upload.pieces[..upload.done] <==> Intrusions(w, steps, name) == 0)
            && (upload.put.PutDone? ==>
                  (ContentsOf(ids, t.intended) == upload.pieces <==> Intrusions(w, steps, name) == 0))
  {
    assert OriginSound(w, name);
    RunKeepsOrigins(w, steps);
    RunExcess(w, steps, name);
    var t := After(w, steps);
    assert OriginSound(t, name);
    var upload := t.procs[t.origins[name].pid];
    assert ProcSound(upload, t.intended);
    assert upload.pieces[..|upload.pieces|] == upload.pieces;
    LengthsTell(w, t, name, Intrusions(w, steps, name));
  }

  /** An intact object's list is as long as its creator's progress, so that an excess shows in its contents. */
  lemma {:induction false} LengthsTell(w: World, t: World, name: string, n: nat)
    requires OriginsSound(w) && name in w.origins && w.origins[name].intact
    requires OriginsSound(t) && name in t.origins && Excess(t, name) == Excess(w, name) + n
    ensures |t.cluster.meta.objects[name].chunks| == t.procs[t.origins[name].pid].done + n
    ensures var (q, ids) := (t.origins[name].pid, t.cluster.meta.objects[name].chunks);
            Created(t, q, name, ids) && (n > 0 ==> ContentsOf(ids, t.intended) != t.procs[q].pieces[..t.procs[q].done])
  {
    assert OriginSound(w, name) && OriginSound(t, name);
    var q := w.origins[name].pid;
    assert |ContentsOf(w.cluster.meta.objects[name].chunks, w.intended)| == |w.procs[q].pieces[..w.procs[q].done]|;
  }

  // ---------------------------------------------------------------------------------------
  // A run without that discipline
  // ---------------------------------------------------------------------------------------

  /** PUT number 0 has created "x". */
  ghost function Begun(): World {
    World(ClusterState(MetaState(map["x" := MetaObject("x", 0, [], 0)], map[], map[9 := "a"]), map["a" := map[]]),
          map[0 := Put("x", [[7]], 0, Next)], map[], map[], map["x" := Origin(0, true)], map[9 := "a"])
  }

  /** PUT number 0 has created "x" and written its only piece, but not confirmed it yet. */
  ghost function HalfUploaded(): World {
    var disk: Disk := map[1 := [7]];
    World(ClusterState(MetaState(map["x" := MetaObject("x", 0, [], 0)], map[1 := MetaChunk(1, "x", 0, [], Pending)], map[9 := "a"]),
                       map["a" := disk]),
          map[0 := Put("x", [[7]], 0, Confirming(1, 9, "a"))],
          map[1 := [7]], map[1 := "x"], map["x" := Origin(0, true)], map[9 := "a"])
  }

  /** A DELETE has found "x" with no chunks, and so nothing to erase. */
  ghost function Targeted(): World {
    var w := HalfUploaded();
    w.(procs := map[0 := w.procs[0], 1 := Delete("x", [], Erasing([]))])
  }

  /** Then "x" was deleted. */
  ghost function Removed(): World {
    var w := HalfUploaded();
    w.(cluster := w.cluster.(meta := w.cluster.meta.(objects := map[])),
       procs := map[0 := w.procs[0], 1 := Delete("x", [], Ended)], origins := map[])
  }

  /** Then "x" was deleted, and PUT number 2 has uploaded an empty "x". */
  ghost function Replaced(): World {
    var w := HalfUploaded();
    w.(procs := map[0 := w.procs[0], 1 := Delete("x", [], Ended), 2 := Put("x", [], 0, PutDone)], origins := map["x" := Origin(2, true)])
  }

  lemma {:induction false} ToBegun(rest: seq<Step>) returns (steps: seq<Step>)
    requires Runs(Begun(), rest)
    ensures Runs(EMPTY_WORLD, steps) && After(EMPTY_WORLD, steps) == After(Begun(), rest)
  {
    var s := Register(9, "a");
    assert Apply(Apply(EMPTY_WORLD, s), PutBy(0, Create("x", 0, [[7]]))) == Begun();
    steps := TwoSteps(EMPTY_WORLD, s, PutBy(0, Create("x", 0, [[7]])), rest);
  }

  lemma {:induction false} ToHalfUploaded(rest: seq<Step>) returns (steps: seq<Step>)
    requires Runs(HalfUploaded(), rest)
    ensures Runs(Begun(), steps) && After(Begun(), steps) == After(HalfUploaded(), rest)
  {
    assert 9 in Begun().cluster.meta.nodes;
    var s := PutBy(0, Allocate(1, 9));
    assert Apply(Apply(Begun(), s), PutBy(0, Write)) == HalfUploaded();
    steps := TwoSteps(Begun(), s, PutBy(0, Write), rest);
  }

  lemma {:induction false} ToTargeted(rest: seq<Step>) returns (steps: seq<Step>)
    requires Runs(Targeted(), rest)
    ensures Runs(HalfUploaded(), steps) && After(HalfUploaded(), steps) == After(Targeted(), rest)
  {
    var s := DeleteBy(1, LookToDelete("x"));
    assert Apply(Apply(HalfUploaded(), s), DeleteBy(1, Target)) == Targeted();
    steps := TwoSteps(HalfUploaded(), s, DeleteBy(1, Target), rest);
  }

  lemma {:induction false} ToRemoved(rest: seq<Step>) returns (steps: seq<Step>)
    requires Runs(Removed(), rest)
    ensures Runs(Targeted(), steps) && After(Targeted(), steps) == After(Removed(), rest)
  {
    var s := DeleteBy(1, EndErasing);
    assert Apply(Targeted(), s).procs == map[0 := HalfUploaded().procs[0], 1 := Delete("x", [], Unlisting(0))];
    assert Apply(Apply(Targeted(), s), DeleteBy(1, Drop)) == Removed();
    steps := TwoSteps(Targeted(), s, DeleteBy(1, Drop), rest);
  }

  lemma {:induction false} ToReplaced(rest: seq<Step>) returns (steps: seq<Step>)
    requires Runs(Replaced(), rest)
    ensures Runs(Removed(), steps) && After(Removed(), steps) == After(Replaced(), rest)
  {
    var s := PutBy(2, Create("x", 0, []));
    assert Apply(Apply(Removed(), s), PutBy(2, Complete)) == Replaced();
    steps := TwoSteps(Removed(), s, PutBy(2, Complete), rest);
  }

  lemma {:induction false} RunToIntrusion() returns (steps: seq<Step>)
    ensures Enabled(Replaced(), PutBy(0, Confirm))
    ensures Runs(EMPTY_WORLD, steps) && After(EMPTY_WORLD, steps) == Apply(Replaced(), PutBy(0, Confirm))
  {
    RunsFirst(Replaced(), PutBy(0, Confirm), []);
    steps := ToReplaced([PutBy(0, Confirm)] + []);
    steps := ToRemoved(steps);
    steps := ToTargeted(steps);
    steps := ToHalfUploaded(steps);
    steps := ToBegun(steps);
  }

  /**
   * An upload can complete, not be deleted, and yet its object lists bytes it never contained: a PUT whose object
   * was deleted under it confirms its chunk into the object that another PUT has created since.
   */
  lemma {:induction false} ForeignChunksCanIntrude() returns (steps: seq<Step>, name: string)
    ensures Runs(EMPTY_WORLD, steps)
    ensures var w := After(EMPTY_WORLD, steps);
            && name in w.origins && name in w.cluster.meta.objects && PutAt(w, w.origins[name].pid)
            && w.procs[w.origins[name].pid].put.PutDone?
            && Issued(w.cluster.meta.objects[name].chunks, w.intended)
            && ContentsOf(w.cluster.meta.objects[name].chunks, w.intended) != w.procs[w.origins[name].pid].pieces
  {
    name := "x";
    steps := RunToIntrusion();
    assert Apply(Replaced(), PutBy(0, Confirm)).cluster.meta.objects[name].chunks == [1];
  }
}
