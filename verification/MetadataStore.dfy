/**
 * The metadata store in memory and its file. Saving writes a temporary file, syncs it and
 * renames it over the real one.
 */
module MetadataStore {
  import opened Base
  import opened Metadata
  import opened MetadataInvariants

  /** Storage nodes are not persisted; they register again after a restart. */
  datatype PersistentState = PersistentState(objects: map<string, MetaObject>, chunks: map<u64, MetaChunk>)

  function Saved(s: MetaState): PersistentState {
    PersistentState(s.objects, s.chunks)
  }

  /** A file holds nothing, a partly written state, or a whole one. */
  datatype Content = Absent | Torn | Whole(state: PersistentState)

  /** What a start makes of the file: anything but a whole state means starting fresh. */
  function Loaded(c: Content): MetaState {
    if c.Whole? then MetaState(c.state.objects, c.state.chunks, map[]) else EMPTY_STATE
  }

  /**
   * The real file and the temporary one. A killed process leaves their contents as they are; a power failure
   * leaves what was synced of them, and of a content that was not synced nothing that can be relied on.
   */
  class StateFile {
    var main: Content
    var tmp: Content
    /** What a power failure would leave in each of the two. */
    ghost var mainSynced: Content
    ghost var tmpSynced: Content
    /** Everything a start could have found in the real file, after a crash of either kind at each step. */
    ghost var history: seq<Content>
    const reliable: bool

    /** All of the real file is on disk, as it is whenever no save is under way. */
    ghost predicate Settled()
      reads this
    {
      mainSynced == main
    }

    ghost predicate Valid()
      reads this
    {
      history != [] && history[|history| - 1] == mainSynced
    }

    /** One more step at which a crash of either kind could have happened. */
    ghost method Note()
      modifies this`history
      ensures Valid() && history == old(history) + [main, mainSynced]
    {
      history := history + [main, mainSynced];
    }

    constructor (main: Content, tmp: Content, reliable: bool)
      ensures Valid() && Settled() && this.main == main && this.reliable == reliable && history == [main]
    {
      this.main, this.tmp, this.reliable := main, tmp, reliable;
      this.mainSynced, this.tmpSynced, this.history := main, tmp, [main];
    }

    method OpenTruncatedTmp() returns (r: Result<()>)
      requires Valid()
      modifies this`tmp, this`tmpSynced, this`history
      ensures Valid() && history == old(history) + [main, mainSynced]
      ensures r == Ok(()) || (r == Err(Io) && !reliable)
    {
      Note();
      var fails: bool := *;
      if fails && !reliable {
        return Err(Io);
      }
      tmp, tmpSynced := Torn, Torn;
      return Ok(());
    }

    method WriteAllTmp(state: PersistentState) returns (r: Result<()>)
      requires Valid()
      modifies this`tmp, this`tmpSynced, this`history
      ensures Valid() && history == old(history) + [main, mainSynced]
      ensures r.Ok? ==> tmp == Whole(state) && tmpSynced == Torn
      ensures r == Ok(()) || (r == Err(Io) && !reliable)
    {
      Note();
      tmpSynced := Torn;
      var fails: bool := *;
      if fails && !reliable {
        tmp := Torn;
        return Err(Io);
      }
      tmp := Whole(state);
      return Ok(());
    }

    /** Brings the temporary file to disk. */
    method SyncTmp() returns (r: Result<()>)
      requires Valid()
      modifies this`tmpSynced, this`history
      ensures Valid() && history == old(history) + [main, mainSynced]
      ensures tmpSynced == if r.Ok? then tmp else old(tmpSynced)
      ensures r == Ok(()) || (r == Err(Io) && !reliable)
    {
      Note();
      var fails: bool := *;
      if fails && !reliable {
        return Err(Io);
      }
      tmpSynced := tmp;
      return Ok(());
    }

    /** Replaces the real file by the temporary one in a single step, synced or not. */
    method RenameTmp() returns (r: Result<()>)
      requires Valid()
      modifies this`main, this`tmp, this`mainSynced, this`tmpSynced, this`history
      ensures Valid() && history == old(history) + [main, mainSynced]
      ensures r.Ok? ==> main == old(tmp) && mainSynced == old(tmpSynced)
      ensures r.Err? ==> main == old(main) && mainSynced == old(mainSynced)
      ensures r == Ok(()) || (r == Err(Io) && !reliable)
    {
      var fails: bool := *;
      if fails && !reliable {
        Note();
        return Err(Io);
      }
      main, mainSynced := tmp, tmpSynced;
      tmp, tmpSynced := Absent, Absent;
      Note();
      return Ok(());
    }
  }

  /** The file steps from `before` on show the old content or the whole new state, never anything else. */
  ghost predicate OnlyOldOrNew(history: seq<Content>, from: nat, before: Content, state: PersistentState) {
    forall i | from <= i < |history| :: history[i] == before || history[i] == Whole(state)
  }

  /** What can be told about the file at one moment. */
  datatype FileView = FileView(main: Content, history: seq<Content>)

  /**
   * How an operation that is due to have this outcome reports to its caller and shows on the file.
   * If it gets to save, the save decides between its own result and an I/O error, and every step
   * on the way shows the old or the new state; if not, the file is not touched.
   */
  ghost predicate Reports<T>(due: Outcome<T>, r: Result<T>, before: FileView, after: FileView, reliable: bool) {
    if due.saves then
      && before.history <= after.history
      && OnlyOldOrNew(after.history, |before.history|, before.main, Saved(due.state))
      && (|| (r == due.result && after.main == Whole(Saved(due.state)))
          || (r == Err(Io) && after.main == before.main && !reliable))
    else
      r == due.result && after == before
  }

  class MetadataStore {
    var objects: map<string, MetaObject>
    var chunks: map<u64, MetaChunk>
    var storageNodes: map<u64, Address>
    const file: StateFile

    ghost predicate Valid()
      reads this, file
    {
      file.Valid() && file.Settled()
    }

    ghost function State(): MetaState
      reads this
    {
      MetaState(objects, chunks, storageNodes)
    }

    ghost function OnFile(): FileView
      reads file
    {
      FileView(file.main, file.history)
    }

    /** Starts from what was read from the file. */
    constructor (main: Content, tmp: Content, reliable: bool)
      ensures Valid() && fresh(file) && file.main == main && file.reliable == reliable
      ensures State() == Loaded(main)
    {
      if main.Whole? {
        this.objects, this.chunks := main.state.objects, main.state.chunks;
      } else {
        this.objects, this.chunks := map[], map[];
      }
      this.storageNodes := map[];
      this.file := new StateFile(main, tmp, reliable);
    }

    /** Writes the current objects and chunks to the temporary file, syncs it, then renames it. */
    method Save() returns (r: Result<()>)
      requires Valid()
      modifies file
      ensures Valid() && old(file.history) <= file.history
      ensures r == Ok(()) || (r == Err(Io) && !file.reliable)
      ensures file.main == if r.Ok? then Whole(Saved(State())) else old(file.main)
      ensures OnlyOldOrNew(file.history, |old(file.history)|, old(file.main), Saved(State()))
    {
      var state := PersistentState(objects, chunks);
      r := file.OpenTruncatedTmp();
      if r.Err? {
        return;
      }
      r := file.WriteAllTmp(state);
      if r.Err? {
        return;
      }
      r := file.SyncTmp();
      if r.Err? {
        return;
      }
      r := file.RenameTmp();
    }

    method PutObject(checksum: u32, name: string) returns (r: Result<()>)
      requires Valid()
      modifies this, file
      ensures Valid() && var due := Metadata.PutObject(old(State()), checksum, name);
                State() == due.state && Reports(due, r, old(OnFile()), OnFile(), file.reliable)
    {
      if name in objects {
        return Err(AlreadyExists);
      }
      objects := objects[name := MetaObject(name, checksum, [], 0)];
      r := Save();
    }

    method DeleteObject(name: string) returns (r: Result<()>)
      requires Valid()
      modifies this, file
      ensures Valid() && var due := Metadata.DeleteObject(old(State()), name);
                State() == due.state && Reports(due, r, old(OnFile()), OnFile(), file.reliable)
    {
      if name !in objects {
        return Err(NotFound);
      }
      var listed := objects[name].chunks;
      objects := objects - {name};
      var i := 0;
      while i < |listed|
        invariant 0 <= i <= |listed|
        invariant chunks == old(chunks) - set c | c in listed[..i]
        modifies this`chunks
      {
        assert listed[..i + 1] == listed[..i] + [listed[i]];
        chunks := chunks - {listed[i]};
        i := i + 1;
      }
      assert listed[..i] == listed;
      r := Save();
    }

    method PutChunk(name: string, checksum: u32, draw: Draw) returns (r: Result<(u64, Address)>)
      requires Valid() && ValidDraw(State(), draw)
      modifies this, file
      ensures Valid() && var due := Metadata.PutChunk(old(State()), name, checksum, draw);
                State() == due.state && Reports(due, r, old(OnFile()), OnFile(), file.reliable)
    {
      if draw.node.None? {
        return Err(HostUnreachable);
      }
      var node := draw.node.value;
      chunks := chunks[draw.id := MetaChunk(draw.id, name, checksum, [node], Confirmed)];
      if name !in objects {
        return Err(NotFound);
      }
      var o := objects[name];
      objects := objects[name := o.(chunks := o.chunks + [draw.id])];
      var saved := Save();
      return if saved.Err? then Err(saved.error) else Ok((draw.id, storageNodes[node]));
    }

    /** Reserves a chunk id and picks a node; nothing is saved yet. */
    method AllocateChunk(name: string, draw: Draw) returns (r: Result<(u64, u64, Address)>)
      requires Valid() && ValidDraw(State(), draw)
      modifies this, file
      ensures Valid() && var due := Metadata.AllocateChunk(old(State()), name, draw);
                State() == due.state && Reports(due, r, old(OnFile()), OnFile(), file.reliable)
    {
      if draw.node.None? {
        return Err(HostUnreachable);
      }
      chunks := chunks[draw.id := MetaChunk(draw.id, name, 0, [], Pending)];
      return Ok((draw.id, draw.node.value, storageNodes[draw.node.value]));
    }

    method ConfirmChunk(id: u64, name: string, checksum: u32, node: u64) returns (r: Result<()>)
      requires Valid()
      modifies this, file
      ensures Valid() && var due := Metadata.ConfirmChunk(old(State()), id, name, checksum, node);
                State() == due.state && Reports(due, r, old(OnFile()), OnFile(), file.reliable)
    {
      if node !in storageNodes {
        return Err(NotFound);
      }
      if id in chunks && chunks[id].status == Confirmed {
        return Err(AlreadyExists);
      }
      if name !in objects {
        return Err(NotFound);
      }
      chunks := chunks[id := MetaChunk(id, name, checksum, [node], Confirmed)];
      var o := objects[name];
      objects := objects[name := o.(chunks := o.chunks + [id])];
      r := Save();
    }

    method DeleteChunk(id: u64) returns (r: Result<()>)
      requires Valid()
      modifies this, file
      ensures Valid() && var due := Metadata.DeleteChunk(old(State()), id);
                State() == due.state && Reports(due, r, old(OnFile()), OnFile(), file.reliable)
    {
      if id !in chunks {
        return Err(NotFound);
      }
      var name := chunks[id].objectName;
      chunks := chunks - {id};
      if name !in objects {
        return Err(NotFound);
      }
      var o := objects[name];
      objects := objects[name := o.(chunks := Without(o.chunks, id))];
      r := Save();
    }

    method UpdateObjectChecksum(name: string, checksum: u32, totalSize: u64) returns (r: Result<()>)
      requires Valid()
      modifies this, file
      ensures Valid() && var due := Metadata.UpdateObjectChecksum(old(State()), name, checksum, totalSize);
                State() == due.state && Reports(due, r, old(OnFile()), OnFile(), file.reliable)
    {
      if name !in objects {
        return Err(NotFound);
      }
      objects := objects[name := objects[name].(checksum := checksum, totalSize := totalSize)];
      r := Save();
    }

    method AddChunkReplica(id: u64, node: u64) returns (r: Result<()>)
      requires Valid()
      modifies this, file
      ensures Valid() && var due := Metadata.AddChunkReplica(old(State()), id, node);
                State() == due.state && Reports(due, r, old(OnFile()), OnFile(), file.reliable)
    {
      if node !in storageNodes {
        return Err(NotFound);
      }
      if id !in chunks {
        return Err(NotFound);
      }
      var c := chunks[id];
      if node in c.storageNodes {
        return Err(AlreadyExists);
      }
      if |c.storageNodes| >= MAX_REPLICAS {
        return Err(InvalidInput);
      }
      chunks := chunks[id := c.(storageNodes := c.storageNodes + [node])];
      r := Save();
    }

    method ConstructStorageNode(id: u64, address: Address, wellFormed: bool) returns (r: Result<u64>)
      requires Valid() && id !in storageNodes
      modifies this, file
      ensures Valid() && var due := Metadata.ConstructStorageNode(old(State()), id, address, wellFormed);
                State() == due.state && Reports(due, r, old(OnFile()), OnFile(), file.reliable)
    {
      if !wellFormed {
        return Err(InvalidInput);
      }
      storageNodes := storageNodes[id := address];
      return Ok(id);
    }

    method DeleteStorageNode(node: u64) returns (r: Result<()>)
      requires Valid()
      modifies this, file
      ensures Valid() && var due := Metadata.DeleteStorageNode(old(State()), node);
                State() == due.state && Reports(due, r, old(OnFile()), OnFile(), file.reliable)
    {
      if node !in storageNodes {
        return Err(NotFound);
      }
      storageNodes := storageNodes - {node};
      return Ok(());
    }

    method IngestPartition(newObjects: seq<MetaObject>, newChunks: seq<MetaChunk>) returns (r: Result<()>)
      requires Valid()
      modifies this, file
      ensures Valid() && var due := Metadata.IngestPartition(old(State()), newObjects, newChunks);
                State() == due.state && Reports(due, r, old(OnFile()), OnFile(), file.reliable)
    {
      var i := 0;
      while i < |newObjects|
        invariant 0 <= i <= |newObjects|
        invariant objects == AddObjects(old(objects), newObjects[..i])
        modifies this`objects
      {
        assert newObjects[..i + 1][..i] == newObjects[..i];
        objects := objects[newObjects[i].name := newObjects[i]];
        i := i + 1;
      }
      assert newObjects[..i] == newObjects;
      i := 0;
      while i < |newChunks|
        invariant 0 <= i <= |newChunks|
        invariant chunks == AddChunks(old(chunks), newChunks[..i])
        modifies this`chunks
      {
        assert newChunks[..i + 1][..i] == newChunks[..i];
        chunks := chunks[newChunks[i].id := newChunks[i]];
        i := i + 1;
      }
      assert newChunks[..i] == newChunks;
      r := Save();
    }

    /** Removes the named objects with their chunks, those that exist, after they were transferred away. */
    method RemoveObjects(names: seq<string>) returns (r: Result<()>)
      requires Valid()
      modifies this, file
      ensures Valid() && var due := Metadata.RemoveObjects(old(State()), names);
                State() == due.state && Reports(due, r, old(OnFile()), OnFile(), file.reliable)
    {
      var i := 0;
      while i < |names|
        invariant 0 <= i <= |names|
        invariant State() == RemoveNamed(old(State()), names[..i])
        modifies this`objects, this`chunks
      {
        assert names[..i + 1][..i] == names[..i];
        if names[i] in objects {
          var listed := objects[names[i]].chunks;
          objects := objects - {names[i]};
          chunks := map id | id in chunks && id !in listed :: chunks[id];
        }
        i := i + 1;
      }
      assert names[..i] == names;
      r := Save();
    }
  }

  /**
   * Opens the store. A file that cannot be read is an error, and may be one when it is torn; a missing file, or
   * one that was read and holds no state, is a fresh start.
   */
  method Start(main: Content, tmp: Content, reliable: bool) returns (r: Result<MetadataStore>)
    ensures r.Ok? ==> fresh(r.value) && fresh(r.value.file) && r.value.Valid() && r.value.State() == Loaded(main)
    ensures r.Ok? ==> r.value.file.main == main && r.value.file.reliable == reliable
    ensures r.Err? ==> main == Torn || (main.Whole? && !reliable)
  {
    if main != Absent {
      var fails: bool := *;
      if fails && !reliable {
        return Err(Io);
      }
      var garbled: bool := *;
      if main == Torn && garbled {
        return Err(InvalidData);
      }
    }
    var store := new MetadataStore(main, tmp, reliable);
    return Ok(store);
  }

  // ---------------------------------------------------------------------------------------
  // Crash atomicity
  // ---------------------------------------------------------------------------------------

  /** Memory and file are both sound and show the same objects, though they may differ otherwise. */
  ghost predicate FileCurrent(s: MetaState, file: Content) {
    Referential(s) && Referential(Loaded(file)) && View(s) == View(Loaded(file))
  }

  lemma {:induction false} SavedIsCurrent(s: MetaState)
    requires Referential(s)
    ensures FileCurrent(s, Whole(Saved(s)))
  {
    var t := Loaded(Whole(Saved(s)));
    forall name | name in t.objects
      ensures ObjectSound(t.objects[name], t.chunks)
    {
      assert ObjectSound(s.objects[name], s.chunks);
    }
  }

  /** What was saved is loaded again, all of it but for the storage nodes; so the file can serve again and again. */
  lemma {:induction false} LoadUndoesSave(s: MetaState, c: Content)
    ensures Loaded(Whole(Saved(s))) == s.(nodes := map[])
    ensures c.Whole? ==> Whole(Saved(Loaded(c))) == c
  {
  }

  /** The file after an operation whose save, if it gets there, succeeds. */
  ghost function FileAfter(s: MetaState, cmd: Command, file: Content): Content
    requires Permitted(s, cmd)
  {
    if Exec(s, cmd).saves then Whole(Saved(Exec(s, cmd).state)) else file
  }

  /** After every operation, successful or not, the file shows the objects that memory shows. */
  lemma {:induction false} ExecKeepsFileCurrent(s: MetaState, cmd: Command, file: Content)
    requires FileCurrent(s, file) && Permitted(s, cmd)
    ensures FileCurrent(Exec(s, cmd).state, FileAfter(s, cmd, file))
  {
    ExecKeepsReferential(s, cmd);
    if Exec(s, cmd).saves {
      SavedIsCurrent(Exec(s, cmd).state);
    } else {
      NoSaveNoViewChange(s, cmd);
    }
  }

  /** The pairs of memory and file that a run of operations goes through. */
  ghost predicate RunsThrough(cmds: seq<Command>, mems: seq<MetaState>, files: seq<Content>) {
    && |mems| == |files| == |cmds| + 1
    && forall i | 0 <= i < |cmds| ::
         && Permitted(mems[i], cmds[i])
         && mems[i + 1] == Exec(mems[i], cmds[i]).state
         && files[i + 1] == FileAfter(mems[i], cmds[i], files[i])
  }

  lemma {:induction false} RunKeepsFileCurrent(cmds: seq<Command>, mems: seq<MetaState>, files: seq<Content>, k: nat)
    requires RunsThrough(cmds, mems, files) && FileCurrent(mems[0], files[0]) && k <= |cmds|
    ensures FileCurrent(mems[k], files[k])
  {
    if k > 0 {
      RunKeepsFileCurrent(cmds, mems, files, k - 1);
      ExecKeepsFileCurrent(mems[k - 1], cmds[k - 1], files[k - 1]);
    }
  }

  /**
   * A killed process or a power failure at any moment of any run, also inside a save: the file that is
   * found, which was among the steps of the operation then running, loads into a sound state that shows the objects as
   * they were before that operation or as they are after it.
   */
  lemma {:induction false} CrashShowsBeforeOrAfter(cmds: seq<Command>, mems: seq<MetaState>, files: seq<Content>, k: nat, history: seq<Content>, found: Content)
    requires RunsThrough(cmds, mems, files) && FileCurrent(mems[0], files[0]) && k < |cmds|
    requires OnlyOldOrNew(history, 0, files[k], Saved(mems[k + 1])) && found in history
    ensures Referential(Loaded(found))
    ensures View(Loaded(found)) == View(mems[k]) || View(Loaded(found)) == View(mems[k + 1])
  {
    RunKeepsFileCurrent(cmds, mems, files, k);
    RunKeepsFileCurrent(cmds, mems, files, k + 1);
    SavedIsCurrent(mems[k + 1]);
  }

  /** A start on a missing or unreadable file, and on a saved one, is current. */
  lemma {:induction false} StartIsCurrent(file: Content)
    requires file.Whole? ==> Referential(Loaded(file))
    ensures FileCurrent(Loaded(file), file)
  {
  }
}
