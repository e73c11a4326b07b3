/**
 * What the metadata operations mean: when each succeeds, and what it then changes for a reader of
 * objects and for the registry of storage nodes, in terms of the view and not of the lists inside.
 */
module MetadataMeaning {
  import opened Base
  import opened Metadata
  import opened MetadataInvariants

  // ---------------------------------------------------------------------------------------
  // Objects
  // ---------------------------------------------------------------------------------------

  /** A new object appears, empty. */
  lemma {:induction false} PutObjectAddsEmpty(s: MetaState, checksum: u32, name: string)
    ensures PutObject(s, checksum, name).result.Ok? <==> name !in View(s)
    ensures var t := PutObject(s, checksum, name).state;
            View(t) == if name in View(s) then View(s) else View(s)[name := ObjectView(checksum, 0, [])]
  {
    var t := PutObject(s, checksum, name).state;
    if name !in s.objects {
      assert forall other | other in s.objects :: ViewOf(t.objects[other], t.chunks) == ViewOf(s.objects[other], s.chunks);
      assert ViewOf(t.objects[name], t.chunks) == ObjectView(checksum, 0, []);
    }
  }

  /** Checksum and size are set, and the chunks stay. */
  lemma {:induction false} UpdateSetsHeader(s: MetaState, name: string, checksum: u32, totalSize: u64)
    ensures UpdateObjectChecksum(s, name, checksum, totalSize).result.Ok? <==> name in View(s)
    ensures var t := UpdateObjectChecksum(s, name, checksum, totalSize).state;
            View(t) == if name in View(s) then View(s)[name := ObjectView(checksum, totalSize, View(s)[name].records)] else View(s)
  {
    var t := UpdateObjectChecksum(s, name, checksum, totalSize).state;
    if name in s.objects {
      assert ViewOf(t.objects[name], t.chunks).records == ViewOf(s.objects[name], s.chunks).records;
    }
  }

  /** An object goes with all its chunk records, and with no others. */
  lemma {:induction false} DeleteObjectTakesItsChunks(s: MetaState, name: string)
    ensures DeleteObject(s, name).result.Ok? <==> name in View(s)
    ensures var t := DeleteObject(s, name).state;
            forall id :: RecordOf(t.chunks, id) ==
                         if name in s.objects && id in s.objects[name].chunks then None else RecordOf(s.chunks, id)
  {
  }

  /** Removing several objects leaves the others as they were. */
  lemma {:induction false} RemoveObjectsRemovesViews(s: MetaState, names: seq<string>)
    requires Referential(s)
    ensures Referential(RemoveNamed(s, names)) && View(RemoveNamed(s, names)) == View(s) - set n | n in names
    ensures RemoveObjects(s, names).state == RemoveNamed(s, names) && RemoveNamed(s, names).nodes == s.nodes
  {
    RemoveNamedKeeps(s, names);
    if names != [] {
      var front, last := names[..|names| - 1], names[|names| - 1];
      var t := RemoveNamed(s, front);
      RemoveObjectsRemovesViews(s, front);
      if last in t.objects {
        DeleteObjectRemovesView(t, last);
      }
      assert names == front + [last];
      assert View(DeleteObject(t, last).state) == View(t) - {last};
    }
  }

  // ---------------------------------------------------------------------------------------
  // Chunks
  // ---------------------------------------------------------------------------------------

  /** A reservation is for the drawn node's address, and no reader sees it. */
  lemma {:induction false} AllocateReserves(s: MetaState, name: string, draw: Draw)
    requires Referential(s) && ValidDraw(s, draw)
    ensures var due := AllocateChunk(s, name, draw);
            && (due.result.Ok? <==> s.nodes != map[]) && View(due.state) == View(s)
            && (due.result.Ok? ==>
                  && draw.node.Some? && due.result.value == (draw.id, draw.node.value, s.nodes[draw.node.value])
                  && RecordOf(due.state.chunks, draw.id) == Some(MetaChunk(draw.id, name, 0, [], Pending)))
            && forall id | id != draw.id :: RecordOf(due.state.chunks, id) == RecordOf(s.chunks, id)
  {
    forall other | other in s.objects
      ensures draw.id !in s.objects[other].chunks
    {
      Unlisted(s, draw.id, other);
    }
    UnlistedChunkUnseen(s, AllocateChunk(s, name, draw).state, draw.id);
  }

  /** A state in which one object has one more chunk, not listed before, shows one more record at its end. */
  lemma {:induction false} ListedShowsLast(s: MetaState, t: MetaState, name: string, id: u64)
    requires name in s.objects && id in t.chunks && forall other | other in s.objects :: id !in s.objects[other].chunks
    requires t.objects == s.objects[name := s.objects[name].(chunks := s.objects[name].chunks + [id])]
    requires forall other | other != id :: RecordOf(t.chunks, other) == RecordOf(s.chunks, other)
    ensures var v := View(s)[name]; View(t) == View(s)[name := v.(records := v.records + [Some(t.chunks[id])])]
  {
    forall other | other in s.objects
      ensures ViewOf(s.objects[other], t.chunks) == ViewOf(s.objects[other], s.chunks)
    {
      SameRecordsSameView(s.objects[other], s.chunks, t.chunks);
    }
    assert ViewOf(t.objects[name], t.chunks).records == ViewOf(s.objects[name], t.chunks).records + [Some(t.chunks[id])];
  }

  /** A chunk that is put is confirmed at once: a new last record with the drawn node, whose address is returned. */
  lemma {:induction false} PutChunkAppendsRecord(s: MetaState, name: string, checksum: u32, draw: Draw)
    requires Referential(s) && ValidDraw(s, draw)
    ensures var due := PutChunk(s, name, checksum, draw);
            && (due.result.Ok? <==> s.nodes != map[] && name in View(s))
            && (due.result.Ok? ==>
                  var (node, v) := (draw.node.value, View(s)[name]);
                  && due.result.value == (draw.id, s.nodes[node])
                  && View(due.state) == View(s)[name := v.(records := v.records + [Some(MetaChunk(draw.id, name, checksum, [node], Confirmed))])])
            && (due.result.Err? ==> View(due.state) == View(s))
  {
    var t := PutChunk(s, name, checksum, draw).state;
    forall other | other in s.objects
      ensures draw.id !in s.objects[other].chunks
    {
      Unlisted(s, draw.id, other);
    }
    if PutChunk(s, name, checksum, draw).result.Ok? {
      ListedShowsLast(s, t, name, draw.id);
    } else {
      UnlistedChunkUnseen(s, t, draw.id);
    }
  }

  lemma {:induction false} ConfirmSucceedsIff(s: MetaState, id: u64, name: string, checksum: u32, node: u64)
    ensures var due := ConfirmChunk(s, id, name, checksum, node);
            && (due.result.Ok? <==> node in s.nodes && name in View(s) && !(id in s.chunks && s.chunks[id].status.Confirmed?))
            && (due.result.Ok? <==> due.saves) && (due.result.Err? ==> due.state == s)
  {
  }

  /** Of a list in which the id is at position |a|, the others are left in their order. */
  lemma {:induction false} WithoutOne(a: seq<u64>, id: u64, b: seq<u64>)
    requires Distinct(a + [id] + b)
    ensures Without(a + [id] + b, id) == a + b
  {
    var all := a + [id] + b;
    assert all[|a|] == id;
    assert id !in a by {
      assert forall i | 0 <= i < |a| :: all[i] == a[i];
    }
    assert id !in b by {
      assert forall i | 0 <= i < |b| :: all[|a| + 1 + i] == b[i];
    }
    WithoutAppend(a + [id], b, id);
    WithoutAppend(a, [id], id);
    WithoutElements(a, id);
    WithoutElements(b, id);
    assert Without([id], id) == [];
  }

  /** Deleting a listed chunk takes its record out of the object; the other records stay, in their order. */
  lemma {:induction false} DeleteChunkDropsRecord(s: MetaState, id: u64, name: string, a: seq<u64>, b: seq<u64>)
    requires Referential(s) && name in s.objects && s.objects[name].chunks == a + [id] + b
    ensures var (due, v) := (DeleteChunk(s, id), View(s)[name]);
            && due.result.Ok? && id !in due.state.chunks && due.state.nodes == s.nodes
            && due.state.objects[name].chunks == a + b
            && View(due.state) == View(s)[name := v.(records := v.records[..|a|] + v.records[|a| + 1..])]
            && forall other | other != id :: RecordOf(due.state.chunks, other) == RecordOf(s.chunks, other)
  {
    var t := DeleteChunk(s, id).state;
    assert s.objects[name].chunks[|a|] == id;
    assert ObjectSound(s.objects[name], s.chunks);
    WithoutOne(a, id, b);
    assert t.objects == s.objects[name := s.objects[name].(chunks := a + b)];
    forall other | other in s.objects && other != name
      ensures ViewOf(s.objects[other], t.chunks) == ViewOf(s.objects[other], s.chunks)
    {
      Unlisted(s, id, other);
      SameRecordsSameView(s.objects[other], s.chunks, t.chunks);
    }
    RecordsWithoutOne(s.objects[name], s.chunks, t.chunks, a, id, b);
  }

  lemma {:induction false} RecordsWithoutOne(o: MetaObject, before: map<u64, MetaChunk>, after: map<u64, MetaChunk>, a: seq<u64>, id: u64, b: seq<u64>)
    requires o.chunks == a + [id] + b && Distinct(o.chunks)
    requires forall other | other != id :: RecordOf(after, other) == RecordOf(before, other)
    ensures var v := ViewOf(o, before);
            ViewOf(o.(chunks := a + b), after) == v.(records := v.records[..|a|] + v.records[|a| + 1..])
  {
    var v, w := ViewOf(o, before), ViewOf(o.(chunks := a + b), after);
    forall i | 0 <= i < |a + b|
      ensures w.records[i] == (v.records[..|a|] + v.records[|a| + 1..])[i]
    {
      var j := if i < |a| then i else i + 1;
      assert (a + b)[i] == o.chunks[j] && o.chunks[|a|] == id && j != |a|;
    }
  }

  /** Deleting a chunk that no object lists changes nothing for a reader. */
  lemma {:induction false} DeleteUnlistedChunk(s: MetaState, id: u64)
    requires Referential(s) && forall name | name in s.objects :: id !in s.objects[name].chunks
    ensures View(DeleteChunk(s, id).state) == View(s) && DeleteChunk(s, id).state.chunks == s.chunks - {id}
  {
    var t := DeleteChunk(s, id).state;
    if id in s.chunks && s.chunks[id].objectName in s.objects {
      var o := s.objects[s.chunks[id].objectName];
      WithoutElements(o.chunks, id);
      assert t.objects == s.objects;
    }
    UnlistedChunkUnseen(s, t, id);
  }

  // ---------------------------------------------------------------------------------------
  // Storage nodes
  // ---------------------------------------------------------------------------------------

  /** Registering adds one node and dropping it again undoes that; objects and chunks are not concerned. */
  lemma {:induction false} RegisterAndDrop(s: MetaState, node: u64, address: Address, wellFormed: bool)
    requires node !in s.nodes
    ensures var (due, t) := (ConstructStorageNode(s, node, address, wellFormed), ConstructStorageNode(s, node, address, wellFormed).state);
            && (due.result.Ok? <==> wellFormed) && (due.result.Err? ==> t == s)
            && (due.result.Ok? ==>
                  && due.result.value == node && View(t) == View(s) && t.chunks == s.chunks
                  && t.nodes.Keys == s.nodes.Keys + {node} && t.nodes[node] == address
                  && (forall other | other in s.nodes :: t.nodes[other] == s.nodes[other])
                  && DeleteStorageNode(t, node).result.Ok? && DeleteStorageNode(t, node).state == s)
  {
    var t := ConstructStorageNode(s, node, address, wellFormed).state;
    if wellFormed {
      assert t.nodes - {node} == s.nodes;
    }
  }

  /** Dropping a node takes exactly that one out of the registry. */
  lemma {:induction false} DropTakesOne(s: MetaState, node: u64)
    ensures var (due, t) := (DeleteStorageNode(s, node), DeleteStorageNode(s, node).state);
            && (due.result.Ok? <==> node in s.nodes) && View(t) == View(s) && t.chunks == s.chunks
            && t.nodes.Keys == s.nodes.Keys - {node}
            && forall other | other in t.nodes :: t.nodes[other] == s.nodes[other]
  {
  }
}
