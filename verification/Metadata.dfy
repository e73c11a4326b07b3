/**
 * The metadata of the object store as a value, and what each operation of the metadata store
 * makes of it: objects with their ordered chunk lists, chunks with their replica lists, and
 * the registry of storage nodes.
 */
module Metadata {
  import opened Base

  type Address = string

  datatype ChunkStatus = Pending | Confirmed

  datatype MetaChunk = MetaChunk(id: u64, objectName: string, checksum: u32, storageNodes: seq<u64>, status: ChunkStatus)

  datatype MetaObject = MetaObject(name: string, checksum: u32, chunks: seq<u64>, totalSize: u64)

  datatype MetaState = MetaState(objects: map<string, MetaObject>, chunks: map<u64, MetaChunk>, nodes: map<u64, Address>)

  const EMPTY_STATE := MetaState(map[], map[], map[])

  const MAX_REPLICAS: nat := 3

  /** The random choices of one call: an unused chunk id, and a registered node if there is one. */
  datatype Draw = Draw(id: u64, node: Option<u64>)

  predicate ValidDraw(s: MetaState, d: Draw) {
    && d.id !in s.chunks
    && (if s.nodes == map[] then d.node.None? else d.node.Some? && d.node.value in s.nodes)
  }

  /**
   * What an operation does to memory, what it reports, and whether it reaches the point where it
   * saves. An operation that fails before that point may have changed memory all the same.
   */
  datatype Outcome<+T> = Outcome(state: MetaState, result: Result<T>, saves: bool)

  // ---------------------------------------------------------------------------------------
  // Operations
  // ---------------------------------------------------------------------------------------

  function PutObject(s: MetaState, checksum: u32, name: string): Outcome<()> {
    if name in s.objects then
      Outcome(s, Err(AlreadyExists), false)
    else
      Outcome(s.(objects := s.objects[name := MetaObject(name, checksum, [], 0)]), Ok(()), true)
  }

  function DeleteObject(s: MetaState, name: string): Outcome<()> {
    if name !in s.objects then
      Outcome(s, Err(NotFound), false)
    else
      var listed := set c | c in s.objects[name].chunks;
      Outcome(s.(objects := s.objects - {name}, chunks := s.chunks - listed), Ok(()), true)
  }

  function AddToList(s: MetaState, name: string, id: u64): MetaState
    requires name in s.objects
  {
    var o := s.objects[name];
    s.(objects := s.objects[name := o.(chunks := o.chunks + [id])])
  }

  function PutChunk(s: MetaState, name: string, checksum: u32, draw: Draw): Outcome<(u64, Address)>
    requires ValidDraw(s, draw)
  {
    if draw.node.None? then
      Outcome(s, Err(HostUnreachable), false)
    else
      var node := draw.node.value;
      var t := s.(chunks := s.chunks[draw.id := MetaChunk(draw.id, name, checksum, [node], Confirmed)]);
      if name !in s.objects then
        Outcome(t, Err(NotFound), false)
      else
        Outcome(AddToList(t, name, draw.id), Ok((draw.id, s.nodes[node])), true)
  }

  function AllocateChunk(s: MetaState, name: string, draw: Draw): Outcome<(u64, u64, Address)>
    requires ValidDraw(s, draw)
  {
    if draw.node.None? then
      Outcome(s, Err(HostUnreachable), false)
    else
      var node := draw.node.value;
      Outcome(s.(chunks := s.chunks[draw.id := MetaChunk(draw.id, name, 0, [], Pending)]),
              Ok((draw.id, node, s.nodes[node])), false)
  }

  function ConfirmChunk(s: MetaState, id: u64, name: string, checksum: u32, node: u64): Outcome<()> {
    if node !in s.nodes then
      Outcome(s, Err(NotFound), false)
    else if id in s.chunks && s.chunks[id].status == Confirmed then
      Outcome(s, Err(AlreadyExists), false)
    else if name !in s.objects then
      Outcome(s, Err(NotFound), false)
    else
      var t := s.(chunks := s.chunks[id := MetaChunk(id, name, checksum, [node], Confirmed)]);
      Outcome(AddToList(t, name, id), Ok(()), true)
  }

  function Without(ids: seq<u64>, id: u64): seq<u64> {
    if ids == [] then []
    else if ids[0] == id then Without(ids[1..], id)
    else [ids[0]] + Without(ids[1..], id)
  }

  function DeleteChunk(s: MetaState, id: u64): Outcome<()> {
    if id !in s.chunks then
      Outcome(s, Err(NotFound), false)
    else
      var name := s.chunks[id].objectName;
      var t := s.(chunks := s.chunks - {id});
      if name !in s.objects then
        Outcome(t, Err(NotFound), false)
      else
        var o := s.objects[name];
        Outcome(t.(objects := s.objects[name := o.(chunks := Without(o.chunks, id))]), Ok(()), true)
  }

  function UpdateObjectChecksum(s: MetaState, name: string, checksum: u32, totalSize: u64): Outcome<()> {
    if name !in s.objects then
      Outcome(s, Err(NotFound), false)
    else
      var o := s.objects[name].(checksum := checksum, totalSize := totalSize);
      Outcome(s.(objects := s.objects[name := o]), Ok(()), true)
  }

  function AddChunkReplica(s: MetaState, id: u64, node: u64): Outcome<()> {
    if node !in s.nodes || id !in s.chunks then
      Outcome(s, Err(NotFound), false)
    else
      var c := s.chunks[id];
      if node in c.storageNodes then
        Outcome(s, Err(AlreadyExists), false)
      else if |c.storageNodes| >= MAX_REPLICAS then
        Outcome(s, Err(InvalidInput), false)
      else
        Outcome(s.(chunks := s.chunks[id := c.(storageNodes := c.storageNodes + [node])]), Ok(()), true)
  }

  /** Registers a node under a drawn id; `wellFormed` says whether its address parses as a URI. */
  function ConstructStorageNode(s: MetaState, id: u64, address: Address, wellFormed: bool): Outcome<u64>
    requires id !in s.nodes
  {
    if wellFormed then
      Outcome(s.(nodes := s.nodes[id := address]), Ok(id), false)
    else
      Outcome(s, Err(InvalidInput), false)
  }

  function DeleteStorageNode(s: MetaState, node: u64): Outcome<()> {
    if node in s.nodes then
      Outcome(s.(nodes := s.nodes - {node}), Ok(()), false)
    else
      Outcome(s, Err(NotFound), false)
  }

  function AddObjects(objects: map<string, MetaObject>, more: seq<MetaObject>): map<string, MetaObject> {
    if more == [] then objects
    else AddObjects(objects, more[..|more| - 1])[more[|more| - 1].name := more[|more| - 1]]
  }

  function AddChunks(chunks: map<u64, MetaChunk>, more: seq<MetaChunk>): map<u64, MetaChunk> {
    if more == [] then chunks
    else AddChunks(chunks, more[..|more| - 1])[more[|more| - 1].id := more[|more| - 1]]
  }

  function IngestPartition(s: MetaState, objects: seq<MetaObject>, chunks: seq<MetaChunk>): Outcome<()> {
    Outcome(s.(objects := AddObjects(s.objects, objects), chunks := AddChunks(s.chunks, chunks)), Ok(()), true)
  }

  /** Memory after removing the first `n` named objects with their chunks. */
  function RemoveNamed(s: MetaState, names: seq<string>): MetaState {
    if names == [] then s
    else
      var t := RemoveNamed(s, names[..|names| - 1]);
      DeleteObject(t, names[|names| - 1]).state
  }

  function RemoveObjects(s: MetaState, names: seq<string>): Outcome<()> {
    Outcome(RemoveNamed(s, names), Ok(()), true)
  }

  // ---------------------------------------------------------------------------------------
  // The referential invariant
  // ---------------------------------------------------------------------------------------

  ghost predicate Distinct(ids: seq<u64>) {
    forall i, j | 0 <= i < j < |ids| :: ids[i] != ids[j]
  }

  ghost predicate ChunkSound(c: MetaChunk) {
    && Distinct(c.storageNodes)
    && |c.storageNodes| <= MAX_REPLICAS
    && (c.status == Confirmed ==> c.storageNodes != [])
  }

  /** Every listed chunk exists, is confirmed and names the listing object; no list repeats an id. */
  ghost predicate ObjectSound(o: MetaObject, chunks: map<u64, MetaChunk>) {
    && Distinct(o.chunks)
    && forall i | 0 <= i < |o.chunks| ::
         o.chunks[i] in chunks && chunks[o.chunks[i]].status == Confirmed && chunks[o.chunks[i]].objectName == o.name
  }

  ghost predicate Referential(s: MetaState) {
    && (forall name | name in s.objects :: s.objects[name].name == name && ObjectSound(s.objects[name], s.chunks))
    && (forall id | id in s.chunks :: s.chunks[id].id == id && ChunkSound(s.chunks[id]))
  }

  /** Different objects list different chunks. */
  lemma {:induction false} ListsAreDisjoint(s: MetaState, a: string, b: string, id: u64)
    requires Referential(s) && a in s.objects && b in s.objects
    requires id in s.objects[a].chunks && id in s.objects[b].chunks
    ensures a == b
  {
  }
}
