/**
 * The chunk store as a value: what its slots show, its index and its free stack, and what
 * putting and deleting a chunk makes of them. `ChunkStore` runs these steps on a file; the
 * lemmas here say what the steps keep, what they mean as a map, and what a recovery scan
 * makes of the result.
 */
module SlotStore {
  import opened Base
  import opened SlotImage

  datatype StoreState = StoreState(views: seq<SlotView>, index: map<u64, nat>, free: seq<nat>)
  {
    /** Indexed and free slots exist, are all different, and no slot is both. */
    ghost predicate Ledger() {
      && (forall id | id in index :: index[id] < |views| && index[id] !in free)
      && (forall a, b | a in index && b in index && index[a] == index[b] :: a == b)
      && (forall j | 0 <= j < |free| :: free[j] < |views|)
      && (forall j, k | 0 <= j < k < |free| :: free[j] != free[k])
    }

    /** The slots tell the same story: one is accepted iff the index points at it, under that id. */
    ghost predicate Consistent(fast: bool) {
      && Ledger()
      && (forall id | id in index :: views[index[id]].Mark(fast) == Some(id))
      && (forall i: nat | i < |views| && views[i].Mark(fast).Some? ::
            views[i].Mark(fast).value in index && index[views[i].Mark(fast).value] == i)
      && (forall i: nat | i < |views| && views[i].Mark(fast).None? :: i in free)
    }

    /** The plain map that the store stands for. */
    ghost function Contents(): map<u64, seq<byte>> {
      map id | id in index && index[id] < |views| && views[index[id]].Chunk? :: views[index[id]].data
    }

    predicate CanPut(id: u64, data: seq<byte>) {
      id !in index && free != [] && |data| <= SLOT_DATA_SIZE
    }

    ghost function Put(id: u64, data: seq<byte>): StoreState
      requires Ledger() && CanPut(id, data)
    {
      var i := free[|free| - 1];
      StoreState(views[i := Chunk(id, data, true)], index[id := i], free[..|free| - 1])
    }

    ghost function Delete(id: u64): StoreState
      requires Ledger()
    {
      if id in index then
        StoreState(views[index[id] := Blank], index - {id}, free + [index[id]])
      else
        this
    }
  }

  /** What is left on the free stack after a pop. */
  lemma {:induction false} PopFree(free: seq<nat>)
    requires free != []
    requires forall j, k | 0 <= j < k < |free| :: free[j] != free[k]
    ensures free[|free| - 1] in free && free[|free| - 1] !in free[..|free| - 1]
    ensures forall i: nat :: i in free <==> i in free[..|free| - 1] || i == free[|free| - 1]
  {
    assert free == free[..|free| - 1] + [free[|free| - 1]];
  }

  lemma {:induction false} PutKeepsLedger(s: StoreState, id: u64, data: seq<byte>)
    requires s.Ledger() && s.CanPut(id, data)
    ensures s.Put(id, data).Ledger()
  {
    PopFree(s.free);
    var t := s.Put(id, data);
    forall a, b | a in t.index && b in t.index && t.index[a] == t.index[b]
      ensures a == b
    {
      if a != id && b != id {
        assert s.index[a] == s.index[b];
      }
    }
  }

  lemma {:induction false} PutKeepsConsistent(s: StoreState, id: u64, data: seq<byte>, fast: bool)
    requires s.Consistent(fast) && s.CanPut(id, data)
    ensures s.Put(id, data).Consistent(fast)
  {
    PopFree(s.free);
    PutKeepsLedger(s, id, data);
  }

  /** A put is a map update: the new chunk reads back, and no other id is disturbed. */
  lemma {:induction false} PutRefinesMap(s: StoreState, id: u64, data: seq<byte>)
    requires s.Ledger() && s.CanPut(id, data)
    ensures s.Put(id, data).Contents() == s.Contents()[id := data]
  {
    PopFree(s.free);
    var t := s.Put(id, data);
    forall other | other in s.index
      ensures t.views[t.index[other]] == s.views[s.index[other]]
    {
      assert s.index[other] != s.free[|s.free| - 1];
    }
  }

  lemma {:induction false} DeleteKeepsLedger(s: StoreState, id: u64)
    requires s.Ledger()
    ensures s.Delete(id).Ledger()
  {
    if id in s.index {
      var t := s.Delete(id);
      forall other | other in t.index
        ensures t.index[other] == s.index[other] != s.index[id]
      {
      }
    }
  }

  /** A delete is a map removal. */
  lemma {:induction false} DeleteRefinesMap(s: StoreState, id: u64)
    requires s.Ledger()
    ensures s.Delete(id).Contents() == s.Contents() - {id}
  {
    if id in s.index {
      var t := s.Delete(id);
      forall other | other in t.index
        ensures t.views[t.index[other]] == s.views[s.index[other]]
      {
        assert s.index[other] != s.index[id];
      }
    }
  }

  lemma {:induction false} DeleteKeepsConsistent(s: StoreState, id: u64, fast: bool)
    requires s.Consistent(fast)
    ensures s.Delete(id).Consistent(fast)
  {
    DeleteKeepsLedger(s, id);
  }

  /** The scan rebuilds the index. */
  lemma {:induction false} RecoveredIndex(s: StoreState, fast: bool)
    requires s.Consistent(fast)
    ensures Scan(s.views, fast).index == s.index
  {
    var index := Scan(s.views, fast).index;
    ScanIndex(s.views, fast);
    forall id | id in index
      ensures id in s.index && s.index[id] == index[id]
    {
      assert s.views[index[id]].Mark(fast) == Some(id);
    }
    forall id | id in s.index
      ensures id in index
    {
      assert s.views[s.index[id]].Mark(fast) == Some(id);
    }
  }

  /** The scan rebuilds the free stack up to its order. */
  lemma {:induction false} RecoveredFree(s: StoreState, fast: bool)
    requires s.Consistent(fast)
    ensures multiset(Scan(s.views, fast).free) == multiset(s.free)
  {
    ScanFree(s.views, fast);
    forall i: nat
      ensures i in Scan(s.views, fast).free <==> i in s.free
    {
      if i < |s.views| && s.views[i].Mark(fast).Some? {
        assert s.index[s.views[i].Mark(fast).value] == i;
      }
    }
    SameElements(Scan(s.views, fast).free, s.free);
  }

  /** Recovery undoes forgetting: a restart without a crash loses and invents nothing. */
  lemma {:induction false} RecoveryRoundTrip(s: StoreState, fast: bool)
    requires s.Consistent(fast)
    ensures var r := Scan(s.views, fast);
            r.index == s.index && multiset(r.free) == multiset(s.free)
  {
    RecoveredIndex(s, fast);
    RecoveredFree(s, fast);
  }

  // ---------------------------------------------------------------------------------------
  // Runs of acknowledged operations
  // ---------------------------------------------------------------------------------------

  datatype Op = PutOp(id: u64, data: seq<byte>) | DeleteOp(id: u64)

  ghost predicate Enabled(s: StoreState, op: Op) {
    s.Ledger() && (op.PutOp? ==> s.CanPut(op.id, op.data))
  }

  ghost function Step(s: StoreState, op: Op): StoreState {
    if !Enabled(s, op) then s
    else match op
      case PutOp(id, data) => s.Put(id, data)
      case DeleteOp(id) => s.Delete(id)
  }

  ghost function After(s: StoreState, ops: seq<Op>): StoreState {
    if ops == [] then s else Step(After(s, ops[..|ops| - 1]), ops[|ops| - 1])
  }

  /** Every operation of the run was acknowledged. */
  ghost predicate Acknowledged(s: StoreState, ops: seq<Op>) {
    ops == [] ||
    (Acknowledged(s, ops[..|ops| - 1]) && Enabled(After(s, ops[..|ops| - 1]), ops[|ops| - 1]))
  }

  /** What a run means to a plain map. */
  function Applied(m: map<u64, seq<byte>>, ops: seq<Op>): map<u64, seq<byte>> {
    if ops == [] then
      m
    else
      var before := Applied(m, ops[..|ops| - 1]);
      match ops[|ops| - 1]
      case PutOp(id, data) => before[id := data]
      case DeleteOp(id) => before - {id}
  }

  function PutCount(ops: seq<Op>): nat {
    if ops == [] then 0 else PutCount(ops[..|ops| - 1]) + (if ops[|ops| - 1].PutOp? then 1 else 0)
  }

  lemma {:induction false} RunExtends(s: StoreState, ops: seq<Op>, op: Op)
    ensures Acknowledged(s, ops) && Enabled(After(s, ops), op) ==> Acknowledged(s, ops + [op])
    ensures After(s, ops + [op]) == Step(After(s, ops), op)
    ensures PutCount(ops + [op]) == PutCount(ops) + (if op.PutOp? then 1 else 0)
  {
    assert (ops + [op])[..|ops + [op]| - 1] == ops;
  }

  /** Every run refines the plain map. */
  lemma {:induction false} RunRefinesMap(s: StoreState, ops: seq<Op>)
    requires Acknowledged(s, ops)
    ensures After(s, ops).Contents() == Applied(s.Contents(), ops)
  {
    if ops != [] {
      var mid := After(s, ops[..|ops| - 1]);
      RunRefinesMap(s, ops[..|ops| - 1]);
      match ops[|ops| - 1]
      case PutOp(id, data) => PutRefinesMap(mid, id, data);
      case DeleteOp(id) => DeleteRefinesMap(mid, id);
    }
  }

  /** Recovery undoes forgetting after any run from a consistent store. */
  lemma {:induction false} RecoveryAfterRun(s: StoreState, ops: seq<Op>, fast: bool)
    requires s.Consistent(fast) && Acknowledged(s, ops)
    ensures var t := After(s, ops);
            && t.Consistent(fast)
            && Scan(t.views, fast).index == t.index
            && multiset(Scan(t.views, fast).free) == multiset(t.free)
  {
    if ops != [] {
      var mid := After(s, ops[..|ops| - 1]);
      RecoveryAfterRun(s, ops[..|ops| - 1], fast);
      match ops[|ops| - 1]
      case PutOp(id, data) => PutKeepsConsistent(mid, id, data, fast);
      case DeleteOp(id) => DeleteKeepsConsistent(mid, id, fast);
    }
    RecoveryRoundTrip(After(s, ops), fast);
  }

  /** The store at the last successful sync, and the operations acknowledged since then. */
  datatype SyncLog = SyncLog(synced: StoreState, since: seq<Op>)

  /** When to sync: after every n-th write (0 and None: never), and after every delete or not. */
  datatype SyncPolicy = SyncPolicy(everyNWrites: Option<u64>, onDelete: bool)
  {
    predicate Counts() {
      everyNWrites.Some? && everyNWrites.value > 0
    }

    /** What one write may do to the write counter, and whether it must sync. */
    predicate CountedWrite(before: u64, after: u64, fsync: bool) {
      if Counts() then
        after % everyNWrites.value == (if fsync then 0 else before % everyNWrites.value + 1)
      else
        !fsync
    }
  }

  /**
   * The durability lag: `now` is what the acknowledged operations since the last sync made of
   * the synced store, and there are fewer puts among them than the sync period.
   */
  ghost predicate LagBounded(log: SyncLog, now: StoreState, policy: SyncPolicy, counter: u64) {
    && Acknowledged(log.synced, log.since)
    && now == After(log.synced, log.since)
    && (policy.onDelete ==> PutCount(log.since) == |log.since|)
    && (policy.Counts() ==> PutCount(log.since) <= counter % policy.everyNWrites.value)
  }

  /** The log after an acknowledged operation that was or was not followed by a sync. */
  ghost function Logged(log: SyncLog, op: Op, now: StoreState, fsync: bool): SyncLog {
    if fsync then SyncLog(now, []) else log.(since := log.since + [op])
  }

  lemma {:induction false} LagAfterPut(log: SyncLog, now: StoreState, policy: SyncPolicy, before: u64, after: u64, op: Op, fsync: bool)
    requires LagBounded(log, now, policy, before) && op.PutOp? && Enabled(now, op)
    requires policy.CountedWrite(before, after, fsync)
    ensures LagBounded(Logged(log, op, Step(now, op), fsync), Step(now, op), policy, after)
  {
    RunExtends(log.synced, log.since, op);
  }

  lemma {:induction false} LagAfterDelete(log: SyncLog, now: StoreState, policy: SyncPolicy, counter: u64, op: Op)
    requires LagBounded(log, now, policy, counter) && op.DeleteOp? && Enabled(now, op)
    ensures LagBounded(Logged(log, op, Step(now, op), policy.onDelete), Step(now, op), policy, counter)
  {
    RunExtends(log.synced, log.since, op);
  }

  /**
   * After a power failure that keeps exactly what was synced, a scan of the durable slots
   * rebuilds the store of the last sync. The acknowledged operations missing from it contain
   * fewer puts than the sync period, and with a sync per write and per delete none is missing.
   */
  lemma {:induction false} DurableRecovery(log: SyncLog, now: StoreState, policy: SyncPolicy, counter: u64, fast: bool)
    requires LagBounded(log, now, policy, counter) && log.synced.Consistent(fast)
    ensures Scan(log.synced.views, fast).index == log.synced.index
    ensures now.Contents() == Applied(log.synced.Contents(), log.since)
    ensures policy.Counts() ==> PutCount(log.since) < policy.everyNWrites.value
    ensures policy.onDelete && policy.everyNWrites == Some(1) ==> log.synced == now
  {
    RecoveredIndex(log.synced, fast);
    RunRefinesMap(log.synced, log.since);
  }

  /** An empty store over blank slots is consistent, whichever kind of scan will read it. */
  lemma {:induction false} FreshIsConsistent(s: StoreState, fast: bool)
    requires s.index == map[] && s.free == seq(|s.views|, i => i)
    requires forall i: nat | i < |s.views| :: s.views[i] == Blank
    ensures s.Consistent(fast)
  {
    forall i: nat | i < |s.views|
      ensures i in s.free
    {
      assert s.free[i] == i;
    }
  }

  ghost function RecoveredState(views: seq<SlotView>, fast: bool): StoreState {
    StoreState(views, Scan(views, fast).index, Scan(views, fast).free)
  }

  /** Whatever a crash left behind, recovery ends with a sound slot ledger. */
  lemma {:induction false} ScanKeepsLedger(views: seq<SlotView>, scanned: nat, fast: bool)
    requires scanned <= |views|
    ensures var r := Scan(views[..scanned], fast);
            StoreState(views, r.index, r.free).Ledger() && |r.index| + |r.free| <= |views|
  {
    ScanFree(views[..scanned], fast);
    ScanIndex(views[..scanned], fast);
    ScanCount(views[..scanned], fast);
    var free := Scan(views[..scanned], fast).free;
    assert forall j | 0 <= j < |free| :: free[j] in free;
  }

  lemma {:induction false} WholeScan(views: seq<SlotView>, fast: bool)
    ensures var r := RecoveredState(views, fast);
            && r.Ledger() && |r.index| + |r.free| <= |views|
            && (|r.index| + |r.free| == |views| <==> AcceptedOnce(views, fast))
  {
    assert views[..|views|] == views;
    ScanKeepsLedger(views, |views|, fast);
    ScanCount(views, fast);
  }

  /** It ends with a consistent store exactly when no two accepted slots carry the same id. */
  lemma {:induction false} RecoveredIsConsistent(views: seq<SlotView>, fast: bool)
    ensures RecoveredState(views, fast).Consistent(fast) <==> AcceptedOnce(views, fast)
  {
    assert views[..|views|] == views;
    ScanKeepsLedger(views, |views|, fast);
    ScanFree(views, fast);
    ScanIndex(views, fast);
  }

  // ---------------------------------------------------------------------------------------
  // A delete that failed
  // ---------------------------------------------------------------------------------------

  /** The id is forgotten; its slot is erased or not, but not freed. */
  ghost function FailedDelete(s: StoreState, id: u64, erased: bool): StoreState
    requires s.Ledger() && id in s.index
  {
    StoreState(if erased then s.views[s.index[id] := Blank] else s.views, s.index - {id}, s.free)
  }

  /** The store as it would be with the lost slot `k` erased, and free below all other free slots. */
  ghost function Mended(t: StoreState, k: nat): StoreState
    requires k < |t.views|
  {
    StoreState(t.views[k := Blank], t.index, [k] + t.free)
  }

  lemma {:induction false} FailedDeleteMends(s: StoreState, id: u64, erased: bool, fast: bool)
    requires s.Consistent(fast) && id in s.index
    ensures Mended(FailedDelete(s, id, erased), s.index[id]).Consistent(fast)
    ensures Mended(FailedDelete(s, id, erased), s.index[id]).Contents() == s.Contents() - {id}
  {
    var d, m := s.Delete(id), Mended(FailedDelete(s, id, erased), s.index[id]);
    DeleteKeepsConsistent(s, id, fast);
    DeleteRefinesMap(s, id);
    BottomIsTop(d, m, fast);
  }

  /** Where on the free stack a slot is changes neither consistency nor content. */
  lemma {:induction false} BottomIsTop(d: StoreState, m: StoreState, fast: bool)
    requires d.Consistent(fast) && d.free != [] && m.views == d.views && m.index == d.index
    requires m.free == [d.free[|d.free| - 1]] + d.free[..|d.free| - 1]
    ensures m.Consistent(fast) && m.Contents() == d.Contents()
  {
    PopFree(d.free);
    forall i: nat
      ensures i in m.free <==> i in d.free
    {
    }
  }

  lemma {:induction false} PutMends(t: StoreState, k: nat, id: u64, data: seq<byte>)
    requires k < |t.views| && t.Ledger() && Mended(t, k).Ledger() && t.CanPut(id, data)
    ensures t.Put(id, data).views[k] == t.views[k]
    ensures Mended(t, k).CanPut(id, data) && Mended(t.Put(id, data), k) == Mended(t, k).Put(id, data)
  {
    var m := Mended(t, k);
    assert m.free[0] == k;
    assert m.free[|m.free| - 1] == t.free[|t.free| - 1] != k;
    assert m.free[..|m.free| - 1] == [k] + t.free[..|t.free| - 1];
  }

  lemma {:induction false} DeleteMends(t: StoreState, k: nat, id: u64)
    requires k < |t.views| && t.Ledger() && Mended(t, k).Ledger()
    ensures t.Delete(id).views[k] == t.views[k]
    ensures Mended(t.Delete(id), k) == Mended(t, k).Delete(id)
  {
    assert Mended(t, k).free[0] == k;
    if id in t.index {
      assert t.index[id] != k;
      assert Mended(t, k).free + [t.index[id]] == [k] + (t.free + [t.index[id]]);
    }
  }

  /** Operations never touch the lost slot, so they run on the store as they would on the mended one. */
  lemma {:induction false} StepMends(t: StoreState, k: nat, op: Op, fast: bool)
    requires k < |t.views| && Mended(t, k).Consistent(fast) && Enabled(t, op)
    ensures |Step(t, op).views| == |t.views| && Step(t, op).views[k] == t.views[k]
    ensures Mended(Step(t, op), k) == Step(Mended(t, k), op) && Mended(Step(t, op), k).Consistent(fast)
  {
    match op
    case PutOp(id, data) =>
      PutMends(t, k, id, data);
      PutKeepsConsistent(Mended(t, k), id, data, fast);
    case DeleteOp(id) =>
      DeleteMends(t, k, id);
      DeleteKeepsConsistent(Mended(t, k), id, fast);
  }

  lemma {:induction false} RunMends(t: StoreState, k: nat, ops: seq<Op>, fast: bool)
    requires k < |t.views| && Mended(t, k).Consistent(fast) && Acknowledged(t, ops)
    ensures var u := After(t, ops);
            && |u.views| == |t.views| && u.views[k] == t.views[k] && Mended(u, k).Consistent(fast)
            && Acknowledged(Mended(t, k), ops) && Mended(u, k) == After(Mended(t, k), ops)
  {
    if ops != [] {
      RunMends(t, k, ops[..|ops| - 1], fast);
      StepMends(After(t, ops[..|ops| - 1]), k, ops[|ops| - 1], fast);
    }
  }

  /** Mending changes no content, as no entry points at the lost slot. */
  lemma {:induction false} MendedContents(t: StoreState, k: nat)
    requires k < |t.views| && Mended(t, k).Ledger()
    ensures Mended(t, k).Contents() == t.Contents()
  {
    var m := Mended(t, k);
    assert m.free[0] == k;
    forall id | id in t.index
      ensures t.index[id] != k && m.views[m.index[id]] == t.views[t.index[id]]
    {
    }
  }

  lemma {:induction false} SameElements(a: seq<nat>, b: seq<nat>)
    requires forall j, k | 0 <= j < k < |a| :: a[j] != a[k]
    requires forall j, k | 0 <= j < k < |b| :: b[j] != b[k]
    requires forall i: nat :: i in a <==> i in b
    ensures multiset(a) == multiset(b)
  {
    DistinctCount(a);
    DistinctCount(b);
    forall i: nat
      ensures multiset(a)[i] == multiset(b)[i]
    {
      assert i in multiset(a) <==> i in a;
      assert i in multiset(b) <==> i in b;
    }
  }

  lemma {:induction false} DistinctCount(a: seq<nat>)
    requires forall j, k | 0 <= j < k < |a| :: a[j] != a[k]
    ensures forall i | i in multiset(a) :: multiset(a)[i] == 1
  {
    if a != [] {
      var rest := a[..|a| - 1];
      DistinctCount(rest);
      assert a == rest + [a[|a| - 1]];
      assert a[|a| - 1] !in multiset(rest) by {
        assert a[|a| - 1] !in rest;
      }
    }
  }
}
