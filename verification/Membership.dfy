/** Cluster membership: how a manager's ring follows the live sets that gossip reports. */
module Membership {
  import opened Base
  import opened HashRing

  // ---------------------------------------------------------------------------------------
  // What a ring ought to be
  // ---------------------------------------------------------------------------------------

  /** No two of the given nodes have a virtual node at the same position. */
  ghost predicate CollisionFree(nodes: set<string>) {
    forall a, b, p: u64 | a in nodes && b in nodes && IsVnode(a, p) && IsVnode(b, p) :: a == b
  }

  /** The ring holds all virtual nodes of exactly the given nodes. */
  ghost predicate RingOf(ring: Ring, nodes: set<string>) {
    && (forall p: u64, n | n in nodes && IsVnode(n, p) :: p in ring && ring[p] == n)
    && (forall p: u64 | p in ring :: ring[p] in nodes && IsVnode(ring[p], p))
  }

  /** There is only one such ring. */
  lemma {:induction false} RingOfIsUnique(a: Ring, b: Ring, nodes: set<string>)
    requires RingOf(a, nodes) && RingOf(b, nodes)
    ensures a == b
  {
    forall p: u64
      ensures p in a <==> p in b
      ensures p in a ==> a[p] == b[p]
    {
      if p in a {
        assert a[p] in nodes && IsVnode(a[p], p);
      }
      if p in b {
        assert b[p] in nodes && IsVnode(b[p], p);
      }
    }
  }

  lemma {:induction false} NodesOfRing(ring: Ring, nodes: set<string>)
    requires RingOf(ring, nodes)
    ensures ring.Values == nodes
  {
    forall n | n in nodes
      ensures n in ring.Values
    {
      var p := VnodeHash(n, 0);
      assert IsVnode(n, p);
      assert ring[p] == n;
    }
  }

  lemma {:induction false} AddKeepsRingOf(ring: Ring, nodes: set<string>, n: string)
    requires RingOf(ring, nodes) && CollisionFree(nodes + {n})
    ensures RingOf(Added(ring, n), nodes + {n})
  {
    AddedEntries(ring, n);
  }

  lemma {:induction false} RemoveKeepsRingOf(ring: Ring, nodes: set<string>, n: string)
    requires RingOf(ring, nodes)
    ensures RingOf(Removed(ring, n), nodes - {n})
  {
  }

  // ---------------------------------------------------------------------------------------
  // The watcher
  // ---------------------------------------------------------------------------------------

  /** One report: the live nodes in some order, and the addresses known for some of them. */
  datatype Report = Report(live: seq<string>, addrs: map<string, string>)

  /** The ring after adding those of the first `n` live nodes that were not on it before. */
  function AddLive(ring: Ring, self: string, live: seq<string>, present: set<string>, n: nat): Ring
    requires n <= |live|
  {
    if n == 0 then ring
    else
      var r := AddLive(ring, self, live, present, n - 1);
      if live[n - 1] != self && live[n - 1] !in present then Added(r, live[n - 1]) else r
  }

  /** The ring after removing those of the first `n` former nodes that are no longer live. */
  function RemoveDeparted(ring: Ring, self: string, former: seq<string>, live: seq<string>, n: nat): Ring
    requires n <= |former|
  {
    if n == 0 then ring
    else
      var r := RemoveDeparted(ring, self, former, live, n - 1);
      if former[n - 1] != self && former[n - 1] !in live then Removed(r, former[n - 1]) else r
  }

  ghost function Elements(s: seq<string>): set<string> {
    set n | n in s
  }

  /** Both loops of a tick, for any order in which the former nodes are visited. */
  ghost predicate TickResult(before: Ring, self: string, live: seq<string>, after: Ring) {
    exists former: seq<string> ::
      && (forall n :: n in former <==> n in before.Values)
      && after == RemoveDeparted(AddLive(before, self, live, before.Values, |live|), self, former, live, |former|)
  }

  lemma {:induction false} AddLiveKeepsRingOf(ring: Ring, nodes: set<string>, self: string, live: seq<string>, n: nat)
    requires RingOf(ring, nodes) && self in nodes && n <= |live|
    requires CollisionFree(nodes + Elements(live))
    ensures RingOf(AddLive(ring, self, live, nodes, n), nodes + Elements(live[..n]))
  {
    if n == 0 {
      assert nodes + Elements(live[..0]) == nodes;
    } else {
      AddLiveKeepsRingOf(ring, nodes, self, live, n - 1);
      var r, on: set<string> := AddLive(ring, self, live, nodes, n - 1), nodes + Elements(live[..n - 1]);
      assert live[..n] == live[..n - 1] + [live[n - 1]];
      assert nodes + Elements(live[..n]) == on + {live[n - 1]};
      if live[n - 1] != self && live[n - 1] !in nodes {
        assert on + {live[n - 1]} <= nodes + Elements(live);
        AddKeepsRingOf(r, on, live[n - 1]);
      } else {
        assert on + {live[n - 1]} == on;
      }
    }
  }

  lemma {:induction false} RemoveDepartedKeepsRingOf(ring: Ring, nodes: set<string>, self: string, former: seq<string>, live: seq<string>, n: nat)
    requires RingOf(ring, nodes) && n <= |former|
    ensures RingOf(RemoveDeparted(ring, self, former, live, n),
                   nodes - (set f | f in former[..n] && f != self && f !in live))
  {
    if n == 0 {
      assert nodes - (set f | f in former[..0] && f != self && f !in live) == nodes;
    } else {
      RemoveDepartedKeepsRingOf(ring, nodes, self, former, live, n - 1);
      var f := former[n - 1];
      var gone := set f | f in former[..n - 1] && f != self && f !in live;
      var gone' := set f | f in former[..n] && f != self && f !in live;
      assert former[..n] == former[..n - 1] + [f];
      if f != self && f !in live {
        assert gone' == gone + {f};
        RemoveKeepsRingOf(RemoveDeparted(ring, self, former, live, n - 1), nodes - gone, f);
        assert nodes - gone' == nodes - gone - {f};
      } else {
        assert gone' == gone;
      }
    }
  }

  /** A tick leaves the ring of the live nodes and the manager itself, whatever was on it before. */
  lemma {:induction false} TickForgetsHistory(before: Ring, nodes: set<string>, self: string, live: seq<string>, after: Ring)
    requires RingOf(before, nodes) && self in nodes && CollisionFree(nodes + Elements(live))
    requires TickResult(before, self, live, after)
    ensures RingOf(after, Elements(live) + {self})
  {
    NodesOfRing(before, nodes);
    var former :| (forall n :: n in former <==> n in before.Values)
      && after == RemoveDeparted(AddLive(before, self, live, nodes, |live|), self, former, live, |former|);
    AddLiveKeepsRingOf(before, nodes, self, live, |live|);
    var grown, on := AddLive(before, self, live, nodes, |live|), nodes + Elements(live[..|live|]);
    RemoveDepartedKeepsRingOf(grown, on, self, former, live, |former|);
    assert live[..|live|] == live && former[..|former|] == former;
    assert on - (set f | f in former && f != self && f !in live) == Elements(live) + {self};
  }

  class ClusterManager {
    const nodeId: string
    const ring: HashRing
    var peerAddrs: map<string, string>
    /** Peers with an open connection. */
    var peers: set<string>

    constructor (nodeId: string)
      ensures fresh(ring) && this.nodeId == nodeId && ring.ring == Added(map[], nodeId)
      ensures peerAddrs == map[] && peers == {}
    {
      this.nodeId := nodeId;
      this.ring := new HashRing();
      this.peerAddrs := map[];
      this.peers := {};
      new;
      ring.AddNode(nodeId);
    }

    /** Adds the live nodes that are not among the current ones. */
    method AddNew(live: seq<string>, current: seq<string>)
      modifies ring
      ensures ring.ring == AddLive(old(ring.ring), nodeId, live, Elements(current), |live|)
    {
      var i := 0;
      while i < |live|
        invariant 0 <= i <= |live|
        invariant ring.ring == AddLive(old(ring.ring), nodeId, live, Elements(current), i)
      {
        if live[i] != nodeId && live[i] !in current {
          ring.AddNode(live[i]);
        }
        i := i + 1;
      }
    }

    /** Removes the current nodes that are no longer live, but never the manager itself. */
    method RemoveGone(current: seq<string>, live: seq<string>)
      modifies ring
      ensures ring.ring == RemoveDeparted(old(ring.ring), nodeId, current, live, |current|)
    {
      var i := 0;
      while i < |current|
        invariant 0 <= i <= |current|
        invariant ring.ring == RemoveDeparted(old(ring.ring), nodeId, current, live, i)
      {
        if current[i] != nodeId && current[i] !in live {
          ghost var was := ring.ring;
          ring.RemoveNode(current[i]);
          assert ring.ring == Removed(was, current[i]);
        }
        i := i + 1;
      }
    }

    method UpdateRing(live: seq<string>)
      modifies ring
      ensures TickResult(old(ring.ring), nodeId, live, ring.ring)
    {
      var current := ring.Nodes();
      assert Elements(current) == ring.ring.Values;
      AddNew(live, current);
      RemoveGone(current, live);
    }

    /** One round of the membership watcher. */
    method Tick(report: Report)
      modifies this, ring
      ensures TickResult(old(ring.ring), nodeId, report.live, ring.ring)
      ensures peerAddrs == report.addrs
      ensures peers == set p | p in old(peers) && p in report.live
    {
      UpdateRing(report.live);
      peerAddrs := report.addrs;
      peers := set p | p in peers && p in report.live;
    }

    /** Whether this node serves the key itself. */
    method IsLocal(key: string) returns (local: bool)
      ensures local <==> ring.ring == map[] || GetOwner(ring.ring, key) == Some(nodeId)
    {
      match GetOwner(ring.ring, key) {
        case Some(owner) => local := owner == nodeId;
        case None => local := true;
      }
    }

    /** The address to forward a key to; none when this node owns it or the owner's address is unknown. */
    method GetOwnerAddr(key: string) returns (addr: Option<string>)
      ensures addr.Some? ==> exists owner ::
                GetOwner(ring.ring, key) == Some(owner) && owner != nodeId && owner in peerAddrs && peerAddrs[owner] == addr.value
      ensures addr.None? ==> forall owner | GetOwner(ring.ring, key) == Some(owner) :: owner == nodeId || owner !in peerAddrs
    {
      match GetOwner(ring.ring, key) {
        case None => return None;
        case Some(owner) =>
          if owner == nodeId || owner !in peerAddrs {
            return None;
          }
          return Some(peerAddrs[owner]);
      }
    }
  }

  // ---------------------------------------------------------------------------------------
  // Runs of the watcher
  // ---------------------------------------------------------------------------------------

  /** `rings` are the successive rings of a manager that starts alone and sees the given live lists. */
  ghost predicate Watched(self: string, lives: seq<seq<string>>, rings: seq<Ring>) {
    && |rings| == |lives| + 1
    && rings[0] == Added(map[], self)
    && forall i | 0 <= i < |lives| :: TickResult(rings[i], self, lives[i], rings[i + 1])
  }

  /** Every node that ever appeared, with the manager itself. */
  ghost function EverSeen(self: string, lives: seq<seq<string>>): set<string> {
    if lives == [] then {self} else EverSeen(self, lives[..|lives| - 1]) + Elements(lives[|lives| - 1])
  }

  ghost function LastLive(self: string, lives: seq<seq<string>>): set<string> {
    if lives == [] then {self} else Elements(lives[|lives| - 1]) + {self}
  }

  /** After any joins and leaves the ring is the one of the last live set and the manager itself. */
  lemma {:induction false} RingFollowsLastReport(self: string, lives: seq<seq<string>>, rings: seq<Ring>)
    requires Watched(self, lives, rings) && CollisionFree(EverSeen(self, lives))
    ensures LastLive(self, lives) <= EverSeen(self, lives)
    ensures RingOf(rings[|lives|], LastLive(self, lives))
  {
    if lives == [] {
      AddedEntries(map[], self);
    } else {
      var n := |lives| - 1;
      RingFollowsLastReport(self, lives[..n], rings[..n + 1]);
      SelfIsSeen(self, lives[..n]);
      var nodes := LastLive(self, lives[..n]);
      TickForgetsHistory(rings[n], nodes, self, lives[n], rings[n + 1]);
    }
  }

  lemma {:induction false} SelfIsSeen(self: string, lives: seq<seq<string>>)
    ensures self in EverSeen(self, lives)
  {
    if lives != [] {
      SelfIsSeen(self, lives[..|lives| - 1]);
    }
  }

  /** Two managers whose last live sets, each with itself, are equal route every key alike. */
  lemma {:induction false} ManagersAgree(selfA: string, livesA: seq<seq<string>>, ringsA: seq<Ring>,
                      selfB: string, livesB: seq<seq<string>>, ringsB: seq<Ring>, key: string)
    requires Watched(selfA, livesA, ringsA) && CollisionFree(EverSeen(selfA, livesA))
    requires Watched(selfB, livesB, ringsB) && CollisionFree(EverSeen(selfB, livesB))
    requires LastLive(selfA, livesA) == LastLive(selfB, livesB)
    ensures GetOwner(ringsA[|livesA|], key) == GetOwner(ringsB[|livesB|], key)
  {
    RingFollowsLastReport(selfA, livesA, ringsA);
    RingFollowsLastReport(selfB, livesB, ringsB);
    RingOfIsUnique(ringsA[|livesA|], ringsB[|livesB|], LastLive(selfA, livesA));
  }

  // ---------------------------------------------------------------------------------------
  // Why collisions have to be excluded
  // ---------------------------------------------------------------------------------------

  lemma {:induction false} RemoveDepartedEntries(ring: Ring, self: string, former: seq<string>, live: seq<string>, n: nat)
    requires n <= |former|
    ensures var r := RemoveDeparted(ring, self, former, live, n);
            forall p: u64 ::
              (p in r <==> p in ring && !(ring[p] in former[..n] && ring[p] != self && ring[p] !in live)) &&
              (p in r ==> r[p] == ring[p])
  {
    if n > 0 {
      RemoveDepartedEntries(ring, self, former, live, n - 1);
      assert former[..n] == former[..n - 1] + [former[n - 1]];
    }
  }

  /** One tick, position by position: departed nodes lose theirs, present ones keep what they have. */
  lemma {:induction false} TickEntries(before: Ring, self: string, live: seq<string>, after: Ring)
    requires TickResult(before, self, live, after)
    ensures forall p: u64 ::
              var grown := AddLive(before, self, live, before.Values, |live|);
              (p in after <==> p in grown && !(grown[p] in before.Values && grown[p] != self && grown[p] !in live)) &&
              (p in after ==> after[p] == grown[p])
  {
    var former :| (forall n :: n in former <==> n in before.Values)
      && after == RemoveDeparted(AddLive(before, self, live, before.Values, |live|), self, former, live, |former|);
    RemoveDepartedEntries(AddLive(before, self, live, before.Values, |live|), self, former, live, |former|);
    assert former[..|former|] == former;
  }

  lemma {:induction false} TickWithoutLeave(before: Ring, self: string, live: seq<string>, after: Ring)
    requires TickResult(before, self, live, after)
    requires forall n | n in before.Values :: n == self || n in live
    ensures after == AddLive(before, self, live, before.Values, |live|)
  {
    TickEntries(before, self, live, after);
  }

  lemma {:induction false} FirstJoins(before: Ring, self: string, a: string, after: Ring)
    requires TickResult(before, self, [a], after)
    requires before.Values <= {self} && a != self
    ensures after == Added(before, a)
  {
    TickWithoutLeave(before, self, [a], after);
    assert AddLive(before, self, [a], before.Values, 0) == before;
  }

  lemma {:induction false} SecondJoins(before: Ring, self: string, a: string, b: string, after: Ring)
    requires TickResult(before, self, [a, b], after)
    requires a in before.Values && before.Values <= {self, a} && b !in {self, a}
    ensures after == Added(before, b)
  {
    TickWithoutLeave(before, self, [a, b], after);
    assert AddLive(before, self, [a, b], before.Values, 1) == AddLive(before, self, [a, b], before.Values, 0) == before;
  }

  /** The third tick takes b's positions off the ring, unless a is itself missing and joins anew. */
  lemma {:induction false} SecondLeaves(before: Ring, self: string, a: string, b: string, p: u64, after: Ring)
    requires TickResult(before, self, [a], after)
    requires p in before && before[p] == b && b !in {self, a} && a != self && IsVnode(a, p)
    ensures p in after <==> a !in before.Values
  {
    TickEntries(before, self, [a], after);
    assert AddLive(before, self, [a], before.Values, 0) == before;
    assert AddLive(before, self, [a], before.Values, 1) == if a !in before.Values then Added(before, a) else before;
    AddedEntries(before, a);
    assert b in before.Values;
  }

  /**
   * Two nodes with a virtual node at the same position: b joins after a and leaves again. The shared position is
   * then gone although a is still alive - exactly if a has some position of its own, so that it never left the ring.
   */
  lemma {:induction false} CollisionBreaksHistory(self: string, a: string, b: string, shared: u64,
                               alone: Ring, withA: Ring, withBoth: Ring, after: Ring)
    requires self != a && b !in {self, a}
    requires IsVnode(a, shared) && IsVnode(b, shared)
    requires alone == Added(map[], self) && TickResult(alone, self, [a], withA)
    requires TickResult(withA, self, [a, b], withBoth) && TickResult(withBoth, self, [a], after)
    ensures shared !in after <==> exists own :: IsVnode(a, own) && !IsVnode(b, own)
    ensures shared !in after ==> !RingOf(after, {a, self})
  {
    AddedEntries(map[], self);
    FirstJoins(alone, self, a, withA);
    AddedEntries(alone, a);
    assert withA[shared] == a;
    SecondJoins(withA, self, a, b, withBoth);
    AddedEntries(withA, b);
    assert withBoth[shared] == b;
    forall own | IsVnode(a, own) && !IsVnode(b, own)
      ensures a in withBoth.Values
    {
      assert withBoth[own] == a;
    }
    if a in withBoth.Values {
      var own :| own in withBoth && withBoth[own] == a;
      assert IsVnode(a, own) && !IsVnode(b, own);
    }
    SecondLeaves(withBoth, self, a, b, shared, after);
  }

  // ---------------------------------------------------------------------------------------
  // Exactly when history does not matter
  // ---------------------------------------------------------------------------------------

  ghost predicate DrawnFrom(lives: seq<seq<string>>, nodes: set<string>) {
    forall i, n | 0 <= i < |lives| && n in lives[i] :: n in nodes
  }

  /** Over reports of these nodes, equal last live sets leave a manager with equal rings. */
  ghost predicate HistoryIndependent(self: string, nodes: set<string>) {
    forall livesA, ringsA, livesB, ringsB
      | && Watched(self, livesA, ringsA) && DrawnFrom(livesA, nodes)
        && Watched(self, livesB, ringsB) && DrawnFrom(livesB, nodes)
        && LastLive(self, livesA) == LastLive(self, livesB) ::
      ringsA[|livesA|] == ringsB[|livesB|]
  }

  lemma {:induction false} SeenAreDrawn(self: string, lives: seq<seq<string>>, nodes: set<string>)
    requires DrawnFrom(lives, nodes) && self in nodes
    ensures EverSeen(self, lives) <= nodes
  {
    if lives != [] {
      SeenAreDrawn(self, lives[..|lives| - 1], nodes);
    }
  }

  lemma {:induction false} FollowsWhenCollisionFree(self: string, lives: seq<seq<string>>, rings: seq<Ring>, nodes: set<string>)
    requires self in nodes && CollisionFree(nodes) && Watched(self, lives, rings) && DrawnFrom(lives, nodes)
    ensures RingOf(rings[|lives|], LastLive(self, lives))
  {
    SeenAreDrawn(self, lives, nodes);
    RingFollowsLastReport(self, lives, rings);
  }

  lemma {:induction false} SomeOrder(nodes: set<string>) returns (order: seq<string>)
    ensures forall n :: n in order <==> n in nodes
  {
    if nodes == {} {
      order := [];
    } else {
      var n :| n in nodes;
      var rest := SomeOrder(nodes - {n});
      order := rest + [n];
    }
  }

  /** Every report can be acted upon. */
  lemma {:induction false} SomeTick(before: Ring, self: string, live: seq<string>) returns (after: Ring)
    ensures TickResult(before, self, live, after)
  {
    var former := SomeOrder(before.Values);
    after := RemoveDeparted(AddLive(before, self, live, before.Values, |live|), self, former, live, |former|);
  }

  /** Of two nodes that join in one tick, the one reported last gets a shared position. */
  lemma {:induction false} LastReportedWins(self: string, x: string, y: string, p: u64, after: Ring)
    requires x != self && y != self && x != y && IsVnode(y, p)
    requires TickResult(Added(map[], self), self, [x, y], after)
    ensures p in after && after[p] == y
  {
    var alone := Added(map[], self);
    AddedEntries(map[], self);
    TickWithoutLeave(alone, self, [x, y], after);
    assert AddLive(alone, self, [x, y], alone.Values, 0) == alone;
    assert AddLive(alone, self, [x, y], alone.Values, 1) == Added(alone, x);
    AddedEntries(Added(alone, x), y);
  }

  /** A node that joins and leaves takes a position shared with the manager off the ring. */
  lemma {:induction false} GuestTakesPosition(self: string, x: string, p: u64, joined: Ring, after: Ring)
    requires x != self && IsVnode(x, p) && IsVnode(self, p)
    requires TickResult(Added(map[], self), self, [x], joined) && TickResult(joined, self, [], after)
    ensures p in Added(map[], self) && p !in after
  {
    AddedEntries(map[], self);
    FirstJoins(Added(map[], self), self, x, joined);
    AddedEntries(Added(map[], self), x);
    assert joined[p] == x && x in joined.Values;
    TickEntries(joined, self, [], after);
    assert AddLive(joined, self, [], joined.Values, 0) == joined;
  }

  lemma {:induction false} TellsApart(self: string, nodes: set<string>, livesA: seq<seq<string>>, ringsA: seq<Ring>, livesB: seq<seq<string>>, ringsB: seq<Ring>)
    requires Watched(self, livesA, ringsA) && DrawnFrom(livesA, nodes)
    requires Watched(self, livesB, ringsB) && DrawnFrom(livesB, nodes)
    requires LastLive(self, livesA) == LastLive(self, livesB) && ringsA[|livesA|] != ringsB[|livesB|]
    ensures !HistoryIndependent(self, nodes)
  {
  }

  /** Two runs that tell a shared position apart. */
  lemma {:induction false} OrderMatters(self: string, x: string, y: string, p: u64, nodes: set<string>)
    requires {self, x, y} <= nodes && x != self && y != self && x != y && IsVnode(x, p) && IsVnode(y, p)
    ensures !HistoryIndependent(self, nodes)
  {
    var alone := Added(map[], self);
    var xy := SomeTick(alone, self, [x, y]);
    var yx := SomeTick(alone, self, [y, x]);
    LastReportedWins(self, x, y, p, xy);
    LastReportedWins(self, y, x, p, yx);
    assert Elements([x, y]) == Elements([y, x]);
    TellsApart(self, nodes, [[x, y]], [alone, xy], [[y, x]], [alone, yx]);
  }

  lemma {:induction false} VisitMatters(self: string, x: string, p: u64, nodes: set<string>)
    requires {self, x} <= nodes && x != self && IsVnode(x, p) && IsVnode(self, p)
    ensures !HistoryIndependent(self, nodes)
  {
    var alone := Added(map[], self);
    var joined := SomeTick(alone, self, [x]);
    var after := SomeTick(joined, self, []);
    GuestTakesPosition(self, x, p, joined, after);
    assert Elements([]) == {};
    TellsApart(self, nodes, [[x], []], [alone, joined, after], [], [alone]);
  }

  /** The ring depends on the last live set alone if and only if no two nodes that may be reported share a position. */
  lemma {:induction false} HistoryIndependentIff(self: string, nodes: set<string>)
    requires self in nodes
    ensures HistoryIndependent(self, nodes) <==> CollisionFree(nodes)
  {
    if CollisionFree(nodes) {
      forall livesA, ringsA, livesB, ringsB
        | && Watched(self, livesA, ringsA) && DrawnFrom(livesA, nodes)
          && Watched(self, livesB, ringsB) && DrawnFrom(livesB, nodes)
          && LastLive(self, livesA) == LastLive(self, livesB)
        ensures ringsA[|livesA|] == ringsB[|livesB|]
      {
        FollowsWhenCollisionFree(self, livesA, ringsA, nodes);
        FollowsWhenCollisionFree(self, livesB, ringsB, nodes);
        RingOfIsUnique(ringsA[|livesA|], ringsB[|livesB|], LastLive(self, livesA));
      }
    } else {
      var x, y, p: u64 :| x in nodes && y in nodes && IsVnode(x, p) && IsVnode(y, p) && x != y;
      if x == self {
        VisitMatters(self, y, p, nodes);
      } else if y == self {
        VisitMatters(self, x, p, nodes);
      } else {
        OrderMatters(self, x, y, p, nodes);
      }
    }
  }
}
