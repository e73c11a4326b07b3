/**
 * The consistent-hash ring: virtual nodes at hash positions, a key owned by the first
 * virtual node at or after its hash.
 */
module HashRing {
  import opened Base

  /** `xxh3_64` of a string: some function, about which nothing else is known. */
  const XXH3_64: string -> u64

  const VNODES_PER_NODE: nat := 150

  type Ring = map<u64, string>

  function Digits(n: nat): string {
    if n < 10 then [(n as char) + '0'] else Digits(n / 10) + [((n % 10) as char) + '0']
  }

  /** The name of the i-th virtual node of a node. */
  function VnodeLabel(node: string, i: nat): string {
    node + "-vnode-" + Digits(i)
  }

  /** Its position. */
  function VnodeHash(node: string, i: nat): u64 {
    XXH3_64(VnodeLabel(node, i))
  }

  ghost predicate IsVnode(node: string, position: u64) {
    exists i: nat :: i < VNODES_PER_NODE && VnodeHash(node, i) == position
  }

  function HashKey(key: string): u64 {
    XXH3_64(key)
  }

  // ---------------------------------------------------------------------------------------
  // Decimal numerals
  // ---------------------------------------------------------------------------------------

  /** What a string of digits stands for. */
  function DecimalValue(s: string): int {
    if s == "" then 0 else 10 * DecimalValue(s[..|s| - 1]) + (s[|s| - 1] as int - '0' as int)
  }

  /** The string is a number written in decimal: digits, without a leading zero unless it is all there is. */
  predicate IsDecimal(s: string, n: nat) {
    && s != "" && (forall i | 0 <= i < |s| :: '0' <= s[i] <= '9')
    && (s[0] == '0' ==> |s| == 1)
    && DecimalValue(s) == n
  }

  lemma {:induction false} DigitsAreDecimal(n: nat)
    ensures IsDecimal(Digits(n), n) && (n > 0 ==> Digits(n)[0] != '0')
  {
    if n >= 10 {
      DigitsAreDecimal(n / 10);
      assert Digits(n)[..|Digits(n)| - 1] == Digits(n / 10);
    } else {
      assert Digits(n)[..0] == "";
    }
  }

  lemma {:induction false} DecimalIsPositive(s: string)
    requires s != "" && forall i | 0 <= i < |s| :: '0' <= s[i] <= '9'
    ensures DecimalValue(s) >= 0 && (s[0] != '0' ==> DecimalValue(s) > 0)
  {
    if |s| > 1 {
      DecimalIsPositive(s[..|s| - 1]);
    } else {
      assert s[..0] == "";
    }
  }

  /** A number has one numeral. */
  lemma {:induction false} DecimalIsUnique(s: string, n: nat)
    ensures IsDecimal(s, n) <==> s == Digits(n)
    decreases |s|
  {
    DigitsAreDecimal(n);
    if IsDecimal(s, n) {
      var front, last := s[..|s| - 1], s[|s| - 1] as int - '0' as int;
      if front == "" {
        assert s == [s[0]] && DecimalValue(front) == 0;
      } else {
        DecimalIsPositive(front);
        assert DecimalValue(front) == n / 10 && last == n % 10;
        DecimalIsUnique(front, n / 10);
        assert s == front + [s[|s| - 1]];
      }
    }
  }

  // ---------------------------------------------------------------------------------------
  // Ownership by successor lookup
  // ---------------------------------------------------------------------------------------

  predicate IsLeast(m: u64, s: set<u64>) {
    m in s && forall x | x in s :: m <= x
  }

  function Least(s: set<u64>): (m: u64)
    requires s != {}
    ensures IsLeast(m, s)
  {
    LeastExists(s);
    var m: u64 :| IsLeast(m, s);
    m
  }

  lemma {:induction false} LeastExists(s: set<u64>)
    requires s != {}
    ensures exists m: u64 :: IsLeast(m, s)
  {
    var y: u64 :| y in s;
    if s == {y} {
      assert IsLeast(y, s);
    } else {
      LeastExists(s - {y});
      var m: u64 :| IsLeast(m, s - {y});
      assert s == s - {y} + {y};
      assert IsLeast(if y <= m then y else m, s);
    }
  }

  /** The first position at or after `h`, wrapping around to the lowest one. */
  function Successor(positions: set<u64>, h: u64): u64
    requires positions != {}
  {
    var after := set p | p in positions && p >= h;
    if after != {} then Least(after) else Least(positions)
  }

  function OwnerAt(ring: Ring, h: u64): Option<string> {
    if ring == map[] then None else Some(ring[Successor(ring.Keys, h)])
  }

  function GetOwner(ring: Ring, key: string): Option<string> {
    OwnerAt(ring, HashKey(key))
  }

  /** Steps clockwise from `h` to `p` on the circle of 2^64 positions. */
  function Clockwise(h: u64, p: u64): u64 {
    if p >= h then p - h else 0x1_0000_0000_0000_0000 - h + p
  }

  /** That many steps, modulo 2^64, lead from `h` to `p`. */
  lemma {:induction false} ClockwiseLeads(h: u64, p: u64)
    ensures 0 <= Clockwise(h, p) <= U64_MAX && (h + Clockwise(h, p)) % (U64_MAX + 1) == p
  {
  }

  /** The owner of a key is the node at the nearest position clockwise from the key's hash. */
  lemma {:induction false} OwnerIsNearest(ring: Ring, key: string)
    ensures ring == map[] <==> GetOwner(ring, key) == None
    ensures ring != map[] ==> exists p | p in ring ::
              && GetOwner(ring, key) == Some(ring[p])
              && forall q | q in ring :: Clockwise(XXH3_64(key), p) <= Clockwise(XXH3_64(key), q)
  {
    if ring != map[] {
      var p := Successor(ring.Keys, XXH3_64(key));
      SuccessorIsNearest(ring.Keys, XXH3_64(key), p);
      assert p in ring;
    }
  }

  /** The lookup finds the position that is nearest in clockwise direction, and no other. */
  lemma {:induction false} SuccessorIsNearest(positions: set<u64>, h: u64, p: u64)
    requires positions != {}
    ensures p == Successor(positions, h) <==>
            p in positions && forall q | q in positions :: Clockwise(h, p) <= Clockwise(h, q)
  {
    var s := Successor(positions, h);
    assert s in positions;
    forall q | q in positions
      ensures Clockwise(h, s) <= Clockwise(h, q)
    {
      var after := set p | p in positions && p >= h;
      assert q >= h ==> q in after;
    }
    assert p in positions && Clockwise(h, p) == Clockwise(h, s) ==> p == s;
  }

  // ---------------------------------------------------------------------------------------
  // Adding and removing nodes
  // ---------------------------------------------------------------------------------------

  /** The ring after the first `n` virtual nodes of `node` went in. */
  function WithVnodes(ring: Ring, node: string, n: nat): Ring {
    if n == 0 then ring else WithVnodes(ring, node, n - 1)[VnodeHash(node, n - 1) := node]
  }

  function Added(ring: Ring, node: string): Ring {
    WithVnodes(ring, node, VNODES_PER_NODE)
  }

  function Removed(ring: Ring, node: string): Ring {
    map p | p in ring && ring[p] != node :: ring[p]
  }

  lemma {:induction false} WithVnodesEntries(ring: Ring, node: string, n: nat)
    ensures forall p: u64 :: p in WithVnodes(ring, node, n) <==>
              p in ring || exists i: nat :: i < n && VnodeHash(node, i) == p
    ensures forall p: u64 | p in WithVnodes(ring, node, n) ::
              WithVnodes(ring, node, n)[p] ==
              if (exists i: nat :: i < n && VnodeHash(node, i) == p) then node else ring[p]
  {
    if n > 0 {
      WithVnodesEntries(ring, node, n - 1);
    }
  }

  /** The i-th virtual node of a node is named after the number in decimal, so no two are named alike. */
  lemma {:induction false} LabelsDiffer(node: string, i: nat, j: nat)
    ensures VnodeLabel(node, i) == VnodeLabel(node, j) <==> i == j
    ensures forall d: string :: IsDecimal(d, i) <==> VnodeLabel(node, i) == node + "-vnode-" + d
  {
    var stem := node + "-vnode-";
    forall d: string
      ensures IsDecimal(d, i) <==> stem + Digits(i) == stem + d
    {
      DecimalIsUnique(d, i);
      assert (stem + Digits(i))[|stem|..] == Digits(i) && (stem + d)[|stem|..] == d;
    }
    DigitsAreDecimal(i);
    DigitsAreDecimal(j);
    DecimalIsUnique(Digits(j), i);
    assert VnodeLabel(node, j) == stem + Digits(j);
  }

  lemma {:induction false} VnodeCount(node: string, n: nat)
    ensures |WithVnodes(map[], node, n)| <= n
    ensures |WithVnodes(map[], node, n)| == n <==> forall i: nat, j: nat | i < j < n :: VnodeHash(node, i) != VnodeHash(node, j)
  {
    if n > 0 {
      var before := WithVnodes(map[], node, n - 1);
      VnodeCount(node, n - 1);
      WithVnodesEntries(map[], node, n - 1);
      OneMoreKey(before, VnodeHash(node, n - 1), node);
    }
  }

  lemma {:induction false} OneMoreKey(ring: Ring, p: u64, node: string)
    ensures |ring[p := node]| == if p in ring then |ring| else |ring| + 1
  {
    assert ring[p := node].Keys == ring.Keys + {p};
    assert |ring[p := node]| == |ring[p := node].Keys| && |ring| == |ring.Keys|;
  }

  /**
   * A node alone has exactly the positions of "node-vnode-0" to "node-vnode-149", the number in decimal; these are
   * 150 positions if and only if the hash tells those names apart.
   */
  lemma {:induction false} PositionsOfNode(node: string)
    ensures forall p: u64 :: p in Added(map[], node) <==>
              exists i: nat, d: string :: i < VNODES_PER_NODE && IsDecimal(d, i) && XXH3_64(node + "-vnode-" + d) == p
    ensures |Added(map[], node)| == 150 <==>
            forall i: nat, j: nat | i < j < VNODES_PER_NODE :: VnodeHash(node, i) != VnodeHash(node, j)
  {
    VnodeCount(node, VNODES_PER_NODE);
    AddedEntries(map[], node);
    forall p: u64
      ensures IsVnode(node, p) <==>
              exists i: nat, d: string :: i < VNODES_PER_NODE && IsDecimal(d, i) && XXH3_64(node + "-vnode-" + d) == p
    {
      if IsVnode(node, p) {
        var i: nat :| i < VNODES_PER_NODE && VnodeHash(node, i) == p;
        DigitsAreDecimal(i);
        assert IsDecimal(Digits(i), i) && XXH3_64(node + "-vnode-" + Digits(i)) == p;
      }
      if i: nat, d: string :| i < VNODES_PER_NODE && IsDecimal(d, i) && XXH3_64(node + "-vnode-" + d) == p {
        DecimalIsUnique(d, i);
        assert VnodeHash(node, i) == p;
      }
    }
  }

  lemma {:induction false} AddedEntries(ring: Ring, node: string)
    ensures forall p: u64 :: p in Added(ring, node) <==> p in ring || IsVnode(node, p)
    ensures forall p: u64 | p in Added(ring, node) ::
              Added(ring, node)[p] == if IsVnode(node, p) then node else ring[p]
  {
    WithVnodesEntries(ring, node, VNODES_PER_NODE);
  }

  /** A ring that gained positions of one node only: each key keeps its owner or goes to that node. */
  lemma {:induction false} AddMovesOnlyToNewNode(ring: Ring, node: string, h: u64)
    ensures OwnerAt(Added(ring, node), h) == OwnerAt(ring, h) || OwnerAt(Added(ring, node), h) == Some(node)
    ensures OwnerAt(Added(ring, node), h).Some?
  {
    var after := Added(ring, node);
    AddedEntries(ring, node);
    assert IsVnode(node, VnodeHash(node, 0));
    assert VnodeHash(node, 0) in after;
    var p := Successor(after.Keys, h);
    SuccessorIsNearest(after.Keys, h, p);
    if after[p] != node {
      assert p in ring;
      SuccessorIsNearest(ring.Keys, h, p);
    }
  }

  /** Removing a node leaves the owner of every key that it did not own. */
  lemma {:induction false} RemoveMovesOnlyOwnKeys(ring: Ring, node: string, h: u64)
    requires OwnerAt(ring, h) != Some(node)
    ensures OwnerAt(Removed(ring, node), h) == OwnerAt(ring, h)
  {
    if ring == map[] {
      assert Removed(ring, node) == map[];
    } else {
      var p := Successor(ring.Keys, h);
      SuccessorIsNearest(ring.Keys, h, p);
      assert p in Removed(ring, node);
      SuccessorIsNearest(Removed(ring, node).Keys, h, p);
    }
  }

  /** Removal undoes addition exactly when the node was absent and took no position over. */
  lemma {:induction false} AddThenRemove(ring: Ring, node: string)
    ensures Removed(Added(ring, node), node) == ring <==>
            node !in ring.Values && forall p: u64 | p in ring :: !IsVnode(node, p)
  {
    var after := Removed(Added(ring, node), node);
    AddedEntries(ring, node);
    if after == ring {
      forall p: u64 | p in ring
        ensures !IsVnode(node, p) && ring[p] != node
      {
        assert p in after;
      }
    }
    if node !in ring.Values && forall p: u64 | p in ring :: !IsVnode(node, p) {
      forall p: u64 | p in ring
        ensures p in after && after[p] == ring[p]
      {
        assert ring[p] in ring.Values;
      }
      assert after == ring;
    }
  }

  // ---------------------------------------------------------------------------------------
  // Ownership by hash ranges
  // ---------------------------------------------------------------------------------------

  /** The positions in ascending order, as iterating over the ring meets them. */
  function Ascending(s: set<u64>): (ps: seq<u64>)
    ensures |ps| == |s|
  {
    if s == {} then [] else [Least(s)] + Ascending(s - {Least(s)})
  }

  ghost predicate Lists(ps: seq<u64>, s: set<u64>) {
    && (forall i | 0 <= i < |ps| :: ps[i] in s)
    && (forall p | p in s :: p in ps)
    && (forall i, j | 0 <= i < j < |ps| :: ps[i] < ps[j])
  }

  lemma {:induction false} ConsLists(m: u64, rest: seq<u64>, s: set<u64>)
    requires IsLeast(m, s) && Lists(rest, s - {m})
    ensures Lists([m] + rest, s)
  {
    var ps := [m] + rest;
    forall p | p in s
      ensures p in ps
    {
      if p == m {
        assert ps[0] == p;
      } else {
        assert p in s - {m} && p in rest;
        var k :| 0 <= k < |rest| && rest[k] == p;
        assert ps[k + 1] == p;
      }
    }
  }

  lemma {:induction false} AscendingLists(s: set<u64>)
    ensures Lists(Ascending(s), s)
  {
    if s != {} {
      var m := Least(s);
      AscendingLists(s - {m});
      ConsLists(m, Ascending(s - {m}), s);
    }
  }

  /** The half-open ranges of the vnode at `pos` whose predecessor on the ring is at `prev`. */
  function VnodeRanges(prev: u64, pos: u64): seq<(u64, u64)> {
    if prev < pos then
      [(WrappingNext(prev), WrappingNext(pos))]
    else
      [(WrappingNext(prev), U64_MAX), (0, WrappingNext(pos))]
  }

  function Predecessor(ps: seq<u64>, i: nat): u64
    requires i < |ps|
  {
    if i == 0 then ps[|ps| - 1] else ps[i - 1]
  }

  /** The ranges of `node` among the first `n` positions. */
  function RangesUpTo(ps: seq<u64>, ring: Ring, node: string, n: nat): seq<(u64, u64)>
    requires n <= |ps| && forall p | p in ps :: p in ring
  {
    if n == 0 then
      []
    else if ring[ps[n - 1]] != node then
      RangesUpTo(ps, ring, node, n - 1)
    else
      RangesUpTo(ps, ring, node, n - 1) + VnodeRanges(Predecessor(ps, n - 1), ps[n - 1])
  }

  function OwnedRanges(ring: Ring, node: string): seq<(u64, u64)> {
    AscendingLists(ring.Keys);
    RangesUpTo(Ascending(ring.Keys), ring, node, |ring.Keys|)
  }

  predicate InRange(h: u64, range: (u64, u64)) {
    if range.0 <= range.1 then range.0 <= h < range.1 else h >= range.0 || h < range.1
  }

  predicate HashInRanges(h: u64, ranges: seq<(u64, u64)>) {
    exists r | r in ranges :: InRange(h, r)
  }

  lemma {:induction false} InRangesUpTo(ps: seq<u64>, ring: Ring, node: string, n: nat, h: u64)
    requires n <= |ps| && forall p | p in ps :: p in ring
    ensures HashInRanges(h, RangesUpTo(ps, ring, node, n)) <==>
            exists i: nat :: i < n && ring[ps[i]] == node && HashInRanges(h, VnodeRanges(Predecessor(ps, i), ps[i]))
  {
    if n > 0 {
      InRangesUpTo(ps, ring, node, n - 1, h);
      if ring[ps[n - 1]] == node {
        InEither(h, RangesUpTo(ps, ring, node, n - 1), VnodeRanges(Predecessor(ps, n - 1), ps[n - 1]));
      }
    }
  }

  lemma {:induction false} InEither(h: u64, a: seq<(u64, u64)>, b: seq<(u64, u64)>)
    ensures HashInRanges(h, a + b) <==> HashInRanges(h, a) || HashInRanges(h, b)
  {
    forall r
      ensures r in a + b <==> r in a || r in b
    {
    }
  }

  /**
   * The ranges of one vnode against successor lookup, on every hash. Below `u64::MAX` they agree,
   * except that the first vnode of several claims everything when the last one sits at `u64::MAX`.
   * The hash `u64::MAX` is claimed only by a vnode that sits right there and is not the first.
   */
  lemma {:induction false} VnodeRangesExactly(positions: set<u64>, ps: seq<u64>, i: nat, h: u64)
    requires Lists(ps, positions) && i < |ps| && positions != {}
    ensures HashInRanges(h, VnodeRanges(Predecessor(ps, i), ps[i])) <==>
            if h == U64_MAX then i > 0 && ps[i] == U64_MAX
            else Successor(positions, h) == ps[i] || (i == 0 && |ps| > 1 && ps[|ps| - 1] == U64_MAX)
  {
    var prev, pos := Predecessor(ps, i), ps[i];
    RangesOfVnode(h, prev, pos);
    var s := Successor(positions, h);
    SuccessorIsNearest(positions, h, s);
    var k :| 0 <= k < |ps| && ps[k] == s;
    assert ps[0] in positions && ps[|ps| - 1] in positions && prev in positions;
    assert i > 0 ==> (s == pos <==> prev < h <= pos);
    assert i == 0 ==> (s == pos <==> h <= pos || h > prev);
  }

  lemma {:induction false} RangesOfVnode(h: u64, prev: u64, pos: u64)
    ensures HashInRanges(h, VnodeRanges(prev, pos)) <==>
            if prev < pos then InRange(h, (WrappingNext(prev), WrappingNext(pos)))
            else InRange(h, (WrappingNext(prev), U64_MAX)) || InRange(h, (0, WrappingNext(pos)))
  {
    var rs := VnodeRanges(prev, pos);
    assert rs[0] in rs && rs[|rs| - 1] in rs;
  }

  lemma {:induction false} EndsOfListing(ps: seq<u64>, s: set<u64>)
    requires Lists(ps, s) && s != {}
    ensures ps != [] && ps[0] == Least(s)
    ensures ps[|ps| - 1] == U64_MAX <==> U64_MAX in s
  {
    var first :| 0 <= first < |ps| && ps[first] == Least(s);
    assert ps[0] in s;
    if U64_MAX in s {
      var k :| 0 <= k < |ps| && ps[k] == U64_MAX;
      assert k == |ps| - 1;
    }
    assert ps[|ps| - 1] in s;
  }

  lemma {:induction false} RangesOfListing(ps: seq<u64>, ring: Ring, node: string, h: u64)
    requires ring != map[] && Lists(ps, ring.Keys)
    ensures HashInRanges(h, RangesUpTo(ps, ring, node, |ps|)) <==>
            if h == U64_MAX then
              U64_MAX in ring && |ps| > 1 && ring[U64_MAX] == node
            else
              ring[Successor(ring.Keys, h)] == node ||
              (U64_MAX in ring && |ps| > 1 && ring[Least(ring.Keys)] == node)
  {
    EndsOfListing(ps, ring.Keys);
    InRangesUpTo(ps, ring, node, |ps|, h);
    if HashInRanges(h, RangesUpTo(ps, ring, node, |ps|)) {
      var i: nat :| i < |ps| && ring[ps[i]] == node && HashInRanges(h, VnodeRanges(Predecessor(ps, i), ps[i]));
      VnodeRangesExactly(ring.Keys, ps, i, h);
    } else {
      var k :| 0 <= k < |ps| && ps[k] == Successor(ring.Keys, h);
      VnodeRangesExactly(ring.Keys, ps, k, h);
      VnodeRangesExactly(ring.Keys, ps, 0, h);
      VnodeRangesExactly(ring.Keys, ps, |ps| - 1, h);
    }
  }

  /**
   * The two ownership computations compared, for every ring, node and hash. They agree below
   * `u64::MAX` unless the last of several vnodes sits at `u64::MAX`, when the owner of the first
   * vnode claims every range; and at `u64::MAX` only such a vnode's owner has a claim at all.
   */
  lemma {:induction false} RangesExactly(ring: Ring, node: string, h: u64)
    requires ring != map[]
    ensures HashInRanges(h, OwnedRanges(ring, node)) <==>
            if h == U64_MAX then
              U64_MAX in ring && |ring| > 1 && ring[U64_MAX] == node
            else
              OwnerAt(ring, h) == Some(node) ||
              (U64_MAX in ring && |ring| > 1 && ring[Least(ring.Keys)] == node)
  {
    AscendingLists(ring.Keys);
    RangesOfListing(Ascending(ring.Keys), ring, node, h);
    assert |ring.Keys| == |ring|;
  }

  /** Without a vnode at `u64::MAX`, ranges and lookup agree on every hash but the last, which nobody claims. */
  lemma {:induction false} RangesAgreeWithLookup(ring: Ring, node: string, h: u64)
    requires ring != map[] && U64_MAX !in ring
    ensures HashInRanges(h, OwnedRanges(ring, node)) <==> h != U64_MAX && OwnerAt(ring, h) == Some(node)
  {
    RangesExactly(ring, node, h);
  }

  /** Ranges and lookup agree below `u64::MAX` for every node. */
  ghost predicate RangesSound(ring: Ring) {
    forall node, h: u64 | h != U64_MAX ::
      HashInRanges(h, OwnedRanges(ring, node)) <==> OwnerAt(ring, h) == Some(node)
  }

  /** Exactly the rings for which migration and routing agree below `u64::MAX`. */
  lemma {:induction false} WhenRangesAreSound(ring: Ring)
    requires ring != map[]
    ensures RangesSound(ring) <==>
            || U64_MAX !in ring
            || |ring| == 1
            || (forall p | p in ring :: ring[p] == ring[Least(ring.Keys)] || (p == U64_MAX && U64_MAX - 1 in ring))
  {
    var first := ring[Least(ring.Keys)];
    forall node, h: u64
      ensures HashInRanges(h, OwnedRanges(ring, node)) <==>
              if h == U64_MAX then U64_MAX in ring && |ring| > 1 && ring[U64_MAX] == node
              else OwnerAt(ring, h) == Some(node) || (U64_MAX in ring && |ring| > 1 && first == node)
    {
      RangesExactly(ring, node, h);
    }
    if U64_MAX in ring && |ring| > 1 {
      if RangesSound(ring) {
        forall p | p in ring && !(p == U64_MAX && U64_MAX - 1 in ring)
          ensures ring[p] == first
        {
          // a hash that the lookup gives to the vnode at p
          var h: u64 := if p == U64_MAX then p - 1 else p;
          SuccessorIsNearest(ring.Keys, h, p);
          assert OwnerAt(ring, h) == Some(ring[p]);
          assert HashInRanges(h, OwnedRanges(ring, first));
        }
      } else {
        var node, h: u64 :| h != U64_MAX &&
          !(HashInRanges(h, OwnedRanges(ring, node)) <==> OwnerAt(ring, h) == Some(node));
        var p := Successor(ring.Keys, h);
        SuccessorIsNearest(ring.Keys, h, p);
        assert ring[p] != first;
        assert p == U64_MAX && U64_MAX - 1 in ring ==> Clockwise(h, U64_MAX - 1) < Clockwise(h, p);
      }
    }
  }

  // ---------------------------------------------------------------------------------------
  // The ring that is updated in place
  // ---------------------------------------------------------------------------------------

  class HashRing {
    var ring: Ring

    constructor ()
      ensures ring == map[]
    {
      ring := map[];
    }

    method AddNode(node: string)
      modifies this
      ensures ring == Added(old(ring), node)
    {
      var i := 0;
      while i < VNODES_PER_NODE
        invariant 0 <= i <= VNODES_PER_NODE
        invariant ring == WithVnodes(old(ring), node, i)
      {
        ring := ring[VnodeHash(node, i) := node];
        i := i + 1;
      }
    }

    /** Keeps the entries of every other node. */
    method RemoveNode(node: string)
      modifies this
      ensures forall p :: p in ring <==> p in old(ring) && old(ring)[p] != node
      ensures forall p | p in ring :: ring[p] == old(ring)[p]
    {
      ring := map p | p in ring && ring[p] != node :: ring[p];
    }

    /** The hash ranges whose next clockwise vnode belongs to `node`. */
    method GetOwnedRanges(node: string) returns (ranges: seq<(u64, u64)>)
      ensures ranges == OwnedRanges(ring, node)
    {
      AscendingLists(ring.Keys);
      ranges := CollectRanges(Ascending(ring.Keys), node);
    }

    method CollectRanges(positions: seq<u64>, node: string) returns (ranges: seq<(u64, u64)>)
      requires forall p | p in positions :: p in ring
      ensures ranges == RangesUpTo(positions, ring, node, |positions|)
    {
      ranges := [];
      var i := 0;
      while i < |positions|
        invariant 0 <= i <= |positions|
        invariant ranges == RangesUpTo(positions, ring, node, i)
      {
        var pos := positions[i];
        if ring[pos] == node {
          var prevPos := if i == 0 then positions[|positions| - 1] else positions[i - 1];
          if prevPos < pos {
            ranges := ranges + [(WrappingNext(prevPos), WrappingNext(pos))];
          } else {
            ranges := ranges + [(WrappingNext(prevPos), U64_MAX), (0, WrappingNext(pos))];
          }
        }
        i := i + 1;
      }
    }

    /** All node ids on the ring, each once, in some order. */
    method Nodes() returns (nodes: seq<string>)
      ensures forall n :: n in nodes <==> n in ring.Values
      ensures forall i, j | 0 <= i < j < |nodes| :: nodes[i] != nodes[j]
    {
      nodes := [];
      var rest := ring.Values;
      while rest != {}
        invariant forall n :: n in ring.Values <==> n in nodes || n in rest
        invariant forall n | n in nodes :: n !in rest
        invariant forall i, j | 0 <= i < j < |nodes| :: nodes[i] != nodes[j]
        decreases |rest|
      {
        var n :| n in rest;
        nodes := nodes + [n];
        rest := rest - {n};
      }
    }
  }
}
