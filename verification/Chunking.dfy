/** Cutting a body into chunks, in one go and as it streams in. */
module Chunking {
  import opened Base

  function Flatten(parts: seq<seq<byte>>): seq<byte> {
    if parts == [] then [] else Flatten(parts[..|parts| - 1]) + parts[|parts| - 1]
  }

  /** `slice::chunks`: pieces of `n` bytes, the last one possibly shorter. */
  function ChunksOf(data: seq<byte>, n: nat): seq<seq<byte>>
    requires n > 0
    decreases |data|
  {
    if data == [] then []
    else if |data| <= n then [data]
    else [data[..n]] + ChunksOf(data[n..], n)
  }

  /** All parts have `n` bytes, except that the last may have fewer, but not none. */
  ghost predicate CutInto(parts: seq<seq<byte>>, n: nat) {
    && (forall i | 0 <= i < |parts| - 1 :: |parts[i]| == n)
    && (parts != [] ==> 0 < |parts[|parts| - 1]| <= n)
  }

  lemma {:induction false} FlattenCons(first: seq<byte>, rest: seq<seq<byte>>)
    ensures Flatten([first] + rest) == first + Flatten(rest)
  {
    if rest == [] {
      assert [first] + rest == [first] && [first][..0] == [];
    } else {
      var n := |rest| - 1;
      FlattenCons(first, rest[..n]);
      assert ([first] + rest)[..n + 1] == [first] + rest[..n];
    }
  }

  lemma {:induction false} FlattenSnoc(parts: seq<seq<byte>>, last: seq<byte>)
    ensures Flatten(parts + [last]) == Flatten(parts) + last
  {
    assert (parts + [last])[..|parts|] == parts;
  }

  /** Cutting loses nothing and keeps the order. */
  lemma {:induction false} ChunksFlatten(data: seq<byte>, n: nat)
    requires n > 0
    ensures Flatten(ChunksOf(data, n)) == data && CutInto(ChunksOf(data, n), n)
    decreases |data|
  {
    if data == [] {
    } else if |data| <= n {
      FlattenCons(data, []);
    } else {
      ChunksFlatten(data[n..], n);
      FlattenCons(data[..n], ChunksOf(data[n..], n));
      assert data[..n] + data[n..] == data;
    }
  }

  /** There is only one way to cut: any parts of the right sizes are the chunks of their concatenation. */
  lemma {:induction false} CutIsUnique(parts: seq<seq<byte>>, n: nat)
    requires n > 0 && CutInto(parts, n)
    ensures ChunksOf(Flatten(parts), n) == parts
  {
    if parts != [] {
      var first, rest := parts[0], parts[1..];
      assert parts == [first] + rest;
      CutIsUnique(rest, n);
      FlattenCons(first, rest);
      var data := Flatten(parts);
      if rest != [] {
        assert |Flatten(rest)| > 0 by {
          assert Flatten(rest) == Flatten(rest[..|rest| - 1]) + rest[|rest| - 1];
        }
        assert data[..n] == first && data[n..] == Flatten(rest);
      } else {
        assert data == first;
      }
    }
  }

  /** All parts have exactly `n` bytes. */
  ghost predicate FullSize(parts: seq<seq<byte>>, n: nat) {
    forall i | 0 <= i < |parts| :: |parts[i]| == n
  }

  /** Parts of full size are the first chunks of any body that starts with them; the rest is cut as if alone. */
  lemma {:induction false} FullPartsFirst(full: seq<seq<byte>>, rest: seq<byte>, n: nat)
    requires n > 0 && FullSize(full, n)
    ensures ChunksOf(Flatten(full) + rest, n) == full + ChunksOf(rest, n)
  {
    if full == [] {
      assert Flatten(full) + rest == rest;
    } else {
      var first, others := full[0], full[1..];
      assert full == [first] + others;
      FullPartsFirst(others, rest, n);
      FlattenCons(first, others);
      ChunksCons(first, Flatten(others) + rest, n);
      assert Flatten(full) + rest == first + (Flatten(others) + rest);
      assert [first] + (others + ChunksOf(rest, n)) == full + ChunksOf(rest, n);
    }
  }

  lemma {:induction false} ChunksCons(first: seq<byte>, tail: seq<byte>, n: nat)
    requires |first| == n > 0
    ensures ChunksOf(first + tail, n) == [first] + ChunksOf(tail, n)
  {
    if tail == [] {
      assert first + tail == first;
    } else {
      assert (first + tail)[..n] == first && (first + tail)[n..] == tail;
    }
  }

  lemma {:induction false} FlattenAppend(a: seq<seq<byte>>, b: seq<seq<byte>>)
    ensures Flatten(a + b) == Flatten(a) + Flatten(b)
  {
    if b == [] {
      assert a + b == a;
    } else {
      var front, last := b[..|b| - 1], b[|b| - 1];
      FlattenAppend(a, front);
      assert b == front + [last] && a + b == (a + front) + [last];
      FlattenSnoc(front, last);
      FlattenSnoc(a + front, last);
    }
  }

  lemma {:induction false} FlattenNext(parts: seq<seq<byte>>, i: nat)
    requires i < |parts|
    ensures Flatten(parts[..i + 1]) == Flatten(parts[..i]) + parts[i]
  {
    assert parts[..i + 1][..i] == parts[..i];
  }

  /** The first parts make up the front of the whole. */
  lemma {:induction false} FlattenFront(parts: seq<seq<byte>>, i: nat)
    requires i <= |parts|
    ensures Flatten(parts[..i]) <= Flatten(parts)
  {
    var front, back := parts[..i], parts[i..];
    assert front + back == parts;
    FlattenAppend(front, back);
  }
}
