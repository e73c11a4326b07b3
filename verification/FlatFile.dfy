/**
 * Positional I/O on one preallocated file. A call may move fewer bytes than asked, or fail;
 * `WriteAllAt` and `ReadExactAt` turn such calls into whole-buffer transfers.
 */
module FlatFile {
  import opened Base

  /** `bytes` with `data` written over it from `offset` on. */
  function Patch(bytes: seq<byte>, offset: nat, data: seq<byte>): (r: seq<byte>)
    requires offset + |data| <= |bytes|
    ensures |r| == |bytes|
  {
    bytes[..offset] + data + bytes[offset + |data|..]
  }

  lemma {:induction false} PatchTwice(bytes: seq<byte>, offset: nat, a: seq<byte>, b: seq<byte>)
    requires offset + |a| + |b| <= |bytes|
    ensures Patch(Patch(bytes, offset, a), offset + |a|, b) == Patch(bytes, offset, a + b)
  {
  }

  /** Outside the written window every range reads as before. */
  lemma {:induction false} PatchFrame(bytes: seq<byte>, offset: nat, data: seq<byte>, lo: nat, hi: nat)
    requires offset + |data| <= |bytes|
    requires lo <= hi <= |bytes|
    requires hi <= offset || offset + |data| <= lo
    ensures Patch(bytes, offset, data)[lo..hi] == bytes[lo..hi]
  {
  }

  /** A range that contains the written window is patched itself. */
  lemma {:induction false} PatchInside(bytes: seq<byte>, lo: nat, hi: nat, at: nat, data: seq<byte>)
    requires lo + at + |data| <= hi <= |bytes|
    ensures Patch(bytes, lo + at, data)[lo..hi] == Patch(bytes[lo..hi], at, data)
  {
    var whole, part := Patch(bytes, lo + at, data), Patch(bytes[lo..hi], at, data);
    forall k | 0 <= k < hi - lo
      ensures whole[lo + k] == part[k]
    {
      if k < at {
      } else if k < at + |data| {
        assert whole[lo + k] == data[k - at];
      } else {
        assert whole[lo + k] == bytes[lo + k] == bytes[lo..hi][k];
      }
    }
  }

  /** A transfer of `data` to `offset` that stopped after some prefix of it, or all of it. */
  ghost predicate TornWrite(before: seq<byte>, offset: nat, data: seq<byte>, after: seq<byte>)
  {
    offset + |data| <= |before| &&
    exists k | 0 <= k <= |data| :: after == Patch(before, offset, data[..k])
  }

  class DiskFile {
    var bytes: seq<byte>
    /** What a power failure cannot take back: the content at the last successful sync. */
    ghost var durable: seq<byte>
    /** True for a device on which no call ever fails. */
    const reliable: bool

    /** Opens the file and sets its length: a longer file is cut, a shorter one zero-extended. */
    constructor (content: seq<byte>, length: nat, reliable: bool)
      ensures this.reliable == reliable
      ensures bytes == durable == Resized(content, length)
    {
      this.reliable := reliable;
      bytes := Resized(content, length);
      durable := Resized(content, length);
    }

    static function Resized(content: seq<byte>, length: nat): (r: seq<byte>)
      ensures |r| == length
      ensures forall i | 0 <= i < length :: r[i] == if i < |content| then content[i] else 0
    {
      if |content| >= length then content[..length] else content + seq(length - |content|, i => 0)
    }

    /** `FileExt::write_at`: writes some prefix of the buffer, or fails. */
    method WriteAt(buf: seq<byte>, offset: nat) returns (r: Result<nat>)
      requires offset + |buf| <= |bytes|
      modifies this`bytes
      ensures r.Ok? ==> r.value <= |buf| && bytes == Patch(old(bytes), offset, buf[..r.value])
      ensures r.Err? ==> bytes == old(bytes)
      ensures reliable ==> r.Ok? && (buf != [] ==> r.value > 0)
    {
      var fails: bool := *;
      if fails && !reliable {
        return Err(Io);
      }
      var n: nat :| n <= |buf| && (reliable && buf != [] ==> n > 0) by {
        assert |buf| <= |buf|;
      }
      bytes := Patch(bytes, offset, buf[..n]);
      return Ok(n);
    }

    /** `FileExt::read_at`: reads some bytes from `offset` on, none only at the end of the file, or fails. */
    method ReadAt(want: nat, offset: nat) returns (r: Result<seq<byte>>)
      ensures r.Ok? ==> |r.value| <= want
      ensures r.Ok? && r.value != [] ==>
                offset + |r.value| <= |bytes| && r.value == bytes[offset..offset + |r.value|]
      ensures reliable && want > 0 && offset < |bytes| ==> r.Ok? && r.value != []
    {
      var fails: bool := *;
      if fails && !reliable {
        return Err(Io);
      }
      if offset >= |bytes| || want == 0 {
        return Ok([]);
      }
      var n: nat :| n <= want && offset + n <= |bytes| && (reliable ==> n > 0) by {
        assert 1 <= want && offset + 1 <= |bytes|;
      }
      return Ok(bytes[offset..offset + n]);
    }

    /** `File::sync_data`. */
    method SyncData() returns (r: Result<()>)
      modifies this`durable
      ensures r.Ok? ==> durable == bytes
      ensures r.Err? ==> durable == old(durable)
      ensures reliable ==> r.Ok?
    {
      var fails: bool := *;
      if fails && !reliable {
        return Err(Io);
      }
      durable := bytes;
      return Ok(());
    }
  }

  /** Writing on where a prefix of the data ends makes a longer prefix. */
  lemma {:induction false} NextPatch(bytes: seq<byte>, start: nat, data: seq<byte>, done: nat, n: nat)
    requires start + |data| <= |bytes| && done + n <= |data|
    ensures Patch(Patch(bytes, start, data[..done]), start + done, data[done..done + n]) == Patch(bytes, start, data[..done + n])
  {
    PatchTwice(bytes, start, data[..done], data[done..done + n]);
    assert data[..done] + data[done..done + n] == data[..done + n];
  }

  /** Writes the whole buffer; on failure some prefix of it has been written. */
  method WriteAllAt(file: DiskFile, data: seq<byte>, start: nat) returns (r: Result<()>)
    requires start + |data| <= |file.bytes|
    modifies file`bytes
    ensures r.Ok? ==> file.bytes == Patch(old(file.bytes), start, data)
    ensures TornWrite(old(file.bytes), start, data, file.bytes)
    ensures file.reliable ==> r.Ok?
  {
    var buf, offset := data, start;
    ghost var before := file.bytes;
    ghost var done := 0;
    while buf != []
      invariant 0 <= done <= |data| && buf == data[done..] && offset == start + done
      invariant file.bytes == Patch(before, start, data[..done])
      decreases |buf|
    {
      var written := file.WriteAt(buf, offset);
      if written.Err? {
        return Err(written.error);
      }
      assert buf[..written.value] == data[done..done + written.value];
      NextPatch(before, start, data, done, written.value);
      done := done + written.value;
      if written.value == 0 {
        return Err(WriteZero);
      }
      offset := offset + written.value;
      buf := buf[written.value..];
    }
    assert data[..|data|] == data;
    return Ok(());
  }

  /** Reads exactly `want` bytes, failing when the file ends first. */
  method ReadExactAt(file: DiskFile, want: nat, start: nat) returns (r: Result<seq<byte>>)
    ensures r.Ok? ==> (want > 0 ==> start + want <= |file.bytes|) && |r.value| == want
    ensures r.Ok? && want > 0 ==> r.value == file.bytes[start..start + want]
    ensures file.reliable ==> (r.Ok? <==> want == 0 || start + want <= |file.bytes|)
  {
    var got: seq<byte>, offset := [], start;
    while |got| < want
      invariant |got| <= want && offset == start + |got|
      invariant got != [] ==> start + |got| <= |file.bytes| && got == file.bytes[start..start + |got|]
      decreases want - |got|
    {
      var piece := file.ReadAt(want - |got|, offset);
      if piece.Err? {
        return Err(piece.error);
      }
      if piece.value == [] {
        return Err(UnexpectedEof);
      }
      offset := offset + |piece.value|;
      got := got + piece.value;
    }
    return Ok(got);
  }
}
