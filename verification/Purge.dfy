/** The secure purge: overwrite a file with zeros in place, sample it, unlink it. */
module Purge {
  import opened Common
  import opened Zeroing

  datatype ShredError =
    | OpenFailed | StatFailed | Cancelled | WriteFailed(offset: nat)
    | SyncFailed | SeekFailed | ReadFailed | RemoveFailed

  datatype ShredRecord = ShredRecord(bytesPurged: nat, sanitizedHash: string)

  const SAMPLE: nat := 1024

  function Zeros(n: nat): seq<byte> { seq(n, _ => 0) }

  /** The sample that a successful purge of `size` bytes hashes. */
  function SampleOf(size: nat): seq<byte> { Zeros(if SAMPLE > size then size else SAMPLE) }

  /** A write that starts at a block boundary ends at one, or at the end. */
  lemma NextBlock(off: nat, size: nat)
    requires off < size && off % BLOCK == 0
    ensures var next := off + Chunk(off, size); next == size || next % BLOCK == 0
  {
  }

  /** Writing zeros after a zeroed prefix zeroes the longer prefix. */
  lemma ZerosExtend(was: seq<byte>, off: nat, zeros: seq<byte>, now: seq<byte>)
    requires off + |zeros| <= |was| && AllZero(zeros)
    requires now == ZeroRange(was, 0, off)[..off] + zeros + ZeroRange(was, 0, off)[off..][|zeros|..]
    ensures now == ZeroRange(was, 0, off + |zeros|)
  {
    var before, n := ZeroRange(was, 0, off), |zeros|;
    forall i | 0 <= i < |was| ensures now[i] == if i < off + n then 0 else was[i] {
      if i < off { assert now[i] == before[i]; }
      else if i < off + n { assert now[i] == zeros[i - off]; }
      else { assert now[i] == before[off..][n..][i - off - n]; }
    }
  }

  /** All files of at least 1024 bytes are certified by one and the same hash,
      and a shorter one by the hash of its length in zeros. */
  lemma CertificateIsSizeOnly(hash: seq<byte> -> string, size: nat, other: nat)
    ensures size >= SAMPLE && other >= SAMPLE ==> hash(SampleOf(size)) == hash(SampleOf(other))
    ensures SampleOf(size) == SampleOf(other) <==> size == other || (size >= SAMPLE && other >= SAMPLE)
  {
    assert |SampleOf(size)| == if SAMPLE > size then size else SAMPLE;
    assert |SampleOf(other)| == if SAMPLE > other then other else SAMPLE;
  }

  /** One sample certifies files of 1 and of 4 KiB; only an empty file has the empty one. */
  lemma OneSampleForAll()
    ensures SampleOf(1024) == SampleOf(4096) != SampleOf(1000)
    ensures forall size: nat :: SampleOf(size) == [] <==> size == 0
  {
    CertificateIsSizeOnly(_ => "", 1024, 4096);
    CertificateIsSizeOnly(_ => "", 4096, 1000);
    assert forall size: nat :: |SampleOf(size)| == if SAMPLE > size then size else SAMPLE;
  }

  /** What an error leaves of a file that held `was`: a zeroed prefix followed by its
      old bytes. A cancellation stops between two blocks, a failed write somewhere in
      the block it names, and later errors find all of the file zero. */
  ghost predicate LeftBy(e: ShredError, was: seq<byte>, now: seq<byte>) {
    match e
    case OpenFailed => now == was
    case StatFailed => now == was
    case Cancelled => exists z: nat :: z < |was| && z % BLOCK == 0 && now == ZeroRange(was, 0, z)
    case WriteFailed(at) =>
      && at < |was| && at % BLOCK == 0
      && exists z: nat :: at <= z <= at + Chunk(at, |was|) && now == ZeroRange(was, 0, z)
    case _ => now == ZeroRange(was, 0, |was|)
  }

  /** What the host answers to one purge: which of its system calls and context checks
      fail, how far a write that fails gets, and how much of the sample a read delivers. */
  datatype Answers = Answers(fails: nat -> bool, written: nat, read: nat)

  function Blocks(size: nat): nat { (size + 65535) / 65536 }

  /** The calls of one purge, in order: open, stat, a check and a write for each block,
      sync, seek, read, remove. */
  function Calls(size: nat): nat { 6 + 2 * Blocks(size) }

  /** The error of call number `i`. */
  function ErrorAt(i: nat, size: nat): ShredError
    requires i < Calls(size)
  {
    var b := Blocks(size);
    if i == 0 then OpenFailed
    else if i == 1 then StatFailed
    else if i < 2 + 2 * b then if i % 2 == 0 then Cancelled else WriteFailed((i - 3) / 2 * 65536)
    else if i == 2 + 2 * b then SyncFailed
    else if i == 3 + 2 * b then SeekFailed
    else if i == 4 + 2 * b then ReadFailed
    else RemoveFailed
  }

  ghost predicate NoneBefore(fails: nat -> bool, i: nat) { forall j: nat :: j < i ==> !fails(j) }

  /** Call number `i` is the first to fail, and `e` is its error. */
  ghost predicate FirstError(fails: nat -> bool, size: nat, e: ShredError) {
    exists i: nat :: i < Calls(size) && fails(i) && NoneBefore(fails, i) && e == ErrorAt(i, size)
  }

  lemma ThisError(fails: nat -> bool, size: nat, i: nat)
    requires i < Calls(size) && fails(i) && NoneBefore(fails, i)
    ensures FirstError(fails, size, ErrorAt(i, size)) && !NoneBefore(fails, Calls(size))
  {
  }

  lemma OneMoreWorked(fails: nat -> bool, i: nat)
    requires NoneBefore(fails, i) && !fails(i)
    ensures NoneBefore(fails, i + 1)
  {
  }

  /** Where the loop is after `k` blocks. */
  lemma AfterBlock(k: nat, size: nat)
    requires 65536 * k < size
    ensures k < Blocks(size)
    ensures ErrorAt(2 + 2 * k, size) == Cancelled && ErrorAt(3 + 2 * k, size) == WriteFailed(65536 * k)
    ensures 65536 * k + Chunk(65536 * k, size) == if 65536 * (k + 1) < size then 65536 * (k + 1) else size
  {
    assert (2 + 2 * k) % 2 == 0 && (3 + 2 * k) % 2 == 1 && (3 + 2 * k - 3) / 2 == k;
  }

  /** Stopping in block `k`, before its write or `z` bytes into it. */
  lemma StoppedIn(was: seq<byte>, k: nat, z: nat, now: seq<byte>)
    requires 65536 * k < |was| && z <= Chunk(65536 * k, |was|) && now == ZeroRange(was, 0, 65536 * k + z)
    ensures LeftBy(WriteFailed(65536 * k), was, now) && (z == 0 ==> LeftBy(Cancelled, was, now))
  {
    assert (65536 * k) % BLOCK == 0;
  }

  predicate IsZeroBlock(block: array<byte>)
    reads block
  {
    block.Length == BLOCK && forall i :: 0 <= i < BLOCK ==> block[i] == 0
  }

  /** A file on the host: its blocks, whether it still has its name, and the
      offset of the handle that is open on it. */
  class File {
    const data: array<byte>
    var offset: nat
    var linked: bool
    ghost var writes: nat      // completed writes

    constructor (size: nat)
      ensures fresh(data) && data.Length == size && linked && offset == 0 && writes == 0
    {
      data := new byte[size](_ => 0);
      offset, linked, writes := 0, true, 0;
    }

    /** Write the first `count` bytes of `buf`; a write that fails gets as far as `upTo`. */
    method Write(buf: array<byte>, count: nat, works: bool, upTo: nat) returns (n: nat)
      requires count <= buf.Length && buf != data && offset + count <= data.Length
      modifies data, this`offset, this`writes
      ensures n == (if works || upTo > count then count else upTo) && offset == old(offset) + n
      ensures data[..] == old(data[..offset]) + buf[..n] + old(data[offset..])[n..]
      ensures writes == if works then old(writes) + 1 else old(writes)
    {
      var goal := if works || upTo > count then count else upTo;
      n := 0;
      ghost var start := offset;
      while n < goal
        invariant n <= goal <= count && offset == start + n && writes == old(writes)
        invariant forall i :: 0 <= i < data.Length ==>
                    data[i] == if start <= i < start + n then buf[i - start] else old(data[i])
      {
        data[offset] := buf[n];
        offset, n := offset + 1, n + 1;
      }
      if works { writes := writes + 1; }
    }

    /** ReadFull at the current offset: it may come up short, which the caller ignores. */
    method ReadFull(buf: array<byte>, upTo: nat)
      requires buf != data && offset + buf.Length <= data.Length
      modifies buf
      ensures var n := if upTo > buf.Length then buf.Length else upTo;
              buf[..] == data[offset..offset + n] + old(buf[..])[n..]
    {
      var goal := if upTo > buf.Length then buf.Length else upTo;
      var n := 0;
      while n < goal
        invariant n <= goal <= buf.Length
        invariant forall i :: 0 <= i < buf.Length ==> buf[i] == if i < n then data[offset + i] else old(buf[i])
      {
        buf[n] := data[offset + n];
        n := n + 1;
      }
      assert buf[..] == data[offset..offset + n] + old(buf[..])[n..];
    }

    /** ShredFile. It succeeds exactly if the file has its name and no call fails; then
        all of the file is zero, was overwritten in exactly one write per block, is
        certified by its size, and has lost its name. Otherwise it returns the error of
        the first call that failed, and the file is a zeroed prefix followed by its old
        bytes, as far as the error says, and keeps its name. */
    method Shred(hash: seq<byte> -> string, host: Answers) returns (r: Result<ShredRecord, ShredError>)
      modifies this, data
      ensures r.Ok? <==> old(linked) && NoneBefore(host.fails, Calls(data.Length))
      ensures r.Ok? ==> !linked && AllZero(data[..])
      ensures r.Ok? ==> r.value == ShredRecord(data.Length, hash(SampleOf(data.Length)))
      ensures r.Ok? ==> writes == old(writes) + Blocks(data.Length)
      ensures r.Err? ==> linked == old(linked) && LeftBy(r.error, old(data[..]), data[..])
      ensures r.Err? ==> if old(linked) then FirstError(host.fails, data.Length, r.error) else r.error == OpenFailed
    {
      var size := data.Length;
      if !linked { return Err(OpenFailed); }
      if host.fails(0) {
        ThisError(host.fails, size, 0);
        return Err(OpenFailed);
      }
      offset := 0;
      if host.fails(1) {
        ThisError(host.fails, size, 1);
        return Err(StatFailed);
      }
      var stopped := Overwrite(host);
      if stopped.Some? { return Err(stopped.value); }
      var certificate := Certify(hash, host);
      if certificate.Err? { return Err(certificate.error); }
      if host.fails(5 + 2 * Blocks(size)) {
        ThisError(host.fails, size, 5 + 2 * Blocks(size));
        return Err(RemoveFailed);
      }
      OneMoreWorked(host.fails, 5 + 2 * Blocks(size));
      linked := false;
      return Ok(ShredRecord(size, certificate.value));
    }

    /** The loop: zeros in blocks of 64 KiB over the exact length. */
    method Overwrite(host: Answers) returns (stopped: Option<ShredError>)
      requires offset == 0 && NoneBefore(host.fails, 2)
      modifies data, this`offset, this`writes
      ensures stopped.None? ==> data[..] == ZeroRange(old(data[..]), 0, data.Length)
      ensures stopped.None? ==> writes == old(writes) + Blocks(data.Length)
      ensures stopped.None? ==> NoneBefore(host.fails, 2 + 2 * Blocks(data.Length))
      ensures stopped.Some? ==> LeftBy(stopped.value, old(data[..]), data[..])
      ensures stopped.Some? ==> FirstError(host.fails, data.Length, stopped.value)
      ensures stopped.Some? ==> !NoneBefore(host.fails, Calls(data.Length))
    {
      ghost var was := data[..];
      assert data[..] == ZeroRange(was, 0, 0);
      var size := data.Length;
      var zeroBlock := new byte[BLOCK](_ => 0);
      var bytesWritten := 0;
      var k: nat := 0;
      while bytesWritten < size
        invariant bytesWritten <= size == data.Length && offset == bytesWritten
        invariant bytesWritten == if 65536 * k < size then 65536 * k else size
        invariant bytesWritten == size ==> k == Blocks(size)
        invariant data[..] == ZeroRange(was, 0, bytesWritten)
        invariant zeroBlock != data && IsZeroBlock(zeroBlock)
        invariant writes == old(writes) + k && NoneBefore(host.fails, 2 + 2 * k)
        decreases size - bytesWritten
      {
        AfterBlock(k, size);
        var n;
        stopped, n := WriteBlock(host, zeroBlock, k, was);
        if stopped.Some? { return; }
        bytesWritten, k := bytesWritten + n, k + 1;
      }
      return None;
    }

    /** One round of the loop, for block `k`. */
    method WriteBlock(host: Answers, zeroBlock: array<byte>, k: nat, ghost was: seq<byte>)
      returns (stopped: Option<ShredError>, n: nat)
      requires offset == 65536 * k < data.Length && zeroBlock != data && IsZeroBlock(zeroBlock)
      requires data[..] == ZeroRange(was, 0, offset) && NoneBefore(host.fails, 2 + 2 * k)
      modifies data, this`offset, this`writes
      ensures stopped.None? ==> n == Chunk(old(offset), data.Length) && offset == old(offset) + n
      ensures stopped.None? ==> data[..] == ZeroRange(was, 0, offset)
      ensures stopped.None? ==> writes == old(writes) + 1 && NoneBefore(host.fails, 4 + 2 * k)
      ensures stopped.Some? ==> LeftBy(stopped.value, was, data[..])
      ensures stopped.Some? ==> FirstError(host.fails, data.Length, stopped.value)
      ensures stopped.Some? ==> !NoneBefore(host.fails, Calls(data.Length))
    {
      AfterBlock(k, data.Length);
      if host.fails(2 + 2 * k) {
        ThisError(host.fails, data.Length, 2 + 2 * k);
        StoppedIn(was, k, 0, data[..]);
        return Some(Cancelled), 0;
      }
      OneMoreWorked(host.fails, 2 + 2 * k);
      var toWrite := data.Length - offset;
      if toWrite > BLOCK { toWrite := BLOCK; }
      var works := !host.fails(3 + 2 * k);
      ghost var at := offset;
      n := Write(zeroBlock, toWrite, works, host.written);
      ZerosExtend(was, at, zeroBlock[..n], data[..]);
      if !works {
        ThisError(host.fails, data.Length, 3 + 2 * k);
        StoppedIn(was, k, n, data[..]);
        return Some(WriteFailed(65536 * k)), n;
      }
      OneMoreWorked(host.fails, 3 + 2 * k);
      return None, n;
    }

    /** Flush, seek to the start, read the sample and hash it. */
    method Certify(hash: seq<byte> -> string, host: Answers) returns (r: Result<string, ShredError>)
      requires AllZero(data[..]) && NoneBefore(host.fails, 2 + 2 * Blocks(data.Length))
      modifies this`offset
      ensures r.Ok? ==> r.value == hash(SampleOf(data.Length))
      ensures r.Ok? ==> NoneBefore(host.fails, 5 + 2 * Blocks(data.Length))
      ensures r.Err? ==> r.error in {SyncFailed, SeekFailed, ReadFailed}
      ensures r.Err? ==> FirstError(host.fails, data.Length, r.error) && !NoneBefore(host.fails, Calls(data.Length))
    {
      var size, first := data.Length, 2 + 2 * Blocks(data.Length);
      if host.fails(first) {
        ThisError(host.fails, size, first);
        return Err(SyncFailed);
      }
      OneMoreWorked(host.fails, first);
      if host.fails(first + 1) {
        ThisError(host.fails, size, first + 1);
        return Err(SeekFailed);
      }
      OneMoreWorked(host.fails, first + 1);
      offset := 0;
      var sampleBuf := new byte[if SAMPLE > size then size else SAMPLE](_ => 0);
      ReadFull(sampleBuf, host.read);
      if host.fails(first + 2) {
        ThisError(host.fails, size, first + 2);
        return Err(ReadFailed);
      }
      OneMoreWorked(host.fails, first + 2);
      assert forall i :: 0 <= i < data.Length ==> data[i] == data[..][i];
      assert sampleBuf[..] == SampleOf(size);
      return Ok(hash(sampleBuf[..]));
    }
  }
}
