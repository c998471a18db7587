/** `enc_file` (support/src/utils/file_enc_file.cpp): plaintext reads, size and shrinking of a local
    encrypted file without a KDF header. */
module EncFile {
  import opened Bytes
  import opened ChunkMath
  import opened EncryptedFormat
  import opened RangeReader

  /** The file of only the first `n` chunks of the plaintext, all of them full. */
  function Shortened(job: Job, n: nat): Job
    requires 0 <= n * job.chunk <= |job.source| && n <= |job.ivs|
  {
    job.(source := job.source[..n * job.chunk], ivs := job.ivs[..n])
  }

  /** The size `truncate` cuts the encrypted file to. */
  function RealSize(size: nat, chunk: nat, header: nat): nat
    requires chunk > 0
  {
    var chunks, remain := size / chunk, size % chunk;
    DivMod(size, chunk);
    MulMonotone(0, chunks, chunk);
    MulMonotone(0, chunks, header);
    chunks * chunk + chunks * header + (if remain > 0 then remain + header else 0)
  }

  /** It is the size of the encrypted form of `size` bytes. */
  lemma RealSizeIsEncryptedSize(size: nat, chunk: nat, header: nat)
    requires chunk > 0
    ensures RealSize(size, chunk, header) == CalculateEncryptedSize(size, chunk, header, 0)
  {
    DivMod(size, chunk);
    Distribute(size / chunk, header, 0);
  }

  lemma FullChunks(size: nat, chunk: nat, n: nat)
    requires chunk > 0 && n * chunk <= size
    ensures 0 <= n * chunk && DivideWithCeiling(n * chunk, chunk) == n <= DivideWithCeiling(size, chunk)
  {
    MulMonotone(0, n, chunk);
    if n > 0 {
      Distribute(n - 1, chunk, 0);
      MulMonotone(1, n, chunk);
    }
    CeilingUnique(n * chunk, chunk, n);
    CeilingBounds(size, chunk);
    MulCancel(n - 1, DivideWithCeiling(size, chunk), chunk);
  }

  lemma ShortenedValid(job: Job, n: nat)
    requires job.Valid() && n * job.chunk <= |job.source|
    ensures 0 <= n * job.chunk && n <= |job.ivs| && Shortened(job, n).Valid() && Shortened(job, n).Chunks() == n
  {
    FullChunks(|job.source|, job.chunk, n);
  }

  lemma ShortenedPlain(job: Job, n: nat, i: nat)
    requires job.Valid() && 0 <= n * job.chunk <= |job.source| && n <= |job.ivs| && i < n
    requires Shortened(job, n).Valid() && Shortened(job, n).Chunks() == n
    ensures i < job.Chunks() && Shortened(job, n).PlainChunk(i) == job.PlainChunk(i)
  {
    hide DivideWithCeiling, Aead.Lawful;
    ChunkExtent(n * job.chunk, job.chunk, i);
    ChunkExtent(|job.source|, job.chunk, i);
    MulMonotone(i + 1, n, job.chunk);
    var lo: nat, hi: nat, end: nat := i * job.chunk, (i + 1) * job.chunk, n * job.chunk;
    SliceOfSlice(job.source, 0, end, lo, hi - lo);
  }

  lemma ShortenedChunk(job: Job, n: nat, i: nat)
    requires job.Valid() && 0 <= n * job.chunk <= |job.source| && n <= |job.ivs| && i < n
    requires Shortened(job, n).Valid() && Shortened(job, n).Chunks() == n
    ensures Shortened(job, n).CipherChunks()[i] == job.CipherChunks()[i]
  {
    hide EncryptData, DivideWithCeiling, Job.PlainChunk, Aead.Lawful;
    ShortenedPlain(job, n, i);
  }

  /** Cutting the encrypted file behind `n` whole chunks leaves the encrypted form of the prefix. */
  lemma CutStream(job: Job, n: nat)
    requires job.Valid() && job.header == [] && n * job.chunk <= |job.source|
    ensures 0 <= n * job.chunk && n <= |job.ivs| && Shortened(job, n).Valid()
    ensures Shortened(job, n).Stream() <= job.Stream()
    ensures |Shortened(job, n).Stream()| == RealSize(n * job.chunk, job.chunk, job.aead.HeaderSize())
  {
    hide Concat, Job.CipherChunk, RealSize, CalculateEncryptedSize, DivideWithCeiling;
    ShortenedValid(job, n);
    var cut := Shortened(job, n);
    forall i: nat | i < n
      ensures cut.CipherChunks()[i] == job.CipherChunks()[i]
    {
      ShortenedChunk(job, n, i);
    }
    assert cut.CipherChunks() == job.CipherChunks()[..n];
    ConcatPrefix(job.CipherChunks(), n);
    StreamLength(cut);
    RealSizeIsEncryptedSize(n * job.chunk, job.chunk, job.aead.HeaderSize());
  }

  function Cut<T>(s: seq<T>, n: nat): seq<T> {
    if n <= |s| then s[..n] else s
  }

  /** The file of only the first `size` bytes of the plaintext. */
  function PrefixJob(job: Job, size: nat): Job {
    job.(source := Cut(job.source, size), ivs := Cut(job.ivs, DivideWithCeiling(size, job.chunk)))
  }

  predicate IsMultiple(size: nat, chunk: nat) {
    chunk > 0 && size % chunk == 0
  }

  /** Shrinking to a whole number of chunks cuts the encrypted file to that of the prefix. */
  lemma CutToPrefix(job: Job, size: nat)
    requires job.Valid() && job.header == [] && size <= |job.source| && IsMultiple(size, job.chunk)
    ensures PrefixJob(job, size).Valid() && PrefixJob(job, size).Stream() <= job.Stream()
    ensures |PrefixJob(job, size).Stream()| == RealSize(size, job.chunk, job.aead.HeaderSize())
  {
    hide Job.Valid, Job.Stream, RealSize, DivideWithCeiling;
    ChunkIsPositive(job);
    DivMod(size, job.chunk);
    FullChunks(|job.source|, job.chunk, size / job.chunk);
    CutStream(job, size / job.chunk);
  }

  lemma ChunkIsPositive(job: Job)
    requires job.Valid()
    ensures job.chunk > 0
  {
  }

  class EncFile {
    const aead: Aead
    const chunk: nat
    const key: Key
    var data: seq<byte>

    /** The file holds the encrypted form of `job.source`. */
    ghost predicate Holds(job: Job)
      reads this
    {
      job.Valid() && job.header == [] && job.aead == aead && job.chunk == chunk && job.key == key &&
      data == job.Stream()
    }

    method Size(ghost job: Job) returns (size: nat)
      requires Holds(job)
      ensures size == |job.source|
    {
      StreamLength(job);
      DecryptedSizeOfEncryptedSize(|job.source|, chunk, aead.HeaderSize(), 0);
      size := CalculateDecryptedSize(|data|, chunk, aead.HeaderSize(), 0);
    }

    /** Any read delivers the plaintext from `offset` on, as much as was asked for or as there is. */
    method Read(toRead: nat, offset: nat, buffer: seq<byte>, ghost job: Job)
      returns (ok: bool, bytes: seq<byte>, totalRead: nat)
      requires Holds(job) && |buffer| >= toRead
      ensures ok && totalRead == CalculateReadSize(|job.source|, toRead, offset)
      ensures bytes == Overlay(Range(job.source, offset, totalRead), buffer)
    {
      hide Query.Fetch, Job.Stream, Query.StartOffset, Query.EndOffset, SliceReader;
      var fileSize := Size(job);
      var size: nat := CalculateReadSize(fileSize, toRead, offset);
      if size == 0 {
        return true, buffer, 0;
      }
      var q := Query(aead, chunk, key, SliceReader(data), fileSize, 0);
      assert q == QueryOf(job);
      StreamServesSource(job);
      StreamServesTouched(job, offset, offset + size - 1);
      ok, bytes, totalRead := ReadEncryptedRange(q, offset, offset + size - 1, buffer, false, job.source);
    }

    /**
     Zero and the present size always succeed, and so does shrinking to a whole number of chunks: the
     file then holds exactly the prefix. Every other size is refused; a shrinking one has cut the
     file by then.
     */
    method Truncate(size: nat, ghost job: Job) returns (ok: bool)
      requires Holds(job)
      modifies this`data
      ensures ok <==> size == 0 || size == |job.source| || (size < |job.source| && IsMultiple(size, chunk))
      ensures ok && size == |job.source| && size > 0 ==> data == old(data)
      ensures ok && 0 < size < |job.source| ==> Holds(PrefixJob(job, size))
      ensures size == 0 ==> data == []
      ensures !ok ==>
                data == if size < |job.source| then Cut(old(data), RealSize(size, chunk, aead.HeaderSize()))
                        else old(data)
    {
      hide Job.Valid, Job.Stream, CalculateEncryptedSize, RealSize, DivideWithCeiling;
      ChunkIsPositive(job);
      if size == 0 {
        data := [];
        return true;
      }
      var fileSize := Size(job);
      if size == fileSize {
        return true;
      }
      var realSize := RealSize(size, chunk, aead.HeaderSize());
      if size < fileSize {
        if IsMultiple(size, chunk) {
          CutToPrefix(job, size);
          data := data[..realSize];
          return true;
        }
        // the last chunk is read, the file is cut, and the write that should follow is not implemented
        data := Cut(data, realSize);
        return false;
      }
      return false;
    }
  }
}
