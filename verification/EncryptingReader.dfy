/** `encrypting_reader` (support/src/utils/encrypting_reader.cpp): a seekable reader of the encrypted
    stream that encrypts one chunk at a time and keeps encrypted chunks in a cache. */
module EncryptingReader {
  import opened Bytes
  import opened ChunkMath
  import opened EncryptedFormat

  /** Stream offset `position` is byte `offset` of encrypted chunk `i`. */
  predicate LocatedInStream(job: Job, position: nat, i: nat, offset: nat)
    requires job.chunk > 0 && |job.ivs| == job.Chunks()
  {
    && i < job.Chunks()
    && offset < |job.CipherChunk(i)|
    && position == |job.header| + i * job.EncryptedChunkSize() + offset
  }

  lemma StreamStartsWithHeader(job: Job)
    requires job.Valid()
    ensures |job.header| <= |job.Stream()| && job.Stream()[..|job.header|] == job.header
    ensures job.source == [] <==> |job.Stream()| == |job.header|
  {
    hide Concat, Job.CipherChunk, Job.CipherChunks, DivideWithCeiling, Job.Valid, CalculateEncryptedSize;
    HeaderOnlyWhenEmpty(job);
    StreamLength(job);
  }

  lemma HeaderSlices(header: seq<byte>, stream: seq<byte>)
    requires |header| <= |stream| && stream[..|header|] == header
    ensures forall from: nat, to: nat :: from <= to <= |header| ==> stream[from..to] == header[from..to]
  {
    forall from: nat, to: nat | from <= to <= |header|
      ensures stream[from..to] == header[from..to]
    {
      SliceOfSlice(stream, 0, |header|, from, to - from);
    }
  }

  lemma HeaderOnlyWhenEmpty(job: Job)
    requires job.Valid()
    ensures job.chunk > 0 && |job.ivs| == job.Chunks()
    ensures var size := CalculateEncryptedSize(|job.source|, job.chunk, job.aead.HeaderSize(), |job.header|);
            size >= |job.header| && (size == |job.header| <==> job.source == [])
  {
    hide Aead.Lawful;
    CeilingBounds(|job.source|, job.chunk);
    MulMonotone(0, job.Chunks(), job.aead.HeaderSize());
  }

  /** Dividing by the encrypted chunk size finds the chunk of every offset behind the header. */
  lemma LocateInStream(job: Job, position: nat, i: nat, offset: nat)
    requires job.Valid() && position < |job.Stream()|
    requires position == |job.header| + i * job.EncryptedChunkSize() + offset && offset < job.EncryptedChunkSize()
    ensures LocatedInStream(job, position, i, offset)
  {
    hide Job.Stream, Concat, Job.CipherChunk, Job.EncryptedChunkSize, DivideWithCeiling;
    ChunkBeforeEnd(job, position, i, offset);
    CipherChunkLength(job, i);
    ChunkInStream(job, i);
  }

  lemma ChunkBeforeEnd(job: Job, position: nat, i: nat, offset: nat)
    requires job.Valid() && position < |job.Stream()|
    requires position == |job.header| + i * job.EncryptedChunkSize() + offset
    ensures i < job.Chunks()
  {
    hide Job.Stream, Concat, Job.CipherChunk, Job.EncryptedChunkSize, DivideWithCeiling;
    if i >= job.Chunks() {
      MulMonotone(job.Chunks(), i, job.EncryptedChunkSize());
      if job.Chunks() > 0 {
        ChunkInStream(job, job.Chunks() - 1);
        CipherChunkLength(job, job.Chunks() - 1);
        Distribute(job.Chunks() - 1, job.EncryptedChunkSize(), 0);
      } else {
        StreamWithoutChunks(job);
      }
    }
  }

  lemma StreamWithoutChunks(job: Job)
    requires job.chunk > 0 && |job.ivs| == job.Chunks() == 0
    ensures job.Stream() == job.header
  {
  }

  lemma LocatedBounds(job: Job, position: nat, i: nat, offset: nat)
    requires job.chunk > 0 && |job.ivs| == job.Chunks() && LocatedInStream(job, position, i, offset)
    ensures i < job.Chunks() && offset < |job.CipherChunk(i)|
  {
  }

  /** A chunk's bytes are the stream's bytes, and the byte behind a chunk is the next chunk's first. */
  lemma StreamStep(job: Job, position: nat, i: nat, offset: nat, toRead: nat)
    requires job.Valid() && LocatedInStream(job, position, i, offset)
    requires offset + toRead <= |job.CipherChunk(i)|
    ensures position + toRead <= |job.Stream()|
    ensures job.Stream()[position..position + toRead] == job.CipherChunk(i)[offset..offset + toRead]
    ensures offset + toRead == |job.CipherChunk(i)| && position + toRead < |job.Stream()| ==>
              LocatedInStream(job, position + toRead, i + 1, 0)
  {
    hide Job.Stream, Concat, Job.CipherChunk, Job.EncryptedChunkSize, DivideWithCeiling;
    ChunkInStream(job, i);
    var before, c := job.header + Concat(job.CipherChunks()[..i]), job.CipherChunks()[i];
    SliceAfterPrefix(before, c, job.Stream());
    SliceOfSlice(job.Stream(), |before|, |before| + |c|, offset, toRead);
    CipherChunkLength(job, i);
    if i + 1 < job.Chunks() {
      CipherChunkLength(job, i + 1);
      Distribute(i, job.EncryptedChunkSize(), 0);
    }
  }

  /** `total_chunks - 1` in the source's unsigned arithmetic, which wraps for an empty file. */
  function LastDataChunk(totalChunks: nat): nat {
    if totalChunks == 0 then 0xFFFF_FFFF_FFFF_FFFF else totalChunks - 1
  }

  /** Reading the plaintext of a chunk from the source file, sized as the reader sizes its buffer. */
  function FileData(job: Job, i: nat): seq<byte>
    requires job.chunk > 0 && i < job.Chunks()
  {
    ChunkExtent(|job.source|, job.chunk, i);
    LastChunkSizeIsRemainder(|job.source|, job.chunk);
    var size := if i == LastDataChunk(job.Chunks()) then LastChunkSize(|job.source|, job.chunk) else job.chunk;
    job.source[i * job.chunk..i * job.chunk + size]
  }

  lemma FileDataIsPlainChunk(job: Job, i: nat)
    requires job.chunk > 0 && i < job.Chunks()
    ensures FileData(job, i) == job.PlainChunk(i)
  {
    ChunkExtent(|job.source|, job.chunk, i);
    LastChunkSizeIsRemainder(|job.source|, job.chunk);
  }

  class EncryptingReader {
    const job: Job
    const usesKdf: bool
    const errorReturn: nat
    const totalSize: nat
    var chunkBuffers: map<nat, seq<byte>>
    var readOffset: nat

    /** Every cached chunk is its own fresh encryption. */
    ghost predicate Valid()
      reads this`chunkBuffers
    {
      && job.Valid()
      && (!usesKdf ==> job.header == [])
      && totalSize == |job.Stream()|
      && forall i :: i in chunkBuffers ==> i < job.Chunks() && chunkBuffers[i] == job.CipherChunk(i)
    }

    constructor (job: Job, usesKdf: bool, errorReturn: nat)
      requires job.Valid() && (!usesKdf ==> job.header == [])
      ensures Valid() && this.job == job && this.usesKdf == usesKdf && this.errorReturn == errorReturn
      ensures readOffset == 0
      ensures totalSize == CalculateEncryptedSize(|job.source|, job.chunk, job.aead.HeaderSize(), |job.header|)
    {
      StreamLength(job);
      this.job, this.usesKdf, this.errorReturn := job, usesKdf, errorReturn;
      this.totalSize := |job.source| + DivideWithCeiling(|job.source|, job.chunk) * job.aead.HeaderSize()
                        + (if usesKdf then |job.header| else 0);
      this.chunkBuffers, this.readOffset := map[], 0;
    }

    method SetReadPosition(position: nat)
      requires Valid()
      modifies this`readOffset
      ensures Valid() && readOffset == position
    {
      readOffset := position;
    }

    /** Fill the cache with chunk `i`, or drop the chunk before it when `i` is cached already. */
    method CacheChunk(i: nat)
      requires Valid() && i < job.Chunks()
      modifies this`chunkBuffers
      ensures Valid() && i in chunkBuffers
      ensures chunkBuffers == if i in old(chunkBuffers) then
                                (if i == 0 then old(chunkBuffers) else old(chunkBuffers) - {i - 1})
                              else old(chunkBuffers)[i := job.CipherChunk(i)]
    {
      hide FileData, EncryptData, Job.PlainChunk, Job.Stream, DivideWithCeiling;
      if i !in chunkBuffers {
        FileDataIsPlainChunk(job, i);
        chunkBuffers := chunkBuffers[i := EncryptData(job.aead, job.ivs[i], job.key, FileData(job, i))];
      } else if i != 0 {
        chunkBuffers := chunkBuffers - {i - 1};
      }
    }

    lemma StreamKnown()
      requires Valid()
      ensures job.Valid() && job.chunk > 0 && |job.ivs| == job.Chunks() && totalSize == |job.Stream()|
    {
    }

    lemma CachedChunk(i: nat)
      requires Valid() && i in chunkBuffers
      ensures job.chunk > 0 && |job.ivs| == job.Chunks() && i < job.Chunks() && chunkBuffers[i] == job.CipherChunk(i)
    {
    }

    /** One turn of the chunk loop: what chunk `i` has of the next `remain` stream bytes. */
    method ReadPiece(dest: array<byte>, totalRead: nat, remain: nat, i: nat, chunkOffset: nat) returns (toRead: nat)
      requires Valid() && 0 < remain && totalRead + remain <= dest.Length && readOffset + remain <= totalSize
      requires job.chunk > 0 && |job.ivs| == job.Chunks() && LocatedInStream(job, readOffset, i, chunkOffset)
      modifies this`chunkBuffers, this`readOffset, dest
      ensures Valid() && 0 < toRead <= remain && readOffset == old(readOffset) + toRead
      ensures totalSize == |job.Stream()| && readOffset <= totalSize
      ensures dest[..] == Patch(old(dest[..]), totalRead, job.Stream()[old(readOffset)..readOffset])
      ensures toRead < remain ==> LocatedInStream(job, readOffset, i + 1, 0)
    {
      hide Valid, Job.Valid, Job.Stream, Job.CipherChunk, LocatedInStream, Patch;
      StreamKnown();
      LocatedBounds(job, readOffset, i, chunkOffset);
      CacheChunk(i);
      CachedChunk(i);
      var chunkBuffer := chunkBuffers[i];
      toRead := Min(|chunkBuffer| - chunkOffset, remain);
      StreamStep(job, readOffset, i, chunkOffset, toRead);
      Copy(dest, totalRead, chunkBuffer[chunkOffset..chunkOffset + toRead]);
      readOffset := readOffset + toRead;
    }

    /** The chunk loop: the next `remain0` stream bytes, written into `dest` from `totalRead0` on. */
    method ReadChunks(dest: array<byte>, totalRead0: nat, remain0: nat, chunk0: nat, chunkOffset0: nat)
      requires Valid() && totalRead0 + remain0 <= dest.Length && readOffset + remain0 <= totalSize
      requires remain0 > 0 ==> LocatedInStream(job, readOffset, chunk0, chunkOffset0)
      modifies this, dest
      ensures Valid() && readOffset == old(readOffset) + remain0
      ensures dest[..] == Patch(old(dest[..]), totalRead0, job.Stream()[old(readOffset)..readOffset])
    {
      hide Valid, Job.Valid, Job.Stream, Job.CipherChunk, LocatedInStream, Patch;
      StreamKnown();
      var totalRead: nat, remain: nat, chunk: nat, chunkOffset: nat := totalRead0, remain0, chunk0, chunkOffset0;
      ghost var start, stream, before := readOffset, job.Stream(), dest[..];
      PatchNothing(before, totalRead0);
      assert stream[start..readOffset] == [];
      while remain != 0
        invariant Valid()
        invariant totalRead - totalRead0 == readOffset - start && totalRead + remain == totalRead0 + remain0
        invariant start <= readOffset && readOffset + remain <= |stream|
        invariant remain > 0 ==> LocatedInStream(job, readOffset, chunk, chunkOffset)
        invariant dest[..] == Patch(before, totalRead0, stream[start..readOffset])
      {
        ghost var position := readOffset;
        var toRead := ReadPiece(dest, totalRead, remain, chunk, chunkOffset);
        PatchTwice(before, totalRead0, stream[start..position], stream[position..readOffset]);
        SliceJoin(stream, start, position, readOffset);
        totalRead := totalRead + toRead;
        remain := remain - toRead;
        chunkOffset := 0;
        chunk := chunk + 1;
      }
    }

    /** How many bytes a read of `readSize` bytes at `position` delivers. */
    function Delivered(position: nat, readSize: nat): nat {
      if position < totalSize then Min(readSize, totalSize - position) else 0
    }

    /** A read at or behind the end fails; of an empty source only the header can be read, by reads
        that ask for no more than that. */
    predicate ReadFails(position: nat, readSize: nat) {
      readSize > 0 && (position >= totalSize || (job.source == [] && position + readSize > totalSize))
    }

    ghost function StreamRange(from: nat, to: nat): seq<byte> {
      if job.Valid() && from <= to <= |job.Stream()| then job.Stream()[from..to] else []
    }

    /** A read of `size` bytes at `at` delivers the bytes `from` to `to` of the source, sealed under `iv`. */
    ghost predicate DeliversSealed(at: int, size: int, iv: seq<byte>, from: int, to: int) {
      && 0 <= at && 0 <= size && 0 <= from < to <= |job.source|
      && Delivered(at, size) == size
      && IsSealed(job.aead, job.key, iv, job.source[from..to], StreamRange(at, at + size))
    }

    /** What a read of one whole chunk delivers: the slice of the source, sealed under the nonce of that chunk. */
    lemma DeliveredBytes(i: nat)
      requires Valid() && i < DivideWithCeiling(|job.source|, job.chunk)
      ensures var header := job.aead.nonceLen + job.aead.macLen;
              var from := i * job.chunk;
              var to := Min(from + job.chunk, |job.source|);
              && i < |job.ivs|
              && DeliversSealed(|job.header| + i * (job.chunk + header), to - from + header, job.ivs[i], from, to)
    {
      hide DivideWithCeiling, IsSealed, Job.Stream;
      StreamBytes(job, i);
    }

    lemma StreamRangeJoin(from: nat, middle: nat, to: nat)
      requires Valid() && from <= middle <= to <= totalSize
      ensures |StreamRange(from, middle)| == middle - from && |StreamRange(middle, to)| == to - middle
      ensures StreamRange(from, middle) + StreamRange(middle, to) == StreamRange(from, to)
    {
      hide Job.Stream;
      SliceJoin(job.Stream(), from, middle, to);
    }

    lemma HeaderFits()
      requires Valid()
      ensures |job.header| <= totalSize && (job.source == [] <==> totalSize == |job.header|)
      ensures !usesKdf ==> job.header == []
      ensures job.EncryptedChunkSize() > 0
      ensures forall from: nat, to: nat :: from <= to <= |job.header| ==> StreamRange(from, to) == job.header[from..to]
      ensures forall from: nat :: StreamRange(from, from) == []
    {
      hide Job.Stream, Aead.Lawful;
      StreamStartsWithHeader(job);
      HeaderSlices(job.header, job.Stream());
    }

    /** The part of a read that falls into the header. */
    method ReadHeader(buffer: array<byte>, readSize: nat) returns (toRead: nat)
      requires Valid() && usesKdf && readOffset < |job.header| && buffer.Length >= readSize
      modifies this`readOffset, buffer
      ensures Valid() && toRead == CalculateReadSize(|job.header|, readSize, old(readOffset))
      ensures readOffset == old(readOffset) + toRead && toRead <= readSize
      ensures readOffset <= |job.header| && |StreamRange(old(readOffset), readOffset)| == toRead
      ensures buffer[..] == Patch(old(buffer[..]), 0, StreamRange(old(readOffset), readOffset))
    {
      hide Valid, Job.Valid, Patch, StreamRange, Job.EncryptedChunkSize;
      HeaderFits();
      var offset := readOffset;
      toRead := CalculateReadSize(|job.header|, readSize, offset);
      SetReadPosition(readOffset + toRead);
      Copy(buffer, 0, job.header[offset..offset + toRead]);
    }

    /**
     One read of `readSize` (`size * nitems`) bytes. It delivers the stream from the reader's position,
     as much as was asked for or as is left, moves on by as much, and leaves the rest of the buffer alone.
     */
    method ReaderFunction(buffer: array<byte>, readSize: nat) returns (ret: nat)
      requires Valid() && buffer.Length >= readSize
      modifies this, buffer
      ensures Valid()
      ensures readOffset == old(readOffset) + Delivered(old(readOffset), readSize)
      ensures ret == if ReadFails(old(readOffset), readSize) then errorReturn else readOffset - old(readOffset)
      ensures |StreamRange(old(readOffset), readOffset)| <= buffer.Length
      ensures buffer[..] == Patch(old(buffer[..]), 0, StreamRange(old(readOffset), readOffset))
    {
      hide Valid, Job.Valid, Patch, StreamRange, Job.EncryptedChunkSize;
      PatchNothing(buffer[..], 0);
      HeaderFits();
      if readSize == 0 {
        return 0;
      }
      var bodyOffset: nat, wanted: nat, totalRead: nat, bodySize: nat := readOffset, readSize, 0, totalSize;
      ghost var before, position := buffer[..], readOffset;
      if usesKdf {
        bodySize := bodySize - |job.header|;
        if bodyOffset < |job.header| {
          var toRead := ReadHeader(buffer, wanted);
          if wanted - toRead == 0 {
            return toRead;
          }
          bodyOffset := 0;
          wanted := wanted - toRead;
          totalRead := totalRead + toRead;
        } else {
          bodyOffset := bodyOffset - |job.header|;
        }
      }

      var remain: nat := CalculateReadSize(bodySize, wanted, bodyOffset);
      if bodyOffset >= bodySize {
        return errorReturn;
      }
      StreamRangeJoin(position, readOffset, readOffset + remain);
      PatchTwice(before, 0, StreamRange(position, readOffset), StreamRange(readOffset, readOffset + remain));
      ReadBody(buffer, totalRead, remain, bodyOffset);
      return totalRead + remain;
    }

    /** From an offset behind the header to the chunk that holds it, then the chunk loop. */
    method ReadBody(dest: array<byte>, totalRead: nat, remain: nat, bodyOffset: nat)
      requires Valid() && totalRead + remain <= dest.Length && 0 < remain && readOffset + remain <= totalSize
      requires readOffset == |job.header| + bodyOffset
      modifies this, dest
      ensures Valid() && readOffset == old(readOffset) + remain
      ensures |StreamRange(old(readOffset), readOffset)| == remain
      ensures dest[..] == Patch(old(dest[..]), totalRead, StreamRange(old(readOffset), readOffset))
    {
      hide Job.Stream, Job.EncryptedChunkSize, LocatedInStream, DivideWithCeiling, Concat, Job.CipherChunk, Patch;
      DivMod(bodyOffset, job.EncryptedChunkSize());
      var chunk, chunkOffset := bodyOffset / job.EncryptedChunkSize(), bodyOffset % job.EncryptedChunkSize();
      LocateInStream(job, readOffset, chunk, chunkOffset);
      ReadChunks(dest, totalRead, remain, chunk, chunkOffset);
    }
  }

  /** `memcpy` into `dest` at `at`. */
  method Copy(dest: array<byte>, at: nat, bytes: seq<byte>)
    requires at + |bytes| <= dest.Length
    modifies dest
    ensures dest[..] == Patch(old(dest[..]), at, bytes)
  {
    forall k | 0 <= k < |bytes| {
      dest[at + k] := bytes[k];
    }
  }
}
