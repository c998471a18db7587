/** `read_encrypted_range` (support/src/utils/encryption.cpp): an arbitrary byte range of the
    plaintext, from only the encrypted chunks it touches. */
module RangeReader {
  import opened Bytes
  import opened ChunkMath
  import opened EncryptedFormat

  /** The caller's fetch callback: the bytes from the first to the last offset, both included. */
  type ReaderFunc = (nat, nat) -> Option<seq<byte>>

  /** Everything that stays the same during one call. */
  datatype Query = Query(aead: Aead, chunk: nat, key: Key, reader: ReaderFunc, totalSize: nat, fileHeaderSize: nat)
  {
    ghost predicate Valid() {
      && chunk > 0
      && aead.Lawful()
      && forall a: nat, b: nat :: a <= b && reader(a, b).Some? ==> |reader(a, b).value| == b - a + 1
    }

    function StartOffset(i: nat): nat {
      i * (chunk + aead.HeaderSize()) + fileHeaderSize
    }

    function EndOffset(i: nat): int {
      Min(StartOffset(i) + (totalSize - i * chunk) + aead.HeaderSize() - 1,
          StartOffset(i) + (chunk + aead.HeaderSize()) - 1)
    }

    /** The plaintext bytes chunk `i` stands for. */
    function PlainSize(i: nat): int {
      Min(chunk, totalSize - i * chunk)
    }

    /** Fetch and authenticate chunk `i`. */
    function Fetch(i: nat): Option<seq<byte>> {
      if EndOffset(i) < 0 then None
      else
        match reader(StartOffset(i), EndOffset(i))
        case None => None
        case Some(cipher) => DecryptData(aead, key, cipher)
    }

    /** Chunk `i` fetches and decrypts to the bytes of `source` in its extent. */
    predicate ServesChunk(i: nat, source: seq<byte>)
      requires chunk > 0 && |source| == totalSize && i < DivideWithCeiling(totalSize, chunk)
    {
      ChunkExtent(totalSize, chunk, i);
      Fetch(i) == Some(source[i * chunk..Min((i + 1) * chunk, totalSize)])
    }

    /** Chunk `i` holds a byte of the range `[begin, end]`. */
    predicate Touches(begin: nat, end: nat, i: nat)
      requires chunk > 0
    {
      RangeLength(begin, end, totalSize) > 0 && ChunkAt(chunk, begin) <= i <= ChunkAt(chunk, Min(end, totalSize - 1))
    }

    ghost predicate Serves(source: seq<byte>) {
      chunk > 0 && |source| == totalSize &&
      forall i: nat :: i < DivideWithCeiling(totalSize, chunk) ==> ServesChunk(i, source)
    }
  }

  /** How many plaintext bytes the inclusive range `[begin, end]` holds. */
  function RangeLength(begin: nat, end: nat, totalSize: nat): nat {
    var last := Min(end, totalSize - 1);
    if last < begin then 0 else last - begin + 1
  }

  /** `length` bytes of `source` from `begin`; a range past the end is empty. */
  function Range(source: seq<byte>, begin: nat, length: nat): seq<byte> {
    if begin + length <= |source| then source[begin..begin + length] else []
  }

  /** A vector grows by `size` zero bytes, a span keeps its extent. */
  function ResizeBy(data: seq<byte>, growable: bool, size: nat): (r: seq<byte>)
    ensures |r| == (if growable then |data| + size else |data|)
  {
    if growable then data + Zeros(size) else data
  }

  /** `whole` with its first bytes overwritten by `front`. */
  function Overlay(front: seq<byte>, whole: seq<byte>): seq<byte> {
    if |front| <= |whole| then front + whole[|front|..] else front
  }

  lemma ResizeByTwice(data: seq<byte>, growable: bool, a: nat, b: nat)
    ensures ResizeBy(ResizeBy(data, growable, a), growable, b) == ResizeBy(data, growable, a + b)
  {
    assert Zeros(a) + Zeros(b) == Zeros(a + b);
    assert data + Zeros(a) + Zeros(b) == data + (Zeros(a) + Zeros(b));
  }

  /** The requested extent of chunk `i` is never empty, and holds its header and its share of the file. */
  lemma RequestedExtent(q: Query, i: nat)
    requires q.chunk > 0 && i < DivideWithCeiling(q.totalSize, q.chunk)
    ensures q.EndOffset(i) - q.StartOffset(i) + 1
         == q.aead.HeaderSize() + q.PlainSize(i)
    ensures q.EndOffset(i) >= q.StartOffset(i)
  {
    ChunkExtent(q.totalSize, q.chunk, i);
  }

  lemma FetchedLength(q: Query, i: nat)
    requires q.Valid() && i < DivideWithCeiling(q.totalSize, q.chunk) && q.Fetch(i).Some?
    ensures |q.Fetch(i).value| == q.PlainSize(i)
  {
    RequestedExtent(q, i);
  }

  /** Plaintext offset `position` is byte `offset` of chunk `i`. */
  predicate LocatedAt(d: nat, position: nat, i: nat, offset: nat) {
    position == i * d + offset && offset < d
  }

  function ChunkAt(d: nat, position: nat): nat
    requires d > 0
  {
    position / d
  }

  function OffsetAt(d: nat, position: nat): nat
    requires d > 0
  {
    position % d
  }

  lemma Locate(d: nat, position: nat)
    requires d > 0
    ensures LocatedAt(d, position, ChunkAt(d, position), OffsetAt(d, position))
  {
  }

  lemma LocatedInOrder(d: nat, a: nat, i: nat, ai: nat, b: nat, j: nat, bj: nat)
    requires a <= b && LocatedAt(d, a, i, ai) && LocatedAt(d, b, j, bj)
    ensures i <= j
  {
    Distribute(j, d, 0);
    MulCancel(i, j + 1, d);
  }

  /** One turn of the copy loop either ends the range or stops at the next chunk's first byte. */
  lemma RangeStep(q: Query, last: nat, lastOffset: nat, position: nat, chunk: nat, endChunk: nat, offset: nat)
    requires LocatedAt(q.chunk, last, endChunk, lastOffset) && last < q.totalSize
    requires LocatedAt(q.chunk, position, chunk, offset) && position <= last && chunk <= endChunk
    ensures offset < q.chunk
    ensures var size := if last - position + 1 <= q.chunk - offset then last - position + 1 else q.chunk - offset;
            && (if chunk == endChunk then position + size == last + 1
                else position + size <= last && LocatedAt(q.chunk, position + size, chunk + 1, 0))
            && offset + size <= q.PlainSize(chunk)
    ensures chunk < DivideWithCeiling(q.totalSize, q.chunk)
  {
    Distribute(chunk, q.chunk, 0);
    if chunk < endChunk {
      MulMonotone(chunk + 1, endChunk, q.chunk);
    }
    CeilingBounds(q.totalSize, q.chunk);
    MulCancel(chunk, DivideWithCeiling(q.totalSize, q.chunk), q.chunk);
  }

  /** The buffer after `done` has been copied to its front, and what `done` is. */
  ghost predicate Copied(q: Query, source: seq<byte>, begin: nat, data0: seq<byte>, growable: bool,
                         done: seq<byte>, data: seq<byte>)
  {
    && data == Overlay(done, ResizeBy(data0, growable, |done|))
    && (q.Serves(source) ==> done == Range(source, begin, |done|))
  }

  lemma NothingCopied(q: Query, source: seq<byte>, begin: nat, data0: seq<byte>, growable: bool)
    requires q.Valid() && begin < q.totalSize
    ensures Copied(q, source, begin, data0, growable, [], data0)
  {
    assert ResizeBy(data0, growable, 0) == data0;
  }

  /** What is copied from a fetched chunk continues the plaintext copied before it. */
  lemma PieceContinuesRange(q: Query, i: nat, source: seq<byte>, begin: nat, done: seq<byte>, offset: nat, size: nat)
    requires q.Valid() && i < DivideWithCeiling(q.totalSize, q.chunk) && q.Fetch(i).Some?
    requires LocatedAt(q.chunk, begin + |done|, i, offset) && offset + size <= q.PlainSize(i)
    ensures offset + size <= |q.Fetch(i).value|
    ensures q.Serves(source) && done == Range(source, begin, |done|) ==>
              done + q.Fetch(i).value[offset..offset + size] == Range(source, begin, |done| + size)
  {
    FetchedLength(q, i);
    if q.Serves(source) && done == Range(source, begin, |done|) {
      assert q.ServesChunk(i, source);
      ChunkExtent(q.totalSize, q.chunk, i);
      PieceAt(source, begin, done, i * q.chunk, Min((i + 1) * q.chunk, q.totalSize), offset, size);
    }
  }

  lemma PieceAt(source: seq<byte>, begin: nat, done: seq<byte>, lo: nat, hi: nat, offset: nat, size: nat)
    requires lo + offset + size <= hi <= |source| && begin + |done| == lo + offset
    requires done == Range(source, begin, |done|)
    ensures done + source[lo..hi][offset..offset + size] == Range(source, begin, |done| + size)
  {
    SliceOfSlice(source, lo, hi, offset, size);
    var position := begin + |done|;
    assert source[begin..position] + source[position..position + size] == source[begin..position + size];
  }

  /** Growing the buffer and writing one piece behind the bytes already delivered. */
  lemma OverlayStep(done: seq<byte>, data0: seq<byte>, growable: bool, piece: seq<byte>, grown: seq<byte>)
    requires !growable ==> |data0| >= |done| + |piece|
    requires grown == ResizeBy(Overlay(done, ResizeBy(data0, growable, |done|)), growable, |piece|)
    ensures |done| + |piece| <= |grown|
    ensures grown[..|done|] + piece + grown[|done| + |piece|..]
         == Overlay(done + piece, ResizeBy(data0, growable, |done| + |piece|))
  {
    var before := ResizeBy(data0, growable, |done|);
    ResizeByTwice(data0, growable, |done|, |piece|);
    assert grown == done + ResizeBy(before, growable, |piece|)[|done|..];
  }

  lemma CopyStep(q: Query, i: nat, source: seq<byte>, begin: nat, data0: seq<byte>, growable: bool,
                 done: seq<byte>, data: seq<byte>, offset: nat, piece: seq<byte>, grown: seq<byte>)
    requires q.Valid() && i < DivideWithCeiling(q.totalSize, q.chunk) && q.Fetch(i).Some?
    requires LocatedAt(q.chunk, begin + |done|, i, offset) && offset + |piece| <= q.PlainSize(i)
    requires offset + |piece| <= |q.Fetch(i).value| && piece == q.Fetch(i).value[offset..offset + |piece|]
    requires !growable ==> |data0| >= |done| + |piece|
    requires Copied(q, source, begin, data0, growable, done, data)
    requires grown == ResizeBy(data, growable, |piece|)
    ensures |done| + |piece| <= |grown|
    ensures Copied(q, source, begin, data0, growable, done + piece,
                   grown[..|done|] + piece + grown[|done| + |piece|..])
  {
    hide ResizeBy, Overlay, Range, Query.Fetch, Query.Serves, Query.Valid, Query.PlainSize, LocatedAt,
         DivideWithCeiling, DecryptData, Query.StartOffset, Query.EndOffset, Aead.HeaderSize;
    OverlayStep(done, data0, growable, piece, grown);
    PieceContinuesRange(q, i, source, begin, done, offset, |piece|);
  }

  /** The copy loop over chunks `[startChunk, endChunk]`, from plaintext offset `begin` to `last`. */
  method CopyChunks(q: Query, begin: nat, last: nat, startChunk: nat, startOffset: nat, endChunk: nat,
                    data0: seq<byte>, growable: bool, ghost lastOffset: nat, ghost source: seq<byte>)
    returns (ok: bool, data: seq<byte>, bytesRead: nat, ghost done: seq<byte>)
    requires q.Valid() && begin <= last < q.totalSize && startChunk <= endChunk
    requires LocatedAt(q.chunk, begin, startChunk, startOffset)
    requires LocatedAt(q.chunk, last, endChunk, lastOffset)
    requires !growable ==> |data0| >= last - begin + 1
    ensures ok <==> forall i: nat :: startChunk <= i <= endChunk ==> q.Fetch(i).Some?
    ensures ok ==> bytesRead == last - begin + 1 && |done| == bytesRead
    ensures ok ==> Copied(q, source, begin, data0, growable, done, data)
  {
    hide *;
    ok, data, bytesRead := true, data0, 0;
    var chunk: nat, sourceOffset: nat, remain: nat := startChunk, startOffset, last - begin + 1;
    done := [];
    NothingCopied(q, source, begin, data0, growable);
    while chunk <= endChunk
      invariant startChunk <= chunk <= endChunk + 1
      invariant bytesRead + remain == last - begin + 1 && |done| == bytesRead
      invariant chunk <= endChunk ==> LocatedAt(q.chunk, begin + |done|, chunk, sourceOffset)
      invariant remain > 0 <==> chunk <= endChunk
      invariant Copied(q, source, begin, data0, growable, done, data)
      invariant forall i: nat :: startChunk <= i < chunk ==> q.Fetch(i).Some?
    {
      var sourceBuffer := q.Fetch(chunk);
      if sourceBuffer.None? {
        ok := false;
        return;
      }

      RangeStep(q, last, lastOffset, begin + |done|, chunk, endChunk, sourceOffset);
      var dataSize: nat := if remain <= q.chunk - sourceOffset then remain else q.chunk - sourceOffset;
      FetchedLength(q, chunk);
      var piece := sourceBuffer.value[sourceOffset..sourceOffset + dataSize];
      ghost var before := data;
      data := ResizeBy(data, growable, dataSize);
      CopyStep(q, chunk, source, begin, data0, growable, done, before, sourceOffset, piece, data);
      data := data[..bytesRead] + piece + data[bytesRead + dataSize..];
      done := done + piece;
      remain := remain - dataSize;
      bytesRead := bytesRead + dataSize;
      sourceOffset := 0;
      chunk := chunk + 1;
    }
  }

  /**
   `data0` is the caller's buffer. A vector is grown chunk by chunk but written from its front, so
   the plaintext lands in front of whatever the buffer held before. `source` is any plaintext the
   fetched chunks decrypt to.
   */
  method ReadEncryptedRange(q: Query, begin: nat, end: nat, data0: seq<byte>, growable: bool, ghost source: seq<byte>)
    returns (ok: bool, data: seq<byte>, bytesRead: nat)
    requires q.Valid()
    requires !growable ==> |data0| >= RangeLength(begin, end, q.totalSize)
    ensures ok <==> forall i: nat :: q.Touches(begin, end, i) ==> q.Fetch(i).Some?
    ensures ok ==> bytesRead == RangeLength(begin, end, q.totalSize)
    ensures ok && q.Serves(source) ==>
              data == Overlay(Range(source, begin, bytesRead), ResizeBy(data0, growable, bytesRead))
  {
    hide Query.Fetch, Query.Serves, Query.Valid, ResizeBy, Overlay, Range, LocatedAt, ChunkAt, OffsetAt;
    ok, data, bytesRead := true, data0, 0;
    NothingRead(q, data0, growable, source, begin);
    if q.totalSize == 0 || begin >= q.totalSize {
      return;
    }
    var last := if end > q.totalSize - 1 then q.totalSize - 1 else end;
    if last < begin {
      return;
    }
    Locate(q.chunk, begin);
    Locate(q.chunk, last);
    var startChunk, endChunk := ChunkAt(q.chunk, begin), ChunkAt(q.chunk, last);
    LocatedInOrder(q.chunk, begin, startChunk, OffsetAt(q.chunk, begin), last, endChunk, OffsetAt(q.chunk, last));
    ghost var done;
    ok, data, bytesRead, done :=
      CopyChunks(q, begin, last, startChunk, OffsetAt(q.chunk, begin), endChunk, data0, growable,
                 OffsetAt(q.chunk, last), source);
  }

  lemma NothingRead(q: Query, data0: seq<byte>, growable: bool, source: seq<byte>, begin: nat)
    requires q.Valid()
    ensures q.chunk > 0 && Overlay(Range(source, begin, 0), ResizeBy(data0, growable, 0)) == data0
  {
    assert ResizeBy(data0, growable, 0) == data0;
  }

  // ---- reading back what an encrypting reader produced ----

  /** A callback that hands out slices of one encrypted file. */
  function SliceReader(stream: seq<byte>): ReaderFunc {
    (a: nat, b: nat) => if a <= b < |stream| then Some(stream[a..b + 1]) else None
  }

  function QueryOf(job: Job): Query
    requires job.chunk > 0 && |job.ivs| == job.Chunks()
  {
    Query(job.aead, job.chunk, job.key, SliceReader(job.Stream()), |job.source|, |job.header|)
  }

  /** The extent asked for chunk `i` is exactly where the stream keeps it. */
  lemma ExtentInStream(job: Job, i: nat)
    requires job.Valid() && i < job.Chunks()
    ensures var q := QueryOf(job);
            && q.StartOffset(i) == |job.header| + |Concat(job.CipherChunks()[..i])|
            && q.EndOffset(i) + 1 == q.StartOffset(i) + |job.CipherChunks()[i]|
  {
    hide DivideWithCeiling, Job.Stream, Job.CipherChunk, Job.CipherChunks, Concat, SliceReader;
    ChunkInStream(job, i);
    CipherChunkLength(job, i);
    ChunkExtent(|job.source|, job.chunk, i);
  }

  lemma StreamServesChunk(job: Job, i: nat)
    requires job.Valid() && i < job.Chunks()
    ensures QueryOf(job).Fetch(i) == Some(job.PlainChunk(i))
  {
    hide Query.StartOffset, Query.EndOffset, Job.Stream, Job.CipherChunk, Aead.HeaderSize, DecryptData,
         DivideWithCeiling, Job.PlainChunk, Concat;
    ExtentInStream(job, i);
    ChunkInStream(job, i);
    CipherChunkDecrypts(job, i);
    SliceAfterPrefix(job.header + Concat(job.CipherChunks()[..i]), job.CipherChunks()[i], job.Stream());
  }

  /** Every stream answers a range query on itself with its own source. */
  lemma StreamServesSource(job: Job)
    requires job.Valid()
    ensures QueryOf(job).Valid()
    ensures QueryOf(job).Serves(job.source)
  {
    var q := QueryOf(job);
    forall i: nat | i < DivideWithCeiling(q.totalSize, q.chunk)
      ensures q.ServesChunk(i, job.source)
    {
      StreamServesChunk(job, i);
    }
  }

  lemma StreamServesTouched(job: Job, begin: nat, end: nat)
    requires job.Valid()
    ensures forall i: nat :: QueryOf(job).Touches(begin, end, i) ==> QueryOf(job).Fetch(i).Some?
  {
    StreamServesSource(job);
    var q := QueryOf(job);
    forall i: nat | q.Touches(begin, end, i)
      ensures q.Fetch(i).Some?
    {
      OffsetInChunk(q.totalSize, q.chunk, Min(end, q.totalSize - 1));
      assert q.ServesChunk(i, job.source);
    }
  }

  /**
   The round trip: for every source, key, nonce list, header and range, reading the range out of the
   encrypted stream yields the source's bytes from `begin` up to and including `end`, cut at the end
   of the file; an empty range, or one past the end, yields nothing.
   */
  method ReadRangeOfStream(job: Job, begin: nat, end: nat) returns (ok: bool, data: seq<byte>, bytesRead: nat)
    requires job.Valid()
    ensures ok && bytesRead == |data|
    ensures begin <= end && begin < |job.source| ==> data == job.source[begin..Min(end + 1, |job.source|)]
    ensures begin > end || begin >= |job.source| ==> data == []
  {
    hide Query.Fetch, Job.Stream, SliceReader, Query.StartOffset, Query.EndOffset;
    StreamServesSource(job);
    StreamServesTouched(job, begin, end);
    ok, data, bytesRead := ReadEncryptedRange(QueryOf(job), begin, end, [], true, job.source);
    assert ResizeBy([], true, bytesRead)[bytesRead..] == [];
  }
}
