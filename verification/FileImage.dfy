/**
 What a lazily downloaded, writable file means: a local file of which only some chunks are real, the
 provider's bytes behind the others, and the flat byte string both stand for.
 */
module FileImage {
  import opened Bytes
  import opened ChunkMath

  /** `bits[c]` says that chunk `c` of the local file is real; `logical` is what a reader must see. */
  datatype Image = Image(chunk: nat, provider: seq<byte>, local: seq<byte>, bits: seq<bool>, logical: seq<byte>,
                         sized: bool)

  // ---- file primitives ----

  /** `truncate`: cut, or extend with zeros. */
  function Truncated(s: seq<byte>, size: nat): (r: seq<byte>)
    ensures |r| == size
  {
    if size <= |s| then s[..size] else s + Zeros(size - |s|)
  }

  /** A file write: zeros fill a gap behind the end, and an empty write changes nothing. */
  function WriteAt(s: seq<byte>, offset: nat, data: seq<byte>): (r: seq<byte>)
    ensures |r| == (if data == [] || offset + |data| <= |s| then |s| else offset + |data|)
  {
    if data == [] then s
    else if offset + |data| <= |s| then Patch(s, offset, data)
    else Truncated(s, offset) + data
  }

  lemma WriteAtByte(s: seq<byte>, offset: nat, data: seq<byte>, j: nat)
    requires j < |WriteAt(s, offset, data)|
    ensures WriteAt(s, offset, data)[j] ==
            if offset <= j < offset + |data| then data[j - offset] else if j < |s| then s[j] else 0
  {
  }

  /** The provider hands out the bytes it has in the requested range and reads short past its end. */
  function ProviderRange(provider: seq<byte>, offset: nat, size: nat): seq<byte> {
    if offset >= |provider| then [] else provider[offset..Min(offset + size, |provider|)]
  }

  // ---- chunks ----

  function ChunkOf(j: nat, chunk: nat): nat
    requires chunk > 0
  {
    j / chunk
  }

  lemma ChunkOfUnique(j: nat, chunk: nat, c: nat)
    requires chunk > 0
    ensures ChunkOf(j, chunk) == c <==> c * chunk <= j < (c + 1) * chunk
  {
    DivMod(j, chunk);
    Distribute(ChunkOf(j, chunk), chunk, 0);
    if c * chunk <= j < (c + 1) * chunk {
      QuotientUnique(j, chunk, c);
    }
  }

  lemma ChunkOfInFile(j: nat, size: nat, chunk: nat)
    requires chunk > 0 && j < size
    ensures ChunkOf(j, chunk) < DivideWithCeiling(size, chunk)
  {
    OffsetInChunk(size, chunk, j);
  }

  lemma ChunkOfMonotone(i: nat, j: nat, chunk: nat)
    requires chunk > 0 && i <= j
    ensures ChunkOf(i, chunk) <= ChunkOf(j, chunk)
  {
    ChunkOfUnique(i, chunk, ChunkOf(i, chunk));
    ChunkOfUnique(j, chunk, ChunkOf(j, chunk));
    MulCancel(ChunkOf(i, chunk), ChunkOf(j, chunk) + 1, chunk);
  }

  // ---- the refinement ----

  function ProviderByte(m: Image, j: nat): byte {
    if j < |m.provider| then m.provider[j] else 0
  }

  /** A byte of a real chunk is the logical byte; behind any other chunk stand the provider's bytes,
      extended with zeros, and where the provider has none the local file already holds its zero. */
  predicate ByteRefined(m: Image, j: nat)
    requires m.chunk > 0 && j < |m.logical|
  {
    && ChunkOf(j, m.chunk) < |m.bits|
    && (if m.bits[ChunkOf(j, m.chunk)] then
          j < |m.local| && m.local[j] == m.logical[j]
        else
          && m.logical[j] == ProviderByte(m, j)
          && (m.sized && j >= |m.provider| ==> j < |m.local| && m.local[j] == 0))
  }

  ghost predicate Refines(m: Image) {
    && m.chunk > 0
    && |m.bits| == DivideWithCeiling(|m.logical|, m.chunk)
    && (m.sized ==> |m.local| == |m.logical|)
    && (!m.sized ==> |m.logical| == |m.provider| || m.logical == [])
    && (m.bits != [] && !m.bits[|m.bits| - 1] ==> |m.provider| <= |m.logical|)
    && forall j: nat :: j < |m.logical| ==> ByteRefined(m, j)
  }

  /** The bytes from `offset` to `offset + size` lie in real chunks only. */
  ghost predicate Present(m: Image, offset: nat, size: nat)
    requires m.chunk > 0
  {
    forall j: nat :: offset <= j < offset + size && j < |m.logical| ==>
      ChunkOf(j, m.chunk) < |m.bits| && m.bits[ChunkOf(j, m.chunk)]
  }

  /** Chunks `[first, last]` being real makes every byte present whose chunk lies between them. */
  lemma ChunksPresent(m: Image, offset: nat, size: nat, first: nat, last: nat)
    requires Refines(m)
    requires first <= ChunkOf(offset, m.chunk)
    requires size > 0 ==> ChunkOf(offset + size - 1, m.chunk) <= last
    requires forall c: nat :: first <= c <= last && c < |m.bits| ==> m.bits[c]
    ensures Present(m, offset, size)
  {
    hide ChunkOf, DivideWithCeiling, ByteRefined;
    forall j: nat | offset <= j < offset + size && j < |m.logical|
      ensures ChunkOf(j, m.chunk) < |m.bits| && m.bits[ChunkOf(j, m.chunk)]
    {
      ChunkOfMonotone(offset, j, m.chunk);
      ChunkOfMonotone(j, offset + size - 1, m.chunk);
      ChunkOfInFile(j, |m.logical|, m.chunk);
    }
  }

  /** Reading present bytes from the local file yields the logical bytes. */
  lemma LocalIsLogical(m: Image, offset: nat, size: nat)
    requires Refines(m) && size > 0 && offset + size <= |m.logical| && Present(m, offset, size)
    ensures offset + size <= |m.local|
    ensures m.local[offset..offset + size] == m.logical[offset..offset + size]
  {
    hide ChunkOf, DivideWithCeiling;
    forall j: nat | offset <= j < offset + size
      ensures j < |m.local| && m.local[j] == m.logical[j]
    {
      assert ByteRefined(m, j);
    }
    assert ByteRefined(m, offset + size - 1);
  }

  /** The state after chunk `c` has been fetched and stored. */
  function Downloaded(m: Image, c: nat, size: nat): Image
    requires c < |m.bits|
  {
    MulMonotone(0, c, m.chunk);
    m.(local := WriteAt(m.local, c * m.chunk, ProviderRange(m.provider, c * m.chunk, size)),
       bits := m.bits[c := true])
  }

  lemma DownloadedRefines(m: Image, c: nat, size: nat)
    requires Refines(m) && c < |m.bits| && !m.bits[c]
    requires size == Min(m.chunk, |m.logical| - c * m.chunk)
    ensures Refines(Downloaded(m, c, size))
  {
    hide ChunkOf, DivideWithCeiling, WriteAt, ByteRefined;
    var next := Downloaded(m, c, size);
    ChunkExtent(|m.logical|, m.chunk, c);
    DownloadedLength(m, c, size);
    forall j: nat | j < |m.logical|
      ensures ByteRefined(next, j)
    {
      DownloadedByte(m, c, size, j);
    }
  }

  lemma DownloadedLength(m: Image, c: nat, size: nat)
    requires Refines(m) && c < |m.bits| && !m.bits[c]
    requires size == Min(m.chunk, |m.logical| - c * m.chunk)
    ensures m.sized ==> |Downloaded(m, c, size).local| == |m.local|
    ensures |Downloaded(m, c, size).local| >= |m.local|
  {
    hide ByteRefined;
    ChunkExtent(|m.logical|, m.chunk, c);
  }

  lemma DownloadedByte(m: Image, c: nat, size: nat, j: nat)
    requires Refines(m) && c < |m.bits| && !m.bits[c] && j < |m.logical|
    requires size == Min(m.chunk, |m.logical| - c * m.chunk)
    ensures ByteRefined(Downloaded(m, c, size), j)
  {
    hide ChunkOf, DivideWithCeiling, WriteAt;
    var next := Downloaded(m, c, size);
    var data := ProviderRange(m.provider, c * m.chunk, size);
    assert ByteRefined(m, j);
    ChunkExtent(|m.logical|, m.chunk, c);
    ChunkOfUnique(j, m.chunk, c);
    DownloadedLength(m, c, size);
    if j < |next.local| {
      WriteAtByte(m.local, c * m.chunk, data, j);
    }
  }

  /** A chunk whose store fails half way is not real, so nothing of it is looked at. */
  function PartlyStored(m: Image, c: nat, data: seq<byte>): Image {
    MulMonotone(0, c, m.chunk);
    m.(local := WriteAt(m.local, c * m.chunk, data))
  }

  lemma PartlyStoredRefines(m: Image, c: nat, size: nat, data: seq<byte>)
    requires Refines(m) && c < |m.bits| && !m.bits[c]
    requires size == Min(m.chunk, |m.logical| - c * m.chunk) && data <= ProviderRange(m.provider, c * m.chunk, size)
    ensures Refines(PartlyStored(m, c, data))
  {
    hide ChunkOf, DivideWithCeiling, WriteAt, ByteRefined;
    ChunkExtent(|m.logical|, m.chunk, c);
    PartlyStoredLength(m, c, size, data);
    forall j: nat | j < |m.logical|
      ensures ByteRefined(PartlyStored(m, c, data), j)
    {
      PartlyStoredByte(m, c, size, data, j);
    }
  }

  lemma PartlyStoredLength(m: Image, c: nat, size: nat, data: seq<byte>)
    requires Refines(m) && c < |m.bits| && !m.bits[c]
    requires size == Min(m.chunk, |m.logical| - c * m.chunk) && data <= ProviderRange(m.provider, c * m.chunk, size)
    ensures m.sized ==> |PartlyStored(m, c, data).local| == |m.local|
    ensures |PartlyStored(m, c, data).local| >= |m.local|
  {
    hide ByteRefined;
    ChunkExtent(|m.logical|, m.chunk, c);
  }

  lemma PartlyStoredByte(m: Image, c: nat, size: nat, data: seq<byte>, j: nat)
    requires Refines(m) && c < |m.bits| && !m.bits[c] && j < |m.logical|
    requires size == Min(m.chunk, |m.logical| - c * m.chunk) && data <= ProviderRange(m.provider, c * m.chunk, size)
    ensures ByteRefined(PartlyStored(m, c, data), j)
  {
    hide ChunkOf, DivideWithCeiling, WriteAt;
    assert ByteRefined(m, j);
    ChunkExtent(|m.logical|, m.chunk, c);
    ChunkOfUnique(j, m.chunk, c);
    PartlyStoredLength(m, c, size, data);
    if j < |PartlyStored(m, c, data).local| {
      WriteAtByte(m.local, c * m.chunk, data, j);
    }
  }

  /** What `resize` does to the bits: cut them, or set every new one. */
  function ResizedBits(bits: seq<bool>, count: nat): (r: seq<bool>)
    ensures |r| == count
  {
    if count <= |bits| then bits[..count] else bits + seq(count - |bits|, i => true)
  }

  lemma KeptBits(bits: seq<bool>)
    ensures ResizedBits(bits, |bits|) == bits
  {
  }

  /** A set bit stays set, and a bit that is new comes set. */
  predicate BitsGrow(was: seq<bool>, now: seq<bool>) {
    forall c :: 0 <= c < |now| && (c < |was| ==> was[c]) ==> now[c]
  }

  lemma BitsGrowOn(a: seq<bool>, b: seq<bool>, c: seq<bool>)
    requires BitsGrow(a, b) && BitsGrow(b, c)
    ensures BitsGrow(a, c)
  {
  }

  lemma ResizedBitsGrow(bits: seq<bool>, count: nat)
    ensures BitsGrow(bits, ResizedBits(bits, count))
  {
  }

  lemma TruncatedToItself(s: seq<byte>)
    ensures Truncated(s, |s|) == s
  {
  }

  function Resized(m: Image, size: nat): Image
    requires m.chunk > 0
  {
    m.(local := Truncated(m.local, size),
       bits := ResizedBits(m.bits, DivideWithCeiling(size, m.chunk)),
       logical := Truncated(m.logical, size))
  }

  /** The chunk a resize makes the final one is new, or was real before. */
  predicate FinalChunkReady(m: Image, size: nat)
    requires m.chunk > 0
  {
    var count := DivideWithCeiling(size, m.chunk);
    0 < count <= |m.bits| ==> m.bits[count - 1]
  }

  /** Bytes that come back into the file when it grows are zeros, never the provider's. */
  lemma ResizedByte(m: Image, size: nat, j: nat)
    requires Refines(m) && m.sized && FinalChunkReady(m, size) && j < size
    ensures ByteRefined(Resized(m, size), j)
  {
    hide ChunkOf;
    ChunkOfInFile(j, size, m.chunk);
    var c := ChunkOf(j, m.chunk);
    if j < |m.logical| {
      assert ByteRefined(m, j);
    } else if c < |m.bits| {
      // `j` lies behind the old end, in what was the final chunk
      ChunkOfUnique(j, m.chunk, c);
      OldEndInFinalChunk(|m.logical|, m.chunk, j, c);
    }
  }

  lemma OldEndInFinalChunk(size: nat, chunk: nat, j: nat, c: nat)
    requires chunk > 0 && size <= j < (c + 1) * chunk && c < DivideWithCeiling(size, chunk)
    ensures c == DivideWithCeiling(size, chunk) - 1
  {
    CeilingBounds(size, chunk);
    MulCancel(DivideWithCeiling(size, chunk) - 1, c + 1, chunk);
  }

  lemma ResizedRefines(m: Image, size: nat)
    requires Refines(m) && m.sized && FinalChunkReady(m, size)
    ensures Refines(Resized(m, size))
    ensures Resized(m, size).bits != [] ==> Resized(m, size).bits[|Resized(m, size).bits| - 1]
  {
    hide ByteRefined, DivideWithCeiling;
    forall j: nat | j < size
      ensures ByteRefined(Resized(m, size), j)
    {
      ResizedByte(m, size, j);
    }
  }

  function Written(m: Image, offset: nat, data: seq<byte>): Image {
    m.(local := WriteAt(m.local, offset, data), logical := WriteAt(m.logical, offset, data))
  }

  lemma WrittenByte(m: Image, offset: nat, data: seq<byte>, j: nat)
    requires Refines(m) && m.sized && offset + |data| <= |m.logical| && j < |m.logical|
    requires Present(m, offset, |data|)
    ensures ByteRefined(Written(m, offset, data), j)
  {
    hide ChunkOf, DivideWithCeiling, WriteAt;
    assert ByteRefined(m, j);
    WriteAtByte(m.local, offset, data, j);
    WriteAtByte(m.logical, offset, data, j);
  }

  lemma WrittenRefines(m: Image, offset: nat, data: seq<byte>)
    requires Refines(m) && m.sized && offset + |data| <= |m.logical| && Present(m, offset, |data|)
    ensures Refines(Written(m, offset, data))
  {
    hide ByteRefined, DivideWithCeiling, WriteAt;
    forall j: nat | j < |m.logical|
      ensures ByteRefined(Written(m, offset, data), j)
    {
      WrittenByte(m, offset, data, j);
    }
  }

  function Allocated(m: Image): Image {
    m.(local := Truncated(m.local, |m.logical|), sized := true)
  }

  lemma AllocatedRefines(m: Image)
    requires Refines(m) && !m.sized
    ensures Refines(Allocated(m))
    ensures |m.local| == |m.logical| ==> Allocated(m) == m.(sized := true)
  {
    hide ChunkOf, DivideWithCeiling;
    forall j: nat | j < |m.logical|
      ensures ByteRefined(Allocated(m), j)
    {
      assert ByteRefined(m, j);
    }
  }
}
