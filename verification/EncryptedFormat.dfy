/**
 The chunked encrypted-file format: the byte layout of one sealed buffer
 (support/include/utils/encryption.hpp) and of a whole stream
 (support/src/utils/encrypting_reader.cpp).

 The cipher is a parameter. Nothing is known of it but the contract of sections 2.1 and 2.2 of
 RFC 5116, stated by `Aead.Lawful`. The chunk size, the nonce length and the tag length are
 symbolic.
 */
module EncryptedFormat {
  import opened Bytes
  import opened ChunkMath

  type Key = seq<byte>

  /** What the detached-mode cipher returns: the ciphertext and its authentication tag. */
  datatype Sealed = Sealed(cipher: seq<byte>, mac: seq<byte>)

  datatype Aead = Aead(
    nonceLen: nat,
    macLen: nat,
    seal: (Key, seq<byte>, seq<byte>, seq<byte>) -> Sealed,
    unseal: (Key, seq<byte>, seq<byte>, seq<byte>, seq<byte>) -> Option<seq<byte>>)
  {
    /** Decryption undoes encryption for the same key, nonce and associated data, and neither
        changes the length of the text. */
    ghost predicate Lawful() {
      && (forall key, nonce, ad, plain {:trigger seal(key, nonce, ad, plain)} :: |nonce| == nonceLen ==>
            var s := seal(key, nonce, ad, plain);
            && |s.cipher| == |plain|
            && |s.mac| == macLen
            && unseal(key, nonce, ad, s.cipher, s.mac) == Some(plain))
      && (forall key, nonce, ad, cipher, mac {:trigger unseal(key, nonce, ad, cipher, mac)} ::
            unseal(key, nonce, ad, cipher, mac).Some? ==>
              |unseal(key, nonce, ad, cipher, mac).value| == |cipher|)
    }

    function HeaderSize(): nat {
      nonceLen + macLen
    }
  }

  /** A cipher without secrecy that meets the contract for any nonce and tag length, so the contract can be met. */
  function PlainAead(nonceLen: nat, macLen: nat): Aead {
    Aead(nonceLen, macLen, (key, nonce, ad, plain) => Sealed(plain, Zeros(macLen)),
      (key, nonce, ad, cipher, mac) => Some(cipher))
  }

  lemma LawfulAeadExists(nonceLen: nat, macLen: nat)
    ensures var aead := PlainAead(nonceLen, macLen);
            aead.Lawful() && aead.nonceLen == nonceLen && aead.macLen == macLen
  {
  }

  /** The length of the whole sealed buffer as a big-endian 32-bit word: the associated data. */
  function SizeTag(size: nat): seq<byte> {
    var w := size % 0x1_0000_0000;
    [w / 0x100_0000, w / 0x1_0000 % 0x100, w / 0x100 % 0x100, w % 0x100]
  }

  /** `iv ++ mac ++ ciphertext`. */
  function EncryptData(aead: Aead, iv: seq<byte>, key: Key, plain: seq<byte>): seq<byte> {
    var s := aead.seal(key, iv, SizeTag(|plain| + aead.HeaderSize()), plain);
    iv + s.mac + s.cipher
  }

  /** A buffer no longer than its header is refused before the cipher sees it. */
  function DecryptData(aead: Aead, key: Key, buffer: seq<byte>): Option<seq<byte>> {
    if |buffer| > aead.HeaderSize() then
      aead.unseal(key, buffer[..aead.nonceLen], SizeTag(|buffer|), buffer[aead.HeaderSize()..],
                  buffer[aead.nonceLen..aead.HeaderSize()])
    else
      None
  }

  /** Exactly the non-empty buffers survive a round trip. */
  lemma DecryptEncrypt(aead: Aead, iv: seq<byte>, key: Key, plain: seq<byte>)
    requires aead.Lawful() && |iv| == aead.nonceLen
    ensures |EncryptData(aead, iv, key, plain)| == |plain| + aead.HeaderSize()
    ensures DecryptData(aead, key, EncryptData(aead, iv, key, plain)) == (if plain == [] then None else Some(plain))
  {
    var s := aead.seal(key, iv, SizeTag(|plain| + aead.HeaderSize()), plain);
    var buffer := EncryptData(aead, iv, key, plain);
    assert buffer == iv + s.mac + s.cipher;
    assert |buffer| == |plain| + aead.HeaderSize();
    assert buffer[..aead.nonceLen] == iv;
    assert buffer[aead.nonceLen..aead.HeaderSize()] == s.mac;
    assert buffer[aead.HeaderSize()..] == s.cipher;
  }

  // ---- sizes ----

  function CalculateEncryptedSize(size: nat, chunk: nat, header: nat, kdf: nat): nat {
    size + DivideWithCeiling(size, chunk) * header + kdf
  }

  /** `kdf` is the length of the header in front of the chunks, zero when there is none. */
  function CalculateDecryptedSize(totalSize: nat, chunk: nat, header: nat, kdf: nat): int {
    var body := totalSize - kdf;
    body - (if body < 0 then 0 else DivideWithCeiling(body, chunk + header)) * header
  }

  /** The two sides count the same number of chunks although they divide by different sizes. */
  lemma ChunkCountsAgree(size: nat, chunk: nat, header: nat)
    requires chunk > 0
    ensures DivideWithCeiling(size + DivideWithCeiling(size, chunk) * header, chunk + header)
         == DivideWithCeiling(size, chunk)
  {
    var c := DivideWithCeiling(size, chunk);
    CeilingBounds(size, chunk);
    assert c * (chunk + header) == c * chunk + c * header;
    assert (c - 1) * (chunk + header) == (c - 1) * chunk + c * header - header;
    CeilingUnique(size + c * header, chunk + header, c);
  }

  /** Decrypted size undoes encrypted size for every size and either header flag. */
  lemma DecryptedSizeOfEncryptedSize(size: nat, chunk: nat, header: nat, kdf: nat)
    requires chunk > 0
    ensures CalculateDecryptedSize(CalculateEncryptedSize(size, chunk, header, kdf), chunk, header, kdf) == size
  {
    ChunkCountsAgree(size, chunk, header);
  }

  /** Which lengths a stream can have at all: no chunk consists of a header alone. */
  predicate IsStreamSize(totalSize: nat, chunk: nat, header: nat, kdf: nat)
    requires chunk > 0
  {
    totalSize >= kdf &&
    ((totalSize - kdf) % (chunk + header) == 0 || (totalSize - kdf) % (chunk + header) > header)
  }

  lemma StreamSizeOfFile(size: nat, chunk: nat, header: nat, kdf: nat)
    requires chunk > 0
    ensures IsStreamSize(CalculateEncryptedSize(size, chunk, header, kdf), chunk, header, kdf)
  {
    hide DivideWithCeiling, IsStreamSize;
    var c := DivideWithCeiling(size, chunk);
    CeilingBounds(size, chunk);
    Distribute(c, chunk, header);
    Distribute(c - 1, chunk, header);
    Distribute(c - 1, header, 0);
    if size == c * chunk {
      WholeChunks(size + c * header, kdf, chunk, header, c);
    } else {
      ShortFinalChunk(size + c * header, kdf, chunk, header, c - 1);
    }
  }

  lemma WholeChunks(body: nat, kdf: nat, chunk: nat, header: nat, q: nat)
    requires chunk > 0 && body == q * (chunk + header)
    ensures IsStreamSize(body + kdf, chunk, header, kdf)
  {
    Distribute(q, chunk + header, 0);
    QuotientUnique(body, chunk + header, q);
  }

  lemma ShortFinalChunk(body: nat, kdf: nat, chunk: nat, header: nat, q: nat)
    requires chunk > 0 && q * (chunk + header) + header < body < (q + 1) * (chunk + header)
    ensures IsStreamSize(body + kdf, chunk, header, kdf)
  {
    QuotientUnique(body, chunk + header, q);
  }

  /** The converse: encrypted size undoes decrypted size on exactly the lengths a stream can have. */
  lemma EncryptedSizeOfDecryptedSize(totalSize: nat, chunk: nat, header: nat, kdf: nat)
    requires chunk > 0
    ensures IsStreamSize(totalSize, chunk, header, kdf) <==>
            (CalculateDecryptedSize(totalSize, chunk, header, kdf) >= 0 &&
             CalculateEncryptedSize(CalculateDecryptedSize(totalSize, chunk, header, kdf), chunk, header, kdf) ==
             totalSize)
  {
    var size := CalculateDecryptedSize(totalSize, chunk, header, kdf);
    if size >= 0 && CalculateEncryptedSize(size, chunk, header, kdf) == totalSize {
      StreamSizeOfFile(size, chunk, header, kdf);
    }
    if IsStreamSize(totalSize, chunk, header, kdf) {
      StreamSizeCounts(totalSize - kdf, chunk, header);
    }
  }

  /** A body without a header-only chunk has as many plaintext chunks as sealed ones. */
  lemma StreamSizeCounts(body: nat, chunk: nat, header: nat)
    requires chunk > 0 && (body % (chunk + header) == 0 || body % (chunk + header) > header)
    ensures var c := DivideWithCeiling(body, chunk + header);
            body - c * header >= 0 && DivideWithCeiling(body - c * header, chunk) == c
  {
    var e := chunk + header;
    var c, q := DivideWithCeiling(body, e), body / e;
    DivMod(body, e);
    Distribute(q, chunk, header);
    Distribute(q, header, 0);
    Distribute(q, chunk, 0);
    Distribute(q - 1, chunk, 0);
    MulMonotone(0, q, chunk);
    if body % e == 0 {
      PlainCount(body - c * header, chunk, q);
    } else {
      PlainCount(body - c * header, chunk, q + 1);
    }
  }

  lemma PlainCount(size: int, chunk: nat, c: nat)
    requires chunk > 0 && 0 <= size <= c * chunk && (c > 0 ==> (c - 1) * chunk < size)
    ensures DivideWithCeiling(size, chunk) == c
  {
    hide DivideWithCeiling;
    if c > 0 {
      MulMonotone(0, c - 1, chunk);
    }
    CeilingUnique(size, chunk, c);
  }

  // ---- streams ----

  /** Everything that determines one encrypted stream; `header` is empty or the 36-byte KDF header. */
  datatype Job = Job(aead: Aead, chunk: nat, key: Key, ivs: seq<seq<byte>>, source: seq<byte>, header: seq<byte>)
  {
    ghost predicate Valid() {
      && chunk > 0
      && aead.Lawful()
      && |ivs| == Chunks()
      && forall iv :: iv in ivs ==> |iv| == aead.nonceLen
    }

    function Chunks(): nat {
      DivideWithCeiling(|source|, chunk)
    }

    function EncryptedChunkSize(): (r: nat)
      ensures r >= chunk
    {
      chunk + aead.HeaderSize()
    }

    function PlainChunk(i: nat): seq<byte>
      requires chunk > 0 && i < Chunks()
    {
      ChunkExtent(|source|, chunk, i);
      source[i * chunk..Min((i + 1) * chunk, |source|)]
    }

    function CipherChunk(i: nat): seq<byte>
      requires chunk > 0 && i < Chunks() && |ivs| == Chunks()
    {
      EncryptData(aead, ivs[i], key, PlainChunk(i))
    }

    function CipherChunks(): seq<seq<byte>>
      requires chunk > 0 && |ivs| == Chunks()
    {
      seq(|ivs|, i requires 0 <= i < |ivs| => CipherChunk(i))
    }

    /** The ideal stream. */
    function Stream(): seq<byte>
      requires chunk > 0 && |ivs| == Chunks()
    {
      header + Concat(CipherChunks())
    }
  }

  /** There are valid jobs with a source of any size, a header or none, and nonces and tags of any length. */
  lemma ValidJobExists(source: seq<byte>, header: seq<byte>, chunk: nat, nonceLen: nat, macLen: nat) returns (job: Job)
    requires chunk > 0
    ensures job.Valid() && job.source == source && job.header == header && job.chunk == chunk
    ensures job.aead.nonceLen == nonceLen && job.aead.macLen == macLen
  {
    LawfulAeadExists(nonceLen, macLen);
    job := Job(PlainAead(nonceLen, macLen), chunk, [], seq(DivideWithCeiling(|source|, chunk), i => Zeros(nonceLen)),
      source, header);
  }

  /** No chunk is empty, so no chunk is refused by `DecryptData`. */
  lemma CipherChunkDecrypts(job: Job, i: nat)
    requires job.Valid() && i < job.Chunks()
    ensures job.PlainChunk(i) != []
    ensures |job.PlainChunk(i)| == Min(job.chunk, |job.source| - i * job.chunk)
    ensures |job.CipherChunk(i)| == |job.PlainChunk(i)| + job.aead.HeaderSize()
    ensures DecryptData(job.aead, job.key, job.CipherChunk(i)) == Some(job.PlainChunk(i))
  {
    ChunkExtent(|job.source|, job.chunk, i);
    DecryptEncrypt(job.aead, job.ivs[i], job.key, job.PlainChunk(i));
  }

  /** Only the final chunk may be short, and no chunk consists of a header alone. */
  lemma CipherChunkLength(job: Job, i: nat)
    requires job.Valid() && i < job.Chunks()
    ensures i + 1 < job.Chunks() ==> |job.CipherChunks()[i]| == job.EncryptedChunkSize()
    ensures i + 1 == job.Chunks() ==> |job.CipherChunks()[i]| == |job.source| - i * job.chunk + job.aead.HeaderSize()
    ensures job.aead.HeaderSize() < |job.CipherChunks()[i]| <= job.EncryptedChunkSize()
  {
    CipherChunkDecrypts(job, i);
    ChunkExtent(|job.source|, job.chunk, i);
  }

  /** Chunk `i` lies `i` whole encrypted chunks behind the header. */
  lemma ChunkInStream(job: Job, i: nat)
    requires job.Valid() && i < job.Chunks()
    ensures |Concat(job.CipherChunks()[..i])| == i * job.EncryptedChunkSize()
    ensures job.header + Concat(job.CipherChunks()[..i]) + job.CipherChunks()[i] <= job.Stream()
    ensures i + 1 == job.Chunks() ==>
              job.header + Concat(job.CipherChunks()[..i]) + job.CipherChunks()[i] == job.Stream()
    ensures i + 1 == job.Chunks() ==>
              |job.Stream()| == |job.header| + i * job.EncryptedChunkSize() + |job.CipherChunks()[i]|
  {
    var parts: seq<seq<byte>> := job.CipherChunks();
    ConcatAt(parts, i);
    forall k: nat | k < i
      ensures |parts[..i][k]| == job.EncryptedChunkSize()
    {
      CipherChunkLength(job, k);
    }
    ConcatUniformLength(parts[..i], job.EncryptedChunkSize());
    PrefixBehind(job.header, Concat(parts[..i]), parts[i], Concat(parts));
  }

  lemma PrefixBehind(header: seq<byte>, a: seq<byte>, b: seq<byte>, whole: seq<byte>)
    requires a + b <= whole
    ensures header + a + b <= header + whole
    ensures a + b == whole ==> header + a + b == header + whole
  {
    assert header + a + b == header + (a + b);
  }

  lemma SumOfChunks(size: nat, chunks: nat, chunk: nat, header: nat)
    ensures (chunks - 1) * (chunk + header) + (size - (chunks - 1) * chunk) + header == size + chunks * header
  {
    Distribute(chunks - 1, chunk, header);
    Distribute(chunks - 1, header, 0);
  }

  lemma StreamEnd(job: Job, last: nat)
    requires job.Valid() && job.Chunks() == last + 1
    ensures |job.Stream()| ==
            |job.header| + last * job.EncryptedChunkSize() + (|job.source| - last * job.chunk + job.aead.HeaderSize())
  {
    hide *;
    ChunkInStream(job, last);
    CipherChunkLength(job, last);
  }

  /** The stream is as long as `CalculateEncryptedSize` says. */
  lemma StreamLength(job: Job)
    requires job.Valid()
    ensures |job.Stream()| ==
            CalculateEncryptedSize(|job.source|, job.chunk, job.aead.HeaderSize(), |job.header|)
  {
    hide DivideWithCeiling, Aead.HeaderSize, Job.CipherChunk;
    CeilingBounds(|job.source|, job.chunk);
    if job.source == [] {
      assert job.CipherChunks() == [];
    } else {
      StreamEnd(job, job.Chunks() - 1);
      SumOfChunks(|job.source|, job.Chunks(), job.chunk, job.aead.HeaderSize());
    }
  }

  // ---- the bytes of a stream ----

  /** The bytes of one sealed buffer: the nonce, then the tag and the text that sealing `plain` gives under that
      nonce with the length of the buffer, as four bytes with the most significant first, as associated data. */
  predicate IsSealed(aead: Aead, key: Key, iv: seq<byte>, plain: seq<byte>, bytes: seq<byte>) {
    && |bytes| == aead.nonceLen + aead.macLen + |plain|
    && var size := |bytes|;
       var tag: seq<byte> := [size / 0x100_0000 % 0x100, size / 0x1_0000 % 0x100, size / 0x100 % 0x100, size % 0x100];
       var sealed := aead.seal(key, iv, tag, plain);
       && bytes[..aead.nonceLen] == iv
       && bytes[aead.nonceLen..aead.nonceLen + aead.macLen] == sealed.mac
       && bytes[aead.nonceLen + aead.macLen..] == sealed.cipher
  }

  /** A sealed buffer lies at `at` in `whole`. */
  predicate IsSealedAt(aead: Aead, key: Key, iv: seq<byte>, plain: seq<byte>, whole: seq<byte>, at: int) {
    && 0 <= at && at + aead.nonceLen + aead.macLen + |plain| <= |whole|
    && IsSealed(aead, key, iv, plain, whole[at..at + aead.nonceLen + aead.macLen + |plain|])
  }

  lemma SizeTagBytes(size: nat)
    ensures SizeTag(size) == [size / 0x100_0000 % 0x100, size / 0x1_0000 % 0x100, size / 0x100 % 0x100, size % 0x100]
  {
    var w, high := size % 0x1_0000_0000, size / 0x1_0000_0000;
    assert size == high * 0x1_0000_0000 + w;
    ByteOfWord(high, w, 0x100_0000, 0x100);
    ByteOfWord(high * 0x100, w, 0x1_0000, 0x1_0000);
    ByteOfWord(high * 0x1_0000, w, 0x100, 0x100_0000);
    ByteOfWord(high * 0x100_0000, w, 1, 0x1_0000_0000);
  }

  lemma ByteOfWord(high: nat, w: nat, unit: nat, count: nat)
    requires unit > 0
    ensures (high * 0x100 * unit + w) / unit % 0x100 == w / unit % 0x100
  {
    assert high * 0x100 * unit + w == (high * 0x100 + w / unit) * unit + w % unit;
    QuotientUnique(high * 0x100 * unit + w, unit, high * 0x100 + w / unit);
  }

  lemma EncryptedIsSealed(aead: Aead, iv: seq<byte>, key: Key, plain: seq<byte>)
    requires aead.Lawful() && |iv| == aead.nonceLen
    ensures IsSealed(aead, key, iv, plain, EncryptData(aead, iv, key, plain))
  {
    hide SizeTag;
    var s := aead.seal(key, iv, SizeTag(|plain| + aead.HeaderSize()), plain);
    var buffer := EncryptData(aead, iv, key, plain);
    assert |buffer| == |plain| + aead.HeaderSize();
    SizeTagBytes(|buffer|);
    assert buffer[..aead.nonceLen] == iv;
    assert buffer[aead.nonceLen..aead.nonceLen + aead.macLen] == s.mac;
    assert buffer[aead.nonceLen + aead.macLen..] == s.cipher;
  }

  lemma ChunkSlice(job: Job, i: nat)
    requires job.Valid() && i < job.Chunks()
    ensures var at := |job.header| + i * job.EncryptedChunkSize();
            && 0 <= at && at + |job.CipherChunk(i)| <= |job.Stream()|
            && job.Stream()[at..at + |job.CipherChunk(i)|] == job.CipherChunk(i)
  {
    hide DivideWithCeiling, Job.CipherChunk, Aead.Lawful;
    ChunkInStream(job, i);
    SliceAfterPrefix(job.header + Concat(job.CipherChunks()[..i]), job.CipherChunks()[i], job.Stream());
  }

  /** Every chunk of the stream, byte for byte: it lies `i` whole encrypted chunks behind the header and is its slice
      of the source, sealed under its own nonce. The header comes first. */
  lemma StreamBytes(job: Job, i: nat)
    requires job.Valid() && i < DivideWithCeiling(|job.source|, job.chunk)
    ensures var header := job.aead.nonceLen + job.aead.macLen;
            var from, at := i * job.chunk, |job.header| + i * (job.chunk + header);
            var to := Min(from + job.chunk, |job.source|);
            && i < |job.ivs| && 0 <= from < to && 0 <= at
            && IsSealedAt(job.aead, job.key, job.ivs[i], job.source[from..to], job.Stream(), at)
    ensures job.header <= job.Stream()
  {
    hide DivideWithCeiling, IsSealed, Job.Stream, Job.CipherChunk, Aead.Lawful;
    ChunkExtent(|job.source|, job.chunk, i);
    ChunkSlice(job, i);
    CipherChunkDecrypts(job, i);
    SealedChunk(job, i);
    StreamHasHeader(job);
    assert job.PlainChunk(i) == job.source[i * job.chunk..Min(i * job.chunk + job.chunk, |job.source|)];
  }

  lemma StreamHasHeader(job: Job)
    requires job.Valid()
    ensures job.header <= job.Stream()
  {
  }

  lemma SealedChunk(job: Job, i: nat)
    requires job.Valid() && i < job.Chunks()
    ensures IsSealed(job.aead, job.key, job.ivs[i], job.PlainChunk(i), job.CipherChunk(i))
  {
    hide IsSealed, EncryptData;
    EncryptedIsSealed(job.aead, job.ivs[i], job.key, job.PlainChunk(i));
  }
}
