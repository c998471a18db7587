/**
 `open_file` (repertory/librepertory/src/file_manager/open_file.cpp) together with the parts of
 `open_file_base` it builds on: reads, writes, resizes, chunk downloads, the error latch and close.

 The class is one object between its lock-held sections. Another thread can act between two calls,
 and every call keeps `Valid()`, so the background reader is covered by calling `DownloadChunk`
 anywhere. Provider and file failures are arbitrary. Threads that come into the middle of each other's
 sections are the subject of `FileThreads`.
 */
module OpenFile {
  import opened Bytes
  import opened ChunkMath
  import opened FileImage
  import opened UploadQueue
  import opened CacheSize

  /** Errors the latch lets a later error replace. */
  predicate IsSoft(err: ApiError) {
    err == Success || err == DownloadIncomplete || err == DownloadStopped
  }

  /** `set_api_error`: a hard error stays. */
  function Latched(error: ApiError, err: ApiError): ApiError {
    if error == err then error else if IsSoft(error) then err else error
  }

  lemma HardErrorStays(error: ApiError, err: ApiError)
    ensures error in {Success, DownloadIncomplete, DownloadStopped} <==> IsSoft(error)
    ensures !IsSoft(error) <==> forall e :: Latched(error, e) == error
    ensures IsSoft(error) ==> Latched(error, err) == err
  {
    if IsSoft(error) {
      assert Latched(error, OsError) == OsError;
    }
  }

  predicate AllSet(bits: seq<bool>) {
    forall c :: 0 <= c < |bits| ==> bits[c]
  }

  function Max(a: nat, b: nat): nat {
    if a >= b then a else b
  }

  /** A resume entry and the source file it names still stand for `logical`. */
  ghost predicate Resumable(entry: ResumeEntry, source: string, size: nat, local: seq<byte>, provider: seq<byte>,
                            logical: seq<byte>)
  {
    && entry.sourcePath == source
    && |local| == size == |logical|
    && Refines(Image(entry.chunkSize, provider, local, entry.readState, logical, true))
  }

  /** What a read of `size` bytes at `offset` must return. */
  function LogicalRead(logical: seq<byte>, size: nat, offset: nat): seq<byte> {
    var n := CalculateReadSize(|logical|, size, offset);
    if offset + n <= |logical| then logical[offset..offset + n] else []
  }

  function Grown(s: seq<byte>, size: nat): (r: seq<byte>)
    ensures |r| == if size > |s| then size else |s|
  {
    if size > |s| then Truncated(s, size) else s
  }

  /** What the file must be after a write: grown with zeros up to the write's end, then overwritten. */
  function LogicalWrite(logical: seq<byte>, offset: nat, data: seq<byte>): seq<byte> {
    Patch(Grown(logical, offset + |data|), offset, data)
  }

  /** A write of which only the first `count` bytes reached the file. */
  function PartWritten(logical: seq<byte>, offset: nat, data: seq<byte>, count: nat): seq<byte>
    requires count <= |data|
  {
    WriteAt(Grown(logical, offset + |data|), offset, data[..count])
  }

  /** A failed write leaves the file as it was, or grown to the write's end with some of the bytes in it. */
  ghost predicate WroteSome(logical: seq<byte>, offset: nat, data: seq<byte>, after: seq<byte>) {
    exists count: nat :: count <= |data| && after == PartWritten(logical, offset, data, count)
  }

  /** `n` bytes of a file from `offset` on, zeros behind its end: what a file read into a zeroed buffer leaves. */
  function Window(s: seq<byte>, offset: nat, n: nat): (r: seq<byte>)
    ensures |r| == n
  {
    seq(n, i requires 0 <= i < n => if offset + i < |s| then s[offset + i] else 0)
  }

  lemma WindowInside(s: seq<byte>, offset: nat, n: nat)
    requires offset + n <= |s|
    ensures Window(s, offset, n) == s[offset..offset + n]
  {
  }

  /** Every chunk of the file from `first` to `last` is real. */
  predicate RangeReal(bits: seq<bool>, first: int, last: int) {
    forall c :: 0 <= c < |bits| && first <= c <= last ==> bits[c]
  }

  lemma RangeStaysReal(was: seq<bool>, now: seq<bool>, first: int, last: int)
    requires BitsGrow(was, now) && RangeReal(was, first, last)
    ensures RangeReal(now, first, last)
  {
  }

  /** With real chunks the local file reads like the logical bytes, also behind the end. */
  lemma RealWindow(m: Image, offset: nat, n: nat)
    requires Refines(m) && m.chunk > 0 && |m.local| == |m.logical| && n > 0
    requires RangeReal(m.bits, ChunkOf(offset, m.chunk), ChunkOf(offset + n, m.chunk))
    ensures Window(m.local, offset, n) == Window(m.logical, offset, n)
  {
    hide Refines, ChunkOf;
    var inside := Min(n, |m.logical| - offset);
    if inside > 0 {
      ChunkOfMonotone(offset + inside - 1, offset + n, m.chunk);
      ChunksPresent(m, offset, inside, ChunkOf(offset, m.chunk), ChunkOf(offset + n, m.chunk));
      LocalIsLogical(m, offset, inside);
      forall i | 0 <= i < n
        ensures Window(m.local, offset, n)[i] == Window(m.logical, offset, n)[i]
      {
        if i < inside {
          assert m.local[offset..offset + inside][i] == m.logical[offset..offset + inside][i];
        }
      }
    }
  }

  /** Where a closed file's local bytes and its unfinished work go. */
  datatype CloseOutcome = Leave | Upload | Resume | Forget | Discard

  function LatchedAtClose(modified: bool, complete: bool, size: nat, error: ApiError): ApiError {
    if IsSoft(error) then
      if modified && !complete then DownloadIncomplete
      else if !modified && size > 0 && !complete then DownloadStopped
      else error
    else error
  }

  function OutcomeOfClose(unlinked: bool, modified: bool, complete: bool, size: nat, error: ApiError): CloseOutcome {
    var err := LatchedAtClose(modified, complete, size, error);
    if unlinked then Leave
    else if modified && err == Success then Upload
    else if modified && err == DownloadIncomplete then Resume
    else if err == Success then (if complete then Forget else Leave)
    else Discard
  }

  /** An upload is queued exactly for a linked, modified, complete file without an error. */
  lemma UploadOnlyWhenComplete(unlinked: bool, modified: bool, complete: bool, size: nat, error: ApiError)
    ensures OutcomeOfClose(unlinked, modified, complete, size, error) == Upload <==>
            !unlinked && modified && complete && error == Success
  {
  }

  /** Changes are thrown away exactly when a hard error is latched, or when the file is complete but a
      call made during shutdown left `DownloadStopped` behind. */
  lemma ChangesDiscarded(unlinked: bool, modified: bool, complete: bool, size: nat, error: ApiError)
    ensures (modified && OutcomeOfClose(unlinked, modified, complete, size, error) == Discard) <==>
            (modified && !unlinked && (!IsSoft(error) || (complete && error == DownloadStopped)))
  {
  }

  /** A file whose source is kept without a resume entry is complete. */
  lemma KeptFilesAreComplete(modified: bool, complete: bool, size: nat, error: ApiError)
    requires size == 0 ==> complete
    ensures OutcomeOfClose(false, modified, complete, size, error) in {Upload, Forget, Leave} ==> complete
  {
  }

  /** The changes of a file that is closed can be taken up again later. */
  predicate StaysUnfinished(complete: bool, error: ApiError) {
    if complete then error == DownloadIncomplete
    else error == Success || error == DownloadIncomplete || error == DownloadStopped
  }

  /** The local file of a file that is closed is given up: some error is latched, or it was not modified and is
      not complete; except that an unfinished file keeps its changes. */
  predicate IsGivenUp(modified: bool, complete: bool, error: ApiError) {
    (error != Success || (!modified && !complete)) && !(modified && StaysUnfinished(complete, error))
  }

  /** What becomes of a closed file, case by case. */
  lemma CloseTables(unlinked: bool, modified: bool, complete: bool, size: nat, error: ApiError, t: Tables, path: string,
                    entry: ResumeEntry)
    requires size == 0 ==> complete
    ensures var outcome := OutcomeOfClose(unlinked, modified, complete, size, error);
            var after := TablesAfterClose(outcome, t, path, entry);
            && OthersStay(t, after, path)
            && (!unlinked && modified && complete && error == Success ==>
                  outcome == Upload && IsQueuedLast(after, path, entry.sourcePath) && path !in after.resume)
            && (!(!unlinked && modified && complete && error == Success) ==> SameUploads(t, after))
            && (!unlinked && modified && StaysUnfinished(complete, error) ==>
                  outcome == Resume && path in after.resume && after.resume[path] == entry)
            && (!unlinked && !modified && complete && error == Success ==>
                  outcome == Forget && path !in after.resume)
            && (!unlinked && IsGivenUp(modified, complete, error) ==> outcome == Discard && path !in after.resume)
            && (unlinked ==> outcome == Leave && after == t)
  {
    hide QueueUpload;
    QueueingIs(t, path, entry.sourcePath);
  }

  class OpenFile {
    const apiPath: string
    const chunkSize: nat
    const provider: seq<byte>
    const mgr: UploadManager
    const cache: CacheSizeMgr
    var sourcePath: string
    var fileSize: nat
    var lastChunkSize: nat
    var local: seq<byte>
    var readState: seq<bool>
    var sized: bool  // `allocated`
    var error: ApiError
    var handles: set<nat>
    var modified: bool
    var removed: bool
    var unlinked: bool
    var stopRequested: bool  // set by `close`
    var shutdown: bool  // the process-wide stop flag
    var readChunk: nat
    var rwDepth: nat  // how often the current thread holds rw_mtx_
    ghost var logical: seq<byte>
    ghost var faults: nat  // how often the provider or the file system has failed

    ghost function Img(): Image
      reads this`local, this`readState, this`logical, this`sized
    {
      Image(chunkSize, provider, local, readState, logical, sized)
    }

    /** The file refines its flat byte string, and the final chunk is real or `lastChunkSize` is right. */
    ghost predicate Valid()
      reads this`local, this`readState, this`logical, this`sized, this`fileSize, this`lastChunkSize, this`modified
    {
      && Refines(Img())
      && fileSize == |logical|
      && (modified ==> sized)
      && (readState != [] && !readState[|readState| - 1] ==> lastChunkSize == LastChunkSize(fileSize, chunkSize))
    }

    constructor Open(apiPath: string, sourcePath: string, size: nat, chunkSize: nat, provider: seq<byte>,
                     localFile: seq<byte>, handles: set<nat>, mgr: UploadManager, cache: CacheSizeMgr)
      requires chunkSize > 0
      requires |localFile| == size || |provider| == size || size == 0
      ensures Valid() && this.apiPath == apiPath && this.sourcePath == sourcePath && this.mgr == mgr &&
              this.cache == cache
      ensures local == localFile && fileSize == size && this.handles == handles && error == Success
      ensures !modified && !removed && !unlinked && !stopRequested && rwDepth == 0
      ensures logical == if size == 0 then [] else if |localFile| == size then localFile else provider
      ensures AllSet(readState) <==> size == 0 || |localFile| == size
    {
      this.apiPath, this.sourcePath, this.chunkSize, this.provider := apiPath, sourcePath, chunkSize, provider;
      this.mgr, this.cache, this.handles := mgr, cache, handles;
      this.fileSize, this.lastChunkSize, this.local := size, LastChunkSize(size, chunkSize), localFile;
      this.error, this.modified, this.removed, this.unlinked := Success, false, false, false;
      this.stopRequested, this.shutdown := false, false;
      this.readChunk, this.rwDepth, this.faults := 0, 0, 0;
      var complete := size != 0 && |localFile| == size;
      this.readState := seq(DivideWithCeiling(size, chunkSize), i => complete);
      this.sized := complete;
      this.logical := if size == 0 then [] else if complete then localFile else provider;
      new;
      FreshImageRefines(Img(), complete);
      CeilingBounds(size, chunkSize);
      assert size > 0 ==> readState[0] == complete;
    }

    /** Continue from a resume entry: the restored file has the bytes the closed one had, and is modified. */
    constructor Restore(apiPath: string, size: nat, entry: ResumeEntry, provider: seq<byte>, localFile: seq<byte>,
                        ghost content: seq<byte>, mgr: UploadManager, cache: CacheSizeMgr)
      requires Resumable(entry, entry.sourcePath, size, localFile, provider, content)
      modifies mgr
      ensures Valid() && logical == content && readState == entry.readState && sourcePath == entry.sourcePath
      ensures modified && sized && removed && error == Success && handles == {} && rwDepth == 0
      ensures mgr.tables == RemoveUpload(StoreResume(old(mgr.tables), apiPath, entry), apiPath)
    {
      this.apiPath, this.sourcePath, this.chunkSize, this.provider :=
        apiPath, entry.sourcePath, entry.chunkSize, provider;
      this.mgr, this.cache, this.handles := mgr, cache, {};
      this.fileSize, this.lastChunkSize, this.local := size, LastChunkSize(size, entry.chunkSize), localFile;
      this.error, this.modified, this.removed, this.unlinked := Success, false, false, false;
      this.stopRequested, this.shutdown := false, false;
      this.readChunk, this.rwDepth, this.faults := 0, 0, 0;
      this.readState, this.sized, this.logical := entry.readState, true, content;
      new;
      SetModified();
    }

    // ---- small steps ----

    method SetApiError(err: ApiError) returns (r: ApiError)
      modifies this`error
      ensures error == Latched(old(error), err) && r == error
      ensures error == if old(error) in {Success, DownloadIncomplete, DownloadStopped} then err else old(error)
    {
      if error != err && IsSoft(error) {
        error := err;
      }
      r := error;
    }

    /** The cache manager refuses nothing. */
    ghost predicate CacheWorks()
      reads cache
    {
      cache.initialized && !cache.stopRequested
    }

    ghost predicate Running()
      reads this`stopRequested, this`shutdown, this`error, cache
    {
      !stopRequested && !shutdown && error == Success && CacheWorks()
    }

    /** The provider's answer, or any failure it may have. */
    method ReadFileBytes(size: nat, offset: nat) returns (err: ApiError, buffer: seq<byte>)
      modifies this`faults
      ensures err == Success ==> buffer == ProviderRange(provider, offset, size)
      ensures faults == if err == Success then old(faults) else old(faults) + 1
    {
      err, buffer := *, ProviderRange(provider, offset, size);
      faults := if err == Success then faults else faults + 1;
    }

    /** `do_io` runs one file operation, which may fail. */
    method DoIo() returns (ok: bool)
      modifies this`faults
      ensures faults == if ok then old(faults) else old(faults) + 1
    {
      ok := *;
      faults := if ok then faults else faults + 1;
    }

    /** The provider stores the new times and the size, or fails. */
    method SetItemMeta() returns (err: ApiError)
      modifies this`faults
      ensures faults == if err == Success then old(faults) else old(faults) + 1
    {
      err := *;
      faults := if err == Success then faults else faults + 1;
    }

    method SetModified()
      modifies this`modified, this`removed, mgr
      ensures old(Valid()) && sized ==> Valid()
      ensures modified
      ensures removed == (!unlinked || old(removed))
      ensures unlinked ==> mgr.tables == old(mgr.tables)
      ensures !unlinked ==>
                var stored := if old(modified) then old(mgr.tables)
                              else StoreResume(old(mgr.tables), apiPath, ResumeEntry(chunkSize, readState, sourcePath));
                mgr.tables == if old(removed) then stored else RemoveUpload(stored, apiPath)
      ensures !unlinked && !old(modified) ==>
                apiPath in mgr.tables.resume &&
                mgr.tables.resume[apiPath] == ResumeEntry(chunkSize, readState, sourcePath)
      ensures !unlinked && !old(removed) ==> IsNotUploaded(mgr.tables, apiPath)
      ensures OthersStay(old(mgr.tables), mgr.tables, apiPath)
    {
      hide RemoveUpload, StoreResume, OthersStay, IsNotUploaded;
      ModifyingIs(old(mgr.tables), apiPath, ResumeEntry(chunkSize, readState, sourcePath));
      if unlinked {
        modified := true;
        return;
      }
      if !modified {
        modified := true;
        mgr.DoStoreResume(apiPath, ResumeEntry(chunkSize, readState, sourcePath), unlinked);
      }
      if !removed {
        removed := true;
        mgr.DoRemoveUpload(apiPath);
      }
    }

    /** Growing and shrinking the cache account by the distance between `size` and the file size;
        `shrink` swaps the direction. */
    method AdjustCacheSize(size: nat, shrink: bool) returns (err: ApiError)
      modifies this`error, cache`cacheSize
      ensures err == Success ==> error == old(error)
      ensures err != Success ==> err == error
      ensures err == Success && shrink && old(cache.cacheSize) + fileSize >= size ==>
                cache.cacheSize == old(cache.cacheSize) + fileSize - size
      ensures err == Success && !shrink && old(cache.cacheSize) + size >= fileSize ==>
                cache.cacheSize == old(cache.cacheSize) + size - fileSize
      ensures !IsSoft(old(error)) ==> error == old(error)
      ensures CacheWorks() ==> err == Success
    {
      if size == fileSize {
        return Success;
      }
      var res;
      if size > fileSize {
        if shrink { res := cache.Shrink(size - fileSize); } else { res := cache.Expand(size - fileSize); }
      } else {
        if shrink { res := cache.Expand(fileSize - size); } else { res := cache.Shrink(fileSize - size); }
      }
      if res == Success {
        return Success;
      }
      err := SetApiError(res);
    }

    /** Give the source file its full size before the first operation. */
    method CheckStart() returns (err: ApiError)
      requires Valid()
      modifies this`local, this`sized, this`error, cache`cacheSize
      ensures Valid()
      ensures err == Success ==> sized && error == old(error)
      ensures err == Success && old(cache.cacheSize) >= |old(local)| && !old(sized) ==>
                cache.cacheSize - |local| == old(cache.cacheSize) - |old(local)|
      ensures old(sized) ==> err == Success && local == old(local) && cache.cacheSize == old(cache.cacheSize)
      ensures !IsSoft(old(error)) ==> error == old(error)
      ensures CacheWorks() ==> err == Success
    {
      hide Refines, LastChunkSize, Truncated;
      if sized {
        return Success;
      }
      if |local| == fileSize {
        AllocatedRefines(Img());
        sized := true;
        return Success;
      }
      err := AdjustCacheSize(|local|, true);
      if err != Success {
        return;
      }
      TruncateToSize();
    }

    /** The end of `check_start`. The mutex is given up before it, so another thread may have been here first,
        or have resized the file since: then, unless that resize is under way, nothing changes any more. */
    method TruncateToSize()
      requires Valid()
      modifies this`local, this`sized
      ensures Valid() && sized && |local| == fileSize
      ensures old(sized) ==> local == old(local)
    {
      hide Refines, LastChunkSize, Truncated;
      SizedLocal();
      FileSizeIsLogical();
      if sized {
        TruncatedToItself(local);
      } else {
        AllocatedRefines(Img());
      }
      local := Truncated(local, fileSize);
      sized := true;
      SizedLocal();
    }

    // ---- downloads ----

    /** How many bytes a download of `chunk` asks for. */
    function DownloadSize(chunk: nat): nat
      reads this
    {
      if chunk + 1 == |readState| then lastChunkSize else chunkSize
    }

    /** Whether a download of `chunk` has to fetch it. */
    predicate NeedsFetch(chunk: nat)
      reads this
    {
      error == Success && chunk < |readState| && !readState[chunk]
    }

    /** A chunk that has to be fetched is asked for with exactly its extent in the present file. */
    lemma DownloadAsksForExtent(chunk: nat)
      requires Valid() && NeedsFetch(chunk)
      ensures DownloadSize(chunk) == Min(chunkSize, fileSize - chunk * chunkSize)
      ensures 0 < DownloadSize(chunk)
    {
      hide ByteRefined, DivideWithCeiling;
      ChunkExtent(fileSize, chunkSize, chunk);
      LastChunkSizeIsRemainder(fileSize, chunkSize);
    }

    /** Store a fetched chunk; its bit follows its bytes. */
    method StoreChunk(chunk: nat, offset: nat, buffer: seq<byte>)
      requires Valid() && NeedsFetch(chunk)
      requires offset == chunk * chunkSize && buffer == ProviderRange(provider, offset, DownloadSize(chunk))
      modifies this`local, this`readState
      ensures Valid() && readState == old(readState)[chunk := true]
    {
      hide Refines, LastChunkSize, WriteAt, ProviderRange, DivideWithCeiling;
      DownloadAsksForExtent(chunk);
      DownloadedRefines(Img(), chunk, DownloadSize(chunk));
      ghost var next := Downloaded(Img(), chunk, DownloadSize(chunk));
      local := WriteAt(local, offset, buffer);
      readState := readState[chunk := true];
      assert Img() == next;
    }

    /** The fetch itself runs on other threads that need `rw_mtx_`, so the caller must not hold it. */
    method Fetch(chunk: nat)
      requires Valid() && NeedsFetch(chunk) && rwDepth == 0
      modifies this`faults, this`local, this`readState, this`error
      ensures Valid() && |readState| == |old(readState)|
      ensures readState == if error == Success then old(readState)[chunk := true] else old(readState)
      ensures faults >= old(faults)
      ensures faults == old(faults) ==> error == old(error)
    {
      hide Refines, Valid, ProviderRange;
      MulMonotone(0, chunk, chunkSize);
      var offset: nat := chunk * chunkSize;
      var err, buffer := ReadFileBytes(DownloadSize(chunk), offset);
      if err != Success {
        var _ := SetApiError(err);
        return;
      }
      var ok := DoIo();
      if !ok {
        StorePart(chunk, offset, buffer);
        var _ := SetApiError(OsError);
        return;
      }
      StoreChunk(chunk, offset, buffer);
    }

    /** A store that fails may have written any number of bytes before. */
    method StorePart(chunk: nat, offset: nat, buffer: seq<byte>)
      requires Valid() && NeedsFetch(chunk)
      requires offset == chunk * chunkSize && buffer == ProviderRange(provider, offset, DownloadSize(chunk))
      modifies this`local
      ensures Valid()
    {
      hide Refines, LastChunkSize, WriteAt, ProviderRange, DivideWithCeiling;
      DownloadAsksForExtent(chunk);
      var count: nat :| count <= |buffer|;
      var part := buffer[..count];
      PartlyStoredRefines(Img(), chunk, DownloadSize(chunk), part);
      ghost var next := PartlyStored(Img(), chunk, part);
      local := WriteAt(local, offset, part);
      assert Img() == next;
    }

    /** A real chunk is never fetched again, and an error starts no fetch. */
    method DownloadChunk(chunk: nat)
      requires Valid() && (NeedsFetch(chunk) ==> rwDepth == 0)
      modifies this`faults, this`local, this`readState, this`error
      ensures Valid() && |readState| == |old(readState)|
      ensures !old(NeedsFetch(chunk)) ==> local == old(local) && readState == old(readState) && error == old(error)
      ensures old(NeedsFetch(chunk)) ==>
                readState == if error == Success then old(readState)[chunk := true] else old(readState)
      ensures faults >= old(faults)
      ensures faults == old(faults) ==> error == old(error)
    {
      if error == Success && chunk < |readState| && !readState[chunk] {
        Fetch(chunk);
      }
    }

    method DownloadRange(beginChunk: nat, endChunk: nat)
      requires Valid() && rwDepth == 0
      modifies this`faults, this`local, this`readState, this`error
      ensures Valid() && |readState| == |old(readState)|
      ensures BitsGrow(old(readState), readState)
      ensures error == Success ==> RangeReal(readState, beginChunk, endChunk)
      ensures old(error) != Success ==> local == old(local) && readState == old(readState) && error == old(error)
      ensures sized ==> |local| == |old(local)|
      ensures faults >= old(faults)
      ensures faults == old(faults) ==> error == old(error)
    {
      hide Refines, Valid, LastChunkSize;
      SizedLocal();
      var chunk := beginChunk;
      while error == Success && chunk <= endChunk
        invariant Valid() && |readState| == |old(readState)|
        invariant chunk >= beginChunk
        invariant BitsGrow(old(readState), readState)
        invariant error == Success ==> RangeReal(readState, beginChunk, chunk - 1)
        invariant old(error) != Success ==> local == old(local) && readState == old(readState) && error == old(error)
        invariant faults >= old(faults) && (faults == old(faults) ==> error == old(error))
        decreases endChunk + 1 - chunk
      {
        DownloadChunk(chunk);
        chunk := chunk + 1;
      }
      SizedLocal();
    }

    // ---- reading ----

    /** The part of a read before it takes `rw_mtx_`: its size and its chunks. `checks` says that the latch is
        looked at once more. */
    method ReadBegin(size: nat, offset: nat) returns (err: ApiError, n: nat, checks: bool)
      requires Valid() && rwDepth == 0
      modifies this`faults, this`local, this`readState, this`sized, this`error, this`readChunk, cache`cacheSize
      ensures Valid() && BitsGrow(old(readState), readState) && (old(sized) ==> sized)
      ensures err == Success ==> n == CalculateReadSize(fileSize, size, offset)
      ensures err == Success && n > 0 ==> sized && ReadReady(offset, n)
      ensures err == Success && checks ==> error == Success
      ensures err == Success && old(cache.cacheSize) >= |old(local)| ==>
                cache.cacheSize - |local| == old(cache.cacheSize) - |old(local)|
      ensures stopRequested || shutdown ==> err != Success && err == error
      ensures !IsSoft(old(error)) ==> error == old(error)
      ensures faults >= old(faults)
      ensures old(Running()) && faults == old(faults) ==> err == Success && error == Success
    {
      hide Refines, Valid, DivideWithCeiling, NeedsFetch, ChunkOf;
      n, checks := 0, false;
      if stopRequested || shutdown {
        err := SetApiError(DownloadStopped);
        return;
      }
      n := CalculateReadSize(fileSize, size, offset);
      if n == 0 {
        return Success, 0, false;
      }
      err := CheckStart();
      if err != Success {
        return;
      }
      ChunkSizePositive();
      if !AllSet(readState) {
        readChunk := ChunkOf(offset, chunkSize);
        DownloadRange(ChunkOf(offset, chunkSize), ChunkOf(offset + n, chunkSize));
        return error, n, true;
      }
    }

    /** Every chunk the read touches is real. */
    predicate ReadReady(offset: nat, n: nat)
      reads this`readState
    {
      chunkSize > 0 && RangeReal(readState, ChunkOf(offset, chunkSize), ChunkOf(offset + n, chunkSize))
    }

    /** The part of a read behind `rw_mtx_`: bytes of the file as it is then. */
    method ReadEnd(offset: nat, n: nat, checks: bool) returns (err: ApiError, data: seq<byte>)
      requires Valid() && n > 0 && sized && ReadReady(offset, n)
      modifies this`faults
      ensures err == Success ==> data == Window(logical, offset, n)
      ensures err != Success ==> data == []
      ensures faults >= old(faults)
      ensures error == Success && faults == old(faults) ==> err == Success
    {
      hide Refines, Valid, ChunkOf;
      data := [];
      if checks && error != Success {
        return error, [];
      }
      WindowIsLogical(offset, n);
      var ok := DoIo();
      if !ok {
        return OsError, [];
      }
      return Success, Window(local, offset, n);
    }

    /** A successful read returns the logical bytes and changes nothing a reader could see. */
    method Read(size: nat, offset: nat) returns (err: ApiError, data: seq<byte>)
      requires Valid() && rwDepth == 0
      modifies this`faults, this`local, this`readState, this`sized, this`error, this`readChunk, cache`cacheSize
      ensures Valid() && BitsGrow(old(readState), readState) && (old(sized) ==> sized)
      ensures err == Success ==> data == LogicalRead(logical, size, offset)
      ensures err == Success && old(cache.cacheSize) >= |old(local)| ==>
                cache.cacheSize - |local| == old(cache.cacheSize) - |old(local)|
      ensures stopRequested || shutdown ==> err != Success && err == error && data == []
      ensures !IsSoft(old(error)) ==> error == old(error)
      ensures faults >= old(faults)
      ensures old(Running()) && faults == old(faults) ==> err == Success && error == Success
    {
      hide Refines, Valid, Window, ReadReady;
      var n, checks;
      data := [];
      FileSizeIsLogical();
      err, n, checks := ReadBegin(size, offset);
      if err != Success || n == 0 {
        return;
      }
      FileSizeIsLogical();
      WindowInside(logical, offset, n);
      err, data := ReadEnd(offset, n, checks);
    }

    lemma ChunkSizePositive()
      requires Valid()
      ensures chunkSize > 0
    {
    }

    /** A byte of a real chunk, or one behind the end. */
    lemma WindowIsLogical(offset: nat, n: nat)
      requires Valid() && n > 0 && sized && ReadReady(offset, n)
      ensures Window(local, offset, n) == Window(logical, offset, n)
    {
      hide Refines, ChunkOf, Window;
      SizedLocal();
      FileSizeIsLogical();
      RealWindow(Img(), offset, n);
    }

    // ---- resizing ----

    /** The final chunk of the file after a resize to `size`. */
    function FinalChunk(size: nat): nat {
      var count := DivideWithCeiling(size, chunkSize);
      if count == 0 then 0 else count - 1
    }

    /** What must be real before a resize: the chunk that becomes the final one, unless it is new. */
    predicate FinalReady(size: nat)
      reads this`readState
    {
      size == 0 || RangeReal(readState, FinalChunk(size), FinalChunk(size))
    }

    /** The bookkeeping of a resize after the local file has its new size. */
    method AdoptSize(newSize: nat)
      requires Valid() && sized && FinalReady(newSize)
      modifies this`local, this`readState, this`lastChunkSize, this`fileSize, this`logical
      ensures Valid() && fileSize == newSize && logical == Truncated(old(logical), newSize)
      ensures Img() == Resized(old(Img()), newSize)
    {
      hide Refines, ResizedBits, Truncated, DivideWithCeiling, LastChunkSize;
      ChunkSizePositive();
      CeilingBounds(newSize, chunkSize);
      ResizedRefines(Img(), newSize);
      KeptBits(readState);
      local := Truncated(local, newSize);
      var count := DivideWithCeiling(newSize, chunkSize);
      if newSize == 0 || |readState| != count {
        readState := ResizedBits(readState, count);
        lastChunkSize := LastChunkSize(newSize, chunkSize);
      }
      fileSize := newSize;
      logical := Truncated(logical, newSize);
    }

    lemma SizedLocal()
      requires Valid()
      ensures sized ==> |local| == fileSize
    {
    }

    /** Make the chunk that becomes the final one real. Around the download the code gives `rw_mtx_` up
        once only, so a caller that already holds it must leave nothing to fetch. */
    method DownloadFinalChunk(newSize: nat) returns (err: ApiError)
      requires Valid() && (rwDepth > 0 && NeedsFetch(FinalChunk(newSize)) ==> newSize == 0)
      modifies this`faults, this`local, this`readState, this`error, this`readChunk
      ensures Valid() && |readState| == |old(readState)| && (sized ==> |local| == fileSize)
      ensures BitsGrow(old(readState), readState)
      ensures err == Success ==> FinalReady(newSize)
      ensures err == Success && old(FinalReady(newSize)) ==> error == old(error)
      ensures err != Success ==> err == error
      ensures old(error) == Success && err == Success ==> error == Success
      ensures !IsSoft(old(error)) ==> error == old(error)
      ensures faults >= old(faults)
      ensures old(error) == Success && faults == old(faults) ==> err == Success
    {
      hide Refines, LastChunkSize, DivideWithCeiling;
      var lastChunk := FinalChunk(newSize);
      if newSize != 0 && lastChunk < |readState| {
        readChunk := 0;
        DownloadChunk(lastChunk);
        SizedLocal();
        if error != Success {
          return error;
        }
      }
      SizedLocal();
      return Success;
    }

    /** The part of a resize behind `rw_mtx_`: the file operation and its bookkeeping. */
    method ResizeEnd(newSize: nat) returns (err: ApiError)
      requires Valid() && sized && FinalReady(newSize)
      modifies this`faults, this`local, this`readState, this`error, this`lastChunkSize, this`fileSize, this`logical,
               this`modified, this`removed, mgr
      ensures Valid() && |local| == fileSize && BitsGrow(old(readState), readState)
      ensures err == Success ==> fileSize == newSize && error == old(error) && (newSize != old(fileSize) ==> modified)
      ensures err == Success ==> logical == Truncated(old(logical), newSize)
      ensures logical != old(logical) ==> logical == Truncated(old(logical), newSize) && modified
      ensures old(modified) ==> modified
      ensures !IsSoft(old(error)) ==> error == old(error)
      ensures unlinked ==> mgr.tables == old(mgr.tables)
      ensures faults >= old(faults)
      ensures faults == old(faults) ==> err == Success
    {
      hide Refines, LastChunkSize, Truncated, ResizedBits, DivideWithCeiling, StoreResume, RemoveUpload, FinalReady,
           FinalChunk;
      SizedLocal();
      FileSizeIsLogical();
      var ok := DoIo();
      if !ok {
        return OsError;
      }
      var originalFileSize := fileSize;
      ResizedBitsGrow(readState, DivideWithCeiling(newSize, chunkSize));
      AdoptSize(newSize);
      SizedLocal();
      if originalFileSize == newSize {
        TruncatedToItself(old(logical));
        return Success;
      }
      SetModified();
      if unlinked {
        return Success;
      }
      var metaError := SetItemMeta();
      if metaError != Success {
        err := SetApiError(metaError);
        return;
      }
      return Success;
    }

    /** The checks in front of a resize, and its share of the cache account. */
    method PrepareResize(newSize: nat) returns (err: ApiError)
      requires Valid()
      modifies this`local, this`sized, this`error, cache`cacheSize
      ensures Valid() && (old(sized) ==> sized)
      ensures err == Success ==> sized && |local| == fileSize && error == old(error)
      ensures err == Success && old(cache.cacheSize) >= |old(local)| ==>
                cache.cacheSize - newSize == old(cache.cacheSize) - |old(local)|
      ensures old(Running()) ==> err == Success
      ensures !IsSoft(old(error)) ==> error == old(error)
    {
      hide Refines, Valid, LastChunkSize, Truncated, DivideWithCeiling;
      if stopRequested || shutdown {
        err := SetApiError(DownloadStopped);
        return;
      }
      SizedLocal();
      err := CheckStart();
      if err != Success {
        return;
      }
      SizedLocal();
      err := AdjustCacheSize(newSize, false);
    }

    /** The part of a resize before it takes `rw_mtx_` again; a resize to the present size ends here. */
    method ResizeBegin(newSize: nat) returns (err: ApiError, goesOn: bool)
      requires Valid() && (rwDepth > 0 && NeedsFetch(FinalChunk(newSize)) ==> newSize == 0)
      modifies this`faults, this`local, this`readState, this`sized, this`error, this`readChunk, cache`cacheSize
      ensures Valid() && BitsGrow(old(readState), readState) && (old(sized) ==> sized)
      ensures goesOn <==> err == Success && newSize != fileSize
      ensures goesOn ==> sized && FinalReady(newSize)
      ensures !goesOn && err == Success ==> |local| == |old(local)| && cache.cacheSize == old(cache.cacheSize)
      ensures goesOn && old(cache.cacheSize) >= |old(local)| ==>
                cache.cacheSize - newSize == old(cache.cacheSize) - |old(local)|
      ensures old(error) == Success && err == Success ==> error == Success
      ensures !IsSoft(old(error)) ==> error == old(error)
      ensures faults >= old(faults)
      ensures old(Running()) && faults == old(faults) ==> err == Success && error == Success
    {
      hide Refines, Valid, LastChunkSize, Truncated, DivideWithCeiling, FinalReady, FinalChunk;
      if newSize == fileSize {
        return Success, false;
      }
      err := PrepareResize(newSize);
      if err != Success {
        return err, false;
      }
      err := DownloadFinalChunk(newSize);
      goesOn := err == Success;
    }

    /** `resize`: after it the file is the old one, cut or extended with zeros, the bits grew with set
        bits only, and the cache account moved with the local file. */
    method Resize(newSize: nat) returns (err: ApiError)
      requires Valid() && (rwDepth > 0 && NeedsFetch(FinalChunk(newSize)) ==> newSize == 0)
      modifies this`faults, this`local, this`readState, this`sized, this`error, this`readChunk, this`lastChunkSize,
               this`fileSize, this`logical, this`modified, this`removed, cache`cacheSize, mgr
      ensures Valid() && BitsGrow(old(readState), readState) && (old(sized) ==> sized)
      ensures err == Success ==> fileSize == newSize && logical == Truncated(old(logical), newSize)
      ensures err == Success && newSize != old(fileSize) ==> modified && sized
      ensures logical != old(logical) ==> logical == Truncated(old(logical), newSize) && modified
      ensures err == Success && old(cache.cacheSize) >= |old(local)| ==>
                cache.cacheSize - |local| == old(cache.cacheSize) - |old(local)|
      ensures old(error) == Success && err == Success ==> error == Success
      ensures !IsSoft(old(error)) ==> error == old(error)
      ensures faults >= old(faults)
      ensures old(Running()) && faults == old(faults) ==> err == Success && error == Success
    {
      hide Refines, Valid, LastChunkSize, Truncated, DivideWithCeiling, FinalReady, FinalChunk;
      FileSizeIsLogical();
      TruncatedToItself(logical);
      var goesOn;
      err, goesOn := ResizeBegin(newSize);
      if !goesOn {
        return;
      }
      ghost var before := readState;
      err := ResizeEnd(newSize);
      BitsGrowOn(old(readState), before, readState);
    }

    lemma FileSizeIsLogical()
      requires Valid()
      ensures fileSize == |logical|
    {
    }

    // ---- writing ----

    /** Every chunk the write touches is real, as far as the file goes. */
    predicate WriteReady(offset: nat, size: nat)
      reads this`readState
    {
      chunkSize > 0 && RangeReal(readState, ChunkOf(offset, chunkSize), ChunkOf(offset + size, chunkSize))
    }

    /** The range a write downloads first always covers the final chunk its resize asks for. */
    lemma WriteRangeCoversResize(offset: nat, size: nat, count: nat)
      requires chunkSize > 0 && size > 0
      ensures var last := FinalChunk(offset + size);
              ChunkOf(offset, chunkSize) <= last <= ChunkOf(offset + size, chunkSize) &&
              (last < count ==> last <= count - 1)
    {
      var end := offset + size - 1;
      hide ChunkOf;
      ChunkOfMonotone(offset, end, chunkSize);
      ChunkOfMonotone(end, offset + size, chunkSize);
      ChunkOfUnique(end, chunkSize, ChunkOf(end, chunkSize));
      LastByteInFinalChunk(offset + size, ChunkOf(end, chunkSize));
    }

    lemma LastByteInFinalChunk(size: nat, c: nat)
      requires chunkSize > 0 && size > 0 && c * chunkSize <= size - 1 < (c + 1) * chunkSize
      ensures c == FinalChunk(size)
    {
      CeilingUnique(size, chunkSize, c + 1);
    }

    /** The final chunk a write downloads: `read_state.size() - 1` wraps around when there is no chunk. */
    function LastToDownload(end: nat): nat
      reads this`readState
    {
      Min(if |readState| == 0 then 0xFFFF_FFFF_FFFF_FFFF else |readState| - 1, end)
    }

    /** The resize in the middle of a write finds nothing to fetch, if no bit has been cleared since the write made
        its chunks real, with the bits as they were then. */
    lemma ResizeNeedsNoFetch(was: seq<bool>, offset: nat, size: nat)
      requires chunkSize > 0 && size > 0 && BitsGrow(was, readState)
      requires RangeReal(was, ChunkOf(offset, chunkSize), ChunkOf(offset + size, chunkSize))
      ensures !NeedsFetch(FinalChunk(offset + size)) && WriteReady(offset, size)
    {
      hide ChunkOf, FinalChunk;
      WriteRangeCoversResize(offset, size, |readState|);
      RangeStaysReal(was, readState, ChunkOf(offset, chunkSize), ChunkOf(offset + size, chunkSize));
    }

    lemma WrittenChunksPresent(offset: nat, size: nat)
      requires Valid() && size > 0 && WriteReady(offset, size)
      ensures Present(Img(), offset, size)
    {
      hide Refines, ChunkOf;
      ChunkOfMonotone(offset + size - 1, offset + size, chunkSize);
      ChunksPresent(Img(), offset, size, ChunkOf(offset, chunkSize), ChunkOf(offset + size, chunkSize));
    }

    /** The part of a write before it takes `rw_mtx_`: make every present chunk it touches real. */
    method WriteBegin(offset: nat, size: nat) returns (err: ApiError)
      requires Valid() && rwDepth == 0 && size > 0
      modifies this`faults, this`local, this`readState, this`sized, this`error, this`readChunk, cache`cacheSize
      ensures Valid() && BitsGrow(old(readState), readState) && (old(sized) ==> sized)
      ensures old(error) != Success || stopRequested || shutdown ==> err != Success
      ensures err == Success ==> sized && error == Success && WriteReady(offset, size)
      ensures err == Success && old(cache.cacheSize) >= |old(local)| ==>
                cache.cacheSize - |local| == old(cache.cacheSize) - |old(local)|
      ensures !IsSoft(old(error)) ==> error == old(error)
      ensures faults >= old(faults)
      ensures old(Running()) && faults == old(faults) ==> err == Success && error == Success
    {
      hide Refines, Valid, ChunkOf, NeedsFetch;
      if stopRequested || shutdown {
        err := SetApiError(DownloadStopped);
        return;
      }
      ChunkSizePositive();
      err := CheckStart();
      if err != Success {
        return;
      }
      readChunk := ChunkOf(offset, chunkSize);
      DownloadRange(ChunkOf(offset, chunkSize), LastToDownload(ChunkOf(offset + size, chunkSize)));
      err := error;
    }

    /** The middle of a write: extend the file to the end of the write, without giving `rw_mtx_` up. */
    method GrowForWrite(offset: nat, size: nat) returns (err: ApiError)
      requires Valid() && sized && size > 0 && WriteReady(offset, size)
      modifies this`faults, this`local, this`readState, this`sized, this`error, this`readChunk, this`lastChunkSize,
               this`fileSize, this`logical, this`modified, this`removed, cache`cacheSize, mgr
      ensures Valid() && sized && BitsGrow(old(readState), readState)
      ensures err == Success ==> logical == Grown(old(logical), offset + size) && offset + size <= fileSize
      ensures err == Success && old(error) == Success ==> error == Success
      ensures err == Success ==> Present(Img(), offset, size)
      ensures logical != old(logical) ==> logical == Grown(old(logical), offset + size) && modified
      ensures err == Success && old(cache.cacheSize) >= |old(local)| ==>
                cache.cacheSize - |local| == old(cache.cacheSize) - |old(local)|
      ensures !IsSoft(old(error)) ==> error == old(error)
      ensures faults >= old(faults)
      ensures old(Running()) && faults == old(faults) ==> err == Success && error == Success
    {
      hide Refines, Valid, WriteAt, Truncated, FinalChunk, ChunkOf, Present, NeedsFetch, RangeReal;
      FileSizeIsLogical();
      ghost var was := readState;
      ResizeNeedsNoFetch(was, offset, size);
      if offset + size > fileSize {
        err := Resize(offset + size);
        if err != Success {
          return;
        }
      }
      FileSizeIsLogical();
      ResizeNeedsNoFetch(was, offset, size);
      WrittenChunksPresent(offset, size);
      return Success;
    }

    /** A file write that may stop half way; what it has written lies in real chunks. */
    method WriteLocal(offset: nat, data: seq<byte>) returns (ok: bool, ghost count: nat)
      requires Valid() && sized && data != [] && offset + |data| <= fileSize && Present(Img(), offset, |data|)
      modifies this`faults, this`local, this`logical
      ensures Valid() && |local| == |old(local)|
      ensures count <= |data| && logical == WriteAt(old(logical), offset, data[..count])
      ensures ok ==> count == |data|
      ensures faults == if ok then old(faults) else old(faults) + 1
    {
      hide Refines, WriteAt, LastChunkSize, Present;
      ChunkSizePositive();
      SizedLocal();
      FileSizeIsLogical();
      ok := DoIo();
      var some: nat :| some <= |data|;
      var part := if ok then data else data[..some];
      count := |part|;
      assert data[..count] == part;
      PresentPrefix(offset, |data|, count);
      WrittenRefines(Img(), offset, part);
      local, logical := WriteAt(local, offset, part), WriteAt(logical, offset, part);
    }

    lemma PresentPrefix(offset: nat, size: nat, part: nat)
      requires chunkSize > 0 && part <= size && Present(Img(), offset, size)
      ensures Present(Img(), offset, part)
    {
    }

    /** The file operation of a write and its bookkeeping. */
    method StoreWrite(offset: nat, data: seq<byte>) returns (err: ApiError, written: nat, ghost count: nat)
      requires Valid() && sized && data != [] && offset + |data| <= fileSize && Present(Img(), offset, |data|)
      modifies this`faults, this`local, this`logical, this`error, this`modified, this`removed, mgr
      ensures Valid()
      ensures count <= |data| && logical == WriteAt(old(logical), offset, data[..count])
      ensures written > 0 ==> written == count == |data|
      ensures |local| == |old(local)|
      ensures err == Success ==> written == |data| && modified && error == old(error)
      ensures err != Success ==> err == error
      ensures old(modified) ==> modified
      ensures !IsSoft(old(error)) ==> error == old(error)
      ensures faults >= old(faults)
      ensures faults == old(faults) ==> err == Success
    {
      hide Refines, Valid, WriteAt, Truncated, StoreResume, RemoveUpload, LastChunkSize, Present;
      written := 0;
      var ok;
      ok, count := WriteLocal(offset, data);
      if !ok {
        err := SetApiError(OsError);
        return;
      }
      written := |data|;
      if unlinked {
        SetModified();
        return Success, written, count;
      }
      var metaError := SetItemMeta();
      if metaError != Success {
        err := SetApiError(metaError);
        return;
      }
      SetModified();
      return Success, written, count;
    }

    /** The part of a write behind `rw_mtx_`. The resize in the middle runs with the mutex held. */
    method WriteEnd(offset: nat, data: seq<byte>) returns (err: ApiError, written: nat)
      requires Valid() && rwDepth == 0 && sized && data != [] && WriteReady(offset, |data|)
      modifies this`faults, this`local, this`readState, this`sized, this`error, this`readChunk, this`lastChunkSize,
               this`fileSize, this`logical, this`modified, this`removed, this`rwDepth, cache`cacheSize, mgr
      ensures Valid() && rwDepth == 0 && sized && BitsGrow(old(readState), readState)
      ensures err == Success ==> written == |data| && modified
      ensures written > 0 ==> written == |data| && logical == LogicalWrite(old(logical), offset, data)
      ensures logical == old(logical) || WroteSome(old(logical), offset, data, logical)
      ensures err == Success && old(cache.cacheSize) >= |old(local)| ==>
                cache.cacheSize - |local| == old(cache.cacheSize) - |old(local)|
      ensures logical != old(logical) ==> modified || error != Success
      ensures !IsSoft(old(error)) ==> error == old(error)
      ensures faults >= old(faults)
      ensures old(Running()) && faults == old(faults) ==> err == Success && error == Success
    {
      hide Refines, Valid, WriteAt, Truncated, LogicalWrite, Grown, ChunkOf, Present, NeedsFetch, RangeReal, WroteSome;
      written := 0;
      rwDepth := rwDepth + 1;
      err := GrowForWrite(offset, |data|);
      GrownIsSome(old(logical), offset, data);
      if err != Success {
        rwDepth := rwDepth - 1;
        return;
      }
      ghost var grown, bits, count := logical, readState, 0;
      err, written, count := StoreWrite(offset, data);
      PartIsSome(old(logical), offset, data, count);
      WriteIsLogicalWrite(old(logical), offset, data);
      rwDepth := rwDepth - 1;
    }

    /**
     `write`: on success the file is the old one, extended with zeros up to the end of the write if it
     was shorter, with `data` over it.
     */
    method Write(offset: nat, data: seq<byte>) returns (err: ApiError, written: nat)
      requires Valid() && rwDepth == 0
      modifies this`faults, this`local, this`readState, this`sized, this`error, this`readChunk, this`lastChunkSize,
               this`fileSize, this`logical, this`modified, this`removed, this`rwDepth, cache`cacheSize, mgr
      ensures Valid() && rwDepth == 0 && BitsGrow(old(readState), readState) && (old(sized) ==> sized)
      ensures err == Success ==> written == |data| && (data != [] ==> modified)
      ensures written > 0 ==> written == |data| && logical == LogicalWrite(old(logical), offset, data)
      ensures logical == old(logical) || WroteSome(old(logical), offset, data, logical)
      ensures data == [] ==> err == Success && logical == old(logical)
      ensures err == Success && old(cache.cacheSize) >= |old(local)| ==>
                cache.cacheSize - |local| == old(cache.cacheSize) - |old(local)|
      ensures data != [] && (stopRequested || shutdown || old(error) != Success) ==>
                err != Success && logical == old(logical)
      ensures logical != old(logical) ==> modified || error != Success
      ensures !IsSoft(old(error)) ==> error == old(error)
      ensures faults >= old(faults)
      ensures old(Running()) && faults == old(faults) ==> err == Success && error == Success
    {
      hide Refines, Valid, WriteAt, Truncated, LogicalWrite, Grown, NeedsFetch, WriteReady, WroteSome;
      written := 0;
      if data == [] {
        return Success, 0;
      }
      err := WriteBegin(offset, |data|);
      if err != Success {
        return;
      }
      ghost var before := readState;
      err, written := WriteEnd(offset, data);
      BitsGrowOn(old(readState), before, readState);
    }

    // ---- closing ----

    /** `remove`: a closed handle queues the upload of a complete, error-free file. */
    method Remove(handle: nat)
      requires Valid()
      modifies this`handles, this`modified, this`removed, mgr
      ensures Valid() && handles == old(handles) - {handle}
      ensures modified <==> old(modified) && !(AllSet(readState) && error == Success)
      ensures mgr.tables == if old(modified) && !modified && !unlinked then
                QueueUpload(old(mgr.tables), apiPath, sourcePath)
                            else old(mgr.tables)
      ensures removed <==> old(removed) && handles != {}
      ensures old(modified) && AllSet(readState) && error == Success && !unlinked ==>
                IsQueuedLast(mgr.tables, apiPath, sourcePath) && apiPath !in mgr.tables.resume
      ensures OthersStay(old(mgr.tables), mgr.tables, apiPath)
    {
      hide Refines, QueueUpload, IsQueuedLast, OthersStay;
      QueueingIs(mgr.tables, apiPath, sourcePath);
      OthersStayThemselves(mgr.tables, mgr.tables, apiPath);
      handles := handles - {handle};
      if modified && AllSet(readState) && error == Success {
        mgr.DoQueueUpload(apiPath, sourcePath, unlinked);
        modified := false;
      }
      if removed && handles == {} {
        removed := false;
      }
    }

    /** `remove_all` drops the changes, but not a hard error. */
    method RemoveAll()
      requires Valid()
      modifies this`handles, this`modified, this`removed, this`error, mgr
      ensures Valid() && handles == {} && !modified && removed
      ensures mgr.tables == RemoveUpload(old(mgr.tables), apiPath)
      ensures error == if IsSoft(old(error)) then Success else old(error)
      ensures IsNotUploaded(mgr.tables, apiPath) && OthersStay(old(mgr.tables), mgr.tables, apiPath)
    {
      hide Refines, RemoveUpload, IsNotUploaded, OthersStay;
      RemovalIs(mgr.tables, apiPath);
      handles := {};
      modified, removed := false, true;
      mgr.DoRemoveUpload(apiPath);
      var _ := SetApiError(Success);
    }

    /** The errors `close` adds before it looks at the outcome. */
    method LatchAtClose()
      modifies this`error
      ensures error == LatchedAtClose(modified, AllSet(readState), fileSize, old(error))
    {
      if IsSoft(error) {
        if modified && !AllSet(readState) {
          var _ := SetApiError(DownloadIncomplete);
        } else if !modified && fileSize > 0 && !AllSet(readState) {
          var _ := SetApiError(DownloadStopped);
        }
      }
    }

    /** `remove_source_and_shrink_cache`, and the new name for the source. */
    method DiscardSource(newSource: string)
      requires Valid()
      modifies this`local, this`sourcePath, cache`cacheSize
      ensures local == [] && sourcePath == newSource
      ensures var freed := if sized && |old(local)| > 0 then fileSize else 0;
              cache.cacheSize == if old(cache.cacheSize) >= freed then old(cache.cacheSize) - freed else 0
    {
      var _ := cache.Shrink(if !sized || |local| == 0 then 0 else fileSize);
      local, sourcePath := [], newSource;
    }

    /** What `close` does once no thread uses the file any more. */
    method FinishClose(newSource: string)
      requires Valid()
      modifies this`error, this`local, this`sourcePath, cache`cacheSize, mgr
      ensures var outcome := OutcomeOfClose(unlinked, modified, AllSet(readState), fileSize, old(error));
              && mgr.tables == TablesAfterClose(outcome, old(mgr.tables), apiPath,
                                                ResumeEntry(chunkSize, readState, old(sourcePath)))
              && local == (if outcome == Discard then [] else old(local))
              && sourcePath == (if outcome == Discard then newSource else old(sourcePath))
              && cache.cacheSize == (if outcome == Discard && sized && |old(local)| > 0
                                     then (if old(cache.cacheSize) >= fileSize then old(cache.cacheSize) - fileSize
                                           else 0)
                                     else old(cache.cacheSize))
    {
      hide Refines, Valid, QueueUpload, StoreResume, RemoveResume;
      LatchAtClose();
      if unlinked {
        return;
      }
      if modified && error == Success {
        mgr.DoQueueUpload(apiPath, sourcePath, unlinked);
        return;
      }
      if modified && error == DownloadIncomplete {
        mgr.DoStoreResume(apiPath, ResumeEntry(chunkSize, readState, sourcePath), unlinked);
        return;
      }
      if error != Success || AllSet(readState) {
        mgr.DoRemoveResume(apiPath);
      }
      if error == Success {
        return;
      }
      DiscardSource(newSource);
    }

    /**
     `close`. Afterwards a linked file without a resume entry whose source has the file's size holds the
     file's bytes, which is all a later open looks at; and a resume entry together with the source is
     enough to continue with the same logical bytes.
     */
    method Close(newSource: string) returns (ok: bool)
      requires Valid()
      modifies this`stopRequested, this`error, this`local, this`sourcePath, cache`cacheSize, mgr
      ensures ok == !old(stopRequested) && stopRequested
      ensures !ok ==> local == old(local) && sourcePath == old(sourcePath) && mgr.tables == old(mgr.tables)
      ensures ok ==>
                var outcome := OutcomeOfClose(unlinked, modified, AllSet(readState), fileSize, old(error));
                && mgr.tables == TablesAfterClose(outcome, old(mgr.tables), apiPath,
                                                  ResumeEntry(chunkSize, readState, old(sourcePath)))
                && local == (if outcome == Discard then [] else old(local))
                && sourcePath == (if outcome == Discard then newSource else old(sourcePath))
      ensures ok ==> OthersStay(old(mgr.tables), mgr.tables, apiPath)
      ensures ok && !(!unlinked && modified && AllSet(readState) && old(error) == Success) ==>
                SameUploads(old(mgr.tables), mgr.tables)
      ensures ok && !unlinked && modified && AllSet(readState) && old(error) == Success ==>
                IsQueuedLast(mgr.tables, apiPath, old(sourcePath)) && apiPath !in mgr.tables.resume
      ensures ok && !unlinked && modified && StaysUnfinished(AllSet(readState), old(error)) ==>
                && apiPath in mgr.tables.resume && local == old(local) && sourcePath == old(sourcePath)
                && mgr.tables.resume[apiPath] == ResumeEntry(chunkSize, readState, sourcePath)
      ensures ok && !unlinked && !modified && AllSet(readState) && old(error) == Success ==>
                apiPath !in mgr.tables.resume && local == old(local) && sourcePath == old(sourcePath)
      ensures ok && !unlinked && IsGivenUp(modified, AllSet(readState), old(error)) ==>
                apiPath !in mgr.tables.resume && local == [] && sourcePath == newSource
      ensures ok && unlinked ==> mgr.tables == old(mgr.tables) && local == old(local) && sourcePath == old(sourcePath)
      ensures ok && !unlinked && apiPath !in mgr.tables.resume && |local| == fileSize ==> local == logical
      ensures ok && !unlinked && apiPath in mgr.tables.resume ==>
                Resumable(mgr.tables.resume[apiPath], sourcePath, fileSize, local, provider, logical)
      ensures old(cache.cacheSize) >= Max(fileSize, |old(local)|) ==>
                (cache.cacheSize - |local| == old(cache.cacheSize) - |old(local)| <==>
                 local == old(local) || sized)
    {
      hide Refines, Valid, QueueUpload, StoreResume, RemoveResume, OthersStay, SameUploads, IsQueuedLast,
           StaysUnfinished, IsGivenUp;
      SizedLocal();
      FileSizeIsLogical();
      CompleteIsLogical();
      if stopRequested {
        return false;
      }
      stopRequested := true;
      ReopenSound(mgr.tables);
      NoChunks();
      CloseTables(unlinked, modified, AllSet(readState), fileSize, error, mgr.tables, apiPath,
                  ResumeEntry(chunkSize, readState, sourcePath));
      FinishClose(newSource);
      return true;
    }

    /** Whatever the outcome, the tables tell a later open what the source holds. */
    lemma ReopenSound(t: Tables)
      requires Valid()
      ensures var outcome := OutcomeOfClose(false, modified, AllSet(readState), fileSize, error);
              var after := TablesAfterClose(outcome, t, apiPath, ResumeEntry(chunkSize, readState, sourcePath));
              && (apiPath in after.resume <==> outcome == Resume)
              && (outcome == Resume ==>
                  Resumable(after.resume[apiPath], sourcePath, fileSize, local, provider, logical))
              && (outcome in {Upload, Forget} ==> AllSet(readState))
    {
      hide Refines;
      NoChunks();
      SizedLocal();
    }

    lemma NoChunks()
      requires Valid()
      ensures fileSize == 0 ==> AllSet(readState)
    {
    }

    lemma CompleteIsLogical()
      requires Valid()
      ensures AllSet(readState) && |local| == fileSize ==> local == logical
    {
      hide DivideWithCeiling, ChunkOf;
      if AllSet(readState) && |local| == fileSize {
        forall j: nat | j < |logical|
          ensures local[j] == logical[j]
        {
          assert ByteRefined(Img(), j);
        }
      }
    }
  }

  // ---- whole runs ----

  datatype Op =
    | ReadOp(size: nat, offset: nat)
    | WriteOp(offset: nat, data: seq<byte>)
    | ResizeOp(size: nat)
    | DownloadOp(chunk: nat)
    | CloseHandleOp(handle: nat)

  /** An operation, its result, and the bytes a read handed out. */
  datatype Event = Event(op: Op, err: ApiError, data: seq<byte>)

  /** The same operation on a flat byte string. A failed write or resize may have changed the file before
      it failed, but only to what the operation was to produce on the way. */
  ghost predicate FlatStep(s: seq<byte>, e: Event, t: seq<byte>) {
    match e.op
    case ReadOp(size, offset) => t == s && (e.err == Success ==> e.data == LogicalRead(s, size, offset))
    case WriteOp(offset, data) =>
      if e.err == Success then t == (if data == [] then s else LogicalWrite(s, offset, data))
      else t == s || WroteSome(s, offset, data, t)
    case ResizeOp(size) => if e.err == Success then t == Truncated(s, size) else t in {s, Truncated(s, size)}
    case DownloadOp(_) => t == s
    case CloseHandleOp(_) => t == s
  }

  method Apply(f: OpenFile, op: Op) returns (e: Event)
    requires f.Valid() && f.rwDepth == 0
    modifies f, f.cache, f.mgr
    ensures f.Valid() && f.rwDepth == 0
    ensures e.op == op && FlatStep(old(f.logical), e, f.logical)
    ensures BitsGrow(old(f.readState), f.readState) && (old(f.sized) ==> f.sized)
    ensures !IsSoft(old(f.error)) ==> f.error == old(f.error)
    ensures f.faults >= old(f.faults)
    ensures old(f.Running()) && f.faults == old(f.faults) ==> e.err == Success && f.Running()
  {
    hide Refines, f.Valid, Truncated, LogicalWrite, LogicalRead, WroteSome;
    match op
    case ReadOp(size, offset) =>
      var err, data := f.Read(size, offset);
      e := Event(op, err, data);
    case WriteOp(offset, data) =>
      var err, _ := f.Write(offset, data);
      e := Event(op, err, []);
    case ResizeOp(size) =>
      var err := f.Resize(size);
      e := Event(op, err, []);
    case DownloadOp(chunk) =>
      f.DownloadChunk(chunk);
      e := Event(op, f.error, []);
    case CloseHandleOp(handle) =>
      f.Remove(handle);
      e := Event(op, Success, []);
  }

  /** Every run of an open file is a run of the flat byte string, a hard error is never cleared, and as long as
      the provider, the file system and the cache do their part every operation succeeds. */
  method Run(f: OpenFile, ops: seq<Op>) returns (events: seq<Event>, ghost states: seq<seq<byte>>)
    requires f.Valid() && f.rwDepth == 0
    modifies f, f.cache, f.mgr
    ensures f.Valid() && f.rwDepth == 0
    ensures |events| == |ops| && |states| == |ops| + 1
    ensures states[0] == old(f.logical) && states[|ops|] == f.logical
    ensures forall i :: 0 <= i < |ops| ==> events[i].op == ops[i] && FlatStep(states[i], events[i], states[i + 1])
    ensures !IsSoft(old(f.error)) ==> f.error == old(f.error)
    ensures old(f.Running()) && f.faults == old(f.faults) ==> forall e :: e in events ==> e.err == Success
  {
    hide f.Valid, FlatStep;
    events, states := [], [f.logical];
    for k := 0 to |ops|
      invariant f.Valid() && f.rwDepth == 0
      invariant |events| == k && |states| == k + 1
      invariant states[0] == old(f.logical) && states[k] == f.logical
      invariant forall i :: 0 <= i < k ==> events[i].op == ops[i] && FlatStep(states[i], events[i], states[i + 1])
      invariant !IsSoft(old(f.error)) ==> f.error == old(f.error)
      invariant f.faults >= old(f.faults)
      invariant old(f.Running()) && f.faults == old(f.faults) ==>
                  f.Running() && forall e :: e in events ==> e.err == Success
    {
      var e := Apply(f, ops[k]);
      events, states := events + [e], states + [f.logical];
    }
  }

  /** The flat file, byte by byte: what a read hands out, what a write and a change of the size leave. */
  lemma FlatBytes(s: seq<byte>, offset: nat, size: nat, data: seq<byte>)
    ensures var r := LogicalRead(s, size, offset);
            && |r| <= size && (|r| > 0 ==> offset + |r| <= |s|) && (|r| < size ==> offset + |r| >= |s|)
            && forall i :: 0 <= i < |r| ==> r[i] == s[offset + i]
    ensures var w := LogicalWrite(s, offset, data);
            && |w| == (if offset + |data| > |s| then offset + |data| else |s|)
            && forall j :: 0 <= j < |w| ==>
                 w[j] == if offset <= j < offset + |data| then data[j - offset] else if j < |s| then s[j] else 0
    ensures var c := Truncated(s, size);
            |c| == size && forall j :: 0 <= j < size ==> c[j] == if j < |s| then s[j] else 0
  {
  }

  /** Shrinking and growing again leaves zeros where the cut bytes were. */
  lemma ShrinkThenGrow(s: seq<byte>, small: nat, large: nat, offset: nat, size: nat)
    requires small <= |s| && small <= offset && offset + size <= large
    ensures LogicalRead(Truncated(Truncated(s, small), large), size, offset) == Zeros(size)
  {
    var grown := Truncated(Truncated(s, small), large);
    assert forall j :: small <= j < large ==> grown[j] == 0;
  }

  function TablesAfterClose(outcome: CloseOutcome, t: Tables, path: string, entry: ResumeEntry): Tables {
    match outcome
    case Leave => t
    case Upload => QueueUpload(t, path, entry.sourcePath)
    case Resume => StoreResume(t, path, entry)
    case Forget => RemoveResume(t, path)
    case Discard => RemoveResume(t, path)
  }

  lemma WriteIsLogicalWrite(logical: seq<byte>, offset: nat, data: seq<byte>)
    ensures data != [] ==>
              LogicalWrite(logical, offset, data) == WriteAt(Grown(logical, offset + |data|), offset, data[..|data|])
  {
    assert data[..|data|] == data;
  }

  lemma PartIsSome(logical: seq<byte>, offset: nat, data: seq<byte>, count: nat)
    requires count <= |data|
    ensures WroteSome(logical, offset, data, WriteAt(Grown(logical, offset + |data|), offset, data[..count]))
  {
    assert PartWritten(logical, offset, data, count) == WriteAt(Grown(logical, offset + |data|), offset, data[..count]);
  }

  lemma GrownIsSome(logical: seq<byte>, offset: nat, data: seq<byte>)
    ensures WroteSome(logical, offset, data, Grown(logical, offset + |data|))
  {
    PartIsSome(logical, offset, data, 0);
  }

  lemma FreshImageRefines(m: Image, complete: bool)
    requires m.chunk > 0 && |m.bits| == DivideWithCeiling(|m.logical|, m.chunk)
    requires forall c :: 0 <= c < |m.bits| ==> m.bits[c] == complete
    requires m.sized == complete
    requires complete ==> m.local == m.logical
    requires !complete ==> m.logical == m.provider || m.logical == []
    ensures Refines(m)
  {
    hide ChunkOf, DivideWithCeiling;
    CeilingBounds(|m.logical|, m.chunk);
    forall j: nat | j < |m.logical|
      ensures ByteRefined(m, j)
    {
      ChunkOfInFile(j, |m.logical|, m.chunk);
    }
  }
}
