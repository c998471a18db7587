# Verified model of the repertory file cache, encrypted-file format and codecs

This project models the parts of repertory that decide whether user data survives: the chunked
encrypted-file format and its two readers, the lazily downloaded writable cache file with its upload and
eviction life cycle, the single-worker file, and the codecs and path rules the encrypted names are built
from. Every file states what the code of one component does and proves what its callers rely on.

| file | component |
|---|---|
| `Bytes.dfy`, `ChunkMath.dfy` | byte strings; the size arithmetic of chunked files with a symbolic chunk size |
| `EncryptedFormat.dfy` | the layout `iv ++ mac ++ ciphertext`, streams, size formulas; the cipher is a parameter with the contract of RFC 5116 |
| `RangeReader.dfy` | `read_encrypted_range`, and the round trip through a stream |
| `EncryptingReader.dfy` | the seekable `encrypting_reader` with its chunk cache |
| `EncFile.dfy` | `enc_file`: size, read, shrink |
| `FileImage.dfy`, `OpenFile.dfy` | `open_file` as a class whose ghost field is the flat byte string a user sees |
| `FileThreads.dfy`, `FileEffects.dfy`, `FileRaces.dfy` | threads inside one `open_file`, as a step system over its sections and file operations; what they do to the flat byte string; runs that go wrong |
| `CacheSize.dfy`, `CacheAccounting.dfy` | `cache_size_mgr`, and the account over all files |
| `UploadQueue.dfy` | the upload, upload_active and resume tables and the upload thread |
| `Eviction.dfy` | eviction against the threads that write, close and upload, as a step system |
| `FileTable.dfy` | the tables of open paths and of handles without a path, and what each operation moves in them |
| `HandleLifetime.dfy`, `RemovedSources.dfy` | closes in three steps among the other operations; when the source of a removed file is deleted |
| `FileManager.dfy` | `file_manager` with these tables as fields |
| `DownloadProtocol.dfy` | several threads that want the same chunk, as a step system |
| `ThreadFile.dfy` | `thread_file`: submitters and one worker, as a step system |
| `Base64.dfy`, `KdfHeader.dfy`, `EncryptedPaths.dfy` | the codecs, the key header, encrypted names and paths |
| `ApiPath.dfy` | `create_api_path` and `get_parent_api_path` |

A step system has one step per section the code runs under a lock, and per unprotected access that
matters; its theorems quantify over all runs. Loops and fields are methods and classes, proved against
functions; the laws are lemmas about these functions.

## What the proofs found

Each of these is stated by a lemma with the run or the input, next to the condition under which the code is right.

- `is_processing` reads the running uploads, then the queue, then the modified flag: the order in which an
  upload moves is the reverse. An upload that starts, or a close that queues one, between two of these reads
  is missed, and `evict_file` deletes its source (`Eviction.PromotionSlipsPast`, `Eviction.CloseSlipsPast`).
  So is a write whose handle is closed before the handles are counted (`Eviction.WriteSlipsPast`).
- Queueing an upload removes the path from the tables and then adds it, and `is_processing` reads the queue
  without `upload_mtx_`: an upload that is being queued again at that moment is missed as well
  (`Eviction.RequeueSlipsPast`, `Eviction.CloseRequeueSlipsPast`, `Eviction.RequeuedUploadIsLost`).
- `evict_file` and `close_timed_out_files` take the object out of the table under `open_file_mtx_` and delete
  or discard its source after they have given it up. A path opened in between writes to a source that is
  being deleted, or has been; an evicted object that a closing thread still holds can give the source of a
  new one up even later (`Eviction.OpenSlipsPastEviction`, `Eviction.OpenSlipsPastEvictedClose`,
  `Eviction.OpenSlipsPastTimeOut`, `Eviction.LateWriteIsLost`).
- A file that fails, or is read during shutdown, after its upload was queued is closed with its source
  discarded (`Eviction.FailedCloseLoses`; `OpenFile.ChangesDiscarded` for changes that are not queued yet).
- `io_item::done` sets `complete` before `success`, and `wait` looks at `complete` without the lock: a
  submitter can be told that a successful operation failed (`ThreadFile.SuccessReportedAsFailure`).
- Removing a path whose cached object has no handles leaves the source file behind
  (`RemovedSources.RemovedWithoutHandles`).
- `close` looks its handle up, erases it and finishes in three sections. A removal of the path between the
  first two leaves the entry and the source behind; an upgrade to a writable object leaves the closed handle
  on the new object for ever (`HandleLifetime.RemovalDuringClose`, `HandleLifetime.UpgradeDuringClose`,
  `HandleLifetime.UpgradeDuringUnlinkedClose`). Nothing else disturbs it (`HandleLifetime.CloseEndsExactly`).
- The cache account goes wrong by two first operations or two resizes at once, by an expansion that is
  stopped, by a resize or a first truncation that fails, by resizing a removed file, by removing a file in the
  middle of a resize, by giving up an object that has its bytes but was never marked as allocated, and by
  downloads for pinned files, which store bytes before the file is allocated and so before they are counted;
  by nothing else that is modelled (`CacheAccounting.StepKeepsAccount` and the lemmas behind it).
- A resize copies the bits, changes the file and stores the copy, and a download sets its bit in between
  without the mutex: the bit is lost, the chunk is fetched again, and a write that relied on it is overwritten
  (`FileRaces.LostWrite`, `FileEffects.MarkIsForgotten`, `DownloadProtocol.ResizeLosesExactly`).
- A truncation of `check_start` that comes late undoes the file operation of a resize, which then fails and
  latches an error, or leaves the file shorter than its size (`FileRaces.LateTruncationFailsResize`,
  `FileEffects.ComparedExactly`, `FileEffects.LateTruncationShortens`).
- A read takes its size when it begins and its bytes when it ends. Between the halves of an extending write or
  of a shortening resize the recorded size is too large, and a read that begins there and asks for the end of
  the file returns zeros that no flat file has (`FileRaces.TornRead`, `FileEffects.ReadsExactly`).
- A relative parent path with a slash in front, as API paths have, encrypts to a path that cannot be decrypted
  (`EncryptedPaths.WhenNamesAreEmpty`).
- A caller of `download_chunk` that has seen no error starts its fetch even if one is latched meanwhile
  (`DownloadProtocol.LateErrorIsMissed`).

## Model

| member | source | states |
|---|---|---|
| `EncryptedFormat.DecryptEncrypt` | support/include/utils/encryption.hpp:263-281 | decrypting what was encrypted with the same key and nonce gives the plaintext back exactly if it is not empty; an empty one is refused |
| `EncryptedFormat.LawfulAeadExists` | support/include/utils/encryption.hpp:333-363 | the contract asked of the cipher (sections 2.1 and 2.2 of RFC 5116) can be met with any nonce and tag length |
| `EncryptedFormat.ChunkCountsAgree` | support/src/utils/encrypting_reader.cpp:406-444 | counting chunks from the plaintext size and from the encrypted size, with different divisors, gives the same number |
| `EncryptedFormat.DecryptedSizeOfEncryptedSize` | support/src/utils/encrypting_reader.cpp:406-444 | the decrypted size undoes the encrypted size for every file size, chunk size and header flag |
| `EncryptedFormat.EncryptedSizeOfDecryptedSize` | support/src/utils/encrypting_reader.cpp:406-444 | the converse holds on exactly the lengths that leave no chunk consisting of a header alone |
| `EncryptedFormat.StreamSizeOfFile` | support/src/utils/encrypting_reader.cpp:437-444 | every encrypted size is such a length |
| `EncryptedFormat.StreamLength` | support/src/utils/encrypting_reader.cpp:467-475 | the stream is exactly as long as the calculated encrypted size |
| `EncryptedFormat.CipherChunkDecrypts` | support/src/utils/encrypting_reader.cpp:656-672 | no chunk of a file is empty, so every encrypted chunk decrypts to its plaintext |
| `EncryptedFormat.CipherChunkLength` | support/src/utils/encrypting_reader.cpp:656-672 | every chunk but the last has the full encrypted size, and each is longer than its header |
| `EncryptedFormat.ValidJobExists` | support/src/utils/encrypting_reader.cpp:446-484 | there is a valid stream for every source, header, chunk size, nonce length and tag length, so the theorems are not empty |
| `EncryptedFormat.ChunkInStream` | support/src/utils/encrypting_reader.cpp:646-648 | chunk i starts i encrypted chunk sizes behind the header, and the last chunk ends the stream |
| `EncryptedFormat.EncryptedIsSealed` | support/include/utils/encryption.hpp:333-363 | the bytes of an encrypted buffer: nonce, tag, ciphertext, sealed with its length in four bytes, most significant first, as associated data |
| `EncryptedFormat.SizeTagBytes` | support/include/utils/encryption.hpp:344-345 | these four bytes, also of a length that does not fit them |
| `EncryptedFormat.StreamBytes` | support/src/utils/encrypting_reader.cpp:656-672 | chunk i of the stream is its slice of the source sealed under nonce i, i whole encrypted chunks behind the header |
| `RangeReader.RequestedExtent` | support/src/utils/encryption.cpp:258-264 | the extent asked for a chunk is never empty and is its header plus its share of the file, short last chunk included |
| `RangeReader.CopyChunks` | support/src/utils/encryption.cpp:253-287 | the copy loop succeeds exactly if every chunk fetches and authenticates, and has then copied the range piece by piece to the front of the buffer |
| `RangeReader.ReadEncryptedRange` | support/src/utils/encryption.cpp:213-290 | succeeds exactly if every touched chunk does, counts exactly the bytes of the clipped range, and overlays them on the caller's vector or span |
| `RangeReader.ExtentInStream` | support/src/utils/encryption.cpp:260-264 | the extent asked for chunk i is where the encrypting reader's stream keeps chunk i, although the two sides use different offsets |
| `RangeReader.StreamServesSource` | support/src/utils/encryption.cpp:266-273 | a callback that hands out slices of a stream serves every chunk of its source |
| `RangeReader.ReadRangeOfStream` | support/src/utils/encryption.cpp:213-290 | end to end: any range read out of any stream is the source's bytes from begin up to end, cut at the end of the file, and nothing for an empty range or one past the end |
| `EncryptingReader.LocateInStream` | support/src/utils/encrypting_reader.cpp:646-648 | dividing by the encrypted chunk size finds the chunk and the offset in it for every position behind the header |
| `EncryptingReader.StreamStep` | support/src/utils/encrypting_reader.cpp:677-684 | a piece of a cached chunk is the stream's bytes at the read position, and the byte behind a chunk is the next chunk's first |
| `EncryptingReader.FileDataIsPlainChunk` | support/src/utils/encrypting_reader.cpp:658-668 | the buffer read for a chunk, sized by last_data_chunk_, is exactly its plaintext |
| `EncryptingReader.EncryptingReader.constructor` | support/src/utils/encrypting_reader.cpp:446-484 | the total size is the calculated encrypted size and the stream's length |
| `EncryptingReader.EncryptingReader.CacheChunk` | support/src/utils/encrypting_reader.cpp:656-675 | a missing chunk is encrypted afresh, a cached one drops its predecessor; every cached chunk stays equal to its fresh encryption |
| `EncryptingReader.EncryptingReader.ReadPiece` | support/src/utils/encrypting_reader.cpp:655-685 | one turn of the loop delivers stream bytes, makes progress and stops at the next chunk's first byte |
| `EncryptingReader.EncryptingReader.ReadChunks` | support/src/utils/encrypting_reader.cpp:651-685 | the loop writes exactly the requested stream slice, whatever the cache held or evicted |
| `EncryptingReader.EncryptingReader.ReadHeader` | support/src/utils/encrypting_reader.cpp:623-643 | the part of a read that falls into the header delivers header bytes |
| `EncryptingReader.EncryptingReader.ReaderFunction` | support/src/utils/encrypting_reader.cpp:608-698 | from any position and any cache: delivers the ideal stream slice of length min(requested, total - position), advances by it, leaves the rest of the buffer alone, and returns the error value exactly at or behind the end (or past the header of an empty source) |
| `EncryptingReader.EncryptingReader.DeliveredBytes` | support/src/utils/encrypting_reader.cpp:656-698 | so what a read of one chunk delivers is that chunk's slice of the source sealed under that chunk's nonce |
| `EncFile.RealSizeIsEncryptedSize` | support/src/utils/file_enc_file.cpp:104-117 | truncate computes the same size as calculate_encrypted_size |
| `EncFile.CutToPrefix` | support/src/utils/file_enc_file.cpp:119-122 | cutting the encrypted file there leaves the encrypted form of the prefix |
| `EncFile.EncFile.Size` | support/src/utils/file_enc_file.cpp:178-190 | the reported size is the plaintext's |
| `EncFile.EncFile.Read` | support/src/utils/file_enc_file.cpp:52-86 | a read delivers the plaintext from the offset, as much as was asked for or is there, into the caller's span |
| `EncFile.EncFile.Truncate` | support/src/utils/file_enc_file.cpp:90-159 | succeeds exactly for zero, the present size and smaller whole numbers of chunks; the file then decrypts to the prefix; a refused shrink has cut the file already |
| `ChunkMath.ChunkExtent` | support/include/utils/common.hpp:101-109 | chunks [i*chunk, (i+1)*chunk) below the ceiling quotient lie in the file, are not empty and only the last is short |
| `ChunkMath.LastChunkSizeIsRemainder` | repertory/librepertory/src/file_manager/open_file_base.cpp:84-87 | the last chunk size computed from the remainder is what is left behind the other chunks |
| `FileImage.DownloadedRefines` | repertory/librepertory/src/file_manager/open_file.cpp:312-392 | storing a fetched chunk and setting its bit keeps the refinement of the flat byte string |
| `FileImage.PartlyStoredRefines` | repertory/librepertory/src/file_manager/open_file.cpp:371-386 | so does storing any part of it without setting the bit, as a store that fails half way does |
| `FileImage.ResizedByte` | repertory/librepertory/src/file_manager/open_file.cpp:486-531 | a byte that comes back when a file grows is a zero, never the provider's byte, even inside the old final chunk |
| `FileImage.ResizedRefines` | repertory/librepertory/src/file_manager/open_file.cpp:486-539 | a resize whose final chunk is new or real keeps the refinement and leaves the final chunk's bit set |
| `FileImage.WrittenRefines` | repertory/librepertory/src/file_manager/open_file.cpp:778-788 | writing into real chunks keeps the refinement |
| `FileImage.AllocatedRefines` | repertory/librepertory/src/file_manager/open_file.cpp:163-201 | giving the local file its full size keeps the refinement |
| `FileImage.LocalIsLogical` | repertory/librepertory/src/file_manager/open_file.cpp:590-604 | bytes in real chunks read from the local file are the logical bytes |
| `OpenFile.HardErrorStays` | repertory/librepertory/src/file_manager/open_file_base.cpp:390-401 | an error stays whatever comes later exactly if it is none of success, download_incomplete and download_stopped |
| `OpenFile.UploadOnlyWhenComplete` | repertory/librepertory/src/file_manager/open_file.cpp:223-247 | close queues an upload exactly for a linked, modified, complete file without an error |
| `OpenFile.ChangesDiscarded` | repertory/librepertory/src/file_manager/open_file.cpp:223-269 | close throws changes away exactly if a hard error is latched, or if the file is complete and download_stopped was left by a call during shutdown |
| `OpenFile.KeptFilesAreComplete` | repertory/librepertory/src/file_manager/open_file.cpp:223-261 | a linked file whose source is kept without a resume entry is complete |
| `OpenFile.OpenFile.Open` | repertory/librepertory/src/file_manager/open_file.cpp:97-117 | a new object stands for the local file if its size fits and for the provider's bytes otherwise |
| `OpenFile.OpenFile.Restore` | repertory/librepertory/src/file_manager/open_file.cpp:89-95 | a file restored from its resume entry has the logical bytes it was closed with, and is modified |
| `OpenFile.OpenFile.SetApiError` | repertory/librepertory/src/file_manager/open_file_base.cpp:390-401 | success, download_incomplete and download_stopped are replaced, every other error stays |
| `OpenFile.OpenFile.AdjustCacheSize` | repertory/librepertory/src/file_manager/open_file.cpp:126-161 | moves the account by the distance between the sizes, in the direction the flag says |
| `OpenFile.OpenFile.CheckStart` | repertory/librepertory/src/file_manager/open_file.cpp:163-201 | makes the local file full-size once; the account moves with it |
| `OpenFile.OpenFile.TruncateToSize` | repertory/librepertory/src/file_manager/open_file.cpp:191-200 | its end, run later by a thread that was overtaken, with no resize under way: the file is full-size afterwards, and unchanged if another thread has made it so or resized it meanwhile |
| `OpenFile.OpenFile.DownloadAsksForExtent` | repertory/librepertory/src/file_manager/open_file.cpp:312-314 | a chunk that is fetched is asked for with exactly its extent in the present file, although last_chunk_size may be stale for chunks that are not |
| `OpenFile.OpenFile.StoreChunk` | repertory/librepertory/src/file_manager/open_file.cpp:371-392 | the bit is set after the bytes, and the object stays valid |
| `OpenFile.OpenFile.StorePart` | repertory/librepertory/src/file_manager/open_file.cpp:371-386 | a store that fails after any number of bytes keeps the object valid |
| `OpenFile.OpenFile.DownloadChunk` | repertory/librepertory/src/file_manager/open_file.cpp:288-397 | fetches only a missing chunk without an error, never with rw_mtx_ held, and sets its bit exactly on success |
| `OpenFile.OpenFile.DownloadRange` | repertory/librepertory/src/file_manager/open_file.cpp:399-406 | without an error afterwards every chunk of the range is real; real chunks stay real; with an error before nothing changes |
| `OpenFile.OpenFile.ReadBegin` | repertory/librepertory/src/file_manager/open_file.cpp:568-620 | before rw_mtx_ is taken: the size the read will have and, on success, every chunk it touches real |
| `OpenFile.OpenFile.WindowIsLogical` | repertory/librepertory/src/file_manager/open_file.cpp:590-604 | with these chunks real the local file has the logical bytes at the offset, also if it has become shorter: behind its end both have nothing |
| `OpenFile.OpenFile.ReadEnd` | repertory/librepertory/src/file_manager/open_file.cpp:590-625 | behind rw_mtx_: hands out the logical bytes of that moment, zeros behind the end |
| `OpenFile.OpenFile.Read` | repertory/librepertory/src/file_manager/open_file.cpp:568-625 | both parts together: a successful read returns the logical bytes, cut at the end, and keeps the account right; it succeeds unless the provider, the file system or the cache fails, the object is stopped or an error is latched |
| `OpenFile.OpenFile.PrepareResize` | repertory/librepertory/src/file_manager/open_file.cpp:452-464 | the checks in front of a resize succeed whenever the object runs and the cache works, and move the account to the new size |
| `OpenFile.OpenFile.DownloadFinalChunk` | repertory/librepertory/src/file_manager/open_file.cpp:466-484 | afterwards the chunk that becomes the final one is real or new; with rw_mtx_ held nothing is fetched |
| `OpenFile.OpenFile.ResizeBegin` | repertory/librepertory/src/file_manager/open_file.cpp:443-484 | before rw_mtx_ is taken again: the account has moved, the local file is full-size and the chunk that becomes the final one is real or new |
| `OpenFile.OpenFile.ResizeEnd` | repertory/librepertory/src/file_manager/open_file.cpp:486-566 | behind rw_mtx_ and undisturbed, in whatever state the file is by then: it is cut or extended with zeros to the new size, or unchanged; set bits stay set and new ones come set |
| `OpenFile.OpenFile.Resize` | repertory/librepertory/src/file_manager/open_file.cpp:443-566 | both parts together: after success the file is the old one cut or extended with zeros, modified, with the account moved by as much as the local file; it succeeds under the same conditions as a read |
| `OpenFile.OpenFile.WriteRangeCoversResize` | repertory/librepertory/src/file_manager/open_file.cpp:758-776 | the chunk range a write downloads contains the final chunk its resize asks for |
| `OpenFile.OpenFile.ResizeNeedsNoFetch` | repertory/librepertory/src/file_manager/open_file.cpp:758-776 | so the resize nested in a write never starts a download, if no bit has been cleared since the write made its chunks real |
| `OpenFile.OpenFile.WriteBegin` | repertory/librepertory/src/file_manager/open_file.cpp:735-768 | before rw_mtx_ is taken: every present chunk the write touches is real |
| `OpenFile.OpenFile.WriteLocal` | repertory/librepertory/src/file_manager/open_file.cpp:778-788 | a file write stores all of the data, or fails after any number of bytes; what it stored lies in real chunks, so the object stays valid |
| `OpenFile.OpenFile.StoreWrite` | repertory/librepertory/src/file_manager/open_file.cpp:778-815 | latches every failure, marks the file modified on success, and reports bytes only for a complete write |
| `OpenFile.OpenFile.WriteEnd` | repertory/librepertory/src/file_manager/open_file.cpp:770-815 | behind rw_mtx_ and undisturbed, in whatever state the file is by then: on success it is that file, extended with zeros to the end of the write, with the data over it; otherwise it is unchanged, or grown with a part of the data in it |
| `OpenFile.OpenFile.Write` | repertory/librepertory/src/file_manager/open_file.cpp:735-815 | both parts together; stops and latched errors change nothing, and nothing but a failure of the provider, the file system or the cache makes it fail |
| `OpenFile.OpenFile.SetModified` | repertory/librepertory/src/file_manager/open_file.cpp:670-687 | stores a resume entry with the first change and takes the path out of the upload tables once; entries of other paths stay |
| `OpenFile.OpenFile.Remove` | repertory/librepertory/src/file_manager/open_file.cpp:627-640 | closing a handle queues the upload last, with the file's source, and clears the modified flag, exactly if the file is modified, complete and without error; entries of other paths stay |
| `OpenFile.OpenFile.RemoveAll` | repertory/librepertory/src/file_manager/open_file.cpp:642-652 | drops the changes and the upload but not a hard error, and touches no other path |
| `OpenFile.OpenFile.ReopenSound` | repertory/librepertory/src/file_manager/open_file.cpp:223-278 | whatever the outcome of close, the resume table holds the path exactly if the outcome says so, and then with an entry that stands for the file |
| `OpenFile.CloseTables` | repertory/librepertory/src/file_manager/open_file.cpp:223-278 | what close does to the tables, case by case on modified, complete and the error, with the values of the error named |
| `OpenFile.OpenFile.Close` | repertory/librepertory/src/file_manager/open_file.cpp:203-278 | a linked, modified, complete file without an error is the last upload, with its source, and in no other table; every other outcome leaves the uploads alone, and other paths stay in every case; an unfinished one has a resume entry; a linked path without a resume entry whose source has the file's size holds exactly the file's bytes; a resume entry with its source still stands for the logical bytes; the account stays right exactly if nothing was discarded or the file was allocated |
| `OpenFile.Apply` | repertory/librepertory/src/file_manager/open_file.cpp:443-815 | each operation is a step of the flat byte string |
| `OpenFile.Run` | repertory/librepertory/src/file_manager/open_file.cpp:288-815 | every sequence of whole reads, writes, resizes, chunk downloads and handle closes is a run of the flat byte string; a hard error is never cleared; without failures of provider, file system and cache every operation of the run succeeds |
| `OpenFile.ShrinkThenGrow` | repertory/librepertory/src/file_manager/open_file.cpp:516-531 | after a shrink and a grow the cut bytes read as zeros |
| `OpenFile.FlatBytes` | repertory/librepertory/src/file_manager/open_file.cpp:443-815 | the flat file byte by byte: what a read hands out, and which byte is where after a write and after a change of the size |
| `FileThreads.StepKeepsInv` | repertory/librepertory/src/file_manager/open_file.cpp:163-815 | every section of every call but two hazards keeps the object in order: the settled part of the file refines the flat byte string, the copied bits are the bits, what calls have looked at is real, downloads fit, and whoever holds rw_mtx_ is where it should be |
| `FileThreads.AdoptedIsResized` | repertory/librepertory/src/file_manager/open_file.cpp:486-539 | file operation, stored bits and new size together are the resize of the object as it was, whatever downloads have stored meanwhile |
| `FileThreads.WritePresent` | repertory/librepertory/src/file_manager/open_file.cpp:758-788 | when a write gets to its file operation its bytes lie in real chunks |
| `FileThreads.FitsLonger` | repertory/librepertory/src/file_manager/open_file.cpp:312-326 | a download asked for before the file grew still brings all the provider has of its chunk |
| `FileThreads.FitsShorter` | repertory/librepertory/src/file_manager/open_file.cpp:312-326 | a download of a chunk that is not cut off does not write behind the end of a file that was shortened meanwhile |
| `FileEffects.ReadsWhole` | repertory/librepertory/src/file_manager/open_file.cpp:590-625 | a read that has real chunks hands out the bytes of the flat file at any moment, with or without rw_mtx_, in the middle of a resize or a write too |
| `FileEffects.StepTakesEffect` | repertory/librepertory/src/file_manager/open_file.cpp:486-815 | each step does to the flat byte string exactly what its call is for, or nothing: a shortening resize with its file operation, an extending one with the new size, a write with its file operation |
| `FileEffects.RunIsFlat` | repertory/librepertory/src/file_manager/open_file.cpp:163-815 | so in every interleaving without a hazard; and without a failure of the provider or the file system no call fails and no error is latched |
| `FileEffects.HolderGoesOn` | repertory/librepertory/src/file_manager/open_file.cpp:770-776 | whoever holds rw_mtx_ can go on; in particular the resize in a write never needs a download, which would wait for the write's own mutex |
| `FileEffects.MarkIsForgotten` | repertory/librepertory/src/file_manager/open_file.cpp:486-525 | a bit a download sets after a resize that changes the number of chunks has copied the bits is missing in what the resize stores |
| `FileEffects.AdoptedKeepExactly` | repertory/librepertory/src/file_manager/open_file.cpp:512-525 | the stored bits keep every bit that is set exactly if the copy has it or the number of chunks stays |
| `FileEffects.UndoneExactly` | repertory/librepertory/src/file_manager/open_file.cpp:189-200 | while a resize is between its file operation and its end, the file has lost the new size exactly if a late truncation of check_start has come in between, whatever else has |
| `FileEffects.ComparedExactly` | repertory/librepertory/src/file_manager/open_file.cpp:489-510 | so the comparison of the sizes fails exactly then, although provider and file system have not failed |
| `FileEffects.LateTruncationShortens` | repertory/librepertory/src/file_manager/open_file.cpp:498-540 | after the comparison a late truncation leaves the file with its old length and the object with the new size |
| `FileEffects.RecordedSize` | repertory/librepertory/src/file_manager/open_file.cpp:443-540 | the recorded size is larger than the flat file exactly between the two halves of an extending write or of a shortening resize |
| `FileEffects.LooksExactly` | repertory/librepertory/src/file_manager/open_file.cpp:578-584 | a read works with the right size exactly if it is not asked, at such a moment, for bytes behind the flat file |
| `FileEffects.ReadsExactly` | repertory/librepertory/src/file_manager/open_file.cpp:568-625 | a read that begins and ends with the same flat file is a read of that file exactly then |
| `FileRaces.TornRead` | repertory/librepertory/src/file_manager/open_file.cpp:606-609 | a read of a complete file between the halves of an appending write returns a zero that neither the file before nor the one after the write has there |
| `FileRaces.LateTruncationFailsResize` | repertory/librepertory/src/file_manager/open_file.cpp:183-200 | a run in which a late truncation makes a resize fail and latch an error, with no other failure |
| `FileRaces.LostWrite` | repertory/librepertory/src/file_manager/open_file.cpp:486-525 | a run without any failure in which a write succeeds and a later read returns the provider's byte in its place |
| `CacheSize.CacheSizeMgr.Expand` | repertory/librepertory/src/file_manager/cache_size_mgr.cpp:34-69 | adds the size at once and fails only when not initialised or when stopped |
| `CacheSize.CacheSizeMgr.Shrink` | repertory/librepertory/src/file_manager/cache_size_mgr.cpp:98-118 | takes the size off and stops at zero |
| `CacheSize.CacheSizeMgr.Initialize` | repertory/librepertory/src/file_manager/cache_size_mgr.cpp:75-96 | the account begins as the size of the cache directory |
| `CacheAccounting.StartsRight` | repertory/librepertory/src/file_manager/cache_size_mgr.cpp:75-96 | so it begins right for files that are local as a whole or not at all, whatever else lies in the directory |
| `CacheAccounting.RightFromTheStart` | repertory/librepertory/src/file_manager/cache_size_mgr.cpp:34-118 | and is the size of the directory after every run without a hazard from the start on |
| `CacheAccounting.StepKeepsAccount` | repertory/librepertory/src/file_manager/open_file.cpp:126-201 | a step leaves a right account right exactly if it is not one of eight hazards, stated as guards; the others take off no more than is there, so the branch of shrink that stops at zero is reached by hazards only |
| `CacheAccounting.RunKeepsAccount` | repertory/librepertory/src/file_manager/open_file.cpp:443-492 | so over every run without a hazard, with any number of first operations and resizes under way |
| `CacheAccounting.AccountStaysRight` | repertory/librepertory/src/file_manager/cache_size_mgr.cpp:34-118 | and when no call is under way the account is the size of the cache directory |
| `CacheAccounting.TwoFirstOperations` | repertory/librepertory/src/file_manager/open_file.cpp:183-200 | two threads that both find the local file too short both add the file's size: the account stays too high by it |
| `CacheAccounting.StoppedExpansion` | repertory/librepertory/src/file_manager/cache_size_mgr.cpp:48-69 | an expansion that is stopped while it waits for room has added the size already, and nothing is stored |
| `CacheAccounting.FailedTruncation` | repertory/librepertory/src/file_manager/open_file.cpp:191-197 | a truncation that fails in a first operation is reported as success, and the next operation adds the size again |
| `CacheAccounting.FailedResize` | repertory/librepertory/src/file_manager/open_file.cpp:460-491 | a resize that fails in its download or its truncation leaves the account moved |
| `CacheAccounting.TwoResizes` | repertory/librepertory/src/file_manager/open_file.cpp:460-492 | two growing resizes at once both add the distance from the old size |
| `CacheAccounting.RemovedFileGrows` | repertory/librepertory/src/file_manager/file_manager.cpp:759-789 | a removed file that grows while it is open is added and never taken off |
| `CacheAccounting.UncountedDownload` | repertory/librepertory/src/file_manager/file_manager.cpp:224-281 | bytes downloaded before the file was allocated are not counted, and an eviction takes the file's size off all the same |
| `UploadQueue.UploadManager.DoRemoveUpload` | repertory/librepertory/src/file_manager/file_manager.cpp:857-894 | the path leaves both tables and the running uploads; no other path moves |
| `UploadQueue.UploadManager.DoQueueUpload` | repertory/librepertory/src/file_manager/file_manager.cpp:664-695 | the path is queued once, at the end, with its source, and has no resume entry; no other path moves |
| `UploadQueue.UploadManager.HandleNext` | repertory/librepertory/src/file_manager/file_manager.cpp:1274-1335 | one round starts, drops or re-queues the oldest upload, with the source it was queued with, unless the maximum runs, and waits exactly otherwise; entries of other paths stay |
| `UploadQueue.UploadManager.UploadCompleted` | repertory/librepertory/src/file_manager/file_manager.cpp:1239-1272 | what a completion event does to the tables, for each kind of result |
| `UploadQueue.UploadManager.Start` | repertory/librepertory/src/file_manager/file_manager.cpp:1071-1073 | the loop over the active table re-queues its entries in order |
| `UploadQueue.ActionKeeps` | repertory/librepertory/src/file_manager/file_manager.cpp:664-894 | every step keeps: no path queued twice or both queued and running, the running uploads are exactly the active table, at most the maximum run |
| `UploadQueue.RunKeeps` | repertory/librepertory/src/file_manager/file_manager.cpp:1239-1335 | and so does every run |
| `UploadQueue.PendingUntilEnded` | repertory/librepertory/src/file_manager/file_manager.cpp:1239-1335 | a pending path stops being pending exactly by success, removal or not-found, and becomes pending exactly by queueing or a retry |
| `UploadQueue.FirstInFirstOut` | repertory/librepertory/src/file_manager/file_manager.cpp:1285-1287 | while neither is touched otherwise, an upload stays behind an earlier one until that one has started |
| `UploadQueue.StartRequeues` | repertory/librepertory/src/file_manager/file_manager.cpp:1071-1073 | after start nothing is running and exactly what was queued or running before is queued |
| `UploadQueue.HandledIs` | repertory/librepertory/src/file_manager/file_manager.cpp:1285-1327 | what a round does to the oldest entry for each answer of the provider: the started upload is listed with the source it was queued with |
| `UploadQueue.QueueingIs` | repertory/librepertory/src/file_manager/file_manager.cpp:664-695 | queueing puts path and source at the end and touches no other path |
| `UploadQueue.RemovalIs` | repertory/librepertory/src/file_manager/file_manager.cpp:857-894 | removing takes the path out of queue and running uploads and touches no other path |
| `UploadQueue.ModifyingIs` | repertory/librepertory/src/file_manager/open_file.cpp:670-687 | the resume entry of a first change, and the removal behind it, touch no other path |
| `UploadQueue.ActionTouchesOne` | repertory/librepertory/src/file_manager/file_manager.cpp:664-894 | every action touches the entries of one path |
| `UploadQueue.SourceStays` | repertory/librepertory/src/file_manager/file_manager.cpp:1239-1335 | a pending path keeps its source through every action that neither ends it nor queues it again |
| `UploadQueue.SourceTravels` | repertory/librepertory/src/file_manager/file_manager.cpp:1239-1335 | over every run a queued or active path has the source of the action that queued or retried it last, and no other |
| `UploadQueue.StartKeepsSources` | repertory/librepertory/src/file_manager/file_manager.cpp:1071-1073 | after start the queued pairs of path and source are exactly those queued or active before, the active ones last and in order |
| `Eviction.StepKeepsInv` | repertory/librepertory/src/file_manager/file_manager.cpp:224-281 | every step but six hazards keeps: bytes the provider lacks are in the source file and belong to a modified file or to an upload that will carry them, no object writes to a deleted file, and nothing was lost |
| `Eviction.NothingLost` | repertory/librepertory/src/file_manager/file_manager.cpp:119-281 | so over every run without a hazard, of any length and interleaving, with queueing, evictions and timed out closes each in two halves, and evicted objects closed at any later time |
| `Eviction.NothingLostFromFresh` | repertory/librepertory/src/file_manager/file_manager.cpp:483-512 | in particular from a fresh path |
| `Eviction.AloneNothingIsLost` | repertory/librepertory/src/file_manager/file_manager.cpp:224-281 | an undisturbed eviction refuses exactly the paths that are open, modified, incomplete, queued or uploading, and never deletes newer bytes |
| `Eviction.PromotionSlipsPast` | repertory/librepertory/src/file_manager/file_manager.cpp:483-497 | an upload that starts between the look at the running uploads and the look at the queue is missed: its source is deleted exactly if it has newer bytes |
| `Eviction.RequeueSlipsPast` | repertory/librepertory/src/file_manager/file_manager.cpp:1317-1321 | so is one that the upload thread queues again, if the look at the queue falls between its removal and its addition |
| `Eviction.CloseRequeueSlipsPast` | repertory/librepertory/src/file_manager/file_manager.cpp:678-683 | and one that a close queues, if the look falls there and the modified flag is cleared before it is read |
| `Eviction.CloseSlipsPast` | repertory/librepertory/src/file_manager/file_manager.cpp:494-511 | so is a close that queues the upload after the queue was read and clears the modified flag before that is read |
| `Eviction.WriteSlipsPast` | repertory/librepertory/src/file_manager/file_manager.cpp:231-237 | a write after the modified flag was read, whose handle is closed before the handles are counted, is lost |
| `Eviction.OpenSlipsPastEviction` | repertory/librepertory/src/file_manager/file_manager.cpp:267-274 | an object opened between the release of open_file_mtx_ and the deletion loses what is written through it, before or after the deletion |
| `Eviction.OpenSlipsPastEvictedClose` | repertory/librepertory/src/file_manager/open_file.cpp:203-278 | the same, before or at any time after the deletion, while somebody still refers to the object taken out of the table: if that fails before it is closed it gives the new source up |
| `Eviction.OpenSlipsPastTimeOut` | repertory/librepertory/src/file_manager/file_manager.cpp:119-144 | the same between the two halves of a timed out close, if the old object fails before it is closed |
| `Eviction.FailedCloseLoses` | repertory/librepertory/src/file_manager/open_file.cpp:223-278 | a timed out close of a failed file whose upload is still to come loses bytes, at the latest when the upload finds no source, exactly if the provider lacks some |
| `Eviction.EvictionDestroysQueuedUpload` | repertory/librepertory/src/file_manager/file_manager.cpp:224-281 | the first hazard is reachable: there is a run from a fresh path that loses bytes |
| `Eviction.RequeuedUploadIsLost` | repertory/librepertory/src/file_manager/file_manager.cpp:1317-1321 | so is the re-queued upload that is missed |
| `Eviction.LateWriteIsLost` | repertory/librepertory/src/file_manager/file_manager.cpp:267-274 | and so is a write into a source that has been deleted already |
| `FileTable.OneFilePerHandle` | repertory/librepertory/src/file_manager/file_manager.cpp:318-334 | a live handle resolves to exactly one object, linked or unlinked, never both |
| `FileTable.OpenKeeps` | repertory/librepertory/src/file_manager/file_manager.cpp:521-657 | opening keeps the partition and adds exactly one handle |
| `FileTable.OpenedObject` | repertory/librepertory/src/file_manager/file_manager.cpp:521-657 | the object of a path nobody had open has the path, source and kind it was opened with, is writable exactly if that was asked for, and has one handle; an open path keeps its object as it is but for the new handle; nothing else changes |
| `FileTable.RemoveKeeps` | repertory/librepertory/src/file_manager/file_manager.cpp:759-774 | removing an open path keeps the partition and moves no handle |
| `FileTable.UpgradeKeeps` | repertory/librepertory/src/file_manager/file_manager.cpp:355-393 | the upgrade moves all handles of the file, and no other, to the new object |
| `FileTable.EraseKeeps` | repertory/librepertory/src/file_manager/file_manager.cpp:90-90 | the middle of a close ends exactly one handle and keeps the partition, with the handle noted as erased |
| `FileTable.FinishKeeps` | repertory/librepertory/src/file_manager/file_manager.cpp:92-117 | its end moves no handle and takes the entry of the erased one out |
| `FileTable.TimeOutKeeps` | repertory/librepertory/src/file_manager/file_manager.cpp:119-136 | dropping an object without handles moves none |
| `HandleLifetime.TableStep` | repertory/librepertory/src/file_manager/file_manager.cpp:79-393 | what each step does to the partition: handles stay on their object or move with it, except the new and the erased one |
| `HandleLifetime.StaysInStep` | repertory/librepertory/src/file_manager/file_manager.cpp:79-117 | a close between its three steps is disturbed by nothing but a removal or a replacement of its object before the erasure |
| `HandleLifetime.StepKeeps` | repertory/librepertory/src/file_manager/file_manager.cpp:79-393 | so every other step keeps the partition and every close under way in step with it |
| `HandleLifetime.RunKeeps` | repertory/librepertory/src/file_manager/file_manager.cpp:79-393 | over every run in which no close is disturbed |
| `HandleLifetime.CloseEndsExactly` | repertory/librepertory/src/file_manager/file_manager.cpp:79-117 | in every run, whatever falls between its three sections: a close ends its handle exactly if its object is neither removed nor replaced between the look-up and the erasure |
| `HandleLifetime.HandleIsStable` | repertory/librepertory/src/file_manager/file_manager.cpp:310-393 | from its open to its close a handle stands for the path and the source it was opened on, through removals, upgrades and other closes |
| `HandleLifetime.RemovalDuringClose` | repertory/librepertory/src/file_manager/file_manager.cpp:79-100 | a removal in between leaves the handle's entry behind, and the source, which no close will delete |
| `HandleLifetime.UpgradeDuringClose` | repertory/librepertory/src/file_manager/file_manager.cpp:370-386 | an upgrade in between leaves the closed handle on the new object, in an otherwise valid state, and the object can never time out |
| `HandleLifetime.UpgradeDuringUnlinkedClose` | repertory/librepertory/src/file_manager/file_manager.cpp:370-386 | an upgrade in between on a removed file: when both its handles are closed the source is still there and no handle leads to it |
| `RemovedSources.StepKeepsSources` | repertory/librepertory/src/file_manager/file_manager.cpp:79-117 | whoever may delete a source next knows all handles on it: kept by every step |
| `RemovedSources.SourceGoesWithLastHandle` | repertory/librepertory/src/file_manager/file_manager.cpp:79-117 | over every run from the start in which no close is disturbed: the source of a live handle is never deleted, and the source of a file removed while open is deleted exactly when no handle leads to it any more |
| `RemovedSources.RemovedWithoutHandles` | repertory/librepertory/src/file_manager/file_manager.cpp:759-774 | a path removed while its object has no handles keeps its source: exactly the object's handles lead to it afterwards, so nobody does |
| `RemovedSources.OwedExactly` | repertory/librepertory/src/file_manager/file_manager.cpp:759-774 | the files removed while open, of which that speaks, are those of every removal of a path with handles that is no directory |
| `RemovedSources.DirectoriesStay` | repertory/librepertory/src/file_manager/file_manager.cpp:79-117 | over every such run what has been deleted is the source of no directory, and an object without a path had it |
| `FileManagement.FileManager.GetOpenFileByHandle` | repertory/librepertory/src/file_manager/file_manager.cpp:318-334 | finds the object of every live handle, and nothing for others |
| `FileManagement.FileManager.Open` | repertory/librepertory/src/file_manager/file_manager.cpp:521-657 | returns a handle nobody had, on the path's object, which is new, writable as asked and otherwise as given if nobody had the path open, and keeps what it can do if somebody had; the step of the same name |
| `FileManagement.FileManager.CloseLook` | repertory/librepertory/src/file_manager/file_manager.cpp:79-88 | the first section of a close is the look-up step, and nothing for an unknown handle |
| `FileManagement.FileManager.CloseErase` | repertory/librepertory/src/file_manager/file_manager.cpp:90-90 | the part without open_file_mtx_ is the erase step |
| `FileManagement.FileManager.CloseFinish` | repertory/librepertory/src/file_manager/file_manager.cpp:92-117 | the second section is the finish step; in a valid state nobody has the handle afterwards |
| `FileManagement.FileManager.Close` | repertory/librepertory/src/file_manager/file_manager.cpp:79-117 | all three undisturbed: the handle is gone, every other one stays where it was |
| `FileManagement.FileManager.RemoveFile` | repertory/librepertory/src/file_manager/file_manager.cpp:759-774 | is the removal step, and keeps the state valid unless it disturbs a close |
| `FileManagement.FileManager.GetOpenFile` | repertory/librepertory/src/file_manager/file_manager.cpp:355-393 | with write access the result is the handle's object, writable and otherwise as it was; is the upgrade step, and keeps the state valid unless it disturbs a close |
| `ThreadFile.RunsInOrder` | support/src/utils/file_thread_file.cpp:97-115 | in every interleaving the accepted operations run once each, in the order of acceptance, with the results of running them one after the other |
| `ThreadFile.NobodyStranded` | support/src/utils/file_thread_file.cpp:139-176 | once the worker has left, nothing is queued, everything accepted ran and is complete, and nothing is accepted any more |
| `ThreadFile.ToldTheResult` | support/src/utils/file_thread_file.cpp:48-65 | a submitter gets its own result exactly unless the operation succeeded and it reads the flag between the two assignments of done; nobody is told a false success |
| `ThreadFile.SuccessReportedAsFailure` | support/src/utils/file_thread_file.cpp:48-65 | that window is reachable: a run in which a successful operation is reported as failed |
| `ThreadFile.WorkerProgresses` | support/src/utils/file_thread_file.cpp:155-175 | while something accepted is unfinished and mtx_ is free the worker can step, and each step lowers a rank |
| `ThreadFile.WorkerFinishes` | support/src/utils/file_thread_file.cpp:139-176 | so its own steps finish everything accepted |
| `ThreadFile.RunKeepsInv` | support/src/utils/file_thread_file.cpp:82-176 | the invariant behind these holds over every run |
| `DownloadProtocol.StartsOnlyMissing` | repertory/librepertory/src/file_manager/open_file.cpp:296-320 | a fetch starts only for a chunk that is neither present nor being fetched, although the bits and the map are read at different moments |
| `DownloadProtocol.EraseKeepsOnePerChunk` | repertory/librepertory/src/file_manager/open_file.cpp:329-334 | a finishing fetch finds itself registered under its chunk |
| `DownloadProtocol.RunKeepsInv` | repertory/librepertory/src/file_manager/open_file.cpp:288-525 | the invariant of the protocol holds over every run, with resizes that copy the bits, change the file and store the copy in three steps |
| `DownloadProtocol.Deduplicated` | repertory/librepertory/src/file_manager/open_file.cpp:296-396 | in every interleaving, without exception: one fetch per chunk, a set bit means stored bytes unless the chunk is being cut off, and a fetch starts only for a missing chunk nobody fetches |
| `DownloadProtocol.SettledExactly` | repertory/librepertory/src/file_manager/open_file.cpp:486-525 | the one step that leaves a fetched chunk neither present nor cut off without an error is the store of a copy that lacks a bit set since |
| `DownloadProtocol.ResizeLosesExactly` | repertory/librepertory/src/file_manager/open_file.cpp:486-525 | from the copy to the store of a resize, whatever falls in between: that happens exactly if a download sets its bit in between and no error is latched |
| `DownloadProtocol.WaitersFindChunks` | repertory/librepertory/src/file_manager/open_file.cpp:296-396 | in every run without that: a waiter that goes on finds its chunk present, an error, or the file cut before it, and without an error no chunk is fetched twice |
| `DownloadProtocol.ResizeForgetsChunk` | repertory/librepertory/src/file_manager/open_file.cpp:486-525 | with it: the fetch ends without an error, its waiters go on, the chunk is not marked as present and is fetched again |
| `DownloadProtocol.ErrorStopsFetches` | repertory/librepertory/src/file_manager/open_file_base.cpp:390-401 | a hard error is never cleared, and once any error is latched at most the one caller that had looked before still starts a fetch |
| `DownloadProtocol.LateErrorIsMissed` | repertory/librepertory/src/file_manager/open_file.cpp:298-320 | that caller does start it |
| `DownloadProtocol.DownloadsAdvance` | repertory/librepertory/src/file_manager/open_file.cpp:325-397 | an unfinished download can always be brought on, by itself or by the thread that holds the lock, and each such step lowers a rank |
| `DownloadProtocol.DownloadFinishes` | repertory/librepertory/src/file_manager/open_file.cpp:325-397 | so from every reachable state, whatever the provider answers and the disk does, at most eight such steps bring it to the end of its notification |
| `DownloadProtocol.WaiterGoesOn` | repertory/librepertory/src/file_manager/open_file_base.cpp:33-52 | and whoever waits for it goes on then, and finds its chunk settled unless a resize has lost a bit or is about to |
| `Base64.Encode` | support/include/utils/base64.hpp:100-157 | the buffer of the precomputed length is filled exactly with the encoding |
| `Base64.Decode` | support/include/utils/base64.hpp:183-313 | the result and every error are those of the definition; the checks for room never drop a byte |
| `Base64.EncodedHasLength` | support/include/utils/base64.hpp:109-118 | the length formula of the encoder, padded and unpadded |
| `Base64.DecodedHasLength` | support/include/utils/base64.hpp:196-209 | the length formula of the decoder |
| `Base64.RoundTrip` | support/include/utils/base64.hpp:100-313 | decoding undoes encoding for every byte string, either alphabet, padded or not |
| `Base64.DecodesWellFormed` | support/include/utils/base64.hpp:183-313 | exactly the well-formed padded or unpadded texts over the two alphabets together decode |
| `Base64.EncodeOfDecode` | support/include/utils/base64.hpp:183-313 | encoding what was decoded gives the text back exactly if it is in one alphabet and its unused bits are zero |
| `Base64.UrlSafeText` | support/include/utils/base64.hpp:165-174 | URL-safe text holds only its alphabet, so no slash, and is empty for no data only |
| `Base64.SymbolsAre` | support/include/utils/base64.hpp:52-66 | the encoder's symbols are those of sections 4 and 5 of RFC 4648, by value |
| `Base64.ValuesAre` | support/include/utils/base64.hpp:68-88 | the decoding table takes exactly these symbols, each for its place |
| `Base64.EncodedDigits` | support/include/utils/base64.hpp:100-157 | the encoding is the data written in digits of 64, highest bits first, in these symbols, then padding |
| `Base64.ErrorsAre` | support/include/utils/base64.hpp:183-313 | which texts are refused for their length and which for padding that begins too early; all others for a character |
| `KdfHeader.FromHeader` | support/src/utils/encryption.cpp:69-85 | in bytes: accepts exactly data of at least 36 bytes whose bytes 0 to 3 are in range and whose bytes 28 to 35, most significant first, are the little-endian value of the hash of the first 28 with eight zeros behind them; overwrites the configuration as soon as the data is long enough |
| `KdfHeader.ParsedHeader` | support/src/utils/encryption.cpp:47-55 | reading back a written header, whatever follows it |
| `KdfHeader.HeaderOfParsed` | support/src/utils/encryption.cpp:69-78 | writing back a header that was read |
| `KdfHeader.AcceptsHeader` | support/src/utils/encryption.cpp:57-85 | a written header is accepted exactly for values in range with their own checksum |
| `KdfHeader.ChecksumIsDetermined` | support/src/utils/encryption.cpp:57-67 | accepted headers that agree before the checksum are equal |
| `KdfHeader.SubkeyFromHeader` | support/include/utils/encryption.hpp:132-169 | the header of a created sub-key is enough to derive the same key, and is accepted exactly if the configuration is in range |
| `KdfHeader.AcceptsBytes` | support/src/utils/encryption.cpp:57-85 | when data is accepted, with and without the checksum, stated on its bytes |
| `KdfHeader.ParsedBytes` | support/src/utils/encryption.cpp:47-55 | where each field of a header lies and in which byte order it is read |
| `KdfHeader.SubkeyBytes` | support/include/utils/encryption.hpp:132-169 | the key of a header is derived from the number in its bytes 4 to 11, and a created sub-key has there the number it was derived from, its four parameters in front, its salt behind, and a checksum that sums up |
| `EncryptedPaths.CreateEncryptedPaths` | support/src/utils/encrypting_reader.cpp:522-562 | the loop builds a slash and an encrypted name for each piece of the parent path, cut at NUL, and for the file name; each piece of the path is URL-safe Base64 of the header and of the bytes of its name sealed under its own nonce |
| `EncryptedPaths.CutAtFirstNul` | support/src/utils/encrypting_reader.cpp:546-548 | what is kept of a piece is everything before its first NUL |
| `EncryptedPaths.PiecesAre` | support/src/utils/encrypting_reader.cpp:543-545 | no piece has a slash, and with slashes between them the pieces are the parent path |
| `EncryptedPaths.PathHoldsNames` | support/src/utils/encrypting_reader.cpp:522-562 | every piece of an encrypted path decodes to the header and to the bytes of its name sealed under the nonce drawn for it |
| `EncryptedPaths.DecryptFileName` | support/src/utils/encryption.cpp:122-148 | decodes, checks the header, derives the key and decrypts |
| `EncryptedPaths.DecryptFilePath` | support/src/utils/encryption.cpp:192-211 | all names or failure with the path unchanged; the result is the normal form of the joined names |
| `EncryptedPaths.WhenPathsDecrypt` | support/src/utils/encryption.cpp:192-211 | a path decrypts exactly if each of its pieces does and it does not end with a slash, unless it has no pieces |
| `EncryptedPaths.NameRoundTrip` | support/src/utils/encryption.cpp:122-148 | an encrypted name decrypts exactly if it is not empty and its header is acceptable |
| `EncryptedPaths.ElementsOfPath` | support/src/utils/encryption.cpp:195-199 | walking an encrypted path finds exactly the encrypted names |
| `EncryptedPaths.PathRoundTrip` | support/src/utils/encryption.cpp:192-211 | an encrypted path decrypts exactly if no name is empty and the header is acceptable, and then to the names |
| `EncryptedPaths.EncryptAndDecryptPath` | support/src/utils/encrypting_reader.cpp:522-562 | through both algorithms: a plain parent path and file name come back as a slash, the parent path, a slash and the file name, exactly if the header is acceptable; in general exactly if no name is empty either, and then as the normal form of the joined names |
| `EncryptedPaths.WhenNamesAreEmpty` | support/src/utils/encrypting_reader.cpp:543-548 | a name is empty exactly if the file name is, or the parent path has a slash in front, at the end or next to another one, or a piece that starts with NUL |
| `EncryptedPaths.PlainNames` | support/src/utils/encrypting_reader.cpp:543-548 | for a plain parent path, relative, normal and without NUL, the encrypted names joined with slashes are the parent path, a slash and the file name |
| `ApiPath.Replace` | support/include/utils/string.hpp:336-349 | the in-place loop replaces every occurrence from left to right without looking at replaced text again |
| `ApiPath.RightTrim` | support/include/utils/string.hpp:375-380 | cuts the trailing characters |
| `ApiPath.FormatPath` | support/include/utils/path.hpp:421-460 | turns backslashes, collapses every run of slashes and trims; the loop ends |
| `ApiPath.CollapsePass` | support/include/utils/path.hpp:442-445 | a pass over the double slashes does not change what is left in the end |
| `ApiPath.CreateApiPath` | support/include/utils/path.hpp:310-349 | the algorithm computes the normalised path and ends |
| `ApiPath.AlwaysNormal` | support/include/utils/path.hpp:310-349 | the result always starts with a slash and has no backslash, no double slash and no trailing slash except alone |
| `ApiPath.NormalStays` | support/include/utils/path.hpp:310-349 | exactly the paths in normal form stay as they are, so normalising is idempotent |
| `ApiPath.SegmentsKept` | support/include/utils/path.hpp:338-348 | the pieces of the path are kept; only a path without a leading separator loses leading dots, all but the last piece |
| `ApiPath.RootExactly` | support/include/utils/path.hpp:327-348 | the root is what the empty path, a dot, a dot with one slash or backslash, and every path of separators only stand for, and no other path |
| `ApiPath.NormalIsJoined` | support/include/utils/path.hpp:310-349 | a path in normal form is a slash and its pieces with single slashes between them |
| `ApiPath.GetParentApiPath` | support/include/utils/path.hpp:480-502 | the algorithm computes the parent |
| `ApiPath.ParentIs` | support/include/utils/path.hpp:480-502 | the parent of any path, in normal form or not: what stands in front of its final piece, normalised, whatever slashes end it; the root for a single piece and for slashes only |
| `ApiPath.ParentDropsLast` | support/include/utils/path.hpp:480-502 | the parent of a path in normal form is it without the final piece, in normal form and shorter |
| `ApiPath.ReachesRoot` | support/include/utils/path.hpp:480-502 | going up reaches the root after as many steps as there are pieces, not before |

## Left out

- The cipher, hashes, key derivation and randomness are parameters; nothing is claimed about secrecy. `KdfHeader.Checksum` reads the 64-bit hash as little-endian, the native order of the supported machines.
- 64-bit wrap-around of `offset + size`, of sizes and of version and handle counters; only the wraps the code relies on for empty files are modelled.
- Providers, databases, HTTP and the operating system are arbitrary answers; a failed truncation or read changes nothing, a failed write may have stored any number of its bytes, in order.
- Stop requests and failed source reads inside `reader_function`: the second leaves an unfilled chunk in the cache (support/src/utils/encrypting_reader.cpp:656-673).
- OpenFile.OpenFile.CheckStart: does not model the truncation that fails and is reported as success (repertory/librepertory/src/file_manager/open_file.cpp:191-196), because the calls behind it then work on a file of the wrong length; `CacheAccounting.FailedTruncation` has what it does to the account. A failing size query and an object whose source cannot be opened are left out too.
- Read-only providers and directories: `open_file` and `file_manager` are modelled for files of a writable provider.
- OpenFile.OpenFile.Resize: a shrinking resize that overlaps a running download is not modelled, because the code does not order the two.
- OpenFile.OpenFile.TruncateToSize: as every method of the class, runs while nobody is in the middle of a section; `FileThreads` has the truncation that comes into the middle of a resize.
- OpenFile.OpenFile.ResizeEnd: is undisturbed here; `FileThreads` has it as four steps.
- OpenFile.OpenFile.ResizeNeedsNoFetch: asks that no bit was cleared; `FileEffects.HolderGoesOn` has the runs in which that holds, and `FileRaces.LostWrite` one in which it does not.
- OpenFile.OpenFile.WriteEnd: is undisturbed here; `FileThreads` has its growth and its file operation as separate steps.
- FileThreads.StepKeepsInv: errors are one flag that is never cleared; metadata, the account, stop requests, `close` and the modified flag are not part of the steps, the class has them. The stored bits and the new size of a resize are adopted in one step, and a resize that cuts off a chunk being downloaded waits for the download, which the code does not do.
- OpenFile.OpenFile.Close: the source is assumed to be deleted when it is discarded; a deletion that fails leaves it, and the account, as they were.
- CacheSize.CacheSizeMgr.Expand: does not model the wait for room, because nothing but time passes in it.
- CacheAccounting.StepKeepsAccount: moving the account reads the file's size once, where the code reads it up to three times without a lock (repertory/librepertory/src/file_manager/open_file.cpp:126-148); closes, discards and evictions happen with no call under way in the file; renames, and a deletion of the source that fails, are not steps.
- The interface to native handles of `open_file` without a new size, timeouts, metadata times and events.
- `open_file_base::do_io` runs one operation on the I/O thread; its queue has the shape of `thread_file` and is not modelled a second time.
- UploadQueue.HandledKeeps: a crash between two database calls of one section is not modelled.
- Eviction.NothingLost: covers one path, one eviction and one timed out object at a time, writes and metadata updates that succeed, and completions that belong to the registered upload.
- DownloadProtocol.RunKeepsInv: a shrink that cuts off a chunk being downloaded is not a step, because the download then sets a bit behind the end of the bit set; nor is a resize that gives up after it has changed the file.
- HandleLifetime.HandleIsStable: renames of files and directories are not modelled; the failure branch of a file rename re-queues an upload unconditionally (repertory/librepertory/src/file_manager/file_manager.cpp:460-464).
- HandleLifetime.CloseEndsExactly: a handle is closed once and not used after that, and no other close is disturbed in the same run.
- RemovedSources.SourceGoesWithLastHandle: a newly opened path is expected to bring a source no other object has had; source names are random.
- ThreadFile.WorkerFinishes: a submitter that holds `mtx_` is expected to push; a destructor running beside submitters is not modelled.
- EncryptedPaths.DecryptFilePath: only the variant with a master key and key headers; the hexadecimal variants for a plain token are left out, as is the hex codec.
- ApiPath.CreateApiPath: the Windows branches (drive letters, long and UNC notation) are left out.
- EncFile.EncFile.Truncate: writing, growing and shrinking to other sizes are not implemented in the code (support/src/utils/file_enc_file.cpp:119-176); the model says what is left of the file.
- `ring_buffer_open_file`, `direct_open_file`, the directory cache and iterators, mounting, remote protocols, configuration and the command line.
