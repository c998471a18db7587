/** `cache_size_mgr` (repertory/librepertory/src/file_manager/cache_size_mgr.cpp). */
module CacheSize {

  datatype ApiError =
    | Success
    | DownloadIncomplete
    | DownloadStopped
    | InvalidOperation
    | OsError
    | CacheNotInitialized
    | FileSizeMismatch
    | ProviderFailure
    | Error

  class CacheSizeMgr {
    var initialized: bool
    var stopRequested: bool
    var cacheSize: nat

    constructor ()
      ensures !initialized && !stopRequested && cacheSize == 0
    {
      initialized, stopRequested, cacheSize := false, false, 0;
    }

    method Initialize(directorySize: nat)
      modifies this
      ensures initialized && !stopRequested && cacheSize == directorySize
    {
      initialized, stopRequested, cacheSize := true, false, directorySize;
    }

    /** The size is added at once; only then does the caller wait for room. */
    method Expand(size: nat) returns (err: ApiError)
      modifies this`cacheSize
      ensures err == if !initialized then CacheNotInitialized else if size > 0 && stopRequested then Error else Success
      ensures cacheSize == if initialized then old(cacheSize) + size else old(cacheSize)
    {
      if !initialized {
        return CacheNotInitialized;
      }
      if size == 0 {
        return Success;
      }
      cacheSize := cacheSize + size;
      return if stopRequested then Error else Success;
    }

    /** Taking away more than there is leaves zero. */
    method Shrink(size: nat) returns (err: ApiError)
      modifies this`cacheSize
      ensures err == Success
      ensures cacheSize == if old(cacheSize) >= size then old(cacheSize) - size else 0
    {
      if size == 0 {
        return Success;
      }
      if cacheSize >= size {
        cacheSize := cacheSize - size;
      } else {
        cacheSize := 0;
      }
      return Success;
    }
  }
}
