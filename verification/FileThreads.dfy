/**
 Threads inside one `open_file` (repertory/librepertory/src/file_manager/open_file.cpp), one step per section
 that runs under `rw_mtx_` or `file_mtx_` and per file operation: reads that take no mutex, downloads that
 store and mark their chunk while somebody else holds `rw_mtx_`, a resize that copies the bits, changes the
 file, compares its size and adopts the new one, a write that grows the file first, and truncations of
 `check_start` that come late.
 */
module FileThreads {
  import opened Bytes
  import opened ChunkMath
  import opened FileImage
  import opened OpenFile

  datatype Request =
    | Read(size: nat, offset: nat)
    | Write(offset: nat, data: seq<byte>)
    | Resize(size: nat)

  /** Where a call is. `Late` has found the local file short in `check_start`, `Ranging` is about to look at chunk
      `next`, `Waiting` waits for a fetch of it, `Direct` is a read that has seen all bits set. */
  datatype Stage =
    | Begun
    | Late
    | Started
    | Ranging(next: nat)
    | Waiting(next: nat, id: nat)
    | Ready
    | Direct
    | Locked
    | Over(ok: bool)

  /** `n` is what a read is to hand out, `data` what it has, `last` the final chunk the call looks at. */
  datatype Call = Call(request: Request, n: nat, last: nat, stage: Stage, data: seq<byte>)

  datatype FetchStage = Going | Landed | Marked | Failed | Ended

  datatype Fetch = Fetch(chunk: nat, buffer: seq<byte>, stage: FetchStage)

  /** How far the call that holds `rw_mtx_` is; `Sized` is a write whose resize is done. */
  datatype LockStage = Entered | Copied | Cut | Compared | Sized

  datatype Holder = Nobody | Holds(k: nat, request: Request, stage: LockStage, copy: seq<bool>)

  /** The object: local file, bits and `allocated` in `img`, whose logical bytes follow every file operation,
      and the recorded size. `whole` is what the file is when a write counts as one change. */
  datatype World = World(img: Image, size: nat, whole: seq<byte>, error: bool, holder: Holder,
                         calls: seq<Call>, fetches: seq<Fetch>)

  datatype Step =
    | Begin(request: Request)
    | Start(k: nat)
    | LateTruncate(k: nat)
    | Choose(k: nat)
    | StartFetch(k: nat)
    | Join(k: nat, id: nat)
    | Skip(k: nat)
    | Woken(k: nat)
    | GiveUp(k: nat)
    | GetReady(k: nat)
    | Lock(k: nat)
    | ReadDirect(k: nat)
    | ReadLocked
    | CopyBits
    | CutFile(ok: bool)
    | CompareSize
    | Adopt
    | StoreData(ok: bool, count: nat)
    | FetchAny(chunk: nat)
    | FetchStores(id: nat, ok: bool, count: nat)
    | FetchMarks(id: nat)
    | FetchEnds(id: nat)

  // ---- sizes and chunks ----

  function Count(size: nat, chunk: nat): nat {
    DivideWithCeiling(size, chunk)
  }

  function FinalChunk(size: nat, chunk: nat): nat {
    if Count(size, chunk) == 0 then 0 else Count(size, chunk) - 1
  }

  /** The size a resize, or the resize in the middle of a write, gives the file. */
  function Target(r: Request): nat {
    match r
    case Read(_, _) => 0
    case Write(offset, data) => offset + |data|
    case Resize(size) => size
  }

  function FirstChunk(c: Call, chunk: nat): nat
    requires chunk > 0
  {
    match c.request
    case Read(_, offset) => ChunkOf(offset, chunk)
    case Write(offset, _) => ChunkOf(offset, chunk)
    case Resize(size) => FinalChunk(size, chunk)
  }

  function EndChunk(c: Call, chunk: nat): nat
    requires chunk > 0
  {
    match c.request
    case Read(_, offset) => ChunkOf(offset + c.n, chunk)
    case Write(offset, data) => ChunkOf(offset + |data|, chunk)
    case Resize(size) => FinalChunk(size, chunk)
  }

  /** The chunk a resize makes the final one is real, or new. */
  predicate FinalReal(bits: seq<bool>, size: nat, chunk: nat) {
    size == 0 || RangeReal(bits, FinalChunk(size, chunk), FinalChunk(size, chunk))
  }

  // ---- the steps ----

  function Staged(w: World, k: nat, stage: Stage): World
    requires k < |w.calls|
  {
    w.(calls := w.calls[k := w.calls[k].(stage := stage)])
  }

  function NewCall(w: World, r: Request): Call {
    match r
    case Read(size, offset) =>
      var n := CalculateReadSize(w.size, size, offset);
      Call(r, n, 0, if n == 0 then Over(true) else Begun, [])
    case Write(_, data) => Call(r, 0, 0, if data == [] then Over(true) else Begun, [])
    case Resize(size) => Call(r, 0, 0, if size == w.size then Over(true) else Begun, [])
  }

  /** `check_start` up to the point where it gives `file_mtx_` up. */
  function StartChecked(w: World, k: nat): World
    requires k < |w.calls|
  {
    if w.img.sized then Staged(w, k, Started)
    else if |w.img.local| == w.size then Staged(w.(img := w.img.(sized := true)), k, Started)
    else Staged(w, k, Late)
  }

  function LateTruncated(w: World, k: nat): World
    requires k < |w.calls|
  {
    Staged(w.(img := w.img.(local := Truncated(w.img.local, w.size), sized := true)), k, Started)
  }

  /** The chunks a call looks at. `read_state.size() - 1` wraps around when there is no chunk. */
  function Chosen(w: World, k: nat): World
    requires k < |w.calls| && w.img.chunk > 0
  {
    var c := w.calls[k];
    var first, end := FirstChunk(c, w.img.chunk), EndChunk(c, w.img.chunk);
    match c.request
    case Read(_, _) =>
      if AllSet(w.img.bits) then Staged(w, k, Direct)
      else w.(calls := w.calls[k := c.(last := end, stage := Ranging(first))])
    case Write(_, _) =>
      var top := if |w.img.bits| == 0 then 0xFFFF_FFFF_FFFF_FFFF else |w.img.bits| - 1;
      w.(calls := w.calls[k := c.(last := Min(top, end), stage := Ranging(first))])
    case Resize(size) =>
      if size == 0 || end >= |w.img.bits| then Staged(w, k, Ready)
      else w.(calls := w.calls[k := c.(last := end, stage := Ranging(first))])
  }

  /** A download asks for the extent of its chunk. */
  function NewFetch(w: World, c: nat): Fetch
    requires w.img.chunk > 0
  {
    MulMonotone(0, c, w.img.chunk);
    var size := if c + 1 == |w.img.bits| then LastChunkSize(w.size, w.img.chunk) else w.img.chunk;
    Fetch(c, ProviderRange(w.img.provider, c * w.img.chunk, size), Going)
  }

  /** Nobody fetches the chunk. */
  predicate Unfetched(w: World, c: nat) {
    forall id :: 0 <= id < |w.fetches| && w.fetches[id].chunk == c ==> w.fetches[id].stage == Ended
  }

  predicate Missing(w: World, c: nat) {
    c < |w.img.bits| && !w.img.bits[c]
  }

  /** The end of the call that holds `rw_mtx_`. */
  function Released(w: World, ok: bool): World
    requires w.holder.Holds? && w.holder.k < |w.calls|
  {
    Staged(w.(holder := Nobody), w.holder.k, Over(ok))
  }

  function HandedOut(w: World, k: nat): World
    requires k < |w.calls| && w.calls[k].request.Read?
  {
    var c := w.calls[k];
    w.(calls := w.calls[k := c.(stage := Over(true), data := Window(w.img.local, c.request.offset, c.n))])
  }

  function LockedRead(w: World): World
    requires w.holder.Holds? && w.holder.k < |w.calls| && w.calls[w.holder.k].request.Read?
  {
    if w.error then Released(w, false) else HandedOut(w.(holder := Nobody), w.holder.k)
  }

  function AtStage(w: World, stage: LockStage): World
    requires w.holder.Holds?
  {
    w.(holder := w.holder.(stage := stage))
  }

  /** The file operation of a resize. The bytes it cuts off are gone at once, those it adds count with the size. */
  function FileCut(w: World, ok: bool): World
    requires w.holder.Holds? && w.holder.k < |w.calls|
  {
    if !ok then Released(w, false)
    else
      var t := Target(w.holder.request);
      var cut := w.img.(local := Truncated(w.img.local, t));
      if t < |w.img.logical| then
        AtStage(w.(img := cut.(logical := Truncated(w.img.logical, t)), whole := Truncated(w.img.logical, t)), Cut)
      else AtStage(w.(img := cut), Cut)
  }

  function SizeCompared(w: World): World
    requires w.holder.Holds? && w.holder.k < |w.calls|
  {
    if |w.img.local| == Target(w.holder.request) then AtStage(w, Compared) else Released(w.(error := true), false)
  }

  /** The copied bits, cut or extended, are stored if their number changes; then the size. */
  function AdoptedBits(w: World): seq<bool>
    requires w.holder.Holds?
  {
    var count := Count(Target(w.holder.request), w.img.chunk);
    if |w.holder.copy| == count then w.img.bits else ResizedBits(w.holder.copy, count)
  }

  function Adopted(w: World): World
    requires w.holder.Holds? && w.holder.k < |w.calls|
  {
    var t := Target(w.holder.request);
    var img := w.img.(bits := AdoptedBits(w), logical := Truncated(w.img.logical, t));
    if w.holder.request.Write? then AtStage(w.(img := img, size := t), Sized)
    else Released(w.(img := img, size := t, whole := img.logical), true)
  }

  /** The file operation of a write, and what is left of it if it fails. */
  function DataStored(w: World, ok: bool, count: nat): World
    requires w.holder.Holds? && w.holder.k < |w.calls| && w.holder.request.Write? && count <= |w.holder.request.data|
  {
    var part := if ok then w.holder.request.data else w.holder.request.data[..count];
    var img := Written(w.img, w.holder.request.offset, part);
    Released(w.(img := img, whole := img.logical, error := w.error || !ok), ok)
  }

  function Fetched(w: World, id: nat, stage: FetchStage): World
    requires id < |w.fetches|
  {
    w.(fetches := w.fetches[id := w.fetches[id].(stage := stage)])
  }

  function FetchStored(w: World, id: nat, ok: bool, count: nat): World
    requires id < |w.fetches| && count <= |w.fetches[id].buffer|
  {
    var f := w.fetches[id];
    var part := if ok then f.buffer else f.buffer[..count];
    Fetched(w.(img := PartlyStored(w.img, f.chunk, part), error := w.error || !ok), id, if ok then Landed else Failed)
  }

  function FetchMarked(w: World, id: nat): World
    requires id < |w.fetches| && w.fetches[id].chunk < |w.img.bits|
  {
    Fetched(w.(img := w.img.(bits := w.img.bits[w.fetches[id].chunk := true])), id, Marked)
  }

  predicate InStage(w: World, k: nat, stage: Stage) {
    k < |w.calls| && w.calls[k].stage == stage
  }

  /** A call that is to look at a chunk, which takes `rw_mtx_` for a moment. */
  predicate Looks(w: World, k: nat) {
    && k < |w.calls| && w.calls[k].stage.Ranging? && w.calls[k].stage.next <= w.calls[k].last
    && w.holder == Nobody && !w.error
  }

  predicate Holding(w: World, stage: LockStage) {
    w.holder.Holds? && w.holder.k < |w.calls| && w.holder.stage == stage
  }

  predicate Enabled(w: World, s: Step) {
    w.img.chunk > 0 &&
    match s
    case Begin(_) => true
    case Start(k) => InStage(w, k, Begun)
    case LateTruncate(k) => InStage(w, k, Late)
    case Choose(k) => InStage(w, k, Started)
    case StartFetch(k) => Looks(w, k) && Missing(w, w.calls[k].stage.next) && Unfetched(w, w.calls[k].stage.next)
    case Join(k, id) =>
      && Looks(w, k) && Missing(w, w.calls[k].stage.next)
      && id < |w.fetches| && w.fetches[id].chunk == w.calls[k].stage.next && w.fetches[id].stage != Ended
    case Skip(k) => Looks(w, k) && !Missing(w, w.calls[k].stage.next)
    case Woken(k) =>
      && k < |w.calls| && w.calls[k].stage.Waiting?
      && w.calls[k].stage.id < |w.fetches| && w.fetches[w.calls[k].stage.id].stage == Ended
    case GiveUp(k) => k < |w.calls| && w.calls[k].stage.Ranging? && w.error
    case GetReady(k) =>
      k < |w.calls| && w.calls[k].stage.Ranging? && w.calls[k].stage.next > w.calls[k].last && !w.error
    case Lock(k) => InStage(w, k, Ready) && w.holder == Nobody
    case ReadDirect(k) => InStage(w, k, Direct) && w.calls[k].request.Read?
    case ReadLocked => Holding(w, Entered) && w.holder.request.Read? && w.calls[w.holder.k].request.Read?
    case CopyBits =>
      && Holding(w, Entered) && MayCopy(w)
      && forall id :: 0 <= id < |w.fetches| && w.fetches[id].stage != Ended ==>
           w.fetches[id].chunk < Count(Target(w.holder.request), w.img.chunk)
    case CutFile(_) => Holding(w, Copied)
    case CompareSize => Holding(w, Cut)
    case Adopt => Holding(w, Compared)
    case StoreData(_, count) =>
      && w.holder.Holds? && w.holder.k < |w.calls| && w.holder.request.Write? && count <= |w.holder.request.data|
      && (w.holder.stage == Sized || (w.holder.stage == Entered && Target(w.holder.request) <= w.size))
    case FetchAny(c) => w.holder == Nobody && !w.error && Missing(w, c) && Unfetched(w, c)
    case FetchStores(id, _, count) =>
      id < |w.fetches| && w.fetches[id].stage == Going && count <= |w.fetches[id].buffer|
    case FetchMarks(id) =>
      id < |w.fetches| && w.fetches[id].stage == Landed && w.fetches[id].chunk < |w.img.bits|
    case FetchEnds(id) =>
      id < |w.fetches| && (w.fetches[id].stage == Marked || w.fetches[id].stage == Failed) && w.holder == Nobody
  }

  /** A resize, or a write behind the end; the resize in a write finds nothing to fetch, since the fetch would
      need the mutex that the write holds. */
  predicate MayCopy(w: World)
    requires w.holder.Holds?
  {
    || w.holder.request.Resize?
    || (w.holder.request.Write? && Target(w.holder.request) > w.size &&
        FinalReal(w.img.bits, Target(w.holder.request), w.img.chunk))
  }

  function Next(w: World, s: Step): World
    requires Enabled(w, s)
  {
    match s
    case Begin(r) => w.(calls := w.calls + [NewCall(w, r)])
    case Start(k) => StartChecked(w, k)
    case LateTruncate(k) => LateTruncated(w, k)
    case Choose(k) => Chosen(w, k)
    case StartFetch(k) =>
      var next := w.calls[k].stage.next;
      Staged(w.(fetches := w.fetches + [NewFetch(w, next)]), k, Waiting(next, |w.fetches|))
    case Join(k, id) => Staged(w, k, Waiting(w.calls[k].stage.next, id))
    case Skip(k) => Staged(w, k, Ranging(w.calls[k].stage.next + 1))
    case Woken(k) => Staged(w, k, Ranging(w.calls[k].stage.next + 1))
    case GiveUp(k) => Staged(w, k, Over(false))
    case GetReady(k) => Staged(w, k, Ready)
    case Lock(k) => Staged(w.(holder := Holds(k, w.calls[k].request, Entered, [])), k, Locked)
    case ReadDirect(k) => HandedOut(w, k)
    case ReadLocked => LockedRead(w)
    case CopyBits => w.(holder := w.holder.(stage := Copied, copy := w.img.bits))
    case CutFile(ok) => FileCut(w, ok)
    case CompareSize => SizeCompared(w)
    case Adopt => Adopted(w)
    case StoreData(ok, count) => DataStored(w, ok, count)
    case FetchAny(c) => w.(fetches := w.fetches + [NewFetch(w, c)])
    case FetchStores(id, ok, count) => FetchStored(w, id, ok, count)
    case FetchMarks(id) => FetchMarked(w, id)
    case FetchEnds(id) => Fetched(w, id, Ended)
  }

  // ---- what disturbs a resize ----

  predicate Resizing(h: Holder) {
    h.Holds? && (h.stage == Copied || h.stage == Cut || h.stage == Compared)
  }

  /** The file has its new size, and the object does not know yet. */
  predicate Between(h: Holder) {
    h.Holds? && (h.stage == Cut || h.stage == Compared)
  }

  /** A download sets its bit after a resize that changes the number of chunks has copied the bits, or a late
      truncation undoes the file operation of a resize. */
  predicate Hazard(w: World, s: Step) {
    match s
    case FetchMarks(_) => Resizing(w.holder) && Count(Target(w.holder.request), w.img.chunk) != |w.holder.copy|
    case LateTruncate(_) => Between(w.holder) && Target(w.holder.request) != w.size
    case _ => false
  }

  // ---- what holds at every moment ----

  /** The object as it is but for the part of the file operation that it does not know of yet. */
  function Settled(w: World): Image {
    if Between(w.holder) then
      w.img.(local := Truncated(w.img.local, |w.img.logical|),
             bits := ResizedBits(w.img.bits, Count(|w.img.logical|, w.img.chunk)))
    else w.img
  }

  predicate LengthsOk(w: World) {
    if Between(w.holder) then
      var t := Target(w.holder.request);
      && w.img.sized && |w.img.local| == t && |w.img.logical| == Min(w.size, t)
      && |w.img.bits| == Count(w.size, w.img.chunk)
      && forall j :: |w.img.logical| <= j < |w.img.local| ==> w.img.local[j] == 0
    else w.size == |w.img.logical|
  }

  ghost predicate ImageOk(w: World) {
    Refines(Settled(w)) && LengthsOk(w)
  }

  predicate WholeOk(w: World) {
    if w.holder.Holds? && w.holder.stage == Sized then
      |w.whole| < |w.img.logical| && w.img.logical == Grown(w.whole, |w.img.logical|)
    else w.img.logical == w.whole
  }

  /** The copied bits are still the bits, if they are going to be stored. */
  predicate CopyOk(w: World)
    requires w.holder.Holds?
  {
    var t := Target(w.holder.request);
    && FinalReal(w.img.bits, t, w.img.chunk)
    && |w.holder.copy| == |w.img.bits| && (Count(t, w.img.chunk) != |w.img.bits| ==> w.holder.copy == w.img.bits)
    && (w.holder.request.Write? ==> t > w.size)
    && forall id :: 0 <= id < |w.fetches| && w.fetches[id].stage != Ended ==>
      w.fetches[id].chunk < Count(t, w.img.chunk)
  }

  predicate HolderOk(w: World) {
    w.holder.Holds? ==>
      && w.holder.k < |w.calls| && w.calls[w.holder.k].stage == Locked
      && w.calls[w.holder.k].request == w.holder.request && w.img.sized
      && (w.holder.request.Read? ==> w.holder.stage == Entered)
      && (w.holder.stage == Sized ==> w.holder.request.Write? && Target(w.holder.request) == w.size)
      && (Resizing(w.holder) ==> CopyOk(w))
  }

  /** The buffer is what the provider has of the chunk. */
  ghost predicate Fits(m: Image, f: Fetch)
    requires m.chunk > 0
  {
    MulMonotone(0, f.chunk, m.chunk);
    var offset: nat := f.chunk * m.chunk;
    && f.buffer <= ProviderRange(m.provider, offset, m.chunk) && offset + |f.buffer| <= |m.logical|
    && forall j: nat :: ChunkOf(j, m.chunk) == f.chunk && j < |m.logical| && j < |m.provider| ==>
      j < offset + |f.buffer|
  }

  /** The provider's bytes of the chunk are in the local file. */
  ghost predicate HasLanded(m: Image, c: nat)
    requires m.chunk > 0
  {
    forall j: nat :: ChunkOf(j, m.chunk) == c && j < |m.logical| && j < |m.provider| ==>
      j < |m.local| && m.local[j] == m.provider[j]
  }

  ghost predicate FetchOk(m: Image, error: bool, f: Fetch)
    requires m.chunk > 0
  {
    match f.stage
    case Going => f.chunk < |m.bits| && !m.bits[f.chunk] && Fits(m, f)
    case Landed => f.chunk < |m.bits| && !m.bits[f.chunk] && Fits(m, f) && HasLanded(m, f.chunk)
    case Marked => f.chunk < |m.bits| && m.bits[f.chunk]
    case Failed => error && f.chunk < |m.bits|
    case Ended => error || (f.chunk < |m.bits| ==> m.bits[f.chunk])
  }

  /** Two fetches of one chunk at once. */
  predicate BothFetch(f: Fetch, g: Fetch) {
    f.chunk == g.chunk && f.stage != Ended && g.stage != Ended
  }

  ghost predicate FetchesOk(w: World)
    requires w.img.chunk > 0
  {
    && (forall id :: 0 <= id < |w.fetches| ==> FetchOk(w.img, w.error, w.fetches[id]))
    && (forall i, j :: 0 <= i < |w.fetches| && 0 <= j < |w.fetches| && BothFetch(w.fetches[i], w.fetches[j]) ==> i == j)
  }

  /** What the call has looked at is real. */
  predicate Covered(m: Image, c: Call, next: nat)
    requires m.chunk > 0
  {
    && RangeReal(m.bits, FirstChunk(c, m.chunk), next - 1)
    && RangeReal(m.bits, c.last + 1, EndChunk(c, m.chunk))
  }

  predicate AllReal(m: Image, c: Call)
    requires m.chunk > 0
  {
    c.request == Resize(0) || RangeReal(m.bits, FirstChunk(c, m.chunk), EndChunk(c, m.chunk))
  }

  predicate CallOk(m: Image, error: bool, fetches: seq<Fetch>, c: Call)
    requires m.chunk > 0
  {
    && (c.request.Read? && !c.stage.Over? ==> c.n > 0)
    && (c.request.Write? && !c.stage.Over? ==> c.request.data != [])
    && match c.stage
       case Begun => true
       case Late => true
       case Started => m.sized
       case Ranging(next) => m.sized && (error || Covered(m, c, next))
       case Waiting(next, id) =>
         m.sized && id < |fetches| && fetches[id].chunk == next && (error || Covered(m, c, next))
       case Direct => m.sized && AllReal(m, c)
       case Ready => m.sized && AllReal(m, c)
       case Locked => m.sized && AllReal(m, c)
       case Over(_) => true
  }

  predicate CallsOk(w: World)
    requires w.img.chunk > 0
  {
    && (forall k :: 0 <= k < |w.calls| ==> CallOk(w.img, w.error, w.fetches, w.calls[k]))
    && (forall k :: 0 <= k < |w.calls| && w.calls[k].stage == Locked ==> w.holder.Holds? && w.holder.k == k)
  }

  ghost predicate Inv(w: World) {
    w.img.chunk > 0 && ImageOk(w) && WholeOk(w) && HolderOk(w) && FetchesOk(w) && CallsOk(w)
  }

  // ---- calls ----

  lemma CallStays(m: Image, v: Image, error: bool, failed: bool, fetches: seq<Fetch>, later: seq<Fetch>, c: Call)
    requires m.chunk > 0 && v.chunk == m.chunk && CallOk(m, error, fetches, c)
    requires BitsGrow(m.bits, v.bits) && (m.sized ==> v.sized) && (error ==> failed)
    requires |fetches| <= |later| && forall id :: 0 <= id < |fetches| ==> later[id].chunk == fetches[id].chunk
    ensures CallOk(v, failed, later, c)
  {
    hide ChunkOf;
    var first, end := FirstChunk(c, m.chunk), EndChunk(c, m.chunk);
    assert RangeReal(m.bits, first, end) ==> RangeReal(v.bits, first, end);
    assert RangeReal(m.bits, c.last + 1, end) ==> RangeReal(v.bits, c.last + 1, end);
  }

  /** Every call but `k` stays what it is, in an object whose bits have grown. */
  predicate OthersSame(w: World, v: World, k: int) {
    && |w.calls| <= |v.calls| && v.img.chunk == w.img.chunk && BitsGrow(w.img.bits, v.img.bits)
    && (w.img.sized ==> v.img.sized) && (w.error ==> v.error)
    && |w.fetches| <= |v.fetches|
    && (forall id :: 0 <= id < |w.fetches| ==> v.fetches[id].chunk == w.fetches[id].chunk)
    && (forall i :: 0 <= i < |v.calls| && i != k ==> i < |w.calls| && v.calls[i] == w.calls[i])
  }

  lemma CallsStay(w: World, v: World, k: int)
    requires w.img.chunk > 0 && CallsOk(w) && OthersSame(w, v, k)
    requires 0 <= k < |v.calls| ==> CallOk(v.img, v.error, v.fetches, v.calls[k])
    requires forall i :: 0 <= i < |v.calls| && v.calls[i].stage == Locked ==> v.holder.Holds? && v.holder.k == i
    ensures CallsOk(v)
  {
    hide CallOk, BitsGrow;
    forall i | 0 <= i < |v.calls|
      ensures CallOk(v.img, v.error, v.fetches, v.calls[i])
    {
      if i != k {
        CallStays(w.img, v.img, w.error, v.error, w.fetches, v.fetches, v.calls[i]);
      }
    }
  }

  /** A step that changes nothing but one call, or adds one. */
  predicate OnlyCalls(w: World, v: World) {
    v == w.(calls := v.calls)
  }

  lemma CallStepKeeps(w: World, v: World, k: nat)
    requires Inv(w) && OnlyCalls(w, v) && OthersSame(w, v, k) && k < |v.calls|
    requires CallOk(v.img, v.error, v.fetches, v.calls[k]) && v.calls[k].stage != Locked
    requires k < |w.calls| ==> w.calls[k].stage != Locked
    ensures Inv(v)
  {
    hide CallOk, Refines, FetchOk, BitsGrow;
    CallsStay(w, v, k);
    if w.holder.Holds? {
      assert w.holder.k != k;
    }
  }

  lemma BitsGrowThemselves(bits: seq<bool>)
    ensures BitsGrow(bits, bits)
  {
  }

  lemma BeginKeeps(w: World, r: Request)
    requires Inv(w)
    ensures Inv(Next(w, Begin(r)))
  {
    hide ImageOk, WholeOk, HolderOk, FetchesOk, BitsGrow;
    BitsGrowThemselves(w.img.bits);
    var v := Next(w, Begin(r));
    CallStepKeeps(w, v, |w.calls|);
  }

  lemma ChooseKeeps(w: World, k: nat)
    requires Inv(w) && Enabled(w, Choose(k))
    ensures Inv(Next(w, Choose(k)))
  {
    hide ImageOk, WholeOk, HolderOk, FetchesOk, BitsGrow, ChunkOf, FinalChunk;
    BitsGrowThemselves(w.img.bits);
    var v := Next(w, Choose(k));
    CallStepKeeps(w, v, k);
  }

  lemma LookKeeps(w: World, s: Step)
    requires Inv(w) && Enabled(w, s) && (s.Join? || s.Skip? || s.GiveUp? || s.GetReady? || s.ReadDirect?)
    ensures Inv(Next(w, s))
  {
    hide ImageOk, WholeOk, HolderOk, FetchesOk, BitsGrow, ChunkOf, FinalChunk;
    BitsGrowThemselves(w.img.bits);
    var v := Next(w, s);
    CallStepKeeps(w, v, s.k);
  }

  lemma WokenKeeps(w: World, k: nat)
    requires Inv(w) && Enabled(w, Woken(k))
    ensures Inv(Next(w, Woken(k)))
  {
    hide ImageOk, WholeOk, HolderOk, BitsGrow, ChunkOf, FinalChunk;
    BitsGrowThemselves(w.img.bits);
    var v := Next(w, Woken(k));
    assert FetchOk(w.img, w.error, w.fetches[w.calls[k].stage.id]);
    CallStepKeeps(w, v, k);
  }

  // ---- downloads ----

  lemma ExtentOfChunk(size: nat, chunk: nat, c: nat)
    requires chunk > 0 && c < Count(size, chunk)
    ensures c * chunk < size
    ensures (if c + 1 == Count(size, chunk) then LastChunkSize(size, chunk) else chunk) == Min(chunk, size - c * chunk)
  {
    hide DivideWithCeiling, LastChunkSize;
    ChunkExtent(size, chunk, c);
    LastChunkSizeIsRemainder(size, chunk);
  }

  lemma NewFetchFits(w: World, c: nat)
    requires w.img.chunk > 0 && |w.img.bits| == Count(w.size, w.img.chunk) && w.size == |w.img.logical|
    requires Missing(w, c)
    ensures FetchOk(w.img, w.error, NewFetch(w, c))
  {
    hide Count, LastChunkSize, ChunkOf;
    ExtentOfChunk(w.size, w.img.chunk, c);
    MulMonotone(0, c, w.img.chunk);
    forall j: nat | ChunkOf(j, w.img.chunk) == c && j < |w.img.logical| && j < |w.img.provider|
      ensures j < c * w.img.chunk + |NewFetch(w, c).buffer|
    {
      ChunkOfUnique(j, w.img.chunk, c);
      Distribute(c, w.img.chunk, 0);
    }
  }

  lemma UnheldImage(w: World)
    requires ImageOk(w) && !Between(w.holder)
    ensures Refines(w.img) && |w.img.bits| == Count(w.size, w.img.chunk) && w.size == |w.img.logical|
    ensures w.img.sized ==> |w.img.local| == w.size
  {
  }

  lemma AddFetchKeeps(w: World, v: World, c: nat)
    requires Inv(w) && w.holder == Nobody && Missing(w, c) && Unfetched(w, c)
    requires v == w.(calls := v.calls, fetches := w.fetches + [NewFetch(w, c)])
    ensures ImageOk(v) && WholeOk(v) && HolderOk(v) && FetchesOk(v)
  {
    hide Refines, Fits, Count;
    UnheldImage(w);
    NewFetchFits(w, c);
  }

  lemma FetchAnyKeeps(w: World, c: nat)
    requires Inv(w) && Enabled(w, FetchAny(c))
    ensures Inv(Next(w, FetchAny(c)))
  {
    hide ImageOk, WholeOk, HolderOk, FetchesOk, CallOk, BitsGrow;
    BitsGrowThemselves(w.img.bits);
    var v := Next(w, FetchAny(c));
    AddFetchKeeps(w, v, c);
    CallsStay(w, v, -1);
  }

  lemma StartFetchKeeps(w: World, k: nat)
    requires Inv(w) && Enabled(w, StartFetch(k))
    ensures Inv(Next(w, StartFetch(k)))
  {
    hide ImageOk, WholeOk, HolderOk, FetchesOk, BitsGrow, ChunkOf, FinalChunk;
    BitsGrowThemselves(w.img.bits);
    var v := Next(w, StartFetch(k));
    AddFetchKeeps(w, v, w.calls[k].stage.next);
    CallsStay(w, v, k);
  }

  // ---- a download's store ----

  lemma TruncatedStore(local: seq<byte>, offset: nat, part: seq<byte>, n: nat)
    requires offset + |part| <= n <= |local|
    ensures Truncated(WriteAt(local, offset, part), n) == WriteAt(Truncated(local, n), offset, part)
    ensures forall j :: n <= j < |local| ==> WriteAt(local, offset, part)[j] == local[j]
    ensures |WriteAt(local, offset, part)| == |local|
  {
  }

  /** The part of the buffer is a part of the chunk's extent. */
  lemma PartFits(m: Image, f: Fetch, part: seq<byte>)
    requires m.chunk > 0 && Fits(m, f) && part <= f.buffer
    requires f.chunk * m.chunk < |m.logical|
    ensures part <= ProviderRange(m.provider, f.chunk * m.chunk, Min(m.chunk, |m.logical| - f.chunk * m.chunk))
  {
    hide ChunkOf;
    MulMonotone(0, f.chunk, m.chunk);
  }

  lemma InSettled(w: World, c: nat)
    requires w.img.chunk > 0 && ImageOk(w) && c < |w.img.bits|
    requires Between(w.holder) ==> c < Count(Target(w.holder.request), w.img.chunk)
    ensures c < |Settled(w).bits| && Settled(w).bits[c] == w.img.bits[c]
    ensures c * w.img.chunk < |w.img.logical|
  {
    hide Refines, DivideWithCeiling;
    SettledCount(w);
    ChunkExtent(|w.img.logical|, w.img.chunk, c);
  }

  lemma SettledCount(w: World)
    requires w.img.chunk > 0 && ImageOk(w)
    ensures |Settled(w).bits| == Count(|w.img.logical|, w.img.chunk)
    ensures w.img.sized ==> |Settled(w).local| == |w.img.logical|
    ensures Between(w.holder) ==> |w.img.logical| <= |w.img.local|
  {
  }

  /** A fetch that is not over lies in the file as it is going to be. */
  lemma FetchInside(w: World, id: nat)
    requires Inv(w) && id < |w.fetches| && (w.fetches[id].stage == Going || w.fetches[id].stage == Landed)
    ensures var c := w.fetches[id].chunk;
            && c < |w.img.bits| && !w.img.bits[c] && c < |Settled(w).bits| && !Settled(w).bits[c]
            && c * w.img.chunk < |w.img.logical| && Fits(w.img, w.fetches[id])
  {
    hide ImageOk, Fits, CallsOk, WholeOk, Count;
    assert FetchOk(w.img, w.error, w.fetches[id]);
    InSettled(w, w.fetches[id].chunk);
  }

  lemma StoreInSettled(w: World, c: nat, part: seq<byte>)
    requires w.img.chunk > 0 && ImageOk(w) && (c as int) * w.img.chunk + |part| <= |w.img.logical|
    ensures Settled(w.(img := PartlyStored(w.img, c, part))) == PartlyStored(Settled(w), c, part)
    ensures LengthsOk(w.(img := PartlyStored(w.img, c, part)))
  {
    hide Refines, Count, WriteAt, Truncated;
    MulMonotone(0, c, w.img.chunk);
    SettledCount(w);
    if Between(w.holder) {
      TruncatedStore(w.img.local, c * w.img.chunk, part, |w.img.logical|);
    }
  }

  lemma StoreKeepsImage(w: World, id: nat, part: seq<byte>)
    requires Inv(w) && id < |w.fetches| && w.fetches[id].stage == Going && part <= w.fetches[id].buffer
    ensures ImageOk(w.(img := PartlyStored(w.img, w.fetches[id].chunk, part)))
  {
    hide Refines, Fits, Count, LengthsOk, CallsOk, FetchesOk, HolderOk, WholeOk;
    var c := w.fetches[id].chunk;
    FetchInside(w, id);
    BufferInside(w.img, w.fetches[id]);
    PartFits(w.img, w.fetches[id], part);
    StoreInSettled(w, c, part);
    PartlyStoredRefines(Settled(w), c, Min(w.img.chunk, |w.img.logical| - c * w.img.chunk), part);
  }

  lemma BufferInside(m: Image, f: Fetch)
    requires m.chunk > 0 && Fits(m, f)
    ensures f.chunk * m.chunk + |f.buffer| <= |m.logical| && |f.buffer| <= m.chunk
  {
  }

  /** Bytes stored in one chunk leave what has landed in another. */
  lemma StoreLeavesLanded(m: Image, c: nat, part: seq<byte>, other: nat)
    requires m.chunk > 0 && |part| <= m.chunk && other != c && HasLanded(m, other)
    ensures HasLanded(PartlyStored(m, c, part), other)
  {
    hide ChunkOf, WriteAt;
    var v := PartlyStored(m, c, part);
    MulMonotone(0, c, m.chunk);
    forall j: nat | ChunkOf(j, m.chunk) == other && j < |m.logical| && j < |m.provider|
      ensures j < |v.local| && v.local[j] == m.provider[j]
    {
      ChunkOfUnique(j, m.chunk, c);
      Distribute(c, m.chunk, 0);
      StoredLength(m.local, c * m.chunk, part);
      WriteAtByte(m.local, c * m.chunk, part, j);
    }
  }

  lemma StoredLength(s: seq<byte>, offset: nat, data: seq<byte>)
    ensures |WriteAt(s, offset, data)| >= |s|
    ensures data != [] ==> |WriteAt(s, offset, data)| >= offset + |data|
  {
  }

  lemma StoreLands(m: Image, f: Fetch)
    requires m.chunk > 0 && Fits(m, f)
    ensures HasLanded(PartlyStored(m, f.chunk, f.buffer), f.chunk)
  {
    hide ChunkOf, WriteAt;
    var v := PartlyStored(m, f.chunk, f.buffer);
    MulMonotone(0, f.chunk, m.chunk);
    forall j: nat | ChunkOf(j, m.chunk) == f.chunk && j < |m.logical| && j < |m.provider|
      ensures j < |v.local| && v.local[j] == m.provider[j]
    {
      ChunkOfUnique(j, m.chunk, f.chunk);
      StoredLength(m.local, f.chunk * m.chunk, f.buffer);
      WriteAtByte(m.local, f.chunk * m.chunk, f.buffer, j);
    }
  }

  lemma FetchStoresKeepsFetches(w: World, id: nat, ok: bool, count: nat)
    requires Inv(w) && Enabled(w, FetchStores(id, ok, count))
    ensures FetchesOk(Next(w, FetchStores(id, ok, count)))
  {
    hide ImageOk, WholeOk, HolderOk, CallsOk, Fits, HasLanded, WriteAt;
    var v := Next(w, FetchStores(id, ok, count));
    var f := w.fetches[id];
    BufferInside(w.img, f);
    forall i | 0 <= i < |v.fetches|
      ensures FetchOk(v.img, v.error, v.fetches[i])
    {
      if i == id {
        StoreLands(w.img, f);
        SameFits(w.img, v.img, f, v.fetches[i]);
      } else {
        assert FetchOk(w.img, w.error, w.fetches[i]);
        if w.fetches[i].stage == Landed || w.fetches[i].stage == Going {
          SameFits(w.img, v.img, w.fetches[i], w.fetches[i]);
          assert !BothFetch(w.fetches[i], f);
        }
        if w.fetches[i].stage == Landed {
          StoreLeavesLanded(w.img, f.chunk, if ok then f.buffer else f.buffer[..count], w.fetches[i].chunk);
        }
      }
    }
  }

  lemma SameFits(m: Image, v: Image, f: Fetch, g: Fetch)
    requires m.chunk > 0 && v.chunk == m.chunk && v.logical == m.logical && v.provider == m.provider
    requires f.chunk == g.chunk && f.buffer == g.buffer && Fits(m, f)
    ensures Fits(v, g)
  {
  }

  lemma FetchStoresKeeps(w: World, id: nat, ok: bool, count: nat)
    requires Inv(w) && Enabled(w, FetchStores(id, ok, count))
    ensures Inv(Next(w, FetchStores(id, ok, count)))
  {
    hide ImageOk, WriteAt, CallOk, BitsGrow, FetchesOk;
    BitsGrowThemselves(w.img.bits);
    var v := Next(w, FetchStores(id, ok, count));
    StoreKeepsImage(w, id, if ok then w.fetches[id].buffer else w.fetches[id].buffer[..count]);
    SameImage(w.(img := v.img), v);
    FetchStoresKeepsFetches(w, id, ok, count);
    GoingIsOk(w, id);
    CallsStay(w, v, -1);
  }

  lemma GoingIsOk(w: World, id: nat)
    requires w.img.chunk > 0 && FetchesOk(w) && id < |w.fetches|
    ensures FetchOk(w.img, w.error, w.fetches[id])
  {
  }

  lemma SameImage(w: World, v: World)
    requires ImageOk(w) && v.img == w.img && v.size == w.size && v.holder == w.holder
    ensures ImageOk(v)
  {
  }

  // ---- a download's mark ----

  lemma MarkedRefines(m: Image, c: nat)
    requires Refines(m) && c < |m.bits| && !m.bits[c] && HasLanded(m, c)
    ensures Refines(m.(bits := m.bits[c := true]))
  {
    hide ChunkOf, DivideWithCeiling;
    var v := m.(bits := m.bits[c := true]);
    forall j: nat | j < |m.logical|
      ensures ByteRefined(v, j)
    {
      assert ByteRefined(m, j);
    }
  }

  lemma MarkInSettled(w: World, c: nat)
    requires w.img.chunk > 0 && ImageOk(w) && c < |w.img.bits| && c < |Settled(w).bits|
    ensures var v := w.(img := w.img.(bits := w.img.bits[c := true]));
            Settled(v) == Settled(w).(bits := Settled(w).bits[c := true]) && LengthsOk(v)
  {
    hide Refines, Count, Truncated;
    SettledCount(w);
    CutBits(w.img.bits, c, Count(|w.img.logical|, w.img.chunk));
  }

  lemma CutBits(bits: seq<bool>, c: nat, count: nat)
    requires c < |bits| && c < count
    ensures ResizedBits(bits[c := true], count) == ResizedBits(bits, count)[c := true]
  {
  }

  lemma LandedInSettled(w: World, c: nat)
    requires w.img.chunk > 0 && ImageOk(w) && HasLanded(w.img, c)
    ensures HasLanded(Settled(w), c)
  {
    hide Refines, ChunkOf;
    SettledCount(w);
  }

  lemma MarkKeepsImage(w: World, id: nat)
    requires Inv(w) && Enabled(w, FetchMarks(id))
    ensures ImageOk(Next(w, FetchMarks(id)))
  {
    hide Refines, Fits, HasLanded, Count, CallsOk, HolderOk, WholeOk, LengthsOk;
    var c := w.fetches[id].chunk;
    GoingIsOk(w, id);
    FetchInside(w, id);
    LandedInSettled(w, c);
    MarkedRefines(Settled(w), c);
    MarkInSettled(w, c);
    SameImage(w.(img := w.img.(bits := w.img.bits[c := true])), Next(w, FetchMarks(id)));
  }

  lemma MarkGrows(bits: seq<bool>, c: nat)
    requires c < |bits|
    ensures BitsGrow(bits, bits[c := true])
  {
  }

  lemma MarkKeepsFetches(w: World, id: nat)
    requires Inv(w) && Enabled(w, FetchMarks(id))
    ensures FetchesOk(Next(w, FetchMarks(id)))
  {
    hide ImageOk, WholeOk, HolderOk, CallsOk, Fits, HasLanded;
    var v := Next(w, FetchMarks(id));
    forall i | 0 <= i < |v.fetches|
      ensures FetchOk(v.img, v.error, v.fetches[i])
    {
      assert FetchOk(w.img, w.error, w.fetches[i]);
      if i != id && (w.fetches[i].stage == Landed || w.fetches[i].stage == Going) {
        SameFits(w.img, v.img, w.fetches[i], w.fetches[i]);
        assert !BothFetch(w.fetches[i], w.fetches[id]);
      }
      if w.fetches[i].stage == Landed {
        SameLanded(w.img, v.img, w.fetches[i].chunk);
      }
    }
  }

  lemma SameLanded(m: Image, v: Image, c: nat)
    requires m.chunk > 0 && v == m.(bits := v.bits, sized := v.sized) && HasLanded(m, c)
    ensures HasLanded(v, c)
  {
  }

  lemma MarkKeepsHolder(w: World, id: nat)
    requires Inv(w) && Enabled(w, FetchMarks(id)) && !Hazard(w, FetchMarks(id))
    ensures HolderOk(Next(w, FetchMarks(id)))
  {
    hide ImageOk, WholeOk, FetchesOk, CallsOk, Count, FinalChunk, BitsGrow;
    var v := Next(w, FetchMarks(id));
    MarkGrows(w.img.bits, w.fetches[id].chunk);
    if Resizing(w.holder) {
      FinalStaysReal(w.img.bits, v.img.bits, Target(w.holder.request), w.img.chunk);
    }
  }

  lemma FinalStaysReal(was: seq<bool>, now: seq<bool>, size: nat, chunk: nat)
    requires BitsGrow(was, now) && FinalReal(was, size, chunk)
    ensures FinalReal(now, size, chunk)
  {
  }

  lemma FetchMarksKeeps(w: World, id: nat)
    requires Inv(w) && Enabled(w, FetchMarks(id)) && !Hazard(w, FetchMarks(id))
    ensures Inv(Next(w, FetchMarks(id)))
  {
    hide ImageOk, HolderOk, CallOk, BitsGrow, FetchesOk;
    MarkGrows(w.img.bits, w.fetches[id].chunk);
    var v := Next(w, FetchMarks(id));
    MarkKeepsImage(w, id);
    MarkKeepsFetches(w, id);
    MarkKeepsHolder(w, id);
    CallsStay(w, v, -1);
  }

  lemma EndKeepsFetches(w: World, id: nat)
    requires w.img.chunk > 0 && FetchesOk(w) && Enabled(w, FetchEnds(id))
    ensures FetchesOk(Next(w, FetchEnds(id)))
  {
    hide Fits, HasLanded;
    assert FetchOk(w.img, w.error, w.fetches[id]);
  }

  lemma FetchEndsKeeps(w: World, id: nat)
    requires Inv(w) && Enabled(w, FetchEnds(id))
    ensures Inv(Next(w, FetchEnds(id)))
  {
    hide CallOk, BitsGrow, FetchesOk, ImageOk;
    BitsGrowThemselves(w.img.bits);
    var v := Next(w, FetchEnds(id));
    EndKeepsFetches(w, id);
    SameImage(w, v);
    CallsStay(w, v, -1);
  }

  // ---- check_start ----

  /** The local file becomes as long as the object says it is, or was so already. */
  predicate Lengthened(w: World, v: Image) {
    v == w.img.(local := v.local, sized := true) && v.local == Truncated(w.img.local, w.size)
  }

  lemma LengthenedImage(w: World, v: World)
    requires Inv(w) && (Between(w.holder) ==> Target(w.holder.request) == w.size)
    requires v == w.(img := v.img, calls := v.calls) && Lengthened(w, v.img)
    ensures ImageOk(v) && WholeOk(v)
    ensures w.img.sized ==> v.img == w.img
  {
    hide Refines, Count, CallsOk, FetchesOk, CopyOk, Truncated;
    if w.img.sized {
      if !Between(w.holder) {
        UnheldImage(w);
      }
      TruncatedToItself(w.img.local);
      assert v.img == w.img;
      SameImage(w, v);
    } else {
      assert !Between(w.holder);
      UnheldImage(w);
      AllocatedRefines(w.img);
    }
  }

  lemma LengthenedFetches(w: World, v: World)
    requires Inv(w) && v == w.(img := v.img, calls := v.calls) && Lengthened(w, v.img)
    requires w.img.sized ==> v.img == w.img
    ensures FetchesOk(v)
  {
    hide ImageOk, WholeOk, HolderOk, CallsOk, Fits, ChunkOf;
    if !w.img.sized {
      NotBetween(w);
      forall id | 0 <= id < |v.fetches|
        ensures FetchOk(v.img, v.error, v.fetches[id])
      {
        assert FetchOk(w.img, w.error, w.fetches[id]);
        if w.fetches[id].stage == Landed || w.fetches[id].stage == Going {
          SameFits(w.img, v.img, w.fetches[id], w.fetches[id]);
        }
      }
    }
  }

  lemma NotBetween(w: World)
    requires ImageOk(w) && !w.img.sized
    ensures !Between(w.holder) && w.size == |w.img.logical|
  {
  }

  lemma LengthenedKeeps(w: World, v: World, k: nat)
    requires Inv(w) && (Between(w.holder) ==> Target(w.holder.request) == w.size)
    requires v == w.(img := v.img, calls := v.calls) && Lengthened(w, v.img)
    requires k < |w.calls| && (w.calls[k].stage == Begun || w.calls[k].stage == Late)
    requires v.calls == w.calls[k := w.calls[k].(stage := Started)]
    ensures Inv(v)
  {
    hide ImageOk, WholeOk, BitsGrow, FetchesOk, Lengthened, CopyOk, Count, FinalReal;
    BitsGrowThemselves(w.img.bits);
    LengthenedImage(w, v);
    LengthenedFetches(w, v);
    LengthenedIs(w, v.img);
    CallsStay(w, v, k);
    if Resizing(w.holder) {
      assert CopyOk(w);
      SameCopy(w, v);
    }
  }

  lemma LengthenedIs(w: World, v: Image)
    requires Lengthened(w, v)
    ensures v == w.img.(local := v.local, sized := true)
  {
  }

  lemma SameCopy(w: World, v: World)
    requires w.holder.Holds? && CopyOk(w) && v.holder == w.holder && v.img.bits == w.img.bits &&
             v.img.chunk == w.img.chunk
    requires v.size == w.size && v.fetches == w.fetches
    ensures CopyOk(v)
  {
  }

  lemma LateTruncateKeeps(w: World, k: nat)
    requires Inv(w) && Enabled(w, LateTruncate(k)) && !Hazard(w, LateTruncate(k))
    ensures Inv(Next(w, LateTruncate(k)))
  {
    hide ImageOk, WholeOk, HolderOk, FetchesOk, CallsOk;
    LengthenedKeeps(w, Next(w, LateTruncate(k)), k);
  }

  lemma StartKeeps(w: World, k: nat)
    requires Inv(w) && Enabled(w, Start(k))
    ensures Inv(Next(w, Start(k)))
  {
    hide ImageOk, WholeOk, HolderOk, FetchesOk, BitsGrow, Truncated;
    var v := Next(w, Start(k));
    if v.img == w.img {
      BitsGrowThemselves(w.img.bits);
      CallStepKeeps(w, v, k);
    } else {
      NotBetween(w);
      TruncatedToItself(w.img.local);
      LengthenedKeeps(w, v, k);
    }
  }

  // ---- the holder of the mutex ----

  lemma SameWhenWhole(w: World, v: World)
    requires ImageOk(w) && !Between(w.holder) && !Between(v.holder) && v.img == w.img && v.size == w.size
    ensures ImageOk(v)
  {
  }

  lemma LockKeeps(w: World, k: nat)
    requires Inv(w) && Enabled(w, Lock(k))
    ensures Inv(Next(w, Lock(k)))
  {
    hide ImageOk, FetchesOk, BitsGrow, ChunkOf, FinalChunk;
    BitsGrowThemselves(w.img.bits);
    var v := Next(w, Lock(k));
    SameWhenWhole(w, v);
    SameFetches(w, v);
    CallsStay(w, v, k);
  }

  lemma SameFetches(w: World, v: World)
    requires w.img.chunk > 0 && v.img == w.img && FetchesOk(w) && v.fetches == w.fetches && (w.error ==> v.error)
    ensures FetchesOk(v)
  {
    hide Fits, HasLanded;
    forall id | 0 <= id < |v.fetches|
      ensures FetchOk(v.img, v.error, v.fetches[id])
    {
      assert FetchOk(w.img, w.error, w.fetches[id]);
    }
  }

  /** The call that holds the mutex ends without touching the file. */
  lemma EndKeeps(w: World, v: World)
    requires Inv(w) && w.holder.Holds? && !Between(w.holder) && w.holder.stage != Sized
    requires v == w.(holder := Nobody, calls := v.calls) && |v.calls| == |w.calls|
    requires forall i :: 0 <= i < |v.calls| && i != w.holder.k ==> v.calls[i] == w.calls[i]
    requires w.holder.k < |v.calls| && v.calls[w.holder.k].stage.Over?
    ensures Inv(v)
  {
    hide ImageOk, FetchesOk, BitsGrow, CallOk, CopyOk;
    BitsGrowThemselves(w.img.bits);
    SameWhenWhole(w, v);
    SameFetches(w, v);
    OverIsOk(v.img, v.error, v.fetches, v.calls[w.holder.k]);
    CallsStay(w, v, w.holder.k);
  }

  lemma OverIsOk(m: Image, error: bool, fetches: seq<Fetch>, c: Call)
    requires m.chunk > 0 && c.stage.Over?
    ensures CallOk(m, error, fetches, c)
  {
  }

  lemma ReadLockedKeeps(w: World)
    requires Inv(w) && Enabled(w, ReadLocked)
    ensures Inv(Next(w, ReadLocked))
  {
    hide ImageOk, WholeOk, FetchesOk, CallsOk, CopyOk, Window;
    EndKeeps(w, Next(w, ReadLocked));
  }

  lemma CopyKeeps(w: World)
    requires Inv(w) && Enabled(w, CopyBits)
    ensures Inv(Next(w, CopyBits))
  {
    hide ImageOk, FetchesOk, BitsGrow, ChunkOf, FinalChunk, Count;
    var v := Next(w, CopyBits);
    SameWhenWhole(w, v);
    SameFetches(w, v);
    assert CallOk(w.img, w.error, w.fetches, w.calls[w.holder.k]);
  }

  // ---- the file operation of a resize ----

  lemma FinalIsReady(m: Image, size: nat)
    requires m.chunk > 0 && FinalReal(m.bits, size, m.chunk)
    ensures FinalChunkReady(m, size)
  {
  }

  lemma CutGrows(w: World)
    requires Inv(w) && Enabled(w, CutFile(true)) && Target(w.holder.request) >= |w.img.logical|
    ensures ImageOk(Next(w, CutFile(true))) && WholeOk(Next(w, CutFile(true)))
  {
    hide Refines, Count, FetchesOk, CallsOk, CopyOk;
    UnheldImage(w);
    TruncatedBack(w.img.local, Target(w.holder.request));
    KeptBits(w.img.bits);
    assert Settled(Next(w, CutFile(true))) == w.img;
  }

  lemma TruncatedBack(s: seq<byte>, n: nat)
    requires |s| <= n
    ensures Truncated(Truncated(s, n), |s|) == s
    ensures forall j :: |s| <= j < n ==> Truncated(s, n)[j] == 0
  {
  }

  lemma CutShrinks(w: World)
    requires Inv(w) && Enabled(w, CutFile(true)) && Target(w.holder.request) < |w.img.logical|
    ensures ImageOk(Next(w, CutFile(true))) && WholeOk(Next(w, CutFile(true)))
    ensures Settled(Next(w, CutFile(true))) == Resized(w.img, Target(w.holder.request))
  {
    hide Refines, FetchesOk, CallsOk, FinalReal;
    var t := Target(w.holder.request);
    UnheldImage(w);
    FinalIsReady(w.img, t);
    ResizedRefines(w.img, t);
    TruncatedToItself(Truncated(w.img.local, t));
    assert Settled(Next(w, CutFile(true))) == Resized(w.img, t);
  }

  /** A fetch of a chunk that is not real, and not cut off, fits into the shorter file. */
  lemma FitsShorter(m: Image, v: Image, f: Fetch)
    requires m.chunk > 0 && v.chunk == m.chunk && v.provider == m.provider && |v.logical| <= |m.logical| && Fits(m, f)
    requires f.chunk < |m.bits| && !m.bits[f.chunk] && f.chunk < Count(|v.logical|, m.chunk)
    requires FinalReal(m.bits, |v.logical|, m.chunk)
    ensures Fits(v, f)
  {
    hide ChunkOf, DivideWithCeiling;
    var count := Count(|v.logical|, m.chunk);
    CeilingBounds(|v.logical|, m.chunk);
    BufferInside(m, f);
    assert f.chunk + 1 <= count - 1;
    MulMonotone(f.chunk + 1, count - 1, m.chunk);
    Distribute(f.chunk, m.chunk, 0);
  }

  lemma CutKeepsFetches(w: World)
    requires Inv(w) && Enabled(w, CutFile(true))
    ensures FetchesOk(Next(w, CutFile(true)))
  {
    hide ImageOk, WholeOk, CallsOk, Fits, HasLanded, FinalReal, Count, Truncated;
    var v := Next(w, CutFile(true));
    UnheldImage(w);
    forall id | 0 <= id < |v.fetches|
      ensures FetchOk(v.img, v.error, v.fetches[id])
    {
      var f := w.fetches[id];
      assert FetchOk(w.img, w.error, f);
      if f.stage == Going || f.stage == Landed {
        if Target(w.holder.request) < |w.img.logical| {
          FitsShorter(w.img, v.img, f);
        } else {
          SameFits(w.img, v.img, f, f);
        }
      }
      if f.stage == Landed {
        LandedInCut(w.img, v.img, f.chunk, Target(w.holder.request));
      }
    }
  }

  lemma LandedInCut(m: Image, v: Image, c: nat, t: nat)
    requires m.chunk > 0 && v.chunk == m.chunk && v.provider == m.provider && HasLanded(m, c)
    requires v.local == Truncated(m.local, t) && |v.logical| == Min(|m.logical|, t)
    ensures HasLanded(v, c)
  {
  }

  lemma CutFileKeeps(w: World, ok: bool)
    requires Inv(w) && Enabled(w, CutFile(ok))
    ensures Inv(Next(w, CutFile(ok)))
  {
    hide ImageOk, FetchesOk, BitsGrow, CallOk, FinalReal, Count, Truncated;
    var v := Next(w, CutFile(ok));
    if ok {
      if Target(w.holder.request) < |w.img.logical| {
        CutShrinks(w);
      } else {
        CutGrows(w);
      }
      CutKeepsFetches(w);
      BitsGrowThemselves(w.img.bits);
      CallsStay(w, v, -1);
    } else {
      EndKeeps(w, v);
    }
  }

  lemma CompareKeeps(w: World)
    requires Inv(w) && Enabled(w, CompareSize)
    ensures Inv(Next(w, CompareSize)) && Next(w, CompareSize) == AtStage(w, Compared)
  {
    hide FetchesOk, BitsGrow, CallOk, FinalReal, Count, Truncated, Refines;
    var v := Next(w, CompareSize);
    SameFetches(w, v);
    BitsGrowThemselves(w.img.bits);
    CallsStay(w, v, -1);
  }

  // ---- adopting the new size ----

  lemma ResizedTwice(bits: seq<bool>, count: nat)
    ensures ResizedBits(ResizedBits(bits, count), count) == ResizedBits(bits, count)
  {
  }

  lemma GrownBack(s: seq<byte>, n: nat)
    requires n <= |s| && forall j :: n <= j < |s| ==> s[j] == 0
    ensures Truncated(Truncated(s, n), |s|) == s
  {
  }

  function AdoptedImage(w: World): Image
    requires w.holder.Holds?
  {
    w.img.(bits := AdoptedBits(w), logical := Truncated(w.img.logical, Target(w.holder.request)))
  }

  /** The file operation and the bookkeeping of a resize amount to a resize of the object as it was. */
  lemma AdoptedIsResized(w: World)
    requires Inv(w) && Enabled(w, Adopt)
    ensures AdoptedImage(w) == Resized(Settled(w), Target(w.holder.request))
    ensures Refines(AdoptedImage(w))
  {
    hide Refines, FetchesOk, CallsOk, FinalReal;
    var m, t := Settled(w), Target(w.holder.request);
    SettledCount(w);
    GrownBack(w.img.local, |w.img.logical|);
    ResizedTwice(w.img.bits, Count(t, w.img.chunk));
    KeptBits(w.img.bits);
    TruncatedToItself(w.img.logical);
    AdoptedIs(w);
    SettledFinal(w);
    ResizedRefines(m, t);
  }

  lemma AdoptedIs(w: World)
    requires w.holder.Holds? && CopyOk(w)
    ensures AdoptedBits(w) == ResizedBits(w.img.bits, Count(Target(w.holder.request), w.img.chunk))
  {
    KeptBits(w.img.bits);
  }

  lemma SettledFinal(w: World)
    requires w.img.chunk > 0 && Between(w.holder) && LengthsOk(w) && CopyOk(w)
    ensures FinalChunkReady(Settled(w), Target(w.holder.request))
  {
    FinalIsReady(w.img, Target(w.holder.request));
  }

  /** A fetch of the old final chunk finds nothing more in the longer file: the provider has no more. */
  lemma FitsLonger(m: Image, v: Image, f: Fetch)
    requires Refines(m) && v.chunk == m.chunk && v.provider == m.provider && |v.logical| >= |m.logical| && Fits(m, f)
    requires f.chunk < |m.bits| && !m.bits[f.chunk]
    ensures Fits(v, f)
    ensures HasLanded(m, f.chunk) && v.local == m.local ==> HasLanded(v, f.chunk)
  {
    hide ChunkOf, ByteRefined, DivideWithCeiling;
    forall j: nat | ChunkOf(j, m.chunk) == f.chunk && j < |m.provider|
      ensures j < |m.logical|
    {
      if |m.logical| <= j {
        ChunkOfUnique(j, m.chunk, f.chunk);
        OldEndInFinalChunk(|m.logical|, m.chunk, j, f.chunk);
      }
    }
  }

  lemma AdoptedFetch(w: World, v: World, f: Fetch)
    requires Inv(w) && Enabled(w, Adopt) && v.img == AdoptedImage(w) && f in w.fetches
    ensures FetchOk(v.img, w.error, f)
  {
    hide ImageOk, WholeOk, CallsOk, Fits, HasLanded, FinalReal, Count, Truncated, FetchOk;
    var id :| 0 <= id < |w.fetches| && w.fetches[id] == f;
    GoingIsOk(w, id);
    AdoptedIs(w);
    ResizedBitsGrow(w.img.bits, Count(Target(w.holder.request), w.img.chunk));
    if f.stage == Going || f.stage == Landed {
      FetchInside(w, id);
      FetchStaysOk(w, v, f);
    } else {
      if f.stage != Ended {
        KeptChunks(w, id);
      }
      OtherFetchStaysOk(w.img, v.img, w.error, f);
    }
  }

  lemma KeptChunks(w: World, id: nat)
    requires w.holder.Holds? && CopyOk(w) && id < |w.fetches| && w.fetches[id].stage != Ended
    ensures w.fetches[id].chunk < Count(Target(w.holder.request), w.img.chunk)
  {
  }

  lemma OtherFetchStaysOk(m: Image, v: Image, error: bool, f: Fetch)
    requires m.chunk > 0 && v.chunk == m.chunk && BitsGrow(m.bits, v.bits) && FetchOk(m, error, f)
    requires f.stage != Going && f.stage != Landed && (f.stage != Ended ==> f.chunk < |v.bits|)
    ensures FetchOk(v, error, f)
  {
  }

  lemma FetchStaysOk(w: World, v: World, f: Fetch)
    requires Inv(w) && Enabled(w, Adopt) && v.img == AdoptedImage(w) && FetchOk(w.img, w.error, f)
    requires AdoptedBits(w) == ResizedBits(w.img.bits, Count(Target(w.holder.request), w.img.chunk))
    requires (f.stage == Going || f.stage == Landed) && f in w.fetches
    requires f.chunk < |w.img.bits| && !w.img.bits[f.chunk]
    requires f.chunk < |Settled(w).bits| && !Settled(w).bits[f.chunk] && Fits(w.img, f)
    ensures FetchOk(v.img, w.error, f)
  {
    hide WholeOk, CallsOk, FetchesOk, Fits, HasLanded, FinalReal, DivideWithCeiling, Refines;
    var m := Settled(w).(local := w.img.local);
    SameFits(w.img, Settled(w), f, f);
    FitsLonger(Settled(w), v.img, f);
    if f.stage == Landed {
      LandedInSettled(w, f.chunk);
      LandedLonger(Settled(w), v.img, f.chunk);
    }
  }

  lemma LandedLonger(m: Image, v: Image, c: nat)
    requires Refines(m) && v.chunk == m.chunk && v.provider == m.provider && HasLanded(m, c)
    requires |m.local| <= |v.local| && v.local[..|m.local|] == m.local
    requires c < |m.bits| && !m.bits[c]
    ensures HasLanded(v, c)
  {
    hide ChunkOf, ByteRefined, DivideWithCeiling;
    forall j: nat | ChunkOf(j, m.chunk) == c && j < |m.provider|
      ensures j < |m.logical|
    {
      if |m.logical| <= j {
        ChunkOfUnique(j, m.chunk, c);
        OldEndInFinalChunk(|m.logical|, m.chunk, j, c);
      }
    }
    assert forall j: nat :: j < |m.local| ==> v.local[j] == v.local[..|m.local|][j];
  }

  lemma AdoptKeepsFetches(w: World)
    requires Inv(w) && Enabled(w, Adopt)
    ensures FetchesOk(Next(w, Adopt))
  {
    hide ImageOk, WholeOk, CallsOk, FetchOk, HolderOk;
    var v := Next(w, Adopt);
    assert v.img == AdoptedImage(w) && v.fetches == w.fetches && v.error == w.error;
    forall id | 0 <= id < |v.fetches|
      ensures FetchOk(v.img, v.error, v.fetches[id])
    {
      AdoptedFetch(w, v, v.fetches[id]);
    }
  }

  lemma AdoptKeepsImage(w: World)
    requires Inv(w) && Enabled(w, Adopt)
    ensures ImageOk(Next(w, Adopt)) && WholeOk(Next(w, Adopt))
    ensures BitsGrow(w.img.bits, Next(w, Adopt).img.bits)
  {
    hide Refines, FetchesOk, CallsOk, FinalReal, Count;
    AdoptedIsResized(w);
    AdoptedIs(w);
    ResizedBitsGrow(w.img.bits, Count(Target(w.holder.request), w.img.chunk));
  }

  lemma AdoptKeeps(w: World)
    requires Inv(w) && Enabled(w, Adopt)
    ensures Inv(Next(w, Adopt))
  {
    hide ImageOk, WholeOk, FetchesOk, BitsGrow, CallOk, CopyOk, Count;
    var v := Next(w, Adopt);
    AdoptKeepsImage(w);
    AdoptKeepsFetches(w);
    if w.holder.request.Write? {
      CallsStay(w, v, -1);
    } else {
      OverIsOk(v.img, v.error, v.fetches, v.calls[w.holder.k]);
      CallsStay(w, v, w.holder.k);
    }
  }

  // ---- the file operation of a write ----

  lemma HeldIsReal(w: World)
    requires Inv(w) && w.holder.Holds?
    ensures w.holder.k < |w.calls| && AllReal(w.img, w.calls[w.holder.k])
    ensures w.holder.request.Write? ==> w.holder.request.data != []
    ensures w.holder.request.Read? ==> w.calls[w.holder.k].n > 0
  {
    hide ImageOk, WholeOk, FetchesOk, AllReal, CopyOk;
    assert CallOk(w.img, w.error, w.fetches, w.calls[w.holder.k]);
  }

  /** The bytes of the write lie in real chunks. */
  lemma WritePresent(w: World, part: nat)
    requires Inv(w) && w.holder.Holds? && w.holder.request.Write? && !Between(w.holder)
    requires part <= |w.holder.request.data|
    ensures Present(w.img, w.holder.request.offset, part)
  {
    hide Refines, FetchesOk, WholeOk, ChunkOf, CopyOk, CallOk, LengthsOk;
    HeldIsReal(w);
    var offset, size := w.holder.request.offset, |w.holder.request.data|;
    ChunkOfMonotone(offset + size - 1, offset + size, w.img.chunk);
    ChunksPresent(w.img, offset, size, ChunkOf(offset, w.img.chunk), ChunkOf(offset + size, w.img.chunk));
  }

  lemma WrittenLanded(m: Image, offset: nat, part: seq<byte>, c: nat)
    requires m.chunk > 0 && HasLanded(m, c) && Present(m, offset, |part|) && c < |m.bits| && !m.bits[c]
    requires offset + |part| <= |m.logical|
    ensures HasLanded(Written(m, offset, part), c)
  {
    hide ChunkOf, WriteAt;
    var v := Written(m, offset, part);
    StoredLength(m.local, offset, part);
    forall j: nat | ChunkOf(j, m.chunk) == c && j < |v.logical| && j < |v.provider|
      ensures j < |v.local| && v.local[j] == v.provider[j]
    {
      WriteAtByte(m.local, offset, part, j);
    }
  }

  lemma WriteKeepsFetches(w: World, v: World, part: seq<byte>)
    requires Inv(w) && w.holder.Holds? && w.holder.request.Write? && !Between(w.holder)
    requires part <= w.holder.request.data && w.holder.request.offset + |part| <= |w.img.logical|
    requires v.img == Written(w.img, w.holder.request.offset, part) && v.fetches == w.fetches && (w.error ==> v.error)
    ensures FetchesOk(v)
  {
    hide ImageOk, WholeOk, CallsOk, Fits, HasLanded, WriteAt, HolderOk, Present, ChunkOf;
    WritePresent(w, |part|);
    forall id | 0 <= id < |v.fetches|
      ensures FetchOk(v.img, v.error, v.fetches[id])
    {
      var f := w.fetches[id];
      assert FetchOk(w.img, w.error, f);
      if f.stage == Going || f.stage == Landed {
        SameLengthFits(w.img, v.img, f);
      }
      if f.stage == Landed {
        WrittenLanded(w.img, w.holder.request.offset, part, f.chunk);
      }
    }
  }

  lemma SameLengthFits(m: Image, v: Image, f: Fetch)
    requires m.chunk > 0 && v.chunk == m.chunk && v.provider == m.provider && |v.logical| == |m.logical| && Fits(m, f)
    ensures Fits(v, f)
  {
  }

  lemma StoreDataKeepsImage(w: World, ok: bool, count: nat)
    requires Inv(w) && Enabled(w, StoreData(ok, count))
    ensures ImageOk(Next(w, StoreData(ok, count))) && WholeOk(Next(w, StoreData(ok, count)))
  {
    hide Refines, FetchesOk, CallsOk, WriteAt, Present, CopyOk;
    var r := w.holder.request;
    var part := if ok then r.data else r.data[..count];
    UnheldImage(w);
    WritePresent(w, |part|);
    WrittenRefines(w.img, r.offset, part);
  }

  lemma StoreDataKeeps(w: World, ok: bool, count: nat)
    requires Inv(w) && Enabled(w, StoreData(ok, count))
    ensures Inv(Next(w, StoreData(ok, count)))
  {
    hide ImageOk, WholeOk, FetchesOk, BitsGrow, CallOk, CopyOk, WriteAt;
    var v := Next(w, StoreData(ok, count));
    var r := w.holder.request;
    var part := if ok then r.data else r.data[..count];
    BitsGrowThemselves(w.img.bits);
    UnheldImage(w);
    StoreDataKeepsImage(w, ok, count);
    WriteKeepsFetches(w, v, part);
    OverIsOk(v.img, v.error, v.fetches, v.calls[w.holder.k]);
    CallsStay(w, v, w.holder.k);
  }

  // ---- every step ----

  lemma StepKeepsInv(w: World, s: Step)
    requires Inv(w) && Enabled(w, s) && !Hazard(w, s)
    ensures Inv(Next(w, s))
  {
    hide Inv, Enabled, Next, Hazard;
    match s
    case Begin(r) => BeginKeeps(w, r);
    case Start(k) => StartKeeps(w, k);
    case LateTruncate(k) => LateTruncateKeeps(w, k);
    case Choose(k) => ChooseKeeps(w, k);
    case StartFetch(k) => StartFetchKeeps(w, k);
    case Join(_, _) | Skip(_) | GiveUp(_) | GetReady(_) | ReadDirect(_) => LookKeeps(w, s);
    case Woken(k) => WokenKeeps(w, k);
    case Lock(k) => LockKeeps(w, k);
    case ReadLocked => ReadLockedKeeps(w);
    case CopyBits => CopyKeeps(w);
    case CutFile(ok) => CutFileKeeps(w, ok);
    case CompareSize => CompareKeeps(w);
    case Adopt => AdoptKeeps(w);
    case StoreData(ok, count) => StoreDataKeeps(w, ok, count);
    case FetchAny(c) => FetchAnyKeeps(w, c);
    case FetchStores(id, ok, count) => FetchStoresKeeps(w, id, ok, count);
    case FetchMarks(id) => FetchMarksKeeps(w, id);
    case FetchEnds(id) => FetchEndsKeeps(w, id);
  }
}
