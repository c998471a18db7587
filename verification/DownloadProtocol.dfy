/**
 Who downloads a chunk when several threads want it: `download_chunk`
 (repertory/librepertory/src/file_manager/open_file.cpp) and `download::notify`/`wait` of `open_file_base`.
 A step system over one open file. The bits, the error and the map of running downloads sit behind
 different locks, so a caller that holds `rw_mtx_` still looks at each of them at a different moment. A resize
 holds `rw_mtx_` too: it copies the bits, changes the file, and stores the copy. A download sets its bit
 without that mutex, and a bit set in between is lost.
 */
module DownloadProtocol {
  import opened CacheSize
  import opened OpenFile

  /** A fetch on its own thread. Until `Erasing` is done it is registered; `Done` has notified its waiters. */
  datatype Phase = Fetching | Storing | Marking | Failing(err: ApiError) | Erasing | Notifying | Done

  datatype Download = Download(chunk: nat, phase: Phase)

  /** Who holds `rw_mtx_`: a caller inside `download_chunk` with the bits it has read, or a resize to `count`
      chunks with its copy of the bits; `cut` says that it has changed the file. */
  datatype Holder =
    | NoOne
    | ReadBits(chunk: nat, skipActive: bool, seen: set<nat>)
    | SawNoError(chunk: nat, skipActive: bool, seen: set<nat>)
    | Resizing(copy: set<nat>, count: nat, cut: bool)

  datatype Waiter = Waiter(id: nat, resumed: bool)

  /** `present` holds the set bits, `stored` the chunks whose bytes are in the local file. */
  datatype World = World(count: nat, present: set<nat>, stored: set<nat>, error: ApiError, holder: Holder,
                         active: map<nat, nat>, downloads: seq<Download>, waiters: seq<Waiter>)

  datatype Step =
    | Enter(chunk: nat, skipActive: bool)
    | LookAtError
    | Decide
    | Fetched(id: nat, err: ApiError)
    | Stored(id: nat, ok: bool)
    | Mark(id: nat)
    | Latch(id: nat)
    | Erase(id: nat)
    | Notify(id: nat)
    | Resume(waiter: nat)
    | OtherError(err: ApiError)
    | ResizeCopy(count: nat)
    | ResizeFile(ok: bool)
    | ResizeStore

  predicate InPhase(w: World, id: nat, phase: Phase) {
    id < |w.downloads| && w.downloads[id].phase == phase
  }

  predicate Enabled(w: World, s: Step) {
    match s
    case Enter(_, _) => w.holder == NoOne
    case LookAtError => w.holder.ReadBits?
    case Decide => w.holder.SawNoError?
    case Fetched(id, _) => InPhase(w, id, Fetching)
    case Stored(id, _) => InPhase(w, id, Storing)
    case Mark(id) => InPhase(w, id, Marking)
    case Latch(id) => id < |w.downloads| && w.downloads[id].phase.Failing?
    case Erase(id) => InPhase(w, id, Erasing) && w.holder == NoOne
    case Notify(id) => InPhase(w, id, Notifying)
    case Resume(i) => i < |w.waiters| && !w.waiters[i].resumed && InPhase(w, w.waiters[i].id, Done)
    case OtherError(err) => err != Success
    case ResizeCopy(count) => w.holder == NoOne && forall c :: c in w.active ==> c < count
    case ResizeFile(_) => w.holder.Resizing? && !w.holder.cut
    case ResizeStore => w.holder.Resizing? && w.holder.cut
  }

  function Chunks(first: nat, end: nat): (r: set<nat>)
    ensures forall c :: c in r <==> first <= c < end
    decreases end - first
  {
    if first >= end then {} else {first} + Chunks(first + 1, end)
  }

  /** What a resize from `before` to `after` chunks makes of a set of them: the new ones are real. */
  function Resized(chunks: set<nat>, before: nat, after: nat): set<nat> {
    chunks - Chunks(after, before) + Chunks(before, after)
  }

  function To(w: World, id: nat, phase: Phase): World
    requires id < |w.downloads|
  {
    w.(downloads := w.downloads[id := w.downloads[id].(phase := phase)])
  }

  /** Whether `Decide` starts a fetch. */
  predicate Starts(w: World) {
    w.holder.SawNoError? && w.holder.chunk < w.count && w.holder.chunk !in w.holder.seen && w.holder.chunk !in w.active
  }

  function Decided(w: World): World
    requires w.holder.SawNoError?
  {
    var chunk, free := w.holder.chunk, w.(holder := NoOne);
    if chunk >= w.count || chunk in w.holder.seen then free
    else if chunk in w.active then
      (if w.holder.skipActive then free else free.(waiters := w.waiters + [Waiter(w.active[chunk], false)]))
    else free.(active := w.active[chunk := |w.downloads|], downloads := w.downloads + [Download(chunk, Fetching)])
  }

  function Next(w: World, s: Step): World
    requires Enabled(w, s)
  {
    match s
    case Enter(chunk, skip) => w.(holder := ReadBits(chunk, skip, w.present))
    case LookAtError =>
      w.(holder := if w.error == Success then SawNoError(w.holder.chunk, w.holder.skipActive, w.holder.seen) else NoOne)
    case Decide => Decided(w)
    case Fetched(id, err) => To(w, id, if err == Success then Storing else Failing(err))
    case Stored(id, ok) =>
      if ok then To(w.(stored := w.stored + {w.downloads[id].chunk}), id, Marking) else To(w, id, Failing(OsError))
    case Mark(id) => To(w.(present := w.present + {w.downloads[id].chunk}), id, Erasing)
    case Latch(id) => To(w.(error := Latched(w.error, w.downloads[id].phase.err)), id, Erasing)
    case Erase(id) => To(w.(active := w.active - {w.downloads[id].chunk}), id, Notifying)
    case Notify(id) => To(w, id, Done)
    case Resume(i) => w.(waiters := w.waiters[i := w.waiters[i].(resumed := true)])
    case OtherError(err) => w.(error := Latched(w.error, err))
    case ResizeCopy(count) => w.(holder := Resizing(w.present, count, false))
    case ResizeFile(ok) =>
      if ok then w.(stored := Resized(w.stored, w.count, w.holder.count), holder := w.holder.(cut := true))
      else w.(holder := NoOne)
    case ResizeStore =>
      w.(present := if w.holder.count == w.count then w.present else Resized(w.holder.copy, w.count, w.holder.count),
         count := w.holder.count, holder := NoOne)
  }

  // ---- what every interleaving keeps ----

  predicate Registered(p: Phase) {
    p != Notifying && p != Done
  }

  /** The map of running downloads holds exactly the unfinished fetches, so there is one per chunk at most. */
  predicate OnePerChunk(w: World) {
    && (forall c :: c in w.active ==>
          w.active[c] < |w.downloads| && w.downloads[w.active[c]].chunk == c &&
          Registered(w.downloads[w.active[c]].phase))
    && (forall id :: 0 <= id < |w.downloads| && Registered(w.downloads[id].phase) ==>
          w.downloads[id].chunk in w.active && w.active[w.downloads[id].chunk] == id)
  }

  /** The chunk is there, or cut off, or an error says why not. */
  predicate Settled(w: World, chunk: nat) {
    chunk in w.present || w.error != Success || chunk >= w.count
  }

  predicate ChunkState(w: World, d: Download) {
    && (Registered(d.phase) ==> d.chunk < w.count)
    && (d.phase in {Fetching, Storing, Marking} || d.phase.Failing? ==> d.chunk !in w.present)
    && (d.phase == Marking ==> d.chunk in w.stored)
    && (d.phase.Failing? ==> d.phase.err != Success)
  }

  /** What the holder has read falls behind by the downloads that have set their bit since and are still
      registered. */
  predicate HolderState(w: World) {
    match w.holder
    case NoOne => true
    case Resizing(copy, count, _) =>
      && copy <= w.present
      && (forall c :: c in w.active ==> c < count)
      && forall c :: c in w.present && c !in copy ==>
           c in w.active && w.active[c] < |w.downloads| && w.downloads[w.active[c]].phase == Erasing
    case _ =>
      w.holder.seen <= w.present && forall c :: c in w.present && c !in w.holder.seen ==> c in w.active
  }

  predicate WaiterState(w: World, v: Waiter) {
    v.id < |w.downloads| && (v.resumed ==> w.downloads[v.id].phase == Done)
  }

  /** Every download that has ended its fetch has left its chunk settled. */
  predicate AllSettled(w: World) {
    forall id :: 0 <= id < |w.downloads| && w.downloads[id].phase in {Erasing, Notifying, Done} ==>
      Settled(w, w.downloads[id].chunk)
  }

  predicate AllChunkStates(w: World) {
    forall id :: 0 <= id < |w.downloads| ==> ChunkState(w, w.downloads[id])
  }

  /** The chunk is being cut off: the file is shorter already, and the bits are not. */
  predicate BeingCut(w: World, c: nat) {
    w.holder.Resizing? && w.holder.cut && w.holder.count <= c
  }

  predicate PresentIsStored(w: World) {
    && (forall c :: c in w.present ==> c < w.count && (c in w.stored || BeingCut(w, c)))
    && (w.holder.Resizing? && w.holder.cut ==> Chunks(w.count, w.holder.count) <= w.stored)
  }

  predicate AllWaiterStates(w: World) {
    forall i :: 0 <= i < |w.waiters| ==> WaiterState(w, w.waiters[i])
  }

  predicate Inv(w: World) {
    OnePerChunk(w) && AllChunkStates(w) && PresentIsStored(w) && HolderState(w) && AllWaiterStates(w)
  }

  lemma KeepsOnePerChunk(w: World, s: Step)
    requires OnePerChunk(w) && Enabled(w, s)
    ensures OnePerChunk(Next(w, s))
  {
    hide Latched, Chunks;
    match s
    case Decide => DecideKeepsOnePerChunk(w);
    case Erase(id) => EraseKeepsOnePerChunk(w, id);
    case Fetched(_, _) | Stored(_, _) | Mark(_) | Latch(_) | Notify(_) => PhaseKeepsOnePerChunk(w, s);
    case _ =>
  }

  /** A download that moves on to its next phase. */
  lemma PhaseKeepsOnePerChunk(w: World, s: Step)
    requires OnePerChunk(w) && Enabled(w, s) && (s.Fetched? || s.Stored? || s.Mark? || s.Latch? || s.Notify?)
    ensures OnePerChunk(Next(w, s))
  {
    hide Latched, Chunks, OnePerChunk;
    PhaseMovesOn(w, Next(w, s), s.id, Next(w, s).downloads[s.id].phase);
  }

  lemma PhaseMovesOn(w: World, v: World, id: nat, phase: Phase)
    requires OnePerChunk(w) && id < |w.downloads| && (Registered(phase) <==> Registered(w.downloads[id].phase))
    requires v.active == w.active && v.downloads == w.downloads[id := w.downloads[id].(phase := phase)]
    ensures OnePerChunk(v)
  {
  }

  lemma DecideKeepsOnePerChunk(w: World)
    requires OnePerChunk(w) && Enabled(w, Decide)
    ensures OnePerChunk(Next(w, Decide))
  {
  }

  lemma EraseKeepsOnePerChunk(w: World, id: nat)
    requires OnePerChunk(w) && Enabled(w, Erase(id))
    ensures w.downloads[id].chunk in w.active && w.active[w.downloads[id].chunk] == id
    ensures OnePerChunk(Next(w, Erase(id)))
  {
  }

  /** A fetch starts only for a chunk that is neither present nor being fetched: no chunk is fetched twice. */
  lemma StartsOnlyMissing(w: World)
    requires Inv(w) && Starts(w)
    ensures w.holder.chunk !in w.present
    ensures forall id :: 0 <= id < |w.downloads| && w.downloads[id].chunk == w.holder.chunk ==>
              !Registered(w.downloads[id].phase)
  {
  }

  lemma KeepsChunkStates(w: World, s: Step)
    requires Inv(w) && Enabled(w, s)
    ensures AllChunkStates(Next(w, s))
  {
    hide AllWaiterStates;
    match s
    case Decide =>
      if Starts(w) {
        StartsOnlyMissing(w);
      }
    case Fetched(_, _) | Stored(_, _) | Mark(_) | Latch(_) | Erase(_) | Notify(_) => PhaseKeepsChunkStates(w, s);
    case ResizeStore => StoreKeepsChunkStates(w);
    case _ =>
  }

  lemma StoreKeepsChunkStates(w: World)
    requires Inv(w) && Enabled(w, ResizeStore)
    ensures AllChunkStates(Next(w, ResizeStore))
  {
    hide AllWaiterStates;
  }

  lemma PhaseKeepsChunkStates(w: World, s: Step)
    requires Inv(w) && Enabled(w, s)
    requires s.Fetched? || s.Stored? || s.Mark? || s.Latch? || s.Erase? || s.Notify?
    ensures AllChunkStates(Next(w, s))
  {
    hide AllWaiterStates, HolderState, Chunks;
  }

  lemma KeepsPresentIsStored(w: World, s: Step)
    requires Inv(w) && Enabled(w, s)
    ensures PresentIsStored(Next(w, s))
  {
    hide OnePerChunk, AllWaiterStates;
  }

  lemma KeepsHolderState(w: World, s: Step)
    requires Inv(w) && Enabled(w, s)
    ensures HolderState(Next(w, s))
  {
    hide AllChunkStates, AllWaiterStates;
  }

  lemma KeepsWaiterStates(w: World, s: Step)
    requires Inv(w) && Enabled(w, s)
    ensures AllWaiterStates(Next(w, s))
  {
    hide AllChunkStates, HolderState;
  }

  lemma StepKeepsInv(w: World, s: Step)
    requires Inv(w) && Enabled(w, s)
    ensures Inv(Next(w, s))
  {
    KeepsOnePerChunk(w, s);
    KeepsChunkStates(w, s);
    KeepsPresentIsStored(w, s);
    KeepsHolderState(w, s);
    KeepsWaiterStates(w, s);
  }

  // ---- runs ----

  predicate IsRun(w: World, steps: seq<Step>)
    decreases |steps|
  {
    steps == [] || (Enabled(w, steps[0]) && IsRun(Next(w, steps[0]), steps[1..]))
  }

  function Exec(w: World, steps: seq<Step>): World
    requires IsRun(w, steps)
    decreases |steps|
  {
    if steps == [] then w else Exec(Next(w, steps[0]), steps[1..])
  }

  predicate Idle(w: World) {
    w.holder == NoOne && w.active == map[] && w.downloads == [] && w.waiters == [] && PresentIsStored(w)
  }

  lemma {:induction false} RunKeepsInv(w: World, steps: seq<Step>)
    requires Inv(w) && IsRun(w, steps)
    ensures Inv(Exec(w, steps))
    decreases |steps|
  {
    if steps != [] {
      StepKeepsInv(w, steps[0]);
      RunKeepsInv(Next(w, steps[0]), steps[1..]);
    }
  }

  /** In every interleaving: one fetch per chunk, a set bit means stored bytes unless the chunk is being cut off,
      and a fetch starts only for a missing chunk nobody fetches. */
  lemma Deduplicated(w: World, steps: seq<Step>)
    requires Idle(w) && IsRun(w, steps)
    ensures var v := Exec(w, steps);
            && (forall i, j :: 0 <= i < j < |v.downloads| && v.downloads[i].chunk == v.downloads[j].chunk ==>
                  !Registered(v.downloads[i].phase) || !Registered(v.downloads[j].phase))
            && (forall c :: c in v.present ==> c in v.stored || BeingCut(v, c))
            && (Starts(v) ==>
                  (v.holder.chunk !in v.present &&
                   forall d :: d in v.downloads && d.chunk == v.holder.chunk ==> !Registered(d.phase)))
  {
    RunKeepsInv(w, steps);
    if Starts(Exec(w, steps)) {
      StartsOnlyMissing(Exec(w, steps));
    }
  }

  // ---- the bit that is lost ----

  /** A bit has been set since the resize copied them, and the copy is going to be stored. */
  predicate Stale(w: World) {
    w.holder.Resizing? && w.holder.count != w.count && exists c :: c in w.present && c !in w.holder.copy
  }

  /** A download sets its bit between the copy of a resize that changes the number of chunks and its store. */
  predicate Hazard(w: World, s: Step) {
    s.Mark? && w.holder.Resizing? && w.holder.count != w.count
  }

  /** The one step that unsettles a chunk, and when it does. */
  lemma SettledExactly(w: World, s: Step)
    requires Inv(w) && AllSettled(w) && Enabled(w, s)
    ensures AllSettled(Next(w, s)) <==> !(s.ResizeStore? && Stale(w) && w.error == Success)
  {
    hide AllWaiterStates;
    match s
    case ResizeStore => StoreSettlesExactly(w);
    case Decide =>
    case Fetched(_, _) | Stored(_, _) | Mark(_) | Latch(_) | Erase(_) | Notify(_) => PhaseKeepsSettled(w, s);
    case _ =>
  }

  lemma PhaseKeepsSettled(w: World, s: Step)
    requires Inv(w) && AllSettled(w) && Enabled(w, s)
    requires s.Fetched? || s.Stored? || s.Mark? || s.Latch? || s.Erase? || s.Notify?
    ensures AllSettled(Next(w, s))
  {
    hide AllWaiterStates, HolderState, OnePerChunk, Chunks, PresentIsStored;
  }

  lemma StoreSettlesExactly(w: World)
    requires Inv(w) && AllSettled(w) && Enabled(w, ResizeStore)
    ensures AllSettled(Next(w, ResizeStore)) <==> !(Stale(w) && w.error == Success)
  {
    hide AllWaiterStates;
    if Stale(w) && w.error == Success {
      var c :| c in w.present && c !in w.holder.copy;
      assert !Settled(Next(w, ResizeStore), w.downloads[w.active[c]].chunk);
    }
  }

  lemma StaleStep(w: World, s: Step)
    requires Inv(w) && Enabled(w, s) && w.holder.Resizing? && !s.ResizeStore? && s != ResizeFile(false)
    ensures Next(w, s).holder.Resizing? && Next(w, s).holder.count == w.holder.count && Next(w, s).count == w.count
    ensures Stale(Next(w, s)) <==> Stale(w) || Hazard(w, s)
  {
    hide AllWaiterStates, OnePerChunk, Chunks;
    if s.Mark? && w.holder.count != w.count {
      assert w.downloads[s.id].chunk in Next(w, s).present;
      assert ChunkState(w, w.downloads[s.id]);
    }
  }

  /** The copy is out of date exactly if a download has set its bit since. */
  lemma {:induction false} StaleExactly(w: World, steps: seq<Step>)
    requires Inv(w) && IsRun(w, steps) && w.holder.Resizing? && w.holder.count != w.count
    requires ResizeStore !in steps && ResizeFile(false) !in steps
    ensures Stale(Exec(w, steps)) <==> Stale(w) || exists s :: s in steps && s.Mark?
    decreases |steps|
  {
    hide Inv, Next, Enabled, Stale;
    if steps != [] {
      StaleStep(w, steps[0]);
      StepKeepsInv(w, steps[0]);
      StaleExactly(Next(w, steps[0]), steps[1..]);
      assert forall s :: s in steps <==> s == steps[0] || s in steps[1..];
    }
  }

  /** From the copy of a resize to its store, whatever falls in between: it loses a bit, and leaves a chunk
      unsettled, exactly if a download sets its bit in between and no error is latched. */
  lemma ResizeLosesExactly(w: World, count: nat, steps: seq<Step>)
    requires Inv(w) && AllSettled(w) && Enabled(w, ResizeCopy(count)) && count != w.count
    requires var copied := Next(w, ResizeCopy(count));
             && IsRun(copied, steps) && ResizeStore !in steps && ResizeFile(false) !in steps
             && Enabled(Exec(copied, steps), ResizeStore)
    ensures var v := Exec(Next(w, ResizeCopy(count)), steps);
            AllSettled(Next(v, ResizeStore)) <==> !((exists s :: s in steps && s.Mark?) && v.error == Success)
  {
    hide AllSettled;
    var copied := Next(w, ResizeCopy(count));
    StepKeepsInv(w, ResizeCopy(count));
    SettledExactly(w, ResizeCopy(count));
    StaleExactly(copied, steps);
    RunKeepsInv(copied, steps);
    SettledUntilStore(copied, steps);
    SettledExactly(Exec(copied, steps), ResizeStore);
  }

  lemma {:induction false} SettledUntilStore(w: World, steps: seq<Step>)
    requires Inv(w) && AllSettled(w) && IsRun(w, steps) && ResizeStore !in steps
    ensures AllSettled(Exec(w, steps))
    decreases |steps|
  {
    hide Inv, AllSettled, Next, Enabled;
    if steps != [] {
      SettledExactly(w, steps[0]);
      StepKeepsInv(w, steps[0]);
      SettledUntilStore(Next(w, steps[0]), steps[1..]);
    }
  }

  predicate Hazardless(w: World, steps: seq<Step>)
    requires IsRun(w, steps)
    decreases |steps|
  {
    steps == [] || (!Hazard(w, steps[0]) && Hazardless(Next(w, steps[0]), steps[1..]))
  }

  lemma NotStaleStep(w: World, s: Step)
    requires Inv(w) && Enabled(w, s) && !Stale(w) && !Hazard(w, s)
    ensures !Stale(Next(w, s))
  {
    hide AllWaiterStates, OnePerChunk, Chunks, AllChunkStates;
  }

  lemma {:induction false} RunSettles(w: World, steps: seq<Step>)
    requires Inv(w) && AllSettled(w) && !Stale(w) && IsRun(w, steps) && Hazardless(w, steps)
    ensures Inv(Exec(w, steps)) && AllSettled(Exec(w, steps)) && !Stale(Exec(w, steps))
    decreases |steps|
  {
    hide Inv, AllSettled, Stale, Hazard, Next, Enabled;
    if steps != [] {
      StepKeepsInv(w, steps[0]);
      SettledExactly(w, steps[0]);
      NotStaleStep(w, steps[0]);
      RunSettles(Next(w, steps[0]), steps[1..]);
    }
  }

  /** In every interleaving in which no resize loses a bit: a waiter that goes on finds its chunk present, or an
      error, or the file cut before it; and without an error no chunk is fetched a second time. */
  lemma WaitersFindChunks(w: World, steps: seq<Step>)
    requires Idle(w) && IsRun(w, steps) && Hazardless(w, steps)
    ensures var v := Exec(w, steps);
            && (forall i :: 0 <= i < |v.waiters| && v.waiters[i].resumed ==>
                  v.waiters[i].id < |v.downloads| && Settled(v, v.downloads[v.waiters[i].id].chunk))
            && (Starts(v) && v.error == Success ==> forall d :: d in v.downloads ==> d.chunk != v.holder.chunk)
  {
    RunSettles(w, steps);
    var v := Exec(w, steps);
    if Starts(v) {
      StartsOnlyMissing(v);
    }
  }

  /** With the hazard, a chunk that was stored is forgotten: its waiter goes on without an error, and the next
      caller fetches it again. */
  lemma ResizeForgetsChunk(w: World, id: nat, count: nat) returns (v: World, u: World)
    requires Inv(w) && w.holder == NoOne && InPhase(w, id, Marking) && w.error == Success && count > w.count
    ensures Hazard(Next(w, ResizeCopy(count)), Mark(id))
    ensures var chunk := w.downloads[id].chunk;
            && IsRun(w, [ResizeCopy(count), ResizeFile(true), Mark(id), ResizeStore, Erase(id), Notify(id)])
            && v == Exec(w, [ResizeCopy(count), ResizeFile(true), Mark(id), ResizeStore, Erase(id), Notify(id)])
            && InPhase(v, id, Done) && v.waiters == w.waiters && v.error == Success
            && chunk in v.stored && !Settled(v, chunk)
            && IsRun(v, [Enter(chunk, false), LookAtError])
            && u == Exec(v, [Enter(chunk, false), LookAtError]) && Starts(u) && u.holder.chunk == chunk
  {
    assert ChunkState(w, w.downloads[id]);
    v := Forgotten(w, id, count);
    var chunk := w.downloads[id].chunk;
    NoSteps(v);
    var steps;
    steps, u := Then(v, [], v, Enter(chunk, false));
    steps, u := Then(v, steps, u, LookAtError);
  }

  /** How many fetches have been started, and how many a caller that has passed its look may still start. */
  function Started(w: World): nat {
    |w.downloads| + (if w.holder.SawNoError? then 1 else 0)
  }

  lemma ErrorStopsStep(w: World, s: Step)
    requires w.error != Success && Enabled(w, s) && AllChunkStates(w)
    ensures Next(w, s).error != Success && Started(Next(w, s)) <= Started(w)
    ensures !IsSoft(w.error) ==> Next(w, s).error == w.error
    ensures |w.downloads| <= |Next(w, s).downloads|
  {
  }

  /** A latched hard error is there for good, and while any error is latched a caller starts no fetch: only
      one that looked before the error came still does. */
  lemma {:induction false} ErrorStopsFetches(w: World, steps: seq<Step>)
    requires Inv(w) && w.error != Success && IsRun(w, steps)
    ensures Exec(w, steps).error != Success
    ensures !IsSoft(w.error) ==> Exec(w, steps).error == w.error
    ensures |w.downloads| <= |Exec(w, steps).downloads| <= Started(w)
    ensures !w.holder.SawNoError? ==> |Exec(w, steps).downloads| == |w.downloads|
    decreases |steps|
  {
    hide OnePerChunk, AllChunkStates, PresentIsStored, HolderState, AllWaiterStates, Enabled, Next;
    if steps != [] {
      StepKeepsInv(w, steps[0]);
      ErrorStopsStep(w, steps[0]);
      ErrorStopsFetches(Next(w, steps[0]), steps[1..]);
    }
  }

  lemma LateErrorIsMissed(w: World, err: ApiError)
    requires Starts(w) && err != Success
    ensures var v := Next(w, OtherError(err));
            Enabled(v, Decide) && |Next(v, Decide).downloads| == |w.downloads| + 1
  {
  }

  /** The step of whoever holds `rw_mtx_`, with a file operation that succeeds. */
  function HolderStep(w: World): Step
    requires w.holder != NoOne
  {
    match w.holder
    case ReadBits(_, _, _) => LookAtError
    case SawNoError(_, _, _) => Decide
    case Resizing(_, _, cut) => if cut then ResizeStore else ResizeFile(true)
  }

  function HolderRank(h: Holder): nat {
    match h
    case NoOne => 0
    case ReadBits(_, _, _) => 2
    case SawNoError(_, _, _) => 1
    case Resizing(_, _, cut) => if cut then 1 else 2
  }

  /** The step that brings download `id` on, whatever the provider answers and the disk does: its own, or that
      of the thread it waits for. It does not set its bit while a resize is under way. */
  function Advance(w: World, id: nat, answer: ApiError, wrote: bool): Step
    requires id < |w.downloads|
  {
    match w.downloads[id].phase
    case Fetching => Fetched(id, answer)
    case Storing => Stored(id, wrote)
    case Marking => if w.holder != NoOne then HolderStep(w) else Mark(id)
    case Failing(_) => Latch(id)
    case Erasing => if w.holder != NoOne then HolderStep(w) else Erase(id)
    case Notifying => Notify(id)
    case Done => Notify(id)
  }

  function Distance(w: World, id: nat): nat
    requires id < |w.downloads|
  {
    match w.downloads[id].phase
    case Fetching => 8
    case Storing => 7
    case Marking => 4 + HolderRank(w.holder)
    case Failing(_) => 6
    case Erasing => 2 + HolderRank(w.holder)
    case Notifying => 1
    case Done => 0
  }

  lemma DownloadsAdvance(w: World, id: nat, answer: ApiError, wrote: bool)
    requires id < |w.downloads| && w.downloads[id].phase != Done
    ensures var s := Advance(w, id, answer, wrote);
            && Enabled(w, s) && id < |Next(w, s).downloads| && Distance(Next(w, s), id) < Distance(w, id)
            && w.waiters <= Next(w, s).waiters && !Hazard(w, s)
  {
  }

  /** A step of the download itself, or of the thread that holds `rw_mtx_`. */
  predicate Concerns(s: Step, id: nat) {
    || ((s.Fetched? || s.Stored? || s.Mark? || s.Latch? || s.Erase? || s.Notify?) && s.id == id)
    || s in {LookAtError, Decide, ResizeFile(true), ResizeStore}
  }

  /** Every download, in every state and with every outcome, is brought to the end of its notification by its own
      steps and at most four of threads that hold the mutex. */
  lemma {:induction false} DownloadFinishes(w: World, id: nat, answer: ApiError, wrote: bool) returns (steps: seq<Step>)
    requires Inv(w) && id < |w.downloads|
    ensures IsRun(w, steps) && |steps| <= Distance(w, id) && forall s :: s in steps ==> Concerns(s, id)
    ensures Inv(Exec(w, steps)) && InPhase(Exec(w, steps), id, Done) && w.waiters <= Exec(w, steps).waiters
    ensures AllSettled(w) && !Stale(w) ==> AllSettled(Exec(w, steps))
    decreases Distance(w, id)
  {
    hide Inv, AllSettled, Stale, Enabled, Next, Hazard;
    steps := [];
    if w.downloads[id].phase != Done {
      var s := Advance(w, id, answer, wrote);
      DownloadsAdvance(w, id, answer, wrote);
      StepKeepsInv(w, s);
      if AllSettled(w) && !Stale(w) {
        SettledExactly(w, s);
        NotStaleStep(w, s);
      }
      var rest := DownloadFinishes(Next(w, s), id, answer, wrote);
      steps := [s] + rest;
      assert steps[1..] == rest;
    }
  }

  /** No waiter waits for ever: once its download has taken the steps left to it, it goes on; and it finds its
      chunk settled, unless a resize has lost a bit or is about to. */
  lemma WaiterGoesOn(w: World, i: nat, answer: ApiError, wrote: bool) returns (steps: seq<Step>)
    requires Inv(w) && i < |w.waiters| && !w.waiters[i].resumed
    ensures IsRun(w, steps) && i < |Exec(w, steps).waiters| && Enabled(Exec(w, steps), Step.Resume(i))
    ensures var v, id := Exec(w, steps), w.waiters[i].id;
            InPhase(v, id, Done) && (AllSettled(w) && !Stale(w) ==> Settled(v, v.downloads[id].chunk))
  {
    hide Next, OnePerChunk, PresentIsStored, HolderState, Stale;
    assert WaiterState(w, w.waiters[i]);
    steps := DownloadFinishes(w, w.waiters[i].id, answer, wrote);
    assert Exec(w, steps).waiters[i] == w.waiters[i];
  }

  lemma {:induction false} Chain(w: World, steps: seq<Step>, s: Step)
    requires IsRun(w, steps) && Enabled(Exec(w, steps), s)
    ensures IsRun(w, steps + [s]) && Exec(w, steps + [s]) == Next(Exec(w, steps), s)
    decreases |steps|
  {
    hide Enabled, Next;
    if steps == [] {
      assert steps + [s] == [s] && [s][1..] == [];
    } else {
      assert (steps + [s])[1..] == steps[1..] + [s];
      Chain(Next(w, steps[0]), steps[1..], s);
    }
  }

  lemma Then(w: World, steps: seq<Step>, v: World, s: Step) returns (longer: seq<Step>, r: World)
    requires IsRun(w, steps) && v == Exec(w, steps) && Enabled(v, s)
    ensures longer == steps + [s] && IsRun(w, longer) && r == Exec(w, longer) == Next(v, s)
  {
    hide Enabled, Next;
    Chain(w, steps, s);
    longer, r := steps + [s], Next(v, s);
  }

  lemma NoSteps(w: World)
    ensures IsRun(w, []) && Exec(w, []) == w
  {
  }

  lemma MarkedMeanwhile(w: World, id: nat, count: nat) returns (steps: seq<Step>, v: World)
    requires Inv(w) && w.holder == NoOne && InPhase(w, id, Marking) && w.error == Success && count > w.count
    ensures steps == [ResizeCopy(count), ResizeFile(true), Mark(id)] && IsRun(w, steps) && v == Exec(w, steps)
    ensures var chunk := w.downloads[id].chunk;
            v == To(w.(stored := Resized(w.stored, w.count, count), present := w.present + {chunk},
                       holder := Resizing(w.present, count, true)), id, Erasing)
  {
    hide IsRun, Exec, Resized;
    NoSteps(w);
    steps, v := Then(w, [], w, ResizeCopy(count));
    steps, v := Then(w, steps, v, ResizeFile(true));
    steps, v := Then(w, steps, v, Mark(id));
  }

  lemma Forgotten(w: World, id: nat, count: nat) returns (v: World)
    requires Inv(w) && w.holder == NoOne && InPhase(w, id, Marking) && w.error == Success && count > w.count
    ensures var steps := [ResizeCopy(count), ResizeFile(true), Mark(id), ResizeStore, Erase(id), Notify(id)];
            IsRun(w, steps) && v == Exec(w, steps)
    ensures var chunk := w.downloads[id].chunk;
            v == w.(count := count, stored := Resized(w.stored, w.count, count),
                    present := Resized(w.present, w.count, count), active := w.active - {chunk},
                    downloads := w.downloads[id := w.downloads[id].(phase := Done)])
  {
    hide IsRun, Exec, Resized, Chunks;
    var steps;
    steps, v := MarkedMeanwhile(w, id, count);
    steps, v := Then(w, steps, v, ResizeStore);
    steps, v := Then(w, steps, v, Erase(id));
    steps, v := Then(w, steps, v, Notify(id));
    assert steps == [ResizeCopy(count), ResizeFile(true), Mark(id), ResizeStore, Erase(id), Notify(id)];
  }
}
