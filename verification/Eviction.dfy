/**
 When may the local bytes of a path be deleted? One path of the file manager as a step system
 (repertory/librepertory/src/file_manager/file_manager.cpp and open_file.cpp), one step per section the code
 runs under one of its locks and per access to the source file outside of them. Eviction reads the upload
 tables, the open file and the handle count in separate sections, and the queue without `upload_mtx_`, while
 queueing is a removal followed by an addition. Both eviction and the close of timed out files take the object
 out of the table first and touch its source later, without a lock; an evicted object is closed by whoever
 lets go of it last.
 */
module Eviction {
  import opened Bytes

  /** What a running `evict_file` has found out so far. It holds `open_file_mtx_` before `Erased`. */
  datatype Phase = Idle | SawLookup | SawTables | SawModified | Counted | Erased

  /** The object in `open_file_lookup_`, if there is one: `gone` says that the file it writes to has been
      deleted or replaced, `closers` threads have erased their handle and wait for `rw_mtx_`. One of them may
      hold it: `queueing` says that it is queueing the upload, `clearing` that it has and is yet to clear
      `modified`. */
  datatype Object = Object(open: bool, handles: nat, modified: bool, removed: bool, complete: bool, error: bool,
                           gone: bool, closers: nat, queueing: bool, clearing: bool)

  const NO_OBJECT := Object(false, 0, false, false, false, false, false, 0, false, false)

  /** The upload tables; a running upload carries what it found when it opened the source. A thread that is
      `moving` holds `upload_mtx_`, has taken the path out of the tables and is yet to put it into the queue. */
  datatype Uploads = Uploads(queued: bool, active: bool, reading: bool, moving: bool)

  const NO_UPLOAD := Uploads(false, false, false, false)

  const QUEUED := Uploads(true, false, false, false)

  const MOVING := Uploads(false, false, false, true)

  /** Versions number the writes: `latest` is the newest, the others are what the source file, if it is on
      disk, the provider and the running upload hold. */
  datatype Copies = Copies(latest: nat, onDisk: bool, localVer: nat, provVer: nat, uploadVer: nat)

  /** An object that has left the table of open files and is still to be closed. */
  datatype Former = Former(modified: bool, complete: bool, error: bool)

  /** `src` numbers the names the source has had, `evictSrc` is the one the eviction is to delete. */
  datatype World = World(obj: Object, up: Uploads, ver: Copies, src: nat, evictSrc: nat,
                         timedOut: Option<Former>, evicted: Option<Former>, phase: Phase, lost: bool)

  const FRESH := World(NO_OBJECT, NO_UPLOAD, Copies(0, false, 0, 0, 0), 0, 0, None, None, Idle, false)

  datatype Result = Uploaded | Retry | Missing

  datatype Step =
    | Open(complete: bool)
    | Write
    | Download
    | Fail
    | EraseHandle
    | QueueAtClose
    | HandlerRequeues
    | QueueAdds
    | ClearModified
    | TimeOutErase
    | TimedOutChanges(complete: bool, error: bool)
    | EvictedChanges(complete: bool, error: bool)
    | TimeOutClose
    | Promote
    | UploadOpens
    | Completed(result: Result)
    | EvictLookup
    | EvictTables
    | EvictModified
    | EvictCount
    | EvictErase
    | EvictClose
    | EvictRemove

  /** The user has written bytes the provider does not have. */
  predicate Newer(w: World) {
    w.ver.latest > w.ver.provVer
  }

  /** Somebody who can hand them on has the newest bytes. */
  predicate Kept(w: World) {
    || w.ver.latest == w.ver.provVer
    || (w.ver.onDisk && w.ver.localVer == w.ver.latest)
    || (w.up.active && w.up.reading && w.ver.uploadVer == w.ver.latest)
  }

  predicate MayLockOpenFiles(w: World) {
    w.phase == Idle || w.phase == Erased
  }

  /** `can_close` of a file without handles; a timed out download may close as well. */
  predicate CanClose(w: World) {
    w.obj.open && w.obj.handles == 0 && !w.obj.modified
  }

  predicate QueuesAtClose(w: World) {
    w.obj.modified && w.obj.complete && !w.obj.error
  }

  /** `close` gives the source up and names a new one. */
  predicate Discards(former: Former) {
    former.error || (!former.modified && !former.complete)
  }

  predicate Queues(former: Former) {
    !Discards(former) && former.modified && former.complete
  }

  predicate Enabled(w: World, s: Step) {
    match s
    case Open(complete) =>
      MayLockOpenFiles(w) && (w.obj.open || (w.ver.onDisk && w.ver.localVer > w.ver.provVer ==> complete))
    case Write =>
      w.obj.open && w.obj.handles > 0 && !w.obj.queueing && !w.obj.clearing && !w.obj.error &&
      (w.obj.removed || !w.up.moving)
    case Download => w.obj.open && !w.obj.error
    case Fail => w.obj.open
    case EraseHandle => w.obj.open && w.obj.handles > 0
    case QueueAtClose =>
      w.obj.open && w.obj.closers > 0 && !w.obj.queueing && !w.obj.clearing && (QueuesAtClose(w) ==> !w.up.moving)
    case HandlerRequeues => w.up.queued && !w.up.moving
    case QueueAdds => w.up.moving
    case ClearModified => w.obj.open && w.obj.clearing
    case TimeOutErase => MayLockOpenFiles(w) && CanClose(w) && w.timedOut.None?
    case TimedOutChanges(_, _) => w.timedOut.Some?
    case EvictedChanges(_, _) => w.evicted.Some?
    case TimeOutClose => w.timedOut.Some? && (Queues(w.timedOut.value) ==> !w.up.moving)
    case Promote => w.up.queued && !w.up.active && !w.up.moving
    case UploadOpens => w.up.active && !w.up.reading && w.ver.onDisk
    case Completed(result) =>
      w.up.active && !w.up.moving && (result == Uploaded ==> w.up.reading) && (result == Retry ==> w.ver.onDisk) &&
      (result == Missing ==> !w.ver.onDisk)
    case EvictLookup => w.phase == Idle && !w.up.moving
    case EvictTables => w.phase == SawLookup
    case EvictModified => w.phase == SawTables
    case EvictCount => w.phase == SawModified
    case EvictErase => w.phase == Counted && (w.obj.open ==> w.evicted.None?)
    case EvictClose => w.evicted.Some? && (Queues(w.evicted.value) ==> !w.up.moving)
    case EvictRemove => w.phase == Erased
  }

  /** No object in the table; threads still closing a handle of the one that was there find it unmodified. */
  function Closed(w: World): World {
    w.(obj := NO_OBJECT)
  }

  function Noted(w: World): World {
    w.(lost := w.lost || !Kept(w))
  }

  /** The source file is deleted; an open object goes on writing to a file without a name. */
  function SourceDeleted(w: World): World {
    w.(ver := w.ver.(onDisk := false), obj := w.obj.(gone := w.obj.gone || w.obj.open))
  }

  function AfterClose(w: World, former: Former): World {
    if Discards(former) then SourceDeleted(w).(src := w.src + 1)
    else if Queues(former) then w.(up := QUEUED)
    else w
  }

  function MovedObject(o: Object, s: Step): Object
    requires s.EraseHandle? ==> o.handles > 0
  {
    match s
    case Download => o.(complete := true)
    case Fail => o.(error := true)
    case EraseHandle => o.(handles := o.handles - 1, closers := o.closers + 1)
    case ClearModified => o.(modified := false, clearing := false, removed := o.removed && o.handles > 0)
    case _ => o
  }

  function Opened(w: World, complete: bool): World {
    if w.obj.open then w.(obj := w.obj.(handles := w.obj.handles + 1))
    else
      w.(obj := NO_OBJECT.(open := true, handles := 1, complete := complete),
         ver := w.ver.(onDisk := true, localVer := if w.ver.onDisk then w.ver.localVer else w.ver.provVer))
  }

  function Written(w: World): World {
    var n := w.ver.latest + 1;
    w.(ver := w.ver.(latest := n, localVer := if w.obj.gone then w.ver.localVer else n),
       obj := w.obj.(modified := true, removed := true), up := if w.obj.removed then w.up else NO_UPLOAD)
  }

  function QueuedAtClose(w: World): World
    requires w.obj.closers > 0
  {
    var o := w.obj.(closers := w.obj.closers - 1);
    if QueuesAtClose(w) then w.(up := MOVING, obj := o.(queueing := true))
    else w.(obj := o.(removed := o.removed && o.handles > 0))
  }

  function Ended(w: World, result: Result): World {
    match result
    case Uploaded => w.(up := NO_UPLOAD, ver := w.ver.(provVer := w.ver.uploadVer))
    case Retry => w.(up := MOVING)
    case Missing => w.(up := NO_UPLOAD)
  }

  function FormerOf(o: Object): Former {
    Former(o.modified, o.complete, o.error)
  }

  function Changed(former: Former, complete: bool, error: bool): Former {
    former.(complete := former.complete || complete, error := former.error || error)
  }

  function Moved(w: World, s: Step): World
    requires Enabled(w, s)
  {
    match s
    case Open(complete) => Opened(w, complete)
    case Write => Written(w)
    case QueueAtClose => QueuedAtClose(w)
    case HandlerRequeues => w.(up := MOVING)
    case QueueAdds =>
      w.(up := QUEUED, obj := if w.obj.queueing then w.obj.(queueing := false, clearing := true) else w.obj)
    case TimeOutErase => Closed(w).(timedOut := Some(FormerOf(w.obj)))
    case TimedOutChanges(complete, error) => w.(timedOut := Some(Changed(w.timedOut.value, complete, error)))
    case EvictedChanges(complete, error) => w.(evicted := Some(Changed(w.evicted.value, complete, error)))
    case TimeOutClose => AfterClose(w, w.timedOut.value).(timedOut := None)
    case Promote => w.(up := Uploads(false, true, false, false))
    case UploadOpens => w.(up := w.up.(reading := true), ver := w.ver.(uploadVer := w.ver.localVer))
    case Completed(result) => Ended(w, result)
    case EvictLookup => if w.up.active then w else w.(phase := SawLookup)
    case EvictTables => w.(phase := if w.up.queued then Idle else SawTables)
    case EvictModified => w.(phase := if w.obj.open && (w.obj.modified || !w.obj.complete) then Idle else SawModified)
    case EvictCount =>
      if w.obj.open && w.obj.handles > 0 then w.(phase := Idle) else w.(phase := Counted, evictSrc := w.src)
    case EvictErase =>
      Closed(w).(phase := Erased, evicted := if w.obj.open then Some(FormerOf(w.obj)) else w.evicted)
    case EvictClose => AfterClose(w, w.evicted.value).(evicted := None)
    case EvictRemove => (if w.evictSrc == w.src then SourceDeleted(w) else w).(phase := Idle)
    case _ => w.(obj := MovedObject(w.obj, s))
  }

  function Next(w: World, s: Step): World
    requires Enabled(w, s)
  {
    Noted(Moved(w, s))
  }

  /** The path is queued, being queued, or uploading. */
  predicate Pending(w: World) {
    w.up.queued || w.up.active || w.up.moving
  }

  /** The eviction is yet to delete the present source. */
  predicate EvictionPending(w: World) {
    w.phase == Erased && w.evictSrc == w.src
  }

  /** The steps that slip past a check already made: past those of `evict_file`, between the two halves of an
      eviction or of a timed out close, and the close that gives up a file whose upload is still to come. And
      the look at the queue while a path is out of it because it is being queued. */
  predicate Hazard(w: World, s: Step) {
    match s
    case Promote => w.phase == SawLookup
    case EvictTables => w.up.moving
    case QueueAtClose => w.phase == SawTables && QueuesAtClose(w)
    case Write => w.phase == SawModified
    case Open(_) => !w.obj.open && (EvictionPending(w) || w.evicted.Some? || w.timedOut.Some?)
    case TimeOutClose => w.timedOut.Some? && Discards(w.timedOut.value) && Pending(w)
    case _ => false
  }

  // ---- runs ----

  predicate IsRun(w: World, steps: seq<Step>)
    decreases |steps|
  {
    steps == [] || (Enabled(w, steps[0]) && IsRun(Next(w, steps[0]), steps[1..]))
  }

  function Exec(w: World, steps: seq<Step>): World
    requires IsRun(w, steps)
    decreases |steps|
  {
    if steps == [] then w else Exec(Next(w, steps[0]), steps[1..])
  }

  predicate Hazardless(w: World, steps: seq<Step>)
    requires IsRun(w, steps)
    decreases |steps|
  {
    steps == [] || (!Hazard(w, steps[0]) && Hazardless(Next(w, steps[0]), steps[1..]))
  }

  /** An upload that will carry the newest bytes is queued, being queued, or running. */
  predicate Uploading(w: World) {
    w.up.queued || w.up.moving || (w.up.active && (w.up.reading ==> w.ver.uploadVer == w.ver.latest))
  }

  /** Bytes the provider does not have are in the source file, and belong to a modified file or to an upload
      that will carry them. */
  predicate Protected(w: World) {
    Newer(w) ==> w.ver.onDisk && w.ver.localVer == w.ver.latest && (w.obj.modified || Uploading(w))
  }

  predicate Versions(w: World) {
    && w.ver.provVer <= w.ver.latest && w.ver.localVer <= w.ver.latest
    && (w.ver.onDisk ==> w.ver.provVer <= w.ver.localVer)
    && (w.up.reading ==> w.up.active && w.ver.onDisk && w.ver.provVer <= w.ver.uploadVer <= w.ver.localVer)
    && !(w.up.queued && w.up.active) && !(w.up.moving && (w.up.queued || w.up.active))
    && !w.lost
  }

  predicate OpenObject(w: World) {
    && (w.obj.modified || w.obj.removed || w.obj.clearing || w.obj.handles > 0 || w.obj.closers > 0 ==> w.obj.open)
    && (w.obj.queueing ==> w.obj.modified && w.obj.complete && w.up.moving && !w.obj.clearing)
    && !w.obj.gone
    && (w.obj.open ==> w.ver.onDisk)
    && (w.obj.clearing ==> w.obj.modified && w.obj.complete && (Newer(w) ==> Uploading(w)))
    && (w.obj.open && Newer(w) && !w.obj.modified ==> w.obj.complete)
  }

  predicate OldObjects(w: World) {
    && (w.timedOut.Some? ==> !w.obj.open && !w.timedOut.value.modified && (Newer(w) ==> w.timedOut.value.complete))
    && (w.evicted.Some? ==> !w.obj.open && !w.evicted.value.modified && !Newer(w) && !Pending(w))
  }

  predicate Phases(w: World) {
    && (w.phase == SawLookup ==> !w.up.active)
    && (w.phase == SawTables ==> !Pending(w))
    && (w.phase == SawModified || w.phase == Counted ==> !Pending(w) && !w.obj.modified)
    && (w.phase == Counted && w.obj.open ==> w.obj.handles == 0)
    && (EvictionPending(w) ==> !Pending(w) && !w.obj.open)
  }

  predicate Inv(w: World) {
    Protected(w) && Versions(w) && OpenObject(w) && OldObjects(w) && Phases(w)
  }

  lemma OpenKeeps(w: World, complete: bool)
    requires Inv(w) && Enabled(w, Open(complete)) && !Hazard(w, Open(complete))
    ensures Inv(Next(w, Open(complete)))
  {
  }

  lemma WriteKeeps(w: World)
    requires Inv(w) && Enabled(w, Write) && !Hazard(w, Write)
    ensures Inv(Next(w, Write))
  {
  }

  lemma UseKeeps(w: World, s: Step)
    requires Inv(w) && Enabled(w, s) && (s.Download? || s.Fail? || s.EraseHandle? || s.ClearModified?)
    ensures Inv(Next(w, s))
  {
  }

  lemma QueueKeeps(w: World)
    requires Inv(w) && Enabled(w, QueueAtClose) && !Hazard(w, QueueAtClose)
    ensures Inv(Next(w, QueueAtClose))
  {
  }

  lemma RequeueKeeps(w: World, s: Step)
    requires Inv(w) && Enabled(w, s) && (s.HandlerRequeues? || s.QueueAdds?)
    ensures Inv(Next(w, s))
  {
  }

  lemma TimeOutKeeps(w: World, s: Step)
    requires Inv(w) && Enabled(w, s) && (s.TimeOutErase? || s.TimedOutChanges? || s.EvictedChanges?)
    ensures Inv(Next(w, s))
  {
  }

  lemma TimeOutCloseKeeps(w: World)
    requires Inv(w) && Enabled(w, TimeOutClose) && !Hazard(w, TimeOutClose)
    ensures Inv(Next(w, TimeOutClose))
  {
  }

  lemma UploadKeeps(w: World, s: Step)
    requires Inv(w) && Enabled(w, s) && !Hazard(w, s) && (s.Promote? || s.UploadOpens?)
    ensures Inv(Next(w, s))
  {
  }

  lemma CompletedKeeps(w: World, result: Result)
    requires Inv(w) && Enabled(w, Completed(result))
    ensures Inv(Next(w, Completed(result)))
  {
  }

  lemma LookKeeps(w: World, s: Step)
    requires Inv(w) && Enabled(w, s) && !Hazard(w, s) &&
             (s.EvictLookup? || s.EvictTables? || s.EvictModified? || s.EvictCount?)
    ensures Inv(Next(w, s))
  {
  }

  lemma EvictEraseKeeps(w: World)
    requires Inv(w) && Enabled(w, EvictErase)
    ensures Inv(Next(w, EvictErase))
  {
  }

  lemma EvictCloseKeeps(w: World)
    requires Inv(w) && Enabled(w, EvictClose)
    ensures Inv(Next(w, EvictClose))
  {
    var v := Moved(w, EvictClose);
    assert v == if Discards(w.evicted.value) then SourceDeleted(w).(src := w.src + 1, evicted := None)
                else w.(evicted := None);
    assert Kept(v);
  }

  lemma EvictRemoveKeeps(w: World)
    requires Inv(w) && Enabled(w, EvictRemove)
    ensures Inv(Next(w, EvictRemove))
  {
  }

  lemma StepKeepsInv(w: World, s: Step)
    requires Inv(w) && Enabled(w, s) && !Hazard(w, s)
    ensures Inv(Next(w, s))
  {
    hide Inv, Enabled, Next, Hazard;
    match s
    case Open(complete) => OpenKeeps(w, complete);
    case Write => WriteKeeps(w);
    case QueueAtClose => QueueKeeps(w);
    case HandlerRequeues | QueueAdds => RequeueKeeps(w, s);
    case TimeOutErase | TimedOutChanges(_, _) | EvictedChanges(_, _) => TimeOutKeeps(w, s);
    case TimeOutClose => TimeOutCloseKeeps(w);
    case Promote | UploadOpens => UploadKeeps(w, s);
    case Completed(result) => CompletedKeeps(w, result);
    case EvictLookup | EvictTables | EvictModified | EvictCount => LookKeeps(w, s);
    case EvictErase => EvictEraseKeeps(w);
    case EvictClose => EvictCloseKeeps(w);
    case EvictRemove => EvictRemoveKeeps(w);
    case _ => UseKeeps(w, s);
  }

  /** In every run without a hazard, at any length: the newest bytes always have a keeper, and bytes the
      provider lacks belong to a modified file or to an upload that will carry them. */
  lemma {:induction false} NothingLost(w: World, steps: seq<Step>)
    requires Inv(w) && IsRun(w, steps) && Hazardless(w, steps)
    ensures Inv(Exec(w, steps))
    decreases |steps|
  {
    hide Inv, Enabled, Next, Hazard;
    if steps != [] {
      StepKeepsInv(w, steps[0]);
      NothingLost(Next(w, steps[0]), steps[1..]);
    }
  }

  lemma NothingLostFromFresh(steps: seq<Step>)
    requires IsRun(FRESH, steps) && Hazardless(FRESH, steps)
    ensures !Exec(FRESH, steps).lost && Protected(Exec(FRESH, steps))
  {
    NothingLost(FRESH, steps);
  }

  // ---- an eviction on its own ----

  /** No handle, no change, nothing missing: all `evict_file` looks at besides the upload tables. */
  predicate LooksIdle(w: World) {
    w.obj.open ==> w.obj.handles == 0 && !w.obj.modified && w.obj.complete
  }

  /** Nobody holds `upload_mtx_`; the object a former eviction took out is closed, or there is no other yet. */
  predicate MayEvict(w: World) {
    w.phase == Idle && !w.up.moving && (w.obj.open ==> w.evicted.None?)
  }

  function LookedUp(w: World): World
    requires MayEvict(w)
  {
    Next(w, EvictLookup)
  }

  function TablesRead(w: World): World
    requires MayEvict(w)
  {
    var v := LookedUp(w);
    if v.phase == Idle then v else Next(v, EvictTables)
  }

  function ModifiedRead(w: World): World
    requires MayEvict(w)
  {
    var v := TablesRead(w);
    if v.phase == Idle then v else Next(v, EvictModified)
  }

  /** The sections before `open_file_mtx_` is given up, one after the other. */
  function Checked(w: World): World
    requires MayEvict(w)
  {
    var v := ModifiedRead(w);
    if v.phase == Idle then v else Next(v, EvictCount)
  }

  /** Nothing but the eviction's own place has changed, as far as it looks. */
  predicate SameFile(v: World, w: World) {
    v.obj == w.obj && v.up == w.up && v.ver == w.ver && v.evicted == w.evicted
  }

  lemma LookedUpIs(w: World)
    requires MayEvict(w)
    ensures LookedUp(w).phase == (if w.up.active then Idle else SawLookup) && SameFile(LookedUp(w), w)
  {
  }

  lemma TablesReadIs(w: World)
    requires MayEvict(w)
    ensures TablesRead(w).phase == (if w.up.active || w.up.queued then Idle else SawTables) &&
            SameFile(TablesRead(w), w)
  {
    hide LookedUp, Kept;
    LookedUpIs(w);
  }

  lemma ModifiedReadIs(w: World)
    requires MayEvict(w)
    ensures ModifiedRead(w).phase ==
            if w.up.active || w.up.queued || (w.obj.open && (w.obj.modified || !w.obj.complete)) then Idle
            else SawModified
    ensures SameFile(ModifiedRead(w), w)
  {
    hide TablesRead, Kept;
    TablesReadIs(w);
  }

  /** Undisturbed, `evict_file` refuses exactly the paths that are open, modified, incomplete, queued or
      uploading, and none of the others has newer bytes. */
  lemma AloneNothingIsLost(w: World)
    requires Inv(w) && MayEvict(w)
    ensures Checked(w).phase == Idle <==> w.up.active || w.up.queued || !LooksIdle(w)
    ensures Checked(w).phase != Idle ==> !Newer(w)
  {
    hide ModifiedRead, Kept;
    ModifiedReadIs(w);
  }

  // ---- every hazard is real ----

  /** From the look at the handle count to the deletion, undisturbed. */
  function Deleted(w: World): World
    requires w.phase == SawModified && (w.obj.open ==> w.obj.handles == 0 && w.evicted.None?)
  {
    Next(Next(Next(w, EvictCount), EvictErase), EvictRemove)
  }

  lemma DeletedIs(w: World)
    requires w.phase == SawModified && (w.obj.open ==> w.obj.handles == 0 && w.evicted.None?)
    requires !(w.up.active && w.up.reading)
    ensures Deleted(w).lost <==> w.lost || Newer(w) || w.ver.latest < w.ver.provVer
  {
  }

  /** An upload that starts between the two looks at the tables is missed, and its source deleted. */
  lemma PromotionSlipsPast(w: World)
    requires Inv(w) && w.phase == SawLookup && w.up.queued && LooksIdle(w)
    ensures Hazard(w, Promote)
    ensures Deleted(Next(Next(Next(w, Promote), EvictTables), EvictModified)).lost <==> Newer(w)
  {
    hide Deleted;
    var v := Next(Next(Next(w, Promote), EvictTables), EvictModified);
    DeletedIs(v);
  }

  /** The look at the queue falls between the removal and the addition of an upload that is queued again by the
      upload thread: it finds nothing, and the source is deleted. */
  lemma RequeueSlipsPast(w: World)
    requires Inv(w) && w.phase == SawLookup && w.up.moving && !w.obj.queueing && LooksIdle(w)
    ensures Hazard(w, EvictTables)
    ensures Deleted(Next(Next(Next(w, EvictTables), QueueAdds), EvictModified)).lost <==> Newer(w)
  {
    hide Deleted;
    var v := Next(Next(Next(w, EvictTables), QueueAdds), EvictModified);
    DeletedIs(v);
  }

  /** The same with a close that queues the upload, whether or not it was queued before. */
  lemma CloseRequeueSlipsPast(w: World)
    requires Inv(w) && w.phase == SawLookup && w.obj.queueing && w.obj.handles == 0
    ensures Hazard(w, EvictTables)
    ensures Deleted(Next(Next(Next(Next(w, EvictTables), QueueAdds), ClearModified), EvictModified)).lost <==> Newer(w)
  {
    hide Deleted;
    var v := Next(Next(Next(Next(w, EvictTables), QueueAdds), ClearModified), EvictModified);
    DeletedIs(v);
  }

  /** A close that queues the upload after the tables were read, and clears `modified` before that is read. */
  lemma CloseSlipsPast(w: World)
    requires Inv(w) && w.phase == SawTables && w.obj.open && w.obj.handles == 0
    requires Enabled(w, QueueAtClose) && QueuesAtClose(w)
    ensures Hazard(w, QueueAtClose)
    ensures Deleted(Next(Next(Next(Next(w, QueueAtClose), QueueAdds), ClearModified), EvictModified)).lost <==> Newer(w)
  {
    hide Deleted;
    var v := Next(Next(Next(Next(w, QueueAtClose), QueueAdds), ClearModified), EvictModified);
    DeletedIs(v);
  }

  /** A write after `modified` was read, whose handle is closed before the handles are counted. */
  lemma WriteSlipsPast(w: World)
    requires Inv(w) && w.phase == SawModified && w.obj.handles == 1 && Enabled(w, Write)
    ensures Hazard(w, Write) && Deleted(Next(Next(w, Write), EraseHandle)).lost
  {
    hide Deleted;
    DeletedIs(Next(Next(w, Write), EraseHandle));
  }

  /** The path is opened after `open_file_mtx_` was given up and before the source is deleted: whatever is
      written through that object is lost, before or after the deletion. */
  lemma OpenSlipsPastEviction(w: World, complete: bool)
    requires Inv(w) && EvictionPending(w) && Enabled(w, Open(complete))
    ensures Hazard(w, Open(complete))
    ensures var v := Next(w, Open(complete));
            && Next(Next(v, EvictRemove), Write).lost
            && Next(Next(v, Write), EvictRemove).lost
            && !Next(v, EvictRemove).lost
  {
  }

  /** The path is opened while somebody still refers to the object an eviction took out of the table, before the
      source was deleted or at any time after it: that object may fail, or have failed, and then gives up the
      source of the new one when it is closed. */
  lemma OpenSlipsPastEvictedClose(w: World, complete: bool)
    requires Inv(w) && w.evicted.Some? && Enabled(w, Open(complete))
    ensures Hazard(w, Open(complete))
    ensures var v := Next(Next(w, Open(complete)), EvictedChanges(false, true));
            Next(Next(v, EvictClose), Write).lost && Next(Next(v, Write), EvictClose).lost
  {
  }

  /** Whoever is queueing the path has done so. */
  function AfterQueueing(w: World): World {
    if w.up.moving then Next(w, QueueAdds) else w
  }

  /** The same with an object that timed out. */
  lemma OpenSlipsPastTimeOut(w: World, complete: bool)
    requires Inv(w) && w.timedOut.Some? && Enabled(w, Open(complete))
    ensures Hazard(w, Open(complete))
    ensures var v := Next(Next(AfterQueueing(w), Open(complete)), TimedOutChanges(false, true));
            Next(Next(v, TimeOutClose), Write).lost && Next(Next(v, Write), TimeOutClose).lost
  {
  }

  /** A file that failed after its upload was queued is given up together with its source. At the latest when
      the upload finds none, its bytes are lost, exactly if there were newer ones. */
  lemma FailedCloseLoses(w: World)
    requires Inv(w) && Enabled(w, TimeOutClose) && Hazard(w, TimeOutClose)
    ensures var v := Next(w, TimeOutClose);
            v.lost || (v.up.active && Next(v, Completed(Missing)).lost) <==> Newer(w)
  {
  }

  // ---- from a fresh path ----

  ghost predicate Reaches(w: World, v: World) {
    exists steps :: IsRun(w, steps) && Exec(w, steps) == v
  }

  lemma {:induction false} RunThenStep(w: World, steps: seq<Step>, s: Step)
    requires IsRun(w, steps) && Enabled(Exec(w, steps), s)
    ensures IsRun(w, steps + [s]) && Exec(w, steps + [s]) == Next(Exec(w, steps), s)
    decreases |steps|
  {
    hide Enabled, Next;
    if steps == [] {
      assert ([] + [s])[1..] == [];
    } else {
      RunThenStep(Next(w, steps[0]), steps[1..], s);
      assert (steps + [s])[1..] == steps[1..] + [s];
    }
  }

  lemma ReachesItself(w: World)
    ensures Reaches(w, w)
  {
    assert IsRun(w, []) && Exec(w, []) == w;
  }

  lemma Follow(w: World, v: World, s: Step) returns (u: World)
    requires Reaches(w, v) && Enabled(v, s)
    ensures u == Next(v, s) && Reaches(w, u)
  {
    hide Enabled, Next;
    var steps :| IsRun(w, steps) && Exec(w, steps) == v;
    RunThenStep(w, steps, s);
    u := Next(v, s);
  }

  const CLOSED_FILE := NO_OBJECT.(open := true, complete := true)

  const WRITTEN_FILE := Object(true, 1, true, true, true, false, false, 0, false, false)

  /** One write the provider does not have. */
  const ONE_WRITE := Copies(1, true, 1, 0, 0)

  lemma OpenAndWrite() returns (w: World)
    ensures Reaches(FRESH, w)
    ensures w == World(WRITTEN_FILE, NO_UPLOAD, ONE_WRITE, 0, 0, None, None, Idle, false)
  {
    hide Reaches;
    ReachesItself(FRESH);
    w := Follow(FRESH, FRESH, Open(true));
    w := Follow(FRESH, w, Write);
  }

  lemma WriteAndErase() returns (w: World)
    ensures Reaches(FRESH, w)
    ensures w == World(WRITTEN_FILE.(handles := 0, queueing := true), MOVING, ONE_WRITE, 0, 0, None, None, Idle, false)
  {
    hide Reaches;
    w := OpenAndWrite();
    w := Follow(FRESH, w, EraseHandle);
    assert w.obj == WRITTEN_FILE.(handles := 0, closers := 1);
    w := Follow(FRESH, w, QueueAtClose);
  }

  /** A fresh path that was opened, written and closed: its upload is queued. */
  lemma WriteAndClose() returns (w: World)
    ensures Reaches(FRESH, w)
    ensures w == World(CLOSED_FILE, QUEUED, ONE_WRITE, 0, 0, None, None, Idle, false)
  {
    hide Reaches;
    w := WriteAndErase();
    w := Follow(FRESH, w, QueueAdds);
    assert w.obj == WRITTEN_FILE.(handles := 0, clearing := true) && w.up == QUEUED;
    w := Follow(FRESH, w, ClearModified);
  }

  /** The upload starts between the two looks at the tables, and the second look finds nothing. */
  lemma PromotedUnseen() returns (w: World)
    ensures Reaches(FRESH, w)
    ensures w == World(CLOSED_FILE, Uploads(false, true, false, false), ONE_WRITE, 0, 0, None, None, SawTables, false)
  {
    hide Reaches;
    w := WriteAndClose();
    w := Follow(FRESH, w, EvictLookup);
    w := Follow(FRESH, w, Promote);
    w := Follow(FRESH, w, EvictTables);
  }

  lemma ErasedUnseen() returns (w: World)
    ensures Reaches(FRESH, w)
    ensures w == World(NO_OBJECT, Uploads(false, true, false, false), ONE_WRITE, 0, 0, None,
                       Some(Former(false, true, false)),
                       Erased, false)
  {
    hide Reaches;
    w := PromotedUnseen();
    w := Follow(FRESH, w, EvictModified);
    w := Follow(FRESH, w, EvictCount);
    w := Follow(FRESH, w, EvictErase);
  }

  /** Newer bytes are lost in a run from the start: eviction is not safe against the upload thread. */
  lemma EvictionDestroysQueuedUpload()
    ensures exists w :: Reaches(FRESH, w) && w.lost
  {
    hide Reaches;
    var w := ErasedUnseen();
    w := Follow(FRESH, w, EvictClose);
    w := Follow(FRESH, w, EvictRemove);
    assert w.lost;
  }

  /** The upload thread queues the upload again, and the look at the queue falls into the middle of that. */
  lemma RequeuedUnseen() returns (w: World)
    ensures Reaches(FRESH, w)
    ensures w == World(CLOSED_FILE, MOVING, ONE_WRITE, 0, 0, None, None, SawTables, false)
  {
    hide Reaches;
    w := WriteAndClose();
    w := Follow(FRESH, w, EvictLookup);
    w := Follow(FRESH, w, HandlerRequeues);
    w := Follow(FRESH, w, EvictTables);
  }

  lemma RequeuedChecked() returns (w: World)
    ensures Reaches(FRESH, w)
    ensures w == World(CLOSED_FILE, QUEUED, ONE_WRITE, 0, 0, None, None, SawModified, false)
  {
    hide Reaches;
    w := RequeuedUnseen();
    w := Follow(FRESH, w, QueueAdds);
    w := Follow(FRESH, w, EvictModified);
  }

  lemma RequeuedErased() returns (w: World)
    ensures Reaches(FRESH, w)
    ensures w == World(NO_OBJECT, QUEUED, ONE_WRITE, 0, 0, None, Some(Former(false, true, false)), Erased, false)
  {
    hide Reaches;
    w := RequeuedChecked();
    w := Follow(FRESH, w, EvictCount);
    w := Follow(FRESH, w, EvictErase);
  }

  lemma RequeuedUploadIsLost()
    ensures exists w :: Reaches(FRESH, w) && w.lost
  {
    hide Reaches;
    var w := RequeuedErased();
    w := Follow(FRESH, w, EvictRemove);
    assert w.lost;
  }

  lemma ChecksFresh() returns (w: World)
    ensures Reaches(FRESH, w) && w == FRESH.(phase := SawTables)
  {
    hide Reaches;
    ReachesItself(FRESH);
    w := Follow(FRESH, FRESH, EvictLookup);
    w := Follow(FRESH, w, EvictTables);
  }

  lemma ErasedFresh() returns (w: World)
    ensures Reaches(FRESH, w) && w == FRESH.(phase := Erased)
  {
    hide Reaches;
    w := ChecksFresh();
    w := Follow(FRESH, w, EvictModified);
    assert w == FRESH.(phase := SawModified);
    w := Follow(FRESH, w, EvictCount);
    w := Follow(FRESH, w, EvictErase);
  }

  /** And with a write after the deletion, into a file that has no name any more. */
  lemma LateWriteIsLost()
    ensures exists w :: Reaches(FRESH, w) && w.lost
  {
    hide Reaches;
    var w := ErasedFresh();
    w := Follow(FRESH, w, Open(true));
    w := Follow(FRESH, w, EvictRemove);
    w := Follow(FRESH, w, Write);
    assert w.lost;
  }
}
