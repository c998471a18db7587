/**
 Which open file a handle stands for (repertory/librepertory/src/file_manager/file_manager.cpp): the table
 of open paths, the table of handles whose path is gone, and what opening, closing, removing and the upgrade
 to a writable file do to them, and that they keep the handles apart. `erased` are the handles of closes that
 have erased their handle and not finished yet.
 */
module FileTable {

  /** An open file object. Objects are numbered in the order they are created and never reused. */
  datatype File = File(path: string, source: string, handles: set<nat>, unlinked: bool, writable: bool, directory: bool)

  datatype Table = Table(files: seq<File>, open: map<string, nat>, unlinked: map<nat, nat>, nextHandle: nat,
                         removedSources: set<string>)

  /** Object `f` stands in the table of open paths and has the handle `h`. */
  predicate Holds(t: Table, h: nat, f: nat) {
    && f < |t.files|
    && t.files[f].path in t.open
    && t.open[t.files[f].path] == f
    && h in t.files[f].handles
  }

  /** Object `f` has lost its path and has the handle `h`. */
  predicate Orphaned(t: Table, h: nat, f: nat) {
    h in t.unlinked && t.unlinked[h] == f && f < |t.files| && h in t.files[f].handles
  }

  predicate Has(t: Table, h: nat, f: nat) {
    Holds(t, h, f) || Orphaned(t, h, f)
  }

  ghost predicate Unheld(t: Table, h: nat) {
    forall f: nat :: !Has(t, h, f)
  }

  /** `get_open_file_by_handle`. */
  predicate ResolvesTo(t: Table, h: nat, f: nat) {
    if h in t.unlinked then t.unlinked[h] == f else Holds(t, h, f)
  }

  // ---- the operations ----

  function NewFile(t: Table, path: string, source: string, writable: bool, directory: bool): Table {
    if path in t.open then t
    else t.(files := t.files + [File(path, source, {}, false, writable, directory)], open := t.open[path := |t.files|])
  }

  function AddHandle(t: Table, f: nat, h: nat): Table
    requires f < |t.files|
  {
    t.(nextHandle := h, files := t.files[f := t.files[f].(handles := t.files[f].handles + {h})])
  }

  /** `open`: the object of an open path is shared. */
  function Opened(t: Table, path: string, source: string, writable: bool, directory: bool): Table
    requires path in t.open ==> t.open[path] < |t.files|
  {
    var s := NewFile(t, path, source, writable, directory);
    AddHandle(s, s.open[path], t.nextHandle + 1)
  }

  /** `remove_file` and `remove_directory` for an open path. */
  function Removed(t: Table, path: string): Table
    requires path in t.open && t.open[path] < |t.files|
  {
    var f := t.open[path];
    t.(open := t.open - {path}, files := t.files[f := t.files[f].(unlinked := true)],
       unlinked := t.unlinked + map h | h in t.files[f].handles :: f)
  }

  /** `get_open_file` with write access to an object that does not support it: a new object takes over. */
  function Upgraded(t: Table, f: nat): Table
    requires f < |t.files|
  {
    if t.files[f].writable then t else
    var next := t.(files := t.files + [t.files[f].(writable := true)]);
    if t.files[f].unlinked then next.(unlinked := t.unlinked + map h | h in t.files[f].handles :: |t.files|)
    else next.(open := t.open[t.files[f].path := |t.files|])
  }

  /** The middle of `close`, without `open_file_mtx_`: the object gives the handle up. */
  function HandleErased(t: Table, f: nat, h: nat): Table
    requires f < |t.files|
  {
    t.(files := t.files[f := t.files[f].(handles := t.files[f].handles - {h})])
  }

  /** The end of `close`, with the answer `get_open_file_by_handle` gave at its start. */
  function CloseFinished(t: Table, f: nat, h: nat, wasUnlinked: bool): Table
    requires f < |t.files|
  {
    if !wasUnlinked then t else
    var next := t.(unlinked := t.unlinked - {h});
    if t.files[f].handles != {} || t.files[f].directory then next
    else next.(removedSources := t.removedSources + {t.files[f].source})
  }

  /** `close_timed_out_files` and `evict_file` drop an object nobody has open. */
  function TimedOut(t: Table, path: string): Table {
    if path in t.open && t.open[path] < |t.files| && t.files[t.open[path]].handles == {} then
      t.(open := t.open - {path})
    else t
  }

  // ---- the partition ----

  predicate PathsValid(t: Table) {
    forall p :: p in t.open ==>
      t.open[p] < |t.files| && t.files[t.open[p]].path == p && !t.files[t.open[p]].unlinked
  }

  /** No handle belongs to two open objects, or to an open object and the table of unlinked handles. */
  ghost predicate OpenValid(t: Table) {
    && (forall h: nat, f: nat :: Holds(t, h, f) ==> h !in t.unlinked && h <= t.nextHandle)
    && (forall h: nat, f: nat, g: nat :: Holds(t, h, f) && Holds(t, h, g) ==> f == g)
  }

  /** An unlinked handle belongs to the object it is listed with, unless it has been erased there. */
  ghost predicate ListedValid(t: Table, erased: set<nat>) {
    forall h :: h in t.unlinked ==>
      && h <= t.nextHandle && t.unlinked[h] < |t.files| && t.files[t.unlinked[h]].unlinked
      && (h in erased || h in t.files[t.unlinked[h]].handles)
  }

  /** The handles of an unlinked object are listed together. */
  ghost predicate OrphansListed(t: Table) {
    forall h: nat, f: nat, g: nat :: Orphaned(t, h, f) && g in t.files[f].handles ==> Orphaned(t, g, f)
  }

  /** An erased handle belongs to no object. */
  ghost predicate ErasedGone(t: Table, erased: set<nat>) {
    && (forall h :: h in erased ==> h <= t.nextHandle)
    && (forall h: nat, f: nat :: h in erased ==> !Has(t, h, f))
  }

  ghost predicate TableValid(t: Table, erased: set<nat>) {
    PathsValid(t) && OpenValid(t) && ListedValid(t, erased) && OrphansListed(t) && ErasedGone(t, erased)
  }

  /** The handle resolves to exactly one object, linked or unlinked, never both. */
  lemma OneFilePerHandle(t: Table, erased: set<nat>, h: nat, f: nat)
    requires TableValid(t, erased) && h !in erased && ResolvesTo(t, h, f)
    ensures f < |t.files| && h <= t.nextHandle && Has(t, h, f)
    ensures h in t.unlinked <==> t.files[f].unlinked
    ensures h in t.unlinked <==> Orphaned(t, h, f)
    ensures forall g: nat :: Has(t, h, g) || ResolvesTo(t, h, g) ==> g == f
    ensures !t.files[f].unlinked ==> t.files[f].path in t.open && t.open[t.files[f].path] == f
  {
  }

  // ---- what each operation moves ----

  lemma OpenedHolds(t: Table, path: string, source: string, writable: bool, directory: bool)
    requires PathsValid(t)
    ensures var r := Opened(t, path, source, writable, directory);
            forall h: nat, f: nat :: Holds(r, h, f) <==> Holds(t, h, f) || (h == t.nextHandle + 1 && f == r.open[path])
  {
  }

  /** The object of a path nobody had open is new, with the path, source and kind it was opened with, writable
      exactly if that was asked for; an open path keeps its object and what that can do. */
  lemma OpenedObject(t: Table, path: string, source: string, writable: bool, directory: bool)
    requires PathsValid(t)
    ensures var r := Opened(t, path, source, writable, directory);
            && r.nextHandle == t.nextHandle + 1 && r.open.Keys == t.open.Keys + {path}
            && r.open[path] == (if path in t.open then t.open[path] else |t.files|)
            && |r.files| == |t.files| + (if path in t.open then 0 else 1)
            && r.files[r.open[path]] ==
               (if path in t.open then var f := t.files[t.open[path]]; f.(handles := f.handles + {r.nextHandle})
                else File(path, source, {r.nextHandle}, false, writable, directory))
            && (forall p :: p in t.open && p != path ==> r.open[p] == t.open[p])
            && forall k :: 0 <= k < |t.files| && k != r.open[path] ==> r.files[k] == t.files[k]
  {
  }

  lemma OpenedOrphans(t: Table, erased: set<nat>, path: string, source: string, writable: bool, directory: bool)
    requires PathsValid(t) && ListedValid(t, erased) && OrphansListed(t)
    ensures var r := Opened(t, path, source, writable, directory);
            && ListedValid(r, erased) && OrphansListed(r)
            && forall h: nat, f: nat :: Orphaned(r, h, f) <==> Orphaned(t, h, f)
  {
    var r := Opened(t, path, source, writable, directory);
    forall h: nat, f: nat, g: nat | Orphaned(r, h, f) && g in r.files[f].handles
      ensures Orphaned(r, g, f)
    {
      assert t.unlinked[h] == f && t.files[f].unlinked && r.files[f] == t.files[f];
      assert Orphaned(t, h, f) && Orphaned(t, g, f);
    }
  }

  lemma OpenedPaths(t: Table, path: string, source: string, writable: bool, directory: bool)
    requires PathsValid(t)
    ensures PathsValid(Opened(t, path, source, writable, directory))
  {
  }

  lemma NextIsFresh(t: Table, erased: set<nat>)
    requires TableValid(t, erased)
    ensures Unheld(t, t.nextHandle + 1) && t.nextHandle + 1 !in t.unlinked && t.nextHandle + 1 !in erased
  {
  }

  lemma OpenKeeps(t: Table, erased: set<nat>, path: string, source: string, writable: bool, directory: bool)
    requires TableValid(t, erased)
    ensures var r := Opened(t, path, source, writable, directory);
            && (forall h: nat, f: nat :: Has(r, h, f) <==> Has(t, h, f) || (h == t.nextHandle + 1 && f == r.open[path]))
            && TableValid(r, erased) && r.unlinked == t.unlinked
  {
    hide Holds, Orphaned, ListedValid, OrphansListed;
    OpenedHolds(t, path, source, writable, directory);
    OpenedOrphans(t, erased, path, source, writable, directory);
    OpenedPaths(t, path, source, writable, directory);
    NextIsFresh(t, erased);
  }

  lemma RemovedHolds(t: Table, path: string)
    requires PathsValid(t) && path in t.open
    ensures forall h: nat, f: nat :: Holds(Removed(t, path), h, f) <==> Holds(t, h, f) && f != t.open[path]
  {
  }

  lemma RemovedOrphans(t: Table, erased: set<nat>, path: string)
    requires TableValid(t, erased) && path in t.open
    ensures forall h: nat, f: nat :: Orphaned(Removed(t, path), h, f) <==>
              Orphaned(t, h, f) || (Holds(t, h, f) && f == t.open[path])
    ensures forall h: nat :: h in Removed(t, path).unlinked <==> h in t.unlinked || Holds(t, h, t.open[path])
    ensures PathsValid(Removed(t, path)) && ListedValid(Removed(t, path), erased)
  {
    hide OrphansListed, ErasedGone;
    assert forall h: nat :: h in t.files[t.open[path]].handles <==> Holds(t, h, t.open[path]);
  }

  lemma RemoveKeeps(t: Table, erased: set<nat>, path: string)
    requires TableValid(t, erased) && path in t.open
    ensures forall h: nat, f: nat :: Has(Removed(t, path), h, f) <==> Has(t, h, f)
    ensures forall h: nat :: h in Removed(t, path).unlinked <==> h in t.unlinked || Holds(t, h, t.open[path])
    ensures TableValid(Removed(t, path), erased)
  {
    hide Holds, Orphaned, ListedValid, OrphansListed;
    RemovedHolds(t, path);
    RemovedOrphans(t, erased, path);
    RemoveKeepsLists(t, erased, path);
  }

  lemma RemoveKeepsLists(t: Table, erased: set<nat>, path: string)
    requires TableValid(t, erased) && path in t.open
    ensures OrphansListed(Removed(t, path))
  {
    hide ErasedGone;
    RemovedOrphans(t, erased, path);
    var r, k := Removed(t, path), t.open[path];
    forall h: nat, f: nat, g: nat | Orphaned(r, h, f) && g in r.files[f].handles
      ensures Orphaned(r, g, f)
    {
      assert Orphaned(t, h, f) || f == k;
      assert f == k ==> Holds(t, g, f);
    }
  }

  lemma UpgradedHolds(t: Table, erased: set<nat>, h: nat, f: nat)
    requires TableValid(t, erased) && Has(t, h, f) && !t.files[f].writable
    ensures forall g: nat, k: nat :: Holds(Upgraded(t, f), g, k) <==>
              (if k == |t.files| then Holds(t, g, f) else k != f && Holds(t, g, k))
    ensures PathsValid(Upgraded(t, f))
  {
    hide OrphansListed, ErasedGone;
  }

  lemma UpgradedOrphans(t: Table, erased: set<nat>, h: nat, f: nat)
    requires TableValid(t, erased) && Has(t, h, f) && !t.files[f].writable
    ensures forall g: nat, k: nat :: Orphaned(Upgraded(t, f), g, k) <==>
              (if k == |t.files| then Orphaned(t, g, f) else k != f && Orphaned(t, g, k))
    ensures Upgraded(t, f).unlinked.Keys == t.unlinked.Keys
  {
    hide ErasedGone;
  }

  lemma UpgradeKeepsLists(t: Table, erased: set<nat>, h: nat, f: nat)
    requires TableValid(t, erased) && Has(t, h, f) && !t.files[f].writable
    ensures ListedValid(Upgraded(t, f), erased) && OrphansListed(Upgraded(t, f))
  {
    UpgradedOrphans(t, erased, h, f);
    var r := Upgraded(t, f);
    forall g: nat, k: nat, i: nat | Orphaned(r, g, k) && i in r.files[k].handles
      ensures Orphaned(r, i, k)
    {
      assert k == |t.files| ==> Orphaned(t, g, f) && Orphaned(t, i, f);
      assert k != |t.files| ==> Orphaned(t, g, k) && Orphaned(t, i, k);
    }
  }

  lemma UpgradeKeeps(t: Table, erased: set<nat>, h: nat, f: nat)
    requires TableValid(t, erased) && Has(t, h, f) && !t.files[f].writable
    ensures forall g: nat, k: nat :: Has(Upgraded(t, f), g, k) <==>
              (if k == |t.files| then Has(t, g, f) else k != f && Has(t, g, k))
    ensures forall g: nat, k: nat :: Has(t, g, k) ==> Has(Upgraded(t, f), g, if k == f then |t.files| else k)
    ensures Upgraded(t, f).unlinked.Keys == t.unlinked.Keys
    ensures TableValid(Upgraded(t, f), erased)
  {
    hide Holds, Orphaned, PathsValid, ListedValid, OrphansListed;
    UpgradedHolds(t, erased, h, f);
    UpgradedOrphans(t, erased, h, f);
    UpgradeKeepsLists(t, erased, h, f);
    NotYetThere(t);
  }

  lemma NotYetThere(t: Table)
    ensures forall h: nat, f: nat :: Has(t, h, f) ==> f < |t.files|
  {
  }

  lemma ErasedHolds(t: Table, h: nat, f: nat)
    requires f < |t.files|
    ensures forall g: nat, k: nat :: Holds(HandleErased(t, f, h), g, k) <==> Holds(t, g, k) && !(g == h && k == f)
    ensures forall g: nat, k: nat :: Orphaned(HandleErased(t, f, h), g, k) <==> Orphaned(t, g, k) && !(g == h && k == f)
    ensures PathsValid(t) ==> PathsValid(HandleErased(t, f, h))
  {
  }

  lemma EraseKeepsLists(t: Table, erased: set<nat>, h: nat, f: nat)
    requires TableValid(t, erased) && Has(t, h, f)
    ensures ListedValid(HandleErased(t, f, h), erased + {h}) && OrphansListed(HandleErased(t, f, h))
  {
    hide ErasedGone;
    OnlyOne(t, erased, h, f);
    ErasedHolds(t, h, f);
  }

  /** The object gives the handle up: nobody has it then. */
  lemma EraseKeeps(t: Table, erased: set<nat>, h: nat, f: nat)
    requires TableValid(t, erased) && Has(t, h, f)
    ensures forall g: nat, k: nat :: Has(HandleErased(t, f, h), g, k) <==> Has(t, g, k) && g != h
    ensures TableValid(HandleErased(t, f, h), erased + {h})
  {
    hide Holds, Orphaned, PathsValid, ListedValid, OrphansListed;
    OnlyOne(t, erased, h, f);
    ErasedHolds(t, h, f);
    EraseKeepsLists(t, erased, h, f);
  }

  lemma OnlyOne(t: Table, erased: set<nat>, h: nat, f: nat)
    requires TableValid(t, erased) && Has(t, h, f)
    ensures f < |t.files| && h <= t.nextHandle && h !in erased
    ensures forall k: nat :: Has(t, h, k) ==> k == f
    ensures Orphaned(t, h, f) <==> h in t.unlinked
  {
  }

  lemma FinishKeeps(t: Table, erased: set<nat>, h: nat, f: nat, wasUnlinked: bool)
    requires TableValid(t, erased) && h in erased && f < |t.files| && (h in t.unlinked ==> wasUnlinked)
    ensures forall g: nat, k: nat :: Has(CloseFinished(t, f, h, wasUnlinked), g, k) <==> Has(t, g, k)
    ensures CloseFinished(t, f, h, wasUnlinked).unlinked == t.unlinked - {h}
    ensures TableValid(CloseFinished(t, f, h, wasUnlinked), erased - {h})
  {
    hide Holds, Orphaned, PathsValid, ListedValid, OrphansListed;
    var r := CloseFinished(t, f, h, wasUnlinked);
    assert r.unlinked == t.unlinked - {h} && r.open == t.open && r.files == t.files && r.nextHandle == t.nextHandle;
    NotHeld(t, erased, h);
    FinishedHas(t, r, h);
    FinishKeepsLists(t, r, erased, h);
  }

  lemma FinishKeepsLists(t: Table, r: Table, erased: set<nat>, h: nat)
    requires r.unlinked == t.unlinked - {h} && r.open == t.open && r.files == t.files && r.nextHandle == t.nextHandle
    requires TableValid(t, erased) && h in erased
    ensures PathsValid(r) && ListedValid(r, erased - {h}) && OrphansListed(r)
  {
    NotHeld(t, erased, h);
    FinishedHas(t, r, h);
  }

  lemma NotHeld(t: Table, erased: set<nat>, h: nat)
    requires ErasedGone(t, erased) && h in erased
    ensures forall k: nat :: !Holds(t, h, k) && !Orphaned(t, h, k)
  {
    assert forall k: nat :: (Holds(t, h, k) || Orphaned(t, h, k)) ==> Has(t, h, k);
  }

  lemma FinishedHas(t: Table, r: Table, h: nat)
    requires r.unlinked == t.unlinked - {h} && r.open == t.open && r.files == t.files
    requires forall k: nat :: !Orphaned(t, h, k)
    ensures forall g: nat, k: nat :: Holds(r, g, k) <==> Holds(t, g, k)
    ensures forall g: nat, k: nat :: Orphaned(r, g, k) <==> Orphaned(t, g, k)
  {
  }

  lemma TimedOutHolds(t: Table, path: string)
    requires PathsValid(t)
    ensures forall h: nat, f: nat :: Holds(TimedOut(t, path), h, f) <==> Holds(t, h, f)
    ensures forall h: nat, f: nat :: Orphaned(TimedOut(t, path), h, f) <==> Orphaned(t, h, f)
    ensures PathsValid(TimedOut(t, path))
  {
  }

  lemma TimeOutKeeps(t: Table, erased: set<nat>, path: string)
    requires TableValid(t, erased)
    ensures forall h: nat, f: nat :: Has(TimedOut(t, path), h, f) <==> Has(t, h, f)
    ensures TableValid(TimedOut(t, path), erased)
  {
    hide Holds, Orphaned, PathsValid;
    TimedOutHolds(t, path);
  }
}
