/**
 `file_manager` (repertory/librepertory/src/file_manager/file_manager.cpp) with its tables as fields: one method
 per section under `open_file_mtx_`, each the step of the same name.
 */
module FileManagement {
  import opened Bytes
  import opened FileTable
  import opened HandleLifetime

  /** What holds in every state, also after a disturbed close. */
  predicate Sound(t: Table) {
    && PathsValid(t)
    && forall h :: h in t.unlinked ==> t.unlinked[h] < |t.files| && t.files[t.unlinked[h]].unlinked
  }

  /** `r` is `s` after the handle's object has been replaced by a writable one, if it was not writable. */
  ghost predicate Upgrades(s: State, r: State, h: nat, g: nat) {
    exists f: nat :: UpgradesFrom(s, r, h, f, g)
  }

  predicate UpgradesFrom(s: State, r: State, h: nat, f: nat, g: nat) {
    Enabled(s, Upgrade(h, f)) && r == Do(s, Upgrade(h, f)) && g == FileAfter(s, Upgrade(h, f), f)
  }

  /** The object the handle stood for, writable and otherwise as it was. */
  ghost predicate MadeWritable(t: Table, h: nat, file: File) {
    exists f: nat :: ResolvesTo(t, h, f) && f < |t.files| && file == t.files[f].(writable := true)
  }

  /** No close of the handle's object is between its look-up and its erasure. */
  ghost predicate UpgradeHarmless(s: State, h: nat) {
    forall f: nat :: ResolvesTo(s.t, h, f) ==> !Hazardous(s, Upgrade(h, f))
  }

  lemma UpgradeKeepsIfHarmless(s: State, h: nat, f: nat)
    requires Enabled(s, Upgrade(h, f))
    ensures Valid(s) && UpgradeHarmless(s, h) ==> Valid(Do(s, Upgrade(h, f)))
  {
    if Valid(s) && UpgradeHarmless(s, h) {
      StepKeeps(s, Upgrade(h, f));
    }
  }

  lemma UpgradedSound(t: Table, h: nat, f: nat)
    requires Sound(t) && f < |t.files| && ResolvesTo(t, h, f) && !t.files[f].writable
    ensures Sound(Upgraded(t, f)) && (h in t.unlinked <==> t.files[f].unlinked)
  {
  }

  lemma HarmlessKeeps(s: State, a: Action)
    requires Valid(s) && Enabled(s, a) && !a.Remove? && !a.Upgrade?
    ensures Valid(Do(s, a))
  {
    StepKeeps(s, a);
  }

  lemma FinishEnds(s: State, h: nat)
    requires Valid(s) && Enabled(s, Action.CloseFinish(h))
    ensures Unheld(Do(s, Action.CloseFinish(h)).t, h) && h !in Do(s, Action.CloseFinish(h)).t.unlinked
  {
    var p := s.closing[h];
    FinishKeeps(s.t, Erased(s), h, p.file, p.wasUnlinked);
  }

  lemma ClosedMoves(s: State, h: nat, f: nat)
    requires Valid(s) && h !in s.closing && Enabled(s, Action.CloseLook(h, f))
    ensures var looked := Do(s, Action.CloseLook(h, f));
            && Enabled(looked, Action.CloseErase(h))
            && var erased := Do(looked, Action.CloseErase(h));
               && Enabled(erased, Action.CloseFinish(h))
               && Do(erased, Action.CloseFinish(h)).closing == s.closing
               && forall g: nat, k: nat :: Has(Do(erased, Action.CloseFinish(h)).t, g, k) <==> g != h && Has(s.t, g, k)
  {
    hide TableValid, Has;
    OneFilePerHandle(s.t, Erased(s), h, f);
    EraseKeeps(s.t, Erased(s), h, f);
    var erased := Do(Do(s, Action.CloseLook(h, f)), Action.CloseErase(h));
    FinishKeeps(erased.t, Erased(s) + {h}, h, f, h in s.t.unlinked);
  }

  lemma OpenedSound(t: Table, path: string, source: string, writable: bool, directory: bool)
    requires Sound(t)
    ensures var r := Opened(t, path, source, writable, directory);
            && Sound(r) && path in r.open && r.open[path] < |r.files| &&
            t.nextHandle + 1 in r.files[r.open[path]].handles
  {
    hide Holds;
    OpenedPaths(t, path, source, writable, directory);
  }

  lemma OpenBounded(t: Table)
    requires Sound(t)
    ensures forall p :: p in t.open ==> t.open[p] < |t.files|
  {
  }

  lemma NewHandle(s: State)
    requires Valid(s)
    ensures Unheld(s.t, s.t.nextHandle + 1)
  {
    NextIsFresh(s.t, Erased(s));
  }

  lemma UnknownIsUnheld(t: Table, h: nat)
    requires forall f: nat :: !ResolvesTo(t, h, f)
    ensures Unheld(t, h) && h !in t.unlinked
  {
    assert h in t.unlinked ==> ResolvesTo(t, h, t.unlinked[h]);
    forall f: nat
      ensures !Has(t, h, f)
    {
      assert !ResolvesTo(t, h, f);
    }
  }

  class FileManager {
    var files: seq<File>
    var openFileLookup: map<string, nat>
    var unlinkedFileLookup: map<nat, nat>
    var nextHandle: nat
    var removedSources: set<string>
    /** The closes between their sections. */
    ghost var closing: map<nat, Pending>
    ghost var owed: set<string>

    function Contents(): Table
      reads this
    {
      Table(files, openFileLookup, unlinkedFileLookup, nextHandle, removedSources)
    }

    ghost function Now(): State
      reads this
    {
      State(Contents(), closing, owed)
    }

    constructor ()
      ensures Sound(Contents()) && Valid(Now()) && forall h: nat, f: nat :: !ResolvesTo(Contents(), h, f)
    {
      files, openFileLookup, unlinkedFileLookup, nextHandle, removedSources := [], map[], map[], 0, {};
      closing, owed := map[], {};
    }

    method GetOpenFileByHandle(handle: nat) returns (file: Option<nat>, isUnlinked: bool)
      requires Sound(Contents())
      ensures isUnlinked <==> handle in unlinkedFileLookup
      ensures file.None? ==> forall f: nat :: !ResolvesTo(Contents(), handle, f)
      ensures file.Some? ==> ResolvesTo(Contents(), handle, file.value) && file.value < |files|
      ensures file.Some? ==> (isUnlinked <==> files[file.value].unlinked)
    {
      if handle in unlinkedFileLookup {
        return Some(unlinkedFileLookup[handle]), true;
      }
      var paths := openFileLookup.Keys;
      while paths != {}
        invariant paths <= openFileLookup.Keys
        invariant forall p :: p in openFileLookup && handle in files[openFileLookup[p]].handles ==> p in paths
      {
        var p :| p in paths;
        if handle in files[openFileLookup[p]].handles {
          return Some(openFileLookup[p]), false;
        }
        paths := paths - {p};
      }
      return None, false;
    }

    method Open(path: string, source: string, writable: bool, directory: bool) returns (handle: nat)
      requires Sound(Contents())
      modifies this
      ensures Sound(Contents()) && Now() == Do(old(Now()), Action.Open(path, source, writable, directory))
      ensures Valid(old(Now())) ==> Valid(Now()) && Unheld(old(Contents()), handle)
      ensures handle == nextHandle && path in openFileLookup && openFileLookup[path] < |files|
      ensures handle in files[openFileLookup[path]].handles
      ensures path !in old(openFileLookup) ==>
                openFileLookup[path] == |old(files)| &&
                files == old(files) + [File(path, source, {handle}, false, writable, directory)]
      ensures path in old(openFileLookup) ==>
                var f := openFileLookup[path];
                f == old(openFileLookup)[path] && f < |old(files)| && files[f].writable == old(files)[f].writable
    {
      hide Valid, TableValid, Has, Sound;
      ghost var was := Now();
      OpenedSound(was.t, path, source, writable, directory);
      OpenBounded(was.t);
      if path !in openFileLookup {
        openFileLookup := openFileLookup[path := |files|];
        files := files + [File(path, source, {}, false, writable, directory)];
      }
      nextHandle := nextHandle + 1;
      handle := nextHandle;
      var f := openFileLookup[path];
      files := files[f := files[f].(handles := files[f].handles + {handle})];
      assert path !in was.t.open ==> files[f].handles == {handle};
      assert Contents() == Opened(was.t, path, source, writable, directory);
      if Valid(was) {
        HarmlessKeeps(was, Action.Open(path, source, writable, directory));
        NewHandle(was);
      }
    }

    /** The first section of `close`. */
    method CloseLook(handle: nat) returns (file: Option<nat>, isUnlinked: bool)
      requires Sound(Contents()) && handle !in closing
      modifies this`closing
      ensures file.None? ==> Now() == old(Now()) && forall f: nat :: !ResolvesTo(Contents(), handle, f)
      ensures file.Some? ==> Enabled(old(Now()), Action.CloseLook(handle, file.value)) &&
                             Now() == Do(old(Now()), Action.CloseLook(handle, file.value)) &&
                             handle in closing && closing[handle] == Pending(file.value, isUnlinked, false) &&
                             file.value < |files|
      ensures Valid(old(Now())) ==> Valid(Now())
    {
      ghost var was := Now();
      file, isUnlinked := GetOpenFileByHandle(handle);
      if file.Some? {
        closing := closing[handle := Pending(file.value, isUnlinked, false)];
        if Valid(was) {
          HarmlessKeeps(was, Action.CloseLook(handle, file.value));
        }
      }
    }

    /** `remove(handle)` of the object, between the two sections of `close`. */
    method CloseErase(handle: nat, file: nat, isUnlinked: bool)
      requires Sound(Contents()) && file < |files| && handle in closing
      requires closing[handle] == Pending(file, isUnlinked, false)
      modifies this
      ensures Sound(Contents()) && Now() == Do(old(Now()), Action.CloseErase(handle))
      ensures handle in closing && closing[handle] == Pending(file, isUnlinked, true) && file < |files|
      ensures Valid(old(Now())) ==> Valid(Now())
    {
      ghost var was := Now();
      files := files[file := files[file].(handles := files[file].handles - {handle})];
      closing := closing[handle := Pending(file, isUnlinked, true)];
      if Valid(was) {
        HarmlessKeeps(was, Action.CloseErase(handle));
      }
    }

    /** The second section of `close`. */
    method CloseFinish(handle: nat, file: nat, isUnlinked: bool)
      requires Sound(Contents()) && file < |files| && handle in closing
      requires closing[handle] == Pending(file, isUnlinked, true)
      modifies this
      ensures Sound(Contents()) && Now() == Do(old(Now()), Action.CloseFinish(handle))
      ensures Valid(old(Now())) ==> Valid(Now()) && Unheld(Contents(), handle) && handle !in unlinkedFileLookup
    {
      ghost var was := Now();
      closing := closing - {handle};
      if isUnlinked {
        unlinkedFileLookup := unlinkedFileLookup - {handle};
        if files[file].handles == {} && !files[file].directory {
          removedSources := removedSources + {files[file].source};
        }
      }
      if Valid(was) {
        HarmlessKeeps(was, Action.CloseFinish(handle));
        FinishEnds(was, handle);
      }
    }

    /** With no other thread in between: an unknown handle changes nothing; a known one is gone afterwards, and
        every other one is where it was. */
    method Close(handle: nat)
      requires Sound(Contents()) && Valid(Now()) && handle !in closing
      modifies this
      ensures Sound(Contents()) && Valid(Now()) && closing == old(closing)
      ensures Unheld(Contents(), handle) && handle !in unlinkedFileLookup
      ensures forall h: nat, f: nat :: Has(Contents(), h, f) <==> h != handle && Has(old(Contents()), h, f)
    {
      hide Do, Has, TableValid, InStep, Sound, Enabled;
      ghost var was := Now();
      var file, isUnlinked := CloseLook(handle);
      if file.None? {
        UnknownIsUnheld(was.t, handle);
        return;
      }
      CloseErase(handle, file.value, isUnlinked);
      CloseFinish(handle, file.value, isUnlinked);
      ClosedMoves(was, handle, file.value);
    }

    /** The part of `remove_file` that concerns an open path. */
    method RemoveFile(path: string)
      requires Sound(Contents()) && path in openFileLookup
      modifies this
      ensures Sound(Contents()) && Now() == Do(old(Now()), Remove(path))
      ensures Valid(old(Now())) && !Hazardous(old(Now()), Remove(path)) ==> Valid(Now())
    {
      ghost var was := Now();
      var f := openFileLookup[path];
      openFileLookup := openFileLookup - {path};
      files := files[f := files[f].(unlinked := true)];
      unlinkedFileLookup := unlinkedFileLookup + map h | h in files[f].handles :: f;
      owed := owed + Owing(was.t.files[f]);
      if Valid(was) && !Hazardous(was, Remove(path)) {
        StepKeeps(was, Remove(path));
      }
    }

    /** Ask for the object of a handle, with write access if wanted: the handle, and every other one of the
        same file, then stands for a writable object. */
    method GetOpenFile(handle: nat, writeSupported: bool) returns (file: Option<nat>)
      requires Sound(Contents()) && handle !in closing
      modifies this
      ensures Sound(Contents()) && closing == old(closing)
      ensures file.None? ==> Now() == old(Now()) && forall f: nat :: !ResolvesTo(Contents(), handle, f)
      ensures file.Some? ==> file.value < |files| && (writeSupported ==> files[file.value].writable)
      ensures file.Some? && !writeSupported ==> Now() == old(Now()) && ResolvesTo(Contents(), handle, file.value)
      ensures file.Some? && writeSupported ==> Upgrades(old(Now()), Now(), handle, file.value)
      ensures file.Some? && writeSupported ==> MadeWritable(old(Contents()), handle, files[file.value])
      ensures Valid(old(Now())) && UpgradeHarmless(old(Now()), handle) ==> Valid(Now())
    {
      hide Valid, TableValid, Hazardous, InStep, Sound;
      ghost var was := Now();
      var isUnlinked;
      file, isUnlinked := GetOpenFileByHandle(handle);
      if file.None? || !writeSupported {
        return;
      }
      if files[file.value].writable {
        assert UpgradesFrom(was, Now(), handle, file.value, file.value);
        WritableStays(was.t, file.value);
        return;
      }
      var f := file.value;
      UpgradedSound(was.t, handle, f);
      files := files + [files[f].(writable := true)];
      if isUnlinked {
        unlinkedFileLookup := unlinkedFileLookup + map h | h in files[f].handles :: |files| - 1;
      } else {
        openFileLookup := openFileLookup[files[f].path := |files| - 1];
      }
      file := Some(|files| - 1);
      assert Contents() == Upgraded(was.t, f);
      assert UpgradesFrom(was, Now(), handle, f, file.value);
      UpgradeKeepsIfHarmless(was, handle, f);
    }
  }
}
