/**
 When the source of a removed file is deleted (file_manager.cpp:78-114): with the last close of a handle that
 stands for it, over every run in which no close is disturbed.
 */
module RemovedSources {
  import opened FileTable
  import opened HandleLifetime

  /** A new path brings a source of its own: no object of another path, no object without one, and no deleted
      file has it. */
  predicate BringsOwnSource(s: State, a: Action) {
    a.Open? && a.path !in s.t.open ==>
      && a.source !in s.t.removedSources
      && forall k :: 0 <= k < |s.t.files| && s.t.files[k].source == a.source ==>
           s.t.files[k].path == a.path && s.t.files[k].directory == a.directory && !s.t.files[k].unlinked
  }

  predicate SameSource(t: Table, j: nat, k: nat) {
    j < |t.files| && k < |t.files| && t.files[j].source == t.files[k].source
  }

  ghost predicate OnePathEach(t: Table) {
    forall j: nat, k: nat :: SameSource(t, j, k) ==>
      t.files[j].path == t.files[k].path && t.files[j].directory == t.files[k].directory
  }

  /** The source of an open path is not the source of an object without a path. */
  ghost predicate LinkedSources(t: Table) {
    forall p, j: nat :: p in t.open && SameSource(t, j, t.open[p]) ==> !t.files[j].unlinked
  }

  /** Where an object of the next state comes from. */
  function FileBefore(s: State, a: Action, k: nat): nat {
    if a.Upgrade? && k == |s.t.files| then a.file else k
  }

  predicate IsNew(s: State, a: Action, k: nat) {
    a.Open? && a.path !in s.t.open && k == |s.t.files|
  }

  predicate Unlinks(s: State, a: Action, k: nat) {
    a.Remove? && a.path in s.t.open && s.t.open[a.path] == k
  }

  lemma FilesCome(s: State, a: Action, k: nat)
    requires Enabled(s, a) && k < |Do(s, a).t.files|
    ensures var f := Do(s, a).t.files[k];
            if IsNew(s, a, k) then f.source == a.source && f.path == a.path && f.directory == a.directory && !f.unlinked
            else var j := FileBefore(s, a, k);
                 && j < |s.t.files|
                 && f.source == s.t.files[j].source && f.path == s.t.files[j].path &&
                 f.directory == s.t.files[j].directory
                 && (f.unlinked <==> s.t.files[j].unlinked || Unlinks(s, a, k))
  {
  }

  lemma PathsStayApart(s: State, a: Action)
    requires OnePathEach(s.t) && Enabled(s, a) && BringsOwnSource(s, a)
    ensures OnePathEach(Do(s, a).t)
  {
    hide Do, Enabled;
    var t := Do(s, a).t;
    forall j: nat, k: nat | SameSource(t, j, k)
      ensures t.files[j].path == t.files[k].path && t.files[j].directory == t.files[k].directory
    {
      FilesCome(s, a, j);
      FilesCome(s, a, k);
      assert IsNew(s, a, j) || IsNew(s, a, k) || SameSource(s.t, FileBefore(s, a, j), FileBefore(s, a, k));
    }
  }

  lemma OpenPathsCome(s: State, a: Action, p: string)
    requires PathsValid(s.t) && Enabled(s, a) && p in Do(s, a).t.open
    requires a.Upgrade? && !s.t.files[a.file].unlinked ==> Linked(s.t, a.file)
    ensures var k := Do(s, a).t.open[p];
            IsNew(s, a, k) || (p in s.t.open && s.t.open[p] == FileBefore(s, a, k) && !Unlinks(s, a, k))
  {
  }

  predicate Linked(t: Table, f: nat) {
    f < |t.files| && t.files[f].path in t.open && t.open[t.files[f].path] == f
  }

  lemma LinksStayApart(s: State, a: Action)
    requires PathsValid(s.t) && OnePathEach(s.t) && LinkedSources(s.t) && Enabled(s, a) && BringsOwnSource(s, a)
    requires a.Upgrade? && !s.t.files[a.file].unlinked ==> Linked(s.t, a.file)
    ensures LinkedSources(Do(s, a).t)
  {
    hide Do, Enabled;
    var t := Do(s, a).t;
    forall p, j: nat | p in t.open && SameSource(t, j, t.open[p])
      ensures !t.files[j].unlinked
    {
      var k := t.open[p];
      FilesCome(s, a, j);
      FilesCome(s, a, k);
      OpenPathsCome(s, a, p);
      assert IsNew(s, a, j) || IsNew(s, a, k) || SameSource(s.t, FileBefore(s, a, j), FileBefore(s, a, k));
    }
  }

  predicate GetsNew(s: State, a: Action, h: nat, k: nat)
    requires Enabled(s, a)
  {
    a.Open? && h == s.t.nextHandle + 1 && k == Do(s, a).t.open[a.path]
  }

  /** Where a handle of the next state comes from. */
  lemma HandlesCome(s: State, a: Action, h: nat, k: nat)
    requires TableValid(s.t, Erased(s)) && Enabled(s, a) && Expected(s, a) && Has(Do(s, a).t, h, k)
    ensures k < |Do(s, a).t.files|
    ensures GetsNew(s, a, h, k) ||
            (Has(s.t, h, FileBefore(s, a, k)) && h !in Erases(a) && FileAfter(s, a, FileBefore(s, a, k)) == k &&
             !IsNew(s, a, k))
  {
    hide Holds, Orphaned, TableValid, Opened, Removed, Upgraded, CloseFinished;
    var e := Erased(s);
    NotYetThere(s.t);
    NotYetThere(Do(s, a).t);
    match a
    case Open(path, source, writable, directory) =>
      OpenKeeps(s.t, e, path, source, writable, directory);
    case CloseLook(_, _) =>
    case CloseErase(x) =>
      EraseKeeps(s.t, e, x, s.closing[x].file);
    case CloseFinish(x) =>
      FinishKeeps(s.t, e, x, s.closing[x].file, s.closing[x].wasUnlinked);
    case Remove(path) =>
      RemoveKeeps(s.t, e, path);
    case Upgrade(x, f) =>
      if s.t.files[f].writable {
        WritableStays(s.t, f);
      } else {
        OneFilePerHandle(s.t, e, x, f);
        UpgradeKeeps(s.t, e, x, f);
      }
    case TimeOut(path) =>
      TimeOutKeeps(s.t, e, path);
  }

  /** A linked object somebody has is the one in the table of paths. */
  lemma LinkedIfHeld(s: State, h: nat, k: nat)
    requires TableValid(s.t, Erased(s)) && Has(s.t, h, k)
    ensures k < |s.t.files| && h in s.t.files[k].handles
    ensures if s.t.files[k].unlinked then h in s.t.unlinked else Linked(s.t, k)
  {
  }

  ghost predicate HeldApart(t: Table) {
    forall h: nat, j: nat, g: nat, k: nat :: Has(t, h, j) && Has(t, g, k) && SameSource(t, j, k) ==> j == k
  }

  lemma NewIsApart(s: State, a: Action, h: nat, k: nat, g: nat, j: nat)
    requires TableValid(s.t, Erased(s)) && OnePathEach(s.t) && LinkedSources(s.t) && Enabled(s, a)
    requires BringsOwnSource(s, a) && GetsNew(s, a, h, k) && Has(s.t, g, FileBefore(s, a, j)) &&
             SameSource(Do(s, a).t, j, k)
    ensures j == k
  {
    hide TableValid, Has;
    LinkedIfHeld(s, g, j);
    TablePaths(s);
    assert Do(s, a).t.files[j].source == s.t.files[j].source;
    assert a.path in s.t.open ==> SameSource(s.t, j, k);
  }

  lemma HeldStayApart(s: State, a: Action)
    requires TableValid(s.t, Erased(s)) && OnePathEach(s.t) && LinkedSources(s.t) && HeldApart(s.t)
    requires Enabled(s, a) && Expected(s, a) && BringsOwnSource(s, a)
    ensures HeldApart(Do(s, a).t)
  {
    hide TableValid, Do, Enabled, Has, OnePathEach, LinkedSources, BringsOwnSource, GetsNew;
    var t := Do(s, a).t;
    forall h: nat, j: nat, g: nat, k: nat | Has(t, h, j) && Has(t, g, k) && SameSource(t, j, k)
      ensures j == k
    {
      HandlesCome(s, a, h, j);
      HandlesCome(s, a, g, k);
      FilesCome(s, a, j);
      FilesCome(s, a, k);
      if GetsNew(s, a, h, j) && GetsNew(s, a, g, k) {
        SameNew(s, a, h, j, g, k);
      } else if GetsNew(s, a, h, j) {
        NewIsApart(s, a, h, j, g, k);
      } else if GetsNew(s, a, g, k) {
        NewIsApart(s, a, g, k, h, j);
      } else {
        assert SameSource(s.t, FileBefore(s, a, j), FileBefore(s, a, k));
      }
    }
  }

  lemma SameNew(s: State, a: Action, h: nat, j: nat, g: nat, k: nat)
    requires Enabled(s, a) && GetsNew(s, a, h, j) && GetsNew(s, a, g, k)
    ensures j == k
  {
  }

  /** No source that an object in the tables has is deleted. */
  ghost predicate SourcesKept(t: Table) {
    && (forall h: nat, k: nat :: Has(t, h, k) && k < |t.files| ==> t.files[k].source !in t.removedSources)
    && (forall p :: p in t.open && t.open[p] < |t.files| ==> t.files[t.open[p]].source !in t.removedSources)
  }

  /** Whoever has the source of a file whose close is about to be finished is known to the object closed. */
  ghost predicate LastKnown(s: State, x: nat)
    requires x in s.closing
  {
    && s.closing[x].file < |s.t.files| && s.t.files[s.closing[x].file].unlinked
    && forall g: nat, k: nat :: Has(s.t, g, k) && SameSource(s.t, k, s.closing[x].file) ==>
         g in s.t.files[s.closing[x].file].handles
  }

  predicate Finishing(s: State, x: nat) {
    x in s.closing && s.closing[x].erased && s.closing[x].wasUnlinked
  }

  ghost predicate ClosersKnow(s: State) {
    forall x :: Finishing(s, x) ==> LastKnown(s, x)
  }

  /** The step ends the last close of a removed file with this source. */
  predicate Deletes(s: State, a: Action, source: string) {
    && a.CloseFinish? && Finishing(s, a.handle) && s.closing[a.handle].file < |s.t.files|
    && s.t.files[s.closing[a.handle].file].handles == {} && source == s.t.files[s.closing[a.handle].file].source
  }

  lemma RemovedComes(s: State, a: Action, source: string)
    requires Enabled(s, a) && source in Do(s, a).t.removedSources
    ensures source in s.t.removedSources || Deletes(s, a, source)
  {
  }

  lemma HeldSourceKept(s: State, a: Action, h: nat, k: nat)
    requires TableValid(s.t, Erased(s)) && SourcesKept(s.t) && ClosersKnow(s)
    requires Enabled(s, a) && Has(s.t, h, k) && k < |s.t.files|
    ensures s.t.files[k].source !in Do(s, a).t.removedSources
  {
    hide TableValid, Has, Do;
    if a.CloseFinish? && Finishing(s, a.handle) && LastKnown(s, a.handle) {
      assert SameSource(s.t, k, s.closing[a.handle].file) ==> h in s.t.files[s.closing[a.handle].file].handles;
    }
    forall source | source in Do(s, a).t.removedSources
      ensures source in s.t.removedSources || Deletes(s, a, source)
    {
      RemovedComes(s, a, source);
    }
  }

  lemma OpenSourceKept(s: State, a: Action, p: string)
    requires PathsValid(s.t) && LinkedSources(s.t) && SourcesKept(s.t) && ClosersKnow(s) && Enabled(s, a) &&
             p in s.t.open
    ensures s.t.files[s.t.open[p]].source !in Do(s, a).t.removedSources
  {
    hide Has, Do;
    if a.CloseFinish? && Finishing(s, a.handle) && LastKnown(s, a.handle) {
      assert !SameSource(s.t, s.closing[a.handle].file, s.t.open[p]);
    }
    forall source | source in Do(s, a).t.removedSources
      ensures source in s.t.removedSources || Deletes(s, a, source)
    {
      RemovedComes(s, a, source);
    }
  }

  predicate UpgradesLinked(s: State, a: Action)
    requires Enabled(s, a)
  {
    a.Upgrade? && !s.t.files[a.file].unlinked ==> Linked(s.t, a.file)
  }

  lemma HeldStayKept(s: State, a: Action, h: nat, k: nat)
    requires TableValid(s.t, Erased(s)) && LinkedSources(s.t) && SourcesKept(s.t) && ClosersKnow(s)
    requires Enabled(s, a) && Expected(s, a) && BringsOwnSource(s, a) && UpgradesLinked(s, a)
    requires Has(Do(s, a).t, h, k) && k < |Do(s, a).t.files|
    ensures Do(s, a).t.files[k].source !in Do(s, a).t.removedSources
  {
    hide TableValid, Do, Enabled, Has, LinkedSources, SourcesKept, ClosersKnow, IsNew, GetsNew;
    TablePaths(s);
    HandlesCome(s, a, h, k);
    if GetsNew(s, a, h, k) {
      NewIsOpen(s, a, h, k);
      OpenPathKept(s, a, a.path);
    } else {
      FilesCome(s, a, k);
      HeldSourceKept(s, a, h, FileBefore(s, a, k));
    }
  }

  lemma SourcesStayKept(s: State, a: Action)
    requires TableValid(s.t, Erased(s)) && LinkedSources(s.t) && SourcesKept(s.t) && ClosersKnow(s)
    requires Enabled(s, a) && Expected(s, a) && BringsOwnSource(s, a) && UpgradesLinked(s, a)
    ensures SourcesKept(Do(s, a).t)
  {
    hide TableValid, Do, Enabled, Has, LinkedSources, ClosersKnow;
    var t := Do(s, a).t;
    TablePaths(s);
    forall h: nat, k: nat | Has(t, h, k) && k < |t.files|
      ensures t.files[k].source !in t.removedSources
    {
      HeldStayKept(s, a, h, k);
    }
    forall p | p in t.open && t.open[p] < |t.files|
      ensures t.files[t.open[p]].source !in t.removedSources
    {
      OpenPathKept(s, a, p);
    }
  }

  lemma NewIsOpen(s: State, a: Action, h: nat, k: nat)
    requires Enabled(s, a) && GetsNew(s, a, h, k)
    ensures a.Open? && a.path in Do(s, a).t.open && k == Do(s, a).t.open[a.path] && k < |Do(s, a).t.files|
  {
  }

  lemma OpenPathKept(s: State, a: Action, p: string)
    requires PathsValid(s.t) && LinkedSources(s.t) && SourcesKept(s.t) && ClosersKnow(s) && Enabled(s, a)
    requires BringsOwnSource(s, a) && UpgradesLinked(s, a) && p in Do(s, a).t.open
    ensures var t := Do(s, a).t; t.open[p] < |t.files| ==> t.files[t.open[p]].source !in t.removedSources
  {
    hide Do, Enabled, Has, LinkedSources, SourcesKept, ClosersKnow;
    var t := Do(s, a).t;
    var k := t.open[p];
    if k < |t.files| {
      OpenPathsCome(s, a, p);
      FilesCome(s, a, k);
      if IsNew(s, a, k) {
        NothingRemoved(s, a);
      } else {
        OpenSourceKept(s, a, p);
      }
    }
  }

  lemma NothingRemoved(s: State, a: Action)
    requires Enabled(s, a) && !a.CloseFinish?
    ensures Do(s, a).t.removedSources == s.t.removedSources
  {
  }

  lemma HandlesOf(s: State, a: Action, f: nat)
    requires PathsValid(s.t) && Enabled(s, a) && f < |s.t.files|
    ensures f < |Do(s, a).t.files| && s.t.files[f].handles - Erases(a) <= Do(s, a).t.files[f].handles
    ensures s.t.files[f].unlinked ==>
              Do(s, a).t.files[f].unlinked && Do(s, a).t.files[f].handles <= s.t.files[f].handles
    ensures Do(s, a).t.files[f].source == s.t.files[f].source
  {
  }

  /** A new handle is not on the source of an object without a path. */
  lemma NewIsNotUnlinked(s: State, a: Action, h: nat, k: nat, f: nat)
    requires PathsValid(s.t) && LinkedSources(s.t) && Enabled(s, a) && BringsOwnSource(s, a) && GetsNew(s, a, h, k)
    requires f < |s.t.files| && s.t.files[f].unlinked
    ensures !SameSource(Do(s, a).t, k, f)
  {
    assert Do(s, a).t.files[f].source == s.t.files[f].source;
    if a.path in s.t.open {
      assert !SameSource(s.t, f, k);
    }
  }

  lemma StaysKnown(s: State, a: Action, x: nat)
    requires TableValid(s.t, Erased(s)) && LinkedSources(s.t) && Enabled(s, a) && Expected(s, a) &&
             BringsOwnSource(s, a)
    requires Finishing(s, x) && LastKnown(s, x) && x in Do(s, a).closing && Do(s, a).closing[x] == s.closing[x]
    ensures LastKnown(Do(s, a), x)
  {
    hide TableValid, Has, Enabled, Do, LinkedSources, BringsOwnSource, GetsNew;
    var f, t := s.closing[x].file, Do(s, a).t;
    TablePaths(s);
    HandlesOf(s, a, f);
    forall g: nat, k: nat | Has(t, g, k) && SameSource(t, k, f)
      ensures g in t.files[f].handles
    {
      HandlesCome(s, a, g, k);
      FilesCome(s, a, k);
      if GetsNew(s, a, g, k) {
        NewIsNotUnlinked(s, a, g, k, f);
      } else {
        assert SameSource(s.t, FileBefore(s, a, k), f);
      }
    }
  }

  lemma BecomesKnown(s: State, h: nat)
    requires TableValid(s.t, Erased(s)) && HeldApart(s.t) && Enabled(s, CloseErase(h)) && Current(s, h)
    requires s.closing[h].wasUnlinked
    ensures LastKnown(Do(s, CloseErase(h)), h)
  {
    hide TableValid, Has;
    var a, f := CloseErase(h), s.closing[h].file;
    var t := Do(s, a).t;
    LinkedIfHeld(s, h, f);
    LinkedIfListed(s, h, f);
    forall g: nat, k: nat | Has(t, g, k) && SameSource(t, k, f)
      ensures g in t.files[f].handles
    {
      HandlesCome(s, a, g, k);
      assert SameSource(s.t, k, f);
      LinkedIfHeld(s, g, f);
    }
  }

  lemma LinkedIfListed(s: State, h: nat, f: nat)
    requires TableValid(s.t, Erased(s)) && Has(s.t, h, f) && h in s.t.unlinked
    ensures f < |s.t.files| && s.t.files[f].unlinked
  {
  }

  lemma ClosersStillKnow(s: State, a: Action)
    requires Valid(s) && LinkedSources(s.t) && HeldApart(s.t) && ClosersKnow(s)
    requires Enabled(s, a) && BringsOwnSource(s, a)
    ensures ClosersKnow(Do(s, a))
  {
    hide TableValid, Has, LastKnown, LinkedSources, HeldApart, BringsOwnSource, Opened, Removed, Upgraded,
         CloseFinished;
    forall x | Finishing(Do(s, a), x)
      ensures LastKnown(Do(s, a), x)
    {
      if a == CloseErase(x) {
        BecomesKnown(s, x);
      } else {
        assert Finishing(s, x) && Do(s, a).closing[x] == s.closing[x];
        StaysKnown(s, a, x);
      }
    }
  }

  predicate UnlinkedWith(t: Table, k: nat, source: string) {
    k < |t.files| && t.files[k].unlinked && t.files[k].source == source
  }

  /** A removed file that was open: it has lost its path, and it is not a directory. */
  ghost predicate OwedValid(s: State) {
    forall source :: source in s.owed ==>
      && (exists k: nat :: UnlinkedWith(s.t, k, source))
      && (forall k :: 0 <= k < |s.t.files| && s.t.files[k].source == source ==> !s.t.files[k].directory)
  }

  predicate HeldWith(t: Table, h: nat, k: nat, source: string) {
    Has(t, h, k) && UnlinkedWith(t, k, source)
  }

  /** The close of the last handle has erased it and is about to delete the source. */
  predicate LastCloseOf(s: State, x: nat, source: string) {
    Finishing(s, x) && UnlinkedWith(s.t, s.closing[x].file, source) && s.t.files[s.closing[x].file].handles == {}
  }

  ghost predicate Held(t: Table, source: string) {
    exists h: nat, k: nat :: HeldWith(t, h, k, source)
  }

  ghost predicate AwaitsLastClose(s: State, source: string) {
    exists x :: LastCloseOf(s, x, source)
  }

  ghost predicate OwedMet(s: State) {
    forall source :: source in s.owed ==>
      source in s.t.removedSources || Held(s.t, source) || AwaitsLastClose(s, source)
  }

  lemma OwedComes(s: State, a: Action, source: string) returns (h: nat, k: nat)
    requires TableValid(s.t, Erased(s)) && Enabled(s, a) && source in Do(s, a).owed
    ensures source in s.owed || (Unlinks(s, a, k) && Has(s.t, h, k) && UnlinkedWith(Do(s, a).t, k, source) &&
                                 !s.t.files[k].directory && s.t.files[k].source == source)
  {
    h, k := 0, 0;
    if source !in s.owed {
      k := s.t.open[a.path];
      h :| h in s.t.files[k].handles;
      HeldByPath(s, h, a.path);
    }
  }

  lemma UnlinkedStays(s: State, a: Action, k: nat, source: string)
    requires Enabled(s, a) && UnlinkedWith(s.t, k, source)
    ensures UnlinkedWith(Do(s, a).t, k, source) && UnlinkedWith(Do(s, a).t, FileAfter(s, a, k), source)
  {
  }

  lemma OwedStaysValid(s: State, a: Action)
    requires TableValid(s.t, Erased(s)) && OnePathEach(s.t) && OwedValid(s) && Enabled(s, a) && BringsOwnSource(s, a)
    ensures OwedValid(Do(s, a))
  {
    hide TableValid, Do, Enabled, Has;
    var t := Do(s, a).t;
    forall source | source in Do(s, a).owed
      ensures exists k: nat :: UnlinkedWith(t, k, source)
      ensures forall k :: 0 <= k < |t.files| && t.files[k].source == source ==> !t.files[k].directory
    {
      var _, u := OwedComes(s, a, source);
      if source in s.owed {
        var j: nat :| UnlinkedWith(s.t, j, source);
        UnlinkedStays(s, a, j, source);
        u := j;
      }
      assert UnlinkedWith(t, u, source);
      forall k | 0 <= k < |t.files| && t.files[k].source == source
        ensures !t.files[k].directory
      {
        FilesCome(s, a, k);
        FilesCome(s, a, u);
        assert IsNew(s, a, k) || SameSource(s.t, FileBefore(s, a, k), FileBefore(s, a, u));
      }
    }
  }

  /** When the handle of an unlinked object is erased, either another one is left or it was the last one. */
  lemma ErasedMet(s: State, h: nat, k: nat, source: string)
    requires TableValid(s.t, Erased(s)) && Enabled(s, CloseErase(h)) && Current(s, h) && HeldWith(s.t, h, k, source)
    ensures var r := Do(s, CloseErase(h)); Held(r.t, source) || AwaitsLastClose(r, source)
  {
    hide TableValid, Has;
    var r := Do(s, CloseErase(h));
    ExclusiveHandle(s, h, k);
    LinkedIfHeld(s, h, k);
    if r.t.files[k].handles == {} {
      assert LastCloseOf(r, h, source);
    } else {
      var g :| g in r.t.files[k].handles;
      HeldTogether(s, h, g, k);
      EraseKeeps(s.t, Erased(s), h, k);
      assert HeldWith(r.t, g, k, source);
    }
  }

  lemma HeldTogether(s: State, h: nat, g: nat, k: nat)
    requires TableValid(s.t, Erased(s)) && Has(s.t, h, k) && g in s.t.files[k].handles
    ensures Has(s.t, g, k)
  {
  }

  lemma LastCloseDeletes(s: State, x: nat, source: string)
    requires Enabled(s, CloseFinish(x)) && LastCloseOf(s, x, source) && !s.t.files[s.closing[x].file].directory
    ensures source in Do(s, CloseFinish(x)).t.removedSources
  {
  }

  lemma LastCloseStays(s: State, a: Action, x: nat, source: string)
    requires PathsValid(s.t) && Enabled(s, a) && LastCloseOf(s, x, source) && a != CloseFinish(x)
    ensures LastCloseOf(Do(s, a), x, source)
  {
    HandlesOf(s, a, s.closing[x].file);
  }

  lemma RemovedGrows(s: State, a: Action)
    requires Enabled(s, a)
    ensures s.t.removedSources <= Do(s, a).t.removedSources
  {
  }

  lemma OwedStaysMet(s: State, a: Action)
    requires Valid(s) && OwedValid(s) && OwedMet(s) && Enabled(s, a)
    ensures OwedMet(Do(s, a))
  {
    hide TableValid, Do, Enabled, Has, InStep, LastCloseOf, UnlinkedWith;
    var r := Do(s, a);
    InStepIfNeeded(s, a);
    TableStep(s, a);
    TablePaths(s);
    RemovedGrows(s, a);
    forall source | source in r.owed
      ensures source in r.t.removedSources || Held(r.t, source) || AwaitsLastClose(r, source)
    {
      var h, k := OwedComes(s, a, source);
      if source !in s.owed {
        assert HeldWith(r.t, h, k, source);
      } else if Held(s.t, source) {
        var h: nat, k: nat :| HeldWith(s.t, h, k, source);
        HeldStays(s, a, h, k, source);
      } else if AwaitsLastClose(s, source) {
        var x :| LastCloseOf(s, x, source);
        LastCloseStaysMet(s, a, x, source);
      }
    }
  }

  lemma InStepIfNeeded(s: State, a: Action)
    requires Valid(s) && Enabled(s, a)
    ensures Expected(s, a) && (a.CloseErase? ==> Current(s, a.handle))
  {
  }

  lemma HeldStays(s: State, a: Action, h: nat, k: nat, source: string)
    requires Valid(s) && Enabled(s, a) && HeldWith(s.t, h, k, source)
    ensures Held(Do(s, a).t, source) || AwaitsLastClose(Do(s, a), source)
  {
    hide TableValid, Do, Enabled, Has, InStep, UnlinkedWith;
    InStepIfNeeded(s, a);
    if a == CloseErase(h) {
      ErasedMet(s, h, k, source);
    } else {
      TableStep(s, a);
      UnlinkedStays(s, a, k, source);
      assert HeldWith(Do(s, a).t, h, FileAfter(s, a, k), source);
    }
  }

  lemma LastCloseStaysMet(s: State, a: Action, x: nat, source: string)
    requires Valid(s) && OwedValid(s) && source in s.owed && Enabled(s, a) && LastCloseOf(s, x, source)
    ensures source in Do(s, a).t.removedSources || AwaitsLastClose(Do(s, a), source)
  {
    hide TableValid, Do, Has, InStep;
    if a == CloseFinish(x) {
      LastCloseDeletes(s, x, source);
    } else {
      TablePaths(s);
      LastCloseStays(s, a, x, source);
    }
  }

  // ---- the source goes with the last handle ----

  ghost predicate SourcesValid(s: State) {
    && OnePathEach(s.t) && LinkedSources(s.t) && HeldApart(s.t) && SourcesKept(s.t)
    && ClosersKnow(s) && OwedValid(s) && OwedMet(s)
  }

  lemma UpgradeIsLinked(s: State, a: Action)
    requires TableValid(s.t, Erased(s)) && Enabled(s, a)
    ensures UpgradesLinked(s, a)
  {
    if a.Upgrade? {
      OneFilePerHandle(s.t, Erased(s), a.handle, a.file);
    }
  }

  lemma StepKeepsSources(s: State, a: Action)
    requires Valid(s) && SourcesValid(s) && Enabled(s, a) && BringsOwnSource(s, a)
    ensures SourcesValid(Do(s, a))
  {
    hide TableValid, Do, Enabled, Has, InStep, OnePathEach, LinkedSources, HeldApart, SourcesKept, ClosersKnow,
         OwedValid, OwedMet, BringsOwnSource;
    InStepIfNeeded(s, a);
    TablePaths(s);
    UpgradeIsLinked(s, a);
    PathsStayApart(s, a);
    LinksStayApart(s, a);
    HeldStayApart(s, a);
    SourcesStayKept(s, a);
    ClosersStillKnow(s, a);
    OwedStaysValid(s, a);
    OwedStaysMet(s, a);
  }

  ghost predicate BringOwnSources(s: State, actions: seq<Action>)
    requires IsRun(s, actions)
    decreases |actions|
  {
    actions == [] || (BringsOwnSource(s, actions[0]) && BringOwnSources(Do(s, actions[0]), actions[1..]))
  }

  lemma {:induction false} RunKeepsSources(s: State, actions: seq<Action>)
    requires Valid(s) && SourcesValid(s) && IsRun(s, actions) && Undisturbed(s, actions) && BringOwnSources(s, actions)
    ensures Valid(DoAll(s, actions)) && SourcesValid(DoAll(s, actions))
    decreases |actions|
  {
    hide Valid, SourcesValid, Do;
    if actions != [] {
      StepKeeps(s, actions[0]);
      StepKeepsSources(s, actions[0]);
      RunKeepsSources(Do(s, actions[0]), actions[1..]);
    }
  }

  const FRESH := State(Table([], map[], map[], 0, {}), map[], {})

  lemma FreshValid()
    ensures Valid(FRESH) && SourcesValid(FRESH)
  {
  }

  /** In every run from the start in which no close is disturbed: a source somebody has open is there, and the
      source of a file that was removed while open is deleted exactly if no handle leads to an object with that
      source any more, unless the last close has erased its handle and is about to delete it. */
  lemma SourceGoesWithLastHandle(actions: seq<Action>, source: string)
    requires IsRun(FRESH, actions) && Undisturbed(FRESH, actions) && BringOwnSources(FRESH, actions)
    ensures var r := DoAll(FRESH, actions);
            forall h: nat, k: nat :: ResolvesTo(r.t, h, k) && h !in r.closing ==>
              k < |r.t.files| && r.t.files[k].source !in r.t.removedSources
    ensures var r := DoAll(FRESH, actions);
            source in r.owed && !AwaitsLastClose(r, source) ==> (source in r.t.removedSources <==> !Held(r.t, source))
    ensures DoAll(FRESH, actions).closing == map[] ==> !AwaitsLastClose(DoAll(FRESH, actions), source)
  {
    FreshValid();
    RunKeepsSources(FRESH, actions);
    var r := DoAll(FRESH, actions);
    forall h: nat, k: nat | ResolvesTo(r.t, h, k) && h !in r.closing
      ensures k < |r.t.files| && r.t.files[k].source !in r.t.removedSources
    {
      OneFilePerHandle(r.t, Erased(r), h, k);
    }
  }

  /** The step takes the path from a file somebody has open. */
  predicate RemovesOpen(s: State, a: Action, source: string)
    requires Enabled(s, a)
  {
    && a.Remove?
    && var file := s.t.files[s.t.open[a.path]];
       file.handles != {} && !file.directory && file.source == source
  }

  predicate SometimeRemovesOpen(s: State, actions: seq<Action>, source: string)
    requires IsRun(s, actions)
    decreases |actions|
  {
    && actions != []
    && (RemovesOpen(s, actions[0], source) || SometimeRemovesOpen(Do(s, actions[0]), actions[1..], source))
  }

  /** The sources of which `SourceGoesWithLastHandle` speaks: those of every file removed while open. */
  lemma {:induction false} OwedExactly(s: State, actions: seq<Action>, source: string)
    requires IsRun(s, actions)
    ensures source in DoAll(s, actions).owed <==> source in s.owed || SometimeRemovesOpen(s, actions, source)
    decreases |actions|
  {
    if actions != [] {
      OwedExactly(Do(s, actions[0]), actions[1..], source);
    }
  }

  predicate FileUnlinkedWith(t: Table, k: nat, source: string) {
    UnlinkedWith(t, k, source) && !t.files[k].directory
  }

  ghost predicate OnlyFilesRemoved(t: Table) {
    forall source :: source in t.removedSources ==> exists k: nat :: FileUnlinkedWith(t, k, source)
  }

  lemma StepRemovesFiles(s: State, a: Action)
    requires Enabled(s, a) && OnlyFilesRemoved(s.t) && ClosersKnow(s)
    ensures OnlyFilesRemoved(Do(s, a).t)
  {
    hide Do, Enabled, Has;
    forall source | source in Do(s, a).t.removedSources
      ensures exists k: nat :: FileUnlinkedWith(Do(s, a).t, k, source)
    {
      var k: nat;
      if source in s.t.removedSources {
        k :| FileUnlinkedWith(s.t, k, source);
      } else {
        k := DeletedFile(s, a, source);
      }
      FileUnlinkedStays(s, a, k, source);
    }
  }

  lemma DeletedFile(s: State, a: Action, source: string) returns (k: nat)
    requires Enabled(s, a) && ClosersKnow(s) && source in Do(s, a).t.removedSources - s.t.removedSources
    ensures FileUnlinkedWith(s.t, k, source)
  {
    hide Has;
    k := s.closing[a.handle].file;
    assert Finishing(s, a.handle);
  }

  lemma FileUnlinkedStays(s: State, a: Action, k: nat, source: string)
    requires Enabled(s, a) && FileUnlinkedWith(s.t, k, source)
    ensures FileUnlinkedWith(Do(s, a).t, k, source)
  {
  }

  lemma {:induction false} RunRemovesFiles(s: State, actions: seq<Action>)
    requires Valid(s) && SourcesValid(s) && OnlyFilesRemoved(s.t)
    requires IsRun(s, actions) && Undisturbed(s, actions) && BringOwnSources(s, actions)
    ensures OnlyFilesRemoved(DoAll(s, actions).t)
    decreases |actions|
  {
    hide Valid, OnePathEach, LinkedSources, HeldApart, SourcesKept, ClosersKnow, OwedValid, OwedMet, OnlyFilesRemoved,
         Do;
    if actions != [] {
      StepKeeps(s, actions[0]);
      StepKeepsSources(s, actions[0]);
      StepRemovesFiles(s, actions[0]);
      RunRemovesFiles(Do(s, actions[0]), actions[1..]);
    }
  }

  /** No directory and no open path ever loses its source: what has been deleted is the source of no directory
      object, and an object without a path had it. */
  lemma DirectoriesStay(actions: seq<Action>, k: nat)
    requires IsRun(FRESH, actions) && Undisturbed(FRESH, actions) && BringOwnSources(FRESH, actions)
    requires k < |DoAll(FRESH, actions).t.files|
    ensures var t := DoAll(FRESH, actions).t;
            t.files[k].source in t.removedSources ==>
              !t.files[k].directory && exists j: nat :: FileUnlinkedWith(t, j, t.files[k].source)
  {
    FreshValid();
    RunKeepsSources(FRESH, actions);
    RunRemovesFiles(FRESH, actions);
    var t := DoAll(FRESH, actions).t;
    if t.files[k].source in t.removedSources {
      var j: nat :| FileUnlinkedWith(t, j, t.files[k].source);
      assert SameSource(t, j, k);
    }
  }

  /** A path removed while its object is cached without handles leaves its source behind: no handle leads to
      the object any more. With handles, each of them still does. */
  lemma RemovedWithoutHandles(t: Table, erased: set<nat>, path: string)
    requires TableValid(t, erased) && path in t.open
    ensures var r, f := Removed(t, path), t.open[path];
            && r.removedSources == t.removedSources
            && forall h: nat :: ResolvesTo(r, h, f) <==> h in t.files[f].handles
  {
    RemoveKeeps(t, erased, path);
    assert forall h: nat :: h in t.files[t.open[path]].handles <==> Holds(t, h, t.open[path]);
  }
}
