/**
 The life of a handle in `file_manager`, from its open to its close, under the steps of other threads. A close
 takes `open_file_mtx_` twice and erases its handle in between (file_manager.cpp:78-114), so it is three steps:
 look up, erase, finish. Removals, upgrades and other closes may fall between them.
 */
module HandleLifetime {
  import opened FileTable

  /** A close after its look-up: what `get_open_file_by_handle` answered, and whether the handle is erased. */
  datatype Pending = Pending(file: nat, wasUnlinked: bool, erased: bool)

  /** `owed` lists the sources of files that were removed while somebody had them open. */
  datatype State = State(t: Table, closing: map<nat, Pending>, owed: set<string>)

  datatype Action =
    | Open(path: string, source: string, writable: bool, directory: bool)
    | CloseLook(handle: nat, file: nat)
    | CloseErase(handle: nat)
    | CloseFinish(handle: nat)
    | Remove(path: string)
    | Upgrade(handle: nat, file: nat)
    | TimeOut(path: string)

  /** A handle is closed once, and nothing else is asked of it from then on. */
  predicate Enabled(s: State, a: Action) {
    match a
    case Open(path, _, _, _) => path in s.t.open ==> s.t.open[path] < |s.t.files|
    case CloseLook(h, f) => h !in s.closing && f < |s.t.files| && ResolvesTo(s.t, h, f)
    case CloseErase(h) => h in s.closing && !s.closing[h].erased && s.closing[h].file < |s.t.files|
    case CloseFinish(h) => h in s.closing && s.closing[h].erased && s.closing[h].file < |s.t.files|
    case Remove(path) => path in s.t.open && s.t.open[path] < |s.t.files|
    case Upgrade(h, f) => h !in s.closing && f < |s.t.files| && ResolvesTo(s.t, h, f)
    case TimeOut(_) => true
  }

  function Do(s: State, a: Action): State
    requires Enabled(s, a)
  {
    match a
    case Open(path, source, writable, directory) => s.(t := Opened(s.t, path, source, writable, directory))
    case CloseLook(h, f) => s.(closing := s.closing[h := Pending(f, h in s.t.unlinked, false)])
    case CloseErase(h) =>
      s.(t := HandleErased(s.t, s.closing[h].file, h), closing := s.closing[h := s.closing[h].(erased := true)])
    case CloseFinish(h) =>
      s.(t := CloseFinished(s.t, s.closing[h].file, h, s.closing[h].wasUnlinked), closing := s.closing - {h})
    case Remove(path) => s.(t := Removed(s.t, path), owed := s.owed + Owing(s.t.files[s.t.open[path]]))
    case Upgrade(_, f) => s.(t := Upgraded(s.t, f))
    case TimeOut(path) => s.(t := TimedOut(s.t, path))
  }

  function Owing(file: File): set<string> {
    if file.handles != {} && !file.directory then {file.source} else {}
  }

  function Erased(s: State): set<nat> {
    set h | h in s.closing && s.closing[h].erased
  }

  /** The answer of the look-up still stands when the handle is about to be erased. */
  predicate Current(s: State, h: nat)
    requires h in s.closing
  {
    Has(s.t, h, s.closing[h].file) && (s.closing[h].wasUnlinked <==> h in s.t.unlinked)
  }

  predicate InStep(s: State, h: nat)
    requires h in s.closing
  {
    if s.closing[h].erased then s.closing[h].file < |s.t.files| && (h in s.t.unlinked ==> s.closing[h].wasUnlinked)
    else Current(s, h)
  }

  ghost predicate Valid(s: State) {
    TableValid(s.t, Erased(s)) && forall h :: h in s.closing ==> InStep(s, h)
  }

  /** The removal of the object, or its replacement by a writable one, after `close` has looked the handle `h`
      up and before the handle is erased. */
  predicate Hazard(s: State, a: Action, h: nat) {
    && h in s.closing && !s.closing[h].erased
    && match a
       case Remove(path) => path in s.t.open && s.t.open[path] == s.closing[h].file
       case Upgrade(_, f) => f == s.closing[h].file && f < |s.t.files| && !s.t.files[f].writable
       case _ => false
  }

  ghost predicate Hazardous(s: State, a: Action) {
    exists h :: Hazard(s, a, h)
  }

  /** The object a handle stands for after an action. */
  function FileAfter(s: State, a: Action, f: nat): nat {
    if a.Upgrade? && a.file == f && f < |s.t.files| && !s.t.files[f].writable then |s.t.files| else f
  }

  function Erases(a: Action): set<nat> {
    if a.CloseErase? then {a.handle} else {}
  }

  /** The step meets the table as the partition expects it. */
  predicate Expected(s: State, a: Action) {
    (a.CloseErase? || a.CloseFinish?) && a.handle in s.closing ==> InStep(s, a.handle)
  }

  /** What a step does to the partition: the handles stay where they are, except the new and the erased one. */
  lemma TableStep(s: State, a: Action)
    requires TableValid(s.t, Erased(s)) && Enabled(s, a) && Expected(s, a)
    ensures TableValid(Do(s, a).t, Erased(Do(s, a)))
    ensures forall h: nat, f: nat :: Has(s.t, h, f) && h !in Erases(a) ==> Has(Do(s, a).t, h, FileAfter(s, a, f))
    ensures forall h: nat :: h <= s.t.nextHandle && h in Do(s, a).t.unlinked && h !in s.t.unlinked ==>
              a.Remove? && Holds(s.t, h, s.t.open[a.path])
    ensures forall h: nat :: h in s.t.unlinked && h !in Do(s, a).t.unlinked ==> a == CloseFinish(h)
  {
    hide Holds, Orphaned, TableValid, Opened, Removed, Upgraded, CloseFinished;
    var e := Erased(s);
    match a
    case Open(path, source, writable, directory) =>
      OpenKeeps(s.t, e, path, source, writable, directory);
    case CloseLook(h, f) =>
      assert Erased(Do(s, a)) == e;
    case CloseErase(h) =>
      EraseKeeps(s.t, e, h, s.closing[h].file);
      assert Erased(Do(s, a)) == e + {h};
    case CloseFinish(h) =>
      FinishKeeps(s.t, e, h, s.closing[h].file, s.closing[h].wasUnlinked);
      assert Erased(Do(s, a)) == e - {h};
    case Remove(path) =>
      RemoveKeeps(s.t, e, path);
    case Upgrade(h, f) =>
      if s.t.files[f].writable {
        WritableStays(s.t, f);
      } else {
        OneFilePerHandle(s.t, e, h, f);
        UpgradeKeeps(s.t, e, h, f);
      }
    case TimeOut(path) =>
      TimeOutKeeps(s.t, e, path);
  }

  lemma WritableStays(t: Table, f: nat)
    requires f < |t.files| && t.files[f].writable
    ensures Upgraded(t, f) == t
  {
  }

  lemma FilesStay(s: State, a: Action, f: nat)
    requires Enabled(s, a) && PathsValid(s.t) && f < |s.t.files|
    ensures f < |Do(s, a).t.files| && FileAfter(s, a, f) < |Do(s, a).t.files|
    ensures Do(s, a).t.files[FileAfter(s, a, f)].source == s.t.files[f].source
    ensures Do(s, a).t.files[FileAfter(s, a, f)].path == s.t.files[f].path
  {
  }

  lemma FilesGrow(s: State, a: Action)
    requires Enabled(s, a)
    ensures |s.t.files| <= |Do(s, a).t.files| && s.t.nextHandle <= Do(s, a).t.nextHandle
  {
  }

  lemma ExclusiveHandle(s: State, h: nat, f: nat)
    requires TableValid(s.t, Erased(s)) && Has(s.t, h, f)
    ensures f < |s.t.files| && h <= s.t.nextHandle && !(h in s.closing && s.closing[h].erased)
    ensures forall k: nat :: Holds(s.t, h, k) ==> k == f
    ensures forall k: nat :: Has(s.t, h, k) ==> k == f
  {
    OnlyOne(s.t, Erased(s), h, f);
  }

  lemma ErasedUnheld(s: State, h: nat)
    requires TableValid(s.t, Erased(s)) && h in s.closing && s.closing[h].erased
    ensures h <= s.t.nextHandle && forall k: nat :: !Holds(s.t, h, k)
  {
    NotHeld(s.t, Erased(s), h);
  }

  /** A close under way is disturbed by nothing but its hazards. */
  lemma StaysInStep(s: State, a: Action, h: nat)
    requires TableValid(s.t, Erased(s)) && Enabled(s, a) && Expected(s, a)
    requires h in s.closing && InStep(s, h) && !Hazard(s, a, h) && a != CloseFinish(h)
    ensures h in Do(s, a).closing && InStep(Do(s, a), h)
  {
    hide TableValid, Has, Opened, Removed, Upgraded, HandleErased, CloseFinished, TimedOut;
    TableStep(s, a);
    FilesGrow(s, a);
    var p := s.closing[h];
    if p.erased {
      ErasedUnheld(s, h);
    } else {
      ExclusiveHandle(s, h, p.file);
    }
  }

  /** Every step but a hazard keeps the partition and every close under way in step with it. */
  lemma StepKeeps(s: State, a: Action)
    requires Valid(s) && Enabled(s, a) && !Hazardous(s, a)
    ensures Valid(Do(s, a))
  {
    hide TableValid, Do, Enabled, InStep, Hazard;
    TableStep(s, a);
    forall h | h in Do(s, a).closing
      ensures InStep(Do(s, a), h)
    {
      if a.CloseLook? && a.handle == h {
        LooksUp(s, a);
      } else {
        ClosesStay(s, a, h);
        StaysInStep(s, a, h);
      }
    }
  }

  lemma LooksUp(s: State, a: Action)
    requires TableValid(s.t, Erased(s)) && a.CloseLook? && Enabled(s, a)
    ensures InStep(Do(s, a), a.handle)
  {
    OneFilePerHandle(s.t, Erased(s), a.handle, a.file);
  }

  lemma ClosesStay(s: State, a: Action, h: nat)
    requires Enabled(s, a) && h in Do(s, a).closing && !(a.CloseLook? && a.handle == h)
    ensures h in s.closing && a != CloseFinish(h)
  {
  }

  predicate IsRun(s: State, actions: seq<Action>)
    decreases |actions|
  {
    actions == [] || (Enabled(s, actions[0]) && IsRun(Do(s, actions[0]), actions[1..]))
  }

  function DoAll(s: State, actions: seq<Action>): State
    requires IsRun(s, actions)
    decreases |actions|
  {
    if actions == [] then s else DoAll(Do(s, actions[0]), actions[1..])
  }

  ghost predicate Undisturbed(s: State, actions: seq<Action>)
    requires IsRun(s, actions)
    decreases |actions|
  {
    actions == [] || (!Hazardous(s, actions[0]) && Undisturbed(Do(s, actions[0]), actions[1..]))
  }

  lemma {:induction false} RunKeeps(s: State, actions: seq<Action>)
    requires Valid(s) && IsRun(s, actions) && Undisturbed(s, actions)
    ensures Valid(DoAll(s, actions))
    decreases |actions|
  {
    if actions != [] {
      StepKeeps(s, actions[0]);
      RunKeeps(Do(s, actions[0]), actions[1..]);
    }
  }

  // ---- when a close ends its handle ----

  /** The object that has the handle has given it up, and the table of unlinked handles has no entry. */
  predicate Ended(t: Table, h: nat, f: nat) {
    h !in t.unlinked && f < |t.files| && h !in t.files[f].handles
  }

  /** The look-up of the close of `h` is out of date: `g` has the handle now, or it was unlinked meanwhile. */
  predicate Stale(s: State, h: nat, g: nat) {
    && h in s.closing && !s.closing[h].erased && s.closing[h].file < |s.t.files| && Has(s.t, h, g)
    && (g != s.closing[h].file || (h in s.t.unlinked && !s.closing[h].wasUnlinked))
  }

  lemma HazardMakesStale(s: State, a: Action, h: nat)
    requires TableValid(s.t, Erased(s)) && Enabled(s, a) && h in s.closing && InStep(s, h) && Hazard(s, a, h)
    ensures Stale(Do(s, a), h, FileAfter(s, a, s.closing[h].file))
  {
    hide TableValid, Has, Opened, Upgraded, HandleErased, CloseFinished, TimedOut;
    var f := s.closing[h].file;
    TableStep(s, a);
    FilesGrow(s, a);
    ExclusiveHandle(s, h, f);
    if a.Remove? {
      LinkedIsHeld(s, h, a.path);
    }
  }

  lemma LinkedIsHeld(s: State, h: nat, path: string)
    requires TableValid(s.t, Erased(s)) && path in s.t.open && Has(s.t, h, s.t.open[path])
    ensures Holds(s.t, h, s.t.open[path]) && h !in s.t.unlinked
  {
  }

  lemma StaleStays(s: State, a: Action, h: nat, g: nat)
    requires TableValid(s.t, Erased(s)) && Enabled(s, a) && Expected(s, a)
    requires Stale(s, h, g) && a != CloseErase(h)
    ensures Stale(Do(s, a), h, FileAfter(s, a, g))
  {
    hide TableValid, Has, Opened, Removed, Upgraded, HandleErased, CloseFinished, TimedOut;
    TableStep(s, a);
    FilesGrow(s, a);
    ExclusiveHandle(s, h, g);
  }

  lemma StaleIsNotCurrent(s: State, h: nat, g: nat)
    requires TableValid(s.t, Erased(s)) && Stale(s, h, g)
    ensures !Current(s, h)
  {
    ExclusiveHandle(s, h, g);
  }

  lemma SamePending(s: State, a: Action, h: nat)
    requires Enabled(s, a) && h in s.closing && !s.closing[h].erased && a != CloseErase(h)
    ensures h in Do(s, a).closing && Do(s, a).closing[h] == s.closing[h]
    ensures Hazard(s, a, h) || FileAfter(s, a, s.closing[h].file) == s.closing[h].file
  {
  }

  predicate OthersInStep(s: State, h: nat) {
    forall k :: k in s.closing && k != h ==> InStep(s, k)
  }

  /** No close but that of `h` meets a hazard. */
  predicate OnlyDisturbs(s: State, actions: seq<Action>, h: nat)
    requires IsRun(s, actions)
    decreases |actions|
  {
    actions == [] ||
    ((forall k :: k in s.closing && k != h ==> !Hazard(s, actions[0], k)) &&
     OnlyDisturbs(Do(s, actions[0]), actions[1..], h))
  }

  predicate Disturbed(s: State, actions: seq<Action>, h: nat)
    requires IsRun(s, actions)
    decreases |actions|
  {
    actions != [] && (Hazard(s, actions[0], h) || Disturbed(Do(s, actions[0]), actions[1..], h))
  }

  lemma OthersStay(s: State, a: Action, h: nat)
    requires TableValid(s.t, Erased(s)) && Enabled(s, a) && OthersInStep(s, h) && h in s.closing && !s.closing[h].erased
    requires a != CloseErase(h)
    requires forall k :: k in s.closing && k != h ==> !Hazard(s, a, k)
    ensures Expected(s, a) && TableValid(Do(s, a).t, Erased(Do(s, a))) && OthersInStep(Do(s, a), h)
  {
    hide TableValid, Do, InStep, Hazard;
    EnabledCloses(s, a, h);
    TableStep(s, a);
    forall k | k in Do(s, a).closing && k != h
      ensures InStep(Do(s, a), k)
    {
      if a.CloseLook? && a.handle == k {
        LooksUp(s, a);
      } else {
        ClosesStay(s, a, k);
        StaysInStep(s, a, k);
      }
    }
  }

  lemma EnabledCloses(s: State, a: Action, h: nat)
    requires Enabled(s, a) && OthersInStep(s, h) && h in s.closing && !s.closing[h].erased && a != CloseErase(h)
    ensures Expected(s, a)
  {
  }

  /** While the close of `h` waits between its look-up and its erasure. */
  lemma {:induction false} UntilErase(s: State, actions: seq<Action>, h: nat, g: nat) returns (k: nat)
    requires TableValid(s.t, Erased(s)) && OthersInStep(s, h) && IsRun(s, actions) && OnlyDisturbs(s, actions, h)
    requires h in s.closing && !s.closing[h].erased && CloseErase(h) !in actions && Has(s.t, h, g)
    requires if Current(s, h) then g == s.closing[h].file else Stale(s, h, g)
    ensures var r := DoAll(s, actions);
            && TableValid(r.t, Erased(r)) && OthersInStep(r, h)
            && h in r.closing && !r.closing[h].erased && Has(r.t, h, k)
            && Enabled(r, CloseErase(h))
            && (Current(r, h) <==> Current(s, h) && !Disturbed(s, actions, h))
            && (Current(r, h) || Stale(r, h, k))
    decreases |actions|
  {
    hide TableValid, OthersInStep, Do, Has, Hazard;
    ExclusiveHandle(s, h, g);
    if actions == [] {
      return g;
    }
    var a := actions[0];
    var t := Do(s, a);
    OthersStay(s, a, h);
    SamePending(s, a, h);
    if !Current(s, h) {
      StaleStays(s, a, h, g);
      StaleIsNotCurrent(t, h, FileAfter(s, a, g));
    } else if Hazard(s, a, h) {
      HazardMakesStale(s, a, h);
      StaleIsNotCurrent(t, h, FileAfter(s, a, g));
    } else {
      StaysInStep(s, a, h);
    }
    k := UntilErase(t, actions[1..], h, FileAfter(s, a, g));
  }

  // ---- between the erasure and the finish ----

  lemma HandlesOfStay(s: State, a: Action, h: nat, g: nat)
    requires Enabled(s, a) && h <= s.t.nextHandle && g < |s.t.files| && a != CloseErase(h)
    ensures g < |Do(s, a).t.files| && h <= Do(s, a).t.nextHandle
    ensures h in Do(s, a).t.files[g].handles <==> h in s.t.files[g].handles
    ensures h in s.t.unlinked && a != CloseFinish(h) ==> h in Do(s, a).t.unlinked
  {
  }

  lemma ErasedStays(s: State, a: Action, h: nat)
    requires Enabled(s, a) && h in s.closing && s.closing[h].erased && a != CloseFinish(h)
    ensures h in Do(s, a).closing && Do(s, a).closing[h] == s.closing[h] && a != CloseErase(h)
  {
  }

  lemma {:induction false} UntilFinish(s: State, actions: seq<Action>, h: nat, g: nat)
    requires IsRun(s, actions) && CloseFinish(h) !in actions && h in s.closing && s.closing[h].erased
    requires h <= s.t.nextHandle && g < |s.t.files| && s.closing[h].file < |s.t.files|
    ensures var r := DoAll(s, actions);
            && Enabled(r, CloseFinish(h)) && r.closing[h] == s.closing[h] && g < |r.t.files|
            && (h in r.t.files[g].handles <==> h in s.t.files[g].handles)
            && (h in s.t.unlinked ==> h in r.t.unlinked)
    decreases |actions|
  {
    hide Do;
    if actions != [] {
      HandlesOfStay(s, actions[0], h, g);
      HandlesOfStay(s, actions[0], h, s.closing[h].file);
      ErasedStays(s, actions[0], h);
      UntilFinish(Do(s, actions[0]), actions[1..], h, g);
    }
  }

  /** Nothing disturbs a close whose handle is erased. */
  lemma {:induction false} ErasedUndisturbed(s: State, actions: seq<Action>, h: nat)
    requires IsRun(s, actions) && OnlyDisturbs(s, actions, h) && CloseFinish(h) !in actions
    requires h in s.closing && s.closing[h].erased
    ensures Undisturbed(s, actions)
    decreases |actions|
  {
    hide Do, Enabled;
    if actions != [] {
      ErasedStays(s, actions[0], h);
      ErasedUndisturbed(Do(s, actions[0]), actions[1..], h);
    }
  }

  /** A close whose look-up is current when it erases the handle ends it, whatever comes before it finishes. */
  lemma CurrentEnds(s: State, h: nat, g: nat, rest: seq<Action>)
    requires Valid(s) && Enabled(s, CloseErase(h)) && Current(s, h) && g == s.closing[h].file
    requires var erased := Do(s, CloseErase(h));
             IsRun(erased, rest) && OnlyDisturbs(erased, rest, h) && CloseFinish(h) !in rest
    ensures var r := DoAll(Do(s, CloseErase(h)), rest);
            Enabled(r, CloseFinish(h)) && Ended(Do(r, CloseFinish(h)).t, h, g)
  {
    hide TableValid, Has;
    var erased := Do(s, CloseErase(h));
    ExclusiveHandle(s, h, g);
    StepKeeps(s, CloseErase(h));
    ErasedUndisturbed(erased, rest, h);
    RunKeeps(erased, rest);
    UntilFinish(erased, rest, h, g);
    var r := DoAll(erased, rest);
    FinishKeeps(r.t, Erased(r), h, r.closing[h].file, r.closing[h].wasUnlinked);
  }

  /** And one whose look-up is out of date does not. */
  lemma StaleStaysOpen(s: State, h: nat, g: nat, rest: seq<Action>)
    requires TableValid(s.t, Erased(s)) && Enabled(s, CloseErase(h)) && Stale(s, h, g)
    requires var erased := Do(s, CloseErase(h)); IsRun(erased, rest) && CloseFinish(h) !in rest
    ensures var r := DoAll(Do(s, CloseErase(h)), rest);
            Enabled(r, CloseFinish(h)) && !Ended(Do(r, CloseFinish(h)).t, h, g)
  {
    hide TableValid;
    ExclusiveHandle(s, h, g);
    LinkedIfInHandles(s.t, h, g);
    UntilFinish(Do(s, CloseErase(h)), rest, h, g);
  }

  lemma LinkedIfInHandles(t: Table, h: nat, g: nat)
    requires Has(t, h, g)
    ensures g < |t.files| && h in t.files[g].handles
  {
  }

  /** The close of `h` ends the handle exactly if, between its look-up and its erasure, the object is neither
      removed nor replaced; what comes between the erasure and the finish does not matter. */
  lemma CloseEndsExactly(s: State, h: nat, f: nat, actions: seq<Action>, rest: seq<Action>) returns (r: State, g: nat)
    requires Valid(s) && Enabled(s, CloseLook(h, f))
    requires var looked := Do(s, CloseLook(h, f));
             && IsRun(looked, actions) && OnlyDisturbs(looked, actions, h) && CloseErase(h) !in actions
             && var r := DoAll(looked, actions);
                && Enabled(r, CloseErase(h)) && IsRun(Do(r, CloseErase(h)), rest)
                && OnlyDisturbs(Do(r, CloseErase(h)), rest, h) && CloseFinish(h) !in rest
    ensures var looked := Do(s, CloseLook(h, f));
            var erasing := DoAll(looked, actions);
            && ResolvesTo(erasing.t, h, g) && r == DoAll(Do(erasing, CloseErase(h)), rest) && Enabled(r, CloseFinish(h))
            && (Ended(Do(r, CloseFinish(h)).t, h, g) <==> !Disturbed(looked, actions, h))
  {
    hide TableValid, Opened, Removed, Upgraded, HandleErased, CloseFinished, TimedOut, Has, Ended, Stale, Hazard;
    var looked := Do(s, CloseLook(h, f));
    TableStep(s, CloseLook(h, f));
    LooksUp(s, CloseLook(h, f));
    g := UntilErase(looked, actions, h, f);
    var erasing := DoAll(looked, actions);
    HasResolves(erasing, h, g);
    r := DoAll(Do(erasing, CloseErase(h)), rest);
    if Current(erasing, h) {
      ExclusiveHandle(erasing, h, g);
      CurrentEnds(erasing, h, g, rest);
    } else {
      StaleStaysOpen(erasing, h, g, rest);
    }
  }

  lemma HasResolves(s: State, h: nat, g: nat)
    requires TableValid(s.t, Erased(s)) && Has(s.t, h, g)
    ensures ResolvesTo(s.t, h, g)
  {
    OnlyOne(s.t, Erased(s), h, g);
  }

  /** From its open to its close, through removals, upgrades and other closes, a handle stands for the path and
      the source it was opened on. */
  lemma {:induction false} HandleIsStable(s: State, actions: seq<Action>, h: nat, f: nat) returns (g: nat)
    requires Valid(s) && IsRun(s, actions) && Undisturbed(s, actions)
    requires ResolvesTo(s.t, h, f) && h !in s.closing && forall a :: a in actions ==> !(a.CloseLook? && a.handle == h)
    ensures var r := DoAll(s, actions);
            && Valid(r) && h !in r.closing && ResolvesTo(r.t, h, g) && f < |s.t.files| && g < |r.t.files|
            && r.t.files[g].source == s.t.files[f].source && r.t.files[g].path == s.t.files[f].path
    decreases |actions|
  {
    hide ResolvesTo, Opened, Removed, Upgraded, HandleErased, CloseFinished, TimedOut, FileAfter, TableValid, Hazardous;
    OneFilePerHandle(s.t, Erased(s), h, f);
    if actions == [] {
      return f;
    }
    StepKeeps(s, actions[0]);
    TableStep(s, actions[0]);
    TablePaths(s);
    FilesStay(s, actions[0], f);
    HasResolves(Do(s, actions[0]), h, FileAfter(s, actions[0], f));
    g := HandleIsStable(Do(s, actions[0]), actions[1..], h, FileAfter(s, actions[0], f));
  }

  lemma TablePaths(s: State)
    requires TableValid(s.t, Erased(s))
    ensures PathsValid(s.t)
  {
  }

  // ---- what a disturbed close leaves behind ----

  /** The path is removed after the look-up of its only handle: the entry of the handle stays, nobody has the
      object any more, and its source is never deleted. */
  lemma RemovalDuringClose(s: State, h: nat, path: string) returns (r: State)
    requires Valid(s) && path in s.t.open && s.t.files[s.t.open[path]].handles == {h} && h !in s.closing
    ensures var actions := [CloseLook(h, s.t.open[path]), Remove(path), CloseErase(h), CloseFinish(h)];
            IsRun(s, actions) && r == DoAll(s, actions)
    ensures r.closing == s.closing && h in r.t.unlinked && Unheld(r.t, h)
    ensures var f := s.t.open[path];
            && f < |r.t.files| && r.t.files[f].handles == {}
            && (!s.t.files[f].directory ==> s.t.files[f].source in r.owed)
    ensures r.t.removedSources == s.t.removedSources
  {
    hide Holds, Orphaned, TableValid;
    var f := s.t.open[path];
    HeldByPath(s, h, path);
    var s1 := Do(s, CloseLook(h, f));
    RemoveKeeps(s.t, Erased(s), path);
    var s2 := Do(s1, Remove(path));
    EraseKeeps(s2.t, Erased(s), h, f);
    var s3 := Do(s2, CloseErase(h));
    r := Do(s3, CloseFinish(h));
    assert r.closing == s.closing;
    FourSteps(s, CloseLook(h, f), Remove(path), CloseErase(h), CloseFinish(h));
  }

  lemma HeldByPath(s: State, h: nat, path: string)
    requires TableValid(s.t, Erased(s)) && path in s.t.open
    requires h in s.t.files[s.t.open[path]].handles
    ensures Holds(s.t, h, s.t.open[path]) && ResolvesTo(s.t, h, s.t.open[path]) && h !in s.t.unlinked
    ensures forall k: nat :: Has(s.t, h, k) ==> k == s.t.open[path]
    ensures h !in Erased(s)
  {
    assert Holds(s.t, h, s.t.open[path]);
    OnlyOne(s.t, Erased(s), h, s.t.open[path]);
  }

  lemma ThreeSteps(s: State, a: Action, b: Action, c: Action)
    requires Enabled(s, a) && Enabled(Do(s, a), b) && Enabled(Do(Do(s, a), b), c)
    ensures IsRun(s, [a, b, c]) && DoAll(s, [a, b, c]) == Do(Do(Do(s, a), b), c)
  {
    hide Do, Enabled;
    assert [a, b, c][1..] == [b, c] && [b, c][1..] == [c];
    var s2 := Do(Do(s, a), b);
    assert IsRun(s2, [c]) && DoAll(s2, [c]) == Do(s2, c);
    assert IsRun(Do(s, a), [b, c]) && DoAll(Do(s, a), [b, c]) == Do(s2, c);
  }

  lemma FourSteps(s: State, a: Action, b: Action, c: Action, d: Action)
    requires Enabled(s, a) && Enabled(Do(s, a), b) && Enabled(Do(Do(s, a), b), c) && Enabled(Do(Do(Do(s, a), b), c), d)
    ensures IsRun(s, [a, b, c, d]) && DoAll(s, [a, b, c, d]) == Do(Do(Do(Do(s, a), b), c), d)
  {
    hide Do, Enabled;
    assert [a, b, c, d][1..] == [b, c, d];
    ThreeSteps(Do(s, a), b, c, d);
  }

  /** Another handle of the open file asks for write access in between: the new object has the closed handle too,
      and keeps it: everything is in order but the handle, which no close will end. */
  lemma UpgradeDuringClose(s: State, h: nat, k: nat, f: nat) returns (r: State)
    requires Valid(s) && h != k && Holds(s.t, h, f) && Holds(s.t, k, f) && !s.t.files[f].writable
    requires h !in s.closing && k !in s.closing && !Hazardous(s, Upgrade(k, f))
    ensures var actions := [CloseLook(h, f), Upgrade(k, f), CloseErase(h), CloseFinish(h)];
            IsRun(s, actions) && r == DoAll(s, actions)
    ensures Valid(r) && r.closing == s.closing && ResolvesTo(r.t, h, |s.t.files|)
    ensures TimedOut(r.t, s.t.files[f].path) == r.t
  {
    hide Holds, Orphaned, TableValid, Has, Opened, Removed;
    HoldsResolves(s, h, f);
    HoldsResolves(s, k, f);
    var s1 := Do(s, CloseLook(h, f));
    assert Erased(s1) == Erased(s);
    UpgradeKeeps(s.t, Erased(s), k, f);
    var s2 := Do(s1, Upgrade(k, f));
    AbandonedErased(s2.t, Erased(s), h, f);
    var s3 := Do(s2, CloseErase(h));
    r := Do(s3, CloseFinish(h));
    assert r.closing == s.closing && r.t == HandleErased(s2.t, f, h) && Erased(r) == Erased(s);
    assert forall g :: Hazard(s1, Upgrade(k, f), g) && g != h ==> Hazard(s, Upgrade(k, f), g);
    StepKeeps(s, CloseLook(h, f));
    OthersStay(s1, Upgrade(k, f), h);
    assert forall g :: g in r.closing ==> InStep(s2, g);
    HasResolves(r, h, |s.t.files|);
    FourSteps(s, CloseLook(h, f), Upgrade(k, f), CloseErase(h), CloseFinish(h));
  }

  lemma HoldsResolves(s: State, h: nat, f: nat)
    requires TableValid(s.t, Erased(s)) && Holds(s.t, h, f)
    ensures ResolvesTo(s.t, h, f) && Has(s.t, h, f) && f < |s.t.files| && h !in s.t.unlinked
    ensures s.t.files[f].path in s.t.open && !s.t.files[f].unlinked && h in s.t.files[f].handles && h !in Erased(s)
  {
    OnlyOne(s.t, Erased(s), h, f);
  }

  /** Erasing a handle from an object nobody has changes nothing that counts. */
  lemma AbandonedErased(t: Table, erased: set<nat>, h: nat, f: nat)
    requires TableValid(t, erased) && f < |t.files| && forall g: nat :: !Has(t, g, f)
    ensures forall g: nat, k: nat :: Has(HandleErased(t, f, h), g, k) <==> Has(t, g, k)
    ensures TableValid(HandleErased(t, f, h), erased)
  {
    ErasedHolds(t, h, f);
    forall g | g in t.unlinked && t.unlinked[g] == f
      ensures g !in t.files[f].handles
    {
      assert !Has(t, g, f);
    }
  }

  /** The same for a file without a path and with two handles: when both are closed its source is still there,
      and no handle leads to it. */
  lemma UpgradeDuringUnlinkedClose(s: State, h: nat, k: nat, f: nat) returns (r: State)
    requires Valid(s) && h != k && Orphaned(s.t, h, f) && Orphaned(s.t, k, f) && !s.t.files[f].writable
    requires s.t.files[f].handles == {h, k} && s.closing == map[]
    ensures var n := |s.t.files|;
            var actions := [CloseLook(h, f), Upgrade(k, f), CloseErase(h), CloseFinish(h),
                            CloseLook(k, n), CloseErase(k), CloseFinish(k)];
            IsRun(s, actions) && r == DoAll(s, actions)
    ensures r.closing == map[] && r.t.removedSources == s.t.removedSources
    ensures forall g :: g in r.t.unlinked ==> r.t.unlinked[g] != f && r.t.unlinked[g] != |s.t.files|
  {
    var n := |s.t.files|;
    var first := [CloseLook(h, f), Upgrade(k, f), CloseErase(h), CloseFinish(h)];
    var second := [CloseLook(k, n), CloseErase(k), CloseFinish(k)];
    var m := HalfClosed(s, h, k, f);
    r := OtherClosed(m, k, n, h);
    assert first + second == [CloseLook(h, f), Upgrade(k, f), CloseErase(h), CloseFinish(h),
                              CloseLook(k, n), CloseErase(k), CloseFinish(k)];
    RunThenRun(s, first, second);
    forall g | g in r.t.unlinked
      ensures r.t.unlinked[g] != f && r.t.unlinked[g] != n
    {
    }
  }

  lemma HalfClosed(s: State, h: nat, k: nat, f: nat) returns (m: State)
    requires Valid(s) && h != k && Orphaned(s.t, h, f) && Orphaned(s.t, k, f) && !s.t.files[f].writable
    requires s.t.files[f].handles == {h, k} && s.closing == map[]
    ensures var actions := [CloseLook(h, f), Upgrade(k, f), CloseErase(h), CloseFinish(h)];
            IsRun(s, actions) && m == DoAll(s, actions)
    ensures m.closing == map[] && m.t.removedSources == s.t.removedSources
    ensures |m.t.files| == |s.t.files| + 1 && m.t.files[|s.t.files|].handles == {h, k}
    ensures k in m.t.unlinked && m.t.unlinked[k] == |s.t.files|
    ensures forall g :: g in m.t.unlinked && g != k ==> m.t.unlinked[g] < |s.t.files| && m.t.unlinked[g] != f
  {
    hide TableValid, Opened, Removed;
    var s1 := Do(s, CloseLook(h, f));
    var s2 := Do(s1, Upgrade(k, f));
    var s3 := Do(s2, CloseErase(h));
    m := Do(s3, CloseFinish(h));
    ListedTogether(s, h, f);
    FourSteps(s, CloseLook(h, f), Upgrade(k, f), CloseErase(h), CloseFinish(h));
  }

  lemma ListedTogether(s: State, h: nat, f: nat)
    requires TableValid(s.t, Erased(s)) && s.closing == map[] && Orphaned(s.t, h, f)
    ensures f < |s.t.files| && s.t.files[f].unlinked
    ensures forall g :: g in s.t.unlinked ==> s.t.unlinked[g] < |s.t.files|
    ensures forall g :: g in s.t.unlinked && s.t.unlinked[g] == f ==> g in s.t.files[f].handles
  {
  }

  lemma OtherClosed(m: State, k: nat, n: nat, h: nat) returns (r: State)
    requires m.closing == map[] && n < |m.t.files| && k in m.t.unlinked && m.t.unlinked[k] == n
    requires m.t.files[n].handles == {h, k} && h != k
    ensures var actions := [CloseLook(k, n), CloseErase(k), CloseFinish(k)];
            IsRun(m, actions) && r == DoAll(m, actions)
    ensures r.closing == map[] && r.t.removedSources == m.t.removedSources && r.t.unlinked == m.t.unlinked - {k}
  {
    var s1 := Do(m, CloseLook(k, n));
    var s2 := Do(s1, CloseErase(k));
    r := Do(s2, CloseFinish(k));
    assert h in s2.t.files[n].handles;
    ThreeSteps(m, CloseLook(k, n), CloseErase(k), CloseFinish(k));
  }

  lemma {:induction false} RunThenRun(s: State, first: seq<Action>, second: seq<Action>)
    requires IsRun(s, first) && IsRun(DoAll(s, first), second)
    ensures IsRun(s, first + second) && DoAll(s, first + second) == DoAll(DoAll(s, first), second)
    decreases |first|
  {
    hide Do, Enabled;
    if first == [] {
      assert first + second == second;
    } else {
      RunThenRun(Do(s, first[0]), first[1..], second);
      assert (first + second)[1..] == first[1..] + second;
    }
  }
}
