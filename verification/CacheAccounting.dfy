/**
 Is the cache account right? The account (cache_size_mgr.cpp) against the local sources of all files, over
 the steps that move either of them (open_file.cpp and file_manager.cpp in
 repertory/librepertory/src/file_manager). `check_start` gives the file's mutex up while it moves the account,
 and a resize moves it before it downloads and truncates, so each is several steps and other threads may come
 in between.
 */
module CacheAccounting {

  /** The calls under way in an open file: the local sizes that threads in `check_start` have read, the number
      of threads that have moved the account for it and not truncated yet, and the sizes of the resizes that
      have moved the account and not changed the file yet. */
  datatype Flight = Flight(looked: seq<nat>, starting: nat, resizing: seq<nat>)

  const NOBODY := Flight([], 0, [])

  /** A file: its size, the bytes of its local source, whether an object is open and has `allocated` set, and
      whether it still has its path. */
  datatype Local = Local(size: nat, source: nat, open: bool, sized: bool, linked: bool, flight: Flight)

  /** `untracked` stands for whatever else lies in the cache directory. */
  datatype World = World(cache: nat, files: seq<Local>, untracked: nat)

  /** `ok` says whether the account was moved without the program being stopped meanwhile. */
  datatype Step =
    | Open(i: nat)
    | Look(i: nat)
    | Adjust(i: nat, k: nat, ok: bool)
    | Truncate(i: nat)
    | TruncateFails(i: nat)
    | ResizeAdjust(i: nat, size: nat, ok: bool)
    | ResizeApply(i: nat, k: nat)
    | ResizeFails(i: nat, k: nat)
    | Store(i: nat, source: nat)
    | Close(i: nat)
    | Discard(i: nat)
    | Evict(i: nat)
    | Remove(i: nat)

  function Without(s: seq<nat>, k: nat): seq<nat>
    requires k < |s|
  {
    s[..k] + s[k + 1..]
  }

  /** `shrink` stops at zero. */
  function Shrunk(cache: nat, size: nat): nat {
    if cache >= size then cache - size else 0
  }

  /** `adjust_cache_size`: the account moves from `before` to `after` bytes. */
  function Moved(cache: nat, before: nat, after: nat): nat {
    if after >= before then cache + (after - before) else Shrunk(cache, before - after)
  }

  /** How much `remove_source_and_shrink_cache` takes off. */
  function Freed(f: Local, counted: bool): nat {
    if counted && f.source > 0 then f.size else 0
  }

  predicate Enabled(w: World, s: Step) {
    s.i < |w.files| &&
    var f := w.files[s.i];
    match s
    case Open(_) => !f.open
    case Look(_) => f.open && !f.sized
    case Adjust(_, k, ok) => f.open && k < |f.flight.looked| && (ok || f.size > f.flight.looked[k])
    case Truncate(_) => f.open && f.flight.starting > 0
    case TruncateFails(_) => f.open && f.flight.starting > 0
    case ResizeAdjust(_, size, ok) => f.open && f.source == f.size && (ok || size > f.size)
    case ResizeApply(_, k) => f.open && k < |f.flight.resizing|
    case ResizeFails(_, k) => f.open && k < |f.flight.resizing|
    case Store(_, source) => f.open && f.source <= source <= f.size
    case Close(_) => f.open && f.flight == NOBODY && (f.linked ==> f.sized || f.source == f.size)
    case Discard(_) => f.open && f.flight == NOBODY && f.linked
    case Evict(_) => f.flight == NOBODY && f.linked
    case Remove(_) => f.linked
  }

  /** The account after a step. */
  function Cache(w: World, s: Step): nat
    requires Enabled(w, s)
  {
    var f := w.files[s.i];
    match s
    case Adjust(_, k, _) => Moved(w.cache, f.flight.looked[k], f.size)
    case ResizeAdjust(_, size, _) => Moved(w.cache, f.size, size)
    case Discard(_) => Shrunk(w.cache, Freed(f, f.sized))
    case Evict(_) => Shrunk(w.cache, Freed(f, f.open ==> f.sized))
    case Remove(_) => Shrunk(w.cache, if f.open then (if f.sized then f.size else 0) else Freed(f, true))
    case _ => w.cache
  }

  /** The file after a step. */
  function File(f: Local, s: Step): Local
    requires s.Adjust? ==> s.k < |f.flight.looked|
    requires s.Truncate? || s.TruncateFails? ==> f.flight.starting > 0
    requires s.ResizeApply? || s.ResizeFails? ==> s.k < |f.flight.resizing|
  {
    var g := f.flight;
    match s
    case Open(_) => f.(open := true, sized := f.size > 0 && f.source == f.size)
    case Look(_) =>
      if f.source == f.size then f.(sized := true) else f.(flight := g.(looked := g.looked + [f.source]))
    case Adjust(_, k, ok) =>
      f.(flight := g.(looked := Without(g.looked, k), starting := g.starting + if ok then 1 else 0))
    case Truncate(_) => f.(source := f.size, sized := true, flight := g.(starting := g.starting - 1))
    case TruncateFails(_) => f.(flight := g.(starting := g.starting - 1))
    case ResizeAdjust(_, size, ok) => if ok then f.(flight := g.(resizing := g.resizing + [size])) else f
    case ResizeApply(_, k) =>
      f.(size := g.resizing[k], source := g.resizing[k], flight := g.(resizing := Without(g.resizing, k)))
    case ResizeFails(_, k) => f.(flight := g.(resizing := Without(g.resizing, k)))
    case Store(_, source) => f.(source := source)
    case Close(_) => if f.linked then f.(open := false, sized := false) else Local(0, 0, false, false, true, NOBODY)
    case Discard(_) => f.(source := 0, open := false, sized := false)
    case Evict(_) => f.(source := 0, open := false, sized := false)
    case Remove(_) => if f.open then f.(linked := false) else Local(0, 0, false, false, true, NOBODY)
  }

  function Next(w: World, s: Step): World
    requires Enabled(w, s)
  {
    w.(cache := Cache(w, s), files := w.files[s.i := File(w.files[s.i], s)])
  }

  // ---- what the account should be ----

  /** The bytes a file takes once the calls under way are through; a removed file takes none. */
  function Due(f: Local): nat {
    if !f.linked then 0
    else if f.flight.resizing != [] then f.flight.resizing[0]
    else if f.flight.starting > 0 then f.size
    else f.source
  }

  function Sum(files: seq<Local>): nat {
    if files == [] then 0 else Sum(files[..|files| - 1]) + Due(files[|files| - 1])
  }

  lemma {:induction false} SumUpdate(files: seq<Local>, i: nat, f: Local)
    requires i < |files|
    ensures Sum(files[i := f]) == Sum(files) - Due(files[i]) + Due(f) && Sum(files) >= Due(files[i])
  {
    hide Due;
    var n := |files| - 1;
    if i < n {
      SumUpdate(files[..n], i, f);
      assert files[i := f][..n] == files[..n][i := f];
    } else {
      assert files[i := f][..n] == files[..n];
    }
  }

  /** How far the account is off. */
  function Drift(w: World): int {
    w.cache - w.untracked - Sum(w.files)
  }

  lemma DriftOfStep(w: World, s: Step)
    requires Enabled(w, s)
    ensures Drift(Next(w, s)) == Drift(w) + (Cache(w, s) - w.cache) - (Due(File(w.files[s.i], s)) - Due(w.files[s.i]))
    ensures Due(w.files[s.i]) <= w.cache - Drift(w)
  {
    hide Due, Cache, File;
    SumUpdate(w.files, s.i, File(w.files[s.i], s));
  }

  /** The calls under way agree with one another: resizes on the size, first operations on the local size. */
  predicate Regular(f: Local) {
    && (f.flight == NOBODY || f.open)
    && (f.linked || f.open)
    && (f.linked ==>
          && (f.sized || f.flight.resizing != [] ==> f.source == f.size)
          && (f.flight.starting == 0 ==> f.source == 0 || f.source == f.size)
          && (f.flight.starting == 0 && f.source < f.size ==>
                forall k :: 0 <= k < |f.flight.looked| ==> f.flight.looked[k] == f.source)
          && (f.sized ==> f.open)
          && f.source <= f.size
          && forall k :: 0 <= k < |f.flight.resizing| ==> f.flight.resizing[k] == f.flight.resizing[0])
  }

  predicate Right(w: World) {
    Drift(w) == 0 && forall i :: 0 <= i < |w.files| ==> Regular(w.files[i])
  }

  /** The size a step wants to take off the account. */
  function Taken(w: World, s: Step): nat
    requires Enabled(w, s)
  {
    var f := w.files[s.i];
    match s
    case Adjust(_, k, _) => if f.flight.looked[k] > f.size then f.flight.looked[k] - f.size else 0
    case ResizeAdjust(_, size, _) => if f.size > size then f.size - size else 0
    case Discard(_) => Freed(f, f.sized)
    case Evict(_) => Freed(f, f.open ==> f.sized)
    case Remove(_) => if f.open then (if f.sized then f.size else 0) else Freed(f, true)
    case _ => 0
  }

  /** The steps that put the account wrong. */
  predicate Hazard(w: World, s: Step)
    requires Enabled(w, s)
  {
    var f := w.files[s.i];
    match s
    // a thread in `check_start` whose look is out of date, an expansion stopped half way, or a removed file
    case Adjust(_, k, ok) =>
      f.flight.looked[k] != f.size && (!ok || !f.linked || f.flight.starting > 0 || f.source == f.size)
    // `check_start` reports success here and does not set `allocated`
    case TruncateFails(_) => f.linked && f.flight.starting == 1 && f.source != f.size
    // a stopped expansion, a removed file, or another resize under way
    case ResizeAdjust(_, size, ok) =>
      if f.linked && f.flight.resizing != [] then size != f.size || size != f.flight.resizing[0] || !ok
      else size != f.size && (!ok || !f.linked)
    case ResizeFails(_, _) => f.linked && |f.flight.resizing| == 1 && f.flight.resizing[0] != f.size
    // a download into a source that has not been given its size yet
    case Store(_, source) => f.linked && f.flight.starting == 0 && source > f.source
    case Discard(_) => !f.sized && f.source > 0
    case Evict(_) => f.open && !f.sized && f.source > 0
    // a removal while a resize or the first operation is under way
    case Remove(_) => f.open && Due(f) != if f.sized then f.size else 0
    case _ => false
  }

  /** The step keeps the file regular, moves the account with what is due, and takes off no more than is there. */
  predicate KeepsFile(w: World, s: Step)
    requires Enabled(w, s)
  {
    var f, g := w.files[s.i], File(w.files[s.i], s);
    Regular(g) && Cache(w, s) - w.cache == Due(g) - Due(f) && Taken(w, s) <= w.cache
  }

  lemma StartKeepsFile(w: World, s: Step)
    requires Enabled(w, s) && Regular(w.files[s.i]) && Due(w.files[s.i]) <= w.cache && !Hazard(w, s)
    requires s.Look? || s.Adjust? || s.Truncate? || s.TruncateFails?
    ensures KeepsFile(w, s)
  {
  }

  lemma ResizeKeepsFile(w: World, s: Step)
    requires Enabled(w, s) && Regular(w.files[s.i]) && Due(w.files[s.i]) <= w.cache && !Hazard(w, s)
    requires s.ResizeAdjust? || s.ResizeApply? || s.ResizeFails?
    ensures KeepsFile(w, s)
  {
  }

  lemma OpenKeepsFile(w: World, s: Step)
    requires Enabled(w, s) && Regular(w.files[s.i]) && Due(w.files[s.i]) <= w.cache && !Hazard(w, s)
    requires s.Open? || s.Store? || s.Close?
    ensures KeepsFile(w, s)
  {
  }

  lemma RemovalKeepsFile(w: World, s: Step)
    requires Enabled(w, s) && Regular(w.files[s.i]) && Due(w.files[s.i]) <= w.cache && !Hazard(w, s)
    requires s.Discard? || s.Evict? || s.Remove?
    ensures KeepsFile(w, s)
  {
  }

  lemma HarmlessStepOfFile(w: World, s: Step)
    requires Enabled(w, s) && Regular(w.files[s.i]) && Due(w.files[s.i]) <= w.cache && !Hazard(w, s)
    ensures KeepsFile(w, s)
  {
    hide Enabled, Regular, Due, Hazard, KeepsFile;
    if s.Look? || s.Adjust? || s.Truncate? || s.TruncateFails? {
      StartKeepsFile(w, s);
    } else if s.ResizeAdjust? || s.ResizeApply? || s.ResizeFails? {
      ResizeKeepsFile(w, s);
    } else if s.Open? || s.Store? || s.Close? {
      OpenKeepsFile(w, s);
    } else {
      RemovalKeepsFile(w, s);
    }
  }

  lemma HazardOfFile(w: World, s: Step)
    requires Enabled(w, s) && Regular(w.files[s.i]) && Hazard(w, s) && Taken(w, s) <= w.cache
    ensures var f, g := w.files[s.i], File(w.files[s.i], s);
            !Regular(g) || Cache(w, s) - w.cache != Due(g) - Due(f)
  {
    var f, g := w.files[s.i], File(w.files[s.i], s);
    if s.ResizeAdjust? && s.ok && f.linked && f.flight.resizing != [] {
      assert g.flight.resizing[|f.flight.resizing|] == s.size;
    }
  }

  /** From a right account, a step leaves it right exactly if it is no hazard. Such a step takes off no more than
      is there; the branch of `shrink` that stops at zero is reached by hazards only. */
  lemma StepKeepsAccount(w: World, s: Step)
    requires Right(w) && Enabled(w, s)
    ensures !Hazard(w, s) ==> Right(Next(w, s)) && Taken(w, s) <= w.cache
    ensures Taken(w, s) <= w.cache ==> (Right(Next(w, s)) <==> !Hazard(w, s))
  {
    hide Due, Cache, File, Drift, Hazard, Taken, Regular;
    var g := File(w.files[s.i], s);
    assert Regular(w.files[s.i]) && Next(w, s).files[s.i] == g;
    DriftOfStep(w, s);
    if Hazard(w, s) {
      if Taken(w, s) <= w.cache {
        HazardOfFile(w, s);
      }
    } else {
      HarmlessStepOfFile(w, s);
    }
  }

  // ---- runs ----

  predicate IsRun(w: World, steps: seq<Step>)
    decreases |steps|
  {
    steps == [] || (Enabled(w, steps[0]) && IsRun(Next(w, steps[0]), steps[1..]))
  }

  function Exec(w: World, steps: seq<Step>): World
    requires IsRun(w, steps)
    decreases |steps|
  {
    if steps == [] then w else Exec(Next(w, steps[0]), steps[1..])
  }

  predicate Hazardless(w: World, steps: seq<Step>)
    requires IsRun(w, steps)
    decreases |steps|
  {
    steps == [] || (!Hazard(w, steps[0]) && Hazardless(Next(w, steps[0]), steps[1..]))
  }

  lemma {:induction false} RunKeepsAccount(w: World, steps: seq<Step>)
    requires Right(w) && IsRun(w, steps) && Hazardless(w, steps)
    ensures Right(Exec(w, steps)) && Exec(w, steps).untracked == w.untracked
    decreases |steps|
  {
    hide Right, Hazard, Cache, File;
    if steps != [] {
      StepKeepsAccount(w, steps[0]);
      RunKeepsAccount(Next(w, steps[0]), steps[1..]);
    }
  }

  /** The bytes of the local sources of all files that have their path. */
  function Stored(files: seq<Local>): nat {
    if files == [] then 0
    else Stored(files[..|files| - 1]) + if files[|files| - 1].linked then files[|files| - 1].source else 0
  }

  predicate Quiet(w: World) {
    forall i :: 0 <= i < |w.files| ==> w.files[i].flight == NOBODY
  }

  lemma {:induction false} DueIsStored(files: seq<Local>)
    requires forall i :: 0 <= i < |files| ==> files[i].flight == NOBODY
    ensures Sum(files) == Stored(files)
  {
    if files != [] {
      DueIsStored(files[..|files| - 1]);
    }
  }

  /** After a run without hazards, when no call is under way, the account is the size of the cache directory. */
  lemma AccountStaysRight(w: World, steps: seq<Step>)
    requires Right(w) && IsRun(w, steps) && Hazardless(w, steps) && Quiet(Exec(w, steps))
    ensures Exec(w, steps).cache == w.untracked + Stored(Exec(w, steps).files)
  {
    RunKeepsAccount(w, steps);
    DueIsStored(Exec(w, steps).files);
  }

  /** A closed file with all of its bytes, or none. */
  predicate Resting(f: Local) {
    f.linked && !f.open && !f.sized && f.flight == NOBODY && (f.source == 0 || f.source == f.size)
  }

  /** `initialize` measures the cache directory: the account begins right, whatever else lies there. */
  lemma StartsRight(files: seq<Local>, untracked: nat, directorySize: nat)
    requires forall i :: 0 <= i < |files| ==> Resting(files[i])
    requires directorySize == untracked + Stored(files)
    ensures Right(World(directorySize, files, untracked))
  {
    DueIsStored(files);
  }

  /** From the start of the program on. */
  lemma RightFromTheStart(files: seq<Local>, untracked: nat, steps: seq<Step>)
    requires forall i :: 0 <= i < |files| ==> Resting(files[i])
    requires var w := World(untracked + Stored(files), files, untracked);
             IsRun(w, steps) && Hazardless(w, steps) && Quiet(Exec(w, steps))
    ensures var r := Exec(World(untracked + Stored(files), files, untracked), steps);
            r.cache == untracked + Stored(r.files)
  {
    StartsRight(files, untracked, untracked + Stored(files));
    AccountStaysRight(World(untracked + Stored(files), files, untracked), steps);
  }

  // ---- what each hazard costs ----

  /** An open file of which nothing is local, with nobody in a call. */
  predicate Untouched(w: World, i: nat) {
    && Right(w) && i < |w.files|
    && w.files[i] == Local(w.files[i].size, 0, true, false, true, NOBODY) && w.files[i].size > 0
  }

  lemma {:induction false} Chain(w: World, steps: seq<Step>, s: Step)
    requires IsRun(w, steps) && Enabled(Exec(w, steps), s)
    ensures IsRun(w, steps + [s]) && Exec(w, steps + [s]) == Next(Exec(w, steps), s)
    decreases |steps|
  {
    hide Cache, File, Enabled;
    if steps == [] {
      assert steps + [s] == [s] && [s][1..] == [];
    } else {
      assert (steps + [s])[1..] == steps[1..] + [s];
      Chain(Next(w, steps[0]), steps[1..], s);
    }
  }

  /** One more step, and what it does to the file and to the drift. */
  lemma Then(w: World, steps: seq<Step>, s: Step) returns (longer: seq<Step>, r: World)
    requires IsRun(w, steps) && Enabled(Exec(w, steps), s)
    ensures longer == steps + [s] && IsRun(w, longer) && r == Exec(w, longer)
    ensures var v := Exec(w, steps);
            && |r.files| == |v.files| && r.files[s.i] == File(v.files[s.i], s) && r.cache == Cache(v, s)
            && Drift(r) == Drift(v) + (r.cache - v.cache) - (Due(r.files[s.i]) - Due(v.files[s.i]))
            && Due(r.files[s.i]) <= r.cache - Drift(r)
  {
    hide Cache, File, Drift, Due, IsRun;
    Chain(w, steps, s);
    longer, r := steps + [s], Next(Exec(w, steps), s);
    DriftOfStep(Exec(w, steps), s);
    DueFits(r, s.i);
  }

  lemma DueFits(w: World, i: nat)
    requires i < |w.files|
    ensures Due(w.files[i]) <= w.cache - Drift(w)
  {
    hide Due;
    SumUpdate(w.files, i, w.files[i]);
  }

  /** Two threads begin the first operation: both add the file's size. */
  lemma TwoFirstOperations(w: World, i: nat) returns (steps: seq<Step>, r: World)
    requires Untouched(w, i)
    ensures steps == [Look(i), Look(i), Adjust(i, 0, true), Truncate(i), Adjust(i, 0, true), Truncate(i)]
    ensures IsRun(w, steps) && r == Exec(w, steps) && |r.files| == |w.files|
    ensures r.files[i].flight == NOBODY && r.files[i].source == r.files[i].size && Drift(r) == w.files[i].size
  {
    hide Drift, Right, IsRun, Exec;
    steps, r := Start(w);
    steps, r := Then(w, steps, Look(i));
    steps, r := Then(w, steps, Look(i));
    steps, r := Then(w, steps, Adjust(i, 0, true));
    steps, r := Then(w, steps, Truncate(i));
    steps, r := Then(w, steps, Adjust(i, 0, true));
    steps, r := Then(w, steps, Truncate(i));
  }

  lemma Start(w: World) returns (steps: seq<Step>, r: World)
    ensures steps == [] && IsRun(w, steps) && r == w == Exec(w, steps)
    ensures Right(w) ==> Drift(w) == 0
  {
    steps, r := [], w;
  }

  /** The program is stopped while the first operation waits for room: the size is added and nothing is stored. */
  lemma StoppedExpansion(w: World, i: nat) returns (steps: seq<Step>, r: World)
    requires Untouched(w, i)
    ensures steps == [Look(i), Adjust(i, 0, false)]
    ensures IsRun(w, steps) && r == Exec(w, steps) && |r.files| == |w.files|
    ensures r.files[i] == w.files[i] && Drift(r) == w.files[i].size
  {
    hide Drift, Right, IsRun, Exec;
    steps, r := Start(w);
    steps, r := Then(w, steps, Look(i));
    steps, r := Then(w, steps, Adjust(i, 0, false));
  }

  /** A truncation that fails in the first operation is reported as success, and the next one adds the size again. */
  lemma FailedTruncation(w: World, i: nat) returns (steps: seq<Step>, r: World)
    requires Untouched(w, i)
    ensures steps == [Look(i), Adjust(i, 0, true), TruncateFails(i), Look(i), Adjust(i, 0, true), Truncate(i)]
    ensures IsRun(w, steps) && r == Exec(w, steps) && |r.files| == |w.files|
    ensures r.files[i].flight == NOBODY && r.files[i].source == r.files[i].size && Drift(r) == w.files[i].size
  {
    hide Drift, Right, IsRun, Exec;
    steps, r := Start(w);
    steps, r := Then(w, steps, Look(i));
    steps, r := Then(w, steps, Adjust(i, 0, true));
    steps, r := Then(w, steps, TruncateFails(i));
    steps, r := Then(w, steps, Look(i));
    steps, r := Then(w, steps, Adjust(i, 0, true));
    steps, r := Then(w, steps, Truncate(i));
  }

  /** An open file that is all local, with nobody in a call. */
  predicate AllLocal(w: World, i: nat) {
    && Right(w) && i < |w.files|
    && w.files[i] == Local(w.files[i].size, w.files[i].size, true, true, true, NOBODY)
  }

  /** A resize whose download or truncation fails leaves the account moved. */
  lemma FailedResize(w: World, i: nat, size: nat) returns (steps: seq<Step>, r: World)
    requires AllLocal(w, i)
    ensures steps == [ResizeAdjust(i, size, true), ResizeFails(i, 0)]
    ensures IsRun(w, steps) && r == Exec(w, steps) && |r.files| == |w.files|
    ensures r.files[i] == w.files[i] && Drift(r) == size - w.files[i].size
  {
    hide Drift, Right, IsRun, Exec;
    steps, r := Start(w);
    DueFits(w, i);
    steps, r := Then(w, steps, ResizeAdjust(i, size, true));
    steps, r := Then(w, steps, ResizeFails(i, 0));
  }

  /** Two resizes at once both move the account from the old size: when the file grows under both, what the
      first one added stays for ever. */
  lemma TwoResizes(w: World, i: nat, m: nat, n: nat) returns (steps: seq<Step>, r: World)
    requires AllLocal(w, i) && m >= w.files[i].size && n >= w.files[i].size
    ensures steps == [ResizeAdjust(i, m, true), ResizeAdjust(i, n, true), ResizeApply(i, 0), ResizeApply(i, 0)]
    ensures IsRun(w, steps) && r == Exec(w, steps) && |r.files| == |w.files|
    ensures r.files[i] == w.files[i].(size := n, source := n) && Drift(r) == m - w.files[i].size
  {
    hide Drift, Right, IsRun, Exec;
    steps, r := Start(w);
    steps, r := Then(w, steps, ResizeAdjust(i, m, true));
    steps, r := Then(w, steps, ResizeAdjust(i, n, true));
    steps, r := Then(w, steps, ResizeApply(i, 0));
    steps, r := Then(w, steps, ResizeApply(i, 0));
  }

  /** A removed file that grows while it is open is added to the account and never taken off. */
  lemma RemovedFileGrows(w: World, i: nat, size: nat) returns (steps: seq<Step>, r: World)
    requires AllLocal(w, i) && size >= w.files[i].size
    ensures steps == [Remove(i), ResizeAdjust(i, size, true), ResizeApply(i, 0), Close(i)]
    ensures IsRun(w, steps) && r == Exec(w, steps) && |r.files| == |w.files|
    ensures r.files[i].source == 0 && !r.files[i].open && Drift(r) == size - w.files[i].size
  {
    hide Drift, Right, IsRun, Exec;
    steps, r := Start(w);
    DueFits(w, i);
    steps, r := Then(w, steps, Remove(i));
    steps, r := Then(w, steps, ResizeAdjust(i, size, true));
    steps, r := Then(w, steps, ResizeApply(i, 0));
    steps, r := Then(w, steps, Close(i));
  }

  /** A download into a file nobody has begun an operation on, as for a pinned file, is not counted; a later
      eviction takes the file's size off all the same. */
  lemma UncountedDownload(w: World, i: nat) returns (steps: seq<Step>, r: World)
    requires Untouched(w, i)
    ensures steps == [Store(i, w.files[i].size), Close(i), Evict(i)]
    ensures IsRun(w, steps) && r == Exec(w, steps) && |r.files| == |w.files|
    ensures r.files[i].source == 0 && r.cache == Shrunk(w.cache, w.files[i].size)
    ensures w.cache >= w.files[i].size ==> Drift(r) == -(w.files[i].size as int)
  {
    hide Drift, Right, IsRun, Exec;
    steps, r := Start(w);
    steps, r := Then(w, steps, Store(i, w.files[i].size));
    steps, r := Then(w, steps, Close(i));
    steps, r := Then(w, steps, Evict(i));
  }
}
