/**
 What the threads of `FileThreads` do to the flat byte string: when a call takes effect, what a read hands out,
 that nobody waits for a mutex it holds, and exactly when a bit is lost, a resize is undone and a read looks too
 far.
 */
module FileEffects {
  import opened Bytes
  import opened ChunkMath
  import opened FileImage
  import opened OpenFile
  import opened FileThreads

  // ---- when calls take effect ----

  /** Call `k` hands out the bytes the file has at this moment, as many as it had for it when it looked. */
  predicate HandsOut(w: World, k: nat, v: World) {
    && k < |w.calls| && w.calls[k].request.Read? && k < |v.calls| && v.calls[k].stage == Over(true)
    && v.calls[k].data == Window(w.whole, w.calls[k].request.offset, w.calls[k].n)
  }

  /** What the step does to the flat byte string, and what it hands out of it. A resize that shortens the file
      takes effect with its file operation, one that extends it with the new size; a write with its file
      operation, together with the growth it needs. */
  predicate TakesEffect(w: World, s: Step, v: World)
    requires Enabled(w, s)
  {
    match s
    case ReadDirect(k) => v.whole == w.whole && HandsOut(w, k, v)
    case ReadLocked => v.whole == w.whole && (!w.error ==> HandsOut(w, w.holder.k, v))
    case CutFile(ok) =>
      var t := Target(w.holder.request);
      v.whole == if ok && w.holder.request.Resize? && t < |w.whole| then Truncated(w.whole, t) else w.whole
    case Adopt =>
      v.whole == if w.holder.request.Resize? then Truncated(w.whole, Target(w.holder.request)) else w.whole
    case StoreData(ok, count) =>
      var r := w.holder.request;
      v.whole == if ok then LogicalWrite(w.whole, r.offset, r.data) else PartWritten(w.whole, r.offset, r.data, count)
    case _ => v.whole == w.whole
  }

  lemma WindowPads(s: seq<byte>, t: seq<byte>, offset: nat, n: nat)
    requires |s| <= |t| && t[..|s|] == s && forall j :: |s| <= j < |t| ==> t[j] == 0
    ensures Window(t, offset, n) == Window(s, offset, n)
  {
    assert forall j :: 0 <= j < |s| ==> t[j] == t[..|s|][j];
  }

  lemma SettledWindow(w: World, offset: nat, n: nat)
    requires w.img.chunk > 0 && ImageOk(w) && w.img.sized
    ensures Window(w.img.local, offset, n) == Window(Settled(w).local, offset, n)
  {
    hide Refines, Window;
    SettledCount(w);
    if Between(w.holder) {
      WindowPads(Settled(w).local, w.img.local, offset, n);
    }
  }

  lemma WholeWindow(w: World, offset: nat, n: nat)
    requires WholeOk(w)
    ensures Window(w.img.logical, offset, n) == Window(w.whole, offset, n)
  {
    hide Window;
    if w.img.logical != w.whole {
      WindowPads(w.whole, w.img.logical, offset, n);
    }
  }

  /** Whoever has real chunks reads the bytes of the flat file, in the middle of a resize or a write too. */
  lemma ReadsWhole(w: World, k: nat)
    requires Inv(w) && k < |w.calls| && w.calls[k].request.Read?
    requires w.calls[k].stage == Direct || w.calls[k].stage == Locked
    ensures var c := w.calls[k]; Window(w.img.local, c.request.offset, c.n) == Window(w.whole, c.request.offset, c.n)
  {
    hide Refines, Window, LengthsOk, WholeOk, HolderOk, FetchesOk, ChunkOf;
    var c := w.calls[k];
    var m := Settled(w);
    assert CallOk(w.img, w.error, w.fetches, c);
    SettledCount(w);
    SettledWindow(w, c.request.offset, c.n);
    SettledReal(w, FirstChunk(c, w.img.chunk), EndChunk(c, w.img.chunk));
    RealWindow(m, c.request.offset, c.n);
    WholeWindow(w, c.request.offset, c.n);
  }

  lemma SettledReal(w: World, first: int, last: int)
    requires w.img.chunk > 0 && ImageOk(w) && RangeReal(w.img.bits, first, last)
    ensures RangeReal(Settled(w).bits, first, last)
  {
    hide Refines;
    SettledCount(w);
    CountShrinks(w);
  }

  lemma CountShrinks(w: World)
    requires w.img.chunk > 0 && ImageOk(w)
    ensures |Settled(w).bits| <= |w.img.bits|
  {
    hide Refines;
    if Between(w.holder) {
      CountMonotone(|w.img.logical|, w.size, w.img.chunk);
    }
  }

  lemma CountMonotone(a: nat, b: nat, chunk: nat)
    requires chunk > 0 && a <= b
    ensures Count(a, chunk) <= Count(b, chunk)
  {
    hide DivideWithCeiling;
    CeilingBounds(a, chunk);
    CeilingBounds(b, chunk);
    if a > 0 {
      MulCancel(Count(a, chunk) - 1, Count(b, chunk), chunk);
    }
  }

  lemma ReadTakesEffect(w: World, s: Step)
    requires Inv(w) && Enabled(w, s) && (s.ReadDirect? || s.ReadLocked?)
    ensures TakesEffect(w, s, Next(w, s))
  {
    hide ImageOk, WholeOk, FetchesOk, CallsOk, Window, CopyOk;
    if s.ReadDirect? {
      ReadsWhole(w, s.k);
    } else {
      ReadsWhole(w, w.holder.k);
    }
  }

  lemma ResizeTakesEffect(w: World, s: Step)
    requires Inv(w) && Enabled(w, s) && (s.CutFile? || s.Adopt? || s.CompareSize?)
    ensures TakesEffect(w, s, Next(w, s))
  {
    hide Refines, FetchesOk, CallsOk, CopyOk, Count, AdoptedBits, Truncated;
    WriteGrows(w);
  }

  /** The resize in the middle of a write only makes the file longer. */
  lemma WriteGrows(w: World)
    requires HolderOk(w) && LengthsOk(w)
    ensures Resizing(w.holder) && w.holder.request.Write? ==> Target(w.holder.request) > w.size >= |w.img.logical|
  {
    hide FinalReal, Count;
  }

  lemma WriteTakesEffect(w: World, ok: bool, count: nat)
    requires Inv(w) && Enabled(w, StoreData(ok, count))
    ensures TakesEffect(w, StoreData(ok, count), Next(w, StoreData(ok, count)))
  {
    hide Refines, FetchesOk, CallsOk, CopyOk, WriteAt, LogicalWrite, Grown;
    var r := w.holder.request;
    HeldIsReal(w);
    UnheldImage(w);
    WriteIsLogicalWrite(w.whole, r.offset, r.data);
    assert r.data[..|r.data|] == r.data;
    GrownWhole(w);
  }

  lemma GrownWhole(w: World)
    requires WholeOk(w) && HolderOk(w) && w.holder.Holds? && w.holder.request.Write? && w.size == |w.img.logical|
    requires w.holder.stage == Sized || (w.holder.stage == Entered && Target(w.holder.request) <= w.size)
    ensures Grown(w.whole, Target(w.holder.request)) == w.img.logical
  {
  }

  lemma StepTakesEffect(w: World, s: Step)
    requires Inv(w) && Enabled(w, s)
    ensures TakesEffect(w, s, Next(w, s))
  {
    hide Inv, Enabled, Next, TakesEffect;
    match s
    case ReadDirect(_) | ReadLocked => ReadTakesEffect(w, s);
    case CutFile(_) | Adopt | CompareSize => ResizeTakesEffect(w, s);
    case StoreData(ok, count) => WriteTakesEffect(w, ok, count);
    case _ => OtherTakesNone(w, s);
  }

  lemma OtherTakesNone(w: World, s: Step)
    requires Enabled(w, s)
    requires !s.ReadDirect? && !s.ReadLocked? && !s.CutFile? && !s.Adopt? && !s.StoreData? && !s.CompareSize?
    ensures TakesEffect(w, s, Next(w, s))
  {
  }

  // ---- runs ----

  predicate IsRun(w: World, steps: seq<Step>)
    decreases |steps|
  {
    steps == [] || (Enabled(w, steps[0]) && IsRun(Next(w, steps[0]), steps[1..]))
  }

  function Exec(w: World, steps: seq<Step>): World
    requires IsRun(w, steps)
    decreases |steps|
  {
    if steps == [] then w else Exec(Next(w, steps[0]), steps[1..])
  }

  predicate Hazardless(w: World, steps: seq<Step>)
    requires IsRun(w, steps)
    decreases |steps|
  {
    steps == [] || (!Hazard(w, steps[0]) && Hazardless(Next(w, steps[0]), steps[1..]))
  }

  predicate AllTakeEffect(w: World, steps: seq<Step>)
    requires IsRun(w, steps)
    decreases |steps|
  {
    steps == [] || (TakesEffect(w, steps[0], Next(w, steps[0])) && AllTakeEffect(Next(w, steps[0]), steps[1..]))
  }

  /** The provider or the file system fails. */
  predicate Fault(s: Step) {
    match s
    case CutFile(ok) => !ok
    case StoreData(ok, _) => !ok
    case FetchStores(_, ok, _) => !ok
    case _ => false
  }

  /** No error is latched and no call has failed. */
  predicate Smooth(w: World) {
    !w.error && forall k :: 0 <= k < |w.calls| ==> w.calls[k].stage != Over(false)
  }

  lemma StaysSmooth(w: World, s: Step)
    requires Inv(w) && Smooth(w) && Enabled(w, s) && !Fault(s)
    ensures Smooth(Next(w, s))
  {
    hide Inv;
    if s.CompareSize? {
      CompareKeeps(w);
    } else {
      OthersStaySmooth(w, s);
    }
  }

  lemma OthersStaySmooth(w: World, s: Step)
    requires Smooth(w) && Enabled(w, s) && !Fault(s) && !s.CompareSize?
    ensures Smooth(Next(w, s))
  {
    hide Count, ChunkOf, FinalChunk, AdoptedBits, Truncated, WriteAt;
  }

  /** In every interleaving without a hazard: each call takes effect on the flat byte string at one moment, what
      a read hands out is there at one moment, and without failures no call fails. */
  lemma {:induction false} RunIsFlat(w: World, steps: seq<Step>)
    requires Inv(w) && IsRun(w, steps) && Hazardless(w, steps)
    ensures Inv(Exec(w, steps)) && AllTakeEffect(w, steps)
    ensures Smooth(w) && (forall s :: s in steps ==> !Fault(s)) ==> Smooth(Exec(w, steps))
    decreases |steps|
  {
    hide Inv, Next, Enabled, Hazard, TakesEffect, Smooth;
    if steps != [] {
      StepTakesEffect(w, steps[0]);
      StepKeepsInv(w, steps[0]);
      if Smooth(w) && !Fault(steps[0]) {
        StaysSmooth(w, steps[0]);
      }
      RunIsFlat(Next(w, steps[0]), steps[1..]);
      assert forall s :: s in steps[1..] ==> s in steps;
    }
  }

  // ---- nobody waits for a mutex it holds ----

  function HolderStep(w: World): Step
    requires w.holder.Holds?
  {
    match w.holder.stage
    case Entered =>
      if w.holder.request.Read? then ReadLocked
      else if w.holder.request.Write? && Target(w.holder.request) <= w.size then StoreData(true, 0)
      else CopyBits
    case Copied => CutFile(true)
    case Cut => CompareSize
    case Compared => Adopt
    case Sized => StoreData(true, 0)
  }

  /** Whoever holds the mutex can go on; a write in particular has nothing to fetch for its resize. Only a
      shrinking resize is kept waiting, for the downloads of the chunks it cuts off. */
  lemma HolderGoesOn(w: World)
    requires Inv(w) && w.holder.Holds?
    ensures Enabled(w, HolderStep(w)) || (w.holder.request.Resize? && Target(w.holder.request) < w.size)
  {
    hide Refines, WholeOk, CopyOk, ChunkOf, Fits, HasLanded;
    HeldIsReal(w);
    if w.holder.request.Write? {
      WriteFinalReal(w);
    }
    if w.holder.stage == Entered && Target(w.holder.request) >= w.size {
      FetchesBelow(w);
    }
  }

  lemma WriteFinalReal(w: World)
    requires Inv(w) && w.holder.Holds? && w.holder.request.Write?
    ensures FinalReal(w.img.bits, Target(w.holder.request), w.img.chunk)
  {
    hide Refines, WholeOk, FetchesOk, CopyOk, ChunkOf, DivideWithCeiling;
    HeldIsReal(w);
    FinalInRange(w.holder.request.offset, |w.holder.request.data|, w.img.chunk);
  }

  /** The chunks a write makes real contain the final chunk of its resize. */
  lemma FinalInRange(offset: nat, size: nat, chunk: nat)
    requires chunk > 0 && size > 0
    ensures ChunkOf(offset, chunk) <= FinalChunk(offset + size, chunk) <= ChunkOf(offset + size, chunk)
  {
    hide ChunkOf, DivideWithCeiling;
    var end := offset + size - 1;
    var c := ChunkOf(end, chunk);
    ChunkOfMonotone(offset, end, chunk);
    ChunkOfMonotone(end, offset + size, chunk);
    ChunkOfUnique(end, chunk, c);
    CeilingUnique(offset + size, chunk, c + 1);
  }

  lemma FetchesBelow(w: World)
    requires Inv(w) && w.holder.Holds? && w.holder.stage == Entered && Target(w.holder.request) >= w.size
    ensures forall id :: 0 <= id < |w.fetches| && w.fetches[id].stage != Ended ==>
              w.fetches[id].chunk < Count(Target(w.holder.request), w.img.chunk)
  {
    hide Refines, WholeOk, CallsOk, Count, Fits, HasLanded;
    UnheldImage(w);
    CountMonotone(w.size, Target(w.holder.request), w.img.chunk);
    forall id | 0 <= id < |w.fetches| && w.fetches[id].stage != Ended
      ensures w.fetches[id].chunk < |w.img.bits|
    {
      assert FetchOk(w.img, w.error, w.fetches[id]);
    }
  }

  // ---- the lost bit ----

  /** A bit that is set while a resize has its copy is set for the moment: the copy that is going to be stored
      does not have it. */
  lemma MarkIsForgotten(w: World, id: nat)
    requires Inv(w) && Enabled(w, FetchMarks(id)) && Hazard(w, FetchMarks(id))
    ensures var v, c := Next(w, FetchMarks(id)), w.fetches[id].chunk;
            v.holder == w.holder && v.img.bits[c] && c < |AdoptedBits(v)| && !AdoptedBits(v)[c]
  {
    hide ImageOk, WholeOk, CallsOk, Fits, HasLanded, Count, FinalReal;
    GoingIsOk(w, id);
  }

  /** The adopted bits keep every bit that is set and not cut off, exactly if the copy has it or the number of
      chunks stays. */
  lemma AdoptedKeepExactly(w: World)
    requires w.holder.Holds? && |w.holder.copy| == |w.img.bits|
    ensures BitsGrow(w.img.bits, AdoptedBits(w)) <==>
            (Count(Target(w.holder.request), w.img.chunk) == |w.img.bits| ||
             forall c :: 0 <= c < |w.img.bits| && c < |AdoptedBits(w)| && w.img.bits[c] ==> w.holder.copy[c])
  {
    hide DivideWithCeiling;
    var count := Count(Target(w.holder.request), w.img.chunk);
    if count != |w.img.bits| {
      assert forall c :: 0 <= c < count ==> AdoptedBits(w)[c] == if c < |w.holder.copy| then w.holder.copy[c] else true;
    }
  }

  // ---- the late truncation ----

  /** Somebody is between the file operation of a resize and its end, and no download reaches behind the file. */
  predicate InResize(w: World) {
    && Between(w.holder) && InStage(w, w.holder.k, Locked) && w.img.chunk > 0
    && (|w.img.local| == w.size || |w.img.local| == Target(w.holder.request)) && |w.img.logical| <= |w.img.local|
    && |w.img.logical| <= w.size
    && forall id :: 0 <= id < |w.fetches| && w.fetches[id].stage == Going ==>
         (w.fetches[id].chunk as int) * w.img.chunk + |w.fetches[id].buffer| <= |w.img.logical|
  }

  /** The file has not, or no longer, the size the resize gave it. */
  predicate Undone(w: World)
    requires w.holder.Holds?
  {
    |w.img.local| != Target(w.holder.request)
  }

  lemma InvInResize(w: World)
    requires Inv(w) && Between(w.holder)
    ensures InResize(w) && !Undone(w)
  {
    hide Refines, WholeOk, CallsOk, HasLanded, ChunkOf;
    forall id | 0 <= id < |w.fetches| && w.fetches[id].stage == Going
      ensures (w.fetches[id].chunk as int) * w.img.chunk + |w.fetches[id].buffer| <= |w.img.logical|
    {
      GoingIsOk(w, id);
      BufferInside(w.img, w.fetches[id]);
    }
  }

  predicate HolderMoves(s: Step) {
    s.CutFile? || s.CompareSize? || s.Adopt? || s.StoreData? || s.ReadLocked? || s.CopyBits?
  }

  lemma UndoneStep(w: World, s: Step)
    requires InResize(w) && Enabled(w, s) && !HolderMoves(s)
    ensures InResize(Next(w, s)) && Next(w, s).holder == w.holder && Next(w, s).size == w.size
    ensures Undone(Next(w, s)) <==> Undone(w) || (Hazard(w, s) && s.LateTruncate?)
  {
    hide InResize, Enabled, Next;
    match s
    case FetchStores(_, _, _) => StoreUndoes(w, s);
    case FetchMarks(_) => MarkUndoes(w, s);
    case LateTruncate(_) => LateUndoes(w, s);
    case _ => LookUndoes(w, s);
  }

  lemma StoreUndoes(w: World, s: Step)
    requires InResize(w) && Enabled(w, s) && s.FetchStores?
    ensures InResize(Next(w, s)) && Next(w, s).holder == w.holder && Next(w, s).size == w.size
    ensures Undone(Next(w, s)) <==> Undone(w)
  {
    var f := w.fetches[s.id];
    StoredInside(w.img.local, f.chunk * w.img.chunk, if s.ok then f.buffer else f.buffer[..s.count]);
  }

  lemma MarkUndoes(w: World, s: Step)
    requires InResize(w) && Enabled(w, s) && s.FetchMarks?
    ensures InResize(Next(w, s)) && Next(w, s).holder == w.holder && Next(w, s).size == w.size
    ensures Undone(Next(w, s)) <==> Undone(w)
  {
  }

  lemma LateUndoes(w: World, s: Step)
    requires InResize(w) && Enabled(w, s) && s.LateTruncate?
    ensures InResize(Next(w, s)) && Next(w, s).holder == w.holder && Next(w, s).size == w.size
    ensures Undone(Next(w, s)) <==> Undone(w) || Hazard(w, s)
  {
  }

  lemma LookUndoes(w: World, s: Step)
    requires InResize(w) && Enabled(w, s) && !HolderMoves(s) && !s.FetchStores? && !s.FetchMarks? && !s.LateTruncate?
    ensures InResize(Next(w, s)) && Next(w, s).holder == w.holder && Next(w, s).size == w.size
    ensures Undone(Next(w, s)) <==> Undone(w)
  {
    hide Count, ChunkOf, FinalChunk, LastChunkSize, ProviderRange, Window;
  }

  lemma StoredInside(s: seq<byte>, offset: nat, data: seq<byte>)
    requires offset + |data| <= |s|
    ensures |WriteAt(s, offset, data)| == |s|
  {
  }

  predicate LateTruncates(s: Step) {
    s.LateTruncate?
  }

  /** From the file operation of a resize to the comparison of the sizes, whatever falls in between: the comparison
      fails exactly if a late truncation does, although nothing else has failed. */
  lemma {:induction false} UndoneExactly(w: World, steps: seq<Step>)
    requires InResize(w) && Target(w.holder.request) != w.size && IsRun(w, steps)
    requires forall s :: s in steps ==> !HolderMoves(s)
    ensures InResize(Exec(w, steps)) && Exec(w, steps).holder == w.holder
    ensures Undone(Exec(w, steps)) <==> Undone(w) || exists s :: s in steps && LateTruncates(s)
    decreases |steps|
  {
    hide InResize, Next, Enabled, Undone;
    if steps != [] {
      SameHolderHazard(w, steps[0]);
      UndoneStep(w, steps[0]);
      assert forall s :: s in steps <==> s == steps[0] || s in steps[1..];
      UndoneExactly(Next(w, steps[0]), steps[1..]);
    }
  }

  lemma SameHolderHazard(w: World, s: Step)
    requires InResize(w) && Target(w.holder.request) != w.size
    ensures w.holder.Holds? && (Hazard(w, s) && s.LateTruncate? <==> LateTruncates(s))
  {
  }

  lemma ComparedExactly(w: World, steps: seq<Step>)
    requires Inv(w) && Between(w.holder) && w.holder.stage == Cut && Target(w.holder.request) != w.size
    requires IsRun(w, steps) && forall s :: s in steps ==> !HolderMoves(s)
    ensures var v := Exec(w, steps);
            && Enabled(v, CompareSize)
            && (InStage(Next(v, CompareSize), w.holder.k, Over(false)) <==> exists s :: s in steps && LateTruncates(s))
  {
    hide Inv;
    InvInResize(w);
    UndoneExactly(w, steps);
  }

  /** A late truncation after the comparison leaves the file as long as it was, with a size that says otherwise. */
  lemma LateTruncationShortens(w: World, k: nat)
    requires Inv(w) && w.holder.Holds? && w.holder.stage == Compared && Enabled(w, LateTruncate(k))
    requires Hazard(w, LateTruncate(k))
    ensures var v := Next(w, LateTruncate(k));
            && Enabled(v, Adopt)
            && |Next(v, Adopt).img.local| == w.size != Next(v, Adopt).size == Target(w.holder.request)
            && !ImageOk(Next(v, Adopt))
  {
    hide FetchesOk, CallsOk, WholeOk, Count, AdoptedBits;
    var v := Next(Next(w, LateTruncate(k)), Adopt);
    assert v.img.sized && |v.img.local| != v.size;
    UnheldLength(v);
  }

  lemma UnheldLength(w: World)
    requires !Between(w.holder) && w.img.sized && |w.img.local| != w.size
    ensures !ImageOk(w)
  {
  }

  // ---- the size a read looks at ----

  /** A read that is asked for bytes behind the flat file while the object records a larger size: between the two
      halves of a write that extends the file, or of a resize that shortens it. */
  predicate LooksTooFar(w: World, size: nat, offset: nat) {
    size > 0 && offset < w.size && offset + size > |w.whole| && w.size > |w.whole|
  }

  lemma RecordedSize(w: World)
    requires Inv(w)
    ensures w.size >= |w.whole|
    ensures w.size > |w.whole| <==>
            ((w.holder.Holds? && w.holder.stage == Sized) || (Between(w.holder) && Target(w.holder.request) < w.size))
  {
    hide Refines, FetchesOk, CallsOk, CopyOk, Count;
  }

  lemma LooksExactly(w: World, size: nat, offset: nat)
    requires Inv(w)
    ensures CalculateReadSize(w.size, size, offset) == CalculateReadSize(|w.whole|, size, offset) <==>
            !LooksTooFar(w, size, offset)
  {
    hide ImageOk, WholeOk, HolderOk, FetchesOk, CallsOk;
    RecordedSize(w);
  }

  predicate SameCall(w: World, v: World, k: nat) {
    && k < |w.calls| && k < |v.calls| && v.calls[k].request == w.calls[k].request && v.calls[k].n == w.calls[k].n
  }

  lemma CallStaysSame(w: World, s: Step, k: nat)
    requires Enabled(w, s) && k < |w.calls|
    ensures SameCall(w, Next(w, s), k)
  {
    hide Count, ChunkOf, FinalChunk, Truncated, WriteAt, AdoptedBits, Window;
  }

  lemma {:induction false} CallStaysSameOn(w: World, steps: seq<Step>, k: nat)
    requires IsRun(w, steps) && k < |w.calls|
    ensures SameCall(w, Exec(w, steps), k)
    decreases |steps|
  {
    hide Enabled, Next;
    if steps != [] {
      CallStaysSame(w, steps[0], k);
      CallStaysSameOn(Next(w, steps[0]), steps[1..], k);
    }
  }

  /** The step in which call `k` hands out its bytes. */
  predicate Hands(w: World, k: nat, last: Step) {
    last == ReadDirect(k) || (last == ReadLocked && w.holder.Holds? && w.holder.k == k && !w.error)
  }

  /** A read takes its size when it begins and its bytes when it ends. If the flat file is the same then, the read
      is the read of that file exactly if it did not look too far. */
  lemma ReadsExactly(w: World, size: nat, offset: nat, steps: seq<Step>, last: Step)
    requires Inv(w) && Enabled(w, Begin(Read(size, offset)))
    requires var v := Next(w, Begin(Read(size, offset)));
             && IsRun(v, steps) && Hazardless(v, steps)
             && Enabled(Exec(v, steps), last) && Hands(Exec(v, steps), |w.calls|, last) &&
             Exec(v, steps).whole == w.whole
    ensures var u := Exec(Next(w, Begin(Read(size, offset))), steps);
            && |w.calls| < |Next(u, last).calls|
            && (Next(u, last).calls[|w.calls|].data == LogicalRead(w.whole, size, offset) <==>
                !LooksTooFar(w, size, offset))
  {
    hide Inv, Next, Enabled, Window, LogicalRead;
    var k := |w.calls|;
    var v := Next(w, Begin(Read(size, offset)));
    StepKeepsInv(w, Begin(Read(size, offset)));
    RunIsFlat(v, steps);
    var u := Exec(v, steps);
    StepTakesEffect(u, last);
    BeginIs(w, size, offset);
    CallStaysSameOn(v, steps, k);
    HandsWhole(u, k, last);
    LooksExactly(w, size, offset);
    WindowIsRead(w.whole, size, offset, CalculateReadSize(w.size, size, offset));
  }

  lemma BeginIs(w: World, size: nat, offset: nat)
    requires Enabled(w, Begin(Read(size, offset)))
    ensures var v := Next(w, Begin(Read(size, offset)));
            && |v.calls| == |w.calls| + 1 && v.calls[|w.calls|].request == Read(size, offset)
            && v.calls[|w.calls|].n == CalculateReadSize(w.size, size, offset)
  {
  }

  lemma HandsWhole(u: World, k: nat, last: Step)
    requires Inv(u) && Enabled(u, last) && Hands(u, k, last) && TakesEffect(u, last, Next(u, last))
    ensures k < |u.calls| && u.calls[k].request.Read? && u.calls[k].n > 0 && k < |Next(u, last).calls|
    ensures Next(u, last).calls[k].data == Window(u.whole, u.calls[k].request.offset, u.calls[k].n)
  {
    hide ImageOk, WholeOk, FetchesOk, CopyOk, Window;
    assert CallOk(u.img, u.error, u.fetches, u.calls[k]);
  }

  lemma WindowIsRead(s: seq<byte>, size: nat, offset: nat, n: nat)
    requires n > 0 && CalculateReadSize(|s|, size, offset) <= n
    ensures Window(s, offset, n) == LogicalRead(s, size, offset) <==> n == CalculateReadSize(|s|, size, offset)
  {
    var m := CalculateReadSize(|s|, size, offset);
    if n == m {
      WindowInside(s, offset, n);
    } else {
      assert |LogicalRead(s, size, offset)| <= m < |Window(s, offset, n)|;
    }
  }
}
