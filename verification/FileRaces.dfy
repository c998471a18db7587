/**
 Runs from a fresh object, without a failure of the provider or the file system, in which threads get into each
 other's way (repertory/librepertory/src/file_manager/open_file.cpp): a read between the halves of a write, a
 truncation of `check_start` that undoes a resize, and a write that is lost because a resize forgets a chunk.
 */
module FileRaces {
  import opened ChunkMath
  import opened FileImage
  import opened OpenFile
  import opened FileThreads
  import opened FileEffects

  ghost predicate Reaches(w: World, v: World) {
    exists steps :: IsRun(w, steps) && Exec(w, steps) == v && forall s :: s in steps ==> !Fault(s)
  }

  lemma {:induction false} RunThenStep(w: World, steps: seq<Step>, s: Step)
    requires IsRun(w, steps) && Enabled(Exec(w, steps), s)
    ensures IsRun(w, steps + [s]) && Exec(w, steps + [s]) == Next(Exec(w, steps), s)
    decreases |steps|
  {
    hide Enabled, Next;
    if steps == [] {
      assert ([] + [s])[1..] == [];
    } else {
      RunThenStep(Next(w, steps[0]), steps[1..], s);
      assert (steps + [s])[1..] == steps[1..] + [s];
    }
  }

  lemma ReachesItself(w: World)
    ensures Reaches(w, w)
  {
    assert IsRun(w, []) && Exec(w, []) == w;
  }

  lemma Follow(w: World, v: World, s: Step) returns (u: World)
    requires Reaches(w, v) && Enabled(v, s) && !Fault(s)
    ensures u == Next(v, s) && Reaches(w, u)
  {
    hide Enabled, Next, Fault;
    var steps :| IsRun(w, steps) && Exec(w, steps) == v && forall s :: s in steps ==> !Fault(s);
    RunThenStep(w, steps, s);
    u := Next(v, s);
  }

  // ---- a read between the halves of a write ----

  const EMPTY := World(Image(1, [], [], [], [], false), 0, [], false, Nobody, [], [])

  const WRITE := Write(0, [9])

  lemma AppendReady() returns (w: World)
    ensures Reaches(EMPTY, w)
    ensures w == World(Image(1, [], [], [], [], true), 0, [], false, Nobody, [Call(WRITE, 0, 1, Ranging(0), [])], [])
  {
    hide Reaches;
    ReachesItself(EMPTY);
    w := Follow(EMPTY, EMPTY, Begin(WRITE));
    assert w.calls == [Call(WRITE, 0, 0, Begun, [])];
    w := Follow(EMPTY, w, Start(0));
    assert w.calls == [Call(WRITE, 0, 0, Started, [])];
    w := Follow(EMPTY, w, Choose(0));
    assert w.calls == [Call(WRITE, 0, 1, Ranging(0), [])];
  }

  lemma AppendLooks() returns (w: World)
    ensures Reaches(EMPTY, w)
    ensures w == World(Image(1, [], [], [], [], true), 0, [], false, Nobody, [Call(WRITE, 0, 1, Ready, [])], [])
  {
    hide Reaches;
    w := AppendReady();
    w := Follow(EMPTY, w, Skip(0));
    assert w.calls == [Call(WRITE, 0, 1, Ranging(1), [])];
    w := Follow(EMPTY, w, Skip(0));
    assert w.calls == [Call(WRITE, 0, 1, Ranging(2), [])];
    w := Follow(EMPTY, w, GetReady(0));
    assert w.calls == [Call(WRITE, 0, 1, Ready, [])];
  }

  lemma AppendCopies() returns (w: World)
    ensures Reaches(EMPTY, w)
    ensures w == World(Image(1, [], [], [], [], true), 0, [], false, Holds(0, WRITE, Copied, []),
                       [Call(WRITE, 0, 1, Locked, [])], [])
  {
    hide Reaches;
    w := AppendLooks();
    w := Follow(EMPTY, w, Lock(0));
    assert w.calls == [Call(WRITE, 0, 1, Locked, [])];
    w := Follow(EMPTY, w, CopyBits);
  }

  lemma AppendGrows() returns (w: World)
    ensures Reaches(EMPTY, w)
    ensures w == World(Image(1, [], [0], [true], [0], true), 1, [], false, Holds(0, WRITE, Sized, []),
                       [Call(WRITE, 0, 1, Locked, [])], [])
  {
    hide Reaches;
    w := AppendCopies();
    w := Follow(EMPTY, w, CutFile(true));
    assert w.img.local == [0];
    w := Follow(EMPTY, w, CompareSize);
    w := Follow(EMPTY, w, Adopt);
    assert w.img.bits == [true] && w.img.logical == [0];
  }

  lemma ReadBetween() returns (w: World)
    ensures Reaches(EMPTY, w)
    ensures w == World(Image(1, [], [0], [true], [0], true), 1, [], false, Holds(0, WRITE, Sized, []),
                       [Call(WRITE, 0, 1, Locked, []), Call(Read(1, 0), 1, 0, Direct, [])], [])
  {
    hide Reaches;
    w := AppendGrows();
    w := Follow(EMPTY, w, Begin(Read(1, 0)));
    assert w.calls == [Call(WRITE, 0, 1, Locked, []), Call(Read(1, 0), 1, 0, Begun, [])];
    w := Follow(EMPTY, w, Start(1));
    assert w.calls == [Call(WRITE, 0, 1, Locked, []), Call(Read(1, 0), 1, 0, Started, [])];
    w := Follow(EMPTY, w, Choose(1));
    assert w.calls == [Call(WRITE, 0, 1, Locked, []), Call(Read(1, 0), 1, 0, Direct, [])];
  }

  /** The read returns a zero. Before the write there is nothing to read, and after it there is the byte written. */
  lemma TornRead() returns (w: World, v: World)
    ensures Reaches(EMPTY, w) && Reaches(EMPTY, v)
    ensures |w.calls| == 2 && w.calls[1].stage == Over(true) && w.calls[1].data == [0]
    ensures LogicalRead(w.whole, 1, 0) == []
    ensures Enabled(w, StoreData(true, 0)) && v == Next(w, StoreData(true, 0)) && LogicalRead(v.whole, 1, 0) == [9]
  {
    hide Reaches;
    w := ReadBetween();
    w := Follow(EMPTY, w, ReadDirect(1));
    assert w.calls[1].data == [0];
    v := Follow(EMPTY, w, StoreData(true, 0));
    assert v.whole == [9];
  }

  // ---- a late truncation ----

  /** A file of one byte, in chunks of one byte, of which nothing is local. */
  const ONE_BYTE := World(Image(1, [7], [], [false], [7], false), 1, [7], false, Nobody, [], [])

  const LATE_READ := Call(Read(1, 0), 1, 0, Late, [])

  lemma BothStart() returns (w: World)
    ensures Reaches(ONE_BYTE, w)
    ensures w == World(Image(1, [7], [], [false], [7], false), 1, [7], false, Nobody,
                       [Call(Resize(2), 0, 0, Late, []), LATE_READ], [])
  {
    hide Reaches;
    ReachesItself(ONE_BYTE);
    w := Follow(ONE_BYTE, ONE_BYTE, Begin(Resize(2)));
    assert w.calls == [Call(Resize(2), 0, 0, Begun, [])];
    w := Follow(ONE_BYTE, w, Begin(Read(1, 0)));
    assert w.calls == [Call(Resize(2), 0, 0, Begun, []), Call(Read(1, 0), 1, 0, Begun, [])];
    w := Follow(ONE_BYTE, w, Start(0));
    assert w.calls == [Call(Resize(2), 0, 0, Late, []), Call(Read(1, 0), 1, 0, Begun, [])];
    w := Follow(ONE_BYTE, w, Start(1));
    assert w.calls == [Call(Resize(2), 0, 0, Late, []), LATE_READ];
  }

  lemma ResizeReady() returns (w: World)
    ensures Reaches(ONE_BYTE, w)
    ensures w == World(Image(1, [7], [0], [false], [7], true), 1, [7], false, Nobody,
                       [Call(Resize(2), 0, 0, Ready, []), LATE_READ], [])
  {
    hide Reaches;
    w := BothStart();
    w := Follow(ONE_BYTE, w, LateTruncate(0));
    assert w.img.local == [0] && w.calls == [Call(Resize(2), 0, 0, Started, []), LATE_READ];
    w := Follow(ONE_BYTE, w, Choose(0));
    assert w.calls == [Call(Resize(2), 0, 0, Ready, []), LATE_READ];
  }

  lemma ResizeCuts() returns (w: World)
    ensures Reaches(ONE_BYTE, w)
    ensures w == World(Image(1, [7], [0, 0], [false], [7], true), 1, [7], false, Holds(0, Resize(2), Cut, [false]),
                       [Call(Resize(2), 0, 0, Locked, []), LATE_READ], [])
  {
    hide Reaches;
    w := ResizeReady();
    w := Follow(ONE_BYTE, w, Lock(0));
    assert w.calls == [Call(Resize(2), 0, 0, Locked, []), LATE_READ];
    w := Follow(ONE_BYTE, w, CopyBits);
    w := Follow(ONE_BYTE, w, CutFile(true));
    assert w.img.local == [0, 0];
  }

  /** The thread that found the file short truncates it to the size it was: the resize fails and latches an error. */
  lemma LateTruncationFailsResize() returns (w: World)
    ensures Reaches(ONE_BYTE, w) && w.error && |w.calls| == 2 && w.calls[0].stage == Over(false)
  {
    hide Reaches;
    w := ResizeCuts();
    w := Follow(ONE_BYTE, w, LateTruncate(1));
    assert w.img.local == [0];
    w := Follow(ONE_BYTE, w, CompareSize);
  }

  // ---- a write that is lost ----

  lemma WriteStarts() returns (w: World)
    ensures Reaches(ONE_BYTE, w)
    ensures w == World(Image(1, [7], [0], [false], [7], true), 1, [7], false, Nobody,
                       [Call(WRITE, 0, 0, Started, [])], [])
  {
    hide Reaches;
    ReachesItself(ONE_BYTE);
    w := Follow(ONE_BYTE, ONE_BYTE, Begin(WRITE));
    assert w.calls == [Call(WRITE, 0, 0, Begun, [])];
    w := Follow(ONE_BYTE, w, Start(0));
    assert w.calls == [Call(WRITE, 0, 0, Late, [])];
    w := Follow(ONE_BYTE, w, LateTruncate(0));
    assert w.img.local == [0] && w.calls == [Call(WRITE, 0, 0, Started, [])];
  }

  const WAITING := Call(WRITE, 0, 0, Waiting(0, 0), [])

  lemma WriteWaits() returns (w: World)
    ensures Reaches(ONE_BYTE, w)
    ensures w == World(Image(1, [7], [0], [false], [7], true), 1, [7], false, Nobody, [WAITING], [Fetch(0, [7], Going)])
  {
    hide Reaches;
    w := WriteStarts();
    w := Follow(ONE_BYTE, w, Choose(0));
    assert w.calls == [Call(WRITE, 0, 0, Ranging(0), [])];
    assert w.img.provider[0..1] == [7];
    w := Follow(ONE_BYTE, w, StartFetch(0));
    assert w.calls == [WAITING] && w.fetches == [Fetch(0, [7], Going)];
  }

  lemma ResizerReady() returns (w: World)
    ensures Reaches(ONE_BYTE, w)
    ensures w == World(Image(1, [7], [0], [false], [7], true), 1, [7], false, Nobody,
                       [WAITING, Call(Resize(2), 0, 0, Ready, [])], [Fetch(0, [7], Going)])
  {
    hide Reaches;
    w := WriteWaits();
    w := Follow(ONE_BYTE, w, Begin(Resize(2)));
    assert w.calls == [WAITING, Call(Resize(2), 0, 0, Begun, [])];
    w := Follow(ONE_BYTE, w, Start(1));
    assert w.calls == [WAITING, Call(Resize(2), 0, 0, Started, [])];
    w := Follow(ONE_BYTE, w, Choose(1));
    assert w.calls == [WAITING, Call(Resize(2), 0, 0, Ready, [])];
  }

  lemma ResizerCopies() returns (w: World)
    ensures Reaches(ONE_BYTE, w)
    ensures w == World(Image(1, [7], [0], [false], [7], true), 1, [7], false, Holds(1, Resize(2), Copied, [false]),
                       [WAITING, Call(Resize(2), 0, 0, Locked, [])], [Fetch(0, [7], Going)])
  {
    hide Reaches;
    w := ResizerReady();
    w := Follow(ONE_BYTE, w, Lock(1));
    assert w.calls == [WAITING, Call(Resize(2), 0, 0, Locked, [])];
    w := Follow(ONE_BYTE, w, CopyBits);
  }

  lemma MarkedMeanwhile() returns (w: World)
    ensures Reaches(ONE_BYTE, w)
    ensures w == World(Image(1, [7], [7], [true], [7], true), 1, [7], false, Holds(1, Resize(2), Copied, [false]),
                       [WAITING, Call(Resize(2), 0, 0, Locked, [])], [Fetch(0, [7], Marked)])
  {
    hide Reaches;
    w := ResizerCopies();
    w := Follow(ONE_BYTE, w, FetchStores(0, true, 0));
    assert w.img.local == [7] && w.fetches == [Fetch(0, [7], Landed)];
    w := Follow(ONE_BYTE, w, FetchMarks(0));
    assert w.img.bits == [true] && w.fetches == [Fetch(0, [7], Marked)];
  }

  const RESIZED := Call(Resize(2), 0, 0, Over(true), [])

  lemma ResizerForgets() returns (w: World)
    ensures Reaches(ONE_BYTE, w)
    ensures w == World(Image(1, [7], [7, 0], [false, true], [7, 0], true), 2, [7, 0], false, Nobody,
                       [WAITING, RESIZED], [Fetch(0, [7], Marked)])
  {
    hide Reaches;
    w := MarkedMeanwhile();
    w := Follow(ONE_BYTE, w, CutFile(true));
    assert w.img.local == [7, 0];
    w := Follow(ONE_BYTE, w, CompareSize);
    w := Follow(ONE_BYTE, w, Adopt);
    assert w.img.bits == [false, true] && w.img.logical == [7, 0] && w.calls == [WAITING, RESIZED];
  }

  lemma WriterGoesOn() returns (w: World)
    ensures Reaches(ONE_BYTE, w)
    ensures w == World(Image(1, [7], [7, 0], [false, true], [7, 0], true), 2, [7, 0], false, Nobody,
                       [Call(WRITE, 0, 0, Ready, []), RESIZED], [Fetch(0, [7], Ended)])
  {
    hide Reaches;
    w := ResizerForgets();
    w := Follow(ONE_BYTE, w, FetchEnds(0));
    assert w.fetches == [Fetch(0, [7], Ended)];
    w := Follow(ONE_BYTE, w, Woken(0));
    assert w.calls == [Call(WRITE, 0, 0, Ranging(1), []), RESIZED];
    w := Follow(ONE_BYTE, w, GetReady(0));
    assert w.calls == [Call(WRITE, 0, 0, Ready, []), RESIZED];
  }

  const WRITTEN := Call(WRITE, 0, 0, Over(true), [])

  lemma WriterWrites() returns (w: World)
    ensures Reaches(ONE_BYTE, w)
    ensures w == World(Image(1, [7], [9, 0], [false, true], [9, 0], true), 2, [9, 0], false, Nobody,
                       [WRITTEN, RESIZED], [Fetch(0, [7], Ended)])
  {
    hide Reaches;
    w := WriterGoesOn();
    w := Follow(ONE_BYTE, w, Lock(0));
    assert w.calls == [Call(WRITE, 0, 0, Locked, []), RESIZED];
    w := Follow(ONE_BYTE, w, StoreData(true, 0));
    assert w.img.local == [9, 0] && w.img.logical == [9, 0] && w.calls == [WRITTEN, RESIZED];
  }

  lemma FetchedAgain() returns (w: World)
    ensures Reaches(ONE_BYTE, w)
    ensures w == World(Image(1, [7], [7, 0], [true, true], [9, 0], true), 2, [9, 0], false, Nobody,
                       [WRITTEN, RESIZED], [Fetch(0, [7], Ended), Fetch(0, [7], Marked)])
  {
    hide Reaches;
    w := WriterWrites();
    assert w.img.provider[0..1] == [7];
    w := Follow(ONE_BYTE, w, FetchAny(0));
    assert w.fetches == [Fetch(0, [7], Ended), Fetch(0, [7], Going)];
    w := Follow(ONE_BYTE, w, FetchStores(1, true, 0));
    assert w.img.local == [7, 0] && w.fetches == [Fetch(0, [7], Ended), Fetch(0, [7], Landed)];
    w := Follow(ONE_BYTE, w, FetchMarks(1));
    assert w.img.bits == [true, true] && w.fetches == [Fetch(0, [7], Ended), Fetch(0, [7], Marked)];
  }

  lemma ReadsAgain() returns (w: World)
    ensures Reaches(ONE_BYTE, w)
    ensures w == World(Image(1, [7], [7, 0], [true, true], [9, 0], true), 2, [9, 0], false, Nobody,
                       [WRITTEN, RESIZED, Call(Read(1, 0), 1, 0, Direct, [])],
                       [Fetch(0, [7], Ended), Fetch(0, [7], Marked)])
  {
    hide Reaches;
    w := FetchedAgain();
    w := Follow(ONE_BYTE, w, Begin(Read(1, 0)));
    assert w.calls == [WRITTEN, RESIZED, Call(Read(1, 0), 1, 0, Begun, [])];
    w := Follow(ONE_BYTE, w, Start(2));
    assert w.calls == [WRITTEN, RESIZED, Call(Read(1, 0), 1, 0, Started, [])];
    w := Follow(ONE_BYTE, w, Choose(2));
    assert w.calls == [WRITTEN, RESIZED, Call(Read(1, 0), 1, 0, Direct, [])];
  }

  /** Nothing has failed, the write of the byte 9 has succeeded, and a read returns the provider's 7: the resize
      stored its copy of the bits over the one the download had set, the write went into a chunk that was not
      real, and the chunk was downloaded again. */
  lemma LostWrite() returns (w: World)
    ensures Reaches(ONE_BYTE, w) && !w.error && w.whole == [9, 0]
    ensures |w.calls| == 3 && w.calls[0] == WRITTEN && w.calls[2].stage == Over(true) && w.calls[2].data == [7]
  {
    hide Reaches;
    w := ReadsAgain();
    w := Follow(ONE_BYTE, w, ReadDirect(2));
    assert w.calls[2].data == [7];
  }

  /** The two objects the runs start from are in order. */
  lemma StartsInOrder()
    ensures Inv(EMPTY) && Inv(ONE_BYTE)
  {
  }
}
