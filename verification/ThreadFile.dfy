/**
 `thread_file` (support/src/utils/file_thread_file.cpp): every operation is queued for one worker thread,
 and closing the file is itself such an operation. A step system with one step per lock-held section, per
 executed operation and per unprotected access to the flags of a queued item.
 */
module ThreadFile {

  /** A queued operation on a file in state `S`; the one `close` queues also asks the worker to stop. */
  datatype Job<!S> = Job(step: S -> (S, bool), closes: bool)

  /** `mtx_`, when it is held across steps: a submitter that has seen no stop request and is to queue. */
  datatype Lock<!S> = Free | Submitting(job: Job<S>)

  datatype Pc = NotStarted | Top | WantLock | Running | Final | Draining | Exited

  /** How far the worker is with its current item; `Publishing` is `done` between its two assignments. */
  datatype Stage = Nothing | Taken | Acted | Publishing

  /** The thread in `wait`: before the unlocked look at `complete`, blocked, about to read `success`, back. */
  datatype Waiter = Unchecked | Blocked | Leaving | Returned(result: bool)

  /** Items are numbered in the order they were accepted. `ran` and `results` record what was executed. */
  datatype State<!S> = State(file: S, stop: bool, lock: Lock<S>, pc: Pc, stage: Stage, batch: seq<nat>, queue: seq<nat>,
                             accepted: seq<Job<S>>, ran: seq<nat>, results: seq<bool>,
                             complete: seq<bool>, success: seq<bool>, waiters: seq<Waiter>)

  datatype Step<!S> =
    | Check(job: Job<S>)
    | Push
    | LoopTest
    | TakeBatch
    | TakeFinalBatch
    | TakeItem
    | Act
    | SetComplete
    | SetSuccess
    | EndBatch
    | FirstLook(id: nat)
    | Wake(id: nat)
    | Leave(id: nat)

  function Start<S>(file: S): State<S> {
    State(file, false, Free, NotStarted, Nothing, [], [], [], [], [], [], [], [])
  }

  predicate Enabled<S>(s: State<S>, step: Step<S>) {
    match step
    case Check(_) => s.lock.Free?
    case Push => s.lock.Submitting?
    case LoopTest => s.pc == Top
    case TakeBatch => s.pc == WantLock && s.lock.Free? && (s.stop || s.queue != [])
    case TakeFinalBatch => s.pc == Final && s.lock.Free?
    case TakeItem => s.pc in {Running, Draining} && s.stage == Nothing && s.batch != []
    case Act => s.stage == Taken && s.batch != [] && s.batch[0] < |s.accepted|
    case SetComplete => s.stage == Acted && s.batch != [] && s.batch[0] < |s.complete|
    case SetSuccess => s.stage == Publishing && s.batch != [] && s.batch[0] < |s.success| && s.results != []
    case EndBatch => s.pc in {Running, Draining} && s.stage == Nothing && s.batch == []
    case FirstLook(id) => id < |s.waiters| && id < |s.complete| && s.waiters[id] == Unchecked
    case Wake(id) =>
      id < |s.waiters| && id < |s.complete| && s.waiters[id] == Blocked && s.complete[id] && !InDone(s, id)
    case Leave(id) => id < |s.waiters| && id < |s.success| && s.waiters[id] == Leaving
  }

  /** The worker is inside `done` of item `id`, holding the item's mutex. */
  predicate InDone<S>(s: State<S>, id: nat) {
    s.stage == Publishing && s.batch != [] && s.batch[0] == id
  }

  function Next<S>(s: State<S>, step: Step<S>): State<S>
    requires Enabled(s, step)
  {
    match step
    case Check(job) => if s.stop then s else s.(lock := Submitting(job))
    case Push =>
      s.(lock := Free, pc := if s.pc == NotStarted then Top else s.pc, accepted := s.accepted + [s.lock.job],
         queue := s.queue + [|s.accepted|], complete := s.complete + [false], success := s.success + [false],
         waiters := s.waiters + [Unchecked])
    case LoopTest => s.(pc := if s.stop then Final else WantLock)
    case TakeBatch => if s.stop then s.(pc := Final) else s.(pc := Running, batch := s.queue, queue := [])
    case TakeFinalBatch => s.(pc := Draining, batch := s.queue, queue := [])
    case TakeItem => s.(stage := Taken)
    case Act =>
      var job := s.accepted[s.batch[0]];
      var (file, ok) := job.step(s.file);
      s.(stage := Acted, file := file, stop := s.stop || job.closes,
         ran := s.ran + [s.batch[0]], results := s.results + [ok])
    case SetComplete => s.(stage := Publishing, complete := s.complete[s.batch[0] := true])
    case SetSuccess =>
      s.(stage := Nothing, success := s.success[s.batch[0] := s.results[|s.results| - 1]], batch := s.batch[1..])
    case EndBatch => s.(pc := if s.pc == Running then Top else Exited)
    case FirstLook(id) => s.(waiters := s.waiters[id := if s.complete[id] then Leaving else Blocked])
    case Wake(id) => s.(waiters := s.waiters[id := Leaving])
    case Leave(id) => s.(waiters := s.waiters[id := Returned(s.success[id])])
  }

  // ---- what one thread after the other would have done ----

  function After<S>(file: S, jobs: seq<Job<S>>): S {
    if jobs == [] then file else jobs[|jobs| - 1].step(After(file, jobs[..|jobs| - 1])).0
  }

  function ResultOf<S>(file: S, jobs: seq<Job<S>>, i: nat): bool
    requires i < |jobs|
  {
    jobs[i].step(After(file, jobs[..i])).1
  }

  // ---- the invariant ----

  /** How many items are done with. */
  function Finished<S>(s: State<S>): int {
    |s.results| - (if s.stage in {Acted, Publishing} then 1 else 0)
  }

  /** Executed, current, fetched and queued items are the accepted ones, each once and in order. */
  predicate InOrder<S>(s: State<S>) {
    && (forall k :: 0 <= k < |s.ran| ==> s.ran[k] == k)
    && |s.ran| == |s.results|
    && 0 <= Finished(s)
    && Finished(s) + |s.batch| + |s.queue| == |s.accepted|
    && (forall k :: 0 <= k < |s.batch| ==> s.batch[k] == Finished(s) + k)
    && (forall k :: 0 <= k < |s.queue| ==> s.queue[k] == Finished(s) + |s.batch| + k)
  }

  ghost predicate Sequential<S(!new)>(file: S, s: State<S>) {
    && |s.results| <= |s.accepted|
    && s.file == After(file, s.accepted[..|s.results|])
    && forall i :: 0 <= i < |s.results| ==> s.results[i] == ResultOf(file, s.accepted, i)
  }

  predicate CompleteRight<S>(s: State<S>) {
    && |s.complete| == |s.accepted|
    && forall i :: 0 <= i < |s.complete| ==> (s.complete[i] <==> i < Finished(s) || InDone(s, i))
  }

  predicate SuccessRight<S>(s: State<S>) {
    && |s.success| == |s.accepted|
    && forall i :: 0 <= i < |s.success| ==> (s.success[i] <==> i < Finished(s) && i < |s.results| && s.results[i])
  }

  /** Nobody goes on before its item is complete. */
  predicate WaitersRight<S>(s: State<S>) {
    && |s.waiters| == |s.complete|
    && forall i :: 0 <= i < |s.waiters| && s.waiters[i] != Unchecked && s.waiters[i] != Blocked ==>
         i < |s.results| && s.complete[i]
  }

  predicate NoFalseSuccess<S>(s: State<S>) {
    forall i :: 0 <= i < |s.waiters| && s.waiters[i] == Returned(true) ==> i < |s.results| && s.results[i]
  }

  predicate FlagsRight<S>(s: State<S>) {
    CompleteRight(s) && SuccessRight(s) && WaitersRight(s) && NoFalseSuccess(s)
  }

  predicate CloseRan<S>(s: State<S>) {
    exists i :: 0 <= i < |s.results| && i < |s.accepted| && s.accepted[i].closes
  }

  predicate Control<S>(s: State<S>) {
    && (s.stop <==> CloseRan(s))
    && (s.stage != Nothing ==> s.batch != [] && s.pc in {Running, Draining})
    && (s.pc in {NotStarted, Top, WantLock, Final, Exited} ==> s.batch == [])
    && (s.pc == NotStarted ==> s.accepted == [])
    && (s.pc in {Final, Draining, Exited} ==> s.stop)
    && (s.pc in {Draining, Exited} ==> s.lock.Free? && s.queue == [])
  }

  ghost predicate Inv<S(!new)>(file: S, s: State<S>) {
    InOrder(s) && Sequential(file, s) && FlagsRight(s) && Control(s)
  }

  lemma KeepsOrder<S>(s: State<S>, step: Step<S>)
    requires InOrder(s) && Control(s) && Enabled(s, step)
    ensures InOrder(Next(s, step))
  {
    hide CloseRan, Control;
    match step
    case Push => PushKeepsOrder(s);
    case SetSuccess => SetSuccessKeepsOrder(s);
    case Act => ActKeepsOrder(s);
    case TakeBatch | TakeFinalBatch => TakesInOrder(s, step);
    case _ => OthersKeepOrder(s, step);
  }

  lemma PushKeepsOrder<S>(s: State<S>)
    requires InOrder(s) && Enabled(s, Push)
    ensures InOrder(Next(s, Push))
  {
  }

  lemma SetSuccessKeepsOrder<S>(s: State<S>)
    requires InOrder(s) && Enabled(s, SetSuccess)
    ensures InOrder(Next(s, SetSuccess))
  {
  }

  lemma ActKeepsOrder<S>(s: State<S>)
    requires InOrder(s) && Enabled(s, Act)
    ensures InOrder(Next(s, Act))
  {
  }

  lemma TakesInOrder<S>(s: State<S>, step: Step<S>)
    requires InOrder(s) && Control(s) && (step.TakeBatch? || step.TakeFinalBatch?) && Enabled(s, step)
    ensures InOrder(Next(s, step))
  {
    hide CloseRan;
  }

  lemma OthersKeepOrder<S>(s: State<S>, step: Step<S>)
    requires InOrder(s) && Enabled(s, step)
    requires step.Check? || step.LoopTest? || step.TakeItem? || step.SetComplete? || step.EndBatch? ||
             step.FirstLook? || step.Wake? || step.Leave?
    ensures InOrder(Next(s, step))
  {
  }

  lemma KeepsSequential<S(!new)>(file: S, s: State<S>, step: Step<S>)
    requires InOrder(s) && Sequential(file, s) && Control(s) && Enabled(s, step)
    ensures Sequential(file, Next(s, step))
  {
    hide CloseRan, After, ResultOf;
    match step
    case Push => PushKeepsSequential(file, s);
    case Act => ActKeepsSequential(file, s);
    case _ =>
  }

  lemma ActKeepsSequential<S(!new)>(file: S, s: State<S>)
    requires InOrder(s) && Sequential(file, s) && Control(s) && Enabled(s, Act)
    ensures Sequential(file, Next(s, Act))
  {
    hide CloseRan;
    var n := |s.results|;
    assert s.accepted[..n + 1][..n] == s.accepted[..n];
  }

  lemma PushKeepsSequential<S(!new)>(file: S, s: State<S>)
    requires Sequential(file, s) && Enabled(s, Push)
    ensures Sequential(file, Next(s, Push))
  {
    var t := Next(s, Push);
    assert t.accepted[..|s.results|] == s.accepted[..|s.results|];
    forall i | 0 <= i < |s.results|
      ensures ResultOf(file, t.accepted, i) == ResultOf(file, s.accepted, i)
    {
      assert t.accepted[..i] == s.accepted[..i];
    }
  }

  lemma KeepsComplete<S>(s: State<S>, step: Step<S>)
    requires InOrder(s) && CompleteRight(s) && Control(s) && Enabled(s, step)
    ensures CompleteRight(Next(s, step))
  {
    hide CloseRan;
  }

  lemma KeepsSuccess<S>(s: State<S>, step: Step<S>)
    requires InOrder(s) && SuccessRight(s) && Control(s) && Enabled(s, step)
    ensures SuccessRight(Next(s, step))
  {
    hide CloseRan;
  }

  lemma KeepsWaiters<S>(s: State<S>, step: Step<S>)
    requires InOrder(s) && CompleteRight(s) && WaitersRight(s) && Control(s) && Enabled(s, step)
    ensures WaitersRight(Next(s, step))
  {
    hide CloseRan;
    match step
    case FirstLook(id) =>
    case Push =>
    case _ =>
  }

  lemma KeepsNoFalseSuccess<S>(s: State<S>, step: Step<S>)
    requires InOrder(s) && SuccessRight(s) && NoFalseSuccess(s) && Control(s) && Enabled(s, step)
    ensures NoFalseSuccess(Next(s, step))
  {
    hide CloseRan;
  }

  lemma KeepsFlags<S>(s: State<S>, step: Step<S>)
    requires InOrder(s) && FlagsRight(s) && Control(s) && Enabled(s, step)
    ensures FlagsRight(Next(s, step))
  {
    hide CompleteRight, SuccessRight, WaitersRight, NoFalseSuccess, InOrder, Control, Next, Enabled;
    KeepsComplete(s, step);
    KeepsSuccess(s, step);
    KeepsWaiters(s, step);
    KeepsNoFalseSuccess(s, step);
  }

  lemma KeepsCloseRan<S>(s: State<S>, step: Step<S>)
    requires InOrder(s) && Control(s) && Enabled(s, step)
    ensures Next(s, step).stop <==> CloseRan(Next(s, step))
  {
    if step.Act? {
      ActKeepsCloseRan(s);
    } else {
      ResultsFit(s);
      SameCloseRan(s, step);
    }
  }

  lemma ResultsFit<S>(s: State<S>)
    requires InOrder(s) && Control(s)
    ensures |s.results| <= |s.accepted|
  {
    hide CloseRan;
  }

  lemma SameCloseRan<S>(s: State<S>, step: Step<S>)
    requires |s.results| <= |s.accepted| && Enabled(s, step) && !step.Act?
    ensures Next(s, step).stop == s.stop && (CloseRan(Next(s, step)) <==> CloseRan(s))
  {
    var t := Next(s, step);
    assert t.results == s.results && s.accepted <= t.accepted;
    assert forall i :: 0 <= i < |s.accepted| ==> t.accepted[i] == s.accepted[i];
    if CloseRan(t) {
      var i :| 0 <= i < |t.results| && i < |t.accepted| && t.accepted[i].closes;
      assert s.accepted[i].closes;
    }
    if CloseRan(s) {
      var i :| 0 <= i < |s.results| && i < |s.accepted| && s.accepted[i].closes;
      assert t.accepted[i].closes;
    }
  }

  lemma ActKeepsCloseRan<S>(s: State<S>)
    requires InOrder(s) && Control(s) && Enabled(s, Act)
    ensures Next(s, Act).stop <==> CloseRan(Next(s, Act))
  {
    var step: Step<S> := Act;
    var t := Next(s, step);
    if CloseRan(s) {
      var i :| 0 <= i < |s.results| && i < |s.accepted| && s.accepted[i].closes;
      assert t.accepted[i].closes;
    }
    if CloseRan(t) {
      var i :| 0 <= i < |t.results| && i < |t.accepted| && t.accepted[i].closes;
      assert i < |s.results| ==> s.accepted[i].closes;
    }
    if s.accepted[s.batch[0]].closes {
      assert t.accepted[|s.results|].closes;
    }
  }

  lemma KeepsControl<S>(s: State<S>, step: Step<S>)
    requires InOrder(s) && Control(s) && Enabled(s, step)
    ensures Control(Next(s, step))
  {
    hide CloseRan;
    KeepsCloseRan(s, step);
  }

  // ---- runs ----

  predicate IsRun<S>(s: State<S>, steps: seq<Step<S>>)
    decreases |steps|
  {
    steps == [] || (Enabled(s, steps[0]) && IsRun(Next(s, steps[0]), steps[1..]))
  }

  function Exec<S>(s: State<S>, steps: seq<Step<S>>): State<S>
    requires IsRun(s, steps)
    decreases |steps|
  {
    if steps == [] then s else Exec(Next(s, steps[0]), steps[1..])
  }

  lemma StepKeepsInv<S(!new)>(file: S, s: State<S>, step: Step<S>)
    requires Inv(file, s) && Enabled(s, step)
    ensures Inv(file, Next(s, step))
  {
    hide InOrder, Sequential, FlagsRight, Control;
    KeepsOrder(s, step);
    KeepsSequential(file, s, step);
    KeepsFlags(s, step);
    KeepsControl(s, step);
  }

  lemma {:induction false} RunKeepsInv<S(!new)>(file: S, s: State<S>, steps: seq<Step<S>>)
    requires Inv(file, s) && IsRun(s, steps)
    ensures Inv(file, Exec(s, steps))
    decreases |steps|
  {
    if steps != [] {
      StepKeepsInv(file, s, steps[0]);
      RunKeepsInv(file, Next(s, steps[0]), steps[1..]);
    }
  }

  lemma StartInv<S(!new)>(file: S)
    ensures Inv(file, Start(file))
  {
  }

  /** In every interleaving the accepted operations run once each, in the order they were accepted, and the
      file and all results are those of running them one after the other. */
  lemma RunsInOrder<S(!new)>(file: S, steps: seq<Step<S>>)
    requires IsRun(Start(file), steps)
    ensures var s := Exec(Start(file), steps);
            && |s.ran| == |s.results| <= |s.accepted|
            && (forall k :: 0 <= k < |s.ran| ==> s.ran[k] == k)
            && s.file == After(file, s.accepted[..|s.ran|])
            && (forall i :: 0 <= i < |s.ran| ==> s.results[i] == ResultOf(file, s.accepted, i))
  {
    StartInv(file);
    RunKeepsInv(file, Start(file), steps);
  }

  /** Once the worker has left, nothing is queued, every accepted operation ran and is marked complete with
      its result, and no later submission is accepted. */
  lemma NobodyStranded<S(!new)>(file: S, steps: seq<Step<S>>, job: Job<S>)
    requires IsRun(Start(file), steps) && Exec(Start(file), steps).pc == Exited
    ensures var s := Exec(Start(file), steps);
            && s.queue == [] && |s.ran| == |s.accepted|
            && |s.complete| == |s.success| == |s.results| == |s.accepted|
            && (forall i :: 0 <= i < |s.accepted| ==> s.complete[i] && s.success[i] == s.results[i])
            && !Enabled(s, Push)
            && (Enabled(s, Check(job)) && Next(s, Check(job)) == s)
  {
    StartInv(file);
    RunKeepsInv(file, Start(file), steps);
  }

  /** Whoever is told that an operation succeeded is told the truth. A submitter is told so exactly unless it
      reads `success` between the two assignments of `done`, which its unlocked look at `complete` permits. */
  lemma ToldTheResult<S(!new)>(file: S, steps: seq<Step<S>>, id: nat)
    requires IsRun(Start(file), steps) && Enabled(Exec(Start(file), steps), Leave(id))
    ensures var s := Exec(Start(file), steps);
            && id < |s.results| && id < |s.accepted|
            && (Next(s, Leave(id)).waiters[id] == Returned(ResultOf(file, s.accepted, id)) <==>
                !(InDone(s, id) && s.results[id]))
            && (Next(s, Leave(id)).waiters[id] == Returned(true) ==> ResultOf(file, s.accepted, id))
  {
    StartInv(file);
    RunKeepsInv(file, Start(file), steps);
  }

  // ---- progress ----

  function WorkerStep<S>(s: State<S>): Step<S> {
    match s.pc
    case NotStarted | Top => LoopTest
    case WantLock => TakeBatch
    case Final | Exited => TakeFinalBatch
    case Running | Draining =>
      match s.stage
      case Nothing => if s.batch != [] then TakeItem else EndBatch
      case Taken => Act
      case Acted => SetComplete
      case Publishing => SetSuccess
  }

  /** Falls with every step of the worker while something is left to do. */
  function Rank<S>(s: State<S>): int {
    4 * |s.batch| + 8 * |s.queue|
    - (match s.stage case Nothing => 0 case Taken => 1 case Acted => 2 case Publishing => 3)
    + (match s.pc case NotStarted => 5 case Running => 4 case Top => 3 case WantLock => 2 case Final => 1 case _ => 0)
  }

  predicate AllDone<S>(s: State<S>) {
    Finished(s) == |s.accepted|
  }

  lemma WorkerProgresses<S(!new)>(file: S, s: State<S>)
    requires Inv(file, s) && s.lock.Free? && !AllDone(s)
    ensures Enabled(s, WorkerStep(s))
    ensures 0 <= Rank(Next(s, WorkerStep(s))) < Rank(s)
    ensures Next(s, WorkerStep(s)).lock.Free? && |Next(s, WorkerStep(s)).accepted| == |s.accepted|
  {
    hide Sequential, FlagsRight, CloseRan;
    FlagLengths(file, s);
  }

  lemma FlagLengths<S(!new)>(file: S, s: State<S>)
    requires Inv(file, s)
    ensures |s.complete| == |s.success| == |s.waiters| == |s.accepted|
  {
  }

  /** Whatever was accepted gets done by steps of the worker alone, unless a submitter holds `mtx_`. */
  lemma WorkerFinishes<S(!new)>(file: S, s: State<S>) returns (steps: seq<Step<S>>)
    requires Inv(file, s) && s.lock.Free?
    ensures IsRun(s, steps) && AllDone(Exec(s, steps)) && |Exec(s, steps).accepted| == |s.accepted|
    decreases Rank(s)
  {
    hide Inv, Enabled, Next, Rank;
    if AllDone(s) {
      return [];
    }
    var step := WorkerStep(s);
    WorkerProgresses(file, s);
    StepKeepsInv(file, s, step);
    var rest := WorkerFinishes(file, Next(s, step));
    steps := [step] + rest;
    assert steps[1..] == rest;
  }

  // ---- the unlocked look is one too early ----

  ghost predicate Reaches<S(!new)>(s: State<S>, t: State<S>) {
    exists steps :: IsRun(s, steps) && Exec(s, steps) == t
  }

  lemma {:induction false} RunThenStep<S(!new)>(s: State<S>, steps: seq<Step<S>>, step: Step<S>)
    requires IsRun(s, steps) && Enabled(Exec(s, steps), step)
    ensures IsRun(s, steps + [step]) && Exec(s, steps + [step]) == Next(Exec(s, steps), step)
    decreases |steps|
  {
    if steps == [] {
      assert ([] + [step])[1..] == [];
    } else {
      RunThenStep(Next(s, steps[0]), steps[1..], step);
      assert (steps + [step])[1..] == steps[1..] + [step];
    }
  }

  lemma Follow<S(!new)>(s: State<S>, t: State<S>, step: Step<S>) returns (u: State<S>)
    requires Reaches(s, t) && Enabled(t, step)
    ensures u == Next(t, step) && Reaches(s, u)
  {
    var steps :| IsRun(s, steps) && Exec(s, steps) == t;
    RunThenStep(s, steps, step);
    u := Next(t, step);
  }

  lemma ReachesItself<S(!new)>(s: State<S>)
    ensures Reaches(s, s)
  {
    assert IsRun(s, []) && Exec(s, []) == s;
  }

  function Increment(): Job<int> {
    Job((n: int) => (n + 1, true), false)
  }

  lemma FirstJobActed() returns (s: State<int>)
    ensures Reaches(Start(0), s) && s.stage == Acted && s.batch == [0] && s.results == [true]
    ensures s.complete == [false] && s.success == [false] && s.waiters == [Unchecked]
  {
    hide Reaches;
    ReachesItself(Start(0));
    s := Follow(Start(0), Start(0), Check(Increment()));
    s := Follow(Start(0), s, Push);
    s := Follow(Start(0), s, LoopTest);
    s := Follow(Start(0), s, TakeBatch);
    s := Follow(Start(0), s, TakeItem);
    s := Follow(Start(0), s, Act);
  }

  /** A submitter can be told that its operation failed although it succeeded. */
  lemma SuccessReportedAsFailure()
    ensures exists s: State<int> :: Reaches(Start(0), s) && s.results == [true] && s.waiters == [Returned(false)]
  {
    hide Reaches;
    var s := FirstJobActed();
    s := Follow(Start(0), s, SetComplete);
    s := Follow(Start(0), s, FirstLook(0));
    s := Follow(Start(0), s, Leave(0));
    assert s.results == [true] && s.waiters == [Returned(false)];
  }
}
