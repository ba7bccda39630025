/**
 * ch04/condvar.c: a worker that waits on a condition variable while a flag is
 * clear, and a thread that toggles the flag MAX_LOOPS times. Spurious wakeups may
 * happen at any time. One step is one statement of one thread.
 */
module CondVar {

  /**
   * The worker's next statement (working_thread, lines 34-53). pthread_cond_wait at WWait
   * releases the mutex and blocks in one step; Waiting is blocked and not signalled, Woken is
   * signalled (or spuriously woken) and must take the mutex back.
   */
  datatype WorkerPc = WNew | WLoop | WLock | WTest | WWait | Waiting | Woken | WUnlock | WWork | WDone

  /** The toggler's next statement (toggling_thread and set_thread_flag, lines 62-77). */
  datatype TogglerPc = TNew | TLoop | TRead | TLock | TAssign | TSignal | TUnlock | TDone

  datatype Owner = Free | Worker | Toggler

  /** `main` counts: create worker, create toggler, join toggler, join worker. `toggles` counts the assignments at line 67. */
  datatype State = State(
    max: int,
    flag: int,
    loopCount: int,
    owner: Owner,
    worker: WorkerPc,
    toggler: TogglerPc,
    arg: int, // flag_value
    main: nat,
    toggles: nat)

  datatype Choice = MainThread | WorkerThread | TogglerThread | SpuriousWakeup

  function Init(max: int): State { State(max, 0, 0, Free, WNew, TNew, 0, 0, 0) }

  predicate Enabled(s: State, c: Choice)
  {
    match c
    case MainThread => s.main < 2 || (s.main == 2 && s.toggler == TDone) || (s.main == 3 && s.worker == WDone)
    case WorkerThread =>
      && s.worker != WNew && s.worker != Waiting && s.worker != WDone
      && (s.worker == WLock || s.worker == Woken ==> s.owner == Free)
    case TogglerThread => s.toggler != TNew && s.toggler != TDone && (s.toggler == TLock ==> s.owner == Free)
    case SpuriousWakeup => s.worker == Waiting
  }

  function WorkerStep(s: State): State
  {
    match s.worker
    case WLoop => s.(worker := if s.loopCount < s.max then WLock else WDone)
    case WLock => s.(worker := WTest, owner := Worker)
    case WTest => s.(worker := if s.flag == 0 then WWait else WUnlock)
    case WWait => s.(worker := Waiting, owner := Free)
    case Woken => s.(worker := WTest, owner := Worker)
    case WUnlock => s.(worker := WWork, owner := Free)
    case WWork => s.(worker := WLoop)
    case _ => s
  }

  function TogglerStep(s: State): State
  {
    match s.toggler
    case TLoop => s.(toggler := if s.loopCount < s.max then TRead else TDone, loopCount := s.loopCount + 1)
    case TRead => s.(toggler := TLock, arg := if s.flag == 0 then 1 else 0)
    case TLock => s.(toggler := TAssign, owner := Toggler)
    case TAssign => s.(toggler := TSignal, flag := s.arg, toggles := s.toggles + 1)
    case TSignal => s.(toggler := TUnlock, worker := if s.worker == Waiting then Woken else s.worker)
    case TUnlock => s.(toggler := TLoop, owner := Free)
    case _ => s
  }

  function Step(s: State, c: Choice): State
    requires Enabled(s, c)
  {
    match c
    case MainThread =>
      if s.main == 0 then s.(main := 1, worker := WLoop)
      else if s.main == 1 then s.(main := 2, toggler := TLoop)
      else s.(main := s.main + 1)
    case WorkerThread => WorkerStep(s)
    case TogglerThread => TogglerStep(s)
    case SpuriousWakeup => s.(worker := Woken)
  }

  predicate CanRun(s: State, schedule: seq<Choice>)
    decreases |schedule|
  {
    schedule == [] || (Enabled(s, schedule[0]) && CanRun(Step(s, schedule[0]), schedule[1..]))
  }

  function Exec(s: State, schedule: seq<Choice>): State
    requires CanRun(s, schedule)
    decreases |schedule|
  {
    if schedule == [] then s else Exec(Step(s, schedule[0]), schedule[1..])
  }

  /** No thread can step, short of a spurious wakeup. */
  predicate Stuck(s: State)
  {
    !Enabled(s, MainThread) && !Enabled(s, WorkerThread) && !Enabled(s, TogglerThread)
  }

  predicate AllDone(s: State) { s.main == 4 && s.worker == WDone && s.toggler == TDone }

  /** The program hangs: main joins a worker that waits for a toggler that is gone. */
  predicate Hung(s: State) { s.main == 3 && s.toggler == TDone && s.worker == Waiting && s.flag == 0 }

  // ---------------------------------------------------------------- invariants

  predicate LockInv(s: State)
  {
    && (s.owner == Worker <==> s.worker.WTest? || s.worker.WWait? || s.worker.WUnlock?)
    && (s.owner == Toggler <==> s.toggler.TAssign? || s.toggler.TSignal? || s.toggler.TUnlock?)
  }

  /** The flag is the parity of the completed toggles, although line 77 reads it without the mutex. */
  predicate FlagInv(s: State)
  {
    && s.flag == s.toggles % 2
    && (s.toggler.TLock? || s.toggler.TAssign? ==> s.arg == 1 - s.flag)
  }

  predicate CountInv(s: State)
  {
    && (s.toggler.TNew? || s.toggler.TLoop? || s.toggler.TSignal? || s.toggler.TUnlock? ==> s.loopCount == s.toggles)
    && (s.toggler.TRead? || s.toggler.TLock? || s.toggler.TAssign? ==> s.loopCount == s.toggles + 1 <= s.max)
    && (s.toggler.TDone? ==> s.loopCount == s.toggles + 1 && s.toggles == if s.max < 0 then 0 else s.max)
    && s.toggles <= (if s.max < 0 then 0 else s.max)
    && (!s.worker.WNew? && !s.worker.WLoop? && !s.worker.WDone? ==> s.max > 0)
    && (s.worker.WDone? ==> s.loopCount >= s.max)
  }

  /** No lost wakeup: an unsignalled waiter means a clear flag, except just before the signal. */
  predicate WakeInv(s: State)
  {
    && (s.worker.Waiting? && !s.toggler.TSignal? ==> s.flag == 0)
    && (s.worker.WWait? ==> s.flag == 0)
    && (s.worker.WUnlock? ==> s.flag != 0)
  }

  predicate MainInv(s: State)
  {
    && s.main <= 4
    && (s.worker == WNew <==> s.main == 0)
    && (s.toggler == TNew <==> s.main <= 1)
    && (s.main >= 3 ==> s.toggler == TDone)
    && (s.main == 4 ==> s.worker == WDone)
  }

  predicate Inv(s: State)
  {
    LockInv(s) && FlagInv(s) && CountInv(s) && WakeInv(s) && MainInv(s)
  }

  lemma StepKeepsLock(s: State, c: Choice)
    requires LockInv(s) && MainInv(s) && Enabled(s, c)
    ensures LockInv(Step(s, c)) && MainInv(Step(s, c))
  {}

  lemma StepKeepsFlag(s: State, c: Choice)
    requires FlagInv(s) && Enabled(s, c) && MainInv(s)
    ensures FlagInv(Step(s, c))
  {}

  lemma StepKeepsCount(s: State, c: Choice)
    requires CountInv(s) && MainInv(s) && Enabled(s, c)
    ensures CountInv(Step(s, c))
  {}

  lemma StepKeepsWake(s: State, c: Choice)
    requires WakeInv(s) && LockInv(s) && FlagInv(s) && MainInv(s) && Enabled(s, c)
    ensures WakeInv(Step(s, c))
  {}

  lemma StepKeepsInv(s: State, c: Choice)
    requires Inv(s) && Enabled(s, c)
    ensures Inv(Step(s, c))
  {
    StepKeepsLock(s, c);
    StepKeepsFlag(s, c);
    StepKeepsCount(s, c);
    StepKeepsWake(s, c);
  }

  lemma {:induction false} RunKeepsInv(s: State, schedule: seq<Choice>)
    requires Inv(s) && CanRun(s, schedule)
    ensures Inv(Exec(s, schedule)) && Exec(s, schedule).max == s.max
    decreases |schedule|
  {
    if schedule != [] {
      StepKeepsInv(s, schedule[0]);
      RunKeepsInv(Step(s, schedule[0]), schedule[1..]);
    }
  }

  /** What a step of the toggler does to the flag, and to a waiting worker. */
  lemma TogglerMeans(s: State)
    requires Inv(s) && Enabled(s, TogglerThread)
    ensures var s' := TogglerStep(s);
      && (s'.toggles != s.toggles ==> s.owner == s'.owner == Toggler && s'.flag == 1 - s.flag)
      && (s'.toggles == s.toggles ==> s'.flag == s.flag)
      && (s.toggler == TSignal ==> s'.worker != Waiting)
      && (s'.toggler == TDone ==> s'.toggles == if s.max < 0 then 0 else s.max)
  {
    StepKeepsInv(s, TogglerThread);
  }

  // ---------------------------------------------------------------- theorems

  /** In every run, the flag is the toggle parity and no wakeup is ever lost. */
  lemma {:induction false} NoLostWakeup(max: int, schedule: seq<Choice>)
    requires CanRun(Init(max), schedule)
    ensures var s := Exec(Init(max), schedule);
      && s.flag == s.toggles % 2
      && (s.worker == Waiting && s.toggler != TSignal ==> s.flag == 0)
  {
    RunKeepsInv(Init(max), schedule);
  }

  /** A started thread is held up only by the other one's critical section, or by its wait. */
  lemma {:induction false} WhoBlocks(max: int, schedule: seq<Choice>)
    requires CanRun(Init(max), schedule)
    ensures var s := Exec(Init(max), schedule);
      && (s.toggler != TNew && s.toggler != TDone ==>
            (!Enabled(s, TogglerThread) <==>
              s.toggler == TLock && (s.worker == WTest || s.worker == WWait || s.worker == WUnlock)))
      && (s.worker != WNew && s.worker != WDone ==>
            (!Enabled(s, WorkerThread) <==>
              s.worker == Waiting || ((s.worker == WLock || s.worker == Woken) &&
                                      (s.toggler == TAssign || s.toggler == TSignal || s.toggler == TUnlock))))
  {
    RunKeepsInv(Init(max), schedule);
  }

  /** The states in which the worker stepped, in order. */
  function WorkerSteps(s: State, schedule: seq<Choice>): seq<State>
    requires CanRun(s, schedule)
    decreases |schedule|
  {
    if schedule == [] then []
    else (if schedule[0] == WorkerThread then [s] else []) + WorkerSteps(Step(s, schedule[0]), schedule[1..])
  }

  /** The worker looks at the flag, holding the mutex, and it is set. */
  predicate SeesFlag(s: State) { s.worker == WTest && s.flag != 0 && s.owner == Worker }

  /** Each do_work directly follows an unlock, and that a look at the set flag under the mutex. */
  predicate WorkFollowsLook(steps: seq<State>)
  {
    forall k | 0 <= k < |steps| && steps[k].worker == WWork :: k >= 2 && SeesFlag(steps[k - 2]) && steps[k - 1].worker == WUnlock
  }

  /** Where the worker stands tells what its last steps were. */
  predicate Recalls(past: seq<State>, s: State)
  {
    && (s.worker == WUnlock ==> |past| >= 1 && SeesFlag(past[|past| - 1]))
    && (s.worker == WWork ==> |past| >= 2 && SeesFlag(past[|past| - 2]) && past[|past| - 1].worker == WUnlock)
  }

  lemma PastGrows(past: seq<State>, s: State)
    requires WorkFollowsLook(past) && Recalls(past, s)
    ensures WorkFollowsLook(past + [s])
  {
    var steps := past + [s];
    forall k | 0 <= k < |steps| && steps[k].worker == WWork
      ensures k >= 2 && SeesFlag(steps[k - 2]) && steps[k - 1].worker == WUnlock
    {
      assert k < |past| ==> past[k].worker == WWork;
    }
  }

  /** After its step the worker recalls that step as well. */
  lemma WorkerRecalls(past: seq<State>, s: State)
    requires LockInv(s) && Recalls(past, s) && Enabled(s, WorkerThread)
    ensures Recalls(past + [s], WorkerStep(s))
  {
    var steps := past + [s];
    assert steps[|steps| - 1] == s;
    assert |past| >= 1 ==> steps[|steps| - 2] == past[|past| - 1];
  }

  /** Other steps do not touch a worker that is about to unlock or to work. */
  lemma OthersRecall(past: seq<State>, s: State, c: Choice)
    requires MainInv(s) && Recalls(past, s) && Enabled(s, c) && c != WorkerThread
    ensures Recalls(past, Step(s, c))
  {}

  lemma Reassociate<T>(a: seq<T>, b: seq<T>, c: seq<T>)
    ensures a + b + c == a + (b + c)
  {}

  lemma {:induction false} WorkAfterPast(past: seq<State>, s: State, schedule: seq<Choice>)
    requires Inv(s) && CanRun(s, schedule) && WorkFollowsLook(past) && Recalls(past, s)
    ensures WorkFollowsLook(past + WorkerSteps(s, schedule))
    decreases |schedule|
  {
    if schedule == [] {
      assert past + [] == past;
    } else {
      var c, next := schedule[0], Step(s, schedule[0]);
      StepKeepsInv(s, c);
      if c == WorkerThread {
        PastGrows(past, s);
        WorkerRecalls(past, s);
        WorkAfterPast(past + [s], next, schedule[1..]);
        Reassociate(past, [s], WorkerSteps(next, schedule[1..]));
      } else {
        OthersRecall(past, s, c);
        WorkAfterPast(past, next, schedule[1..]);
        assert [] + WorkerSteps(next, schedule[1..]) == WorkerSteps(next, schedule[1..]);
      }
    }
  }

  /** In every run, each do_work follows a look at the set flag, under the mutex, in the same iteration. */
  lemma {:induction false} WorkOnlyWhenSet(max: int, schedule: seq<Choice>)
    requires CanRun(Init(max), schedule)
    ensures WorkFollowsLook(WorkerSteps(Init(max), schedule))
  {
    WorkAfterPast([], Init(max), schedule);
    assert [] + WorkerSteps(Init(max), schedule) == WorkerSteps(Init(max), schedule);
  }

  /** Two steps that the worker takes one after the other, whatever the others do in between. */
  predicate Follows(a: State, b: State)
  {
    && b.max == a.max
    && match a.worker
       case WLoop => a.loopCount < a.max && b.worker == WLock
       case WLock => b.worker == WTest
       case WTest => b.worker == if a.flag == 0 then WWait else WUnlock
       case WWait => b.worker == Woken
       case Woken => b.worker == WTest
       case WUnlock => b.worker == WWork
       case WWork => b.worker == WLoop
       case _ => false
  }

  predicate InProgramOrder(steps: seq<State>)
  {
    forall k | 0 < k < |steps| :: Follows(steps[k - 1], steps[k])
  }

  /** From one step to its next the worker is only created, or woken. */
  predicate NextFrom(s: State, next: State)
  {
    && next.max == s.max && !next.worker.WNew? && !next.worker.Waiting? && !next.worker.WDone?
    && (next.worker == s.worker || (s.worker == Waiting && next.worker == Woken) || (s.worker == WNew && next.worker == WLoop))
  }

  lemma {:induction false} StepsFollow(s: State, schedule: seq<Choice>)
    requires Inv(s) && CanRun(s, schedule)
    ensures var steps := WorkerSteps(s, schedule); InProgramOrder(steps) && (steps != [] ==> NextFrom(s, steps[0]))
    decreases |schedule|
  {
    if schedule != [] {
      var next := Step(s, schedule[0]);
      StepKeepsInv(s, schedule[0]);
      StepsFollow(next, schedule[1..]);
      var rest := WorkerSteps(next, schedule[1..]);
      if schedule[0] == WorkerThread {
        if rest != [] {
          OwnNext(s, rest[0]);
        }
        FirstFollowed(s, rest);
      } else {
        assert [] + rest == rest;
        if rest != [] {
          OthersNext(s, schedule[0], rest[0]);
        }
      }
    }
  }

  lemma OwnNext(s: State, next: State)
    requires Enabled(s, WorkerThread) && NextFrom(WorkerStep(s), next)
    ensures Follows(s, next)
  {}

  lemma OthersNext(s: State, c: Choice, next: State)
    requires MainInv(s) && Enabled(s, c) && c != WorkerThread && NextFrom(Step(s, c), next)
    ensures NextFrom(s, next)
  {}

  lemma FirstFollowed(s: State, rest: seq<State>)
    requires InProgramOrder(rest) && (rest != [] ==> Follows(s, rest[0]))
    ensures InProgramOrder([s] + rest)
  {
    var steps := [s] + rest;
    forall k | 0 < k < |steps| ensures Follows(steps[k - 1], steps[k]) {
      assert k > 1 ==> steps[k - 1] == rest[k - 2] && steps[k] == rest[k - 1];
    }
  }

  lemma {:induction false} SameMax(steps: seq<State>, max: int)
    requires InProgramOrder(steps) && (steps != [] ==> steps[0].max == max)
    ensures forall k | 0 <= k < |steps| :: steps[k].max == max
    decreases |steps|
  {
    if |steps| > 1 {
      var last := |steps| - 1;
      SameMax(steps[..last], max);
      assert Follows(steps[last - 1], steps[last]);
    }
  }

  /** What program order says, statement by statement. */
  predicate RoundTheLoop(steps: seq<State>, max: int)
  {
    && (forall k | 0 <= k < |steps| && steps[k].worker == WLock ::
          k > 0 && steps[k - 1].worker == WLoop && steps[k - 1].loopCount < max)
    && (forall k | 0 < k < |steps| && steps[k].worker == WLoop :: steps[k - 1].worker == WWork)
    && (forall k | 0 <= k < |steps| - 1 && steps[k].worker == WLoop :: steps[k].loopCount < max)
    && (forall k | 0 <= k < |steps| - 1 && steps[k].worker == WUnlock :: steps[k + 1].worker == WWork)
  }

  lemma OrderedGoesRound(steps: seq<State>, max: int)
    requires InProgramOrder(steps) && (steps != [] ==> steps[0].worker == WLoop)
    requires forall k | 0 <= k < |steps| :: steps[k].max == max
    ensures RoundTheLoop(steps, max)
  {
    forall k | 0 <= k < |steps| && steps[k].worker == WLock
      ensures k > 0 && steps[k - 1].worker == WLoop && steps[k - 1].loopCount < max
    {
      assert k > 0 ==> Follows(steps[k - 1], steps[k]);
    }
    forall k | 0 < k < |steps| && steps[k].worker == WLoop ensures steps[k - 1].worker == WWork {
      assert Follows(steps[k - 1], steps[k]);
    }
    forall k | 0 <= k < |steps| - 1
      ensures steps[k].worker == WLoop ==> steps[k].loopCount < max
      ensures steps[k].worker == WUnlock ==> steps[k + 1].worker == WWork
    {
      assert Follows(steps[(k + 1) - 1], steps[k + 1]);
    }
  }

  /**
   * In every run the worker goes round its loop as written: it takes the mutex for a new iteration
   * only right after a test that found loop_count below MAX_LOOPS, a test that did not is its last
   * step, and between an unlock and the next test it does its work.
   */
  lemma {:induction false} WorkerLoop(max: int, schedule: seq<Choice>)
    requires CanRun(Init(max), schedule)
    ensures var steps := WorkerSteps(Init(max), schedule); InProgramOrder(steps) && RoundTheLoop(steps, max)
  {
    StepsFollow(Init(max), schedule);
    SameMax(WorkerSteps(Init(max), schedule), max);
    OrderedGoesRound(WorkerSteps(Init(max), schedule), max);
  }

  /** The stuck states are the finished ones and the hung ones; a hang needs an even, positive MAX_LOOPS. */
  lemma {:induction false} StuckStates(max: int, schedule: seq<Choice>)
    requires CanRun(Init(max), schedule)
    ensures var s := Exec(Init(max), schedule);
      && (Stuck(s) <==> AllDone(s) || Hung(s))
      && (Hung(s) ==> max > 0 && max % 2 == 0)
      && (AllDone(s) || Hung(s) ==> s.toggles == if max < 0 then 0 else max)
  {
    RunKeepsInv(Init(max), schedule);
  }

  lemma {:induction false} RunConcat(s: State, a: seq<Choice>, b: seq<Choice>)
    requires CanRun(s, a) && CanRun(Exec(s, a), b)
    ensures CanRun(s, a + b) && Exec(s, a + b) == Exec(Exec(s, a), b)
    decreases |a|
  {
    if a == [] {
      assert a + b == b;
    } else {
      assert (a + b)[1..] == a[1..] + b;
      RunConcat(Step(s, a[0]), a[1..], b);
    }
  }

  lemma {:induction false} Extend(s: State, a: seq<Choice>, c: Choice)
    requires CanRun(s, a) && Enabled(Exec(s, a), c)
    ensures CanRun(s, a + [c]) && Exec(s, a + [c]) == Step(Exec(s, a), c)
  {
    assert [c][1..] == [];
    RunConcat(s, a, [c]);
  }

  /** Toggler steps left. */
  function TogglerWork(s: State): nat
  {
    6 * (if s.max > s.toggles then s.max - s.toggles else 0) +
    match s.toggler
    case TNew => 4
    case TLoop => 3
    case TRead => 2
    case TLock => 1
    case TAssign => 0
    case TSignal => 5
    case TUnlock => 4
    case TDone => 0
  }

  lemma TogglerStepWorks(s: State)
    requires CountInv(s) && Enabled(s, TogglerThread)
    ensures TogglerWork(TogglerStep(s)) < TogglerWork(s)
  {}

  /** With the worker still outside the mutex, the toggler can run to its end alone. */
  lemma TogglerRuns(s: State) returns (schedule: seq<Choice>)
    requires Inv(s) && s.main == 2 && s.worker == WLock
    ensures CanRun(s, schedule)
    ensures var s' := Exec(s, schedule); Inv(s') && s'.max == s.max && s'.toggler == TDone && s'.worker == WLock && s'.main == 2
    decreases TogglerWork(s)
  {
    if s.toggler == TDone {
      schedule := [];
    } else {
      StepKeepsInv(s, TogglerThread);
      TogglerStepWorks(s);
      var rest := TogglerRuns(Step(s, TogglerThread));
      schedule := [TogglerThread] + rest;
      assert schedule[1..] == rest;
    }
  }

  /** Worker at its lock, toggler done: the worker finds the flag clear and sleeps for good. */
  lemma SleepsForGood(s: State) returns (schedule: seq<Choice>)
    requires Inv(s) && s.toggler == TDone && s.worker == WLock && s.main == 2 && s.flag == 0
    ensures CanRun(s, schedule) && Hung(Exec(s, schedule))
  {
    schedule := [];
    Extend(s, schedule, WorkerThread);
    schedule := schedule + [WorkerThread];
    Extend(s, schedule, WorkerThread);
    schedule := schedule + [WorkerThread];
    Extend(s, schedule, WorkerThread);
    schedule := schedule + [WorkerThread];
    Extend(s, schedule, MainThread);
    schedule := schedule + [MainThread];
  }

  function Spurious(schedule: seq<Choice>): nat
  {
    if schedule == [] then 0 else (if schedule[0] == SpuriousWakeup then 1 else 0) + Spurious(schedule[1..])
  }

  lemma {:induction false} SpuriousConcat(a: seq<Choice>, b: seq<Choice>)
    ensures Spurious(a + b) == Spurious(a) + Spurious(b)
  {
    if a == [] {
      assert a + b == b;
    } else {
      assert (a + b)[1..] == a[1..] + b;
      SpuriousConcat(a[1..], b);
    }
  }

  lemma {:induction false} NoneSpurious(schedule: seq<Choice>)
    requires SpuriousWakeup !in schedule
    ensures Spurious(schedule) == 0
  {
    if schedule != [] {
      NoneSpurious(schedule[1..]);
    }
  }

  /** Asleep, with the mutex free and the flag clear. */
  predicate Asleep(s: State) { s.worker == Waiting && s.owner == Free && s.flag == 0 }

  /** A spurious wakeup only makes the worker look at the flag and go back to sleep. */
  lemma WakesAndSleeps(s: State) returns (schedule: seq<Choice>)
    requires Asleep(s)
    ensures CanRun(s, schedule) && Asleep(Exec(s, schedule)) && Spurious(schedule) == 1
  {
    schedule := [];
    Extend(s, schedule, SpuriousWakeup);
    schedule := schedule + [SpuriousWakeup];
    Extend(s, schedule, WorkerThread);
    schedule := schedule + [WorkerThread];
    Extend(s, schedule, WorkerThread);
    schedule := schedule + [WorkerThread];
    Extend(s, schedule, WorkerThread);
    schedule := schedule + [WorkerThread];
    assert schedule == [SpuriousWakeup] + [WorkerThread, WorkerThread, WorkerThread];
    SpuriousConcat([SpuriousWakeup], [WorkerThread, WorkerThread, WorkerThread]);
    NoneSpurious([WorkerThread, WorkerThread, WorkerThread]);
    assert [SpuriousWakeup][1..] == [];
  }

  lemma FallsAsleep(max: int) returns (schedule: seq<Choice>)
    requires max > 0
    ensures CanRun(Init(max), schedule) && Asleep(Exec(Init(max), schedule)) && Spurious(schedule) == 0
  {
    schedule := [];
    Extend(Init(max), schedule, MainThread);
    schedule := schedule + [MainThread];
    Extend(Init(max), schedule, WorkerThread);
    schedule := schedule + [WorkerThread];
    Extend(Init(max), schedule, WorkerThread);
    schedule := schedule + [WorkerThread];
    Extend(Init(max), schedule, WorkerThread);
    schedule := schedule + [WorkerThread];
    Extend(Init(max), schedule, WorkerThread);
    schedule := schedule + [WorkerThread];
    NoneSpurious(schedule);
  }

  /** The wait may return without a signal any number of times: runs have no common bound. */
  lemma {:induction false} WakesAnyNumberOfTimes(max: int, n: nat) returns (schedule: seq<Choice>)
    requires max > 0
    ensures CanRun(Init(max), schedule) && Asleep(Exec(Init(max), schedule)) && Spurious(schedule) == n
    ensures |schedule| >= n
  {
    if n == 0 {
      schedule := FallsAsleep(max);
    } else {
      var before := WakesAnyNumberOfTimes(max, n - 1);
      var once := WakesAndSleeps(Exec(Init(max), before));
      RunConcat(Init(max), before, once);
      SpuriousConcat(before, once);
      schedule := before + once;
      assert once != [];
    }
  }

  /** Both threads created, the worker past its first test of loop_count. */
  lemma Started(max: int) returns (schedule: seq<Choice>)
    requires max > 0
    ensures CanRun(Init(max), schedule)
    ensures var s := Exec(Init(max), schedule); s.main == 2 && s.worker == WLock && s.max == max
  {
    schedule := [];
    Extend(Init(max), schedule, MainThread);
    schedule := schedule + [MainThread];
    Extend(Init(max), schedule, MainThread);
    schedule := schedule + [MainThread];
    Extend(Init(max), schedule, WorkerThread);
    schedule := schedule + [WorkerThread];
  }

  /** The program can hang exactly when MAX_LOOPS is positive and even, as the source's 10 is. */
  lemma HangsIff(max: int)
    ensures (exists schedule :: CanRun(Init(max), schedule) && Hung(Exec(Init(max), schedule))) <==> max > 0 && max % 2 == 0
  {
    forall schedule | CanRun(Init(max), schedule) && Hung(Exec(Init(max), schedule)) ensures max > 0 && max % 2 == 0 {
      StuckStates(max, schedule);
    }
    if max > 0 && max % 2 == 0 {
      var a := Started(max);
      RunKeepsInv(Init(max), a);
      var s := Exec(Init(max), a);
      var b := TogglerRuns(s);
      var c := SleepsForGood(Exec(s, b));
      RunConcat(s, b, c);
      RunConcat(Init(max), a, b + c);
    }
  }

  // ---------------------------------------------------------------- finishing

  predicate MayHang(max: int) { max > 0 && max % 2 == 0 }

  /** Worker steps left once the toggler is done, or until it gives up the mutex. */
  function WorkerWork(s: State): nat
  {
    match s.worker
    case WNew => 0
    case WLock => 6
    case Woken => 6
    case WTest => 5
    case WWait => 4
    case WUnlock => 4
    case WWork => 3
    case WLoop => 2
    case Waiting => 1
    case WDone => 0
  }

  /** A step to take next: the toggler's if it can, else the worker's, once both are created. */
  function NextChoice(s: State): Choice
  {
    if s.main >= 2 && Enabled(s, TogglerThread) then TogglerThread
    else if s.main >= 2 && Enabled(s, WorkerThread) then WorkerThread
    else MainThread
  }

  lemma NextLowers(s: State)
    requires Inv(s) && !MayHang(s.max) && !AllDone(s)
    ensures Enabled(s, NextChoice(s))
    ensures var s' := Step(s, NextChoice(s));
      && s'.max == s.max
      && (s'.main > s.main || (s'.main == s.main && TogglerWork(s') < TogglerWork(s))
          || (s'.main == s.main && TogglerWork(s') == TogglerWork(s) && WorkerWork(s') < WorkerWork(s)))
  {
    if NextChoice(s) == TogglerThread {
      TogglerStepWorks(s);
    }
  }

  /** Without an even, positive MAX_LOOPS, every reachable state can still run to the end. */
  lemma CanFinish(s: State) returns (schedule: seq<Choice>)
    requires Inv(s) && !MayHang(s.max)
    ensures CanRun(s, schedule) && AllDone(Exec(s, schedule))
    decreases 4 - s.main, TogglerWork(s), WorkerWork(s)
  {
    if AllDone(s) {
      schedule := [];
    } else {
      var c := NextChoice(s);
      NextLowers(s);
      StepKeepsInv(s, c);
      var rest := CanFinish(Step(s, c));
      schedule := [c] + rest;
      assert schedule[1..] == rest;
    }
  }

  /** How many of the steps are the toggler's. */
  function TogglerSteps(schedule: seq<Choice>): nat
  {
    if schedule == [] then 0 else (if schedule[0] == TogglerThread then 1 else 0) + TogglerSteps(schedule[1..])
  }

  lemma TogglerWorkStep(s: State, c: Choice)
    requires CountInv(s) && MainInv(s) && Enabled(s, c)
    ensures TogglerWork(Step(s, c)) + (if c == TogglerThread then 1 else 0) <= TogglerWork(s)
  {
    if c == TogglerThread {
      TogglerStepWorks(s);
    }
  }

  /** Whatever the others do, the toggler has at most that many steps in it: it always ends if it is always scheduled again. */
  lemma {:induction false} TogglerBound(s: State, schedule: seq<Choice>)
    requires Inv(s) && CanRun(s, schedule)
    ensures TogglerSteps(schedule) + TogglerWork(Exec(s, schedule)) <= TogglerWork(s)
    decreases |schedule|
  {
    if schedule != [] {
      StepKeepsInv(s, schedule[0]);
      TogglerWorkStep(s, schedule[0]);
      TogglerBound(Step(s, schedule[0]), schedule[1..]);
    }
  }

  /** Once the toggler is done every step brings the end closer, unless the program may hang. */
  lemma AfterToggler(s: State, c: Choice)
    requires Inv(s) && !MayHang(s.max) && s.toggler == TDone && Enabled(s, c)
    ensures var s' := Step(s, c);
      s'.toggler == TDone && s'.max == s.max && WorkerWork(s') + 4 - s'.main < WorkerWork(s) + 4 - s.main
  {}

  /**
   * Then every run, of any schedule and with any spurious wakeups, ends within that many steps:
   * without an even, positive MAX_LOOPS the worker cannot miss its end.
   */
  lemma {:induction false} FinishBound(s: State, schedule: seq<Choice>)
    requires Inv(s) && !MayHang(s.max) && s.toggler == TDone && CanRun(s, schedule)
    ensures |schedule| <= WorkerWork(s) + 4 - s.main
    ensures Stuck(Exec(s, schedule)) <==> AllDone(Exec(s, schedule))
    decreases |schedule|
  {
    if schedule != [] {
      AfterToggler(s, schedule[0]);
      StepKeepsInv(s, schedule[0]);
      FinishBound(Step(s, schedule[0]), schedule[1..]);
    }
  }

  /** A hung program stays unfinished whatever wakes it. */
  lemma {:induction false} HungForGood(s: State, schedule: seq<Choice>)
    requires s.main == 3 && s.toggler == TDone && s.flag == 0 && (s.owner == Free || s.owner == Worker)
    requires s.worker.Waiting? || s.worker.Woken? || s.worker.WTest? || s.worker.WWait?
    requires CanRun(s, schedule)
    ensures !AllDone(Exec(s, schedule))
    decreases |schedule|
  {
    if schedule != [] {
      HungForGood(Step(s, schedule[0]), schedule[1..]);
    }
  }

  ghost predicate CanStillFinish(s: State)
  {
    exists schedule :: CanRun(s, schedule) && AllDone(Exec(s, schedule))
  }

  /** Finishing stays possible in every run exactly when MAX_LOOPS is odd or not positive. */
  lemma FinishIff(max: int)
    ensures (forall schedule :: CanRun(Init(max), schedule) ==> CanStillFinish(Exec(Init(max), schedule))) <==> !MayHang(max)
  {
    if MayHang(max) {
      HangsIff(max);
      var schedule :| CanRun(Init(max), schedule) && Hung(Exec(Init(max), schedule));
      var s := Exec(Init(max), schedule);
      RunKeepsInv(Init(max), schedule);
      forall more | CanRun(s, more) ensures !AllDone(Exec(s, more)) {
        HungForGood(s, more);
      }
      assert !CanStillFinish(s);
    } else {
      forall schedule | CanRun(Init(max), schedule) ensures CanStillFinish(Exec(Init(max), schedule)) {
        RunKeepsInv(Init(max), schedule);
        var rest := CanFinish(Exec(Init(max), schedule));
      }
    }
  }
}
