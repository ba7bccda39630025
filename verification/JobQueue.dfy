/**
 * ch04/job-queue.c as a step system: any number of workers drain a shared list
 * under a mutex into one accumulator each. One step is one statement of one
 * worker, or one create or join of the main thread.
 */
module JobQueue {
  import opened Options
  import opened Sums

  /** The statement a worker executes next (thread_function, lines 37-49). */
  datatype WorkerPc = WNew | WLock | WTest | WClear | WTake | WAdvance | WUnlock | WCheck | WProcess | WFree | WDone

  /** `next` is the worker's `next_job`, None for NULL. */
  datatype Worker = Worker(pc: WorkerPc, next: Option<int>)

  datatype Dequeue = Dequeue(worker: nat, factor: int)

  /** `main` counts the creates and then the joins; `log` and `freed` record what happened. */
  datatype State = State(
    queue: seq<int>,
    owner: Option<nat>,
    workers: seq<Worker>,
    accum: seq<int>,
    main: nat,
    log: seq<Dequeue>,
    freed: seq<int>)

  datatype Choice = MainThread | Thread(t: nat)

  function Init(workers: nat, jobs: seq<int>): State
  {
    State(jobs, None, seq(workers, _ => Worker(WNew, None)), seq(workers, _ => 0), 0, [], [])
  }

  predicate Enabled(s: State, c: Choice)
  {
    |s.accum| == |s.workers| &&
    match c
    case MainThread =>
      s.main < 2 * |s.workers| && (s.main >= |s.workers| ==> s.workers[s.main - |s.workers|].pc == WDone)
    case Thread(t) =>
      t < |s.workers| &&
      var pc := s.workers[t].pc;
      && pc != WNew && pc != WDone
      && (pc == WLock ==> s.owner == None)
      && (pc == WTake || pc == WAdvance ==> s.queue != [])
      && (pc == WProcess ==> s.workers[t].next.Some?)
  }

  function With(s: State, t: nat, pc: WorkerPc, next: Option<int>): State
    requires t < |s.workers|
  {
    s.(workers := s.workers[t := Worker(pc, next)])
  }

  function WorkerStep(s: State, t: nat): State
    requires Enabled(s, Thread(t))
  {
    var Worker(pc, next) := s.workers[t];
    match pc
    case WLock => With(s, t, WTest, next).(owner := Some(t))
    case WTest => With(s, t, if s.queue == [] then WClear else WTake, next)
    case WClear => With(s, t, WUnlock, None)
    case WTake => With(s, t, WAdvance, Some(s.queue[0]))
    case WAdvance => With(s, t, WUnlock, next).(queue := s.queue[1..], 
                                         log := s.log + (if next.Some? then [Dequeue(t, next.value)] else []))
    case WUnlock => With(s, t, WCheck, next).(owner := None)
    case WCheck => With(s, t, if next == None then WDone else WProcess, next)
    case WProcess => With(s, t, WFree, next).(accum := s.accum[t := s.accum[t] + next.value])
    case WFree => With(s, t, WLock, None).(freed := s.freed + (if next.Some? then [next.value] else []))
    case _ => s
  }

  function Step(s: State, c: Choice): State
    requires Enabled(s, c)
  {
    match c
    case MainThread =>
      var s' := s.(main := s.main + 1);
      if s.main < |s.workers| then With(s', s.main, WLock, s.workers[s.main].next) else s'
    case Thread(t) => WorkerStep(s, t)
  }

  predicate CanRun(s: State, schedule: seq<Choice>)
    decreases |schedule|
  {
    schedule == [] || (Enabled(s, schedule[0]) && CanRun(Step(s, schedule[0]), schedule[1..]))
  }

  function Exec(s: State, schedule: seq<Choice>): State
    requires CanRun(s, schedule)
    decreases |schedule|
  {
    if schedule == [] then s else Exec(Step(s, schedule[0]), schedule[1..])
  }

  predicate AllDone(s: State)
  {
    s.main == 2 * |s.workers| && forall w | w in s.workers :: w.pc == WDone
  }

  // ---------------------------------------------------------------- invariants

  predicate Critical(w: Worker)
  {
    w.pc.WTest? || w.pc.WClear? || w.pc.WTake? || w.pc.WAdvance? || w.pc.WUnlock?
  }

  /** The job in a worker's hand: dequeued and not yet freed. */
  function InHand(w: Worker): Option<int>
  {
    if w.pc.WUnlock? || w.pc.WCheck? || w.pc.WProcess? || w.pc.WFree? then w.next else None
  }

  /** The part of it that is not yet in the accumulator. */
  function Unprocessed(w: Worker): int
  {
    if InHand(w).Some? && !w.pc.WFree? then w.next.value else 0
  }

  function Is(i: int): int -> int { (x: int) => if x == i then 1 else 0 }

  function Holds(i: int): Worker -> int { (w: Worker) => if InHand(w) == Some(i) then 1 else 0 }

  function Same(x: int): int { x }

  function FactorIf(t: nat): Dequeue -> int { (d: Dequeue) => if d.worker == t then d.factor else 0 }

  /** The factors dequeued so far, in order. */
  function Factors(log: seq<Dequeue>): seq<int> { seq(|log|, k requires 0 <= k < |log| => log[k].factor) }

  predicate LockInv(s: State)
  {
    && |s.accum| == |s.workers|
    && (s.owner.Some? ==> s.owner.value < |s.workers|)
    && forall t | 0 <= t < |s.workers| :: Critical(s.workers[t]) <==> s.owner == Some(t)
  }

  /** What a worker's place in the loop says about the queue; once seen empty it stays empty. */
  predicate PlaceInv(s: State)
  {
    forall t | 0 <= t < |s.workers| :: var w := s.workers[t];
      && (w.pc.WTake? || w.pc.WAdvance? ==> s.queue != [])
      && (w.pc.WAdvance? ==> w.next == Some(s.queue[0]))
      && (w.pc.WClear? || w.pc.WDone? || ((w.pc.WUnlock? || w.pc.WCheck?) && w.next == None) ==> s.queue == [])
      && (w.pc.WProcess? || w.pc.WFree? ==> w.next.Some?)
  }

  predicate MainInv(s: State)
  {
    && s.main <= 2 * |s.workers|
    && forall t | 0 <= t < |s.workers| ::
         && (s.workers[t].pc == WNew <==> s.main <= t)
         && (|s.workers| + t < s.main ==> s.workers[t].pc == WDone)
  }

  /** First in, first out: what was dequeued, then what is queued, is the list as it was built. */
  predicate FifoInv(s: State, jobs: seq<int>) { Factors(s.log) + s.queue == jobs }

  /** How often factor `i` occurs among queued, held and freed jobs. */
  function Occurrences(s: State, i: int): int
  {
    Sum(s.queue, Is(i)) + Sum(s.workers, Holds(i)) + Sum(s.freed, Is(i))
  }

  /** No job is lost or doubled. */
  ghost predicate OnceInv(s: State, jobs: seq<int>)
  {
    forall i :: Occurrences(s, i) == Sum(jobs, Is(i))
  }

  predicate NonNegative(jobs: seq<int>) { forall k | 0 <= k < |jobs| :: jobs[k] >= 0 }

  predicate SignInv(s: State)
  {
    && NonNegative(s.queue) && NonNegative(s.accum)
    && forall t | 0 <= t < |s.workers| && s.workers[t].next.Some? :: s.workers[t].next.value >= 0
  }

  /** Each accumulator, with the job in hand not yet added, is what its worker dequeued. */
  predicate AccumInv(s: State)
  {
    |s.accum| == |s.workers| &&
    forall t | 0 <= t < |s.workers| :: s.accum[t] + Unprocessed(s.workers[t]) == Sum(s.log, FactorIf(t))
  }

  predicate TotalInv(s: State, jobs: seq<int>)
  {
    Sum(s.accum, Same) + Sum(s.workers, Unprocessed) + Sum(s.queue, Same) == Sum(jobs, Same)
  }

  ghost predicate Inv(s: State, jobs: seq<int>)
  {
    && LockInv(s) && PlaceInv(s) && MainInv(s) && FifoInv(s, jobs) && OnceInv(s, jobs) && AccumInv(s) && TotalInv(s, jobs)
    && (NonNegative(jobs) ==> SignInv(s))
  }

  lemma InitOnce(workers: nat, jobs: seq<int>)
    ensures OnceInv(Init(workers, jobs), jobs)
  {
    var s := Init(workers, jobs);
    forall i ensures Occurrences(s, i) == Sum(jobs, Is(i)) {
      SumConstant(s.workers, Holds(i), 0);
    }
  }

  lemma InitTotal(workers: nat, jobs: seq<int>)
    ensures TotalInv(Init(workers, jobs), jobs) && FifoInv(Init(workers, jobs), jobs)
  {
    var s := Init(workers, jobs);
    SumConstant(s.accum, Same, 0);
    SumConstant(s.workers, Unprocessed, 0);
    assert Factors(s.log) + s.queue == jobs;
  }

  lemma InitInv(workers: nat, jobs: seq<int>)
    ensures Inv(Init(workers, jobs), jobs)
  {
    InitOnce(workers, jobs);
    InitTotal(workers, jobs);
  }

  // ---------------------------------------------------------------- every step keeps them

  /** A step replaces at most one worker. */
  lemma StepMovesOne(s: State, c: Choice)
    requires Enabled(s, c)
    ensures |Step(s, c).workers| == |s.workers| == |Step(s, c).accum|
    ensures var t := if c.MainThread? then s.main else c.t;
      if t < |s.workers| then Step(s, c).workers == s.workers[t := Step(s, c).workers[t]] else Step(s, c).workers == s.workers
  {}

  /** How a step moves any sum over the workers. */
  lemma SumStep(s: State, c: Choice, f: Worker -> int)
    requires Enabled(s, c)
    ensures var t := if c.MainThread? then s.main else c.t;
      |Step(s, c).workers| == |s.workers| &&
      Sum(Step(s, c).workers, f) == Sum(s.workers, f) + if t < |s.workers| then f(Step(s, c).workers[t]) - f(s.workers[t]) else 0
  {
    StepMovesOne(s, c);
    var t := if c.MainThread? then s.main else c.t;
    if t < |s.workers| {
      SumUpdate(s.workers, t, Step(s, c).workers[t], f);
    }
  }

  lemma StepKeepsLock(s: State, c: Choice)
    requires LockInv(s) && MainInv(s) && Enabled(s, c)
    ensures LockInv(Step(s, c))
  {}

  lemma StepKeepsPlace(s: State, c: Choice)
    requires PlaceInv(s) && LockInv(s) && MainInv(s) && Enabled(s, c)
    ensures PlaceInv(Step(s, c))
  {
    if c.Thread? {
      match s.workers[c.t].pc {
        case WLock => case WTest => case WClear => case WTake => case WAdvance =>
        case WUnlock => case WCheck => case WProcess => case WFree =>
      }
    }
  }

  lemma StepKeepsMain(s: State, c: Choice)
    requires MainInv(s) && Enabled(s, c)
    ensures MainInv(Step(s, c))
  {}

  /** Only line 42 logs, and what it logs is the job that line 41 took. */
  lemma QueueMoves(s: State, c: Choice)
    requires PlaceInv(s) && Enabled(s, c)
    ensures var s' := Step(s, c);
      if c.Thread? && s.workers[c.t].pc == WAdvance then
        && s.workers[c.t].next.Some? && s'.log == s.log + [Dequeue(c.t, s.workers[c.t].next.value)]
        && s.queue == [s.workers[c.t].next.value] + s'.queue
      else s'.log == s.log && s'.queue == s.queue
  {
    if c.Thread? && s.workers[c.t].pc == WAdvance {
      assert s.queue == [s.queue[0]] + s.queue[1..];
    }
  }

  lemma StepKeepsFifo(s: State, c: Choice, jobs: seq<int>)
    requires FifoInv(s, jobs) && PlaceInv(s) && Enabled(s, c)
    ensures FifoInv(Step(s, c), jobs)
  {
    QueueMoves(s, c);
    if c.Thread? && s.workers[c.t].pc == WAdvance {
      assert Factors(Step(s, c).log) == Factors(s.log) + [s.workers[c.t].next.value];
    }
  }

  lemma StepKeepsOccurrences(s: State, c: Choice, i: int)
    requires PlaceInv(s) && MainInv(s) && Enabled(s, c)
    ensures Occurrences(Step(s, c), i) == Occurrences(s, i)
  {
    SumStep(s, c, Holds(i));
    if c.Thread? {
      match s.workers[c.t].pc {
        case WFree => SumConcat(s.freed, [s.workers[c.t].next.value], Is(i));
        case WLock => case WTest => case WClear => case WTake => case WAdvance =>
        case WUnlock => case WCheck => case WProcess =>
      }
    }
  }

  lemma StepKeepsOnce(s: State, c: Choice, jobs: seq<int>)
    requires OnceInv(s, jobs) && PlaceInv(s) && MainInv(s) && Enabled(s, c)
    ensures OnceInv(Step(s, c), jobs)
  {
    forall i ensures Occurrences(Step(s, c), i) == Sum(jobs, Is(i)) {
      StepKeepsOccurrences(s, c, i);
      assert Occurrences(s, i) == Sum(jobs, Is(i));
    }
  }

  lemma StepKeepsSign(s: State, c: Choice)
    requires SignInv(s) && MainInv(s) && Enabled(s, c)
    ensures SignInv(Step(s, c))
  {}

  /** A worker's own steps keep the balance of its accumulator. */
  lemma OwnAccum(s: State, t: nat)
    requires AccumInv(s) && PlaceInv(s) && Enabled(s, Thread(t))
    ensures var s' := Step(s, Thread(t));
      |s'.accum| == |s'.workers| == |s.workers| && s'.accum[t] + Unprocessed(s'.workers[t]) == Sum(s'.log, FactorIf(t))
  {
    assert s.accum[t] + Unprocessed(s.workers[t]) == Sum(s.log, FactorIf(t));
    match s.workers[t].pc {
      case WAdvance => SumConcat(s.log, [Dequeue(t, s.workers[t].next.value)], FactorIf(t));
      case WLock => case WTest => case WClear => case WTake => case WUnlock => case WCheck => case WProcess => case WFree =>
    }
  }

  /** And everybody else's. */
  lemma OtherAccum(s: State, c: Choice, u: nat)
    requires AccumInv(s) && PlaceInv(s) && MainInv(s) && Enabled(s, c) && u < |s.workers| && c != Thread(u)
    ensures var s' := Step(s, c);
      |s'.accum| == |s'.workers| == |s.workers| && s'.accum[u] + Unprocessed(s'.workers[u]) == Sum(s'.log, FactorIf(u))
  {
    assert s.accum[u] + Unprocessed(s.workers[u]) == Sum(s.log, FactorIf(u));
    QueueMoves(s, c);
    if c.Thread? && s.workers[c.t].pc == WAdvance {
      SumConcat(s.log, [Dequeue(c.t, s.workers[c.t].next.value)], FactorIf(u));
    }
  }

  lemma StepKeepsAccum(s: State, c: Choice)
    requires AccumInv(s) && PlaceInv(s) && MainInv(s) && Enabled(s, c)
    ensures AccumInv(Step(s, c))
  {
    StepMovesOne(s, c);
    forall u | 0 <= u < |s.workers|
      ensures Step(s, c).accum[u] + Unprocessed(Step(s, c).workers[u]) == Sum(Step(s, c).log, FactorIf(u))
    {
      if c == Thread(u) {
        OwnAccum(s, u);
      } else {
        OtherAccum(s, c, u);
      }
    }
  }

  lemma StepKeepsTotal(s: State, c: Choice, jobs: seq<int>)
    requires TotalInv(s, jobs) && PlaceInv(s) && MainInv(s) && Enabled(s, c)
    ensures TotalInv(Step(s, c), jobs)
  {
    SumStep(s, c, Unprocessed);
    if c.Thread? {
      match s.workers[c.t].pc {
        case WProcess => SumUpdate(s.accum, c.t, s.accum[c.t] + s.workers[c.t].next.value, Same);
        case WLock => case WTest => case WClear => case WTake => case WAdvance =>
        case WUnlock => case WCheck => case WFree =>
      }
    }
  }

  lemma StepKeepsInv(s: State, c: Choice, jobs: seq<int>)
    requires Inv(s, jobs) && Enabled(s, c)
    ensures Inv(Step(s, c), jobs)
  {
    StepKeepsLock(s, c);
    StepKeepsPlace(s, c);
    StepKeepsMain(s, c);
    StepKeepsFifo(s, c, jobs);
    StepKeepsOnce(s, c, jobs);
    if NonNegative(jobs) {
      StepKeepsSign(s, c);
    }
    StepKeepsAccum(s, c);
    StepKeepsTotal(s, c, jobs);
  }

  lemma {:induction false} RunKeepsInv(s: State, schedule: seq<Choice>, jobs: seq<int>)
    requires Inv(s, jobs) && CanRun(s, schedule)
    ensures Inv(Exec(s, schedule), jobs) && |Exec(s, schedule).workers| == |s.workers|
    decreases |schedule|
  {
    if schedule != [] {
      StepKeepsInv(s, schedule[0], jobs);
      StepMovesOne(s, schedule[0]);
      RunKeepsInv(Step(s, schedule[0]), schedule[1..], jobs);
    }
  }

  lemma {:induction false} Reachable(workers: nat, jobs: seq<int>, schedule: seq<Choice>)
    requires CanRun(Init(workers, jobs), schedule)
    ensures Inv(Exec(Init(workers, jobs), schedule), jobs) && |Exec(Init(workers, jobs), schedule).workers| == workers
  {
    InitInv(workers, jobs);
    RunKeepsInv(Init(workers, jobs), schedule, jobs);
  }

  // ---------------------------------------------------------------- the jobs of init_jobs

  /** How many jobs init_jobs makes: at least one, whatever it is asked for. */
  function JobCount(numJobs: int): nat { if numJobs < 1 then 1 else numJobs }

  function Jobs(numJobs: int): seq<int> { seq(JobCount(numJobs), k => k) }

  lemma JobsAre(numJobs: int)
    ensures |Jobs(numJobs)| == (if numJobs >= 1 then numJobs else 1)
    ensures forall k | 0 <= k < |Jobs(numJobs)| :: Jobs(numJobs)[k] == k
  {}

  lemma {:induction false} GaussSum(s: seq<int>, from: int)
    requires forall k | 0 <= k < |s| :: s[k] == from + k
    ensures 2 * Sum(s, Same) == |s| * (2 * from + |s| - 1)
  {
    if s != [] {
      GaussSum(s[1..], from + 1);
      assert (|s| - 1) * (2 * (from + 1) + |s| - 2) + 2 * from == |s| * (2 * from + |s| - 1);
    }
  }

  lemma JobsSum(numJobs: int)
    ensures 2 * Sum(Jobs(numJobs), Same) == if numJobs >= 1 then numJobs * (numJobs - 1) else 0
  {
    GaussSum(Jobs(numJobs), 0);
  }

  lemma {:induction false} OccursOnce(s: seq<int>, from: int, i: int)
    requires forall k | 0 <= k < |s| :: s[k] == from + k
    ensures Sum(s, Is(i)) == if from <= i < from + |s| then 1 else 0
  {
    if s != [] {
      OccursOnce(s[1..], from + 1, i);
    }
  }

  // ---------------------------------------------------------------- theorems

  lemma FifoOrder(s: State, numJobs: int)
    requires FifoInv(s, Jobs(numJobs))
    ensures |s.log| + |s.queue| == (if numJobs >= 1 then numJobs else 1)
    ensures forall k | 0 <= k < |s.log| :: s.log[k].factor == k
    ensures forall k | 0 <= k < |s.queue| :: s.queue[k] == |s.log| + k
  {
    var all := Factors(s.log) + s.queue;
    assert |all| == |Jobs(numJobs)|;
    forall k | 0 <= k < |s.log| ensures s.log[k].factor == k {
      assert all[k] == s.log[k].factor;
    }
    forall k | 0 <= k < |s.queue| ensures s.queue[k] == |s.log| + k {
      assert all[|s.log| + k] == s.queue[k];
    }
  }

  lemma {:induction false} ReachableFifo(workers: nat, jobs: seq<int>, schedule: seq<Choice>)
    requires CanRun(Init(workers, jobs), schedule)
    ensures FifoInv(Exec(Init(workers, jobs), schedule), jobs)
  {
    Reachable(workers, jobs, schedule);
  }

  lemma {:induction false} ReachableTotal(workers: nat, jobs: seq<int>, schedule: seq<Choice>)
    requires CanRun(Init(workers, jobs), schedule)
    ensures TotalInv(Exec(Init(workers, jobs), schedule), jobs)
  {
    Reachable(workers, jobs, schedule);
  }

  lemma {:induction false} ReachableOnce(workers: nat, jobs: seq<int>, schedule: seq<Choice>, i: int)
    requires CanRun(Init(workers, jobs), schedule)
    ensures Occurrences(Exec(Init(workers, jobs), schedule), i) == Sum(jobs, Is(i))
  {
    Reachable(workers, jobs, schedule);
  }

  /** The k-th dequeue over all workers takes factor k, and each worker's own factors increase. */
  lemma {:induction false} DequeueOrder(workers: nat, numJobs: int, schedule: seq<Choice>)
    requires CanRun(Init(workers, Jobs(numJobs)), schedule)
    ensures var s := Exec(Init(workers, Jobs(numJobs)), schedule);
      && |s.log| + |s.queue| == (if numJobs >= 1 then numJobs else 1)
      && (forall k | 0 <= k < |s.log| :: s.log[k].factor == k)
      && (forall k | 0 <= k < |s.queue| :: s.queue[k] == |s.log| + k)
      && forall a, b | 0 <= a < b < |s.log| && s.log[a].worker == s.log[b].worker :: s.log[a].factor < s.log[b].factor
  {
    ReachableFifo(workers, Jobs(numJobs), schedule);
    FifoOrder(Exec(Init(workers, Jobs(numJobs)), schedule), numJobs);
  }

  /** Each job is queued, in one worker's hand, or freed: exactly one of them, once. */
  lemma {:induction false} ExactlyOnce(workers: nat, numJobs: int, schedule: seq<Choice>, i: int)
    requires CanRun(Init(workers, Jobs(numJobs)), schedule)
    ensures var s := Exec(Init(workers, Jobs(numJobs)), schedule);
      Sum(s.queue, Is(i)) + Sum(s.workers, Holds(i)) + Sum(s.freed, Is(i)) == if i == 0 || 0 < i < numJobs then 1 else 0
  {
    ReachableOnce(workers, Jobs(numJobs), schedule, i);
    OccursOnce(Jobs(numJobs), 0, i);
  }

  /** Accumulated, in hand and queued always add up to n(n-1)/2. */
  lemma {:induction false} Conservation(workers: nat, numJobs: int, schedule: seq<Choice>)
    requires CanRun(Init(workers, Jobs(numJobs)), schedule)
    ensures var s := Exec(Init(workers, Jobs(numJobs)), schedule);
      2 * (Sum(s.accum, Same) + Sum(s.workers, Unprocessed) + Sum(s.queue, Same))
      == if numJobs >= 1 then numJobs * (numJobs - 1) else 0
  {
    ReachableTotal(workers, Jobs(numJobs), schedule);
    JobsSum(numJobs);
  }

  lemma MulBound(a: int, b: int, c: int)
    requires 0 <= a <= c && 0 <= b <= c
    ensures a * b <= c * c
  {
    assert 0 <= (c - a) * b && 0 <= c * (c - b);
    assert (c - a) * b + c * (c - b) == c * c - a * b;
  }

  /** For every 32-bit num_jobs, neither an accumulator nor their sum leaves the range of a signed 64-bit long. */
  lemma {:induction false} FitsInLong(workers: nat, numJobs: int, schedule: seq<Choice>)
    requires CanRun(Init(workers, Jobs(numJobs)), schedule) && numJobs < 0x8000_0000
    ensures var s := Exec(Init(workers, Jobs(numJobs)), schedule);
      && Sum(s.accum, Same) < 0x8000_0000_0000_0000
      && forall t | 0 <= t < |s.accum| :: 0 <= s.accum[t] <= Sum(s.accum, Same)
  {
    Reachable(workers, Jobs(numJobs), schedule);
    Conservation(workers, numJobs, schedule);
    NothingNegative(Exec(Init(workers, Jobs(numJobs)), schedule));
    MulBound(JobCount(numJobs), JobCount(numJobs) - 1, 0x8000_0000);
  }

  lemma NothingNegative(s: State)
    requires SignInv(s)
    ensures Sum(s.queue, Same) >= 0 && Sum(s.workers, Unprocessed) >= 0
    ensures forall t | 0 <= t < |s.accum| :: 0 <= s.accum[t] <= Sum(s.accum, Same)
  {
    SumAtLeast(s.accum, Same);
    SumAtLeast(s.queue, Same);
    SumAtLeast(s.workers, Unprocessed);
  }

  // ---------------------------------------------------------------- progress

  /** While anything is unfinished, some thread can step. */
  lemma NeverStuck(s: State, jobs: seq<int>) returns (c: Choice)
    requires Inv(s, jobs) && !AllDone(s)
    ensures Enabled(s, c)
  {
    if s.main < |s.workers| {
      c := MainThread;
    } else if s.owner.Some? {
      c := Thread(s.owner.value);
    } else if t: nat :| t < |s.workers| && s.workers[t].pc != WDone {
      c := Thread(t);
    } else {
      c := MainThread;
    }
  }

  /** Worker `t` is about to take the mutex, and another worker is in its critical section. */
  predicate HeldUp(s: State, t: nat)
    requires t < |s.workers|
  {
    s.workers[t].pc == WLock && exists u | 0 <= u < |s.workers| :: u != t && Critical(s.workers[u])
  }

  lemma CanStep(s: State, t: nat)
    requires LockInv(s) && PlaceInv(s) && t < |s.workers| && s.workers[t].pc != WNew && s.workers[t].pc != WDone
    ensures Enabled(s, Thread(t)) <==> !HeldUp(s, t)
  {
    if s.owner.Some? {
      assert Critical(s.workers[s.owner.value]);
    }
  }

  /** A started worker is held up by the mutex and by nothing else. */
  lemma {:induction false} WhoBlocks(workers: nat, jobs: seq<int>, schedule: seq<Choice>, t: nat)
    requires CanRun(Init(workers, jobs), schedule) && t < |Exec(Init(workers, jobs), schedule).workers|
    ensures var s := Exec(Init(workers, jobs), schedule);
      s.workers[t].pc == WNew || s.workers[t].pc == WDone || (Enabled(s, Thread(t)) <==> !HeldUp(s, t))
  {
    Reachable(workers, jobs, schedule);
    var s := Exec(Init(workers, jobs), schedule);
    if s.workers[t].pc != WNew && s.workers[t].pc != WDone {
      CanStep(s, t);
    }
  }

  /** Steps a worker still has before its next dequeue or its exit; a dequeue buys the steps after it. */
  function Weight(w: Worker): int
  {
    match w.pc
    case WNew => 5
    case WLock => 5
    case WTest => 4
    case WClear => 3
    case WTake => 3
    case WAdvance => 2
    case WUnlock => if w.next.Some? then 9 else 2
    case WCheck => if w.next.Some? then 8 else 1
    case WProcess => 7
    case WFree => 6
    case WDone => 0
  }

  function Measure(s: State): int { Sum(s.workers, Weight) + 8 * |s.queue| + 2 * |s.workers| - s.main }

  lemma StepLowersMeasure(s: State, c: Choice)
    requires PlaceInv(s) && MainInv(s) && Enabled(s, c)
    ensures Measure(Step(s, c)) < Measure(s)
  {
    SumStep(s, c, Weight);
    if c.Thread? {
      match s.workers[c.t].pc {
        case WLock => case WTest => case WClear => case WTake => case WAdvance =>
        case WUnlock => case WCheck => case WProcess => case WFree =>
      }
    }
  }

  lemma MeasureNonNegative(s: State)
    requires MainInv(s)
    ensures Measure(s) >= 0
  {
    SumAtLeast(s.workers, Weight);
  }

  lemma InitMeasure(workers: nat, jobs: seq<int>)
    ensures Measure(Init(workers, jobs)) == 7 * workers + 8 * |jobs|
  {
    SumConstant(Init(workers, jobs).workers, Weight, 5);
  }

  lemma {:induction false} RunLowersMeasure(s: State, schedule: seq<Choice>, jobs: seq<int>)
    requires Inv(s, jobs) && CanRun(s, schedule)
    ensures |schedule| + Measure(Exec(s, schedule)) <= Measure(s)
    decreases |schedule|
  {
    if schedule != [] {
      StepLowersMeasure(s, schedule[0]);
      StepKeepsInv(s, schedule[0], jobs);
      RunLowersMeasure(Step(s, schedule[0]), schedule[1..], jobs);
    }
  }

  /** Every run is finite, with a bound that depends only on the sizes. */
  lemma {:induction false} RunBound(workers: nat, jobs: seq<int>, schedule: seq<Choice>)
    requires CanRun(Init(workers, jobs), schedule)
    ensures |schedule| <= 7 * workers + 8 * |jobs|
  {
    Reachable(workers, jobs, schedule);
    InitInv(workers, jobs);
    RunLowersMeasure(Init(workers, jobs), schedule, jobs);
    MeasureNonNegative(Exec(Init(workers, jobs), schedule));
    InitMeasure(workers, jobs);
  }

  /** From every state that satisfies the invariant some schedule leads to the end. */
  lemma Complete(s: State, jobs: seq<int>) returns (schedule: seq<Choice>)
    requires Inv(s, jobs)
    ensures CanRun(s, schedule) && AllDone(Exec(s, schedule))
    decreases Measure(s)
  {
    if AllDone(s) {
      schedule := [];
    } else {
      var c := NeverStuck(s, jobs);
      StepKeepsInv(s, c, jobs);
      StepLowersMeasure(s, c);
      MeasureNonNegative(s);
      var rest := Complete(Step(s, c), jobs);
      schedule := [c] + rest;
      assert schedule[1..] == rest;
    }
  }

  /** When every worker has ended, each job was freed once and the joined total is n(n-1)/2, whatever the schedule. */
  lemma {:induction false} Ending(workers: nat, numJobs: int, schedule: seq<Choice>)
    requires workers > 0 && CanRun(Init(workers, Jobs(numJobs)), schedule)
    requires AllDone(Exec(Init(workers, Jobs(numJobs)), schedule))
    ensures var s := Exec(Init(workers, Jobs(numJobs)), schedule);
      && s.queue == [] && |s.log| == (if numJobs >= 1 then numJobs else 1)
      && (forall i :: Sum(s.freed, Is(i)) == if i == 0 || 0 < i < numJobs then 1 else 0)
      && (forall t | 0 <= t < |s.accum| :: s.accum[t] == Sum(s.log, FactorIf(t)))
      && 2 * Sum(s.accum, Same) == if numJobs >= 1 then numJobs * (numJobs - 1) else 0
  {
    Reachable(workers, Jobs(numJobs), schedule);
    var s := Exec(Init(workers, Jobs(numJobs)), schedule);
    assert s.workers[0] in s.workers;
    DequeueOrder(workers, numJobs, schedule);
    Conservation(workers, numJobs, schedule);
    SumConstant(s.workers, Unprocessed, 0);
    forall i ensures Sum(s.freed, Is(i)) == if i == 0 || 0 < i < numJobs then 1 else 0 {
      ExactlyOnce(workers, numJobs, schedule, i);
      SumConstant(s.workers, Holds(i), 0);
    }
  }

  /** The joined total alone. */
  lemma {:induction false} EndTotal(workers: nat, numJobs: int, schedule: seq<Choice>)
    requires workers > 0 && CanRun(Init(workers, Jobs(numJobs)), schedule)
    requires AllDone(Exec(Init(workers, Jobs(numJobs)), schedule))
    ensures 2 * Sum(Exec(Init(workers, Jobs(numJobs)), schedule).accum, Same)
      == if numJobs >= 1 then numJobs * (numJobs - 1) else 0
  {
    Ending(workers, numJobs, schedule);
  }
}
