/**
 * ch04/different-mutexes.c: threads that lock one mutex `locks` times and never
 * unlock it, for each of the three kinds of mutex. `pthread_mutex_lock` behaves as
 * POSIX.1-2017, System Interfaces, chapter 3 prescribes.
 */
module Mutexes {
  import opened Options
  import opened Sums

  datatype Kind = Normal | Recursive | ErrorCheck

  /** What a call does: returns 0, returns EDEADLK, or does not return. */
  datatype LockResult = Success | EDeadlk | Blocks

  datatype Mutex = Mutex(kind: Kind, owner: Option<nat>, depth: nat)

  function LockOutcome(m: Mutex, t: nat): LockResult
  {
    if m.owner == None then Success
    else if m.owner == Some(t) then
      match m.kind
      case Normal => Blocks
      case Recursive => Success
      case ErrorCheck => EDeadlk
    else Blocks
  }

  function Locked(m: Mutex, t: nat): Mutex
    requires LockOutcome(m, t) != Blocks
  {
    if LockOutcome(m, t) == Success then m.(owner := Some(t), depth := m.depth + 1) else m
  }

  /** The loop test at line 22, the call at line 26, or finished. */
  datatype Pc = Test | Call | Finished

  /** `i` is the loop variable; `got` and `refused` count the calls that returned 0 and EDEADLK. */
  datatype Thread = Thread(pc: Pc, i: nat, got: nat, refused: nat)

  datatype State = State(locks: nat, mutex: Mutex, threads: seq<Thread>)

  function Init(kind: Kind, locks: nat, threads: nat): State
  {
    State(locks, Mutex(kind, None, 0), seq(threads, _ => Thread(Test, 1, 0, 0)))
  }

  predicate Enabled(s: State, t: nat)
  {
    && t < |s.threads|
    && s.threads[t].pc != Finished
    && (s.threads[t].pc == Call ==> LockOutcome(s.mutex, t) != Blocks)
  }

  function Step(s: State, t: nat): State
    requires Enabled(s, t)
  {
    var Thread(pc, i, got, refused) := s.threads[t];
    if pc == Test then
      s.(threads := s.threads[t := Thread(if i <= s.locks then Call else Finished, i, got, refused)])
    else
      var th :=
        if LockOutcome(s.mutex, t) == Success then Thread(Test, i + 1, got + 1, refused)
        else Thread(Test, i + 1, got, refused + 1);
      s.(mutex := Locked(s.mutex, t), threads := s.threads[t := th])
  }

  predicate CanRun(s: State, schedule: seq<nat>)
    decreases |schedule|
  {
    schedule == [] || (Enabled(s, schedule[0]) && CanRun(Step(s, schedule[0]), schedule[1..]))
  }

  function Exec(s: State, schedule: seq<nat>): State
    requires CanRun(s, schedule)
    decreases |schedule|
  {
    if schedule == [] then s else Exec(Step(s, schedule[0]), schedule[1..])
  }

  /** No thread can take another step: what main finds when it wakes up and cancels. */
  ghost predicate Maximal(s: State) { forall t: nat :: !Enabled(s, t) }

  // ---------------------------------------------------------------- the outcome

  /** The owner's end for each kind. */
  function OwnersEnd(kind: Kind, locks: nat): Thread
  {
    match kind
    case Normal => if locks == 1 then Thread(Finished, 2, 1, 0) else Thread(Call, 2, 1, 0)
    case Recursive => Thread(Finished, locks + 1, locks, 0)
    case ErrorCheck => Thread(Finished, locks + 1, 1, if locks == 0 then 0 else locks - 1)
  }

  /** The final state in which thread `w` owns the mutex and everybody else is blocked at the first call. */
  function Final(kind: Kind, locks: nat, threads: nat, w: nat): State
  {
    State(locks, Mutex(kind, Some(w), if kind == Recursive then locks else 1),
          seq(threads, t => if t == w then OwnersEnd(kind, locks) else Thread(Call, 1, 0, 0)))
  }

  /** A thread's counters agree with its loop variable, and only the owner's ever moved. */
  predicate ThreadInv(s: State, t: nat)
    requires t < |s.threads|
  {
    var Thread(pc, i, got, refused) := s.threads[t];
    && i == 1 + got + refused
    && (pc == Call ==> i <= s.locks)
    && (pc == Finished ==> i > s.locks)
    && i <= s.locks + 1
    && if s.mutex.owner == Some(t)
       then
         match s.mutex.kind
         case Normal => got == 1 && refused == 0 && s.mutex.depth == 1
         case Recursive => got >= 1 && refused == 0 && s.mutex.depth == got
         case ErrorCheck => got == 1 && s.mutex.depth == 1
       else got == 0 && refused == 0
  }

  predicate Inv(s: State)
  {
    && (s.mutex.owner == None ==> s.mutex.depth == 0)
    && (s.mutex.owner.Some? ==> s.mutex.owner.value < |s.threads|)
    && forall t | 0 <= t < |s.threads| :: ThreadInv(s, t)
  }

  lemma StepKeepsInv(s: State, t: nat)
    requires Inv(s) && Enabled(s, t)
    ensures Inv(Step(s, t))
  {
    assert ThreadInv(s, t);
    forall u | 0 <= u < |s.threads| ensures ThreadInv(Step(s, t), u) {
      assert ThreadInv(s, u);
    }
  }

  lemma {:induction false} RunKeepsInv(s: State, schedule: seq<nat>)
    requires Inv(s) && CanRun(s, schedule)
    ensures var s' := Exec(s, schedule);
      && Inv(s') && s'.locks == s.locks && |s'.threads| == |s.threads| && s'.mutex.kind == s.mutex.kind
      && (s.mutex.owner.Some? ==> s'.mutex.owner == s.mutex.owner)
    decreases |schedule|
  {
    if schedule != [] {
      StepKeepsInv(s, schedule[0]);
      RunKeepsInv(Step(s, schedule[0]), schedule[1..]);
    }
  }

  /** Every maximal run ends in one of the outcomes: one owner, everybody else without any success. */
  lemma MaximalOutcome(s: State)
    requires Inv(s) && Maximal(s) && s.locks >= 1 && |s.threads| >= 1
    ensures s.mutex.owner.Some? && s == Final(s.mutex.kind, s.locks, |s.threads|, s.mutex.owner.value)
  {
    assert ThreadInv(s, 0) && !Enabled(s, 0);
    var w := s.mutex.owner.value;
    assert ThreadInv(s, w);
    var final := Final(s.mutex.kind, s.locks, |s.threads|, w);
    forall t | 0 <= t < |s.threads| ensures s.threads[t] == final.threads[t] {
      assert ThreadInv(s, t) && !Enabled(s, t);
    }
  }

  /** A thread's steps left: two for each lock attempt it has still to make, and one. */
  function StepsLeft(locks: nat): Thread -> int
  {
    (th: Thread) => match th.pc
      case Test => 2 * (locks + 1 - th.i) + 1
      case Call => 2 * (locks + 1 - th.i)
      case Finished => 0
  }

  lemma StepLowersMeasure(s: State, t: nat)
    requires Inv(s) && Enabled(s, t)
    ensures Sum(Step(s, t).threads, StepsLeft(s.locks)) < Sum(s.threads, StepsLeft(s.locks))
  {
    assert ThreadInv(s, t);
    SumUpdate(s.threads, t, Step(s, t).threads[t], StepsLeft(s.locks));
  }

  lemma StepsLeftNonNegative(s: State)
    requires Inv(s)
    ensures Sum(s.threads, StepsLeft(s.locks)) >= 0
  {
    forall t | 0 <= t < |s.threads| ensures StepsLeft(s.locks)(s.threads[t]) >= 0 {
      assert ThreadInv(s, t);
    }
    SumAtLeast(s.threads, StepsLeft(s.locks));
  }

  lemma {:induction false} RunLowersMeasure(s: State, schedule: seq<nat>)
    requires Inv(s) && CanRun(s, schedule)
    ensures |schedule| + Sum(Exec(s, schedule).threads, StepsLeft(s.locks)) <= Sum(s.threads, StepsLeft(s.locks))
    decreases |schedule|
  {
    if schedule != [] {
      StepKeepsInv(s, schedule[0]);
      StepLowersMeasure(s, schedule[0]);
      RunLowersMeasure(Step(s, schedule[0]), schedule[1..]);
    }
  }

  /** Every run is finite. */
  lemma {:induction false} RunBound(kind: Kind, locks: nat, threads: nat, schedule: seq<nat>)
    requires CanRun(Init(kind, locks, threads), schedule)
    ensures |schedule| <= (2 * locks + 1) * threads
  {
    var s := Init(kind, locks, threads);
    RunLowersMeasure(s, schedule);
    RunKeepsInv(s, schedule);
    StepsLeftNonNegative(Exec(s, schedule));
    SumConstant(s.threads, StepsLeft(locks), 2 * locks + 1);
  }

  lemma Complete(s: State) returns (schedule: seq<nat>)
    requires Inv(s)
    ensures CanRun(s, schedule) && Maximal(Exec(s, schedule))
    decreases Sum(s.threads, StepsLeft(s.locks))
  {
    if t: nat :| Enabled(s, t) {
      StepKeepsInv(s, t);
      StepLowersMeasure(s, t);
      StepsLeftNonNegative(s);
      var rest := Complete(Step(s, t));
      schedule := [t] + rest;
      assert schedule[1..] == rest;
    } else {
      schedule := [];
    }
  }

  /** Thread `w` goes first and keeps the mutex; everything after that is forced. */
  lemma FirstTakesAll(kind: Kind, locks: nat, threads: nat, w: nat) returns (schedule: seq<nat>)
    requires locks >= 1 && w < threads
    ensures CanRun(Init(kind, locks, threads), schedule)
    ensures Exec(Init(kind, locks, threads), schedule) == Final(kind, locks, threads, w)
    ensures Maximal(Exec(Init(kind, locks, threads), schedule))
  {
    var s := Init(kind, locks, threads);
    StepKeepsInv(s, w);
    StepKeepsInv(Step(s, w), w);
    var s' := Step(Step(s, w), w);
    assert s'.mutex.owner == Some(w);
    var rest := Complete(s');
    RunKeepsInv(s', rest);
    MaximalOutcome(Exec(s', rest));
    schedule := [w, w] + rest;
    assert schedule[1..] == [w] + rest && ([w] + rest)[1..] == rest;
  }

  /** Some maximal run ends in `s`. */
  ghost predicate IsOutcome(kind: Kind, locks: nat, threads: nat, s: State)
  {
    exists schedule ::
      CanRun(Init(kind, locks, threads), schedule) && Exec(Init(kind, locks, threads), schedule) == s && Maximal(s)
  }

  /**
   * The outcomes of the maximal runs are exactly the states Final(w), one for each thread:
   * normal blocks the owner on its second call, recursive lets it finish with every call
   * granted, error-checking lets it finish with one granted and the rest EDEADLK; the other
   * threads never get the mutex.
   */
  lemma Outcomes(kind: Kind, locks: nat, threads: nat, s: State)
    requires locks >= 1 && threads >= 1
    ensures IsOutcome(kind, locks, threads, s) <==> exists w: nat :: w < threads && s == Final(kind, locks, threads, w)
  {
    if IsOutcome(kind, locks, threads, s) {
      var schedule :| CanRun(Init(kind, locks, threads), schedule) && Exec(Init(kind, locks, threads), schedule) == s && Maximal(s);
      RunKeepsInv(Init(kind, locks, threads), schedule);
      MaximalOutcome(s);
      var w := s.mutex.owner.value;
      assert w < threads && s == Final(kind, locks, threads, w);
    }
    if w: nat :| w < threads && s == Final(kind, locks, threads, w) {
      var schedule := FirstTakesAll(kind, locks, threads, w);
    }
  }

  // ---------------------------------------------------------------- the program

  class PthreadMutex {
    const kind: Kind
    var owner: Option<nat>
    var depth: nat

    ghost function View(): Mutex
      reads this
    {
      Mutex(kind, owner, depth)
    }

    constructor (kind: Kind)
      ensures View() == Mutex(kind, None, 0)
    {
      this.kind := kind;
      owner, depth := None, 0;
    }

    /** A call that returns. */
    method Lock(t: nat) returns (ret: LockResult)
      requires LockOutcome(View(), t) != Blocks
      modifies this
      ensures ret == LockOutcome(old(View()), t) && View() == Locked(old(View()), t)
    {
      if owner == Some(t) && kind == ErrorCheck {
        ret := EDeadlk;
      } else {
        ret := Success;
        owner := Some(t);
        depth := depth + 1;
      }
    }
  }

  class LockingThreads {
    const locks: nat // num_locks
    const mutex: PthreadMutex
    var threads: seq<Thread>

    ghost function View(): State
      reads this, mutex
    {
      State(locks, mutex.View(), threads)
    }

    /** Every counter agrees with its thread's place in the loop, and only the owner's ever moved. */
    ghost predicate Valid()
      reads this, mutex
    {
      Inv(View())
    }

    constructor (kind: Kind, locks: nat, count: nat)
      ensures Valid() && View() == Init(kind, locks, count) && fresh(mutex)
    {
      this.locks := locks;
      mutex := new PthreadMutex(kind);
      threads := seq(count, _ => Thread(Test, 1, 0, 0));
    }

    /**
     * thread_task, lines 22-40, one statement. The mutex never changes hands, only its owner's
     * calls return, and only an error-checking mutex refuses its owner.
     */
    method Act(t: nat)
      requires Valid() && Enabled(View(), t)
      modifies this, mutex
      ensures Valid() && View() == Step(old(View()), t)
      ensures old(mutex.owner).Some? ==> mutex.owner == old(mutex.owner)
      ensures threads[t].got + threads[t].refused > 0 ==> mutex.owner == Some(t)
      ensures threads[t].refused > old(threads[t].refused) ==> mutex.kind == ErrorCheck && old(mutex.owner) == Some(t)
      ensures forall u | 0 <= u < |threads| && u != t :: threads[u] == old(threads)[u]
    {
      StepKeepsInv(View(), t);
      assert ThreadInv(Step(View(), t), t);
      var Thread(pc, i, got, refused) := threads[t];
      if pc == Test {
        threads := threads[t := Thread(if i <= locks then Call else Finished, i, got, refused)];
      } else {
        var ret := mutex.Lock(t);
        if ret == Success {
          got := got + 1;
        } else {
          refused := refused + 1;
        }
        threads := threads[t := Thread(Test, i + 1, got, refused)];
      }
    }

    method Run(schedule: seq<nat>)
      requires Valid() && CanRun(View(), schedule)
      modifies this, mutex
      ensures Valid() && View() == Exec(old(View()), schedule)
    {
      var rest := schedule;
      while rest != []
        invariant Valid() && CanRun(View(), rest) && Exec(View(), rest) == Exec(old(View()), schedule)
        decreases |rest|
      {
        Act(rest[0]);
        rest := rest[1..];
      }
    }
  }

  /**
   * The threads under any schedule that leaves none of them a step: one owner, at its kind's end,
   * and everybody else blocked in the first call.
   */
  method RunTasks(kind: Kind, locks: nat, count: nat, schedule: seq<nat>) returns (tasks: LockingThreads, owner: nat)
    requires locks >= 1 && count >= 1
    requires CanRun(Init(kind, locks, count), schedule) && Maximal(Exec(Init(kind, locks, count), schedule))
    ensures fresh(tasks) && owner < count == |tasks.threads| && tasks.mutex.owner == Some(owner)
    ensures tasks.mutex.depth == if kind == Recursive then locks else 1
    ensures var th := tasks.threads[owner];
      && (kind == Normal ==> th.got == 1 && th.refused == 0 && (th.pc == Finished <==> locks == 1))
      && (kind == Recursive ==> th.got == locks && th.refused == 0 && th.pc == Finished)
      && (kind == ErrorCheck ==> th.got == 1 && th.refused == locks - 1 && th.pc == Finished)
    ensures forall t | 0 <= t < count && t != owner ::
      tasks.threads[t].pc == Call && tasks.threads[t].got == 0 && tasks.threads[t].refused == 0
  {
    RunKeepsInv(Init(kind, locks, count), schedule);
    MaximalOutcome(Exec(Init(kind, locks, count), schedule));
    tasks := new LockingThreads(kind, locks, count);
    tasks.Run(schedule);
    owner := tasks.mutex.owner.value;
  }
}
