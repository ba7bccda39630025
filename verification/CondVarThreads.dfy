/** The shared variables of ch04/condvar.c and the threads that change them, statement by statement. */
module CondVarThreads {
  import opened CondVar

  class FlagMonitor {
    const max: int // MAX_LOOPS
    var threadFlag: int
    var loopCount: int
    var mutexOwner: Owner
    var workerAt: WorkerPc
    var togglerAt: TogglerPc
    var flagValue: int // set_thread_flag's argument
    var mainDone: nat
    ghost var toggles: nat

    ghost function View(): State
      reads this
    {
      State(max, threadFlag, loopCount, mutexOwner, workerAt, togglerAt, flagValue, mainDone, toggles)
    }

    /** Mutual exclusion, flag parity, loop count and no lost wakeup, of the variables as they are. */
    ghost predicate Valid()
      reads this
    {
      Inv(View())
    }

    predicate Ended()
      reads this
    {
      mainDone == 4 && workerAt == WDone && togglerAt == TDone
    }

    /** main waits in the second join for a worker that waits for a toggler that is gone. */
    predicate Hangs()
      reads this
    {
      mainDone == 3 && togglerAt == TDone && workerAt == Waiting && threadFlag == 0
    }

    constructor (max: int)
      ensures Valid() && View() == Init(max) && this.max == max
    {
      this.max := max;
      threadFlag, loopCount, mutexOwner := 0, 0, Free;
      workerAt, togglerAt, flagValue, mainDone := WNew, TNew, 0, 0;
      toggles := 0;
    }

    /**
     * working_thread, lines 34-53. The worker sleeps only while the flag is clear, and gives up the
     * mutex as it does; it leaves the inner loop only with the flag set and the mutex in its hand; at
     * the loop test it ends if and only if the count is used up. It touches neither the flag nor the count.
     */
    method WorkerAct()
      requires Valid() && Enabled(View(), WorkerThread)
      modifies this`workerAt, this`mutexOwner
      ensures Valid() && View() == Step(old(View()), WorkerThread)
      ensures workerAt == Waiting ==> threadFlag == 0 && mutexOwner == Free
      ensures workerAt == WUnlock ==> threadFlag != 0 && mutexOwner == Worker
      ensures old(workerAt) == WLoop ==> workerAt == if loopCount < max then WLock else WDone
      ensures workerAt == WDone ==> loopCount >= max
    {
      StepKeepsInv(View(), WorkerThread);
      match workerAt {
        case WLoop => workerAt := if loopCount < max then WLock else WDone;
        case WLock =>
          mutexOwner := Worker;
          workerAt := WTest;
        case WTest => workerAt := if threadFlag == 0 then WWait else WUnlock;
        case WWait =>
          mutexOwner := Free;
          workerAt := Waiting;
        case Woken =>
          mutexOwner := Worker;
          workerAt := WTest;
        case WUnlock =>
          mutexOwner := Free;
          workerAt := WWork;
        case WWork => workerAt := WLoop;
      }
    }

    /**
     * Lines 76-77 of toggling_thread, and lines 62-70 of set_thread_flag inside it. The flag changes
     * only under the mutex and then to its opposite, although line 77 computed the value without it;
     * nobody is left waiting after the signal; at the end there were MAX_LOOPS toggles.
     */
    method TogglerAct()
      requires Valid() && Enabled(View(), TogglerThread)
      modifies this`togglerAt, this`loopCount, this`flagValue, this`mutexOwner, this`threadFlag, this`toggles, this`workerAt
      ensures Valid() && View() == Step(old(View()), TogglerThread)
      ensures toggles != old(toggles) ==> old(mutexOwner) == mutexOwner == Toggler && threadFlag == 1 - old(threadFlag)
      ensures toggles == old(toggles) ==> threadFlag == old(threadFlag)
      ensures old(togglerAt) == TSignal ==> workerAt != Waiting
      ensures togglerAt == TDone ==> toggles == if max < 0 then 0 else max
    {
      StepKeepsInv(View(), TogglerThread);
      TogglerMeans(View());
      match togglerAt {
        case TLoop =>
          togglerAt := if loopCount < max then TRead else TDone;
          loopCount := loopCount + 1;
        case TRead =>
          flagValue := if threadFlag == 0 then 1 else 0;
          togglerAt := TLock;
        case TLock =>
          mutexOwner := Toggler;
          togglerAt := TAssign;
        case TAssign =>
          threadFlag := flagValue;
          toggles := toggles + 1;
          togglerAt := TSignal;
        case TSignal =>
          if workerAt == Waiting {
            workerAt := Woken;
          }
          togglerAt := TUnlock;
        case TUnlock =>
          mutexOwner := Free;
          togglerAt := TLoop;
      }
    }

    /** Lines 87-92: two creates, then two joins; main gets past the joins only when the threads have ended. */
    method MainAct()
      requires Valid() && Enabled(View(), MainThread)
      modifies this`mainDone, this`workerAt, this`togglerAt
      ensures Valid() && View() == Step(old(View()), MainThread)
      ensures mainDone >= 3 ==> togglerAt == TDone
      ensures mainDone == 4 ==> Ended()
    {
      StepKeepsInv(View(), MainThread);
      if mainDone == 0 {
        workerAt := WLoop;
      } else if mainDone == 1 {
        togglerAt := TLoop;
      }
      mainDone := mainDone + 1;
    }

    /**
     * pthread_cond_wait may return although nobody signalled. Unless the toggler is about to
     * signal anyway, the flag the worker will look at is still clear.
     */
    method WakeSpuriously()
      requires Valid() && Enabled(View(), SpuriousWakeup)
      modifies this`workerAt
      ensures Valid() && View() == Step(old(View()), SpuriousWakeup)
      ensures workerAt == Woken && (togglerAt == TSignal || threadFlag == 0)
    {
      StepKeepsInv(View(), SpuriousWakeup);
      workerAt := Woken;
    }

    method Run(schedule: seq<Choice>)
      requires Valid() && CanRun(View(), schedule)
      modifies this
      ensures Valid() && View() == Exec(old(View()), schedule)
    {
      var rest := schedule;
      while rest != []
        invariant Valid() && CanRun(View(), rest) && Exec(View(), rest) == Exec(old(View()), schedule)
        decreases |rest|
      {
        match rest[0] {
          case MainThread => MainAct();
          case WorkerThread => WorkerAct();
          case TogglerThread => TogglerAct();
          case SpuriousWakeup => WakeSpuriously();
        }
        rest := rest[1..];
      }
    }
  }

  /**
   * The whole program under any schedule: the flag is the parity of the toggles, no wakeup is
   * lost, and where it stops it has ended or hangs, the latter only for a positive, even MAX_LOOPS.
   */
  method RunMonitor(max: int, schedule: seq<Choice>) returns (monitor: FlagMonitor)
    requires CanRun(Init(max), schedule)
    ensures fresh(monitor) && monitor.Valid()
    ensures monitor.threadFlag == monitor.toggles % 2 && monitor.toggles <= if max < 0 then 0 else max
    ensures monitor.workerAt == Waiting && monitor.togglerAt != TSignal ==> monitor.threadFlag == 0
    ensures Stuck(monitor.View()) <==> monitor.Ended() || monitor.Hangs()
    ensures monitor.Ended() || monitor.Hangs() ==> monitor.toggles == if max < 0 then 0 else max
    ensures monitor.Hangs() ==> max > 0 && max % 2 == 0
  {
    monitor := new FlagMonitor(max);
    StuckStates(max, schedule);
    NoLostWakeup(max, schedule);
    monitor.Run(schedule);
  }
}
