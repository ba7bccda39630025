/**
 * What holds of every run of ch04/semaphore-jobs.c, for any number of
 * consumers, producers and jobs per producer, and for every schedule.
 */
module SemaphoreRuns {
  import opened Options
  import opened Sums
  import opened SemaphoreJobs

  lemma {:induction false} RunKeepsInv(s: State, schedule: seq<Choice>)
    requires Inv(s) && CanRun(s, schedule)
    ensures Inv(Exec(s, schedule)) && Exec(s, schedule).cfg == s.cfg
    decreases |schedule|
  {
    if schedule != [] {
      StepKeepsInv(s, schedule[0]);
      StepMovesOne(s, schedule[0]);
      RunKeepsInv(Step(s, schedule[0]), schedule[1..]);
    }
  }

  lemma {:induction false} Reachable(cfg: Config, schedule: seq<Choice>)
    requires CanRun(Init(cfg), schedule)
    ensures Inv(Exec(Init(cfg), schedule)) && Exec(Init(cfg), schedule).cfg == cfg
  {
    InitInv(cfg);
    RunKeepsInv(Init(cfg), schedule);
  }

  lemma {:induction false} RunConcat(s: State, a: seq<Choice>, b: seq<Choice>)
    requires CanRun(s, a) && CanRun(Exec(s, a), b)
    ensures CanRun(s, a + b) && Exec(s, a + b) == Exec(Exec(s, a), b)
    decreases |a|
  {
    if a == [] {
      assert a + b == b;
    } else {
      assert (a + b)[1..] == a[1..] + b;
      RunConcat(Step(s, a[0]), a[1..], b);
    }
  }

  ghost predicate IsReachable(s: State)
  {
    exists schedule :: CanRun(Init(s.cfg), schedule) && s == Exec(Init(s.cfg), schedule)
  }

  lemma InitIsReachable(cfg: Config)
    ensures IsReachable(Init(cfg))
  {
    assert CanRun(Init(cfg), []);
  }

  lemma StepIsReachable(s: State, c: Choice)
    requires IsReachable(s) && Enabled(s, c)
    ensures IsReachable(Step(s, c))
  {
    var schedule :| CanRun(Init(s.cfg), schedule) && s == Exec(Init(s.cfg), schedule);
    assert [c][1..] == [];
    RunConcat(Init(s.cfg), schedule, [c]);
    StepMovesOne(s, c);
  }

  lemma ReachableInv(s: State)
    requires IsReachable(s)
    ensures Inv(s)
  {
    var schedule :| CanRun(Init(s.cfg), schedule) && s == Exec(Init(s.cfg), schedule);
    Reachable(s.cfg, schedule);
  }

  /** The mutex excludes: a thread in its critical section is alone there. */
  lemma ReachableAlone(s: State, t: nat)
    requires IsReachable(s) && t < |s.threads| && Critical(s.threads[t])
    ensures forall u | 0 <= u < |s.threads| && u != t :: !Critical(s.threads[u])
  {
    ReachableInv(s);
  }

  /** What line 75 relies on. */
  lemma ReachableHead(s: State, t: nat)
    requires IsReachable(s) && t < |s.threads| && s.threads[t].Consumer? && s.threads[t].cp == CAdvance
    ensures s.queue != [] && s.threads[t].held == Some(s.queue[0])
  {
    ReachableInv(s);
  }

  // ---------------------------------------------------------------- safety

  /** Jobs in the queue = tokens + claims in flight + the window between push and post. */
  lemma {:induction false} QueueAccounting(cfg: Config, schedule: seq<Choice>)
    requires CanRun(Init(cfg), schedule)
    ensures var s := Exec(Init(cfg), schedule);
      && |s.queue| == s.sem + Sum(s.threads, Claim) + Sum(s.threads, Window)
      && forall t | 0 <= t < |s.threads| && Window(s.threads[t]) == 1 :: s.owner == Some(t) && Sum(s.threads, Window) == 1
  {
    Reachable(cfg, schedule);
    var s := Exec(Init(cfg), schedule);
    forall t | 0 <= t < |s.threads| && Window(s.threads[t]) == 1 ensures Sum(s.threads, Window) == 1 {
      var none := Consumer(CNew, None);
      SumUpdate(s.threads, t, none, Window);
      SumConstant(s.threads[t := none], Window, 0);
    }
  }

  /**
   * The comment at line 74: wherever a consumer reads the head (line 73) or dereferences it
   * (line 75) the queue is not empty, and line 75 unlinks the very node line 73 took.
   */
  lemma {:induction false} NeverNull(cfg: Config, schedule: seq<Choice>, t: nat)
    requires CanRun(Init(cfg), schedule)
    requires t < |Exec(Init(cfg), schedule).threads| && Exec(Init(cfg), schedule).threads[t].Consumer?
    ensures var s := Exec(Init(cfg), schedule);
      && (s.threads[t].cp.CTake? || s.threads[t].cp.CAdvance? ==> s.queue != [])
      && (s.threads[t].cp.CAdvance? ==> s.threads[t].held == Some(s.queue[0]))
      && (s.threads[t].cp.CUnlock? || s.threads[t].cp.CFree? ==> s.threads[t].held.Some?)
  {
    Reachable(cfg, schedule);
    if Claim(Exec(Init(cfg), schedule).threads[t]) == 1 {
      ClaimMeansQueued(Exec(Init(cfg), schedule), t);
    }
  }

  /**
   * Every run is a run of the atomic stack: the jobs published are its pushes and the jobs
   * consumers took are its pops, each the largest queued index. Popped is exactly what consumers
   * have in hand or have freed.
   */
  lemma {:induction false} AtomicStack(cfg: Config, schedule: seq<Choice>)
    requires CanRun(Init(cfg), schedule)
    ensures var s := Exec(Init(cfg), schedule);
      && Replay(s.log) == Some(s.queue)
      && Decreasing(s.queue)
      && (forall j | j in s.queue :: j.index <= s.queue[0].index)
      && forall j :: Sum(s.log, IsPopOf(j)) == Sum(s.threads, ConsumerHas(j)) + Sum(s.freed, IsJob(j))
  {
    Reachable(cfg, schedule);
  }

  /** Every index drawn so far is queued, in one thread's hand, or freed: exactly one of them, once. */
  lemma {:induction false} ExactlyOnce(cfg: Config, schedule: seq<Choice>, i: int)
    requires CanRun(Init(cfg), schedule)
    ensures var s := Exec(Init(cfg), schedule);
      && Sum(s.queue, IndexIs(i)) + Sum(s.threads, Holds(i)) + Sum(s.freed, IndexIs(i)) == (if 0 <= i < s.counter then 1 else 0)
      && |s.queue| + Sum(s.threads, HoldsAny) + |s.freed| == s.counter
  {
    Reachable(cfg, schedule);
    var s := Exec(Init(cfg), schedule);
    assert Occurrences(s, i) == if 0 <= i < s.counter then 1 else 0;
  }

  predicate ProducersDone(s: State)
  {
    forall th | th in s.threads :: th.Producer? ==> th.pp == PDone
  }

  /** The counter and the semaphore never exceed the planned total, reached when the producers are done. */
  lemma {:induction false} CounterTotal(cfg: Config, schedule: seq<Choice>)
    requires CanRun(Init(cfg), schedule)
    ensures var s := Exec(Init(cfg), schedule);
      && s.sem <= s.counter <= cfg.producers * cfg.jobs
      && (ProducersDone(s) ==> s.counter == cfg.producers * cfg.jobs)
  {
    Reachable(cfg, schedule);
    var s := Exec(Init(cfg), schedule);
    SumAtLeast(s.threads, Remaining);
    SumAtLeast(s.threads, Claim);
    SumAtLeast(s.threads, Window);
    SumAtLeast(s.threads, HoldsAny);
    if ProducersDone(s) {
      SumConstant(s.threads, Remaining, 0);
    }
  }

  // ---------------------------------------------------------------- progress

  /** While anything is unfinished, some thread can step. */
  lemma NeverStuck(s: State) returns (c: Choice)
    requires Inv(s) && !AllDone(s)
    ensures Enabled(s, c)
  {
    if s.main < Total(s.cfg) {
      c := MainThread;
    } else if s.owner.Some? {
      c := Thread(s.owner.value, 0, Token);
    } else if t: nat :| t < |s.threads| && !Finished(s.threads[t]) {
      c := Thread(t, 0, if s.sem > 0 then Token else Timeout);
    } else {
      c := MainThread;
    }
  }

  ghost predicate CannotStep(s: State, t: nat) { forall payload, wait :: !Enabled(s, Thread(t, payload, wait)) }

  /** Thread `t` is about to take the mutex, and another thread is in its critical section. */
  predicate HeldUp(s: State, t: nat)
    requires t < |s.threads|
  {
    && (if s.threads[t].Producer? then s.threads[t].pp == PLock else s.threads[t].cp == CLock)
    && exists u | 0 <= u < |s.threads| :: u != t && Critical(s.threads[u])
  }

  lemma CanStep(s: State, t: nat)
    requires LockInv(s) && HeldInv(s) && t < |s.threads| && !New(s.threads[t]) && !Finished(s.threads[t])
    ensures CannotStep(s, t) <==> HeldUp(s, t)
  {
    if s.owner.Some? {
      assert Critical(s.threads[s.owner.value]);
    }
    if !Enabled(s, Thread(t, 0, if s.sem > 0 then Token else Timeout)) {
      assert s.owner.Some? && s.owner.value != t;
    }
  }

  /** A started thread is held up by the mutex and by nothing else. */
  lemma {:induction false} WhoBlocks(cfg: Config, schedule: seq<Choice>, t: nat)
    requires CanRun(Init(cfg), schedule) && t < |Exec(Init(cfg), schedule).threads|
    ensures var s := Exec(Init(cfg), schedule);
      New(s.threads[t]) || Finished(s.threads[t]) || (CannotStep(s, t) <==> HeldUp(s, t))
  {
    Reachable(cfg, schedule);
    var s := Exec(Init(cfg), schedule);
    if !New(s.threads[t]) && !Finished(s.threads[t]) {
      CanStep(s, t);
    }
  }

  /** Steps a thread still has, charging each future consumption to the job that will pay for it. */
  function Weight(th: Thread): int
  {
    match th
    case Producer(pp, jobs, _) =>
      (match pp
       case PNew => 15 * jobs + 1
       case PTest => 15 * jobs + 1
       case PAlloc => 15 * jobs + 15
       case PLock => 15 * jobs + 14
       case PLink => 15 * jobs + 13
       case PIndex => 15 * jobs + 12
       case PPayload => 15 * jobs + 11
       case PHead => 15 * jobs + 10
       case PPost => 15 * jobs + 9
       case PUnlock => 15 * jobs + 2
       case PDone => 0)
    case Consumer(cp, _) =>
      match cp
      case CNew => 1
      case CWait => 1
      case CLock => 6
      case CTake => 5
      case CAdvance => 4
      case CUnlock => 3
      case CFree => 2
      case CTimedOut => 0
      case CFailed => 0
  }

  function Measure(s: State): int { Sum(s.threads, Weight) + 6 * s.sem + 2 * Total(s.cfg) - s.main }

  lemma StepLowersMeasure(s: State, c: Choice)
    requires Inv(s) && Enabled(s, c)
    ensures Measure(Step(s, c)) < Measure(s)
  {
    StepMovesOne(s, c);
    if c.MainThread? {
      if s.main < |s.threads| {
        assert New(s.threads[s.main]);
      }
      StartKeepsSum(s, Weight);
    } else {
      SumStep(s, c, Weight);
      ThreadLowersWeight(s, c);
    }
  }

  lemma ThreadLowersWeight(s: State, c: Choice)
    requires BudgetInv(s) && c.Thread? && Enabled(s, c)
    ensures var s' := Step(s, c);
      |s'.threads| == |s.threads| && s'.main == s.main &&
      Weight(s'.threads[c.t]) + 6 * s'.sem < Weight(s.threads[c.t]) + 6 * s.sem
  {}

  lemma MeasureNonNegative(s: State)
    requires Inv(s)
    ensures Measure(s) >= 0
  {
    SumAtLeast(s.threads, Weight);
  }

  lemma {:induction false} RunLowersMeasure(s: State, schedule: seq<Choice>)
    requires Inv(s) && CanRun(s, schedule)
    ensures |schedule| + Measure(Exec(s, schedule)) <= Measure(s)
    decreases |schedule|
  {
    if schedule != [] {
      StepLowersMeasure(s, schedule[0]);
      StepKeepsInv(s, schedule[0]);
      RunLowersMeasure(Step(s, schedule[0]), schedule[1..]);
    }
  }

  /** Every run is finite, with a bound that depends only on the sizes. */
  lemma {:induction false} RunBound(cfg: Config, schedule: seq<Choice>)
    requires CanRun(Init(cfg), schedule)
    ensures |schedule| <= 3 * cfg.consumers + (15 * cfg.jobs + 3) * cfg.producers
  {
    InitInv(cfg);
    RunLowersMeasure(Init(cfg), schedule);
    RunKeepsInv(Init(cfg), schedule);
    MeasureNonNegative(Exec(Init(cfg), schedule));
    InitMeasure(cfg);
  }

  lemma InitMeasure(cfg: Config)
    ensures Measure(Init(cfg)) == 3 * cfg.consumers + (15 * cfg.jobs + 3) * cfg.producers
  {
    var cs := seq(cfg.consumers, _ => Consumer(CNew, None));
    var ps := seq(cfg.producers, _ => Producer(PNew, cfg.jobs, Job(0, 0)));
    assert Sum(cs + ps, Weight) == cfg.consumers + (15 * cfg.jobs + 1) * cfg.producers by {
      SumConcat(cs, ps, Weight);
      SumConstant(cs, Weight, 1);
      SumConstant(ps, Weight, 15 * cfg.jobs + 1);
    }
    assert (15 * cfg.jobs + 3) * cfg.producers == (15 * cfg.jobs + 1) * cfg.producers + 2 * cfg.producers;
    assert Init(cfg).threads == cs + ps;
  }

  /** Every state that satisfies the invariant can be run to the end. */
  lemma Complete(s: State) returns (schedule: seq<Choice>)
    requires Inv(s)
    ensures CanRun(s, schedule) && AllDone(Exec(s, schedule))
    decreases Measure(s)
  {
    if AllDone(s) {
      schedule := [];
    } else {
      var c := NeverStuck(s);
      StepKeepsInv(s, c);
      StepLowersMeasure(s, c);
      MeasureNonNegative(s);
      var rest := Complete(Step(s, c));
      schedule := [c] + rest;
      assert schedule[1..] == rest;
    }
  }

  // ---------------------------------------------------------------- the end of a run

  /** No claim, no window and nothing in hand. */
  lemma NothingInFlight(s: State)
    requires AllDone(s)
    ensures Sum(s.threads, Claim) == Sum(s.threads, Window) == Sum(s.threads, HoldsAny) == 0
    ensures forall i :: Sum(s.threads, Holds(i)) == 0
  {
    forall t | 0 <= t < |s.threads| ensures Finished(s.threads[t]) {
      assert s.threads[t] in s.threads;
    }
    SumConstant(s.threads, Claim, 0);
    SumConstant(s.threads, Window, 0);
    SumConstant(s.threads, HoldsAny, 0);
    forall i ensures Sum(s.threads, Holds(i)) == 0 {
      SumConstant(s.threads, Holds(i), 0);
    }
  }

  lemma EndState(s: State)
    requires Inv(s) && AllDone(s)
    ensures |s.queue| == s.sem && |s.queue| + |s.freed| == s.counter
    ensures forall i | 0 <= i < s.counter :: Sum(s.queue, IndexIs(i)) + Sum(s.freed, IndexIs(i)) == 1
  {
    NothingInFlight(s);
    forall i | 0 <= i < s.counter ensures Sum(s.queue, IndexIs(i)) + Sum(s.freed, IndexIs(i)) == 1 {
      assert Occurrences(s, i) == 1;
    }
  }

  /** When everything has ended, what is left in the queue is exactly what is left in the semaphore. */
  lemma {:induction false} Ending(cfg: Config, schedule: seq<Choice>)
    requires CanRun(Init(cfg), schedule) && AllDone(Exec(Init(cfg), schedule))
    ensures var s := Exec(Init(cfg), schedule);
      && |s.queue| == s.sem
      && |s.queue| + |s.freed| == s.counter == cfg.producers * cfg.jobs
      && forall i | 0 <= i < s.counter :: Sum(s.queue, IndexIs(i)) + Sum(s.freed, IndexIs(i)) == 1
  {
    Reachable(cfg, schedule);
    CounterTotal(cfg, schedule);
    EndState(Exec(Init(cfg), schedule));
  }

  /** With the producers done and no token left, no token ever comes back. */
  lemma {:induction false} NoMoreTokens(s: State, schedule: seq<Choice>)
    requires Inv(s) && ProducersDone(s) && s.sem == 0 && CanRun(s, schedule)
    ensures Exec(s, schedule).sem == 0
    decreases |schedule|
  {
    if schedule != [] {
      NoMoreTokensStep(s, schedule[0]);
      StepKeepsInv(s, schedule[0]);
      NoMoreTokens(Step(s, schedule[0]), schedule[1..]);
    }
  }

  lemma NoMoreTokensStep(s: State, c: Choice)
    requires MainInv(s) && ProducersDone(s) && s.sem == 0 && Enabled(s, c)
    ensures ProducersDone(Step(s, c)) && Step(s, c).sem == 0
  {
    var s' := Step(s, c);
    StepMovesOne(s, c);
    forall t | 0 <= t < |s'.threads| && s'.threads[t].Producer? ensures s'.threads[t].pp == PDone {
      assert s.threads[t] in s.threads;
    }
  }

  /** A consumer's wait gives up. */
  predicate TimesOut(s: State, c: Choice)
  {
    c.Thread? && c.wait == Timeout && Enabled(s, c) && s.threads[c.t].Consumer? && s.threads[c.t].cp == CWait
  }

  /**
   * If some consumer times out after the producers have finished, then once every thread has
   * ended the queue is empty and every job was consumed exactly once, however the other
   * consumers left.
   */
  lemma {:induction false} Drained(cfg: Config, before: seq<Choice>, c: Choice, after: seq<Choice>)
    requires CanRun(Init(cfg), before)
    requires ProducersDone(Exec(Init(cfg), before)) && TimesOut(Exec(Init(cfg), before), c)
    requires CanRun(Step(Exec(Init(cfg), before), c), after)
    requires AllDone(Exec(Step(Exec(Init(cfg), before), c), after))
    ensures var s := Exec(Step(Exec(Init(cfg), before), c), after);
      && s.queue == []
      && s.counter == |s.freed| == cfg.producers * cfg.jobs
      && forall i | 0 <= i < s.counter :: Sum(s.freed, IndexIs(i)) == 1
  {
    var s0 := Exec(Init(cfg), before);
    Reachable(cfg, before);
    NoMoreTokensStep(s0, c);
    StepKeepsInv(s0, c);
    NoMoreTokens(Step(s0, c), after);
    assert ([c] + after)[1..] == after;
    RunConcat(Init(cfg), before, [c] + after);
    Ending(cfg, before + ([c] + after));
    var s := Exec(Step(s0, c), after);
    assert s.queue == [];
  }

  // ---------------------------------------------------------------- what the last consumer leaves

  predicate ConsumersLeft(s: State)
  {
    forall th | th in s.threads :: th.Consumer? ==> Finished(th)
  }

  /** Posts a producer has still to make. */
  function Owed(th: Thread): int
  {
    match th
    case Consumer(_, _) => 0
    case Producer(pp, jobs, _) =>
      if pp.PDone? then 0 else if pp.PNew? || pp.PTest? || pp.PUnlock? then jobs else jobs + 1
  }

  /** Without consumers, tokens only pass from what is owed to the semaphore. */
  lemma OwedStep(s: State, c: Choice)
    requires MainInv(s) && BudgetInv(s) && ConsumersLeft(s) && Enabled(s, c)
    ensures ConsumersLeft(Step(s, c))
    ensures Step(s, c).sem + Sum(Step(s, c).threads, Owed) == s.sem + Sum(s.threads, Owed)
  {
    var s' := Step(s, c);
    var t := if c.MainThread? then s.main else c.t;
    StepMovesOne(s, c);
    if t < |s.threads| {
      assert s.threads[t] in s.threads;
      assert New(s.threads[t]) <==> s.main <= t;
      SumUpdate(s.threads, t, s'.threads[t], Owed);
    }
    forall u | 0 <= u < |s'.threads| && s'.threads[u].Consumer? ensures Finished(s'.threads[u]) {
      assert s.threads[u] in s.threads;
    }
  }

  lemma {:induction false} OwedRun(s: State, schedule: seq<Choice>)
    requires Inv(s) && ConsumersLeft(s) && CanRun(s, schedule)
    ensures var s' := Exec(s, schedule); s'.sem + Sum(s'.threads, Owed) == s.sem + Sum(s.threads, Owed)
    decreases |schedule|
  {
    if schedule != [] {
      OwedStep(s, schedule[0]);
      StepKeepsInv(s, schedule[0]);
      OwedRun(Step(s, schedule[0]), schedule[1..]);
    }
  }

  lemma OwedNonNegative(s: State)
    requires Inv(s)
    ensures Sum(s.threads, Owed) >= 0 && (Sum(s.threads, Owed) == 0 <==> forall th | th in s.threads :: Owed(th) == 0)
  {
    SumAtLeast(s.threads, Owed);
    if forall th | th in s.threads :: Owed(th) == 0 {
      SumConstant(s.threads, Owed, 0);
    }
  }

  lemma {:induction false} LeftFrom(s: State, schedule: seq<Choice>)
    requires Inv(s) && ConsumersLeft(s) && CanRun(s, schedule) && AllDone(Exec(s, schedule))
    ensures |Exec(s, schedule).queue| == s.sem + Sum(s.threads, Owed)
  {
    OwedRun(s, schedule);
    RunKeepsInv(s, schedule);
    EndState(Exec(s, schedule));
    SumConstant(Exec(s, schedule).threads, Owed, 0);
  }

  /**
   * Once the last consumer has left, the jobs that will be left at the end are the tokens and
   * the posts still to come: so the queue drains exactly when there is neither.
   */
  lemma {:induction false} LeftBehind(cfg: Config, before: seq<Choice>, after: seq<Choice>)
    requires CanRun(Init(cfg), before) && ConsumersLeft(Exec(Init(cfg), before))
    requires CanRun(Exec(Init(cfg), before), after) && AllDone(Exec(Exec(Init(cfg), before), after))
    ensures var s0 := Exec(Init(cfg), before); var s := Exec(s0, after);
      && |s.queue| == s0.sem + Sum(s0.threads, Owed)
      && (s.queue == [] <==> s0.sem == 0 && forall th | th in s0.threads :: Owed(th) == 0)
  {
    var s0 := Exec(Init(cfg), before);
    Reachable(cfg, before);
    LeftFrom(s0, after);
    OwedNonNegative(s0);
  }

  // ---------------------------------------------------------------- without that timeout

  ghost predicate ConsumersGone(s: State, k: nat)
  {
    && s.freed == []
    && forall t | 0 <= t < |s.threads| && t < k :: s.threads[t].Consumer? && s.threads[t].cp == CTimedOut
  }

  lemma CreateAndTimeOut(s: State)
    requires Inv(s) && s.main < s.cfg.consumers && s.sem == 0 && ConsumersGone(s, s.main)
    ensures var leave := Thread(s.main, 0, Timeout);
      && Enabled(s, MainThread) && Enabled(MainStep(s), leave)
      && var s' := Step(MainStep(s), leave);
         s'.main == s.main + 1 && s'.sem == 0 && ConsumersGone(s', s.main + 1)
  {
    assert New(s.threads[s.main]);
  }

  lemma {:induction false} ExecTwo(s: State, a: Choice, b: Choice)
    requires Enabled(s, a) && Enabled(Step(s, a), b)
    ensures CanRun(s, [a, b]) && Exec(s, [a, b]) == Step(Step(s, a), b)
  {
    assert [a, b][1..] == [b] && [b][1..] == [];
    assert Exec(Step(s, a), [b]) == Exec(Step(Step(s, a), b), []);
  }

  /** Main creates `k` consumers and each times out before the next thing happens. */
  lemma EarlyTimeouts(cfg: Config, k: nat) returns (schedule: seq<Choice>)
    requires k <= cfg.consumers
    ensures CanRun(Init(cfg), schedule)
    ensures var s := Exec(Init(cfg), schedule); s.main == k && s.sem == 0 && ConsumersGone(s, k)
  {
    if k == 0 {
      schedule := [];
    } else {
      var prefix := EarlyTimeouts(cfg, k - 1);
      Reachable(cfg, prefix);
      var s := Exec(Init(cfg), prefix);
      CreateAndTimeOut(s);
      ExecTwo(s, MainThread, Thread(k - 1, 0, Timeout));
      RunConcat(Init(cfg), prefix, [MainThread, Thread(k - 1, 0, Timeout)]);
      schedule := prefix + [MainThread, Thread(k - 1, 0, Timeout)];
    }
  }

  lemma GoneStepGone(s: State, c: Choice)
    requires MainInv(s) && s.main >= s.cfg.consumers && ConsumersGone(s, s.cfg.consumers) && Enabled(s, c)
    ensures ConsumersGone(Step(s, c), s.cfg.consumers)
  {
    StepMovesOne(s, c);
  }

  lemma {:induction false} GoneStayGone(s: State, schedule: seq<Choice>)
    requires Inv(s) && s.main >= s.cfg.consumers && ConsumersGone(s, s.cfg.consumers) && CanRun(s, schedule)
    ensures ConsumersGone(Exec(s, schedule), s.cfg.consumers)
    decreases |schedule|
  {
    if schedule != [] {
      StepKeepsInv(s, schedule[0]);
      StepMovesOne(s, schedule[0]);
      GoneStepGone(s, schedule[0]);
      assert Step(s, schedule[0]).main >= s.main;
      GoneStayGone(Step(s, schedule[0]), schedule[1..]);
    }
  }

  /**
   * For all sizes there is a run in which every consumer times out before the first job, every
   * thread ends, and every job stays in the queue.
   */
  lemma AllJobsLeft(cfg: Config) returns (schedule: seq<Choice>)
    ensures CanRun(Init(cfg), schedule)
    ensures var s := Exec(Init(cfg), schedule); AllDone(s) && s.freed == [] && |s.queue| == s.sem == cfg.producers * cfg.jobs
  {
    var before := EarlyTimeouts(cfg, cfg.consumers);
    Reachable(cfg, before);
    var s := Exec(Init(cfg), before);
    var after := Complete(s);
    GoneStayGone(s, after);
    RunConcat(Init(cfg), before, after);
    schedule := before + after;
    Ending(cfg, schedule);
  }

  ghost predicate AlwaysDrains(cfg: Config)
  {
    forall schedule | CanRun(Init(cfg), schedule) && AllDone(Exec(Init(cfg), schedule)) :: Exec(Init(cfg), schedule).queue == []
  }

  /** The queue drains in every complete run only when there are no jobs at all. */
  lemma AlwaysDrainsIff(cfg: Config)
    ensures AlwaysDrains(cfg) <==> cfg.producers * cfg.jobs == 0
  {
    var leaves := AllJobsLeft(cfg);
    if cfg.producers * cfg.jobs == 0 {
      forall schedule | CanRun(Init(cfg), schedule) && AllDone(Exec(Init(cfg), schedule))
        ensures Exec(Init(cfg), schedule).queue == []
      {
        Ending(cfg, schedule);
      }
    }
  }
}
