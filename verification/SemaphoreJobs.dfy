/**
 * ch04/semaphore-jobs.c as a step system: any number of producers push jobs
 * onto a shared stack under a mutex and post a semaphore; any number of
 * consumers take a token, lock, and pop without testing for NULL. One step is
 * one statement of one thread, so a schedule is any interleaving.
 */
module SemaphoreJobs {
  import opened Options
  import opened Sums

  datatype Job = Job(index: int, payload: int)

  /** The statement a producer executes next (producer, lines 111-130). */
  datatype ProducerPc = PNew | PTest | PAlloc | PLock | PLink | PIndex | PPayload | PHead | PPost | PUnlock | PDone

  /** The statement a consumer executes next (consumer, lines 48-84). */
  datatype ConsumerPc = CNew | CWait | CLock | CTake | CAdvance | CUnlock | CFree | CTimedOut | CFailed

  /** A producer counts `jobs` down and fills `job`; a consumer's `held` is its `this_job`, None for NULL. */
  datatype Thread =
    | Producer(pp: ProducerPc, jobs: int, job: Job)
    | Consumer(cp: ConsumerPc, held: Option<Job>)

  datatype Config = Config(consumers: nat, producers: nat, jobs: nat)

  datatype Event = Push(job: Job) | Pop(job: Job)

  /**
   * Threads are numbered in creation order, consumers first. `main` counts what the main
   * thread has done: create every thread, join the producers, join the consumers.
   * `log` and `freed` record what happened; no step reads them.
   */
  datatype State = State(
    cfg: Config,
    queue: seq<Job>, // from head to tail
    counter: int,
    sem: nat,
    owner: Option<nat>,
    threads: seq<Thread>,
    main: nat,
    log: seq<Event>,
    freed: seq<Job>)

  /** How sem_timedwait returns: with a token, by timeout, or with another error. */
  datatype WaitResult = Token | Timeout | OtherError

  datatype Choice = MainThread | Thread(t: nat, payload: int, wait: WaitResult)

  function Total(cfg: Config): nat { cfg.consumers + cfg.producers }

  function Init(cfg: Config): State
  {
    State(cfg, [], 0, 0, None,
          seq(cfg.consumers, _ => Consumer(CNew, None)) +
          seq(cfg.producers, _ => Producer(PNew, cfg.jobs, Job(0, 0))),
          0, [], [])
  }

  predicate Finished(th: Thread)
  {
    match th
    case Producer(pp, _, _) => pp == PDone
    case Consumer(cp, _) => cp == CTimedOut || cp == CFailed
  }

  predicate New(th: Thread)
  {
    match th
    case Producer(pp, _, _) => pp == PNew
    case Consumer(cp, _) => cp == CNew
  }

  /** The thread that main's join number `main - Total` waits for. */
  function Joined(cfg: Config, main: nat): nat
    requires Total(cfg) <= main < 2 * Total(cfg)
  {
    if main < Total(cfg) + cfg.producers then main - cfg.producers else main - Total(cfg) - cfg.producers
  }

  /** Main's joins so far include thread `t`. */
  predicate WasJoined(cfg: Config, main: nat, t: nat)
  {
    if t < cfg.consumers then Total(cfg) + cfg.producers + t < main else cfg.producers + t < main
  }

  /**
   * A timeout happens only when the semaphore is zero. Advancing over a NULL head has no
   * defined successor, so such a step is not enabled; NeverNull shows it never comes to that.
   */
  predicate Enabled(s: State, c: Choice)
  {
    match c
    case MainThread =>
      && s.main < 2 * Total(s.cfg) && |s.threads| == Total(s.cfg)
      && (s.main >= Total(s.cfg) ==> Finished(s.threads[Joined(s.cfg, s.main)]))
    case Thread(t, _, wait) =>
      t < |s.threads| &&
      match s.threads[t]
      case Producer(pp, _, _) => pp != PNew && pp != PDone && (pp == PLock ==> s.owner == None)
      case Consumer(cp, _) =>
        && cp != CNew && cp != CTimedOut && cp != CFailed
        && (cp == CWait ==> (wait == Token ==> s.sem > 0) && (wait == Timeout ==> s.sem == 0))
        && (cp == CLock ==> s.owner == None)
        && (cp == CAdvance ==> s.queue != [])
  }

  function With(s: State, t: nat, th: Thread): State
    requires t < |s.threads|
  {
    s.(threads := s.threads[t := th])
  }

  function ProducerStep(s: State, t: nat, payload: int): State
    requires t < |s.threads| && s.threads[t].Producer?
  {
    var Producer(pp, jobs, job) := s.threads[t];
    match pp
    case PTest => With(s, t, Producer(if jobs > 0 then PAlloc else PDone, jobs - 1, job))
    case PAlloc => With(s, t, Producer(PLock, jobs, job))
    case PLock => s.(threads := s.threads[t := Producer(PLink, jobs, job)], owner := Some(t))
    case PLink => With(s, t, Producer(PIndex, jobs, job))
    case PIndex => s.(threads := s.threads[t := Producer(PPayload, jobs, job.(index := s.counter))], counter := s.counter + 1)
    case PPayload => With(s, t, Producer(PHead, jobs, job.(payload := payload)))
    case PHead => s.(threads := s.threads[t := Producer(PPost, jobs, job)], queue := [job] + s.queue, log := s.log + [Push(job)])
    case PPost => s.(threads := s.threads[t := Producer(PUnlock, jobs, job)], sem := s.sem + 1)
    case PUnlock => s.(threads := s.threads[t := Producer(PTest, jobs, job)], owner := None)
    case _ => s
  }

  function ConsumerStep(s: State, t: nat, wait: WaitResult): State
    requires t < |s.threads| && s.threads[t].Consumer?
    requires s.threads[t].cp == CWait && wait == Token ==> s.sem > 0
    requires s.threads[t].cp == CAdvance ==> s.queue != []
  {
    var Consumer(cp, held) := s.threads[t];
    match cp
    case CWait =>
      (match wait
       case Token => s.(threads := s.threads[t := Consumer(CLock, held)], sem := s.sem - 1)
       case Timeout => With(s, t, Consumer(CTimedOut, held))
       case OtherError => With(s, t, Consumer(CFailed, held)))
    case CLock => s.(threads := s.threads[t := Consumer(CTake, held)], owner := Some(t))
    case CTake => With(s, t, Consumer(CAdvance, if s.queue == [] then None else Some(s.queue[0])))
    case CAdvance =>
      s.(threads := s.threads[t := Consumer(CUnlock, held)], queue := s.queue[1..],
         log := s.log + (if held.Some? then [Pop(held.value)] else []))
    case CUnlock => s.(threads := s.threads[t := Consumer(CFree, held)], owner := None)
    case CFree =>
      s.(threads := s.threads[t := Consumer(CWait, None)], freed := s.freed + (if held.Some? then [held.value] else []))
    case _ => s
  }

  function MainStep(s: State): State
    requires Enabled(s, MainThread)
  {
    var s' := s.(main := s.main + 1);
    if s.main >= Total(s.cfg) then s'
    else match s.threads[s.main]
      case Producer(_, jobs, job) => With(s', s.main, Producer(PTest, jobs, job))
      case Consumer(_, held) => With(s', s.main, Consumer(CWait, held))
  }

  function Step(s: State, c: Choice): State
    requires Enabled(s, c)
  {
    match c
    case MainThread => MainStep(s)
    case Thread(t, payload, wait) =>
      if s.threads[t].Producer? then ProducerStep(s, t, payload) else ConsumerStep(s, t, wait)
  }

  predicate CanRun(s: State, schedule: seq<Choice>)
    decreases |schedule|
  {
    schedule == [] || (Enabled(s, schedule[0]) && CanRun(Step(s, schedule[0]), schedule[1..]))
  }

  function Exec(s: State, schedule: seq<Choice>): State
    requires CanRun(s, schedule)
    decreases |schedule|
  {
    if schedule == [] then s else Exec(Step(s, schedule[0]), schedule[1..])
  }

  predicate AllDone(s: State) { s.main == 2 * Total(s.cfg) && forall th | th in s.threads :: Finished(th) }

  // ---------------------------------------------------------------- invariants

  predicate Critical(th: Thread)
  {
    match th
    case Producer(pp, _, _) => (pp.PLink? || pp.PIndex? || pp.PPayload? || pp.PHead? || pp.PPost? || pp.PUnlock?)
    case Consumer(cp, _) => (cp.CTake? || cp.CAdvance? || cp.CUnlock?)
  }

  /** 1 for a consumer that has taken a token and not yet advanced the queue. */
  function Claim(th: Thread): int
  {
    if th.Consumer? && (th.cp.CLock? || th.cp.CTake? || th.cp.CAdvance?) then 1 else 0
  }

  /** 1 for a producer between its push and its post. */
  function Window(th: Thread): int
  {
    if th.Producer? && th.pp == PPost then 1 else 0
  }

  /** Indices a producer has still to draw from the counter. */
  function Remaining(th: Thread): int
  {
    match th
    case Consumer(_, _) => 0
    case Producer(pp, jobs, _) =>
      if pp == PDone then 0 else if (pp.PAlloc? || pp.PLock? || pp.PLink? || pp.PIndex?) then jobs + 1 else jobs
  }

  /** The job a thread alone can reach: indexed and not yet pushed, or popped and not yet freed. */
  function InHand(th: Thread): Option<Job>
  {
    match th
    case Producer(pp, _, job) => if pp == PPayload || pp == PHead then Some(job) else None
    case Consumer(cp, held) => if cp == CUnlock || cp == CFree then held else None
  }

  function IndexIs(i: int): Job -> int { (j: Job) => if j.index == i then 1 else 0 }

  function Holds(i: int): Thread -> int
  {
    (th: Thread) => if InHand(th).Some? && InHand(th).value.index == i then 1 else 0
  }

  function HoldsAny(th: Thread): int { if InHand(th).Some? then 1 else 0 }

  /** How often index `i` occurs among queued, held and freed jobs. */
  function Occurrences(s: State, i: int): int
  {
    Sum(s.queue, IndexIs(i)) + Sum(s.threads, Holds(i)) + Sum(s.freed, IndexIs(i))
  }

  function IsPopOf(j: Job): Event -> int { (e: Event) => if e == Pop(j) then 1 else 0 }

  function IsJob(j: Job): Job -> int { (x: Job) => if x == j then 1 else 0 }

  function ConsumerHas(j: Job): Thread -> int { (th: Thread) => if th.Consumer? && InHand(th) == Some(j) then 1 else 0 }

  /** The reference: an atomic stack replaying pushes and pops; None if a pop does not match the top. */
  function Replay(log: seq<Event>): Option<seq<Job>>
  {
    if log == [] then Some([])
    else
      match Replay(log[..|log| - 1])
      case None => None
      case Some(stack) =>
        match log[|log| - 1]
        case Push(j) => Some([j] + stack)
        case Pop(j) => if stack != [] && stack[0] == j then Some(stack[1..]) else None
  }

  ghost predicate LockInv(s: State)
  {
    && (s.owner.Some? ==> s.owner.value < |s.threads|)
    && forall t | 0 <= t < |s.threads| :: Critical(s.threads[t]) <==> s.owner == Some(t)
  }

  ghost predicate CountInv(s: State)
  {
    |s.queue| == s.sem + Sum(s.threads, Claim) + Sum(s.threads, Window)
  }

  ghost predicate HeldInv(s: State)
  {
    forall t | 0 <= t < |s.threads| && s.threads[t].Consumer? ::
      && (s.threads[t].cp == CAdvance ==> s.queue != [] && s.threads[t].held == Some(s.queue[0]))
      && ((s.threads[t].cp.CUnlock? || s.threads[t].cp.CFree?) ==> s.threads[t].held.Some?)
  }

  predicate Decreasing(queue: seq<Job>)
  {
    forall a, b | 0 <= a < b < |queue| :: queue[a].index > queue[b].index
  }

  predicate Below(queue: seq<Job>, bound: int)
  {
    forall k | 0 <= k < |queue| :: 0 <= queue[k].index < bound
  }

  ghost predicate OrderInv(s: State)
  {
    && s.counter >= 0
    && Decreasing(s.queue)
    && Below(s.queue, s.counter)
    && forall t | 0 <= t < |s.threads| && s.threads[t].Producer? && (s.threads[t].pp.PPayload? || s.threads[t].pp.PHead?) ::
         0 <= s.threads[t].job.index == s.counter - 1 && Below(s.queue, s.counter - 1)
  }

  ghost predicate OnceInv(s: State)
  {
    forall i :: Occurrences(s, i) == if 0 <= i < s.counter then 1 else 0
  }

  ghost predicate TallyInv(s: State)
  {
    |s.queue| + Sum(s.threads, HoldsAny) + |s.freed| == s.counter
  }

  ghost predicate BudgetInv(s: State)
  {
    && s.counter + Sum(s.threads, Remaining) == s.cfg.producers * s.cfg.jobs
    && forall t | 0 <= t < |s.threads| && s.threads[t].Producer? :: s.threads[t].pp != PDone ==> s.threads[t].jobs >= 0
  }

  ghost predicate MainInv(s: State)
  {
    && |s.threads| == Total(s.cfg)
    && s.main <= 2 * Total(s.cfg)
    && (forall t | 0 <= t < |s.threads| :: s.threads[t].Consumer? <==> t < s.cfg.consumers)
    && (forall t | 0 <= t < |s.threads| :: New(s.threads[t]) <==> s.main <= t)
    && (forall t | 0 <= t < |s.threads| :: WasJoined(s.cfg, s.main, t) ==> Finished(s.threads[t]))
  }

  ghost predicate StackInv(s: State) { Replay(s.log) == Some(s.queue) }

  /** What the consumers popped is what they have in hand or have freed, job for job. */
  ghost predicate PoppedInv(s: State)
  {
    forall j :: Sum(s.log, IsPopOf(j)) == Sum(s.threads, ConsumerHas(j)) + Sum(s.freed, IsJob(j))
  }

  ghost predicate Inv(s: State)
  {
    && LockInv(s) && CountInv(s) && HeldInv(s) && OrderInv(s) && OnceInv(s) && TallyInv(s) && BudgetInv(s) && MainInv(s)
    && StackInv(s) && PoppedInv(s)
  }

  // ---------------------------------------------------------------- every step keeps them

  lemma InitInv(cfg: Config)
    ensures Inv(Init(cfg))
  {
    InitSums(cfg);
    InitOnce(cfg);
    InitPopped(cfg);
    assert Inv(Init(cfg));
  }

  lemma InitOnce(cfg: Config)
    ensures OnceInv(Init(cfg))
  {
    var s := Init(cfg);
    forall i ensures Occurrences(s, i) == 0 {
      SumConstant(s.threads, Holds(i), 0);
    }
  }

  lemma InitPopped(cfg: Config)
    ensures PoppedInv(Init(cfg))
  {
    var s := Init(cfg);
    forall j ensures Sum(s.log, IsPopOf(j)) == Sum(s.threads, ConsumerHas(j)) + Sum(s.freed, IsJob(j)) {
      SumConstant(s.threads, ConsumerHas(j), 0);
    }
  }

  lemma InitSums(cfg: Config)
    ensures var ths := Init(cfg).threads;
      Sum(ths, Claim) == Sum(ths, Window) == Sum(ths, HoldsAny) == 0 && Sum(ths, Remaining) == cfg.producers * cfg.jobs
  {
    var cs := seq(cfg.consumers, _ => Consumer(CNew, None));
    var ps := seq(cfg.producers, _ => Producer(PNew, cfg.jobs, Job(0, 0)));
    SumConstant(cs + ps, Claim, 0);
    SumConstant(cs + ps, Window, 0);
    SumConstant(cs + ps, HoldsAny, 0);
    SumConcat(cs, ps, Remaining);
    SumConstant(cs, Remaining, 0);
    SumConstant(ps, Remaining, cfg.jobs);
  }

  /** A step replaces at most one thread. */
  lemma StepMovesOne(s: State, c: Choice)
    requires Enabled(s, c)
    ensures Step(s, c).cfg == s.cfg && |Step(s, c).threads| == |s.threads|
    ensures var t := if c.MainThread? then s.main else c.t;
      if t < |s.threads| then Step(s, c).threads == s.threads[t := Step(s, c).threads[t]] else Step(s, c).threads == s.threads
  {}

  /** How a step of thread `t` moves any sum over the threads. */
  lemma SumStep(s: State, c: Choice, f: Thread -> int)
    requires Enabled(s, c) && c.Thread?
    ensures |Step(s, c).threads| == |s.threads|
    ensures Sum(Step(s, c).threads, f) == Sum(s.threads, f) - f(s.threads[c.t]) + f(Step(s, c).threads[c.t])
  {
    StepMovesOne(s, c);
    SumUpdate(s.threads, c.t, Step(s, c).threads[c.t], f);
  }

  /** A live claim means a non-empty queue. */
  lemma ClaimMeansQueued(s: State, t: nat)
    requires CountInv(s) && t < |s.threads| && Claim(s.threads[t]) == 1
    ensures s.queue != []
  {
    SumAtLeast(s.threads, Claim);
    SumAtLeast(s.threads, Window);
  }

  lemma MainKeepsShape(s: State)
    requires LockInv(s) && HeldInv(s) && OrderInv(s) && MainInv(s) && Enabled(s, MainThread)
    ensures var s' := MainStep(s); LockInv(s') && HeldInv(s') && OrderInv(s')
  {
    if s.main < |s.threads| {
      assert New(s.threads[s.main]);
    }
  }

  lemma MainKeepsMain(s: State)
    requires MainInv(s) && Enabled(s, MainThread)
    ensures MainInv(MainStep(s))
  {
    var s' := MainStep(s);
    forall t | 0 <= t < |s.threads| && WasJoined(s.cfg, s'.main, t) ensures Finished(s'.threads[t]) {
      assert WasJoined(s.cfg, s.main, t) || t == Joined(s.cfg, s.main);
    }
  }

  /** A started thread counts as it did before, in any sum that treats new and started threads alike. */
  lemma StartKeepsSum(s: State, f: Thread -> int)
    requires MainInv(s) && Enabled(s, MainThread)
    requires s.main < |s.threads| ==> f(s.threads[s.main]) == f(MainStep(s).threads[s.main])
    ensures Sum(MainStep(s).threads, f) == Sum(s.threads, f)
  {
    if s.main < |s.threads| {
      SumUpdate(s.threads, s.main, MainStep(s).threads[s.main], f);
    }
  }

  lemma MainKeepsSums(s: State)
    requires CountInv(s) && TallyInv(s) && BudgetInv(s) && OnceInv(s) && MainInv(s) && Enabled(s, MainThread)
    ensures var s' := MainStep(s); CountInv(s') && TallyInv(s') && BudgetInv(s') && OnceInv(s')
  {
    var s' := MainStep(s);
    if s.main < |s.threads| {
      assert New(s.threads[s.main]);
    }
    StartKeepsSum(s, Claim);
    StartKeepsSum(s, Window);
    StartKeepsSum(s, HoldsAny);
    StartKeepsSum(s, Remaining);
    forall i ensures Occurrences(s', i) == Occurrences(s, i) {
      StartKeepsSum(s, Holds(i));
    }
  }

  /** No thread starts, restarts or changes its kind by itself. */
  lemma ThreadKeepsMain(s: State, c: Choice)
    requires MainInv(s) && c.Thread? && Enabled(s, c)
    ensures MainInv(Step(s, c))
  {
    StepMovesOne(s, c);
    var th, th' := s.threads[c.t], Step(s, c).threads[c.t];
    assert !New(th) && !New(th') && !Finished(th) && (th.Producer? <==> th'.Producer?);
  }

  lemma {:induction false} ReplayPush(log: seq<Event>, stack: seq<Job>, j: Job)
    requires Replay(log) == Some(stack)
    ensures Replay(log + [Push(j)]) == Some([j] + stack)
  {
    assert (log + [Push(j)])[..|log|] == log;
  }

  lemma {:induction false} ReplayPop(log: seq<Event>, rest: seq<Job>, j: Job)
    requires Replay(log) == Some([j] + rest)
    ensures Replay(log + [Pop(j)]) == Some(rest)
  {
    assert (log + [Pop(j)])[..|log|] == log && ([j] + rest)[1..] == rest;
  }

  /** Line 125, about to be executed. */
  predicate Publishes(s: State, c: Choice)
  {
    c.Thread? && c.t < |s.threads| && s.threads[c.t].Producer? && s.threads[c.t].pp == PHead
  }

  /** Line 75, about to be executed. */
  predicate Advances(s: State, c: Choice)
  {
    c.Thread? && c.t < |s.threads| && s.threads[c.t].Consumer? && s.threads[c.t].cp == CAdvance
  }

  /** Only line 125 logs a push, of the producer's job; only line 75 logs a pop, of the job taken at line 73. */
  lemma StackMoves(s: State, c: Choice)
    requires HeldInv(s) && Enabled(s, c)
    ensures var s' := Step(s, c);
      if Publishes(s, c) then
        s'.log == s.log + [Push(s.threads[c.t].job)] && s'.queue == [s.threads[c.t].job] + s.queue
      else if Advances(s, c) then
        s.threads[c.t].held.Some? && s'.log == s.log + [Pop(s.threads[c.t].held.value)]
        && s.queue == [s.threads[c.t].held.value] + s'.queue
      else s'.log == s.log && s'.queue == s.queue
  {
    assert Advances(s, c) ==> s.queue == [s.queue[0]] + s.queue[1..];
  }

  /**
   * The job a producer publishes at line 125 is a push of the atomic stack, and the job that a
   * consumer took at line 73 is a pop of it when line 75 advances the queue.
   */
  lemma StepKeepsStack(s: State, c: Choice)
    requires StackInv(s) && HeldInv(s) && Enabled(s, c)
    ensures StackInv(Step(s, c))
  {
    StackMoves(s, c);
    if Publishes(s, c) {
      ReplayPush(s.log, s.queue, s.threads[c.t].job);
    } else if Advances(s, c) {
      ReplayPop(s.log, Step(s, c).queue, s.threads[c.t].held.value);
    }
  }

  /** A pop puts its job into the popping consumer's hand, from where it goes to the freed ones. */
  lemma StepKeepsPopped(s: State, c: Choice)
    requires PoppedInv(s) && HeldInv(s) && MainInv(s) && Enabled(s, c)
    ensures PoppedInv(Step(s, c))
  {
    var s' := Step(s, c);
    forall j ensures Sum(s'.log, IsPopOf(j)) == Sum(s'.threads, ConsumerHas(j)) + Sum(s'.freed, IsJob(j)) {
      assert Sum(s.log, IsPopOf(j)) == Sum(s.threads, ConsumerHas(j)) + Sum(s.freed, IsJob(j));
      if c.MainThread? {
        StartKeepsSum(s, ConsumerHas(j));
      } else if s.threads[c.t].Producer? {
        ProducerPopsNothing(s, c, j);
      } else {
        ConsumerPops(s, c, j);
      }
    }
  }

  lemma ProducerPopsNothing(s: State, c: Choice, j: Job)
    requires c.Thread? && Enabled(s, c) && s.threads[c.t].Producer?
    ensures var s' := Step(s, c);
      && Sum(s'.log, IsPopOf(j)) == Sum(s.log, IsPopOf(j)) && Sum(s'.threads, ConsumerHas(j)) == Sum(s.threads, ConsumerHas(j))
      && s'.freed == s.freed
  {
    SumStep(s, c, ConsumerHas(j));
    SumConcat(s.log, [Push(s.threads[c.t].job)], IsPopOf(j));
  }

  lemma ConsumerPops(s: State, c: Choice, j: Job)
    requires HeldInv(s) && c.Thread? && Enabled(s, c) && s.threads[c.t].Consumer?
    ensures var s' := Step(s, c);
      Sum(s'.log, IsPopOf(j)) - Sum(s'.threads, ConsumerHas(j)) - Sum(s'.freed, IsJob(j))
      == Sum(s.log, IsPopOf(j)) - Sum(s.threads, ConsumerHas(j)) - Sum(s.freed, IsJob(j))
  {
    SumStep(s, c, ConsumerHas(j));
    match s.threads[c.t].cp {
      case CAdvance => SumConcat(s.log, [Pop(s.threads[c.t].held.value)], IsPopOf(j));
      case CFree => SumConcat(s.freed, [s.threads[c.t].held.value], IsJob(j));
      case CWait => case CLock => case CTake => case CUnlock =>
    }
  }

  lemma ProducerKeepsShape(s: State, c: Choice)
    requires LockInv(s) && HeldInv(s) && c.Thread? && Enabled(s, c) && s.threads[c.t].Producer?
    ensures var s' := Step(s, c); LockInv(s') && HeldInv(s')
  {}

  lemma ProducerKeepsOrder(s: State, c: Choice)
    requires OrderInv(s) && LockInv(s) && c.Thread? && Enabled(s, c) && s.threads[c.t].Producer?
    ensures OrderInv(Step(s, c))
  {
    match s.threads[c.t].pp {
      case PTest => case PAlloc => case PLock => case PLink => case PIndex => case PPayload =>
      case PHead => case PPost => case PUnlock =>
    }
  }

  lemma ProducerKeepsSums(s: State, c: Choice)
    requires CountInv(s) && TallyInv(s) && BudgetInv(s) && c.Thread? && Enabled(s, c) && s.threads[c.t].Producer?
    ensures var s' := Step(s, c); CountInv(s') && TallyInv(s') && BudgetInv(s')
  {
    SumStep(s, c, Claim);
    SumStep(s, c, Window);
    SumStep(s, c, HoldsAny);
    SumStep(s, c, Remaining);
    match s.threads[c.t].pp {
      case PTest => case PAlloc => case PLock => case PLink => case PIndex => case PPayload =>
      case PHead => case PPost => case PUnlock =>
    }
  }

  /** Only drawing an index from the counter makes a job; a push just moves it. */
  lemma ProducerKeepsOnce(s: State, c: Choice)
    requires OnceInv(s) && OrderInv(s) && c.Thread? && Enabled(s, c) && s.threads[c.t].Producer?
    ensures OnceInv(Step(s, c))
  {
    var s' := Step(s, c);
    forall i ensures Occurrences(s', i) == if 0 <= i < s'.counter then 1 else 0 {
      SumStep(s, c, Holds(i));
      assert Occurrences(s, i) == if 0 <= i < s.counter then 1 else 0;
      match s.threads[c.t].pp {
        case PTest => case PAlloc => case PLock => case PLink => case PIndex => case PPayload =>
        case PHead => assert s'.queue[1..] == s.queue;
        case PPost => case PUnlock =>
      }
    }
  }

  lemma ConsumerKeepsLock(s: State, c: Choice)
    requires LockInv(s) && c.Thread? && Enabled(s, c) && s.threads[c.t].Consumer?
    ensures LockInv(Step(s, c))
  {}

  lemma ConsumerKeepsHeld(s: State, c: Choice)
    requires LockInv(s) && HeldInv(s) && CountInv(s) && c.Thread? && Enabled(s, c) && s.threads[c.t].Consumer?
    ensures HeldInv(Step(s, c))
  {
    if s.threads[c.t].cp == CTake {
      ClaimMeansQueued(s, c.t);
    }
  }

  lemma ConsumerKeepsOrder(s: State, c: Choice)
    requires OrderInv(s) && LockInv(s) && c.Thread? && Enabled(s, c) && s.threads[c.t].Consumer?
    ensures OrderInv(Step(s, c))
  {
    var queue := Step(s, c).queue;
    assert queue == s.queue || (forall k | 0 <= k < |queue| :: queue[k] == s.queue[k + 1]);
  }

  lemma ConsumerKeepsSums(s: State, c: Choice)
    requires CountInv(s) && TallyInv(s) && BudgetInv(s) && HeldInv(s) && c.Thread? && Enabled(s, c) && s.threads[c.t].Consumer?
    ensures var s' := Step(s, c); CountInv(s') && TallyInv(s') && BudgetInv(s')
  {
    SumStep(s, c, Claim);
    SumStep(s, c, Window);
    SumStep(s, c, HoldsAny);
    SumStep(s, c, Remaining);
    match s.threads[c.t].cp {
      case CWait => case CLock => case CTake => case CAdvance => case CUnlock => case CFree =>
    }
  }

  lemma ConsumerKeepsOnce(s: State, c: Choice)
    requires OnceInv(s) && HeldInv(s) && c.Thread? && Enabled(s, c) && s.threads[c.t].Consumer?
    ensures OnceInv(Step(s, c))
  {
    var s' := Step(s, c);
    forall i ensures Occurrences(s', i) == if 0 <= i < s'.counter then 1 else 0 {
      SumStep(s, c, Holds(i));
      assert Occurrences(s, i) == if 0 <= i < s.counter then 1 else 0;
      match s.threads[c.t].cp {
        case CWait => case CLock => case CTake => case CAdvance => case CUnlock =>
        case CFree => SumConcat(s.freed, [s.threads[c.t].held.value], IndexIs(i));
      }
    }
  }

  lemma StepKeepsInv(s: State, c: Choice)
    requires Inv(s) && Enabled(s, c)
    ensures Inv(Step(s, c))
  {
    StepKeepsStack(s, c);
    StepKeepsPopped(s, c);
    if c.MainThread? {
      MainKeepsShape(s);
      MainKeepsMain(s);
      MainKeepsSums(s);
    } else if s.threads[c.t].Producer? {
      ThreadKeepsMain(s, c);
      ProducerKeepsShape(s, c);
      ProducerKeepsOrder(s, c);
      ProducerKeepsSums(s, c);
      ProducerKeepsOnce(s, c);
    } else {
      ThreadKeepsMain(s, c);
      ConsumerKeepsLock(s, c);
      ConsumerKeepsHeld(s, c);
      ConsumerKeepsOrder(s, c);
      ConsumerKeepsSums(s, c);
      ConsumerKeepsOnce(s, c);
    }
  }
}
