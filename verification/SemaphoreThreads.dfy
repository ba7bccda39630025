/**
 * The threads of ch04/semaphore-jobs.c over heap-allocated jobs: one method per
 * statement, each a step of the machine in SemaphoreJobs. That machine's invariant
 * is what makes the dereferences in lines 75-84 safe.
 */
module SemaphoreThreads {
  import opened Options
  import opened Nodes
  import opened SemaphoreJobs
  import opened SemaphoreRuns

  /** A thread's own variables: program counter, `jobs`, and its job pointer. */
  datatype Local =
    | LProducer(pp: ProducerPc, jobs: int, newJob: Node?<Job>)
    | LConsumer(cp: ConsumerPc, thisJob: Node?<Job>)

  class JobSystem {
    const cfg: Config
    var jobQueue: Node?<Job>
    var jobCounter: int
    var jobCount: nat // the semaphore
    var lockOwner: Option<nat>
    var locals: seq<Local>
    var mainDone: nat
    ghost var abs: State
    ghost var nodes: seq<Node<Job>> // the list from jobQueue
    ghost var holder: map<Node<Job>, Option<nat>> // the live nodes: None for queued, Some(t) for thread t's

    ghost predicate Holding(t: nat, n: Node?<Job>)
      reads this
    {
      n != null && n in holder && holder[n] == Some(t)
    }

    ghost predicate Matches(t: nat)
      requires t < |locals| && t < |abs.threads|
      reads this, holder.Keys
    {
      match locals[t]
      case LProducer(pp, jobs, n) =>
        && abs.threads[t].Producer? && pp == abs.threads[t].pp && jobs == abs.threads[t].jobs
        && (pp.PLock? || pp.PLink? || pp.PIndex? || pp.PPayload? || pp.PHead? ==> Holding(t, n))
        && (pp.PIndex? || pp.PPayload? || pp.PHead? ==> n.next == jobQueue)
        && (pp.PPayload? || pp.PHead? ==> n.data.index == abs.threads[t].job.index)
        && (pp.PHead? ==> n.data == abs.threads[t].job)
      case LConsumer(cp, n) =>
        && abs.threads[t].Consumer? && cp == abs.threads[t].cp
        && (cp.CAdvance? ==> n == jobQueue)
        && (cp.CUnlock? || cp.CFree? ==> Holding(t, n) && abs.threads[t].held == Some(n.data))
    }

    ghost predicate QueueMatches()
      reads this, holder.Keys
    {
      && (forall k | 0 <= k < |nodes| :: nodes[k] in holder && holder[nodes[k]] == None)
      && Chain(jobQueue, nodes, null) && Distinct(nodes)
      && |nodes| == |abs.queue| && forall k | 0 <= k < |nodes| :: nodes[k].data == abs.queue[k]
    }

    ghost predicate Valid()
      reads this, holder.Keys
    {
      && cfg == abs.cfg && jobCounter == abs.counter && jobCount == abs.sem && lockOwner == abs.owner && mainDone == abs.main
      && QueueMatches()
      && |locals| == |abs.threads| && forall t | 0 <= t < |locals| :: Matches(t)
    }

    /** Thread `t` is a producer about to execute statement `pp`. */
    ghost predicate ProducerAt(t: nat, pp: ProducerPc)
      reads this, holder.Keys
    {
      Valid() && t < |locals| && Matches(t) && locals[t].LProducer? && locals[t].pp == pp
    }

    ghost predicate ConsumerAt(t: nat, cp: ConsumerPc)
      reads this, holder.Keys
    {
      Valid() && t < |locals| && Matches(t) && locals[t].LConsumer? && locals[t].cp == cp
    }

    constructor (cfg: Config)
      ensures Valid() && abs == Init(cfg) && IsReachable(abs) && holder == map[]
    {
      this.cfg := cfg;
      jobQueue, jobCounter, jobCount, lockOwner, mainDone := null, 0, 0, None, 0;
      locals := seq(cfg.consumers, _ => LConsumer(CNew, null)) + seq(cfg.producers, _ => LProducer(PNew, cfg.jobs, null));
      abs := Init(cfg);
      nodes, holder := [], map[];
      InitIsReachable(cfg);
    }

    /** The threads other than `t` still match when their variables and nodes are untouched. */
    twostate lemma OthersMatch(t: nat)
      requires |locals| == |abs.threads| == old(|locals|) == old(|abs.threads|)
      requires forall u | 0 <= u < |locals| && u != t :: locals[u] == old(locals)[u] && abs.threads[u] == old(abs).threads[u]
      requires forall u | 0 <= u < |locals| :: old(Matches(u))
      requires forall n | n in old(holder) && old(holder)[n].Some? && old(holder)[n] != Some(t) ::
                 n in holder && holder[n] == old(holder)[n] && unchanged(n)
      requires jobQueue == old(jobQueue) || forall u | 0 <= u < |locals| && u != t :: !Critical(abs.threads[u])
      ensures forall u | 0 <= u < |locals| && u != t :: Matches(u)
    {
      forall u | 0 <= u < |locals| && u != t ensures Matches(u) {
        assert old(Matches(u));
      }
    }

    /** Linking one more live node in front keeps the list and its contents in step. */
    twostate lemma PushMatches(n: Node<Job>)
      requires old(QueueMatches()) && old(n in holder && holder[n].Some? && n.next == jobQueue)
      requires jobQueue == n && nodes == [n] + old(nodes) && holder == old(holder)[n := None]
      requires forall m | m in old(holder) :: unchanged(m)
      requires abs.queue == [n.data] + old(abs).queue
      ensures QueueMatches()
    {
      assert n !in old(nodes);
      assert forall k | 0 <= k < |old(nodes)| :: old(nodes)[k] in old(holder);
      ChainPush(n, old(nodes), null);
      assert forall k | 1 <= k < |nodes| :: nodes[k] == old(nodes)[k - 1];
    }

    /** Unlinking the first node likewise. */
    twostate lemma PopMatches(t: nat)
      requires old(QueueMatches()) && |old(nodes)| > 0
      requires jobQueue == old(nodes)[0].next && nodes == old(nodes)[1..] && holder == old(holder)[old(nodes)[0] := Some(t)]
      requires forall m | m in old(holder) :: unchanged(m)
      requires abs.queue == old(abs).queue[1..]
      ensures QueueMatches()
    {
      assert forall k | 0 <= k < |old(nodes)| :: old(nodes)[k] in old(holder);
      ChainPop(old(jobQueue), old(nodes), null);
      assert forall k | 0 <= k < |nodes| :: nodes[k] == old(nodes)[k + 1];
    }

    // ---------------------------------------------------------------- producer

    /** Line 111: while (jobs-- > 0) */
    method TestJobs(t: nat)
      requires ProducerAt(t, PTest)
      modifies this
      ensures Valid() && abs == ProducerStep(old(abs), t, 0) && holder == old(holder)
    {
      assert Matches(t);
      var jobs := locals[t].jobs;
      locals := locals[t := LProducer(if jobs > 0 then PAlloc else PDone, jobs - 1, locals[t].newJob)];
      abs := ProducerStep(abs, t, 0);
      OthersMatch(t);
      assert Matches(t);
    }

    /** Line 113: new_job = malloc(...), whose contents are whatever `junk` holds */
    method Allocate(t: nat, junk: Job)
      requires ProducerAt(t, PAlloc)
      modifies this
      ensures Valid() && abs == ProducerStep(old(abs), t, 0) && fresh(holder.Keys - old(holder.Keys))
    {
      assert Matches(t);
      var newJob := new Node(null, junk);
      locals := locals[t := LProducer(PLock, locals[t].jobs, newJob)];
      holder := holder[newJob := Some(t)];
      abs := ProducerStep(abs, t, 0);
      OthersMatch(t);
      assert Matches(t);
    }

    /** Line 116: pthread_mutex_lock(&lock_job) */
    method ProducerLock(t: nat)
      requires ProducerAt(t, PLock) && lockOwner == None
      modifies this
      ensures Valid() && abs == ProducerStep(old(abs), t, 0) && holder == old(holder)
    {
      assert Matches(t);
      lockOwner := Some(t);
      locals := locals[t := locals[t].(pp := PLink)];
      abs := ProducerStep(abs, t, 0);
      OthersMatch(t);
      assert Matches(t);
    }

    /** Line 119: new_job->next = job_queue */
    method Link(t: nat)
      requires ProducerAt(t, PLink)
      modifies this, holder.Keys
      ensures Valid() && abs == ProducerStep(old(abs), t, 0) && holder == old(holder)
    {
      assert Matches(t);
      var newJob := locals[t].newJob;
      newJob.next := jobQueue;
      locals := locals[t := locals[t].(pp := PIndex)];
      abs := ProducerStep(abs, t, 0);
      OthersMatch(t);
      assert Matches(t);
    }

    /** Line 121: new_job->index = job_counter++ */
    method AssignIndex(t: nat)
      requires ProducerAt(t, PIndex)
      modifies this, holder.Keys
      ensures Valid() && abs == ProducerStep(old(abs), t, 0) && holder == old(holder)
    {
      assert Matches(t);
      var newJob := locals[t].newJob;
      newJob.data := newJob.data.(index := jobCounter);
      jobCounter := jobCounter + 1;
      locals := locals[t := locals[t].(pp := PPayload)];
      abs := ProducerStep(abs, t, 0);
      OthersMatch(t);
      assert Matches(t);
    }

    /** Line 123: new_job->payload = rand() */
    method AssignPayload(t: nat, payload: int)
      requires ProducerAt(t, PPayload)
      modifies this, holder.Keys
      ensures Valid() && abs == ProducerStep(old(abs), t, payload) && holder == old(holder)
    {
      assert Matches(t);
      var newJob := locals[t].newJob;
      newJob.data := newJob.data.(payload := payload);
      locals := locals[t := locals[t].(pp := PHead)];
      abs := ProducerStep(abs, t, payload);
      OthersMatch(t);
      assert Matches(t);
    }

    /** Line 125: job_queue = new_job */
    method Publish(t: nat)
      requires ProducerAt(t, PHead) && IsReachable(abs)
      modifies this
      ensures Valid() && abs == ProducerStep(old(abs), t, 0) && holder.Keys == old(holder.Keys)
    {
      assert Matches(t);
      ReachableAlone(abs, t);
      var newJob := locals[t].newJob;
      jobQueue := newJob;
      locals := locals[t := locals[t].(pp := PPost)];
      nodes := [newJob] + nodes;
      holder := holder[newJob := None];
      abs := ProducerStep(abs, t, 0);
      assert abs.queue == [newJob.data] + old(abs).queue;
      PushMatches(newJob);
      OthersMatch(t);
      assert Matches(t);
    }

    /** Line 127: sem_post(&job_q_count) */
    method Post(t: nat)
      requires ProducerAt(t, PPost)
      modifies this
      ensures Valid() && abs == ProducerStep(old(abs), t, 0) && holder == old(holder)
    {
      assert Matches(t);
      jobCount := jobCount + 1;
      locals := locals[t := locals[t].(pp := PUnlock)];
      abs := ProducerStep(abs, t, 0);
      OthersMatch(t);
      assert Matches(t);
    }

    /** Line 130: pthread_mutex_unlock(&lock_job) */
    method ProducerUnlock(t: nat)
      requires ProducerAt(t, PUnlock)
      modifies this
      ensures Valid() && abs == ProducerStep(old(abs), t, 0) && holder == old(holder)
    {
      assert Matches(t);
      lockOwner := None;
      locals := locals[t := locals[t].(pp := PTest)];
      abs := ProducerStep(abs, t, 0);
      OthersMatch(t);
      assert Matches(t);
    }

    // ---------------------------------------------------------------- consumer

    /** Lines 48-64: sem_timedwait(&job_q_count, &ts) and its two error exits */
    method TimedWait(t: nat, wait: WaitResult)
      requires ConsumerAt(t, CWait)
      requires (wait == Token ==> jobCount > 0) && (wait == Timeout ==> jobCount == 0)
      modifies this
      ensures Valid() && abs == ConsumerStep(old(abs), t, wait) && holder == old(holder)
    {
      assert Matches(t);
      var next := match wait case Token => CLock case Timeout => CTimedOut case OtherError => CFailed;
      if wait == Token {
        jobCount := jobCount - 1;
      }
      locals := locals[t := LConsumer(next, locals[t].thisJob)];
      abs := ConsumerStep(abs, t, wait);
      OthersMatch(t);
      assert Matches(t);
    }

    /** Line 71: pthread_mutex_lock(&lock_job) */
    method ConsumerLock(t: nat)
      requires ConsumerAt(t, CLock) && lockOwner == None
      modifies this
      ensures Valid() && abs == ConsumerStep(old(abs), t, Token) && holder == old(holder)
    {
      assert Matches(t);
      lockOwner := Some(t);
      locals := locals[t := locals[t].(cp := CTake)];
      abs := ConsumerStep(abs, t, Token);
      OthersMatch(t);
      assert Matches(t);
    }

    /** Line 73: this_job = job_queue */
    method TakeHead(t: nat)
      requires ConsumerAt(t, CTake)
      modifies this
      ensures Valid() && abs == ConsumerStep(old(abs), t, Token) && holder == old(holder)
    {
      assert Matches(t);
      locals := locals[t := LConsumer(CAdvance, jobQueue)];
      abs := ConsumerStep(abs, t, Token);
      OthersMatch(t);
      assert Matches(t);
    }

    /** Line 75: job_queue = job_queue->next. Nothing is required of job_queue: Valid() makes it non-null. */
    method Advance(t: nat)
      requires ConsumerAt(t, CAdvance) && IsReachable(abs)
      modifies this
      ensures old(abs).queue != [] && Valid() && abs == ConsumerStep(old(abs), t, Token) && holder.Keys == old(holder.Keys)
    {
      assert Matches(t);
      ReachableHead(abs, t);
      assert Matches(t);
      ReachableAlone(abs, t);
      ghost var head := nodes[0];
      jobQueue := jobQueue.next;
      locals := locals[t := locals[t].(cp := CUnlock)];
      nodes := nodes[1..];
      holder := holder[head := Some(t)];
      abs := ConsumerStep(abs, t, Token);
      PopMatches(t);
      OthersMatch(t);
      assert Matches(t);
    }

    /** Line 77: pthread_mutex_unlock(&lock_job) */
    method ConsumerUnlock(t: nat)
      requires ConsumerAt(t, CUnlock)
      modifies this
      ensures Valid() && abs == ConsumerStep(old(abs), t, Token) && holder == old(holder)
    {
      assert Matches(t);
      lockOwner := None;
      locals := locals[t := locals[t].(cp := CFree)];
      abs := ConsumerStep(abs, t, Token);
      OthersMatch(t);
      assert Matches(t);
    }

    /** Lines 80-84: the job is read and freed; the node is live and nobody else's until then. */
    method Free(t: nat) returns (job: Job)
      requires ConsumerAt(t, CFree)
      modifies this
      ensures Valid() && abs == ConsumerStep(old(abs), t, Token)
      ensures old(locals[t].thisJob) in old(holder) && holder == old(holder) - {old(locals[t].thisJob)}
      ensures abs.freed == old(abs.freed) + [job] && ConsumerAt(t, CWait)
    {
      assert Matches(t);
      var thisJob := locals[t].thisJob;
      job := thisJob.data;
      locals := locals[t := LConsumer(CWait, null)];
      holder := holder - {thisJob};
      abs := ConsumerStep(abs, t, Token);
      assert QueueMatches();
      OthersMatch(t);
      assert Matches(t);
    }

    // ---------------------------------------------------------------- scheduling

    /** Lines 167-175: pthread_create of the next thread */
    method CreateThread()
      requires Valid() && Enabled(abs, MainThread) && mainDone < Total(cfg)
      modifies this
      ensures Valid() && abs == Step(old(abs), MainThread) && holder == old(holder)
    {
      var t := mainDone;
      assert Matches(t);
      match locals[t] {
        case LProducer(_, jobs, n) => locals := locals[t := LProducer(PTest, jobs, n)];
        case LConsumer(_, n) => locals := locals[t := LConsumer(CWait, n)];
      }
      mainDone := mainDone + 1;
      abs := Step(abs, MainThread);
      assert QueueMatches();
      OthersMatch(t);
      assert Matches(t);
    }

    /** Lines 178-183: pthread_join of the next thread, which has finished */
    method JoinThread()
      requires Valid() && Enabled(abs, MainThread) && mainDone >= Total(cfg)
      modifies this
      ensures Valid() && abs == Step(old(abs), MainThread) && holder == old(holder)
    {
      mainDone := mainDone + 1;
      abs := Step(abs, MainThread);
      OthersMatch(|locals|);
    }

    method ProducerAct(t: nat, payload: int, wait: WaitResult)
      requires Valid() && IsReachable(abs) && Enabled(abs, Thread(t, payload, wait)) && locals[t].LProducer?
      modifies this, holder.Keys
      ensures Valid() && abs == Step(old(abs), Thread(t, payload, wait)) && fresh(holder.Keys - old(holder.Keys))
    {
      assert Matches(t);
      match locals[t].pp {
        case PTest => TestJobs(t);
        case PAlloc =>
          var junk: Job := *;
          Allocate(t, junk);
        case PLock => ProducerLock(t);
        case PLink => Link(t);
        case PIndex => AssignIndex(t);
        case PPayload => AssignPayload(t, payload);
        case PHead => Publish(t);
        case PPost => Post(t);
        case PUnlock => ProducerUnlock(t);
      }
    }

    method ConsumerAct(t: nat, payload: int, wait: WaitResult)
      requires Valid() && IsReachable(abs) && Enabled(abs, Thread(t, payload, wait)) && locals[t].LConsumer?
      modifies this
      ensures Valid() && abs == Step(old(abs), Thread(t, payload, wait)) && holder.Keys <= old(holder.Keys)
    {
      assert Matches(t);
      match locals[t].cp {
        case CWait => TimedWait(t, wait);
        case CLock => ConsumerLock(t);
        case CTake => TakeHead(t);
        case CAdvance => Advance(t);
        case CUnlock => ConsumerUnlock(t);
        case CFree => var job := Free(t);
      }
    }

    /** Any schedule of any length runs on the heap as it does in the machine. */
    method Run(schedule: seq<Choice>)
      requires Valid() && IsReachable(abs) && CanRun(abs, schedule)
      modifies this, holder.Keys
      ensures Valid() && IsReachable(abs) && abs == Exec(old(abs), schedule)
    {
      var rest := schedule;
      while rest != []
        invariant Valid() && IsReachable(abs) && CanRun(abs, rest) && Exec(abs, rest) == Exec(old(abs), schedule)
        invariant fresh(holder.Keys - old(holder.Keys))
        decreases |rest|
      {
        StepIsReachable(abs, rest[0]);
        match rest[0] {
          case MainThread =>
            if mainDone < Total(cfg) {
              CreateThread();
            } else {
              JoinThread();
            }
          case Thread(t, payload, wait) =>
            if locals[t].LProducer? {
              ProducerAct(t, payload, wait);
            } else {
              ConsumerAct(t, payload, wait);
            }
        }
        rest := rest[1..];
      }
    }
  }

  /**
   * The whole program, for a complete schedule: what stays on the heap is a well-formed list of
   * exactly as many jobs as the semaphore still counts, and the mutex is free.
   */
  method RunJobs(cfg: Config, schedule: seq<Choice>) returns (system: JobSystem)
    requires CanRun(Init(cfg), schedule) && AllDone(Exec(Init(cfg), schedule))
    ensures fresh(system) && system.Valid() && system.abs == Exec(Init(cfg), schedule)
    ensures Chain(system.jobQueue, system.nodes, null) && Distinct(system.nodes)
    ensures |system.nodes| == system.jobCount && system.jobCounter == cfg.producers * cfg.jobs
    ensures system.jobQueue == null <==> system.jobCount == 0
    ensures system.lockOwner == None
  {
    Ending(cfg, schedule);
    EndIsUnlocked(cfg, schedule);
    system := new JobSystem(cfg);
    system.Run(schedule);
  }

  lemma {:induction false} EndIsUnlocked(cfg: Config, schedule: seq<Choice>)
    requires CanRun(Init(cfg), schedule) && AllDone(Exec(Init(cfg), schedule))
    ensures Exec(Init(cfg), schedule).owner == None
  {
    Reachable(cfg, schedule);
    var s := Exec(Init(cfg), schedule);
    forall t | 0 <= t < |s.threads| ensures !Critical(s.threads[t]) {
      assert s.threads[t] in s.threads;
    }
  }
}
