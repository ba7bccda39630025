/**
 * The heap side of ch04/job-queue.c: init_jobs building the list, and the
 * workers' statements over real nodes and the accumulator array, each a step of
 * the machine in JobQueue.
 */
module JobThreads {
  import opened Options
  import opened Sums
  import opened Nodes
  import opened JobQueue

  /**
   * Lines 58-73. malloc leaves `garbage` in every `next` field, and the last one is never
   * stored to, so the list ends in NULL exactly when that garbage is NULL.
   */
  method InitJobs(numJobs: int, garbage: Node?<int>) returns (head: Node<int>, ghost nodes: seq<Node<int>>)
    ensures |nodes| == (if numJobs >= 1 then numJobs else 1) && Chain(head, nodes, garbage) && Distinct(nodes)
    ensures forall k | 0 <= k < |nodes| :: nodes[k].data == k && fresh(nodes[k])
    ensures Chain(head, nodes, null) <==> garbage == null
  {
    var current := new Node(garbage, 0);
    head := current;
    nodes := [current];
    var i := 1;
    while i < numJobs
      invariant 1 <= i == |nodes| && (numJobs >= 1 ==> i <= numJobs) && (numJobs < 1 ==> i == 1)
      invariant Chain(head, nodes, garbage) && Distinct(nodes) && current == nodes[i - 1]
      invariant forall k | 0 <= k < i :: nodes[k].data == k && fresh(nodes[k])
    {
      var newJob := new Node(garbage, 0);
      label stored:
      current.next := newJob;
      current := current.next;
      current.data := i;
      assert Chain(head, nodes, newJob) by {
        forall k | 0 <= k < |nodes| ensures nodes[k].next == After(nodes, k, newJob) {
          assert k < i - 1 ==> old@stored(nodes[k].next == After(nodes, k, garbage));
        }
      }
      ChainAppend(head, nodes, newJob);
      nodes := nodes + [newJob];
      i := i + 1;
    }
    ChainEnd(head, nodes, garbage, null);
  }

  /** A worker's own variables: program counter and its job pointer. */
  datatype Local = Local(pc: WorkerPc, nextJob: Node?<int>)

  /** Every node of the list is queued, and no other is live. */
  ghost function AllQueued(nodes: seq<Node<int>>): (holder: map<Node<int>, Option<nat>>)
    ensures forall k | 0 <= k < |nodes| :: nodes[k] in holder && holder[nodes[k]] == None
  {
    map n | n in nodes :: None
  }

  class WorkPool {
    var jobQueue: Node?<int>
    var lockOwner: Option<nat>
    var locals: seq<Local>
    var mainDone: nat
    const accum: array<int>
    ghost var abs: State
    ghost var jobs: seq<int>
    ghost var nodes: seq<Node<int>> // the list from jobQueue
    ghost var holder: map<Node<int>, Option<nat>> // the live nodes: None for queued, Some(t) for worker t's

    ghost predicate Matches(t: nat)
      requires t < |locals| && t < |abs.workers|
      reads this, holder.Keys
    {
      var Local(pc, n) := locals[t];
      && pc == abs.workers[t].pc
      && (pc.WAdvance? ==> n == jobQueue)
      && (pc.WUnlock? || pc.WCheck? || pc.WProcess? || pc.WFree? ==>
            if n == null then abs.workers[t].next == None
            else n in holder && holder[n] == Some(t) && abs.workers[t].next == Some(n.data))
    }

    ghost predicate QueueMatches()
      reads this, holder.Keys
    {
      && (forall k | 0 <= k < |nodes| :: nodes[k] in holder && holder[nodes[k]] == None)
      && Chain(jobQueue, nodes, null) && Distinct(nodes)
      && |nodes| == |abs.queue| && forall k | 0 <= k < |nodes| :: nodes[k].data == abs.queue[k]
    }

    ghost predicate Valid()
      reads this, accum, holder.Keys
    {
      && lockOwner == abs.owner && mainDone == abs.main && accum[..] == abs.accum
      && QueueMatches()
      && |locals| == |abs.workers| && forall t | 0 <= t < |locals| :: Matches(t)
    }

    constructor (accum: array<int>, head: Node?<int>, ghost nodes: seq<Node<int>>, ghost jobs: seq<int>)
      requires Chain(head, nodes, null) && Distinct(nodes)
      requires |jobs| == |nodes| && forall k | 0 <= k < |nodes| :: nodes[k].data == jobs[k]
      requires forall t | 0 <= t < accum.Length :: accum[t] == 0
      ensures Valid() && abs == Init(accum.Length, jobs) && this.jobs == jobs && this.accum == accum
    {
      jobQueue, lockOwner, mainDone := head, None, 0;
      locals := seq(accum.Length, _ => Local(WNew, null));
      this.accum := accum;
      this.nodes, this.jobs := nodes, jobs;
      holder := AllQueued(nodes);
      abs := Init(accum.Length, jobs);
      new;
      StartIsValid();
    }

    lemma ListMatches()
      requires Chain(jobQueue, nodes, null) && Distinct(nodes) && holder == AllQueued(nodes) && abs.queue == jobs
      requires |jobs| == |nodes| && forall k | 0 <= k < |nodes| :: nodes[k].data == jobs[k]
      ensures QueueMatches()
    {}

    lemma StartIsValid()
      requires Chain(jobQueue, nodes, null) && Distinct(nodes) && holder == AllQueued(nodes)
      requires |jobs| == |nodes| && forall k | 0 <= k < |nodes| :: nodes[k].data == jobs[k]
      requires lockOwner == None && mainDone == 0 && abs == Init(accum.Length, jobs)
      requires |locals| == accum.Length && forall t | 0 <= t < |locals| :: locals[t].pc == WNew
      requires forall t | 0 <= t < accum.Length :: accum[t] == 0
      ensures Valid()
    {
      assert accum[..] == abs.accum;
      ListMatches();
    }

    /** The workers other than `t` still match when their variables and nodes are untouched. */
    twostate lemma OthersMatch(t: nat)
      requires |locals| == |abs.workers| == old(|locals|) == old(|abs.workers|)
      requires forall u | 0 <= u < |locals| && u != t :: locals[u] == old(locals)[u] && abs.workers[u] == old(abs).workers[u]
      requires forall u | 0 <= u < |locals| :: old(Matches(u))
      requires forall n | n in old(holder) && old(holder)[n].Some? && old(holder)[n] != Some(t) ::
                 n in holder && holder[n] == old(holder)[n] && unchanged(n)
      requires jobQueue == old(jobQueue) || forall u | 0 <= u < |locals| && u != t :: !Critical(abs.workers[u])
      ensures forall u | 0 <= u < |locals| && u != t :: Matches(u)
    {
      forall u | 0 <= u < |locals| && u != t ensures Matches(u) {
        assert old(Matches(u));
      }
    }

    /** The list still matches when nothing of it is touched. */
    twostate lemma QueueStays()
      requires old(QueueMatches()) && jobQueue == old(jobQueue) && nodes == old(nodes) && holder == old(holder)
      requires forall n | n in old(holder) :: unchanged(n)
      requires abs.queue == old(abs).queue
      ensures QueueMatches()
    {
      assert forall k | 0 <= k < |nodes| :: nodes[k] in old(holder);
    }

    /** Unlinking the first node keeps the list and its contents in step. */
    twostate lemma PopMatches(t: nat)
      requires old(QueueMatches()) && |old(nodes)| > 0
      requires jobQueue == old(nodes)[0].next && nodes == old(nodes)[1..] && holder == old(holder)[old(nodes)[0] := Some(t)]
      requires forall m | m in old(holder) :: unchanged(m)
      requires abs.queue == old(abs).queue[1..]
      ensures QueueMatches()
    {
      assert forall k | 0 <= k < |old(nodes)| :: old(nodes)[k] in old(holder);
      ChainPop(old(jobQueue), old(nodes), null);
      assert forall k | 0 <= k < |nodes| :: nodes[k] == old(nodes)[k + 1];
    }

    /** Worker `t` is about to execute statement `pc`, and can. */
    ghost predicate At(t: nat, pc: WorkerPc)
      reads this, accum, holder.Keys
    {
      Valid() && Enabled(abs, Thread(t)) && t < |locals| && locals[t].pc == pc
    }

    /** Lines 37 and 38: take the lock, then look whether the queue is empty */
    method LockQueue(t: nat)
      requires At(t, WLock)
      modifies this
      ensures Valid() && abs == Step(old(abs), Thread(t)) && holder == old(holder) && jobs == old(jobs)
    {
      assert Matches(t);
      lockOwner := Some(t);
      locals := locals[t := Local(WTest, locals[t].nextJob)];
      abs := Step(abs, Thread(t));
      OthersMatch(t);
      assert Matches(t);
    }

    method TestQueue(t: nat)
      requires At(t, WTest)
      modifies this
      ensures Valid() && abs == Step(old(abs), Thread(t)) && holder == old(holder) && jobs == old(jobs)
    {
      assert Matches(t);
      locals := locals[t := Local(if jobQueue == null then WClear else WTake, locals[t].nextJob)];
      abs := Step(abs, Thread(t));
      OthersMatch(t);
      assert Matches(t);
    }

    /** Line 39: next_job = NULL */
    method ClearNext(t: nat)
      requires At(t, WClear)
      modifies this
      ensures Valid() && abs == Step(old(abs), Thread(t)) && holder == old(holder) && jobs == old(jobs)
    {
      assert Matches(t);
      locals := locals[t := Local(WUnlock, null)];
      abs := Step(abs, Thread(t));
      OthersMatch(t);
      assert Matches(t);
    }

    /** Line 41: next_job = job_queue */
    method TakeHead(t: nat)
      requires At(t, WTake)
      modifies this
      ensures Valid() && abs == Step(old(abs), Thread(t)) && holder == old(holder) && jobs == old(jobs)
    {
      assert Matches(t);
      locals := locals[t := Local(WAdvance, jobQueue)];
      abs := Step(abs, Thread(t));
      OthersMatch(t);
      assert Matches(t);
    }

    /** Line 42: job_queue = job_queue->next, by the lock's owner */
    method Advance(t: nat)
      requires At(t, WAdvance) && LockInv(abs) && PlaceInv(abs)
      modifies this
      ensures Valid() && abs == Step(old(abs), Thread(t)) && holder.Keys == old(holder.Keys) && jobs == old(jobs)
    {
      assert Matches(t);
      assert abs.owner == Some(t);
      ghost var head := nodes[0];
      jobQueue := jobQueue.next;
      locals := locals[t := locals[t].(pc := WUnlock)];
      nodes := nodes[1..];
      holder := holder[head := Some(t)];
      abs := Step(abs, Thread(t));
      PopMatches(t);
      OthersMatch(t);
      assert Matches(t);
    }

    /** Line 44 */
    method UnlockQueue(t: nat)
      requires At(t, WUnlock)
      modifies this
      ensures Valid() && abs == Step(old(abs), Thread(t)) && holder == old(holder) && jobs == old(jobs)
    {
      assert Matches(t);
      lockOwner := None;
      locals := locals[t := locals[t].(pc := WCheck)];
      abs := Step(abs, Thread(t));
      OthersMatch(t);
      assert Matches(t);
    }

    /** Line 45: if (!next_job) break */
    method CheckNext(t: nat)
      requires At(t, WCheck)
      modifies this
      ensures Valid() && abs == Step(old(abs), Thread(t)) && holder == old(holder) && jobs == old(jobs)
    {
      assert Matches(t);
      locals := locals[t := locals[t].(pc := if locals[t].nextJob == null then WDone else WProcess)];
      abs := Step(abs, Thread(t));
      OthersMatch(t);
      assert Matches(t);
    }

    /** Line 47, process_job: accum[tid] += current_job->factor */
    method ProcessJob(t: nat)
      requires At(t, WProcess)
      modifies this, accum
      ensures Valid() && abs == Step(old(abs), Thread(t)) && holder == old(holder) && jobs == old(jobs)
    {
      assert Matches(t);
      accum[t] := accum[t] + locals[t].nextJob.data;
      locals := locals[t := locals[t].(pc := WFree)];
      abs := Step(abs, Thread(t));
      QueueStays();
      OthersMatch(t);
      assert Matches(t);
    }

    /** Line 49: the node freed is live and this worker's alone. */
    method FreeNext(t: nat)
      requires At(t, WFree) && PlaceInv(abs)
      modifies this
      ensures Valid() && abs == Step(old(abs), Thread(t)) && jobs == old(jobs)
      ensures old(locals[t].nextJob) in old(holder) && holder == old(holder) - {old(locals[t].nextJob)}
    {
      assert Matches(t);
      holder := holder - {locals[t].nextJob};
      locals := locals[t := Local(WLock, null)];
      abs := Step(abs, Thread(t));
      OthersMatch(t);
      assert Matches(t);
    }

    /** Lines 95-100: create the next worker, or join the next one */
    method MainAct()
      requires Valid() && Enabled(abs, MainThread)
      modifies this
      ensures Valid() && abs == Step(old(abs), MainThread) && holder == old(holder) && jobs == old(jobs)
    {
      var t := mainDone;
      if t < |locals| {
        assert Matches(t);
        locals := locals[t := locals[t].(pc := WLock)];
      }
      mainDone := mainDone + 1;
      abs := Step(abs, MainThread);
      OthersMatch(t);
      assert t < |locals| ==> Matches(t);
    }

    method WorkerAct(t: nat)
      requires Valid() && Enabled(abs, Thread(t)) && LockInv(abs) && PlaceInv(abs)
      modifies this, accum
      ensures Valid() && abs == Step(old(abs), Thread(t)) && holder.Keys <= old(holder.Keys) && jobs == old(jobs)
    {
      assert Matches(t);
      match locals[t].pc {
        case WLock => LockQueue(t);
        case WTest => TestQueue(t);
        case WClear => ClearNext(t);
        case WTake => TakeHead(t);
        case WAdvance => Advance(t);
        case WUnlock => UnlockQueue(t);
        case WCheck => CheckNext(t);
        case WProcess => ProcessJob(t);
        case WFree => FreeNext(t);
      }
    }

    /** Any schedule runs on the heap as it does in the machine. */
    method Run(schedule: seq<Choice>)
      requires Valid() && Inv(abs, jobs) && CanRun(abs, schedule)
      modifies this, accum
      ensures Valid() && Inv(abs, jobs) && abs == Exec(old(abs), schedule) && jobs == old(jobs)
    {
      var rest := schedule;
      while rest != []
        invariant Valid() && Inv(abs, jobs) && jobs == old(jobs)
        invariant CanRun(abs, rest) && Exec(abs, rest) == Exec(old(abs), schedule)
        decreases |rest|
      {
        StepKeepsInv(abs, rest[0], jobs);
        match rest[0] {
          case MainThread => MainAct();
          case Thread(t) => WorkerAct(t);
        }
        rest := rest[1..];
      }
    }
  }

  /** Lines 91-92: every accumulator starts at zero. */
  method ClearAccumulators(accum: array<int>)
    modifies accum
    ensures forall t | 0 <= t < accum.Length :: accum[t] == 0
  {
    for i := 0 to accum.Length
      invariant forall t | 0 <= t < i :: accum[t] == 0
    {
      accum[i] := 0;
    }
  }

  /** Lines 104-108: the joined total. */
  method SumAccumulators(accum: array<int>) returns (res: int)
    ensures res == Sum(accum[..], Same)
  {
    res := 0;
    assert Sum(accum[..0], Same) == 0;
    for i := 0 to accum.Length
      invariant res == Sum(accum[..i], Same)
    {
      assert accum[..i + 1] == accum[..i] + [accum[i]];
      SumConcat(accum[..i], [accum[i]], Same);
      res := res + accum[i];
    }
    assert accum[..accum.Length] == accum[..];
  }

  /** The whole program, for a complete schedule: the total depends on num_jobs alone. */
  method RunPool(numJobs: int, workers: nat, schedule: seq<Choice>) returns (res: int)
    requires workers > 0 && CanRun(Init(workers, Jobs(numJobs)), schedule)
    requires AllDone(Exec(Init(workers, Jobs(numJobs)), schedule))
    ensures numJobs >= 1 ==> 2 * res == numJobs * (numJobs - 1)
    ensures numJobs < 1 ==> res == 0
  {
    JobsAre(numJobs);
    EndTotal(workers, numJobs, schedule);
    var head, nodes := InitJobs(numJobs, null);
    var accum := new int[workers];
    ClearAccumulators(accum);
    var pool := new WorkPool(accum, head, nodes, Jobs(numJobs));
    InitInv(workers, Jobs(numJobs));
    pool.Run(schedule);
    res := SumAccumulators(accum);
  }
}
