/**
 * What consumers do for the jobs of ch04/semaphore-jobs.c: they come back for more until a wait
 * fails them, so that one consumer that stays is enough to drain the queue, and the job they
 * read is the one that was written, payload included.
 */
module SemaphoreDelivery {
  import opened Options
  import opened Sums
  import opened SemaphoreJobs
  import opened SemaphoreRuns

  // ---------------------------------------------------------------- consumers stay

  predicate Staying(s: State, t: nat)
  {
    t < |s.threads| && s.threads[t].Consumer? && !Finished(s.threads[t])
  }

  /** A consumer leaves its loop only at line 48, when the wait fails; a token always brings it back there. */
  lemma LeavesAtWait(s: State, c: Choice, t: nat)
    requires MainInv(s) && Enabled(s, c) && Staying(s, t)
    ensures Staying(Step(s, c), t)
      || (c.Thread? && c.t == t && s.threads[t].cp == CWait && (c.wait == Timeout || c.wait == OtherError))
    ensures c.Thread? && c.wait == Token ==> Staying(Step(s, c), t)
  {}

  /** How a wait can go: with a token exactly when there is one, by timeout exactly when there is none, by an error always. */
  lemma WaitOutcomes(s: State, t: nat, payload: int)
    requires Staying(s, t) && s.threads[t].cp == CWait
    ensures Enabled(s, Thread(t, payload, Token)) <==> s.sem > 0
    ensures Enabled(s, Thread(t, payload, Timeout)) <==> s.sem == 0
    ensures var c := Thread(t, payload, OtherError);
      Enabled(s, c) && Step(s, c).sem == s.sem && Step(s, c).queue == s.queue && !Staying(Step(s, c), t)
  {}

  /** Main has created all threads, the producers are done, no token is left, and the consumers wait or have left. */
  predicate Idle(s: State)
  {
    && s.main >= Total(s.cfg) && s.owner == None && s.sem == 0
    && forall th | th in s.threads :: Finished(th) || (th.Consumer? && th.cp == CWait)
  }

  /** While there is anything to do, some step does it without a consumer leaving. */
  lemma NextToServe(s: State, t: nat) returns (c: Choice)
    requires Inv(s) && Staying(s, t) && !Idle(s)
    ensures Enabled(s, c) && Staying(Step(s, c), t)
  {
    if s.main < Total(s.cfg) {
      c := MainThread;
    } else if s.owner.Some? {
      c := Thread(s.owner.value, 0, Token);
    } else if u: nat :| u < |s.threads| && !Finished(s.threads[u]) && !(s.threads[u].Consumer? && s.threads[u].cp == CWait) {
      c := Thread(u, 0, Token);
    } else {
      c := Thread(t, 0, Token);
    }
    assert Enabled(s, c);
    LeavesAtWait(s, c, t);
  }

  lemma {:induction false} ServesAll(s: State, t: nat) returns (schedule: seq<Choice>)
    requires Inv(s) && Staying(s, t)
    ensures CanRun(s, schedule) && Idle(Exec(s, schedule))
    decreases Measure(s)
  {
    if Idle(s) {
      schedule := [];
    } else {
      var c := NextToServe(s, t);
      StepKeepsInv(s, c);
      StepLowersMeasure(s, c);
      MeasureNonNegative(s);
      var rest := ServesAll(Step(s, c), t);
      schedule := [c] + rest;
      assert schedule[1..] == rest;
    }
  }

  /** From an idle state every way to the end leaves the queue empty. */
  lemma {:induction false} IdleDrains(s: State) returns (schedule: seq<Choice>)
    requires Inv(s) && Idle(s)
    ensures CanRun(s, schedule) && AllDone(Exec(s, schedule)) && Exec(s, schedule).queue == []
  {
    schedule := Complete(s);
    NoMoreTokens(s, schedule);
    RunKeepsInv(s, schedule);
    EndState(Exec(s, schedule));
  }

  ghost predicate CanDrain(s: State)
  {
    exists schedule :: CanRun(s, schedule) && AllDone(Exec(s, schedule)) && Exec(s, schedule).queue == []
  }

  lemma {:induction false} StayerDrains(s: State, t: nat)
    requires Inv(s) && Staying(s, t)
    ensures CanDrain(s)
  {
    var a := ServesAll(s, t);
    RunKeepsInv(s, a);
    var b := IdleDrains(Exec(s, a));
    RunConcat(s, a, b);
  }

  /**
   * A reachable state can still be run to an empty queue exactly when a consumer is left to do
   * it, or nothing is left to be done: no token and no post to come.
   */
  lemma {:induction false} CanDrainIff(s: State)
    requires Inv(s)
    ensures CanDrain(s) <==> (exists t :: Staying(s, t)) || s.sem + Sum(s.threads, Owed) == 0
  {
    if t :| Staying(s, t) {
      StayerDrains(s, t);
    } else {
      assert ConsumersLeft(s) by {
        forall t: nat | t < |s.threads| && s.threads[t].Consumer? ensures Finished(s.threads[t]) {
          assert !Staying(s, t);
        }
      }
      forall schedule | CanRun(s, schedule) && AllDone(Exec(s, schedule))
        ensures |Exec(s, schedule).queue| == s.sem + Sum(s.threads, Owed)
      {
        LeftFrom(s, schedule);
      }
      var schedule := Complete(s);
    }
  }

  /** With at least one consumer there is a complete run in which every job is consumed. */
  lemma {:induction false} AllJobsConsumed(cfg: Config) returns (schedule: seq<Choice>)
    requires cfg.consumers >= 1
    ensures CanRun(Init(cfg), schedule)
    ensures var s := Exec(Init(cfg), schedule); AllDone(s) && s.queue == [] && |s.freed| == cfg.producers * cfg.jobs
  {
    InitInv(cfg);
    StayerDrains(Init(cfg), 0);
    schedule :| CanRun(Init(cfg), schedule) && AllDone(Exec(Init(cfg), schedule)) && Exec(Init(cfg), schedule).queue == [];
    Ending(cfg, schedule);
  }

  // ---------------------------------------------------------------- payloads

  /** A producer is about to execute line 123. */
  predicate Draws(s: State, c: Choice)
  {
    c.Thread? && c.t < |s.threads| && s.threads[c.t].Producer? && s.threads[c.t].pp == PPayload
  }

  function DrawnBy(s: State, c: Choice): seq<int> { if Draws(s, c) then [c.payload] else [] }

  /** The payloads drawn at line 123, in the order of the run. */
  function Drawn(s: State, schedule: seq<Choice>): seq<int>
    requires CanRun(s, schedule)
    decreases |schedule|
  {
    if schedule == [] then []
    else DrawnBy(s, schedule[0]) + Drawn(Step(s, schedule[0]), schedule[1..])
  }

  /** The job has the payload that was drawn for its index. */
  predicate Carries(j: Job, drawn: seq<int>)
  {
    0 <= j.index < |drawn| && j.payload == drawn[j.index]
  }

  /** The lock's owner has drawn its index and not yet its payload. */
  predicate Drawing(s: State)
  {
    s.owner.Some? && s.owner.value < |s.threads|
    && s.threads[s.owner.value].Producer? && s.threads[s.owner.value].pp == PPayload
  }

  predicate ThreadCarries(th: Thread, drawn: seq<int>)
  {
    match th
    case Producer(pp, _, job) => pp == PHead ==> Carries(job, drawn)
    case Consumer(cp, held) => (cp == CAdvance || cp == CUnlock || cp == CFree) && held.Some? ==> Carries(held.value, drawn)
  }

  predicate PayloadInv(s: State, drawn: seq<int>)
  {
    && |drawn| == s.counter - (if Drawing(s) then 1 else 0)
    && (forall k | 0 <= k < |s.queue| :: Carries(s.queue[k], drawn))
    && (forall k | 0 <= k < |s.freed| :: Carries(s.freed[k], drawn))
    && forall t | 0 <= t < |s.threads| :: ThreadCarries(s.threads[t], drawn)
  }

  lemma MainKeepsPayloads(s: State, drawn: seq<int>)
    requires PayloadInv(s, drawn) && LockInv(s) && MainInv(s) && Enabled(s, MainThread)
    ensures PayloadInv(MainStep(s), drawn)
  {
    if s.main < |s.threads| {
      assert New(s.threads[s.main]);
    }
  }

  lemma ProducerKeepsPayloads(s: State, c: Choice, drawn: seq<int>)
    requires PayloadInv(s, drawn) && LockInv(s) && OrderInv(s) && c.Thread? && Enabled(s, c) && s.threads[c.t].Producer?
    ensures PayloadInv(Step(s, c), drawn + DrawnBy(s, c))
  {
    assert ThreadCarries(s.threads[c.t], drawn);
    match s.threads[c.t].pp {
      case PTest => case PAlloc => case PLock => case PLink => case PIndex => case PPayload =>
      case PHead => case PPost => case PUnlock =>
    }
  }

  lemma ConsumerKeepsPayloads(s: State, c: Choice, drawn: seq<int>)
    requires PayloadInv(s, drawn) && LockInv(s) && c.Thread? && Enabled(s, c) && s.threads[c.t].Consumer?
    ensures PayloadInv(Step(s, c), drawn)
  {
    assert ThreadCarries(s.threads[c.t], drawn);
    match s.threads[c.t].cp {
      case CWait => case CLock => case CTake => case CAdvance => case CUnlock => case CFree =>
    }
  }

  lemma StepKeepsPayloads(s: State, c: Choice, drawn: seq<int>)
    requires Inv(s) && PayloadInv(s, drawn) && Enabled(s, c)
    ensures PayloadInv(Step(s, c), drawn + DrawnBy(s, c))
  {
    assert !Draws(s, c) ==> drawn + DrawnBy(s, c) == drawn;
    if c.MainThread? {
      MainKeepsPayloads(s, drawn);
    } else if s.threads[c.t].Producer? {
      ProducerKeepsPayloads(s, c, drawn);
    } else {
      ConsumerKeepsPayloads(s, c, drawn);
    }
  }

  lemma Reassociate<T>(a: seq<T>, b: seq<T>, c: seq<T>)
    ensures a + b + c == a + (b + c)
  {}

  lemma {:induction false} RunKeepsPayloads(s: State, schedule: seq<Choice>, drawn: seq<int>)
    requires Inv(s) && PayloadInv(s, drawn) && CanRun(s, schedule)
    ensures PayloadInv(Exec(s, schedule), drawn + Drawn(s, schedule))
    decreases |schedule|
  {
    if schedule == [] {
      assert drawn + [] == drawn;
    } else {
      var c := schedule[0];
      StepKeepsInv(s, c);
      StepKeepsPayloads(s, c, drawn);
      RunKeepsPayloads(Step(s, c), schedule[1..], drawn + DrawnBy(s, c));
      Reassociate(drawn, DrawnBy(s, c), Drawn(Step(s, c), schedule[1..]));
    }
  }

  /**
   * In every run the job with index i, wherever it is queued, in a consumer's hand or freed, has
   * the i-th payload that was drawn at line 123.
   */
  lemma {:induction false} Delivered(cfg: Config, schedule: seq<Choice>)
    requires CanRun(Init(cfg), schedule)
    ensures var s := Exec(Init(cfg), schedule); var drawn := Drawn(Init(cfg), schedule);
      && (forall k | 0 <= k < |s.freed| :: 0 <= s.freed[k].index < |drawn| && s.freed[k].payload == drawn[s.freed[k].index])
      && (forall k | 0 <= k < |s.queue| :: 0 <= s.queue[k].index < |drawn| && s.queue[k].payload == drawn[s.queue[k].index])
      && forall t | 0 <= t < |s.threads| && s.threads[t].Consumer? && InHand(s.threads[t]).Some? ::
           Carries(InHand(s.threads[t]).value, drawn)
  {
    InitInv(cfg);
    RunKeepsPayloads(Init(cfg), schedule, []);
    var s, drawn := Exec(Init(cfg), schedule), Drawn(Init(cfg), schedule);
    assert [] + drawn == drawn;
    forall t | 0 <= t < |s.threads| && s.threads[t].Consumer? && InHand(s.threads[t]).Some?
      ensures Carries(InHand(s.threads[t]).value, drawn)
    {
      assert ThreadCarries(s.threads[t], drawn);
    }
  }

  // ---------------------------------------------------------------- main

  /** Main joins the producers in their order and then the consumers in theirs, and passes each join only when that thread has ended. */
  lemma {:induction false} JoinOrder(cfg: Config, schedule: seq<Choice>)
    requires CanRun(Init(cfg), schedule)
    ensures var s := Exec(Init(cfg), schedule); var total := cfg.consumers + cfg.producers;
      && |s.threads| == total
      && (forall t | cfg.consumers <= t < total :: s.main > total + (t - cfg.consumers) ==> Finished(s.threads[t]))
      && (forall t | 0 <= t < cfg.consumers :: s.main > total + cfg.producers + t ==> Finished(s.threads[t]))
      && (0 <= s.main - total < cfg.producers ==>
            (Enabled(s, MainThread) <==> Finished(s.threads[cfg.consumers + (s.main - total)])))
      && (0 <= s.main - total - cfg.producers < cfg.consumers ==>
            (Enabled(s, MainThread) <==> Finished(s.threads[s.main - total - cfg.producers])))
  {
    Reachable(cfg, schedule);
    var s := Exec(Init(cfg), schedule);
    assert forall t: nat | t < |s.threads| :: WasJoined(cfg, s.main, t) ==> Finished(s.threads[t]);
  }
}
