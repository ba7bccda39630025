/**
 * ch04/critical-section.c: one thread per transaction moves money between
 * accounts, guarded by hand-made locks that are not taken atomically. Balances are
 * exact reals; one step is one load, store or test of a shared array element.
 */
module Transfers {
  import opened Sums

  datatype Transaction = Transaction(from: nat, to: nat, dollars: real)

  /** process_transaction, lines 30-48; `a = b = v` stores to b first, and `x += d` is a load and a store. */
  datatype Pc =
    | CheckFunds | WaitFrom | WaitTo | SetTo | SetFrom
    | LoadFrom | StoreFrom | LoadTo | StoreTo | ClearTo | ClearFrom | Done

  /** `temp` is the loaded balance, `ret` the return code. */
  datatype Thread = Thread(pc: Pc, temp: real, ret: int)

  datatype State = State(balances: seq<real>, locks: seq<int>, threads: seq<Thread>)

  function Init(balances: seq<real>, trans: seq<Transaction>): State
  {
    State(balances, seq(|balances|, _ => 0), seq(|trans|, _ => Thread(CheckFunds, 0.0, 0)))
  }

  /** In the loop of line 35: about to test the lock of the source, or of the target. */
  predicate AtGuard(th: Thread) { th.pc.WaitFrom? || th.pc.WaitTo? }

  /** Every account index is one of the arrays'. */
  predicate InRange(accounts: nat, trans: seq<Transaction>)
  {
    forall i | 0 <= i < |trans| :: trans[i].from < accounts && trans[i].to < accounts
  }

  predicate Shaped(s: State, trans: seq<Transaction>)
  {
    |s.locks| == |s.balances| && |s.threads| == |trans| && InRange(|s.balances|, trans)
  }

  predicate Enabled(s: State, trans: seq<Transaction>, i: nat)
  {
    Shaped(s, trans) && i < |trans| && s.threads[i].pc != Done
  }

  function To(s: State, i: nat, pc: Pc): State
    requires i < |s.threads|
  {
    s.(threads := s.threads[i := s.threads[i].(pc := pc)])
  }

  function Step(s: State, trans: seq<Transaction>, i: nat): State
    requires Enabled(s, trans, i)
  {
    var Transaction(from, to, dollars) := trans[i];
    var th := s.threads[i];
    match th.pc
    case CheckFunds =>
      if s.balances[from] < dollars then s.(threads := s.threads[i := Thread(Done, th.temp, 1)]) else To(s, i, WaitFrom)
    case WaitFrom => To(s, i, if s.locks[from] != 0 then WaitTo else SetTo)
    case WaitTo => To(s, i, if s.locks[to] != 0 then WaitFrom else SetTo)
    case SetTo => To(s, i, SetFrom).(locks := s.locks[to := 1])
    case SetFrom => To(s, i, LoadFrom).(locks := s.locks[from := 1])
    case LoadFrom => s.(threads := s.threads[i := Thread(StoreFrom, s.balances[from], th.ret)])
    case StoreFrom => To(s, i, LoadTo).(balances := s.balances[from := th.temp - dollars])
    case LoadTo => s.(threads := s.threads[i := Thread(StoreTo, s.balances[to], th.ret)])
    case StoreTo => To(s, i, ClearTo).(balances := s.balances[to := th.temp + dollars])
    case ClearTo => To(s, i, ClearFrom).(locks := s.locks[to := 0])
    case ClearFrom => s.(threads := s.threads[i := Thread(Done, th.temp, 0)], locks := s.locks[from := 0])
    case Done => s
  }

  predicate CanRun(s: State, trans: seq<Transaction>, schedule: seq<nat>)
    decreases |schedule|
  {
    schedule == [] || (Enabled(s, trans, schedule[0]) && CanRun(Step(s, trans, schedule[0]), trans, schedule[1..]))
  }

  function Exec(s: State, trans: seq<Transaction>, schedule: seq<nat>): State
    requires CanRun(s, trans, schedule)
    decreases |schedule|
  {
    if schedule == [] then s else Exec(Step(s, trans, schedule[0]), trans, schedule[1..])
  }

  predicate AllDone(s: State) { forall th | th in s.threads :: th.pc == Done }

  // ---------------------------------------------------------------- the sequential batch

  predicate Funded(balances: seq<real>, tr: Transaction)
    requires tr.from < |balances|
  {
    balances[tr.from] >= tr.dollars
  }

  function Moved(balances: seq<real>, tr: Transaction): (r: seq<real>)
    requires tr.from < |balances| && tr.to < |balances|
    ensures |r| == |balances|
  {
    var b := balances[tr.from := balances[tr.from] - tr.dollars];
    b[tr.to := b[tr.to] + tr.dollars]
  }

  /** One transaction, undisturbed. */
  function Process(balances: seq<real>, tr: Transaction): (r: seq<real>)
    requires tr.from < |balances| && tr.to < |balances|
    ensures |r| == |balances|
  {
    if Funded(balances, tr) then Moved(balances, tr) else balances
  }

  /** All transactions, one after the other. */
  function Batch(balances: seq<real>, trans: seq<Transaction>): (r: seq<real>)
    requires InRange(|balances|, trans)
    ensures |r| == |balances|
  {
    if trans == [] then balances
    else Process(Batch(balances, trans[..|trans| - 1]), trans[|trans| - 1])
  }

  /** The code transaction `i` returns in the batch. */
  function BatchCode(balances: seq<real>, trans: seq<Transaction>, i: nat): int
    requires InRange(|balances|, trans) && i < |trans|
  {
    if Funded(Batch(balances, trans[..i]), trans[i]) then 0 else 1
  }

  function Total(balances: seq<real>): real
  {
    if balances == [] then 0.0 else balances[0] + Total(balances[1..])
  }

  predicate NonNegative(balances: seq<real>) { forall a | 0 <= a < |balances| :: balances[a] >= 0.0 }

  lemma TotalUpdate(balances: seq<real>, a: nat, x: real)
    requires a < |balances|
    ensures Total(balances[a := x]) == Total(balances) - balances[a] + x
  {
    if a == 0 {
      assert balances[a := x][1..] == balances[1..];
    } else {
      assert balances[a := x][1..] == balances[1..][a - 1 := x];
      TotalUpdate(balances[1..], a - 1, x);
    }
  }

  /** The batch conserves money, and with non-negative amounts never overdraws an account. */
  lemma {:induction false} BatchConserves(balances: seq<real>, trans: seq<Transaction>)
    requires InRange(|balances|, trans)
    ensures Total(Batch(balances, trans)) == Total(balances)
    ensures NonNegative(balances) && (forall i | 0 <= i < |trans| :: trans[i].dollars >= 0.0)
      ==> NonNegative(Batch(balances, trans))
  {
    if trans != [] {
      var n := |trans| - 1;
      BatchConserves(balances, trans[..n]);
      var b := Batch(balances, trans[..n]);
      var tr := trans[n];
      var b' := b[tr.from := b[tr.from] - tr.dollars];
      TotalUpdate(b, tr.from, b[tr.from] - tr.dollars);
      TotalUpdate(b', tr.to, b'[tr.to] + tr.dollars);
    }
  }

  // ---------------------------------------------------------------- disjoint accounts

  predicate Uses(tr: Transaction, a: nat) { tr.from == a || tr.to == a }

  predicate Apart(x: Transaction, y: Transaction) { !Uses(x, y.from) && !Uses(x, y.to) }

  predicate Disjoint(trans: seq<Transaction>)
  {
    forall i, j | 0 <= i < |trans| && 0 <= j < |trans| && i != j :: Apart(trans[i], trans[j])
  }

  /** An account that no transaction uses keeps its balance. */
  lemma {:induction false} BatchUntouched(balances: seq<real>, trans: seq<Transaction>, a: nat)
    requires InRange(|balances|, trans) && a < |balances|
    requires forall i | 0 <= i < |trans| :: !Uses(trans[i], a)
    ensures Batch(balances, trans)[a] == balances[a]
  {
    if trans != [] {
      BatchUntouched(balances, trans[..|trans| - 1], a);
    }
  }

  lemma {:induction false} BatchUsed(balances: seq<real>, trans: seq<Transaction>, i: nat, a: nat)
    requires InRange(|balances|, trans) && Disjoint(trans) && i < |trans| && a < |balances| && Uses(trans[i], a)
    ensures Batch(balances, trans)[a] == Process(balances, trans[i])[a]
  {
    var before := trans[..|trans| - 1];
    if i < |before| {
      BatchUsed(balances, before, i, a);
      assert Apart(trans[i], trans[|before|]);
    } else {
      forall j | 0 <= j < i ensures !Uses(before[j], trans[i].from) && !Uses(before[j], trans[i].to) {
        assert Apart(trans[j], trans[i]);
      }
      BatchUntouched(balances, before, trans[i].from);
      BatchUntouched(balances, before, trans[i].to);
    }
  }

  /** With disjoint accounts, each account ends as its own transaction alone would leave it. */
  lemma {:induction false} BatchAt(balances: seq<real>, trans: seq<Transaction>, a: nat)
    requires InRange(|balances|, trans) && Disjoint(trans) && a < |balances|
    ensures forall i | 0 <= i < |trans| && Uses(trans[i], a) :: Batch(balances, trans)[a] == Process(balances, trans[i])[a]
    ensures (forall i | 0 <= i < |trans| :: !Uses(trans[i], a)) ==> Batch(balances, trans)[a] == balances[a]
  {
    forall i | 0 <= i < |trans| && Uses(trans[i], a) ensures Batch(balances, trans)[a] == Process(balances, trans[i])[a] {
      BatchUsed(balances, trans, i, a);
    }
    if forall i | 0 <= i < |trans| :: !Uses(trans[i], a) {
      BatchUntouched(balances, trans, a);
    }
  }

  /** The balances a thread expects on its own accounts: before, half way, or after its transfer. */
  function Expected(balances: seq<real>, tr: Transaction, th: Thread): seq<real>
    requires tr.from < |balances| && tr.to < |balances|
  {
    match th.pc
    case LoadTo => balances[tr.from := balances[tr.from] - tr.dollars]
    case StoreTo => balances[tr.from := balances[tr.from] - tr.dollars]
    case ClearTo => Moved(balances, tr)
    case ClearFrom => Moved(balances, tr)
    case Done => if th.ret == 0 then Moved(balances, tr) else balances
    case _ => balances
  }

  predicate LockHeldFrom(tr: Transaction, pc: Pc)
  {
    pc.LoadFrom? || pc.StoreFrom? || pc.LoadTo? || pc.StoreTo? || pc.ClearTo? || (pc.ClearFrom? && tr.from != tr.to)
      || (pc.SetFrom? && tr.from == tr.to)
  }

  predicate LockHeldTo(pc: Pc)
  {
    pc.SetFrom? || pc.LoadFrom? || pc.StoreFrom? || pc.LoadTo? || pc.StoreTo? || pc.ClearTo?
  }

  /** What thread `i` sees on its own accounts is what it would see alone. */
  predicate Alone(balances: seq<real>, trans: seq<Transaction>, s: State, i: nat)
    requires Shaped(s, trans) && |s.balances| == |balances| && i < |trans|
  {
    var tr, th := trans[i], s.threads[i];
    && s.balances[tr.from] == Expected(balances, tr, th)[tr.from]
    && s.balances[tr.to] == Expected(balances, tr, th)[tr.to]
    && (s.locks[tr.from] != 0 <==> LockHeldFrom(tr, th.pc))
    && (s.locks[tr.to] != 0 <==> LockHeldTo(th.pc))
    && th.pc != WaitTo
    && (th.pc == StoreFrom ==> th.temp == balances[tr.from])
    && (th.pc == StoreTo ==> th.temp == s.balances[tr.to])
    && (th.pc != CheckFunds && !(th.pc == Done && th.ret == 1) ==> Funded(balances, tr))
    && (th.pc == Done ==> th.ret == if Funded(balances, tr) then 0 else 1)
  }

  predicate Inv(balances: seq<real>, trans: seq<Transaction>, s: State)
  {
    && Shaped(s, trans) && |s.balances| == |balances|
    && (forall i | 0 <= i < |trans| :: Alone(balances, trans, s, i))
    && forall a | 0 <= a < |balances| && (forall i | 0 <= i < |trans| :: !Uses(trans[i], a)) ::
         s.balances[a] == balances[a] && s.locks[a] == 0
  }

  lemma InitInv(balances: seq<real>, trans: seq<Transaction>)
    requires InRange(|balances|, trans)
    ensures Inv(balances, trans, Init(balances, trans))
  {}

  /** The stepping thread still sees what it would see alone. */
  lemma MoverAlone(balances: seq<real>, trans: seq<Transaction>, s: State, i: nat)
    requires Inv(balances, trans, s) && Enabled(s, trans, i)
    ensures Shaped(Step(s, trans, i), trans) && Alone(balances, trans, Step(s, trans, i), i)
  {
    assert Alone(balances, trans, s, i);
  }

  /** A step touches nothing but its own thread and its own accounts. */
  lemma StepIsLocal(trans: seq<Transaction>, s: State, i: nat)
    requires Enabled(s, trans, i)
    ensures var s' := Step(s, trans, i);
      && Shaped(s', trans) && |s'.balances| == |s.balances|
      && (forall j | 0 <= j < |trans| && j != i :: s'.threads[j] == s.threads[j])
      && forall a | 0 <= a < |s.balances| && !Uses(trans[i], a) :: s'.balances[a] == s.balances[a] && s'.locks[a] == s.locks[a]
  {}

  lemma StepKeepsInv(balances: seq<real>, trans: seq<Transaction>, s: State, i: nat)
    requires Disjoint(trans) && Inv(balances, trans, s) && Enabled(s, trans, i)
    ensures Inv(balances, trans, Step(s, trans, i))
  {
    MoverAlone(balances, trans, s, i);
    StepIsLocal(trans, s, i);
    forall j | 0 <= j < |trans| ensures Alone(balances, trans, Step(s, trans, i), j) {
      assert Alone(balances, trans, s, j);
      assert j != i ==> Apart(trans[i], trans[j]);
    }
  }

  function StepsLeft(th: Thread): int
  {
    match th.pc
    case CheckFunds => 10
    case WaitFrom => 9
    case WaitTo => 9
    case SetTo => 8
    case SetFrom => 7
    case LoadFrom => 6
    case StoreFrom => 5
    case LoadTo => 4
    case StoreTo => 3
    case ClearTo => 2
    case ClearFrom => 1
    case Done => 0
  }

  lemma StepLowersMeasure(balances: seq<real>, trans: seq<Transaction>, s: State, i: nat)
    requires Inv(balances, trans, s) && Enabled(s, trans, i)
    ensures Sum(Step(s, trans, i).threads, StepsLeft) < Sum(s.threads, StepsLeft)
  {
    assert Alone(balances, trans, s, i);
    SumUpdate(s.threads, i, Step(s, trans, i).threads[i], StepsLeft);
  }

  lemma {:induction false} RunKeepsInv(balances: seq<real>, trans: seq<Transaction>, s: State, schedule: seq<nat>)
    requires Disjoint(trans) && Inv(balances, trans, s) && CanRun(s, trans, schedule)
    ensures Inv(balances, trans, Exec(s, trans, schedule))
    ensures |schedule| + Sum(Exec(s, trans, schedule).threads, StepsLeft) <= Sum(s.threads, StepsLeft)
    decreases |schedule|
  {
    if schedule != [] {
      StepKeepsInv(balances, trans, s, schedule[0]);
      StepLowersMeasure(balances, trans, s, schedule[0]);
      RunKeepsInv(balances, trans, Step(s, trans, schedule[0]), schedule[1..]);
    }
  }

  lemma NoneAtSecondTest(balances: seq<real>, trans: seq<Transaction>, s: State)
    requires Inv(balances, trans, s)
    ensures forall th | th in s.threads :: th.pc != WaitTo
    ensures Sum(s.threads, StepsLeft) >= 0
  {
    forall i | 0 <= i < |trans| ensures s.threads[i].pc != WaitTo {
      assert Alone(balances, trans, s, i);
    }
    SumAtLeast(s.threads, StepsLeft);
  }

  /** With disjoint accounts no thread ever waits, and every run ends after at most ten steps per thread. */
  lemma {:induction false} NobodyWaits(balances: seq<real>, trans: seq<Transaction>, schedule: seq<nat>)
    requires InRange(|balances|, trans) && Disjoint(trans) && CanRun(Init(balances, trans), trans, schedule)
    ensures |schedule| <= 10 * |trans|
    ensures forall th | th in Exec(Init(balances, trans), trans, schedule).threads :: th.pc != WaitTo
  {
    InitInv(balances, trans);
    RunKeepsInv(balances, trans, Init(balances, trans), schedule);
    NoneAtSecondTest(balances, trans, Exec(Init(balances, trans), trans, schedule));
    SumConstant(Init(balances, trans).threads, StepsLeft, 10);
  }

  lemma BatchCodeAlone(balances: seq<real>, trans: seq<Transaction>, i: nat)
    requires InRange(|balances|, trans) && Disjoint(trans) && i < |trans|
    ensures BatchCode(balances, trans, i) == if Funded(balances, trans[i]) then 0 else 1
  {
    forall j | 0 <= j < i ensures !Uses(trans[..i][j], trans[i].from) {
      assert Apart(trans[j], trans[i]);
    }
    BatchUntouched(balances, trans[..i], trans[i].from);
  }

  /** From every state of such a run some schedule leads to its end. */
  lemma CanEnd(balances: seq<real>, trans: seq<Transaction>, s: State) returns (schedule: seq<nat>)
    requires Disjoint(trans) && Inv(balances, trans, s)
    ensures CanRun(s, trans, schedule) && AllDone(Exec(s, trans, schedule))
    decreases Sum(s.threads, StepsLeft)
  {
    if i: nat :| i < |trans| && s.threads[i].pc != Done {
      StepKeepsInv(balances, trans, s, i);
      StepLowersMeasure(balances, trans, s, i);
      SumAtLeast(s.threads, StepsLeft);
      var rest := CanEnd(balances, trans, Step(s, trans, i));
      schedule := [i] + rest;
      assert schedule[1..] == rest;
    } else {
      schedule := [];
    }
  }

  lemma {:induction false} EndOfAccount(balances: seq<real>, trans: seq<Transaction>, s: State, a: nat)
    requires Disjoint(trans) && Inv(balances, trans, s) && AllDone(s) && a < |balances|
    ensures s.balances[a] == Batch(balances, trans)[a] && s.locks[a] == 0
  {
    BatchAt(balances, trans, a);
    if i :| 0 <= i < |trans| && Uses(trans[i], a) {
      assert Alone(balances, trans, s, i);
    }
  }

  /**
   * With pairwise disjoint accounts, every interleaving that has ended has the balances and
   * return codes of the sequential batch, and all locks are free again.
   */
  lemma {:induction false} InterleavingIsBatch(balances: seq<real>, trans: seq<Transaction>, schedule: seq<nat>)
    requires InRange(|balances|, trans) && Disjoint(trans)
    requires CanRun(Init(balances, trans), trans, schedule) && AllDone(Exec(Init(balances, trans), trans, schedule))
    ensures var s := Exec(Init(balances, trans), trans, schedule);
      && s.balances == Batch(balances, trans)
      && (forall a | 0 <= a < |s.locks| :: s.locks[a] == 0)
      && |s.threads| == |trans| && (forall i | 0 <= i < |trans| :: s.threads[i].ret == BatchCode(balances, trans, i))
      && Total(s.balances) == Total(balances)
      && (NonNegative(balances) && (forall i | 0 <= i < |trans| :: trans[i].dollars >= 0.0) ==> NonNegative(s.balances))
  {
    InitInv(balances, trans);
    RunKeepsInv(balances, trans, Init(balances, trans), schedule);
    var s := Exec(Init(balances, trans), trans, schedule);
    forall a | 0 <= a < |balances| ensures s.balances[a] == Batch(balances, trans)[a] && s.locks[a] == 0 {
      EndOfAccount(balances, trans, s, a);
    }
    forall i | 0 <= i < |trans| ensures s.threads[i].ret == BatchCode(balances, trans, i) {
      assert Alone(balances, trans, s, i);
      BatchCodeAlone(balances, trans, i);
    }
    BatchConserves(balances, trans);
  }

  /**
   * A transfer in plain numbers: it goes through when the source holds at least the amount, which
   * then moves; otherwise it returns 1 and moves nothing.
   */
  predicate Transferred(before: seq<real>, after: seq<real>, tr: Transaction, ret: int)
  {
    var Transaction(from, to, dollars) := tr;
    && from < |before| == |after| && to < |before|
    && ret == (if before[from] >= dollars then 0 else 1)
    && after[from] == (if ret == 0 && from != to then before[from] - dollars else before[from])
    && after[to] == (if ret == 0 && from != to then before[to] + dollars else before[to])
  }

  /** With disjoint accounts each thread's result is that, whatever the others do meanwhile. */
  lemma {:induction false} EachTransfer(balances: seq<real>, trans: seq<Transaction>, schedule: seq<nat>, i: nat)
    requires InRange(|balances|, trans) && Disjoint(trans) && i < |trans|
    requires CanRun(Init(balances, trans), trans, schedule) && AllDone(Exec(Init(balances, trans), trans, schedule))
    ensures var s := Exec(Init(balances, trans), trans, schedule);
      |s.threads| == |trans| && Transferred(balances, s.balances, trans[i], s.threads[i].ret)
  {
    InitInv(balances, trans);
    RunKeepsInv(balances, trans, Init(balances, trans), schedule);
    var s := Exec(Init(balances, trans), trans, schedule);
    assert Alone(balances, trans, s, i);
    assert s.threads[i] in s.threads;
  }

  // ---------------------------------------------------------------- the guard

  /** One test of the guard changes nothing but the thread's place, and lets it pass exactly when the lock it reads is free. */
  lemma GuardStep(s: State, trans: seq<Transaction>, i: nat)
    requires Enabled(s, trans, i) && AtGuard(s.threads[i])
    ensures var s' := Step(s, trans, i);
      && Shaped(s', trans) && s'.balances == s.balances && s'.locks == s.locks
      && (forall k | 0 <= k < |trans| && k != i :: s'.threads[k] == s.threads[k])
      && (AtGuard(s'.threads[i]) || s'.threads[i].pc == SetTo)
      && (s'.threads[i].pc == SetTo <==> s.locks[if s.threads[i].pc == WaitFrom then trans[i].from else trans[i].to] == 0)
      && (AtGuard(s'.threads[i]) ==> s'.threads[i].pc != s.threads[i].pc)
  {}

  /** While both its locks are taken a thread stays at the guard, however often it tests. */
  lemma {:induction false} Spins(s: State, trans: seq<Transaction>, i: nat, schedule: seq<nat>)
    requires Shaped(s, trans) && i < |trans| && AtGuard(s.threads[i])
    requires s.locks[trans[i].from] != 0 && s.locks[trans[i].to] != 0
    requires CanRun(s, trans, schedule) && forall k | 0 <= k < |schedule| :: schedule[k] == i
    ensures var s' := Exec(s, trans, schedule);
      && |s'.threads| == |trans| && AtGuard(s'.threads[i]) && s'.balances == s.balances && s'.locks == s.locks
      && forall k | 0 <= k < |trans| && k != i :: s'.threads[k] == s.threads[k]
    decreases |schedule|
  {
    if schedule != [] {
      assert schedule[0] == i;
      GuardStep(s, trans, i);
      Spins(Step(s, trans, i), trans, i, schedule[1..]);
    }
  }

  /** It busy-waits: it can test any number of times. */
  lemma {:induction false} SpinsOn(s: State, trans: seq<Transaction>, i: nat, n: nat) returns (schedule: seq<nat>)
    requires Shaped(s, trans) && i < |trans| && AtGuard(s.threads[i])
    requires s.locks[trans[i].from] != 0 && s.locks[trans[i].to] != 0
    ensures |schedule| == n && (forall k | 0 <= k < n :: schedule[k] == i) && CanRun(s, trans, schedule)
    ensures |Exec(s, trans, schedule).threads| == |trans| && AtGuard(Exec(s, trans, schedule).threads[i])
    decreases n
  {
    if n == 0 {
      schedule := [];
    } else {
      GuardStep(s, trans, i);
      var rest := SpinsOn(Step(s, trans, i), trans, i, n - 1);
      schedule := [i] + rest;
      assert schedule[1..] == rest;
    }
  }

  /** By its own steps alone a thread can pass the guard. */
  ghost predicate PassesAlone(s: State, trans: seq<Transaction>, i: nat)
  {
    exists schedule: seq<nat> :: (forall k | 0 <= k < |schedule| :: schedule[k] == i) && CanRun(s, trans, schedule)
      && i < |Exec(s, trans, schedule).threads| && Exec(s, trans, schedule).threads[i].pc == SetTo
  }

  /** The guard holds a thread exactly while both its locks are taken: one free lock lets it through. */
  lemma {:induction false} GuardIff(s: State, trans: seq<Transaction>, i: nat)
    requires Shaped(s, trans) && i < |trans| && AtGuard(s.threads[i])
    ensures PassesAlone(s, trans, i) <==> s.locks[trans[i].from] == 0 || s.locks[trans[i].to] == 0
  {
    if s.locks[trans[i].from] == 0 || s.locks[trans[i].to] == 0 {
      GuardStep(s, trans, i);
      Extend(s, trans, [], i);
      var s1 := Step(s, trans, i);
      assert Exec(s, trans, [] + [i]) == s1;
      if AtGuard(s1.threads[i]) {
        GuardStep(s1, trans, i);
        Extend(s, trans, [] + [i], i);
        assert Exec(s, trans, [] + [i] + [i]).threads[i].pc == SetTo;
      }
    } else {
      forall schedule: seq<nat> | (forall k | 0 <= k < |schedule| :: schedule[k] == i) && CanRun(s, trans, schedule)
        ensures |Exec(s, trans, schedule).threads| == |trans| && AtGuard(Exec(s, trans, schedule).threads[i])
      {
        Spins(s, trans, i, schedule);
      }
    }
  }

  // ---------------------------------------------------------------- longer runs

  lemma {:induction false} RunConcat(s: State, trans: seq<Transaction>, a: seq<nat>, b: seq<nat>)
    requires CanRun(s, trans, a) && CanRun(Exec(s, trans, a), trans, b)
    ensures CanRun(s, trans, a + b) && Exec(s, trans, a + b) == Exec(Exec(s, trans, a), trans, b)
    decreases |a|
  {
    if a == [] {
      assert a + b == b;
    } else {
      assert (a + b)[1..] == a[1..] + b;
      RunConcat(Step(s, trans, a[0]), trans, a[1..], b);
    }
  }

  /** One more step at the end of a run. */
  lemma {:induction false} Extend(s: State, trans: seq<Transaction>, a: seq<nat>, i: nat)
    requires CanRun(s, trans, a) && Enabled(Exec(s, trans, a), trans, i)
    ensures CanRun(s, trans, a + [i]) && Exec(s, trans, a + [i]) == Step(Exec(s, trans, a), trans, i)
  {
    assert [i][1..] == [];
    RunConcat(s, trans, a, [i]);
  }

  /** A thread gets as far as its first load although its source account is locked: the guard needs both locks taken. */
  lemma WalksIn(s: State, trans: seq<Transaction>, i: nat) returns (schedule: seq<nat>)
    requires Shaped(s, trans) && i < |trans| && s.threads[i].pc == CheckFunds && Funded(s.balances, trans[i])
    requires s.locks[trans[i].to] == 0
    ensures CanRun(s, trans, schedule)
    ensures Exec(s, trans, schedule) == State(
        s.balances, s.locks[trans[i].to := 1][trans[i].from := 1],
        s.threads[i := Thread(StoreFrom, s.balances[trans[i].from], s.threads[i].ret)])
  {
    Extend(s, trans, [], i);
    schedule := [] + [i];
    Extend(s, trans, schedule, i);
    schedule := schedule + [i];
    if s.locks[trans[i].from] != 0 {
      Extend(s, trans, schedule, i);
      schedule := schedule + [i];
    }
    Extend(s, trans, schedule, i);
    schedule := schedule + [i];
    Extend(s, trans, schedule, i);
    schedule := schedule + [i];
    Extend(s, trans, schedule, i);
    schedule := schedule + [i];
  }

  // ---------------------------------------------------------------- the program

  class Bank {
    const trans: seq<Transaction>
    const locks: array<int>
    const accountBalances: array<real>
    var threads: seq<Thread>

    ghost function View(): State
      reads this, locks, accountBalances
    {
      State(accountBalances[..], locks[..], threads)
    }

    constructor (accountBalances: array<real>, locks: array<int>, trans: seq<Transaction>)
      requires locks.Length == accountBalances.Length && forall a | 0 <= a < locks.Length :: locks[a] == 0
      ensures View() == Init(accountBalances[..], trans) && this.trans == trans
      ensures this.locks == locks && this.accountBalances == accountBalances
    {
      this.trans, this.locks, this.accountBalances := trans, locks, accountBalances;
      threads := seq(|trans|, _ => Thread(CheckFunds, 0.0, 0));
    }

    /** One load, store or test of process_transaction (lines 30-48) by thread `i`. */
    method Act(i: nat)
      requires Enabled(View(), trans, i)
      modifies this, locks, accountBalances
      ensures View() == Step(old(View()), trans, i)
      ensures old(threads[i]).pc == WaitFrom ==> (threads[i].pc == SetTo <==> old(locks[trans[i].from]) == 0)
      ensures old(threads[i]).pc == WaitTo ==> (threads[i].pc == SetTo <==> old(locks[trans[i].to]) == 0)
    {
      var Transaction(from, to, dollars) := trans[i];
      var th := threads[i];
      match th.pc {
        case CheckFunds =>
          threads := threads[i := if accountBalances[from] < dollars then Thread(Done, th.temp, 1) else th.(pc := WaitFrom)];
        case WaitFrom => threads := threads[i := th.(pc := if locks[from] != 0 then WaitTo else SetTo)];
        case WaitTo => threads := threads[i := th.(pc := if locks[to] != 0 then WaitFrom else SetTo)];
        case SetTo =>
          locks[to] := 1;
          threads := threads[i := th.(pc := SetFrom)];
        case SetFrom =>
          locks[from] := 1;
          threads := threads[i := th.(pc := LoadFrom)];
        case LoadFrom => threads := threads[i := th.(temp := accountBalances[from], pc := StoreFrom)];
        case StoreFrom =>
          accountBalances[from] := th.temp - dollars;
          threads := threads[i := th.(pc := LoadTo)];
        case LoadTo => threads := threads[i := th.(temp := accountBalances[to], pc := StoreTo)];
        case StoreTo =>
          accountBalances[to] := th.temp + dollars;
          threads := threads[i := th.(pc := ClearTo)];
        case ClearTo =>
          locks[to] := 0;
          threads := threads[i := th.(pc := ClearFrom)];
        case ClearFrom =>
          locks[from] := 0;
          threads := threads[i := Thread(Done, th.temp, 0)];
      }
    }

    method Run(schedule: seq<nat>)
      requires CanRun(View(), trans, schedule)
      modifies this, locks, accountBalances
      ensures View() == Exec(old(View()), trans, schedule)
    {
      var rest := schedule;
      while rest != []
        invariant CanRun(View(), trans, rest) && Exec(View(), trans, rest) == Exec(old(View()), trans, schedule)
        decreases |rest|
      {
        Act(rest[0]);
        rest := rest[1..];
      }
    }
  }

  /**
   * Lines 163-167 for pairwise disjoint accounts: however the threads interleave, the arrays
   * end as the sequential batch leaves them.
   */
  method PerformTransactions(accountBalances: array<real>, locks: array<int>, trans: seq<Transaction>, schedule: seq<nat>)
    returns (retVal: seq<int>)
    requires locks.Length == accountBalances.Length && forall a | 0 <= a < locks.Length :: locks[a] == 0
    requires InRange(accountBalances.Length, trans) && Disjoint(trans)
    requires CanRun(Init(accountBalances[..], trans), trans, schedule)
    requires AllDone(Exec(Init(accountBalances[..], trans), trans, schedule))
    modifies accountBalances, locks
    ensures accountBalances[..] == Batch(old(accountBalances[..]), trans)
    ensures forall a | 0 <= a < locks.Length :: locks[a] == 0
    ensures |retVal| == |trans| && forall i | 0 <= i < |trans| :: retVal[i] == BatchCode(old(accountBalances[..]), trans, i)
    ensures forall i | 0 <= i < |trans| :: Transferred(old(accountBalances[..]), accountBalances[..], trans[i], retVal[i])
  {
    InterleavingIsBatch(accountBalances[..], trans, schedule);
    ghost var before := accountBalances[..];
    ghost var s := Exec(Init(before, trans), trans, schedule);
    forall i | 0 <= i < |trans| ensures Transferred(before, s.balances, trans[i], s.threads[i].ret) {
      EachTransfer(before, trans, schedule, i);
    }
    var bank := new Bank(accountBalances, locks, trans);
    bank.Run(schedule);
    retVal := seq(|trans|, i requires 0 <= i < |bank.threads| reads bank => bank.threads[i].ret);
  }
}
