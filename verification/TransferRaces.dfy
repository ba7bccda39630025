/**
 * Conflicting transactions of ch04/critical-section.c that are funded together can change the
 * total, so that the batches on which every run conserves money are exactly the race-free ones.
 */
module TransferRaces {
  import opened Transfers
  import opened TransferOrders

  ghost predicate Reaches(trans: seq<Transaction>, s: State, s': State)
  {
    exists schedule :: CanRun(s, trans, schedule) && Exec(s, trans, schedule) == s'
  }

  lemma ReachesSelf(trans: seq<Transaction>, s: State)
    ensures Reaches(trans, s, s)
  {
    assert CanRun(s, trans, []);
  }

  /** One more step at the end of a run. */
  lemma ReachesStep(trans: seq<Transaction>, s: State, s': State, i: nat)
    requires Reaches(trans, s, s') && Enabled(s', trans, i)
    ensures Reaches(trans, s, Step(s', trans, i))
  {
    var schedule :| CanRun(s, trans, schedule) && Exec(s, trans, schedule) == s';
    Extend(s, trans, schedule, i);
  }

  lemma ReachesOn(trans: seq<Transaction>, s: State, s': State, s'': State)
    requires Reaches(trans, s, s') && Reaches(trans, s', s'')
    ensures Reaches(trans, s, s'')
  {
    var a :| CanRun(s, trans, a) && Exec(s, trans, a) == s';
    var b :| CanRun(s', trans, b) && Exec(s', trans, b) == s'';
    RunConcat(s, trans, a, b);
  }

  // ---------------------------------------------------------------- pieces of a transfer

  /** A run from `s` to `s'` of threads `i` and `j` alone. */
  ghost predicate Pair(trans: seq<Transaction>, s: State, s': State, i: nat, j: nat)
  {
    && Shaped(s, trans) && Shaped(s', trans) && |s'.balances| == |s.balances|
    && (forall k | 0 <= k < |trans| && k != i && k != j :: s'.threads[k] == s.threads[k])
    && Reaches(trans, s, s')
  }

  lemma PairOn(trans: seq<Transaction>, s: State, s': State, s'': State, i: nat, j: nat)
    requires Pair(trans, s, s', i, j) && Pair(trans, s', s'', i, j)
    ensures Pair(trans, s, s'', i, j)
  {
    ReachesOn(trans, s, s', s'');
  }

  lemma PairStep(trans: seq<Transaction>, s: State, i: nat) returns (s': State)
    requires Enabled(s, trans, i)
    ensures s' == Step(s, trans, i) && Pair(trans, s, s', i, i)
  {
    ReachesSelf(trans, s);
    ReachesStep(trans, s, s, i);
    StepIsLocal(trans, s, i);
    s' := Step(s, trans, i);
  }

  lemma PairSteps(trans: seq<Transaction>, s: State, i: nat) returns (s': State)
    requires Enabled(s, trans, i) && Step(s, trans, i).threads[i].pc != Done
    ensures Enabled(Step(s, trans, i), trans, i)
    ensures s' == Step(Step(s, trans, i), trans, i) && Pair(trans, s, s', i, i)
  {
    var s1 := PairStep(trans, s, i);
    s' := PairStep(trans, s1, i);
    PairOn(trans, s, s1, s', i, i);
  }

  /** A funded thread passes its guard when its source account is free. */
  lemma Enters(trans: seq<Transaction>, s: State, i: nat) returns (s': State)
    requires Shaped(s, trans) && i < |trans| && s.threads[i].pc == CheckFunds
    requires Funded(s.balances, trans[i]) && s.locks[trans[i].from] == 0
    ensures Pair(trans, s, s', i, i) && s'.threads[i].pc == SetTo
    ensures s'.balances == s.balances && s'.locks == s.locks
  {
    s' := PairSteps(trans, s, i);
  }

  /** A thread past its guard takes its locks, whoever has them. */
  lemma TakesLocks(trans: seq<Transaction>, s: State, i: nat) returns (s': State)
    requires Shaped(s, trans) && i < |trans| && s.threads[i].pc == SetTo
    ensures Pair(trans, s, s', i, i) && s'.threads[i].pc == LoadFrom
    ensures s'.balances == s.balances && s'.locks == s.locks[trans[i].to := 1][trans[i].from := 1]
  {
    s' := PairSteps(trans, s, i);
  }

  /** Load and store of the source, undisturbed. */
  lemma Withdraws(trans: seq<Transaction>, s: State, i: nat) returns (s': State)
    requires Shaped(s, trans) && i < |trans| && s.threads[i].pc == LoadFrom
    ensures Pair(trans, s, s', i, i) && s'.threads[i].pc == LoadTo && s'.locks == s.locks
    ensures s'.balances == s.balances[trans[i].from := s.balances[trans[i].from] - trans[i].dollars]
    ensures Total(s'.balances) == Total(s.balances) - trans[i].dollars
  {
    s' := PairSteps(trans, s, i);
    TotalUpdate(s.balances, trans[i].from, s.balances[trans[i].from] - trans[i].dollars);
  }

  /** Load and store of the target, undisturbed. */
  lemma Deposits(trans: seq<Transaction>, s: State, i: nat) returns (s': State)
    requires Shaped(s, trans) && i < |trans| && s.threads[i].pc == LoadTo
    ensures Pair(trans, s, s', i, i) && s'.threads[i].pc == ClearTo && s'.locks == s.locks
    ensures s'.balances == s.balances[trans[i].to := s.balances[trans[i].to] + trans[i].dollars]
    ensures Total(s'.balances) == Total(s.balances) + trans[i].dollars
  {
    s' := PairSteps(trans, s, i);
    TotalUpdate(s.balances, trans[i].to, s.balances[trans[i].to] + trans[i].dollars);
  }

  /** A thread that has made its stores clears its locks and ends. */
  lemma Leaves(trans: seq<Transaction>, s: State, i: nat) returns (s': State)
    requires Shaped(s, trans) && i < |trans| && s.threads[i].pc == ClearTo
    ensures Pair(trans, s, s', i, i) && s'.threads[i].pc == Done && s'.threads[i].ret == 0
    ensures s'.balances == s.balances && s'.locks == s.locks[trans[i].to := 0][trans[i].from := 0]
  {
    s' := PairSteps(trans, s, i);
  }

  // ---------------------------------------------------------------- the four ways to lose a store

  lemma TotalOverwrite(balances: seq<real>, a: nat, x: real, y: real)
    requires a < |balances|
    ensures Total(balances[a := x][a := y]) == Total(balances) - balances[a] + y
  {
    assert balances[a := x][a := y] == balances[a := y];
    TotalUpdate(balances, a, y);
  }

  /** Two threads about to load their source balances. */
  predicate BothLoading(trans: seq<Transaction>, s: State, i: nat, j: nat)
  {
    && Shaped(s, trans) && i < |trans| && j < |trans| && i != j
    && s.threads[i].pc == LoadFrom && s.threads[j].pc == LoadFrom
  }

  /** They have run to where both have made their stores. */
  ghost predicate BothStored(trans: seq<Transaction>, s: State, s': State, i: nat, j: nat)
  {
    && Pair(trans, s, s', i, j) && i < |trans| && j < |trans|
    && s'.threads[i].pc == ClearTo && s'.threads[j].pc == ClearTo && s'.locks == s.locks
  }

  /** The four steps in which `i` and `j` load one balance, and `j` stores before `i` does. */
  lemma Overwrites(trans: seq<Transaction>, s: State, i: nat, j: nat, a: nat) returns (s': State)
    requires Shaped(s, trans) && i < |trans| && j < |trans| && i != j && a < |s.balances|
    requires (s.threads[i].pc == LoadFrom && trans[i].from == a) || (s.threads[i].pc == LoadTo && trans[i].to == a)
    requires (s.threads[j].pc == LoadFrom && trans[j].from == a) || (s.threads[j].pc == LoadTo && trans[j].to == a)
    ensures Pair(trans, s, s', i, j) && s'.locks == s.locks
    ensures s'.threads[i].pc == (if s.threads[i].pc == LoadFrom then LoadTo else ClearTo)
    ensures s'.threads[j].pc == (if s.threads[j].pc == LoadFrom then LoadTo else ClearTo)
    ensures Total(s'.balances) == Total(s.balances) + if s.threads[i].pc == LoadFrom then -trans[i].dollars else trans[i].dollars
  {
    var s1 := PairStep(trans, s, i);
    var s2 := PairStep(trans, s1, j);
    PairOn(trans, s, s1, s2, i, j);
    var s3 := PairStep(trans, s2, j);
    PairOn(trans, s, s2, s3, i, j);
    s' := PairStep(trans, s3, i);
    PairOn(trans, s, s3, s', i, j);
    TotalOverwrite(s.balances, a, s3.balances[a], s'.balances[a]);
  }

  /** One source: the second withdrawal overwrites the first, so the total grows by it. */
  lemma SameSource(trans: seq<Transaction>, s: State, i: nat, j: nat) returns (s': State)
    requires BothLoading(trans, s, i, j) && trans[i].from == trans[j].from
    ensures BothStored(trans, s, s', i, j) && Total(s'.balances) == Total(s.balances) + trans[j].dollars
  {
    var s1 := Overwrites(trans, s, i, j, trans[i].from);
    var s2 := Deposits(trans, s1, i);
    PairOn(trans, s, s1, s2, i, j);
    s' := Deposits(trans, s2, j);
    PairOn(trans, s, s2, s', i, j);
  }

  /** One target: the second deposit overwrites the first, which is lost. */
  lemma SameTarget(trans: seq<Transaction>, s: State, i: nat, j: nat) returns (s': State)
    requires BothLoading(trans, s, i, j) && trans[i].to == trans[j].to
    ensures BothStored(trans, s, s', i, j) && Total(s'.balances) == Total(s.balances) - trans[j].dollars
  {
    var s1 := Withdraws(trans, s, i);
    var s2 := Withdraws(trans, s1, j);
    PairOn(trans, s, s1, s2, i, j);
    s' := Overwrites(trans, s2, i, j, trans[i].to);
    PairOn(trans, s, s2, s', i, j);
  }

  /** The target of one is the source of the other: whichever store comes first is lost. */
  lemma TargetIsSource(trans: seq<Transaction>, s: State, i: nat, j: nat) returns (s': State)
    requires BothLoading(trans, s, i, j) && trans[i].to == trans[j].from
    requires trans[i].dollars != 0.0 || trans[j].dollars != 0.0
    ensures BothStored(trans, s, s', i, j)
    ensures Total(s'.balances) == Total(s.balances) + if trans[i].dollars != 0.0 then -trans[i].dollars else trans[j].dollars
  {
    var a := trans[i].to;
    var s1 := Withdraws(trans, s, i);
    var s2;
    if trans[i].dollars != 0.0 {
      s2 := Overwrites(trans, s1, j, i, a);
    } else {
      s2 := Overwrites(trans, s1, i, j, a);
    }
    PairOn(trans, s, s1, s2, i, j);
    s' := Deposits(trans, s2, j);
    PairOn(trans, s, s2, s', i, j);
  }

  lemma LosesMoney(trans: seq<Transaction>, s: State, i: nat, j: nat) returns (s': State)
    requires BothLoading(trans, s, i, j) && Conflict(trans[i], trans[j])
    ensures BothStored(trans, s, s', i, j) && Total(s'.balances) != Total(s.balances)
  {
    var x, y := trans[i], trans[j];
    if x.from == y.from {
      if y.dollars != 0.0 { s' := SameSource(trans, s, i, j); } else { s' := SameSource(trans, s, j, i); }
    } else if x.to == y.to {
      if y.dollars != 0.0 { s' := SameTarget(trans, s, i, j); } else { s' := SameTarget(trans, s, j, i); }
    } else if x.to == y.from {
      s' := TargetIsSource(trans, s, i, j);
    } else {
      s' := TargetIsSource(trans, s, j, i);
    }
  }

  // ---------------------------------------------------------------- whole runs

  predicate AllFree(s: State) { forall a | 0 <= a < |s.locks| :: s.locks[a] == 0 }

  /** With all locks free, both can pass the guard and take the locks before either loads. */
  lemma BothEnter(trans: seq<Transaction>, s: State, i: nat, j: nat) returns (s': State)
    requires Shaped(s, trans) && AllFree(s) && i < |trans| && j < |trans| && i != j
    requires s.threads[i].pc == CheckFunds && s.threads[j].pc == CheckFunds
    requires Funded(s.balances, trans[i]) && Funded(s.balances, trans[j])
    ensures Pair(trans, s, s', i, j) && BothLoading(trans, s', i, j) && s'.balances == s.balances
    ensures forall a | 0 <= a < |s'.locks| && s'.locks[a] != 0 :: Uses(trans[i], a) || Uses(trans[j], a)
  {
    var s1 := Enters(trans, s, i);
    var s2 := Enters(trans, s1, j);
    PairOn(trans, s, s1, s2, i, j);
    var s3 := TakesLocks(trans, s2, i);
    PairOn(trans, s, s2, s3, i, j);
    s' := TakesLocks(trans, s3, j);
    PairOn(trans, s, s3, s', i, j);
  }

  lemma BothLeave(trans: seq<Transaction>, s: State, i: nat, j: nat) returns (s': State)
    requires Shaped(s, trans) && i < |trans| && j < |trans| && i != j
    requires s.threads[i].pc == ClearTo && s.threads[j].pc == ClearTo
    requires forall a | 0 <= a < |s.locks| && s.locks[a] != 0 :: Uses(trans[i], a) || Uses(trans[j], a)
    ensures Pair(trans, s, s', i, j) && AllFree(s') && s'.balances == s.balances
    ensures s'.threads[i].pc == Done && s'.threads[j].pc == Done
  {
    var s1 := Leaves(trans, s, i);
    s' := Leaves(trans, s1, j);
    PairOn(trans, s, s1, s', i, j);
  }

  /** A funded conflict can cost or create money, and the locks are free again afterwards. */
  lemma Race(trans: seq<Transaction>, s: State, i: nat, j: nat) returns (s': State)
    requires Shaped(s, trans) && AllFree(s) && i < |trans| && j < |trans| && i != j
    requires s.threads[i].pc == CheckFunds && s.threads[j].pc == CheckFunds
    requires Funded(s.balances, trans[i]) && Funded(s.balances, trans[j]) && Conflict(trans[i], trans[j])
    ensures Pair(trans, s, s', i, j) && AllFree(s') && Total(s'.balances) != Total(s.balances)
    ensures s'.threads[i].pc == Done && s'.threads[j].pc == Done
  {
    var s1 := BothEnter(trans, s, i, j);
    var s2 := LosesMoney(trans, s1, i, j);
    PairOn(trans, s, s1, s2, i, j);
    s' := BothLeave(trans, s2, i, j);
    PairOn(trans, s, s2, s', i, j);
  }

  /** Past its guard, undisturbed, a thread transfers the money. */
  lemma TransfersAlone(trans: seq<Transaction>, s: State, i: nat) returns (s': State)
    requires Shaped(s, trans) && i < |trans| && s.threads[i].pc == SetTo
    ensures Pair(trans, s, s', i, i) && s'.threads[i].pc == ClearTo && s'.balances == Moved(s.balances, trans[i])
    ensures s'.locks == s.locks[trans[i].to := 1][trans[i].from := 1]
  {
    var s1 := TakesLocks(trans, s, i);
    var s2 := Withdraws(trans, s1, i);
    PairOn(trans, s, s1, s2, i, i);
    s' := Deposits(trans, s2, i);
    PairOn(trans, s, s2, s', i, i);
  }

  /** With all locks free a thread can run alone from beginning to end. */
  lemma RunsAlone(trans: seq<Transaction>, s: State, i: nat) returns (s': State)
    requires Shaped(s, trans) && AllFree(s) && i < |trans| && s.threads[i].pc == CheckFunds
    ensures Pair(trans, s, s', i, i) && AllFree(s') && s'.threads[i].pc == Done
    ensures s'.balances == Process(s.balances, trans[i])
    ensures s'.threads[i].ret == if Funded(s.balances, trans[i]) then 0 else 1
  {
    if Funded(s.balances, trans[i]) {
      var s1 := Enters(trans, s, i);
      var s2 := TransfersAlone(trans, s1, i);
      PairOn(trans, s, s1, s2, i, i);
      s' := Leaves(trans, s2, i);
      PairOn(trans, s, s2, s', i, i);
    } else {
      s' := PairStep(trans, s, i);
    }
  }

  /** No thread has begun, or each in `order` has run to its end. */
  predicate RanInTurn(trans: seq<Transaction>, s: State, order: seq<nat>)
  {
    && Shaped(s, trans) && AllFree(s)
    && forall k | 0 <= k < |trans| :: s.threads[k].pc == if k in order then Done else CheckFunds
  }

  /** They have run as the batch of them says. */
  predicate AsBatch(balances: seq<real>, trans: seq<Transaction>, s: State, order: seq<nat>)
    requires InRange(|balances|, trans) && IsOrder(order, |trans|)
  {
    RanInTurn(trans, s, order) && s.balances == InTurn(balances, trans, order) && CodesMatch(balances, trans, s, order)
  }

  predicate CodesMatch(balances: seq<real>, trans: seq<Transaction>, s: State, order: seq<nat>)
    requires InRange(|balances|, trans) && IsOrder(order, |trans|) && |s.threads| == |trans|
  {
    forall k | 0 <= k < |order| :: s.threads[order[k]].ret == BatchCode(balances, Picked(trans, order), k)
  }

  lemma NextMatches(balances: seq<real>, trans: seq<Transaction>, s: State, s': State, order: seq<nat>, i: nat)
    requires InRange(|balances|, trans) && IsOrder(order, |trans|) && |s.threads| == |s'.threads| == |trans|
    requires i < |trans| && i !in order && CodesMatch(balances, trans, s, order)
    requires forall k | 0 <= k < |trans| && k != i :: s'.threads[k] == s.threads[k]
    requires s'.threads[i].ret == if Funded(InTurn(balances, trans, order), trans[i]) then 0 else 1
    ensures IsOrder(order + [i], |trans|) && CodesMatch(balances, trans, s', order + [i])
  {
    TurnAppend(balances, trans, order, i);
    var order' := order + [i];
    forall k | 0 <= k < |order'| ensures s'.threads[order'[k]].ret == BatchCode(balances, Picked(trans, order'), k) {
      assert k < |order| ==> order'[k] == order[k] && order[k] in order;
    }
  }

  lemma RunsNext(balances: seq<real>, trans: seq<Transaction>, s: State, order: seq<nat>, i: nat)
    returns (s': State)
    requires InRange(|balances|, trans) && IsOrder(order, |trans|) && AsBatch(balances, trans, s, order)
    requires i < |trans| && i !in order
    ensures Reaches(trans, s, s') && IsOrder(order + [i], |trans|) && AsBatch(balances, trans, s', order + [i])
  {
    s' := RunsAlone(trans, s, i);
    TurnAppend(balances, trans, order, i);
    NextMatches(balances, trans, s, s', order, i);
  }

  lemma RunsInTurn(balances: seq<real>, trans: seq<Transaction>, order: seq<nat>) returns (s: State)
    requires InRange(|balances|, trans) && IsOrder(order, |trans|)
    ensures Reaches(trans, Init(balances, trans), s) && AsBatch(balances, trans, s, order)
  {
    if order == [] {
      s := Init(balances, trans);
      ReachesSelf(trans, s);
    } else {
      var before, i := order[..|order| - 1], order[|order| - 1];
      var s0 := RunsInTurn(balances, trans, before);
      s := RunsNext(balances, trans, s0, before, i);
      ReachesOn(trans, Init(balances, trans), s0, s);
      assert before + [i] == order;
    }
  }

  lemma {:induction false} ProcessConserves(balances: seq<real>, tr: Transaction)
    requires tr.from < |balances| && tr.to < |balances|
    ensures Total(Process(balances, tr)) == Total(balances)
  {
    var b := balances[tr.from := balances[tr.from] - tr.dollars];
    TotalUpdate(balances, tr.from, balances[tr.from] - tr.dollars);
    TotalUpdate(b, tr.to, b[tr.to] + tr.dollars);
  }

  /** Threads that have not begun can run one after the other, and conserve the total. */
  lemma RestRuns(trans: seq<Transaction>, s: State, from: nat) returns (s': State)
    requires Shaped(s, trans) && AllFree(s) && from <= |trans|
    requires forall k | 0 <= k < |trans| :: s.threads[k].pc == Done || (from <= k && s.threads[k].pc == CheckFunds)
    ensures Reaches(trans, s, s') && AllDone(s') && Total(s'.balances) == Total(s.balances)
    decreases |trans| - from
  {
    if from == |trans| {
      s' := s;
      ReachesSelf(trans, s);
    } else if s.threads[from].pc == Done {
      s' := RestRuns(trans, s, from + 1);
    } else {
      var s1 := RunsAlone(trans, s, from);
      ProcessConserves(s.balances, trans[from]);
      s' := RestRuns(trans, s1, from + 1);
      ReachesOn(trans, s, s1, s');
    }
  }

  /** Whatever conflict the sequential program can fund, some complete run does not conserve the total. */
  lemma RacingLosesMoney(balances: seq<real>, trans: seq<Transaction>, order: seq<nat>, i: nat, j: nat)
    returns (s: State)
    requires InRange(|balances|, trans) && Racing(balances, trans, order, i, j)
    ensures Reaches(trans, Init(balances, trans), s) && AllDone(s) && Total(s.balances) != Total(balances)
  {
    var s0 := Init(balances, trans);
    var s1 := RunsInTurn(balances, trans, order);
    BatchConserves(balances, Picked(trans, order));
    var s2 := Race(trans, s1, i, j);
    ReachesOn(trans, s0, s1, s2);
    s := RestRuns(trans, s2, 0);
    ReachesOn(trans, s0, s2, s);
  }

  // ---------------------------------------------------------------- the theorems

  predicate Complete(balances: seq<real>, trans: seq<Transaction>, schedule: seq<nat>)
  {
    CanRun(Init(balances, trans), trans, schedule) && AllDone(Exec(Init(balances, trans), trans, schedule))
  }

  function Final(balances: seq<real>, trans: seq<Transaction>, schedule: seq<nat>): State
    requires Complete(balances, trans, schedule)
  {
    Exec(Init(balances, trans), trans, schedule)
  }

  /** The batch in any order is what some complete run does: the threads one after the other. */
  lemma EveryOrderHappens(balances: seq<real>, trans: seq<Transaction>, order: seq<nat>)
    returns (schedule: seq<nat>)
    requires InRange(|balances|, trans) && IsOrder(order, |trans|) && forall i | 0 <= i < |trans| :: i in order
    ensures Complete(balances, trans, schedule)
    ensures IsBatchIn(balances, trans, Final(balances, trans, schedule), order)
  {
    var s := RunsInTurn(balances, trans, order);
    schedule :| CanRun(Init(balances, trans), trans, schedule) && Exec(Init(balances, trans), trans, schedule) == s;
  }

  /** A funded conflict is a race that some complete run loses. */
  lemma RaceIsLost(balances: seq<real>, trans: seq<Transaction>) returns (schedule: seq<nat>)
    requires InRange(|balances|, trans) && !RaceFree(balances, trans)
    ensures Complete(balances, trans, schedule) && Total(Final(balances, trans, schedule).balances) != Total(balances)
  {
    var order, i, j :| Racing(balances, trans, order, i, j);
    var s := RacingLosesMoney(balances, trans, order, i, j);
    schedule :| CanRun(Init(balances, trans), trans, schedule) && Exec(Init(balances, trans), trans, schedule) == s;
  }

  /** Every complete run conserves the total exactly when the sequential program never funds a conflict. */
  lemma {:induction false} ConservesIff(balances: seq<real>, trans: seq<Transaction>)
    requires InRange(|balances|, trans) && NonNegativeAmounts(trans)
    ensures (forall schedule | Complete(balances, trans, schedule) ::
               Total(Final(balances, trans, schedule).balances) == Total(balances))
      <==> RaceFree(balances, trans)
  {
    if RaceFree(balances, trans) {
      forall schedule | Complete(balances, trans, schedule)
        ensures Total(Final(balances, trans, schedule).balances) == Total(balances)
      {
        RaceFreeIsSerial(balances, trans, schedule);
      }
    } else {
      var schedule := RaceIsLost(balances, trans);
    }
  }

  /** Every complete run is a batch in some order, codes included, under exactly the same condition. */
  lemma SerialIff(balances: seq<real>, trans: seq<Transaction>)
    requires InRange(|balances|, trans) && NonNegativeAmounts(trans)
    ensures (forall schedule | Complete(balances, trans, schedule) ::
               IsSomeBatch(balances, trans, Final(balances, trans, schedule)))
      <==> RaceFree(balances, trans)
  {
    if RaceFree(balances, trans) {
      forall schedule | Complete(balances, trans, schedule)
        ensures IsSomeBatch(balances, trans, Final(balances, trans, schedule))
      {
        RaceFreeIsSerial(balances, trans, schedule);
      }
    } else {
      var schedule := RaceIsLost(balances, trans);
      var s := Final(balances, trans, schedule);
      forall order | IsBatchIn(balances, trans, s, order) ensures false {
        BatchConserves(balances, Picked(trans, order));
      }
    }
  }

  predicate AllFunded(balances: seq<real>, trans: seq<Transaction>)
    requires InRange(|balances|, trans)
  {
    forall i | 0 <= i < |trans| :: Funded(balances, trans[i]) && trans[i].dollars > 0.0
  }

  /** With every transaction funded from the start, race-free is disjoint. */
  lemma FundedRaceFree(balances: seq<real>, trans: seq<Transaction>)
    requires InRange(|balances|, trans) && AllFunded(balances, trans)
    ensures RaceFree(balances, trans) <==> Disjoint(trans)
  {
    if RaceFree(balances, trans) {
      forall i, j | 0 <= i < |trans| && 0 <= j < |trans| && i != j ensures Apart(trans[i], trans[j]) {
        assert InTurn(balances, trans, []) == balances;
        assert !Racing(balances, trans, [], i, j);
      }
    }
  }

  /** Then every complete run conserves the total, and is the batch in the given order, exactly for disjoint accounts. */
  lemma {:induction false} FundedBatchIff(balances: seq<real>, trans: seq<Transaction>)
    requires InRange(|balances|, trans) && AllFunded(balances, trans)
    ensures (forall schedule | Complete(balances, trans, schedule) ::
               Total(Final(balances, trans, schedule).balances) == Total(balances))
      <==> Disjoint(trans)
    ensures (forall schedule | Complete(balances, trans, schedule) ::
               Final(balances, trans, schedule).balances == Batch(balances, trans))
      <==> Disjoint(trans)
  {
    FundedRaceFree(balances, trans);
    ConservesIff(balances, trans);
    BatchConserves(balances, trans);
    if Disjoint(trans) {
      forall schedule | Complete(balances, trans, schedule)
        ensures Final(balances, trans, schedule).balances == Batch(balances, trans)
      {
        InterleavingIsBatch(balances, trans, schedule);
      }
    }
  }

  /** Two funded withdrawals from one account: some complete run creates the amount of the second. */
  lemma LostUpdate(balances: seq<real>, trans: seq<Transaction>, i: nat, j: nat) returns (schedule: seq<nat>)
    requires InRange(|balances|, trans) && i < |trans| && j < |trans| && i != j && trans[i].from == trans[j].from
    requires Funded(balances, trans[i]) && Funded(balances, trans[j])
    ensures Complete(balances, trans, schedule)
    ensures Total(Final(balances, trans, schedule).balances) == Total(balances) + trans[j].dollars
  {
    var s0 := Init(balances, trans);
    var s1 := BothEnter(trans, s0, i, j);
    var s2 := SameSource(trans, s1, i, j);
    PairOn(trans, s0, s1, s2, i, j);
    var s3 := BothLeave(trans, s2, i, j);
    PairOn(trans, s0, s2, s3, i, j);
    var s4 := RestRuns(trans, s3, 0);
    ReachesOn(trans, s0, s3, s4);
    schedule :| CanRun(s0, trans, schedule) && Exec(s0, trans, schedule) == s4;
  }
}
