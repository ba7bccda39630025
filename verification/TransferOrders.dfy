/**
 * Transactions of ch04/critical-section.c that share accounts: as long as no two of them can
 * be funded together and conflict, every interleaving is a batch in some order.
 */
module TransferOrders {
  import opened Transfers

  /** Two transactions that share an account, not both about nothing. */
  predicate Conflict(x: Transaction, y: Transaction)
  {
    !Apart(x, y) && (x.dollars != 0.0 || y.dollars != 0.0)
  }

  /** Some of `n` transactions, each at most once. */
  predicate IsOrder(order: seq<nat>, n: nat)
  {
    && (forall k | 0 <= k < |order| :: order[k] < n)
    && forall a, b | 0 <= a < b < |order| :: order[a] != order[b]
  }

  function Picked(trans: seq<Transaction>, order: seq<nat>): (r: seq<Transaction>)
    requires IsOrder(order, |trans|)
    ensures |r| == |order| && forall k | 0 <= k < |order| :: r[k] == trans[order[k]]
  {
    seq(|order|, k requires 0 <= k < |order| => trans[order[k]])
  }

  /** The balances after these transactions, one after the other. */
  function InTurn(balances: seq<real>, trans: seq<Transaction>, order: seq<nat>): (r: seq<real>)
    requires InRange(|balances|, trans) && IsOrder(order, |trans|)
    ensures |r| == |balances|
  {
    Batch(balances, Picked(trans, order))
  }

  /** After some of the others in turn, `i` and `j` are both funded, and they conflict. */
  predicate Racing(balances: seq<real>, trans: seq<Transaction>, order: seq<nat>, i: nat, j: nat)
    requires InRange(|balances|, trans)
  {
    && i < |trans| && j < |trans| && i != j && Conflict(trans[i], trans[j])
    && IsOrder(order, |trans|) && i !in order && j !in order
    && Funded(InTurn(balances, trans, order), trans[i]) && Funded(InTurn(balances, trans, order), trans[j])
  }

  /** What a caller can check on the sequential program: no order of some transactions leads to a race of two others. */
  ghost predicate RaceFree(balances: seq<real>, trans: seq<Transaction>)
    requires InRange(|balances|, trans)
  {
    forall order, i, j :: !Racing(balances, trans, order, i, j)
  }

  predicate NonNegativeAmounts(trans: seq<Transaction>) { forall i | 0 <= i < |trans| :: trans[i].dollars >= 0.0 }

  lemma TurnAppend(balances: seq<real>, trans: seq<Transaction>, order: seq<nat>, i: nat)
    requires InRange(|balances|, trans) && IsOrder(order, |trans|) && i < |trans| && i !in order
    ensures IsOrder(order + [i], |trans|)
    ensures InTurn(balances, trans, order + [i]) == Process(InTurn(balances, trans, order), trans[i])
    ensures forall k | 0 <= k < |order| ::
      BatchCode(balances, Picked(trans, order + [i]), k) == BatchCode(balances, Picked(trans, order), k)
    ensures BatchCode(balances, Picked(trans, order + [i]), |order|) ==
      if Funded(InTurn(balances, trans, order), trans[i]) then 0 else 1
  {
    var all := Picked(trans, order + [i]);
    assert all[..|order|] == Picked(trans, order);
    forall k | 0 <= k < |order| ensures BatchCode(balances, all, k) == BatchCode(balances, Picked(trans, order), k) {
      assert all[..k] == Picked(trans, order)[..k];
    }
  }

  // ---------------------------------------------------------------- every state is a batch in the making

  /** Past its funds test and before its last store to a balance. */
  predicate Active(pc: Pc)
  {
    pc.WaitFrom? || pc.WaitTo? || pc.SetTo? || pc.SetFrom? || pc.LoadFrom? || pc.StoreFrom? || pc.LoadTo? || pc.StoreTo?
  }

  /** Has done to the balances all it will. */
  predicate Settled(pc: Pc) { pc.ClearTo? || pc.ClearFrom? || pc.Done? }

  /** An active thread is funded, and sees on its accounts what it would see alone after `base`. */
  predicate Sees(base: seq<real>, tr: Transaction, s: State, th: Thread)
  {
    && |s.balances| == |base| && tr.from < |base| && tr.to < |base|
    && s.balances[tr.from] == Expected(base, tr, th)[tr.from]
    && s.balances[tr.to] == Expected(base, tr, th)[tr.to]
    && (th.pc == StoreFrom ==> th.temp == base[tr.from])
    && (th.pc == StoreTo ==> th.temp == s.balances[tr.to])
    && Funded(base, tr)
  }

  /** No active transaction uses the account. */
  predicate Quiet(trans: seq<Transaction>, s: State, a: nat)
    requires Shaped(s, trans)
  {
    forall i | 0 <= i < |trans| && Active(s.threads[i].pc) :: !Uses(trans[i], a)
  }

  predicate ActiveInv(trans: seq<Transaction>, s: State, base: seq<real>)
    requires Shaped(s, trans)
  {
    && |s.balances| == |base|
    && (forall i | 0 <= i < |trans| && Active(s.threads[i].pc) :: Sees(base, trans[i], s, s.threads[i]))
    && (forall i, j | 0 <= i < |trans| && 0 <= j < |trans| && i != j && Active(s.threads[i].pc) && Active(s.threads[j].pc) ::
          !Conflict(trans[i], trans[j]))
    && forall a | 0 <= a < |base| && Quiet(trans, s, a) :: s.balances[a] == base[a]
  }

  /** The code a settled thread returns, or is going to. */
  function CodeOf(th: Thread): int { if th.pc == Done then th.ret else 0 }

  /** `order` lists the settled threads, each with the code it has in that batch. */
  predicate OrderInv(balances: seq<real>, trans: seq<Transaction>, s: State, order: seq<nat>)
    requires Shaped(s, trans) && |s.balances| == |balances|
  {
    && IsOrder(order, |trans|)
    && (forall i | 0 <= i < |trans| :: Settled(s.threads[i].pc) <==> i in order)
    && forall k | 0 <= k < |order| :: CodeOf(s.threads[order[k]]) == BatchCode(balances, Picked(trans, order), k)
  }

  predicate Serial(balances: seq<real>, trans: seq<Transaction>, s: State, order: seq<nat>)
  {
    && Shaped(s, trans) && |s.balances| == |balances|
    && OrderInv(balances, trans, s, order) && ActiveInv(trans, s, InTurn(balances, trans, order))
  }

  /** No balance is above what the settled threads made it: the active ones only withdraw. */
  lemma NotAbove(trans: seq<Transaction>, s: State, base: seq<real>, a: nat)
    requires Shaped(s, trans) && ActiveInv(trans, s, base) && NonNegativeAmounts(trans) && a < |base|
    ensures s.balances[a] <= base[a]
    ensures (forall i | 0 <= i < |trans| && Active(s.threads[i].pc) :: trans[i].from == a ==> trans[i].dollars == 0.0)
      ==> s.balances[a] >= base[a]
  {
    if i :| 0 <= i < |trans| && Active(s.threads[i].pc) && Uses(trans[i], a) {
      assert Sees(base, trans[i], s, s.threads[i]);
    } else {
      assert Quiet(trans, s, a);
    }
  }

  /** An active thread does not disturb another that it does not conflict with. */
  lemma Bystander(trans: seq<Transaction>, s: State, base: seq<real>, i: nat, a: nat)
    requires Enabled(s, trans, i) && ActiveInv(trans, s, base) && Active(s.threads[i].pc) && a < |base|
    requires Uses(trans[i], a) ==> trans[i].dollars == 0.0
    ensures |Step(s, trans, i).balances| == |base| && Step(s, trans, i).balances[a] == s.balances[a]
    ensures Moved(base, trans[i])[a] == base[a]
  {
    assert Sees(base, trans[i], s, s.threads[i]);
  }

  /** What a transaction makes of the balances its neighbours see. */
  lemma OthersSee(trans: seq<Transaction>, s: State, base: seq<real>, i: nat, j: nat)
    requires Enabled(s, trans, i) && ActiveInv(trans, s, base) && Active(s.threads[i].pc)
    requires j < |trans| && j != i && Active(s.threads[j].pc)
    ensures Sees(base, trans[j], Step(s, trans, i), s.threads[j])
    ensures Sees(Moved(base, trans[i]), trans[j], Step(s, trans, i), s.threads[j])
  {
    assert !Conflict(trans[i], trans[j]);
    assert Sees(base, trans[j], s, s.threads[j]);
    Bystander(trans, s, base, i, trans[j].from);
    Bystander(trans, s, base, i, trans[j].to);
  }

  /** Up to its first store to the target, an active thread leaves the batch as it is. */
  lemma ActiveStep(trans: seq<Transaction>, s: State, base: seq<real>, i: nat)
    requires Enabled(s, trans, i) && ActiveInv(trans, s, base) && Active(s.threads[i].pc) && s.threads[i].pc != StoreTo
    ensures Shaped(Step(s, trans, i), trans) && ActiveInv(trans, Step(s, trans, i), base)
  {
    var s' := Step(s, trans, i);
    StepIsLocal(trans, s, i);
    assert Sees(base, trans[i], s, s.threads[i]);
    forall j | 0 <= j < |trans| && Active(s'.threads[j].pc) ensures Sees(base, trans[j], s', s'.threads[j]) {
      if j != i {
        OthersSee(trans, s, base, i, j);
      }
    }
    forall a | 0 <= a < |base| && Quiet(trans, s', a) ensures s'.balances[a] == base[a] {
      assert Active(s'.threads[i].pc) && !Uses(trans[i], a);
      assert Quiet(trans, s, a);
    }
  }

  /** With its last store a transaction joins the batch. */
  lemma SettlingStep(trans: seq<Transaction>, s: State, base: seq<real>, i: nat)
    requires Enabled(s, trans, i) && ActiveInv(trans, s, base) && s.threads[i].pc == StoreTo
    ensures Shaped(Step(s, trans, i), trans) && ActiveInv(trans, Step(s, trans, i), Moved(base, trans[i]))
    ensures Funded(base, trans[i])
  {
    var s' := Step(s, trans, i);
    var base' := Moved(base, trans[i]);
    StepIsLocal(trans, s, i);
    assert Sees(base, trans[i], s, s.threads[i]);
    forall j | 0 <= j < |trans| && Active(s'.threads[j].pc) ensures Sees(base', trans[j], s', s'.threads[j]) {
      OthersSee(trans, s, base, i, j);
    }
    forall a | 0 <= a < |base'| && Quiet(trans, s', a) ensures s'.balances[a] == base'[a] {
      if !Uses(trans[i], a) {
        assert Quiet(trans, s, a);
      }
    }
  }

  /** A thread that only moves on between two settled places, or to its end unfunded, leaves the active ones alone. */
  lemma IdleStep(trans: seq<Transaction>, s: State, base: seq<real>, i: nat)
    requires Enabled(s, trans, i) && ActiveInv(trans, s, base)
    requires !Active(s.threads[i].pc) && !Active(Step(s, trans, i).threads[i].pc)
    ensures Shaped(Step(s, trans, i), trans) && ActiveInv(trans, Step(s, trans, i), base)
  {
    var s' := Step(s, trans, i);
    assert s'.balances == s.balances;
    assert forall j | 0 <= j < |trans| :: Active(s'.threads[j].pc) ==> Active(s.threads[j].pc) && s'.threads[j] == s.threads[j];
    forall j | 0 <= j < |trans| && Active(s'.threads[j].pc) ensures Sees(base, trans[j], s', s'.threads[j]) {
      assert Sees(base, trans[j], s, s.threads[j]);
    }
    forall a | 0 <= a < |base| && Quiet(trans, s', a) ensures s'.balances[a] == base[a] {
      assert Quiet(trans, s, a);
    }
  }

  /** A thread that passes its funds test is funded in the batch, and conflicts with no active one. */
  lemma Admitted(balances: seq<real>, trans: seq<Transaction>, s: State, order: seq<nat>, i: nat)
    requires Serial(balances, trans, s, order) && RaceFree(balances, trans) && NonNegativeAmounts(trans)
    requires i < |trans| && s.threads[i].pc == CheckFunds
    ensures var base := InTurn(balances, trans, order);
      && (Funded(base, trans[i]) <==> Funded(s.balances, trans[i]))
      && (Funded(base, trans[i]) ==> forall j | 0 <= j < |trans| && Active(s.threads[j].pc) :: !Conflict(trans[i], trans[j]))
  {
    var base := InTurn(balances, trans, order);
    NotAbove(trans, s, base, trans[i].from);
    if Funded(base, trans[i]) {
      forall j | 0 <= j < |trans| && Active(s.threads[j].pc) ensures !Conflict(trans[i], trans[j]) {
        assert Sees(base, trans[j], s, s.threads[j]);
        assert !Racing(balances, trans, order, i, j);
      }
      forall j | 0 <= j < |trans| && Active(s.threads[j].pc) ensures trans[j].from == trans[i].from ==> trans[j].dollars == 0.0 {
        assert !Conflict(trans[i], trans[j]);
      }
    }
  }

  lemma AdmittedStep(balances: seq<real>, trans: seq<Transaction>, s: State, order: seq<nat>, i: nat)
    requires Serial(balances, trans, s, order) && RaceFree(balances, trans) && NonNegativeAmounts(trans)
    requires Enabled(s, trans, i) && s.threads[i].pc == CheckFunds && Funded(s.balances, trans[i])
    ensures ActiveInv(trans, Step(s, trans, i), InTurn(balances, trans, order))
  {
    var s', base := Step(s, trans, i), InTurn(balances, trans, order);
    Admitted(balances, trans, s, order, i);
    forall a | 0 <= a < |base| && Uses(trans[i], a) ensures s.balances[a] == base[a] {
      if j :| 0 <= j < |trans| && Active(s.threads[j].pc) && Uses(trans[j], a) {
        assert Sees(base, trans[j], s, s.threads[j]) && !Conflict(trans[i], trans[j]);
      } else {
        assert Quiet(trans, s, a);
      }
    }
    forall j | 0 <= j < |trans| && Active(s'.threads[j].pc) ensures Sees(base, trans[j], s', s'.threads[j]) {
      assert j != i ==> Sees(base, trans[j], s, s.threads[j]);
    }
    forall a | 0 <= a < |base| && Quiet(trans, s', a) ensures s'.balances[a] == base[a] {
      assert forall j | 0 <= j < |trans| && Active(s.threads[j].pc) :: s'.threads[j] == s.threads[j];
      assert Quiet(trans, s, a);
    }
  }

  /** A settled thread stays settled, and its code is fixed. */
  lemma CodeStays(trans: seq<Transaction>, s: State, i: nat, j: nat)
    requires Enabled(s, trans, i) && j < |trans| && Settled(s.threads[j].pc)
    ensures var s' := Step(s, trans, i);
      |s'.threads| == |trans| && Settled(s'.threads[j].pc) && CodeOf(s'.threads[j]) == CodeOf(s.threads[j])
  {}

  lemma OthersSettled(trans: seq<Transaction>, s: State, i: nat, order: seq<nat>, order': seq<nat>)
    requires Enabled(s, trans, i) && IsOrder(order, |trans|)
    requires forall j | 0 <= j < |trans| :: Settled(s.threads[j].pc) <==> j in order
    requires order' == if Settled(s.threads[i].pc) == Settled(Step(s, trans, i).threads[i].pc) then order else order + [i]
    ensures |Step(s, trans, i).threads| == |trans|
    ensures forall j | 0 <= j < |trans| :: Settled(Step(s, trans, i).threads[j].pc) <==> j in order'
    ensures forall k | 0 <= k < |order| :: CodeOf(Step(s, trans, i).threads[order[k]]) == CodeOf(s.threads[order[k]])
  {
    var s' := Step(s, trans, i);
    assert i !in order ==> Settled(s'.threads[i].pc) == (i in order');
    forall j | 0 <= j < |trans| ensures Settled(s'.threads[j].pc) <==> j in order' {
      if j != i {
        assert s'.threads[j] == s.threads[j];
      } else if j in order {
        CodeStays(trans, s, i, j);
      }
    }
    forall k | 0 <= k < |order| ensures CodeOf(s'.threads[order[k]]) == CodeOf(s.threads[order[k]]) {
      assert order[k] in order;
      CodeStays(trans, s, i, order[k]);
    }
  }

  /** One more settled thread, with the code it has at the end of the batch. */
  lemma CodesGrow(balances: seq<real>, trans: seq<Transaction>, before: seq<Thread>, after: seq<Thread>, order: seq<nat>, i: nat)
    requires InRange(|balances|, trans) && IsOrder(order, |trans|) && i < |trans| && i !in order
    requires |before| == |after| == |trans|
    requires forall k | 0 <= k < |order| :: CodeOf(before[order[k]]) == BatchCode(balances, Picked(trans, order), k)
    requires forall k | 0 <= k < |order| :: CodeOf(after[order[k]]) == CodeOf(before[order[k]])
    requires CodeOf(after[i]) == if Funded(InTurn(balances, trans, order), trans[i]) then 0 else 1
    ensures IsOrder(order + [i], |trans|)
    ensures forall k | 0 <= k < |order + [i]| ::
      CodeOf(after[(order + [i])[k]]) == BatchCode(balances, Picked(trans, order + [i]), k)
  {
    TurnAppend(balances, trans, order, i);
    forall k | 0 <= k < |order + [i]|
      ensures CodeOf(after[(order + [i])[k]]) == BatchCode(balances, Picked(trans, order + [i]), k)
    {
      assert k < |order| ==> (order + [i])[k] == order[k];
    }
  }

  /** The order grows by the thread that settles. */
  lemma OrderGrows(balances: seq<real>, trans: seq<Transaction>, s: State, order: seq<nat>, i: nat)
    requires Shaped(s, trans) && |s.balances| == |balances| && OrderInv(balances, trans, s, order) && Enabled(s, trans, i)
    requires !Settled(s.threads[i].pc) && Settled(Step(s, trans, i).threads[i].pc)
    requires CodeOf(Step(s, trans, i).threads[i]) == if Funded(InTurn(balances, trans, order), trans[i]) then 0 else 1
    ensures Shaped(Step(s, trans, i), trans) && |Step(s, trans, i).balances| == |balances|
    ensures OrderInv(balances, trans, Step(s, trans, i), order + [i])
  {
    StepIsLocal(trans, s, i);
    OthersSettled(trans, s, i, order, order + [i]);
    CodesGrow(balances, trans, s.threads, Step(s, trans, i).threads, order, i);
  }

  /** The order stays when no thread settles. */
  lemma OrderStays(balances: seq<real>, trans: seq<Transaction>, s: State, order: seq<nat>, i: nat)
    requires Shaped(s, trans) && |s.balances| == |balances| && OrderInv(balances, trans, s, order) && Enabled(s, trans, i)
    requires Settled(s.threads[i].pc) <==> Settled(Step(s, trans, i).threads[i].pc)
    ensures Shaped(Step(s, trans, i), trans) && |Step(s, trans, i).balances| == |balances|
    ensures OrderInv(balances, trans, Step(s, trans, i), order)
  {
    StepIsLocal(trans, s, i);
    OthersSettled(trans, s, i, order, order);
  }

  lemma SerialStep(balances: seq<real>, trans: seq<Transaction>, s: State, order: seq<nat>, i: nat)
    returns (order': seq<nat>)
    requires Serial(balances, trans, s, order) && RaceFree(balances, trans) && NonNegativeAmounts(trans) && Enabled(s, trans, i)
    ensures Serial(balances, trans, Step(s, trans, i), order')
  {
    var base := InTurn(balances, trans, order);
    StepIsLocal(trans, s, i);
    if s.threads[i].pc == CheckFunds && !Funded(s.balances, trans[i]) {
      Admitted(balances, trans, s, order, i);
      IdleStep(trans, s, base, i);
      OrderGrows(balances, trans, s, order, i);
      TurnAppend(balances, trans, order, i);
      order' := order + [i];
    } else if s.threads[i].pc == StoreTo {
      SettlingStep(trans, s, base, i);
      OrderGrows(balances, trans, s, order, i);
      TurnAppend(balances, trans, order, i);
      order' := order + [i];
    } else {
      if s.threads[i].pc == CheckFunds {
        AdmittedStep(balances, trans, s, order, i);
      } else if Active(s.threads[i].pc) {
        ActiveStep(trans, s, base, i);
      } else {
        IdleStep(trans, s, base, i);
      }
      OrderStays(balances, trans, s, order, i);
      order' := order;
    }
  }

  lemma SerialRun(balances: seq<real>, trans: seq<Transaction>, s: State, order: seq<nat>, schedule: seq<nat>)
    returns (order': seq<nat>)
    requires Serial(balances, trans, s, order) && RaceFree(balances, trans) && NonNegativeAmounts(trans)
    requires CanRun(s, trans, schedule)
    ensures Serial(balances, trans, Exec(s, trans, schedule), order')
    decreases |schedule|
  {
    if schedule == [] {
      order' := order;
    } else {
      var next := SerialStep(balances, trans, s, order, schedule[0]);
      order' := SerialRun(balances, trans, Step(s, trans, schedule[0]), next, schedule[1..]);
    }
  }

  /** `s` is what the transactions make of `balances` one after the other, in some order, return codes included. */
  ghost predicate IsSomeBatch(balances: seq<real>, trans: seq<Transaction>, s: State)
    requires InRange(|balances|, trans)
  {
    exists order: seq<nat> :: IsBatchIn(balances, trans, s, order)
  }

  predicate IsBatchIn(balances: seq<real>, trans: seq<Transaction>, s: State, order: seq<nat>)
    requires InRange(|balances|, trans)
  {
    && IsOrder(order, |trans|) && (forall i | 0 <= i < |trans| :: i in order)
    && |s.threads| == |trans| && s.balances == Batch(balances, Picked(trans, order))
    && forall k | 0 <= k < |order| :: s.threads[order[k]].ret == BatchCode(balances, Picked(trans, order), k)
  }

  /** A state with every thread done is the batch its order stands for. */
  lemma EndIsBatch(balances: seq<real>, trans: seq<Transaction>, s: State, order: seq<nat>)
    requires Serial(balances, trans, s, order) && AllDone(s)
    ensures IsBatchIn(balances, trans, s, order)
  {
    var base := InTurn(balances, trans, order);
    forall i | 0 <= i < |trans| ensures s.threads[i].pc == Done {
      assert s.threads[i] in s.threads;
    }
    forall a | 0 <= a < |balances| ensures s.balances[a] == base[a] {
      assert Quiet(trans, s, a);
    }
    assert s.balances == base;
  }

  /** Without a possible race every complete interleaving is a batch in some order. */
  lemma {:induction false} RaceFreeIsSerial(balances: seq<real>, trans: seq<Transaction>, schedule: seq<nat>)
    requires InRange(|balances|, trans) && NonNegativeAmounts(trans) && RaceFree(balances, trans)
    requires CanRun(Init(balances, trans), trans, schedule) && AllDone(Exec(Init(balances, trans), trans, schedule))
    ensures var s := Exec(Init(balances, trans), trans, schedule);
      IsSomeBatch(balances, trans, s) && Total(s.balances) == Total(balances)
  {
    InitIsSerial(balances, trans);
    var order := SerialRun(balances, trans, Init(balances, trans), [], schedule);
    EndIsBatch(balances, trans, Exec(Init(balances, trans), trans, schedule), order);
    BatchConserves(balances, Picked(trans, order));
  }

  lemma InitIsSerial(balances: seq<real>, trans: seq<Transaction>)
    requires InRange(|balances|, trans)
    ensures Serial(balances, trans, Init(balances, trans), [])
  {}

  /** Lines 163-167 for a race-free batch: the arrays end as some order of the transactions leaves them. */
  method PerformInSomeOrder(accountBalances: array<real>, locks: array<int>, trans: seq<Transaction>, schedule: seq<nat>)
    returns (retVal: seq<int>, ghost order: seq<nat>)
    requires locks.Length == accountBalances.Length && forall a | 0 <= a < locks.Length :: locks[a] == 0
    requires InRange(accountBalances.Length, trans) && NonNegativeAmounts(trans) && RaceFree(accountBalances[..], trans)
    requires CanRun(Init(accountBalances[..], trans), trans, schedule)
    requires AllDone(Exec(Init(accountBalances[..], trans), trans, schedule))
    modifies accountBalances, locks
    ensures IsOrder(order, |trans|) && |retVal| == |trans| && forall i | 0 <= i < |trans| :: i in order
    ensures accountBalances[..] == Batch(old(accountBalances[..]), Picked(trans, order))
    ensures Total(accountBalances[..]) == Total(old(accountBalances[..]))
    ensures forall k | 0 <= k < |order| :: retVal[order[k]] == BatchCode(old(accountBalances[..]), Picked(trans, order), k)
  {
    RaceFreeIsSerial(accountBalances[..], trans, schedule);
    order :| IsBatchIn(accountBalances[..], trans, Exec(Init(accountBalances[..], trans), trans, schedule), order);
    var bank := new Bank(accountBalances, locks, trans);
    bank.Run(schedule);
    retVal := seq(|trans|, i requires 0 <= i < |bank.threads| reads bank => bank.threads[i].ret);
  }
}
