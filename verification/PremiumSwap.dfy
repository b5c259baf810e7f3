/**
 The swap of a closed put's premium into native coin (csp_premium_swap_ops.py) and the steps
 its executor takes with it (engine/covered_call.py:2480-2640).
 */
module PremiumSwap {
  import opened Common

  const DUST: real := 1.0

  datatype Status = Unset | Pending | Submitted | Failed | Filled | Skipped

  datatype Row = Row(
    cashSecured: bool,
    closed: bool,
    waiting: bool,
    credit: Option<real>,
    debit: Option<real>,
    fee: Option<real>,
    status: Status,
    amount: real,
    native: real)

  function Realized(r: Row): real {
    if !r.closed || r.credit.GetOr(0.0) <= 0.0 then 0.0
    else Max(r.credit.value - Max(r.debit.GetOr(0.0), 0.0) - Max(r.fee.GetOr(0.0), 0.0), 0.0)
  }

  predicate Terminal(s: Status) {
    s == Filled || s == Skipped
  }

  predicate Queued(s: Status) {
    s == Pending || s == Submitted || s == Unset
  }

  /** A queued row that still holds its target: older journals stored it where the spending goes. */
  predicate Stashed(r: Row) {
    Queued(r.status) && Realized(r) > 0.0 && r.amount == Realized(r)
  }

  function Spent(r: Row): real {
    if r.amount <= 0.0 || Stashed(r) then 0.0 else r.amount
  }

  function Remaining(r: Row): real {
    var remaining := Realized(r) - Spent(r);
    if remaining <= DUST then 0.0 else remaining
  }

  function Leftover(r: Row): real {
    Max(Realized(r) - Spent(r), 0.0)
  }

  predicate Ready(r: Row) {
    && r.cashSecured && !Terminal(r.status) && r.status != Submitted && r.closed && !r.waiting
    && Realized(r) > 0.0 && Remaining(r) > 0.0
  }

  // ---- What each operation makes of a row ----

  function Scheduled(r: Row): Row {
    if Terminal(r.status) || r.status == Submitted || !r.closed || r.waiting then r
    else if Remaining(r) > 0.0 then r.(status := Pending)
    else r.(status := if Realized(r) > 0.0 then Filled else Skipped)
  }

  function AfterFill(r: Row, spent: real, native: real): Row {
    var total := Spent(r) + Max(spent, 0.0);
    var leftover := Max(Realized(r) - total, 0.0);
    r.(amount := total,
       native := if native > 0.0 then Max(r.native, 0.0) + native else r.native,
       status := if leftover <= DUST then Filled else Pending)
  }

  function DustDone(r: Row): Row {
    r.(status := if r.native > 0.0 || Spent(r) > 0.0 then Filled else Skipped)
  }

  /** What scheduling returns. */
  function Budget(r: Row): real {
    if Terminal(r.status) || r.status == Submitted || !r.closed || r.waiting then 0.0 else Remaining(r)
  }

  class Group {
    const cashSecured: bool
    const closed: bool
    var waiting: bool
    const credit: Option<real>
    const debit: Option<real>
    const fee: Option<real>
    var status: Status
    var amount: real
    var native: real

    constructor (r: Row)
      ensures Journal() == r
    {
      cashSecured, closed, waiting := r.cashSecured, r.closed, r.waiting;
      credit, debit, fee := r.credit, r.debit, r.fee;
      status, amount, native := r.status, r.amount, r.native;
    }

    function Journal(): Row
      reads this
    {
      Row(cashSecured, closed, waiting, credit, debit, fee, status, amount, native)
    }

    method ScheduleSwap() returns (remaining: real)
      modifies this`status
      ensures Journal() == Scheduled(old(Journal()))
      ensures remaining == Budget(old(Journal()))
    {
      if Terminal(status) || status == Submitted || !closed || waiting {
        return 0.0;
      }
      remaining := Remaining(Journal());
      if remaining <= 0.0 {
        status := if Realized(Journal()) > 0.0 then Filled else Skipped;
        return 0.0;
      }
      status := Pending;
    }

    method ApplyFill(spentUsdc: real, nativeBought: real) returns (remaining: real)
      modifies this`status, this`amount, this`native
      ensures Journal() == AfterFill(old(Journal()), spentUsdc, nativeBought)
      ensures remaining == var left := Realized(Journal()) - amount; if left <= DUST then 0.0 else left
    {
      var total := Spent(Journal()) + Max(spentUsdc, 0.0);
      amount := total;
      if nativeBought > 0.0 {
        native := Max(native, 0.0) + nativeBought;
      }
      var leftover := Max(Realized(Journal()) - total, 0.0);
      remaining := if leftover <= DUST then 0.0 else leftover;
      status := if remaining <= 0.0 then Filled else Pending;
    }

    method MarkDustComplete()
      modifies this`status
      ensures Journal() == DustDone(old(Journal()))
    {
      status := if native > 0.0 || Spent(Journal()) > 0.0 then Filled else Skipped;
    }
  }

  // ---- Steps ----

  /** `Wait` is the cover restore starting or ending; `Keep` an order that stays open without a fill. */
  datatype Step =
    | Wait(waiting: bool)
    | Schedule
    | Submit
    | Fail
    | Keep
    | Finish
    | Dust
    | Fill(spent: real, native: real)

  /** When the executor takes the step; fills and dust marks may come at any time. */
  predicate Enabled(r: Row, step: Step) {
    match step
    case Submit => r.status == Pending && Remaining(r) > 0.0
    case Keep => Queued(r.status) && Remaining(r) > 0.0
    case Fail => r.status == Submitted
    case Finish => Realized(r) > 0.0 && Remaining(r) <= 0.0
    case _ => true
  }

  function After(r: Row, step: Step): Row {
    match step
    case Wait(w) => r.(waiting := w)
    case Schedule => Scheduled(r)
    case Submit => r.(status := Submitted)
    case Fail => r.(status := Failed)
    case Keep => r.(status := Pending)
    case Finish => r.(status := Filled)
    case Dust => DustDone(r)
    case Fill(spent, native) => AfterFill(r, spent, native)
  }

  function FilledBy(step: Step): real {
    if step.Fill? then Max(step.spent, 0.0) else 0.0
  }

  lemma SameClosedResult(r: Row, step: Step)
    ensures Realized(After(r, step)) == Realized(r)
  {
  }

  /** The steps that take a row out of the queue without a fill. */
  predicate LeavesQueue(r: Row, step: Step) {
    match step
    case Fail => true
    case Dust => true
    case Finish => true
    case Schedule => r.status != Submitted && r.closed && !r.waiting && Remaining(r) <= 0.0
    case _ => false
  }

  /**
   For every row and step: the spending read back grows by exactly the fill, unless the row holds
   an old target and leaves the queue unfilled; then the whole target reads as spent.
   */
  lemma ReadsBackExactly(r: Row, step: Step)
    requires Enabled(r, step)
    ensures Spent(After(r, step)) == Spent(r) + FilledBy(step) <==> !(Stashed(r) && LeavesQueue(r, step))
    ensures Stashed(r) && LeavesQueue(r, step) ==> Spent(r) == 0.0 && Spent(After(r, step)) == Realized(r) && Leftover(After(r, step)) == 0.0
  {
    SameClosedResult(r, step);
    if step.Fill? {
      var a := AfterFill(r, step.spent, step.native);
      assert !Stashed(a);
    }
  }

  // ---- Runs ----

  function FilledTotal(steps: seq<Step>): real {
    if steps == [] then 0.0 else FilledBy(steps[0]) + FilledTotal(steps[1..])
  }

  predicate Run(r: Row, steps: seq<Step>)
    decreases |steps|
  {
    steps == [] || (Enabled(r, steps[0]) && Run(After(r, steps[0]), steps[1..]))
  }

  function End(r: Row, steps: seq<Step>): Row
    decreases |steps|
  {
    if steps == [] then r else End(After(r, steps[0]), steps[1..])
  }

  /** Nothing spent, or the row is out of the queue, or more than dust is still to spend. */
  predicate Accurate(r: Row) {
    r.amount >= 0.0 && (Queued(r.status) ==> r.amount == 0.0 || Realized(r) - r.amount > DUST)
  }

  lemma StepStaysAccurate(r: Row, step: Step)
    requires Accurate(r) && Enabled(r, step)
    ensures Accurate(After(r, step)) && Spent(After(r, step)) == Spent(r) + FilledBy(step)
    ensures Spent(r) == r.amount && !Stashed(r)
  {
    SameClosedResult(r, step);
  }

  /** From a fresh row, after any steps, the spending read back is the sum of all fills. */
  lemma {:induction false} SpentIsSumOfFills(r: Row, steps: seq<Step>)
    requires Accurate(r) && Run(r, steps)
    ensures Accurate(End(r, steps)) && Realized(End(r, steps)) == Realized(r)
    ensures Spent(End(r, steps)) == Spent(r) + FilledTotal(steps) && !Stashed(End(r, steps))
    decreases |steps|
  {
    if steps == [] {
      StepStaysAccurate(r, Wait(r.waiting));
    } else {
      StepStaysAccurate(r, steps[0]);
      SameClosedResult(r, steps[0]);
      SpentIsSumOfFills(After(r, steps[0]), steps[1..]);
    }
  }

  /** The executor's discipline: a fill answers a queued order and stays within what remained. */
  predicate Disciplined(r: Row, step: Step) {
    Enabled(r, step) && (step.Fill? ==> Queued(r.status) && FilledBy(step) <= Remaining(r)) && (step.Finish? ==> !Terminal(r.status))
  }

  predicate DisciplinedRun(r: Row, steps: seq<Step>)
    decreases |steps|
  {
    steps == [] || (Disciplined(r, steps[0]) && DisciplinedRun(After(r, steps[0]), steps[1..]))
  }

  /** No premium is spent twice: spending never passes the realized premium, and the rest is the leftover. */
  lemma {:induction false} NeverOverspent(r: Row, steps: seq<Step>)
    requires Accurate(r) && Spent(r) <= Realized(r) && DisciplinedRun(r, steps)
    ensures Spent(r) + FilledTotal(steps) <= Realized(r)
    ensures var end := End(r, steps);
            Spent(end) == Spent(r) + FilledTotal(steps) && Spent(end) + Leftover(end) == Realized(r)
    decreases |steps|
  {
    if steps == [] {
      StepStaysAccurate(r, Wait(r.waiting));
    } else {
      StepStaysAccurate(r, steps[0]);
      SameClosedResult(r, steps[0]);
      NeverOverspent(After(r, steps[0]), steps[1..]);
    }
  }

  /** A finished swap is never queued again, and nothing more is spent on it. */
  lemma {:induction false} TerminalStaysTerminal(r: Row, steps: seq<Step>)
    requires Terminal(r.status) && DisciplinedRun(r, steps)
    ensures Terminal(End(r, steps).status) && FilledTotal(steps) == 0.0
    decreases |steps|
  {
    if steps != [] {
      TerminalStaysTerminal(After(r, steps[0]), steps[1..]);
    }
  }

  /** A fill that comes after the end re-opens the swap exactly when more than dust is still unspent. */
  lemma LateFillReopensExactly(r: Row, spent: real, native: real)
    requires Terminal(r.status)
    ensures !Terminal(AfterFill(r, spent, native).status) <==> Realized(r) - Spent(r) - Max(spent, 0.0) > DUST
  {
  }

  /** The readiness check passes exactly when scheduling would queue something, and what it queues is all there is to spend. */
  lemma ReadyIsSchedulable(r: Row)
    requires r.cashSecured
    ensures Ready(r) <==> Budget(r) > 0.0
    ensures Budget(r) > 0.0 ==> Scheduled(r).status == Pending && Remaining(Scheduled(r)) == Budget(r) == Leftover(r)
    ensures Budget(r) <= Realized(r)
  {
  }

  /** Scheduling with nothing left to spend ends the swap: filled when there was a premium, skipped when there was none. */
  lemma NothingLeftIsTerminal(r: Row)
    requires !Terminal(r.status) && r.status != Submitted && r.closed && !r.waiting && Remaining(r) <= 0.0
    ensures Terminal(Scheduled(r).status) && (Scheduled(r).status == Filled <==> Realized(r) > 0.0)
  {
  }

  function BoughtBy(step: Step): real {
    if step.Fill? then Max(step.native, 0.0) else 0.0
  }

  function BoughtTotal(steps: seq<Step>): real {
    if steps == [] then 0.0 else BoughtBy(steps[0]) + BoughtTotal(steps[1..])
  }

  /** A skipped row bought nothing; without a premium anything bought has filled it. */
  predicate HonestEnd(r: Row) {
    && r.amount >= 0.0 && r.native >= 0.0
    && (r.status == Skipped ==> r.amount == 0.0 == r.native)
    && (Realized(r) <= 0.0 && (r.amount > 0.0 || r.native > 0.0) ==> r.status == Filled)
  }

  lemma StepStaysHonest(r: Row, step: Step)
    requires Accurate(r) && HonestEnd(r) && Enabled(r, step)
    ensures HonestEnd(After(r, step)) && After(r, step).native == r.native + BoughtBy(step)
  {
    SameClosedResult(r, step);
    StepStaysAccurate(r, step);
  }

  /** Over any run the coin recorded is the coin bought, and a swap that ends skipped never bought any or spent anything. */
  lemma {:induction false} BoughtIsSumOfFills(r: Row, steps: seq<Step>)
    requires Accurate(r) && HonestEnd(r) && Run(r, steps)
    ensures HonestEnd(End(r, steps)) && End(r, steps).native == r.native + BoughtTotal(steps)
    ensures End(r, steps).status == Skipped ==> r.amount + FilledTotal(steps) == 0.0 && r.native + BoughtTotal(steps) == 0.0
    decreases |steps|
  {
    SpentIsSumOfFills(r, steps);
    StepStaysAccurate(r, Wait(r.waiting));
    if steps == [] {
    } else {
      StepStaysHonest(r, steps[0]);
      StepStaysAccurate(r, steps[0]);
      SameClosedResult(r, steps[0]);
      BoughtIsSumOfFills(After(r, steps[0]), steps[1..]);
      StepStaysAccurate(After(r, steps[0]), Wait(r.waiting));
    }
  }

  /** A fresh premium above dust swaps in one fill: scheduled, submitted, and filled with nothing left. */
  lemma WholePremiumSwaps(r: Row, native: real)
    requires r.closed && !r.waiting && r.status == Unset && r.amount == 0.0 && r.native == 0.0
    requires Realized(r) > DUST && native > 0.0
    ensures var steps := [Schedule, Submit, Fill(Realized(r), native)];
            && DisciplinedRun(r, steps) && Budget(r) == Realized(r)
            && End(r, steps) == r.(status := Filled, amount := Realized(r), native := native) && Leftover(End(r, steps)) == 0.0
  {
    var last := Fill(Realized(r), native);
    var r1 := After(r, Schedule);
    var r2 := After(r1, Submit);
    assert [Schedule, Submit, last][1..] == [Submit, last] && [Submit, last][1..] == [last] && [last][1..] == [];
    assert End(r2, [last]) == End(After(r2, last), []);
    assert DisciplinedRun(r2, [last]);
    assert DisciplinedRun(r1, [Submit, last]);
  }

  /** A queued row that stored its target of 100 has spent nothing; marked as dust it reads as all spent. */
  lemma StashedTargetReadsAsSpent() returns (r: Row)
    ensures Realized(r) == 100.0 && r.status == Pending && Spent(r) == 0.0 && Remaining(r) == 100.0
    ensures DustDone(r).status == Skipped && Spent(DustDone(r)) == 100.0 && Leftover(DustDone(r)) == 0.0
  {
    r := Row(true, true, false, Some(100.0), None, None, Pending, 100.0, 0.0);
  }
}
