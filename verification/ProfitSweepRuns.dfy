/**
 Whole runs of the sweep over one group: passes, reconciles, re-queues, pooled credits,
 saves, outages, and crashes that bring back any journal saved before.
 */
module ProfitSweepRuns {
  import opened Common
  import opened ProfitSweep
  import opened ProfitSweepSafety
  import DustPool

  /**
   The live row, every journal on disk that a crash could bring back, the exchange's labelled fills,
   and the coin the pool has sold for this group, which no journal field records.
   */
  datatype State = State(row: Row, saved: set<Row>, fills: seq<Fill>, pooled: real)

  datatype Step =
    | Reconcile(up: bool, labelled: Option<Fill>)
    | GuardRow(up: bool)
    | Pass(up: bool, sizing: real, outcome: Outcome, proceeds: real, sold: seq<Fill>)
    | RequeueFailed(up: bool)
    | RequeueLedgerOnly(up: bool)
    | PoolCredit(chunk: real, quote: real)
    | Save
    | Crash(restored: Row)

  /** Fetched fills are complete; an outage hides them all. */
  function View(up: bool, s: State): Fetch {
    if up then Fetched(s.fills) else Unavailable
  }

  /** What the pass's order may fill: at most its size, and nothing unless an order was placed. */
  predicate MaySell(s: State, step: Step)
    requires step.Pass?
  {
    var r := Scheduled(s.row, View(step.up, s)).0;
    && Positive(step.sold)
    && (step.sold != [] ==> AboutToSell(r, View(step.up, s)) && Total(step.sold) <= OrderSize(r, step.sizing))
  }

  predicate Enabled(s: State, step: Step) {
    match step
    case Reconcile(_, _) => true
    case Pass(_, _, _, _, _) => MaySell(s, step)
    case PoolCredit(chunk, _) => Native(s.row).Some? && chunk > 0.0
    case Crash(restored) => restored in s.saved
    case _ => true
  }

  function Next(s: State, step: Step): State
    requires Enabled(s, step)
  {
    match step
    case Reconcile(up, labelled) => s.(row := Reconciled(s.row, View(up, s), labelled))
    case GuardRow(up) => s.(row := Guarded(s.row, View(up, s)).0)
    case Pass(up, sizing, outcome, proceeds, sold) =>
      s.(row := Passed(s.row, View(up, s), sizing, outcome, proceeds), fills := s.fills + sold)
    case RequeueFailed(up) => s.(row := RequeuedFailed(s.row, View(up, s)))
    case RequeueLedgerOnly(up) => s.(row := RequeuedLedgerOnly(s.row, View(up, s)))
    case PoolCredit(chunk, quote) => s.(row := DustPool.Credited(s.row, chunk, quote), pooled := s.pooled + chunk)
    case Save => s.(saved := s.saved + {s.row})
    case Crash(restored) => s.(row := restored)
  }

  /** The fixed premium of the group and no lock marker; any status and any amounts. */
  predicate Sound(r: Row, profit: real) {
    r.profit == profit && r.reason !! {DuplicateRepaired, AmountSynced, ProceedsReconciled}
  }

  predicate Safe(s: State, profit: real) {
    && Sound(s.row, profit)
    && (forall r :: r in s.saved ==> Sound(r, profit))
    && Positive(s.fills)
    && Total(s.fills) <= profit
  }

  lemma GuardKeepsSound(r: Row, fetch: Fetch, profit: real)
    requires Sound(r, profit)
    ensures Sound(Guarded(r, fetch).0, profit)
  {
  }

  lemma QueueKeepsSound(r: Row, fetch: Fetch, profit: real)
    requires Sound(r, profit)
    ensures Sound(EnsuredPending(r, fetch).0, profit) && Sound(Scheduled(r, fetch).0, profit)
  {
    hide Guarded, ExchangeRemaining, ToSweep, Remaining;
    var g := Guarded(r, fetch).0;
    GuardKeepsSound(r, fetch, profit);
    GuardKeepsSound(g, fetch, profit);
    GuardKeepsSound(Guarded(g, fetch).0, fetch, profit);
  }

  lemma ExecuteKeepsSound(r: Row, sizing: real, outcome: Outcome, proceeds: real, profit: real)
    requires Sound(r, profit)
    ensures Sound(Executed(r, sizing, outcome, proceeds), profit)
  {
  }

  lemma {:induction false} TotalConcat(a: seq<Fill>, b: seq<Fill>)
    ensures Total(a + b) == Total(a) + Total(b)
  {
    if b == [] {
      assert a + b == a;
    } else {
      assert (a + b)[..|a + b| - 1] == a + b[..|b| - 1];
      TotalConcat(a, b[..|b| - 1]);
    }
  }

  lemma PassKeepsSafe(s: State, step: Step, profit: real)
    requires profit > 0.0 && Safe(s, profit) && step.Pass? && Enabled(s, step)
    ensures Safe(Next(s, step), profit)
  {
    hide Scheduled, EnsuredPending, Guarded, Executed, Total;
    var fetch := View(step.up, s);
    var r := Scheduled(s.row, fetch).0;
    QueueKeepsSound(s.row, fetch, profit);
    ExecuteKeepsSound(r, step.sizing, step.outcome, step.proceeds, profit);
    TotalConcat(s.fills, step.sold);
    NothingSold();
    if step.sold != [] {
      OutageSellsNothing(s.row);
      SoundPassIsSafe(s.row, s.fills, step.sizing, profit);
    }
  }

  lemma NothingSold()
    ensures Total([]) == 0.0
  {
  }

  lemma OutageSellsNothing(r: Row)
    ensures !AboutToSell(Scheduled(r, Unavailable).0, Unavailable)
  {
  }

  /** For every row without a lock marker, whatever its amounts, the order stays within what the premium leaves. */
  lemma SoundPassIsSafe(r: Row, fills: seq<Fill>, sizing: real, profit: real)
    requires Sound(r, profit) && Positive(fills)
    ensures var r1 := Scheduled(r, Fetched(fills)).0;
            AboutToSell(r1, Fetched(fills)) ==> Total(fills) + OrderSize(r1, sizing) <= profit
  {
    hide Scheduled, Total;
    if AboutToSell(Scheduled(r, Fetched(fills)).0, Fetched(fills)) {
      QueueKeepsPremium(r, Fetched(fills));
      OrderIsSafeExactly(r, fills);
    }
  }

  lemma StepKeepsSafe(s: State, step: Step, profit: real)
    requires profit > 0.0 && Safe(s, profit) && Enabled(s, step)
    ensures Safe(Next(s, step), profit)
  {
    hide Guarded, EnsuredPending, Passed, Total;
    match step {
      case Reconcile(up, labelled) =>
      case GuardRow(up) => GuardKeepsSound(s.row, View(up, s), profit);
      case Pass(_, _, _, _, _) => PassKeepsSafe(s, step, profit);
      case RequeueFailed(up) => QueueKeepsSound(s.row, View(up, s), profit);
      case RequeueLedgerOnly(up) =>
      case PoolCredit(chunk, quote) => DustPool.CreditStaysWithinPremium(s.row, chunk, quote);
      case Save =>
      case Crash(restored) =>
    }
  }

  /** The state after a run, each step enabled where it is taken. */
  ghost predicate Reaches(s: State, steps: seq<Step>, last: State)
    decreases |steps|
  {
    if steps == [] then s == last
    else Enabled(s, steps[0]) && Reaches(Next(s, steps[0]), steps[1..], last)
  }

  /**
   Over every interleaving of passes, partial fills, re-queues, pooled credits, outages and
   crashes, the fills under the group's own label never exceed its premium.
   */
  lemma {:induction false} NeverOversold(s: State, steps: seq<Step>, last: State, profit: real)
    requires profit > 0.0 && Safe(s, profit) && Reaches(s, steps, last)
    ensures Safe(last, profit)
    decreases |steps|
  {
    if steps != [] {
      StepKeepsSafe(s, steps[0], profit);
      NeverOversold(Next(s, steps[0]), steps[1..], last, profit);
    }
  }

  // ---- Journal amounts ----

  /** Amounts a fresh journal has, and none of the steps lifts: at most the premium. */
  predicate Within(r: Row, profit: real) {
    r.profit == profit && r.amount <= profit && r.exchangeNative <= profit
  }

  predicate AllWithin(s: State, profit: real) {
    Within(s.row, profit) && (forall r :: r in s.saved ==> Within(r, profit)) && Positive(s.fills) && Total(s.fills) <= profit
  }

  lemma GuardStaysWithin(r: Row, fetch: Fetch, profit: real)
    requires profit > 0.0 && Within(r, profit)
    requires fetch.Fetched? ==> Positive(fetch.fills) && Total(fetch.fills) <= profit
    ensures Within(Guarded(r, fetch).0, profit)
  {
    if fetch.Fetched? {
      CreditedAreFills(r, fetch.fills);
    }
  }

  lemma QueueStaysWithin(r: Row, fetch: Fetch, profit: real)
    requires profit > 0.0 && Within(r, profit)
    requires fetch.Fetched? ==> Positive(fetch.fills) && Total(fetch.fills) <= profit
    ensures Within(EnsuredPending(r, fetch).0, profit) && Within(Scheduled(r, fetch).0, profit)
  {
    hide Guarded, ExchangeRemaining, ToSweep, Remaining;
    var g := Guarded(r, fetch).0;
    GuardStaysWithin(r, fetch, profit);
    GuardStaysWithin(g, fetch, profit);
    GuardStaysWithin(Guarded(g, fetch).0, fetch, profit);
  }

  /** Reconciling never lifts an amount above the premium, as long as the labelled order does not exceed it. */
  lemma ReconcileStaysWithin(r: Row, fetch: Fetch, labelled: Option<Fill>, profit: real)
    requires profit > 0.0 && Within(r, profit)
    requires fetch.Fetched? ==> Positive(fetch.fills) && Total(fetch.fills) <= profit
    requires labelled.Some? ==> labelled.value.amount <= profit
    ensures Within(Reconciled(r, fetch, labelled), profit)
  {
    if fetch.Fetched? {
      CreditedAreFills(r, fetch.fills);
    }
  }

  lemma ExecuteStaysWithin(r: Row, sizing: real, outcome: Outcome, proceeds: real, profit: real)
    requires profit > 0.0 && Within(r, profit) && r.status == Pending
    ensures Within(Executed(r, sizing, outcome, proceeds), profit)
  {
  }

  /** An announced sweep bounds the order of a row whose amount is within the premium. */
  lemma OrderWithinSweep(r: Row, sizing: real)
    requires r.status == Pending && ToSweep(r) > 0.0 && r.amount <= r.profit
    ensures OrderSize(r, sizing) <= ToSweep(r)
  {
  }

  /** No step lifts a journal amount above the premium. */
  lemma StepStaysWithin(s: State, step: Step, profit: real)
    requires profit > 0.0 && AllWithin(s, profit) && Enabled(s, step)
    requires step.Reconcile? && step.labelled.Some? ==> step.labelled.value.amount <= profit
    ensures Within(Next(s, step).row, profit) && forall r :: r in Next(s, step).saved ==> Within(r, profit)
  {
    hide Guarded, EnsuredPending, Scheduled, Executed, Total, Reconciled;
    match step {
      case Reconcile(up, labelled) => ReconcileStaysWithin(s.row, View(up, s), labelled, profit);
      case GuardRow(up) => GuardStaysWithin(s.row, View(up, s), profit);
      case Pass(up, sizing, outcome, proceeds, _) =>
        QueueStaysWithin(s.row, View(up, s), profit);
        var r := Scheduled(s.row, View(up, s)).0;
        if AboutToSell(r, View(up, s)) {
          ExecuteStaysWithin(r, sizing, outcome, proceeds, profit);
        }
      case RequeueFailed(up) => QueueStaysWithin(s.row, View(up, s), profit);
      case RequeueLedgerOnly(up) =>
      case PoolCredit(chunk, quote) => DustPool.CreditStaysWithinPremium(s.row, chunk, quote);
      case Save =>
      case Crash(restored) =>
    }
  }

  /**
   Without the lock condition the claim is false: a locked row queued at its full premium of 1
   is sold again although 0.4 of it was already sold.
   */
  lemma LockedQueueOversells() returns (s: State, step: Step)
    ensures Enabled(s, step) && step.Pass?
    ensures s.row.amount <= s.row.profit && s.row.exchangeNative <= s.row.profit
    ensures Total(s.fills) <= s.row.profit && Total(Next(s, step).fills) > s.row.profit
  {
    var row := Row(true, true, 1.0, Pending, 1.0, 0.0, 0.0, 0.0, 0.0, 0, {AmountSynced});
    var sold := Fill(0, 0.4, 40.0, 7);
    s := State(row, {row}, [sold], 0.0);
    step := Pass(true, 1.0, Done(8), 100.0, [Fill(1, 1.0, 100.0, 8)]);
    assert Total([sold]) == 0.4 by { TotalAppend([], sold); assert [] + [sold] == [sold]; }
    assert Total(step.sold) == 1.0 by { TotalAppend([], step.sold[0]); assert [] + [step.sold[0]] == step.sold; }
    TotalConcat(s.fills, step.sold);
    assert Guarded(row, Fetched(s.fills)) == (row, true);
  }
}
