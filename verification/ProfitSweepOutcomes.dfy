/**
 What a pass leaves in the journal for every way its order can end, and what the reconciling and
 re-queueing steps leave for the next pass (engine/covered_call.py:2288-2420).
 */
module ProfitSweepOutcomes {
  import opened Common
  import opened ProfitSweep
  import opened ProfitSweepSafety
  import opened ProfitSweepRuns
  import opened ProfitSweepPool

  /** What the queued row counts as sold: the part below the premium. */
  function Held(r: Row): real {
    if 0.0 < r.amount < r.profit then r.amount else 0.0
  }

  function StatusFor(outcome: Outcome): Status {
    match outcome
    case Raised => Submitted
    case SlippageSkip => Pending
    case OtherSkip => Skipped
    case Cancelled(_) => Failed
    case Done(_) => Filled
  }

  predicate Accepted(outcome: Outcome) {
    outcome.Done? || outcome.Cancelled?
  }

  /** A placed order leaves the status its end calls for; accepted, it adds to what was sold and was paid. */
  lemma OrderLeaves(r: Row, sizing: real, outcome: Outcome, proceeds: real)
    requires Native(r).Some? && r.status == Pending && OrderSize(r, sizing) > 0.0
    ensures var p := Executed(r, sizing, outcome, proceeds); var size := OrderSize(r, sizing);
            && p.status == StatusFor(outcome) && Native(p) == Native(r)
            && p.amount == (if Accepted(outcome) then Held(r) + size else size)
            && (Accepted(outcome) && proceeds > 0.0 ==>
                  p.quote == proceeds + (if Held(r) > 0.0 then r.quote else 0.0))
            && p.lifetimeQuote == (if Accepted(outcome) && proceeds > 0.0 && p.quote > 0.0
                                   then Max(r.lifetimeQuote, p.quote) else r.lifetimeQuote)
            && (Accepted(outcome) && outcome.orderId != 0 ==> p.orderId == outcome.orderId)
            && (!Accepted(outcome) ==> p.quote == r.quote && p.orderId == r.orderId)
            && p.exchangeNative == r.exchangeNative
  {
  }

  /**
   Without an order the journal stays as it is: for a queued row with nothing to order, an order
   already in flight and a row filled in full. A queued row without a premium is skipped.
   */
  lemma NoOrderLeaves(r: Row, sizing: real, outcome: Outcome, proceeds: real)
    requires OrderSize(r, sizing) <= 0.0 || r.status == Submitted || (r.status == Filled && Unswept(r) <= 0.0) || Native(r).None?
    ensures var p := Executed(r, sizing, outcome, proceeds);
            && (Native(r).Some? && (r.status == Pending || r.status == Submitted || (r.status == Filled && Unswept(r) <= 0.0)) ==> p == r)
            && (Native(r).None? ==> p.status == (if r.status == Pending then Skipped else r.status) && p.amount == r.amount)
  {
  }

  /**
   A whole pass over an unlocked row that is about to sell: an order done and filled in full leaves
   the row filled at what was held as sold plus the order, which with own fills is the labelled
   total; when the order takes all that is left, nothing remains.
   */
  lemma PassRecordsItsSale(s: State, sizing: real, outcome: Outcome, proceeds: real, sold: seq<Fill>)
    requires Native(s.row).Some? && Unlocked(s.row) && Positive(s.fills)
    requires var step := Pass(true, sizing, outcome, proceeds, sold);
             Enabled(s, step) && sold != [] && Total(sold) == OrderSize(Scheduled(s.row, Fetched(s.fills)).0, sizing)
    ensures var r1 := Scheduled(s.row, Fetched(s.fills)).0;
            var after := Next(s, Pass(true, sizing, outcome, proceeds, sold));
            && after.row.status == StatusFor(outcome)
            && (Accepted(outcome) ==>
                  && after.row.amount == Held(r1) + Total(sold)
                  && (s.fills != [] ==> after.row.amount == Total(after.fills))
                  && (outcome.Done? && sizing >= Unswept(r1) && r1.exchangeNative <= 0.0 ==> Remaining(after.row) == 0.0))
  {
    hide Scheduled, Total, Executed;
    var r1 := Scheduled(s.row, Fetched(s.fills)).0;
    TotalPositive(sold);
    TotalConcat(s.fills, sold);
    TotalPositive(s.fills);
    QueueKeepsPremium(s.row, Fetched(s.fills));
    OrderLeaves(r1, sizing, outcome, proceeds);
    if s.fills != [] {
      HeldIsSold(s.row, s.fills);
    }
  }

  /** A partly sold row that is about to sell holds exactly what was sold. */
  lemma HeldIsSold(r: Row, fills: seq<Fill>)
    requires Native(r).Some? && Unlocked(r) && Positive(fills) && fills != []
    requires AboutToSell(Scheduled(r, Fetched(fills)).0, Fetched(fills))
    ensures Held(Scheduled(r, Fetched(fills)).0) == Total(fills) < r.profit
  {
    hide Scheduled, Total;
    TotalPositive(fills);
    if Total(fills) >= r.profit {
      SoldOut(r, fills);
    } else if RetainedForCover in r.reason {
      RetainedStaysPut(r, fills);
    } else {
      ScheduledWithFills(r, fills);
      UnlockedStays(r, fills);
    }
  }

  lemma UnlockedStays(r: Row, fills: seq<Fill>)
    requires Unlocked(r)
    ensures !Locked(r)
  {
  }

  // ---- A pass sells the rest ----

  /** Where a group stands when a pass is due: nothing sold and not queued yet, or partly sold. */
  predicate Due(r: Row, fills: seq<Fill>) {
    && Native(r).Some? && Unlocked(r) && RetainedForCover !in r.reason && Positive(fills)
    && if fills == [] then r.status == Unset || r.status == Failed || r.status == Skipped
       else Total(fills) < r.profit && r.status != Submitted && r.status != Unknown
  }

  /** Such a group is queued for exactly what is left of its premium. */
  lemma DueIsQueued(r: Row, fills: seq<Fill>)
    requires Due(r, fills)
    ensures var r1 := Scheduled(r, Fetched(fills)).0;
            && AboutToSell(r1, Fetched(fills)) && Native(r1) == Native(r)
            && Unswept(r1) == ToSweep(r1) == r.profit - Total(fills) > 0.0
  {
    hide Total, Scheduled, Remaining;
    if fills == [] {
      ScheduledWithoutFills(r);
      NothingSold();
    } else {
      TotalPositive(fills);
      PartlySoldIsQueued(r, fills);
      ScheduledWithFills(r, fills);
      UnlockedStays(r, fills);
    }
  }

  /** What scheduling reports: a group that was not queued yet is newly queued, and whatever it reports is queued. */
  lemma NewlyQueuedIsReported(r: Row, fills: seq<Fill>)
    requires Due(r, fills)
    ensures r.status != Pending ==> Scheduled(r, Fetched(fills)).1
    ensures Scheduled(r, Fetched(fills)).1 ==> Scheduled(r, Fetched(fills)).0.status == Pending
  {
    hide Guarded, Total, FirstDay;
    if fills == [] {
      NothingFetched(r);
      NothingSold();
    } else {
      hide Remaining;
      var g := Guarded(r, Fetched(fills)).0;
      TotalPositive(fills);
      UnlockedGuard(r, fills);
      UnlockedGuard(g, fills);
      UnlockedGuard(Guarded(g, Fetched(fills)).0, fills);
    }
  }

  /** When wallet and lot leave room and the order fills, one pass completes the premium. */
  lemma PassCompletesThePremium(s: State, sizing: real, orderId: nat, proceeds: real, sale: Fill)
    requires Due(s.row, s.fills) && sizing >= sale.amount == s.row.profit - Total(s.fills)
    ensures var step := Pass(true, sizing, Done(orderId), proceeds, [sale]);
            && Enabled(s, step)
            && var after := Next(s, step);
               && Total(after.fills) == s.row.profit && after.row.status == Filled
               && after.row.amount == s.row.profit
  {
    hide Scheduled, Total, Executed, Unswept, ToSweep;
    var fetch := Fetched(s.fills);
    var r1 := Scheduled(s.row, fetch).0;
    DueIsQueued(s.row, s.fills);
    OneFillTotal(sale);
    TotalConcat(s.fills, [sale]);
    OrderLeaves(r1, sizing, Done(orderId), proceeds);
    HeldIsRest(r1);
  }

  lemma HeldIsRest(r: Row)
    requires Native(r).Some? && r.status == Pending
    ensures Held(r) + Unswept(r) == r.profit
  {
  }

  // ---- A skipped order ----

  /**
   After a slippage skip the next pass has the same to sell exactly when the group has own fills or
   the order's size, left in the amount, happens to read as what was held before.
   */
  lemma SkippedOrderReadAsSoldExactly(r: Row, fills: seq<Fill>, sizing: real, proceeds: real)
    requires Native(r).Some? && Unlocked(r) && Positive(fills)
    requires var r1 := Scheduled(r, Fetched(fills)).0; AboutToSell(r1, Fetched(fills)) && OrderSize(r1, sizing) > 0.0
    ensures var r1 := Scheduled(r, Fetched(fills)).0;
            var r2 := Scheduled(Passed(r, Fetched(fills), sizing, SlippageSkip, proceeds), Fetched(fills)).0;
            Unswept(r2) == Unswept(r1) <==>
            fills != [] || OrderSize(r1, sizing) == if Held(r1) > 0.0 then Held(r1) else r.profit
  {
    hide Scheduled, Total;
    var r1 := Scheduled(r, Fetched(fills)).0;
    QueueKeepsPremium(r, Fetched(fills));
    QueueKeepsReason(r, Fetched(fills));
    var e := Executed(r1, sizing, SlippageSkip, proceeds);
    OrderLeaves(r1, sizing, SlippageSkip, proceeds);
    if fills != [] {
      HeldIsSold(r, fills);
      DueIsQueued(e, fills);
      HeldIsRest(r1);
    } else {
      SkippedIsKept(e);
      HeldIsRest(r1);
    }
  }

  lemma GuardKeepsReason(r: Row, fetch: Fetch)
    requires Unlocked(r)
    ensures Unlocked(Guarded(r, fetch).0)
  {
    hide Refreshed, Remaining, FirstDay, Total;
    RefreshedKeepsJournal(r, fetch);
  }

  lemma QueueKeepsReason(r: Row, fetch: Fetch)
    requires Unlocked(r)
    ensures Unlocked(Scheduled(r, fetch).0)
  {
    hide Guarded, Remaining, ToSweep, ExchangeRemaining;
    var g := Guarded(r, fetch).0;
    var h := Guarded(g, fetch).0;
    GuardKeepsReason(r, fetch);
    GuardKeepsReason(g, fetch);
    GuardKeepsReason(h, fetch);
  }

  /** Without own fills a queued row is left as it is, but for an amount that is no part of the premium. */
  lemma SkippedIsKept(r: Row)
    requires Native(r).Some? && Unlocked(r) && r.status == Pending && 0.0 < r.amount <= r.profit
    ensures Scheduled(r, Fetched([])).0 == r
  {
    NothingFetched(r);
    hide Guarded;
  }

  /** A fresh premium of 1 whose order of 0.6 is skipped: the next pass offers 0.4. */
  lemma SkippedPartIsLost() returns (r: Row)
    ensures Native(r) == Some(1.0) && Due(r, [])
    ensures var r1 := Scheduled(r, Fetched([])).0; AboutToSell(r1, Fetched([])) && Unswept(r1) == 1.0
    ensures Unswept(Scheduled(Passed(r, Fetched([]), 0.6, SlippageSkip, 0.0), Fetched([])).0) == 0.4
  {
    hide Scheduled;
    r := Row(true, true, 1.0, Unset, 0.0, 0.0, 0.0, 0.0, 0.0, 0, {});
    DueIsQueued(r, []);
    NothingSold();
    var r1 := Scheduled(r, Fetched([])).0;
    QueueKeepsReason(r, Fetched([]));
    SkippedIsKept(Executed(r1, 0.6, SlippageSkip, 0.0));
  }

  // ---- Reconciling and re-queueing ----

  /** Fills of one day settle the row: what remains is the premium less what they sold. */
  lemma ReconciledRemains(r: Row, fills: seq<Fill>, labelled: Option<Fill>)
    requires Native(r).Some? && !Locked(r) && Positive(fills) && fills != [] && FirstDay(fills) == fills
    ensures var after := Reconciled(r, Fetched(fills), labelled);
            && after.status == Filled && Native(after) == Native(r)
            && (RetainedForCover !in r.reason ==> Remaining(after) == Max(0.0, r.profit - Total(fills)))
            && r.reason <= after.reason != {}
  {
    hide Locked, Total, TotalQuote, FirstDay;
    TotalPositive(fills);
  }

  /** Without fills the labelled order does, unless the row already holds an order's proceeds. */
  lemma LabelledRemains(r: Row, order: Fill)
    requires Native(r).Some? && !Locked(r) && order.amount > 0.0 && RetainedForCover !in r.reason
    ensures var after := Reconciled(r, Fetched([]), Some(order));
            if r.status == Filled && r.orderId != 0 && r.quote > 0.0 then after == r
            else after.status == Filled && Remaining(after) == Max(0.0, r.profit - order.amount)
  {
    hide Locked;
  }

  /** A day that sold the whole premium blocks the row, filled and with nothing left. */
  lemma SoldOutIsFilled(r: Row, fills: seq<Fill>)
    requires Native(r).Some? && Unlocked(r) && fills != [] && Total(FirstDay(fills)) >= r.profit && FirstDay(fills) != []
    ensures var (g, blocked) := Guarded(r, Fetched(fills));
            && blocked && g.status == Filled && g.amount == r.profit && FullySwept in g.reason
            && (g.exchangeNative <= 0.0 || g.exchangeNative >= r.profit ==> Remaining(g) == 0.0)
  {
    hide Total, TotalQuote, FirstDay, Refreshed;
    RefreshedKeepsJournal(r, Fetched(fills));
  }

  /** A failed row is queued again for exactly what its fills left. */
  lemma FailedIsRequeued(r: Row, fills: seq<Fill>)
    requires Due(r, fills) && r.status == Failed
    ensures var after := RequeuedFailed(r, Fetched(fills));
            after.status == Pending && Unswept(after) == r.profit - Total(fills)
  {
    hide Guarded, Total, FirstDay;
    if fills == [] {
      NothingFetched(r);
      NothingSold();
    } else {
      hide Remaining;
      var g := Guarded(r, Fetched(fills)).0;
      TotalPositive(fills);
      QueuedWithFills(r, fills);
      UnlockedGuard(r, fills);
      UnlockedGuard(g, fills);
    }
  }

  /** The retry of a run does so too, and no fill is lost. */
  lemma RetryQueuesTheRest(s: State)
    requires Due(s.row, s.fills) && s.row.status == Failed
    ensures var after := Next(s, RequeueFailed(true));
            after.fills == s.fills && after.row.status == Pending && Unswept(after.row) == s.row.profit - Total(s.fills)
  {
    FailedIsRequeued(s.row, s.fills);
  }

  /** Whatever happens after a save, a crash may bring that row back, and takes no fill with it. */
  lemma SavedRowComesBack(s: State, steps: seq<Step>, later: State)
    requires Reaches(Next(s, Save), steps, later)
    ensures Enabled(later, Crash(s.row)) && Next(later, Crash(s.row)) == later.(row := s.row)
  {
    SavesStay(Next(s, Save), steps, later, s.row);
  }

  lemma {:induction false} SavesStay(s: State, steps: seq<Step>, later: State, row: Row)
    requires row in s.saved && Reaches(s, steps, later)
    ensures row in later.saved
    decreases |steps|
  {
    hide Reconciled, Guarded, Passed, RequeuedFailed, RequeuedLedgerOnly, Scheduled, AboutToSell, OrderSize;
    if steps != [] {
      SavesStay(Next(s, steps[0]), steps[1..], later, row);
    }
  }

  /** Only a filled row with nothing to show for it is queued again, and then for its whole premium. */
  lemma LedgerOnlyIsRequeued(r: Row, fetch: Fetch)
    requires Native(r).Some? && RetainedForCover !in r.reason
    ensures var after := RequeuedLedgerOnly(r, fetch);
            && (after != r ==>
                  && after.status == Pending && Unswept(after) == ToSweep(after) == r.profit && ProceedsReconciled !in after.reason
                  && r.status == Filled && r.exchangeNative <= 0.0 && r.amount <= 0.0
                  && fetch.Fetched? && Total(fetch.fills) <= 0.0)
            && (r.status == Filled && r.reason == {ProceedsReconciled} && fetch == Fetched([])
                  && r.exchangeNative <= 0.0 && Max(r.amount, Max(r.quote, r.lifetimeQuote)) <= 0.0
                ==> after != r)
  {
    NothingSold();
  }

  // ---- Which fills are credited ----

  /**
   What shows that a filled row was sold on the exchange: a total, a mark of such a sale, an order
   whose proceeds are its own, or, unless the proceeds were reconciled, that no pool was involved.
   */
  lemma ExchangeFillExactly(r: Row)
    ensures HasExchangeFill(r) <==>
            && r.status == Filled
            && (|| r.exchangeNative > 0.0
                || r.reason * {FullySwept, UnlabeledReconciled, ManualSwap} != {}
                || (r.orderId != 0 && (AmountSynced in r.reason || ProceedsReconciled !in r.reason))
                || r.reason !! {ProceedsReconciled, Tag.DustPool})
  {
    var marks := r.reason * {FullySwept, UnlabeledReconciled, ManualSwap};
    assert FullySwept in r.reason ==> FullySwept in marks;
    assert UnlabeledReconciled in r.reason ==> UnlabeledReconciled in marks;
    assert ManualSwap in r.reason ==> ManualSwap in marks;
  }

  lemma {:induction false} OfOrderExactly(fills: seq<Fill>, orderId: nat, fill: Fill)
    ensures multiset(OfOrder(fills, orderId))[fill] == if fill.orderId == orderId then multiset(fills)[fill] else 0
  {
    if fills != [] {
      assert fills == fills[..|fills| - 1] + [fills[|fills| - 1]];
      OfOrderExactly(fills[..|fills| - 1], orderId, fill);
    }
  }

  lemma {:induction false} OrderIsPositive(fills: seq<Fill>, orderId: nat)
    requires Positive(fills)
    ensures Total(OfOrder(fills, orderId)) >= 0.0
    ensures OfOrder(fills, orderId) != [] ==> Total(OfOrder(fills, orderId)) > 0.0
  {
    if fills != [] {
      OrderIsPositive(fills[..|fills| - 1], orderId);
      TotalAppend(OfOrder(fills[..|fills| - 1], orderId), fills[|fills| - 1]);
    }
  }

  lemma {:induction false} OnDayExactly(fills: seq<Fill>, day: nat, fill: Fill)
    ensures multiset(OnDay(fills, day))[fill] == if fill.timestampMs / MS_PER_DAY == day then multiset(fills)[fill] else 0
  {
    if fills != [] {
      assert fills == fills[..|fills| - 1] + [fills[|fills| - 1]];
      OnDayExactly(fills[..|fills| - 1], day, fill);
    }
  }

  lemma {:induction false} EarliestDayIsLeast(fills: seq<Fill>, k: nat)
    requires k < |fills|
    ensures EarliestDay(fills) <= fills[k].timestampMs / MS_PER_DAY
  {
    if k > 0 {
      EarliestDayIsLeast(fills[1..], k - 1);
    }
  }

  /** The fills of the earliest day, each as often as it was reported. */
  lemma FirstDayExactly(fills: seq<Fill>, fill: Fill)
    requires fill in fills
    ensures multiset(FirstDay(fills))[fill] ==
            if forall other :: other in fills ==> fill.timestampMs / MS_PER_DAY <= other.timestampMs / MS_PER_DAY
            then multiset(fills)[fill] else 0
  {
    hide OnDay, EarliestDay;
    EarliestDayOccurs(fills);
    OnDayExactly(fills, EarliestDay(fills), fill);
    forall other | other in fills ensures EarliestDay(fills) <= other.timestampMs / MS_PER_DAY {
      var k :| 0 <= k < |fills| && fills[k] == other;
      EarliestDayIsLeast(fills, k);
    }
  }

  /**
   A refresh credits a filled row with all its own order sold; a row without an order, or whose
   order has no fills, with what the earliest day sold.
   */
  lemma RefreshCreditsItsOrder(r: Row, fills: seq<Fill>, fill: Fill)
    requires r.closedCall && HasExchangeFill(r) && Positive(fills) && fill in fills
    ensures var trades := Attributed(r, fills);
            && Refreshed(r, Fetched(fills)).exchangeNative == Total(trades) > 0.0
            && multiset(trades)[fill] ==
               if r.orderId != 0 && (exists other :: other in fills && other.orderId == r.orderId)
               then (if fill.orderId == r.orderId then multiset(fills)[fill] else 0)
               else multiset(FirstDay(fills))[fill]
  {
    hide Total, OfOrder, FirstDay, HasExchangeFill;
    CreditedAreFills(r, fills);
    OfOrderExactly(fills, r.orderId, fill);
    forall other | other in fills ensures multiset(OfOrder(fills, r.orderId))[other] > 0 <==> other.orderId == r.orderId {
      OfOrderExactly(fills, r.orderId, other);
    }
    if OfOrder(fills, r.orderId) != [] {
      var first := OfOrder(fills, r.orderId)[0];
      OfOrderExactly(fills, r.orderId, first);
      assert first in multiset(OfOrder(fills, r.orderId));
      OrderIsPositive(fills, r.orderId);
    }
  }
}
