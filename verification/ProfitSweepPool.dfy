/**
 Own sales and pooled sales of one premium (profit_sweep_dust.py:361-389 with
 profit_sweep_ops.py:761-831): when a pass that follows a pooled credit sells a part again.
 */
module ProfitSweepPool {
  import opened Common
  import opened ProfitSweep
  import opened ProfitSweepSafety
  import opened ProfitSweepRuns
  import DustPool

  // ---- The condition ----

  /** What the credit leaves in the journal as sold on the exchange, and as sold in all. */
  function ExchangeAfter(r: Row, chunk: real): real {
    Min(r.profit, Max(r.exchangeNative, 0.0) + chunk)
  }

  function AmountAfter(r: Row, chunk: real): real {
    Min(r.profit, Max(r.amount, 0.0) + chunk)
  }

  /**
   The pass after the credit sells nothing twice. `pooled` is all the pool has sold for the group.
   With own fills the pool is never counted, so only a row that is not queued is spared; without
   them a queued or filled row is queued for what the exchange total leaves, unless that total
   reached the premium while the amount did not.
   */
  predicate PoolRemembered(r: Row, chunk: real, fills: seq<Fill>, pooled: real) {
    var exchange, amount := ExchangeAfter(r, chunk), AmountAfter(r, chunk);
    || RetainedForCover in r.reason
    || Total(fills) >= r.profit
    || (r.status == Unknown && (fills == [] || Total(FirstDay(fills)) <= amount))
    || (fills == [] && (r.status == Pending || r.status == Submitted) && (exchange == r.profit || pooled <= exchange))
    || (fills == [] && r.status == Filled && (if exchange == r.profit then amount == r.profit else pooled <= exchange))
  }

  /** Whatever a pass may order now keeps own and pooled sales together within the premium. */
  predicate TogetherWithin(r: Row, fills: seq<Fill>, pooled: real)
    requires Native(r).Some?
  {
    var r1 := Scheduled(r, Fetched(fills)).0;
    AboutToSell(r1, Fetched(fills)) ==> Total(fills) + pooled + Unswept(r1) <= r.profit
  }

  // ---- Nothing sold under the own label ----

  predicate Unlocked(r: Row) {
    r.reason !! {DuplicateRepaired, AmountSynced, ProceedsReconciled}
  }

  /** Without own fills an unlocked row is left to its journal. */
  lemma NothingFetched(r: Row)
    requires Native(r).Some? && Unlocked(r)
    ensures Guarded(r, Fetched([])) == (r, false)
  {
  }

  lemma ScheduledWithoutFills(r: Row)
    requires Native(r).Some? && Unlocked(r) && RetainedForCover !in r.reason
    ensures var e := Scheduled(r, Fetched([])).0; var left := Remaining(r);
            && (r.status == Filled && left > 0.0 ==>
                  e.status == Pending && e.amount == if r.exchangeNative > 0.0 then r.exchangeNative else r.amount)
            && (r.status == Filled && left <= 0.0 ==> e.status == Filled)
            && (r.status == Unset || r.status == Failed || r.status == Skipped ==> e.status == Pending && e.amount == r.profit)
            && (r.status == Unknown ==> e.status == Unknown)
            && (r.status == Pending && 0.0 < r.amount < r.profit ==> e == r)
            && Native(e) == Native(r) && RetainedForCover !in e.reason
  {
    NothingFetched(r);
    hide Guarded, HasExchangeFill;
  }

  /** What a credit writes into a journal that is not retained for cover. */
  lemma CreditedJournal(r: Row, chunk: real, quote: real)
    requires Native(r).Some? && chunk > 0.0 && RetainedForCover !in r.reason
    ensures var c := DustPool.Credited(r, chunk, quote); var exchange := ExchangeAfter(r, chunk);
            && Native(c) == Native(r) && c.profit == r.profit && c.reason == r.reason + {DustPool}
            && c.exchangeNative == exchange && 0.0 < exchange <= r.profit
            && (if r.status == Pending || r.status == Submitted then
                  c.amount == exchange && c.status == (if exchange + DustPool.TOLERANCE < r.profit then Pending else Filled)
                else c.amount == AmountAfter(r, chunk) && 0.0 < c.amount <= r.profit && c.status == r.status)
  {
  }

  lemma FilledRemaining(r: Row)
    requires Native(r).Some? && r.status == Filled && RetainedForCover !in r.reason
    requires 0.0 < r.amount <= r.profit && 0.0 < r.exchangeNative <= r.profit
    ensures Remaining(r) == Max(r.profit - r.amount, r.profit - r.exchangeNative)
  {
  }

  lemma WithoutOwnFills(r: Row, chunk: real, quote: real, pooled: real)
    requires Native(r).Some? && chunk > 0.0 && pooled >= chunk && Unlocked(r)
    ensures TogetherWithin(DustPool.Credited(r, chunk, quote), [], pooled) <==> PoolRemembered(r, chunk, [], pooled)
  {
    var c := DustPool.Credited(r, chunk, quote);
    if RetainedForCover in r.reason {
      RetainedIsLeft(c);
    } else {
      CreditedJournal(r, chunk, quote);
      hide DustPool.Credited, Scheduled, Remaining, ExchangeRemaining;
      ScheduledWithoutFills(c);
      if c.status == Filled {
        FilledRemaining(c);
      }
      StillToSell(Scheduled(c, Fetched([])).0);
    }
  }

  /** A row queued for part or all of its premium is about to sell the rest. */
  lemma StillToSell(r: Row)
    requires Native(r).Some? && RetainedForCover !in r.reason
    ensures r.status != Pending ==> !AboutToSell(r, Fetched([]))
    ensures r.status == Pending && 0.0 < r.amount <= r.profit ==>
              AboutToSell(r, Fetched([])) && Unswept(r) == if r.amount < r.profit then r.profit - r.amount else r.profit
  {
  }

  lemma RetainedIsLeft(r: Row)
    requires Native(r).Some? && Unlocked(r) && RetainedForCover in r.reason
    ensures !AboutToSell(Scheduled(r, Fetched([])).0, Fetched([]))
  {
    NothingFetched(r);
    hide Guarded, HasExchangeFill;
  }

  // ---- Partly sold under the own label ----

  /** An unlocked row with part of its premium sold is never blocked, and takes over the first day's sales if they are more. */
  lemma UnlockedGuard(r: Row, fills: seq<Fill>)
    requires Native(r).Some? && Positive(fills) && 0.0 < Total(fills) < r.profit && Unlocked(r)
    ensures var (g, blocked) := Guarded(r, Fetched(fills));
            && !blocked && Unlocked(g) && Native(g) == Native(r)
            && (RetainedForCover in g.reason <==> RetainedForCover in r.reason)
            && (if Total(FirstDay(fills)) > r.amount then g.status == Filled && g.amount == Total(FirstDay(fills))
                else g.status == r.status && g.amount == r.amount)
  {
    CreditedAreFills(r, fills);
    SomeFills(fills);
    RefreshedKeepsJournal(r, Fetched(fills));
    hide Refreshed, Total, FirstDay, TotalQuote;
  }

  lemma SomeFills(fills: seq<Fill>)
    requires Total(fills) > 0.0
    ensures fills != []
  {
  }

  /** Any other status than an unknown or submitted one is queued. */
  lemma PartlySoldIsQueued(r: Row, fills: seq<Fill>)
    requires Native(r).Some? && Positive(fills) && 0.0 < Total(fills) < r.profit && Unlocked(r) && RetainedForCover !in r.reason
    requires r.status != Submitted
    ensures var e := Scheduled(r, Fetched(fills)).0;
            && Native(e) == Native(r)
            && (e.status == Pending <==> r.status != Unknown || Total(FirstDay(fills)) > r.amount)
            && (e.status == Pending ==> AboutToSell(e, Fetched(fills)))
  {
    hide Guarded, Remaining, Total, FirstDay;
    var fetch := Fetched(fills);
    var g := Guarded(r, fetch).0;
    var h := Guarded(g, fetch).0;
    UnlockedGuard(r, fills);
    UnlockedGuard(g, fills);
    UnlockedGuard(h, fills);
    ScheduledWithFills(r, fills);
  }

  lemma WithOwnFills(r: Row, chunk: real, quote: real, fills: seq<Fill>, pooled: real)
    requires Native(r).Some? && chunk > 0.0 && pooled >= chunk && Unlocked(r)
    requires Positive(fills) && 0.0 < Total(fills) < r.profit
    ensures TogetherWithin(DustPool.Credited(r, chunk, quote), fills, pooled) <==> PoolRemembered(r, chunk, fills, pooled)
  {
    SomeFills(fills);
    var c := DustPool.Credited(r, chunk, quote);
    hide Scheduled, Total, FirstDay;
    if RetainedForCover in r.reason {
      RetainedStaysPut(c, fills);
    } else {
      PartlySoldIsQueued(c, fills);
      ScheduledWithFills(c, fills);
    }
  }

  // ---- The theorem ----

  lemma PoolThenPassExactly(r: Row, chunk: real, quote: real, fills: seq<Fill>, pooled: real)
    requires Native(r).Some? && chunk > 0.0 && pooled >= chunk && Unlocked(r) && Positive(fills)
    ensures TogetherWithin(DustPool.Credited(r, chunk, quote), fills, pooled) <==> PoolRemembered(r, chunk, fills, pooled)
  {
    hide Scheduled;
    TotalPositive(fills);
    if fills == [] {
      WithoutOwnFills(r, chunk, quote, pooled);
    } else if Total(fills) < r.profit {
      WithOwnFills(r, chunk, quote, fills, pooled);
    } else {
      SoldOut(DustPool.Credited(r, chunk, quote), fills);
    }
  }

  /** Every pass that may follow, at every size and fill, keeps own and pooled sales within the premium. */
  ghost predicate EveryPassWithin(s: State) {
    forall step: Step :: step.Pass? && Enabled(s, step) ==> Total(Next(s, step).fills) + s.pooled <= s.row.profit
  }

  /**
   For every unlocked row and history of pooled credits that has sold no more than the premium so
   far: after one more credit every pass keeps own and pooled sales together within the premium if
   and only if the credit is remembered.
   */
  lemma PassAfterCreditExactly(s: State, chunk: real, quote: real)
    requires Native(s.row).Some? && chunk > 0.0 && s.pooled >= 0.0 && Sound(s.row, s.row.profit) && Positive(s.fills)
    requires Total(s.fills) + s.pooled + chunk <= s.row.profit
    ensures EveryPassWithin(Next(s, PoolCredit(chunk, quote))) <==> PoolRemembered(s.row, chunk, s.fills, s.pooled + chunk)
  {
    var s1 := Next(s, PoolCredit(chunk, quote));
    PoolThenPassExactly(s.row, chunk, quote, s.fills, s.pooled + chunk);
    hide Scheduled, PoolRemembered, DustPool.Credited;
    if TogetherWithin(s1.row, s1.fills, s1.pooled) {
      forall step: Step | step.Pass? && Enabled(s1, step) ensures Total(Next(s1, step).fills) + s1.pooled <= s1.row.profit {
        PassWithin(s1, step);
      }
    } else {
      var step := GreedyPass(s1);
    }
  }

  lemma PassWithin(s: State, step: Step)
    requires Native(s.row).Some? && step.Pass? && Enabled(s, step)
    requires TogetherWithin(s.row, s.fills, s.pooled) && Total(s.fills) + s.pooled <= s.row.profit
    ensures Total(Next(s, step).fills) + s.pooled <= s.row.profit
  {
    hide Scheduled, Total, Passed;
    TotalConcat(s.fills, step.sold);
    NothingSold();
    OutageSellsNothing(s.row);
  }

  /** The pass that sells all it may. */
  lemma GreedyPass(s: State) returns (step: Step)
    requires Native(s.row).Some? && !TogetherWithin(s.row, s.fills, s.pooled)
    requires Total(s.fills) + s.pooled <= s.row.profit
    ensures step.Pass? && Enabled(s, step) && Total(Next(s, step).fills) + s.pooled > s.row.profit
  {
    hide Scheduled, Total, Passed, Unswept, AboutToSell;
    var sold := Fill(0, Unswept(Scheduled(s.row, Fetched(s.fills)).0), 0.0, 1);
    step := Pass(true, sold.amount, Done(1), 0.0, [sold]);
    OneFillTotal(sold);
    MaySellAll(s, step, sold);
    TotalConcat(s.fills, [sold]);
    PassAddsFills(s, step);
  }

  lemma OneFillTotal(fill: Fill)
    ensures Total([fill]) == fill.amount
  {
    assert [fill][..0] == [];
  }

  lemma MaySellAll(s: State, step: Step, sold: Fill)
    requires step == Pass(true, sold.amount, Done(1), 0.0, [sold]) && Total([sold]) == sold.amount > 0.0
    requires var r := Scheduled(s.row, Fetched(s.fills)).0; AboutToSell(r, Fetched(s.fills)) && sold.amount == Unswept(r)
    ensures Enabled(s, step)
  {
    hide Scheduled, Total, Unswept, AboutToSell;
  }

  lemma PassAddsFills(s: State, step: Step)
    requires step.Pass? && Enabled(s, step)
    ensures Next(s, step).fills == s.fills + step.sold
  {
    hide Passed, MaySell;
  }

  // ---- Concrete inputs ----

  lemma OneFill(fill: Fill)
    ensures Total([fill]) == fill.amount && TotalQuote([fill]) == fill.quote
    ensures FirstDay([fill]) == [fill] && OfOrder([fill], fill.orderId) == [fill]
  {
    assert [fill][..0] == [];
    assert EarliestDay([fill]) == fill.timestampMs / MS_PER_DAY;
    assert OnDay([fill], fill.timestampMs / MS_PER_DAY) == OnDay([], fill.timestampMs / MS_PER_DAY) + [fill];
  }

  /** A premium of 1, of which 0.4 sold under the own label and 0.6 from the pool, is queued for 0.6 again. */
  lemma PooledPremiumSoldAgain() returns (r: Row, fills: seq<Fill>)
    ensures Native(r) == Some(1.0) && Positive(fills) && Total(fills) == 0.4
    ensures var c := DustPool.Credited(r, 0.6, 60.0); var r1 := Scheduled(c, Fetched(fills)).0;
            && r.exchangeNative == 0.4 && c.exchangeNative == 1.0
            && AboutToSell(r1, Fetched(fills)) && Total(fills) + 0.6 + Unswept(r1) == 1.6
  {
    r := Row(true, true, 1.0, Filled, 0.4, 0.4, 40.0, 40.0, 40.0, 7, {FreeText});
    var sold := Fill(0, 0.4, 40.0, 7);
    fills := [sold];
    OneFill(sold);
    CreditedJournal(r, 0.6, 60.0);
    hide DustPool.Credited, Scheduled, Total, FirstDay;
    PartlySoldIsQueued(DustPool.Credited(r, 0.6, 60.0), fills);
    ScheduledWithFills(DustPool.Credited(r, 0.6, 60.0), fills);
  }

  /** An unqueued row, and a filled one whose exchange total alone reaches the premium, is queued for all of it. */
  lemma WholePremiumQueued(r: Row, chunk: real, quote: real)
    requires Native(r).Some? && chunk > 0.0 && Unlocked(r) && RetainedForCover !in r.reason
    requires r.status == Unset || r.status == Failed || r.status == Skipped
             || (r.status == Filled && ExchangeAfter(r, chunk) == r.profit && AmountAfter(r, chunk) < r.profit)
    ensures var r1 := Scheduled(DustPool.Credited(r, chunk, quote), Fetched([])).0;
            AboutToSell(r1, Fetched([])) && Unswept(r1) == r.profit
  {
    var c := DustPool.Credited(r, chunk, quote);
    CreditedJournal(r, chunk, quote);
    hide DustPool.Credited, Scheduled, Remaining, ExchangeRemaining, AboutToSell, Unswept;
    if r.status == Filled {
      FilledRemaining(c);
    }
    ScheduledWithoutFills(c);
    StillToSell(Scheduled(c, Fetched([])).0);
  }

  /** A premium of 1 credited whole to a failed row is queued again. */
  lemma FailedRowSoldAgain() returns (r: Row)
    ensures Native(r) == Some(1.0) && r.status == Failed && r.exchangeNative == 0.0
    ensures var r1 := Scheduled(DustPool.Credited(r, 1.0, 100.0), Fetched([])).0;
            AboutToSell(r1, Fetched([])) && Unswept(r1) == 1.0
  {
    r := Row(true, true, 1.0, Failed, 0.0, 0.0, 0.0, 0.0, 0.0, 0, {FreeText});
    hide DustPool.Credited, Scheduled, AboutToSell, Unswept;
    WholePremiumQueued(r, 1.0, 100.0);
  }

  /** A filled row of amount 0.5 and exchange total 0.9, credited 0.1, is queued for 1 again. */
  lemma FilledRowSoldAgain() returns (r: Row)
    ensures Native(r) == Some(1.0) && r.status == Filled && r.exchangeNative == 0.9
    ensures var r1 := Scheduled(DustPool.Credited(r, 0.1, 10.0), Fetched([])).0;
            AboutToSell(r1, Fetched([])) && Unswept(r1) == 1.0
  {
    r := Row(true, true, 1.0, Filled, 0.5, 0.9, 90.0, 90.0, 90.0, 0, {FreeText});
    hide DustPool.Credited, Scheduled, AboutToSell, Unswept;
    WholePremiumQueued(r, 0.1, 10.0);
  }
}
