/**
 The sweep never sells a premium twice: an exact condition for one pass, and safety over
 every run of passes, reconciles, crashes and outages.
 */
module ProfitSweepSafety {
  import opened Common
  import opened ProfitSweep

  // ---- Sums over fills ----

  lemma TotalAppend(fills: seq<Fill>, fill: Fill)
    ensures Total(fills + [fill]) == Total(fills) + fill.amount
  {
    assert (fills + [fill])[..|fills + [fill]| - 1] == fills;
  }

  lemma {:induction false} DayTotals(fills: seq<Fill>, day: nat)
    requires Positive(fills)
    ensures 0.0 <= Total(OnDay(fills, day)) <= Total(fills)
    ensures OnDay(fills, day) != [] ==> Total(OnDay(fills, day)) > 0.0
  {
    if fills != [] {
      DayTotals(fills[..|fills| - 1], day);
      TotalAppend(OnDay(fills[..|fills| - 1], day), fills[|fills| - 1]);
    }
  }

  lemma {:induction false} OrderTotals(fills: seq<Fill>, orderId: nat)
    requires Positive(fills)
    ensures 0.0 <= Total(OfOrder(fills, orderId)) <= Total(fills)
  {
    if fills != [] {
      OrderTotals(fills[..|fills| - 1], orderId);
      TotalAppend(OfOrder(fills[..|fills| - 1], orderId), fills[|fills| - 1]);
    }
  }

  lemma {:induction false} EarliestDayOccurs(fills: seq<Fill>)
    requires fills != []
    ensures exists k :: 0 <= k < |fills| && fills[k].timestampMs / MS_PER_DAY == EarliestDay(fills)
  {
    if |fills| == 1 {
      assert fills[0].timestampMs / MS_PER_DAY == EarliestDay(fills);
    } else if fills[0].timestampMs / MS_PER_DAY != EarliestDay(fills) {
      EarliestDayOccurs(fills[1..]);
      var k :| 0 <= k < |fills| - 1 && fills[1..][k].timestampMs / MS_PER_DAY == EarliestDay(fills[1..]);
      assert fills[k + 1] == fills[1..][k];
    }
  }

  lemma {:induction false} DayKeepsItsFill(fills: seq<Fill>, k: nat)
    requires k < |fills|
    ensures OnDay(fills, fills[k].timestampMs / MS_PER_DAY) != []
  {
    if k < |fills| - 1 {
      DayKeepsItsFill(fills[..|fills| - 1], k);
    }
  }

  lemma {:induction false} TotalPositive(fills: seq<Fill>)
    requires Positive(fills)
    ensures Total(fills) >= 0.0
    ensures fills != [] ==> Total(fills) > 0.0
  {
    if fills != [] {
      TotalPositive(fills[..|fills| - 1]);
    }
  }

  /** What the guard credits is part of what was sold, and nothing only when nothing was sold. */
  lemma CreditedAreFills(r: Row, fills: seq<Fill>)
    requires Positive(fills)
    ensures 0.0 <= Total(FirstDay(fills)) <= Total(fills)
    ensures 0.0 <= Total(Attributed(r, fills)) <= Total(fills)
    ensures fills != [] ==> FirstDay(fills) != [] && Total(FirstDay(fills)) > 0.0 && Total(fills) > 0.0
  {
    TotalPositive(fills);
    OrderTotals(fills, r.orderId);
    if fills != [] {
      EarliestDayOccurs(fills);
      var k :| 0 <= k < |fills| && fills[k].timestampMs / MS_PER_DAY == EarliestDay(fills);
      DayKeepsItsFill(fills, k);
      DayTotals(fills, EarliestDay(fills));
    }
  }

  // ---- One pass, any row ----

  /** Whatever the sizing leaves of it, the order the pass may place keeps the labelled fills within the premium. */
  predicate OrderIsSafe(r: Row, fills: seq<Fill>)
    requires Native(r).Some?
  {
    var r1 := Scheduled(r, Fetched(fills)).0;
    AboutToSell(r1, Fetched(fills)) ==> Total(fills) + Unswept(r1) <= r.profit
  }

  /** A locked full-premium queue, which is never reconciled with a partial fill. */
  predicate LockedQueue(r: Row, fills: seq<Fill>) {
    && RetainedForCover !in r.reason
    && r.status == Pending && Locked(r) && r.amount >= r.profit && 0.0 < Total(fills) < r.profit
  }

  /** The sweep the pass announces keeps the labelled fills within the premium. */
  predicate PassIsSafe(r: Row, fills: seq<Fill>)
    requires Native(r).Some?
  {
    var r1 := Scheduled(r, Fetched(fills)).0;
    AboutToSell(r1, Fetched(fills)) ==> Total(fills) + ToSweep(r1) <= r.profit
  }

  /** The rows on which the overloaded amount is read the wrong way. */
  predicate Misread(r: Row, fills: seq<Fill>) {
    var swept := Total(fills);
    || LockedQueue(r, fills)
    || (RetainedForCover !in r.reason && swept == 0.0
        && ( // a queue above the premium
             || (r.status == Pending && r.amount > r.profit)
             // pooled sales above the premium become the queued amount
             || (r.status == Filled && 0.0 < r.amount < r.profit && r.exchangeNative > r.profit)))
  }

  /** What one synchronisation may change, and when it blocks, once fills are known. */
  lemma GuardWithFills(r: Row, fills: seq<Fill>)
    requires Native(r).Some? && Positive(fills) && 0.0 < Total(fills) < r.profit
    ensures var (g, blocked) := Guarded(r, Fetched(fills));
            && Native(g) == Native(r)
            && (RetainedForCover in g.reason <==> RetainedForCover in r.reason)
            && (DuplicateRepaired in g.reason <==> DuplicateRepaired in r.reason)
            && (AmountSynced in g.reason <==> AmountSynced in r.reason)
            && (blocked ==> Locked(g) && Remaining(g) <= 0.0 && g.status == r.status && g.amount == r.amount)
            && (g.status == r.status || g.status == Filled)
            && (g.status == Pending ==> g == r)
            && (g != r && g.status == Filled && r.status != Filled ==> 0.0 < g.amount < g.profit)
  {
    hide Guarded, Refreshed, Total, FirstDay, Remaining, Locked;
    GuardOutcome(r, fills);
    RefreshedKeepsJournal(r, Fetched(fills));
  }

  /** With part of the premium sold the guard only refreshes, or takes over a larger credit. */
  lemma GuardOutcome(r: Row, fills: seq<Fill>)
    requires Native(r).Some? && Positive(fills) && 0.0 < Total(fills) < r.profit
    ensures var f := Refreshed(r, Fetched(fills));
            var (g, blocked) := Guarded(r, Fetched(fills));
            || (g == f && blocked == (Locked(f) && Remaining(f) <= 0.0))
            || (!blocked && f.amount < g.amount == Total(FirstDay(fills)) && 0.0 < g.amount < r.profit
                && g == f.(status := Filled, amount := g.amount, orderId := g.orderId, quote := g.quote, lifetimeQuote := g.lifetimeQuote))
  {
    assert fills != [];
    CreditedAreFills(r, fills);
    RefreshedKeepsJournal(r, Fetched(fills));
    hide *;
    var f := Refreshed(r, Fetched(fills));
    var trades := FirstDay(fills);
    GuardBranches(r, f, fills, trades);
  }

  lemma GuardBranches(r: Row, f: Row, fills: seq<Fill>, trades: seq<Fill>)
    requires Native(r).Some? && f == Refreshed(r, Fetched(fills)) && trades == FirstDay(fills) && trades != []
    requires f == r.(exchangeNative := f.exchangeNative, exchangeQuote := f.exchangeQuote)
    requires 0.0 < Total(trades) < r.profit
    ensures var (g, blocked) := Guarded(r, Fetched(fills));
            || (g == f && blocked == (Locked(f) && Remaining(f) <= 0.0))
            || (!blocked && f.amount < g.amount == Total(trades)
                && g == f.(status := Filled, amount := g.amount, orderId := g.orderId, quote := g.quote, lifetimeQuote := g.lifetimeQuote))
  {
    hide Refreshed, FirstDay, Total, TotalQuote, Locked, Remaining;
  }

  /** A refresh touches only the exchange totals, and those of a filled row alone. */
  lemma RefreshedKeepsJournal(r: Row, fetch: Fetch)
    ensures var f := Refreshed(r, fetch);
            && f == r.(exchangeNative := f.exchangeNative, exchangeQuote := f.exchangeQuote)
            && (r.status != Filled ==> f == r)
  {
    hide Attributed;
  }

  lemma WithoutFills(r: Row)
    requires Native(r).Some?
    ensures PassIsSafe(r, []) <==> !Misread(r, [])
    ensures OrderIsSafe(r, [])
  {
    assert Guarded(r, Fetched([])) == (r, Locked(r) && Remaining(r) <= 0.0);
    assert WouldSchedule(r, Fetched([])).0 == r;
  }

  /** A queued row leaves the scheduler holding exactly what was sold, unless its lock kept it out. */
  lemma QueuedWithFills(r: Row, fills: seq<Fill>)
    requires Native(r).Some? && Positive(fills) && 0.0 < Total(fills) < r.profit
    ensures var e := EnsuredPending(r, Fetched(fills)).0;
            && Native(e) == Native(r)
            && (RetainedForCover in e.reason <==> RetainedForCover in r.reason)
            && (e.status == Pending && RetainedForCover !in r.reason ==>
                  e.amount == Total(fills) || (e == r && Locked(r) && Remaining(r) <= 0.0))
  {
    hide Guarded, Remaining, Locked, Total;
    var g := Guarded(r, Fetched(fills)).0;
    GuardWithFills(r, fills);
    GuardWithFills(g, fills);
  }

  /** What the scheduler leaves of a partly sold row: the exact rest, or a full premium behind a lock. */
  lemma ScheduledWithFills(r: Row, fills: seq<Fill>)
    requires Native(r).Some? && Positive(fills) && 0.0 < Total(fills) < r.profit && RetainedForCover !in r.reason
    ensures var e := Scheduled(r, Fetched(fills)).0;
            && Native(e) == Native(r) && RetainedForCover !in e.reason
            && (e.status == Pending ==> e.amount == Total(fills) || (e == r && Locked(r) && Remaining(r) <= 0.0))
            && (r.status == Pending && Locked(r) && Remaining(r) <= 0.0 ==> e == r)
  {
    hide Guarded, Remaining, ToSweep, Total, EnsuredPending;
    GuardWithFills(r, fills);
    QueuedWithFills(Guarded(r, Fetched(fills)).0, fills);
    if r.status == Pending && Locked(r) && Remaining(r) <= 0.0 {
      LockedPendingStays(r, fills);
    }
  }

  lemma LockedPendingStays(r: Row, fills: seq<Fill>)
    requires Native(r).Some? && r.status == Pending && Locked(r) && Remaining(r) <= 0.0
    ensures Guarded(r, Fetched(fills)) == (r, true)
  {
    hide Remaining, Attributed;
  }

  lemma RetainedStaysPut(r: Row, fills: seq<Fill>)
    requires Native(r).Some? && Positive(fills) && 0.0 < Total(fills) < r.profit && RetainedForCover in r.reason
    ensures !AboutToSell(Scheduled(r, Fetched(fills)).0, Fetched(fills))
  {
    hide Guarded, Remaining, ExchangeRemaining, Total, EnsuredPending;
    GuardWithFills(r, fills);
    QueuedWithFills(Guarded(r, Fetched(fills)).0, fills);
  }

  lemma WithFills(r: Row, fills: seq<Fill>)
    requires Native(r).Some? && Positive(fills) && 0.0 < Total(fills) < r.profit
    ensures PassIsSafe(r, fills) <==> !Misread(r, fills)
    ensures OrderIsSafe(r, fills) <==> !LockedQueue(r, fills)
  {
    hide Scheduled, Total;
    if RetainedForCover in r.reason {
      RetainedStaysPut(r, fills);
    } else {
      ScheduledWithFills(r, fills);
    }
  }

  lemma SoldOut(r: Row, fills: seq<Fill>)
    requires Native(r).Some? && Positive(fills) && Total(fills) >= r.profit
    ensures !AboutToSell(Scheduled(r, Fetched(fills)).0, Fetched(fills))
  {
    hide EnsuredPending, Guarded, Remaining, ToSweep, Total;
    QueueKeepsPremium(r, Fetched(fills));
  }

  lemma GuardKeepsPremium(r: Row, fetch: Fetch)
    ensures Native(Guarded(r, fetch).0) == Native(r)
  {
  }

  lemma QueueKeepsPremium(r: Row, fetch: Fetch)
    ensures Native(Scheduled(r, fetch).0) == Native(r)
  {
    hide Guarded, Remaining, ToSweep, ExchangeRemaining;
    var g := Guarded(r, fetch).0;
    var h := Guarded(g, fetch).0;
    GuardKeepsPremium(r, fetch);
    GuardKeepsPremium(g, fetch);
    GuardKeepsPremium(h, fetch);
    GuardKeepsPremium(WouldSchedule(h, fetch).0, fetch);
  }

  /**
   For every row, whatever its reason and amounts: the pass may order more than the premium
   leaves if and only if the row is a full-premium queue locked after a partial fill.
   */
  lemma OrderIsSafeExactly(r: Row, fills: seq<Fill>)
    requires Native(r).Some? && Positive(fills)
    ensures OrderIsSafe(r, fills) <==> !LockedQueue(r, fills)
  {
    hide Scheduled;
    TotalPositive(fills);
    if fills == [] {
      WithoutFills(r);
    } else if Total(fills) < r.profit {
      WithFills(r, fills);
    } else {
      SoldOut(r, fills);
    }
  }

  /**
   The announced sweep is safe if and only if the row is not one of the three that misread the
   amount; on the last two only the announcement is too large, the order is capped.
   */
  lemma PassIsSafeExactly(r: Row, fills: seq<Fill>)
    requires Native(r).Some? && Positive(fills)
    ensures PassIsSafe(r, fills) <==> !Misread(r, fills)
  {
    hide Scheduled;
    TotalPositive(fills);
    if fills == [] {
      WithoutFills(r);
    } else if Total(fills) < r.profit {
      WithFills(r, fills);
    } else {
      SoldOut(r, fills);
    }
  }
}
