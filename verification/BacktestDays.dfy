/** What one day of the backtest closes, opens and reports (backtest.py:373-375, 409-606, 621-910). */
module BacktestDays {
  import opened Common
  import opened Backtest
  import opened BacktestRuns

  // ---- Opening ----

  lemma FirstHighestIsOne(candidates: seq<Candidate>, i: nat, j: nat)
    requires FirstHighest(candidates, i) && FirstHighest(candidates, j)
    ensures i == j
  {
    assert candidates[i].score <= candidates[j].score <= candidates[i].score;
  }

  /** The last row the day wrote. */
  function LastRow(b: Books): Row
    requires b.rows != []
  {
    b.rows[|b.rows| - 1]
  }

  /**
   When fewer legs than the cap survive the day's closes and the first highest candidate is listed,
   exactly that leg is opened, after the closes; otherwise nothing is.
   */
  lemma DayOpensTheBest(b: Books, day: Day, cfg: Config, i: nat)
    requires FirstHighest(day.candidates, i)
    ensures var after := DayAfter(b, day, cfg); var survivors := Survivors(b.open, day, cfg);
            var traded := b.trades + Closes(b.open, day, cfg); var best := day.candidates[i];
            && after.rows != []
            && if |survivors| < cfg.cap && best.listed
               then && after.open == survivors + [best.leg] && after.trades == traded + [Opened(best.leg, day.ms)]
                    && LastRow(after).openedLegs == 1 && LastRow(after).end.Some?
               else && after.open == survivors && after.trades == traded
                    && LastRow(after).openedLegs == 0 && LastRow(after).end.None?
  {
    hide Survivors, Closes, TotalPnl, Best, FirstHighest;
    BestIsFirstHighest(day.candidates);
    assert day.candidates != [] by {
      ThereIsOne(day.candidates, i);
    }
    var j: nat :| j < |day.candidates| && FirstHighest(day.candidates, j) && day.candidates[j] == Best(day.candidates).value;
    FirstHighestIsOne(day.candidates, i, j);
  }

  lemma ThereIsOne(candidates: seq<Candidate>, i: nat)
    requires FirstHighest(candidates, i)
    ensures candidates != []
  {
  }

  /** A day without candidates opens nothing, and reaches its end unless the cap stopped it. */
  lemma QuietDayOpensNothing(b: Books, day: Day, cfg: Config)
    requires day.candidates == []
    ensures var after := DayAfter(b, day, cfg);
            && after.open == Survivors(b.open, day, cfg) && after.trades == b.trades + Closes(b.open, day, cfg)
            && after.rows != [] && LastRow(after).openedLegs == 0
            && (LastRow(after).end.Some? <==> |after.open| < cfg.cap)
  {
    hide Survivors, Closes, TotalPnl;
  }

  // ---- Closing ----

  predicate Applies(action: Action, leg: Leg, day: Day, cfg: Config) {
    var q := day.quote(leg);
    match action
    case Expiry => day.ms >= leg.expiry
    case HardStop => q.absDelta >= cfg.hardDelta || LossRatio(leg, q) >= cfg.hardLoss
    case TakeProfit => q.mark > 0.0 && q.target >= q.mark
    case EarlyExit => q.lowApr
    case TimeExit => q.timeExit
    case AtEnd => false
  }

  function Rank(action: Action): nat {
    match action
    case Expiry => 0
    case HardStop => 1
    case TakeProfit => 2
    case EarlyExit => 3
    case TimeExit => 4
    case AtEnd => 5
  }

  /** A leg stays open exactly when no path applies; otherwise the most urgent applicable path closes it, that day. */
  lemma MostUrgentPathCloses(leg: Leg, day: Day, cfg: Config)
    ensures var path := ClosePath(leg, day, cfg);
            && (path.None? <==> forall action :: !Applies(action, leg, day, cfg))
            && (path.Some? ==>
                  && path.value.Closed? && path.value.leg == leg && path.value.ms == day.ms
                  && Applies(path.value.action, leg, day, cfg)
                  && forall action :: Applies(action, leg, day, cfg) ==> Rank(path.value.action) <= Rank(action))
  {
    hide PnlAt, ExpiryPnl, LossRatio, EachFee, ExitPrice, SpotOr;
    var path := ClosePath(leg, day, cfg);
    assert path.Some? ==> Applies(path.value.action, leg, day, cfg);
  }

  lemma QuotientReaches(loss: real, most: real, limit: real)
    requires most > 0.0
    ensures loss / most >= limit <==> loss >= limit * most
  {
    var ratio := loss / most;
    assert ratio * most == loss;
    ProductMonotone(ratio, limit, most);
  }

  lemma ProductMonotone(a: real, b: real, c: real)
    requires c > 0.0
    ensures a >= b <==> a * c >= b * c
  {
    assert (a - b) * c == a * c - b * c;
  }

  /** A leg with margin is stopped by its loss exactly when buying it back costs that share of the margin more than it brought in. */
  lemma LossStopsExactly(leg: Leg, day: Day, cfg: Config)
    requires leg.margin > 0.0 && cfg.hardLoss > 0.0 && leg.expiry > day.ms && day.quote(leg).absDelta < cfg.hardDelta
    ensures var path := ClosePath(leg, day, cfg);
            path.Some? && path.value.action == HardStop <==>
            (day.quote(leg).mark - leg.entryPremium) * leg.quantity >= cfg.hardLoss * leg.margin
  {
    var loss := (day.quote(leg).mark - leg.entryPremium) * leg.quantity;
    RatioOf(leg, day.quote(leg));
    HardStopExactly(leg, day, cfg);
    hide ClosePath, LossRatio;
    QuotientReaches(Max(loss, 0.0), leg.margin, cfg.hardLoss);
    ProductMonotone(0.0, cfg.hardLoss, leg.margin);
  }

  lemma RatioOf(leg: Leg, q: Quote)
    requires leg.margin > 0.0
    ensures LossRatio(leg, q) == Max((q.mark - leg.entryPremium) * leg.quantity, 0.0) / leg.margin
  {
  }

  lemma HardStopExactly(leg: Leg, day: Day, cfg: Config)
    ensures var path := ClosePath(leg, day, cfg);
            path.Some? && path.value.action == HardStop <==>
            leg.expiry > day.ms && (day.quote(leg).absDelta >= cfg.hardDelta || LossRatio(leg, day.quote(leg)) >= cfg.hardLoss)
  {
    hide PnlAt, ExpiryPnl, LossRatio, EachFee, ExitPrice, SpotOr;
  }

  /** A leg closed on time without a mark is bought back at its entry premium: it books its two fees alone. */
  lemma TimeExitWithoutMark(leg: Leg, day: Day, cfg: Config)
    requires ClosePath(leg, day, cfg).Some? && ClosePath(leg, day, cfg).value.action == TimeExit
    ensures var q := day.quote(leg); var spot := SpotOr(q.spot, leg);
            ClosePath(leg, day, cfg).value.pnl ==
            if q.mark <= 0.0 then InUsdc(leg, -leg.entryFee - q.exitFee, spot) else PnlAt(leg, q.mark, q.exitFee, spot)
  {
    hide ExpiryPnl, LossRatio, EachFee;
  }

  /** At the end each leg is bought back at its mark, in coin at the last spot, or at its entry spot if that is missing. */
  lemma {:induction false} ForcedCloseExactly(legs: seq<Leg>, day: Day, k: nat)
    requires k < |legs|
    ensures var q := day.quote(legs[k]);
            EndCloses(legs, day)[k] ==
            Closed(AtEnd, legs[k], day.ms, PnlAt(legs[k], q.mark, q.fee, if q.spot != 0.0 then q.spot else legs[k].entrySpot))
  {
    hide PnlAt;
    if k < |legs| - 1 {
      ForcedCloseExactly(legs[..|legs| - 1], day, k);
    }
  }

  /** At expiry a call and a put of one strike differ by what the spot is above it, and one of them is worthless. */
  lemma CallLessPutIsForward(call: Leg, put: Leg, spot: real)
    requires call.call && !put.call && call.strike == put.strike
    ensures Intrinsic(call, spot) - Intrinsic(put, spot) == spot - call.strike
    ensures Min(Intrinsic(call, spot), Intrinsic(put, spot)) == 0.0
  {
  }

  // ---- Expiry of a coin-settled leg ----

  /** The result in the settlement currency's own units: a coin leg pays its intrinsic value in coin of that day. */
  function FairExpiryPnl(leg: Leg, spot: real): real
    requires spot > 0.0
  {
    InUsdc(leg, leg.entryPremium * leg.quantity, spot) - Intrinsic(leg, spot) * leg.quantity
  }

  lemma ConvertedTwice(premium: real, intrinsic: real, quantity: real, spot: real)
    requires quantity != 0.0
    ensures (premium * quantity - intrinsic * quantity) * spot == premium * quantity * spot - intrinsic * quantity
            <==> intrinsic == 0.0 || spot == 1.0
  {
    var paid := intrinsic * quantity;
    assert (premium * quantity - paid) * spot == premium * quantity * spot - paid * spot;
    assert paid * spot == paid <==> paid * (spot - 1.0) == 0.0;
  }

  /** The intrinsic value, already in dollars, is converted once more: right only for a dollar-settled leg or a worthless one. */
  lemma ExpiryIsFairExactly(leg: Leg, q: Quote)
    requires leg.quantity != 0.0 && SpotOr(q.expirySpot, leg) > 0.0
    ensures var spot := SpotOr(q.expirySpot, leg);
            ExpiryPnl(leg, q) == FairExpiryPnl(leg, spot) <==> leg.settlesUsdc || Intrinsic(leg, spot) == 0.0 || spot == 1.0
  {
    hide Intrinsic, SpotOr;
    var spot := SpotOr(q.expirySpot, leg);
    var intrinsic := Intrinsic(leg, spot);
    ConvertedTwice(leg.entryPremium, intrinsic, leg.quantity, spot);
    if !leg.settlesUsdc {
      assert ExpiryPnl(leg, q) == (leg.entryPremium * leg.quantity - intrinsic * leg.quantity) * spot;
      assert FairExpiryPnl(leg, spot) == leg.entryPremium * leg.quantity * spot - intrinsic * leg.quantity;
    }
  }

  /** A coin-settled call sold for 0.1 coin that expires 10 above its strike at a spot of 110 made 1 and books a loss of 1089. */
  lemma CoinLegIsConvertedTwice() returns (leg: Leg, day: Day, cfg: Config)
    ensures leg.call && !leg.settlesUsdc && leg.strike == 100.0 && leg.quantity == 1.0 && leg.entryPremium == 0.1
    ensures day.quote(leg).expirySpot == 110.0 && FairExpiryPnl(leg, 110.0) == 1.0
    ensures ClosePath(leg, day, cfg) == Some(Closed(Expiry, leg, day.ms, -1089.0))
  {
    leg := Leg("BTC-1JAN25-100-C", 5, true, 100.0, false, 1.0, 1, 90.0, 0.1, 0.0, 0.0);
    day := Day(5, _ => Quote(110.0, 95.0, 0.0, 0.0, 0.0, false, false, 0.0, 0.0, 0.0), []);
    cfg := Config(1000.0, 1, 1.0, 1.0);
  }

  // ---- Reporting ----

  function At(days: seq<Day>, cfg: Config, n: nat): Books
    requires n <= |days|
  {
    DaysAfter(Start(cfg), days[..n], cfg)
  }

  /** A row says where its day began, how many legs it closed and opened, and where it ended. */
  predicate Reports(row: Row, day: Day, before: Books, after: Books) {
    && row.ms == day.ms && row.equityStart == before.equity && row.openStart == |before.open|
    && row.closedLegs == |Closings(after.trades)| - |Closings(before.trades)|
    && row.openedLegs == |Opens(after.trades)| - |Opens(before.trades)|
    && (row.end.Some? ==> row.end.value.openCount == |after.open| && row.end.value.equity == after.equity)
  }

  lemma {:induction false} ClosesAreClosings(legs: seq<Leg>, day: Day, cfg: Config)
    ensures |Closings(Closes(legs, day, cfg))| == |Closes(legs, day, cfg)|
  {
    hide ClosePath, Closes, Closings, Survivors;
    NoLegs(day, cfg);
    NoTrades();
    if legs != [] {
      var n := |legs| - 1;
      ClosesAreClosings(legs[..n], day, cfg);
      SnocLegs(legs, n, day, cfg);
      assert legs[..n + 1] == legs;
      var path := ClosePath(legs[n], day, cfg);
      if path.Some? {
        OneTrade(Closes(legs[..n], day, cfg), path.value);
      }
    }
  }

  lemma DayReports(b: Books, day: Day, cfg: Config)
    ensures var after := DayAfter(b, day, cfg);
            |after.rows| == |b.rows| + 1 && after.rows[..|b.rows|] == b.rows && Reports(LastRow(after), day, b, after)
  {
    hide Closes, Survivors, TotalPnl, Opens, Closings, Best;
    var closes := Closes(b.open, day, cfg);
    ClosesAreClosings(b.open, day, cfg);
    ClosesPartition(b.open, day, cfg);
    TradesConcat(b.trades, closes);
    var best := Best(day.candidates);
    if best.Some? {
      OneTrade(b.trades + closes, Opened(best.value.leg, day.ms));
    }
  }

  /** Over every run, row k reports day k. */
  lemma {:induction false} RowsReportTheirDays(days: seq<Day>, cfg: Config, n: nat, k: nat)
    requires k < n <= |days|
    ensures |At(days, cfg, n).rows| == n
    ensures Reports(At(days, cfg, n).rows[k], days[k], At(days, cfg, k), At(days, cfg, k + 1))
  {
    hide DayAfter, Reports;
    assert days[..n][..n - 1] == days[..n - 1] && days[..n][n - 1] == days[n - 1];
    DayReports(At(days, cfg, n - 1), days[n - 1], cfg);
    if n == 1 {
      assert |At(days, cfg, 0).rows| == 0;
    } else {
      RowsReportTheirDays(days, cfg, n - 1, if k < n - 1 then k else 0);
    }
    var earlier := At(days, cfg, n - 1);
    assert At(days, cfg, n) == DayAfter(earlier, days[n - 1], cfg);
    if k < n - 1 {
      assert At(days, cfg, n).rows[..n - 1][k] == earlier.rows[k];
    }
  }
}
