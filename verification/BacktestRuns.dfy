/** What holds of the backtest's ledger at every day boundary and at its end. */
module BacktestRuns {
  import opened Common
  import opened Backtest

  function Opens(trades: seq<Trade>): multiset<Leg> {
    if trades == [] then multiset{}
    else
      var last := trades[|trades| - 1];
      Opens(trades[..|trades| - 1]) + if last.Opened? then multiset{last.leg} else multiset{}
  }

  function Closings(trades: seq<Trade>): multiset<Leg> {
    if trades == [] then multiset{}
    else
      var last := trades[|trades| - 1];
      Closings(trades[..|trades| - 1]) + if last.Closed? then multiset{last.leg} else multiset{}
  }

  lemma {:induction false} TradesConcat(a: seq<Trade>, b: seq<Trade>)
    ensures TotalPnl(a + b) == TotalPnl(a) + TotalPnl(b)
    ensures Opens(a + b) == Opens(a) + Opens(b) && Closings(a + b) == Closings(a) + Closings(b)
  {
    hide TotalPnl, Opens, Closings;
    NoTrades();
    if b == [] {
      assert a + b == a;
    } else {
      var n := |b| - 1;
      TradesConcat(a, b[..n]);
      OneTrade(b[..n], b[n]);
      OneTrade(a + b[..n], b[n]);
      assert b == b[..n] + [b[n]] && a + b == (a + b[..n]) + [b[n]];
    }
  }

  lemma NoTrades()
    ensures TotalPnl([]) == 0.0 && Opens([]) == multiset{} && Closings([]) == multiset{}
  {
  }

  /** A day's closes and survivors are together exactly the legs that were open. */
  lemma {:induction false} ClosesPartition(legs: seq<Leg>, day: Day, cfg: Config)
    ensures Closings(Closes(legs, day, cfg)) + multiset(Survivors(legs, day, cfg)) == multiset(legs)
    ensures Opens(Closes(legs, day, cfg)) == multiset{}
    ensures |Survivors(legs, day, cfg)| <= |legs|
    ensures forall leg :: leg in Survivors(legs, day, cfg) ==> leg in legs && ClosePath(leg, day, cfg).None?
  {
    hide ClosePath, Survivors, Closes, Opens, Closings;
    NoTrades();
    NoLegs(day, cfg);
    if legs != [] {
      var n := |legs| - 1;
      ClosesPartition(legs[..n], day, cfg);
      SnocLegs(legs, n, day, cfg);
      assert legs[..n + 1] == legs && legs == legs[..n] + [legs[n]];
      var path := ClosePath(legs[n], day, cfg);
      if path.Some? {
        ClosedLeg(legs[n], day, cfg);
        OneTrade(Closes(legs[..n], day, cfg), path.value);
      }
    }
  }

  lemma ClosedLeg(leg: Leg, day: Day, cfg: Config)
    requires ClosePath(leg, day, cfg).Some?
    ensures ClosePath(leg, day, cfg).value.Closed? && ClosePath(leg, day, cfg).value.leg == leg
  {
  }

  lemma OneTrade(trades: seq<Trade>, t: Trade)
    ensures Opens(trades + [t]) == Opens(trades) + if t.Opened? then multiset{t.leg} else multiset{}
    ensures Closings(trades + [t]) == Closings(trades) + if t.Closed? then multiset{t.leg} else multiset{}
    ensures TotalPnl(trades + [t]) == TotalPnl(trades) + if t.Closed? then t.pnl else 0.0
  {
    assert (trades + [t])[..|trades|] == trades;
  }

  /** Equity is the capital and every result booked; what was opened is what was closed and what is open. */
  ghost predicate Balanced(b: Books, cfg: Config) {
    && b.equity == cfg.capital + TotalPnl(b.trades)
    && Opens(b.trades) == Closings(b.trades) + multiset(b.open)
  }

  lemma ManagedStaysBalanced(b: Books, day: Day, cfg: Config)
    requires Balanced(b, cfg)
    ensures Balanced(Managed(b, day, cfg), cfg)
  {
    hide Closes, Survivors, TotalPnl, Opens, Closings;
    TradesConcat(b.trades, Closes(b.open, day, cfg));
    ClosesPartition(b.open, day, cfg);
  }

  /** Candidates are instruments that have not expired by that day. */
  ghost predicate Tradable(day: Day) {
    forall c :: c in day.candidates ==> c.leg.expiry > day.ms
  }

  ghost predicate Chronological(days: seq<Day>) {
    && (forall k :: 0 <= k < |days| ==> Tradable(days[k]))
    && (forall k, l :: 0 <= k < l < |days| ==> days[k].ms < days[l].ms)
  }

  /** No candidate scores higher, and no earlier one as high. */
  ghost predicate FirstHighest(candidates: seq<Candidate>, i: nat) {
    && i < |candidates|
    && (forall k :: 0 <= k < |candidates| ==> candidates[k].score <= candidates[i].score)
    && (forall k :: 0 <= k < i ==> candidates[k].score < candidates[i].score)
  }

  lemma {:induction false} BestIsFirstHighest(candidates: seq<Candidate>)
    ensures Best(candidates).None? <==> candidates == []
    ensures Best(candidates).Some? ==> exists i: nat :: i < |candidates| && FirstHighest(candidates, i) && candidates[i] == Best(candidates).value
  {
    hide FirstHighest;
    if candidates != [] {
      var n := |candidates| - 1;
      var init := candidates[..n];
      BestIsFirstHighest(init);
      if init == [] {
        LastHighest(candidates, 0);
      } else {
        var i: nat :| i < |init| && FirstHighest(init, i) && init[i] == Best(init).value;
        LastHighest(candidates, i);
      }
    }
  }

  /** A new last candidate takes over exactly when it scores higher than the best so far. */
  lemma LastHighest(candidates: seq<Candidate>, i: nat)
    requires candidates != []
    requires |candidates| == 1 || FirstHighest(candidates[..|candidates| - 1], i)
    ensures var n := |candidates| - 1;
            if n == 0 || candidates[n].score > candidates[i].score then FirstHighest(candidates, n)
            else i < n && candidates[..n][i] == candidates[i] && FirstHighest(candidates, i)
  {
    var n := |candidates| - 1;
    assert forall k :: 0 <= k < n ==> candidates[..n][k] == candidates[k];
  }

  /** One day keeps the balance and the cap, leaves no expired leg open and opens one leg at most. */
  lemma DayStaysBalanced(b: Books, day: Day, cfg: Config)
    requires Balanced(b, cfg) && Tradable(day)
    ensures var after := DayAfter(b, day, cfg);
            && Balanced(after, cfg)
            && (|b.open| <= Cap(cfg) ==> |after.open| <= Cap(cfg))
            && (forall leg :: leg in after.open ==> leg.expiry > day.ms)
            && after.rows != [] && |after.rows| == |b.rows| + 1
  {
    hide Closes, Survivors, TotalPnl, Opens, Closings, Best, ClosePath;
    ManagedStaysBalanced(b, day, cfg);
    ClosesPartition(b.open, day, cfg);
    var m := Managed(b, day, cfg);
    forall leg | leg in m.open ensures leg.expiry > day.ms {
      OpenLegsLive(leg, day, cfg);
    }
    BestIsFirstHighest(day.candidates);
    if |m.open| < cfg.cap && Best(day.candidates).Some? {
      OneTrade(m.trades, Opened(Best(day.candidates).value.leg, day.ms));
    }
  }

  lemma OpenLegsLive(leg: Leg, day: Day, cfg: Config)
    requires ClosePath(leg, day, cfg).None?
    ensures leg.expiry > day.ms
  {
  }

  function Cap(cfg: Config): int {
    if cfg.cap > 0 then cfg.cap else 0
  }

  /** At every day boundary of every run. */
  lemma {:induction false} EveryBoundaryBalances(days: seq<Day>, cfg: Config, n: nat)
    requires Chronological(days) && n <= |days|
    ensures var b := DaysAfter(Start(cfg), days[..n], cfg);
            && b.equity == cfg.capital + TotalPnl(b.trades)
            && Opens(b.trades) == Closings(b.trades) + multiset(b.open)
            && |Opens(b.trades)| == |Closings(b.trades)| + |b.open|
            && |b.open| <= Cap(cfg)
            && |b.rows| == n
            && (n > 0 ==> forall leg :: leg in b.open ==> leg.expiry > days[n - 1].ms)
  {
    hide DayAfter, TotalPnl, Opens, Closings;
    if n == 0 {
      EmptyBooks(cfg);
    } else {
      EveryBoundaryBalances(days, cfg, n - 1);
      assert days[..n][..n - 1] == days[..n - 1] && days[..n][n - 1] == days[n - 1];
      DayStaysBalanced(DaysAfter(Start(cfg), days[..n - 1], cfg), days[n - 1], cfg);
    }
  }

  lemma EmptyBooks(cfg: Config)
    ensures Balanced(Start(cfg), cfg) && Opens([]) == Closings([]) == multiset{}
  {
  }

  lemma {:induction false} EndClosesAll(legs: seq<Leg>, day: Day)
    ensures Closings(EndCloses(legs, day)) == multiset(legs) && Opens(EndCloses(legs, day)) == multiset{}
  {
    hide PnlAt;
    if legs != [] {
      var n := |legs| - 1;
      EndClosesAll(legs[..n], day);
      var q := day.quote(legs[n]);
      OneTrade(EndCloses(legs[..n], day), Closed(AtEnd, legs[n], day.ms, PnlAt(legs[n], q.mark, q.fee, LastSpotOr(q.spot, legs[n]))));
      assert legs == legs[..n] + [legs[n]];
    }
  }

  /** At the end every leg ever opened has been closed exactly once, and equity is capital plus all results. */
  lemma RunClosesEverythingOnce(days: seq<Day>, cfg: Config)
    requires Chronological(days) && days != []
    ensures var end := Finished(DaysAfter(Start(cfg), days, cfg), days[|days| - 1]);
            && end.open == [] && Opens(end.trades) == Closings(end.trades)
            && end.equity == cfg.capital + TotalPnl(end.trades)
  {
    hide DaysAfter, TotalPnl, Opens, Closings, EndCloses;
    EveryBoundaryBalances(days, cfg, |days|);
    assert days[..|days|] == days;
    var b := DaysAfter(Start(cfg), days, cfg);
    EndClosesAll(b.open, days[|days| - 1]);
    TradesConcat(b.trades, EndCloses(b.open, days[|days| - 1]));
  }

  // ---- Drawdown ----

  /** The highest equity among the capital and the days that reached their end. */
  function PeakOf(rows: seq<Row>, capital: real): real {
    if rows == [] then capital
    else
      var earlier := PeakOf(rows[..|rows| - 1], capital);
      var last := rows[|rows| - 1];
      if last.end.Some? then Max(earlier, last.end.value.equity) else earlier
  }

  /** Each ended day reports its fall from the peak so far; the worst reported fall is the result. */
  ghost predicate DrawdownFaithful(b: Books, cfg: Config) {
    && b.peak == PeakOf(b.rows, cfg.capital)
    && (forall k :: 0 <= k < |b.rows| && b.rows[k].end.Some? ==> FallReported(b.rows, k, cfg.capital) && b.rows[k].end.value.drawdown <= b.worst)
    && (b.worst == 0.0 || exists k :: 0 <= k < |b.rows| && b.rows[k].end.Some? && b.rows[k].end.value.drawdown == b.worst)
    && b.worst >= 0.0
  }

  predicate FallReported(rows: seq<Row>, k: nat, capital: real)
    requires k < |rows| && rows[k].end.Some?
  {
    var peak := PeakOf(rows[..k + 1], capital);
    rows[k].end.value.drawdown == SafeDiv(peak - rows[k].end.value.equity, peak)
  }

  lemma EarlierRowsKeepReports(rows: seq<Row>, row: Row, capital: real)
    ensures forall k :: 0 <= k < |rows| && rows[k].end.Some? ==>
              (FallReported(rows + [row], k, capital) <==> FallReported(rows, k, capital))
    ensures PeakOf(rows + [row], capital) ==
            if row.end.Some? then Max(PeakOf(rows, capital), row.end.value.equity) else PeakOf(rows, capital)
  {
    hide PeakOf, SafeDiv;
    PeakSnoc(rows, row, capital);
    var after := rows + [row];
    forall k | 0 <= k < |rows| && rows[k].end.Some? ensures FallReported(after, k, capital) <==> FallReported(rows, k, capital) {
      assert after[..k + 1] == rows[..k + 1];
    }
  }

  lemma PeakSnoc(rows: seq<Row>, row: Row, capital: real)
    ensures PeakOf(rows + [row], capital) ==
            if row.end.Some? then Max(PeakOf(rows, capital), row.end.value.equity) else PeakOf(rows, capital)
  {
    assert (rows + [row])[..|rows|] == rows;
  }

  lemma QuietRowAdded(b: Books, row: Row, cfg: Config)
    requires DrawdownFaithful(b, cfg) && row.end.None?
    ensures DrawdownFaithful(WithRow(b, row), cfg)
  {
    hide PeakOf, FallReported;
    EarlierRowsKeepReports(b.rows, row, cfg.capital);
    WorstStays(b, WithRow(b, row), row);
  }

  lemma WorstStays(b: Books, after: Books, row: Row)
    requires after.rows == b.rows + [row] && after.worst == b.worst
    requires b.worst == 0.0 || exists k :: 0 <= k < |b.rows| && b.rows[k].end.Some? && b.rows[k].end.value.drawdown == b.worst
    ensures after.worst == 0.0
            || exists k :: 0 <= k < |after.rows| && after.rows[k].end.Some? && after.rows[k].end.value.drawdown == after.worst
  {
    if b.worst != 0.0 {
      var k :| 0 <= k < |b.rows| && b.rows[k].end.Some? && b.rows[k].end.value.drawdown == b.worst;
      assert after.rows[k] == b.rows[k];
    }
  }

  lemma EndRowAdded(b: Books, row: Row, cfg: Config)
    requires DrawdownFaithful(b, cfg)
    ensures DrawdownFaithful(WithEnd(b, row), cfg)
  {
    hide PeakOf, FallReported, SafeDiv;
    var after := WithEnd(b, row);
    var n := |b.rows|;
    var last := after.rows[n];
    EarlierRowsKeepReports(b.rows, last, cfg.capital);
    assert FallReported(after.rows, n, cfg.capital) by {
      LastReported(after.rows, cfg.capital);
    }
    if after.worst == b.worst {
      WorstStays(b, after, last);
    } else {
      assert last.end.value.drawdown == after.worst;
    }
  }

  lemma LastReported(rows: seq<Row>, capital: real)
    requires rows != [] && rows[|rows| - 1].end.Some?
    requires var end := rows[|rows| - 1].end.value; var peak := PeakOf(rows, capital);
             end.drawdown == SafeDiv(peak - end.equity, peak)
    ensures FallReported(rows, |rows| - 1, capital)
  {
    assert rows[..|rows|] == rows;
  }

  lemma DayStaysFaithful(b: Books, day: Day, cfg: Config)
    requires DrawdownFaithful(b, cfg)
    ensures DrawdownFaithful(DayAfter(b, day, cfg), cfg)
  {
    hide DrawdownFaithful, WithEnd, WithRow, Closes, Survivors, TotalPnl, Best;
    var m := Managed(b, day, cfg);
    var row := Row(day.ms, 0, |Closes(b.open, day, cfg)|, |b.open|, b.equity, None);
    OnlyRowsMatter(b, m, cfg);
    QuietRowAdded(m, row, cfg);
    EndRowAdded(m, row, cfg);
    var best := Best(day.candidates);
    if best.Some? {
      var opened1 := m.(open := m.open + [best.value.leg], trades := m.trades + [Opened(best.value.leg, day.ms)]);
      OnlyRowsMatter(b, opened1, cfg);
      EndRowAdded(opened1, row.(openedLegs := 1), cfg);
    }
  }

  lemma OnlyRowsMatter(b: Books, c: Books, cfg: Config)
    requires DrawdownFaithful(b, cfg) && c.rows == b.rows && c.peak == b.peak && c.worst == b.worst
    ensures DrawdownFaithful(c, cfg)
  {
  }

  /** The reported maximum drawdown is the worst fall from the running peak, over the days that reached their end. */
  lemma {:induction false} DrawdownIsWorstFall(days: seq<Day>, cfg: Config)
    ensures DrawdownFaithful(DaysAfter(Start(cfg), days, cfg), cfg)
  {
    hide DayAfter, DrawdownFaithful;
    if days == [] {
      StartIsFaithful(cfg);
    } else {
      DrawdownIsWorstFall(days[..|days| - 1], cfg);
      DayStaysFaithful(DaysAfter(Start(cfg), days[..|days| - 1], cfg), days[|days| - 1], cfg);
    }
  }

  lemma StartIsFaithful(cfg: Config)
    ensures DrawdownFaithful(Start(cfg), cfg)
  {
  }
}
