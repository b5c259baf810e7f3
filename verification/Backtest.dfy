/**
 The position and equity ledger of the backtest (backtest.py:336-620, 653-656, 881-1024).
 Prices, fees, deltas and gates are given: one quote per leg and day, one candidate list per day.
 */
module Backtest {
  import opened Common

  datatype Leg = Leg(
    instrument: string,
    expiry: int,
    call: bool,
    strike: real,
    settlesUsdc: bool,
    quantity: real,
    entryMs: int,
    entrySpot: real,
    entryPremium: real,
    entryFee: real,
    margin: real)

  /** `fee` is for the whole leg at `mark`, `feeEach` for one contract, `exitFee` for the whole leg at the exit price. */
  datatype Quote = Quote(
    expirySpot: real,
    spot: real,
    mark: real,
    absDelta: real,
    target: real,
    lowApr: bool,
    timeExit: bool,
    fee: real,
    feeEach: real,
    exitFee: real)

  datatype Candidate = Candidate(score: real, listed: bool, leg: Leg)

  datatype Day = Day(ms: int, quote: Leg -> Quote, candidates: seq<Candidate>)

  datatype Config = Config(capital: real, cap: int, hardDelta: real, hardLoss: real)

  datatype Action = Expiry | HardStop | TakeProfit | EarlyExit | TimeExit | AtEnd

  datatype Trade =
    | Opened(leg: Leg, ms: int)
    | Closed(action: Action, leg: Leg, ms: int, pnl: real)

  /** `end` is absent on a day that stopped at the cap or at an unlisted choice. */
  datatype Row = Row(ms: int, openedLegs: int, closedLegs: int, openStart: int, equityStart: real, end: Option<RowEnd>)

  datatype RowEnd = RowEnd(openCount: int, equity: real, drawdown: real)

  datatype Books = Books(equity: real, open: seq<Leg>, trades: seq<Trade>, peak: real, worst: real, rows: seq<Row>)

  // ---- Closing a leg ----

  function InUsdc(leg: Leg, amount: real, spot: real): real {
    if leg.settlesUsdc then amount else amount * spot
  }

  /** Bought back at `close`. */
  function PnlAt(leg: Leg, close: real, fee: real, spot: real): real {
    InUsdc(leg, (leg.entryPremium - close) * leg.quantity - leg.entryFee - fee, spot)
  }

  function SpotOr(spot: real, leg: Leg): real {
    if spot <= 0.0 then leg.entrySpot else spot
  }

  /** The forced close falls back on a missing price alone. */
  function LastSpotOr(spot: real, leg: Leg): real {
    if spot == 0.0 then leg.entrySpot else spot
  }

  function Intrinsic(leg: Leg, spot: real): real {
    Max(if leg.call then spot - leg.strike else leg.strike - spot, 0.0)
  }

  function ExpiryPnl(leg: Leg, q: Quote): real {
    var spot := SpotOr(q.expirySpot, leg);
    InUsdc(leg, leg.entryPremium * leg.quantity - Intrinsic(leg, spot) * leg.quantity, spot)
  }

  function LossRatio(leg: Leg, q: Quote): real {
    var maxLoss := if leg.margin > 0.0 then leg.margin else leg.entryPremium * leg.quantity;
    SafeDiv(Max((q.mark - leg.entryPremium) * leg.quantity, 0.0), maxLoss)
  }

  function ExitPrice(leg: Leg, q: Quote): real {
    if q.mark > 0.0 then q.mark else leg.entryPremium
  }

  function EachFee(leg: Leg, q: Quote): real {
    q.feeEach * leg.quantity
  }

  /** The first of the five close paths that applies, with its result; None while the leg stays open. */
  function ClosePath(leg: Leg, day: Day, cfg: Config): Option<Trade> {
    var q := day.quote(leg);
    var spot := SpotOr(q.spot, leg);
    if leg.expiry <= day.ms then Some(Closed(Expiry, leg, day.ms, ExpiryPnl(leg, q)))
    else if q.absDelta >= cfg.hardDelta || LossRatio(leg, q) >= cfg.hardLoss
    then Some(Closed(HardStop, leg, day.ms, PnlAt(leg, q.mark, q.fee, spot)))
    else if 0.0 < q.mark <= q.target then Some(Closed(TakeProfit, leg, day.ms, PnlAt(leg, q.mark, q.fee, spot)))
    else if q.lowApr then Some(Closed(EarlyExit, leg, day.ms, PnlAt(leg, q.mark, EachFee(leg, q), spot)))
    else if q.timeExit then Some(Closed(TimeExit, leg, day.ms, PnlAt(leg, ExitPrice(leg, q), q.exitFee, spot)))
    else None
  }

  // ---- One day ----

  function Survivors(legs: seq<Leg>, day: Day, cfg: Config): seq<Leg> {
    if legs == [] then []
    else
      var rest := Survivors(legs[..|legs| - 1], day, cfg);
      var leg := legs[|legs| - 1];
      if ClosePath(leg, day, cfg).None? then rest + [leg] else rest
  }

  function Closes(legs: seq<Leg>, day: Day, cfg: Config): seq<Trade> {
    if legs == [] then []
    else
      var rest := Closes(legs[..|legs| - 1], day, cfg);
      var path := ClosePath(legs[|legs| - 1], day, cfg);
      if path.Some? then rest + [path.value] else rest
  }

  function TotalPnl(trades: seq<Trade>): real {
    if trades == [] then 0.0
    else
      var last := trades[|trades| - 1];
      TotalPnl(trades[..|trades| - 1]) + if last.Closed? then last.pnl else 0.0
  }

  function Managed(b: Books, day: Day, cfg: Config): Books {
    var closes := Closes(b.open, day, cfg);
    b.(equity := b.equity + TotalPnl(closes), open := Survivors(b.open, day, cfg), trades := b.trades + closes)
  }

  /** The first candidate of the highest score. */
  function Best(candidates: seq<Candidate>): Option<Candidate> {
    if candidates == [] then None
    else
      var best := Best(candidates[..|candidates| - 1]);
      var last := candidates[|candidates| - 1];
      if best.None? || last.score > best.value.score then Some(last) else best
  }

  function WithRow(b: Books, row: Row): Books {
    b.(rows := b.rows + [row])
  }

  function WithEnd(b: Books, row: Row): Books {
    var peak := Max(b.peak, b.equity);
    var drawdown := SafeDiv(Max(peak - b.equity, 0.0), peak);
    b.(peak := peak, worst := Max(b.worst, drawdown),
       rows := b.rows + [row.(end := Some(RowEnd(|b.open|, b.equity, drawdown)))])
  }

  function DayAfter(b: Books, day: Day, cfg: Config): Books {
    var m := Managed(b, day, cfg);
    var row := Row(day.ms, 0, |Closes(b.open, day, cfg)|, |b.open|, b.equity, None);
    if |m.open| >= cfg.cap then WithRow(m, row)
    else
      match Best(day.candidates)
      case None => WithEnd(m, row)
      case Some(c) =>
        if !c.listed then WithRow(m, row)
        else WithEnd(m.(open := m.open + [c.leg], trades := m.trades + [Opened(c.leg, day.ms)]), row.(openedLegs := 1))
  }

  function DaysAfter(b: Books, days: seq<Day>, cfg: Config): Books {
    if days == [] then b else DayAfter(DaysAfter(b, days[..|days| - 1], cfg), days[|days| - 1], cfg)
  }

  /** The forced closes of the legs still open, in order. */
  function EndCloses(legs: seq<Leg>, day: Day): (trades: seq<Trade>)
    ensures |trades| == |legs|
  {
    if legs == [] then []
    else
      var leg := legs[|legs| - 1];
      var q := day.quote(leg);
      EndCloses(legs[..|legs| - 1], day) + [Closed(AtEnd, leg, day.ms, PnlAt(leg, q.mark, q.fee, LastSpotOr(q.spot, leg)))]
  }

  function Finished(b: Books, last: Day): Books {
    var closes := EndCloses(b.open, last);
    b.(equity := b.equity + TotalPnl(closes), open := [], trades := b.trades + closes)
  }

  function Start(cfg: Config): Books {
    Books(cfg.capital, [], [], cfg.capital, 0.0, [])
  }

  // ---- The run ----

  method PickBest(candidates: seq<Candidate>) returns (best: Option<Candidate>)
    ensures best == Best(candidates)
  {
    best := None;
    for k := 0 to |candidates|
      invariant best == Best(candidates[..k])
    {
      assert candidates[..k + 1][..k] == candidates[..k];
      if best.None? || candidates[k].score > best.value.score {
        best := Some(candidates[k]);
      }
    }
    assert candidates[..|candidates|] == candidates;
  }

  class Ledger {
    const cfg: Config
    var equity: real
    var open: seq<Leg>
    var trades: seq<Trade>
    var peak: real
    var worst: real
    var rows: seq<Row>

    constructor (cfg: Config)
      ensures this.cfg == cfg && State() == Start(cfg)
    {
      this.cfg := cfg;
      equity, open, trades, peak, worst, rows := cfg.capital, [], [], cfg.capital, 0.0, [];
    }

    function State(): Books
      reads this
    {
      Books(equity, open, trades, peak, worst, rows)
    }

    method Book(trade: Trade)
      requires trade.Closed?
      modifies this`equity, this`trades
      ensures equity == old(equity) + trade.pnl && trades == old(trades) + [trade]
    {
      equity := equity + trade.pnl;
      trades := trades + [trade];
    }

    method CloseLeg(leg: Leg, day: Day) returns (closed: bool)
      modifies this`equity, this`trades
      ensures var path := ClosePath(leg, day, cfg);
              && closed == path.Some?
              && equity == (if closed then old(equity) + path.value.pnl else old(equity))
              && trades == (if closed then old(trades) + [path.value] else old(trades))
    {
      hide PnlAt, LossRatio, ExpiryPnl, SpotOr, ExitPrice, EachFee;
      var q := day.quote(leg);
      if leg.expiry <= day.ms {
        Book(Closed(Expiry, leg, day.ms, ExpiryPnl(leg, q)));
        return true;
      }
      var spot := SpotOr(q.spot, leg);
      if q.absDelta >= cfg.hardDelta || LossRatio(leg, q) >= cfg.hardLoss {
        Book(Closed(HardStop, leg, day.ms, PnlAt(leg, q.mark, q.fee, spot)));
        return true;
      }
      if q.mark > 0.0 && q.mark <= q.target {
        Book(Closed(TakeProfit, leg, day.ms, PnlAt(leg, q.mark, q.fee, spot)));
        return true;
      }
      if q.lowApr {
        Book(Closed(EarlyExit, leg, day.ms, PnlAt(leg, q.mark, EachFee(leg, q), spot)));
        return true;
      }
      if q.timeExit {
        Book(Closed(TimeExit, leg, day.ms, PnlAt(leg, ExitPrice(leg, q), q.exitFee, spot)));
        return true;
      }
      return false;
    }

    method ManageLegs(day: Day) returns (closed: int)
      modifies this`equity, this`trades, this`open
      ensures State() == Managed(old(State()), day, cfg) && closed == |Closes(old(open), day, cfg)|
    {
      hide ClosePath, Survivors, Closes, TotalPnl;
      var stillOpen: seq<Leg> := [];
      closed := 0;
      NoLegs(day, cfg);
      assert open[..0] == [];
      for k := 0 to |open|
        invariant open == old(open)
        invariant stillOpen == Survivors(open[..k], day, cfg) && closed == |Closes(open[..k], day, cfg)|
        invariant trades == old(trades) + Closes(open[..k], day, cfg)
        invariant equity == old(equity) + TotalPnl(Closes(open[..k], day, cfg))
      {
        SnocLegs(open, k, day, cfg);
        var gone := CloseLeg(open[k], day);
        if gone {
          closed := closed + 1;
        } else {
          stillOpen := stillOpen + [open[k]];
        }
      }
      assert open[..|open|] == open;
      open := stillOpen;
    }

    method RecordEnd(row: Row)
      modifies this`peak, this`worst, this`rows
      ensures State() == WithEnd(old(State()), row)
    {
      if equity > peak {
        peak := equity;
      }
      var drawdown := SafeDiv(Max(peak - equity, 0.0), peak);
      if drawdown > worst {
        worst := drawdown;
      }
      rows := rows + [row.(end := Some(RowEnd(|open|, equity, drawdown)))];
    }

    method RunDay(day: Day)
      modifies this
      ensures State() == DayAfter(old(State()), day, cfg)
    {
      hide Managed, Closes, Best;
      var row := Row(day.ms, 0, 0, |open|, equity, None);
      var closed := ManageLegs(day);
      row := row.(closedLegs := closed);
      if |open| >= cfg.cap {
        rows := rows + [row];
        return;
      }
      var best := PickBest(day.candidates);
      if best.Some? {
        if !best.value.listed {
          rows := rows + [row];
          return;
        }
        open := open + [best.value.leg];
        trades := trades + [Opened(best.value.leg, day.ms)];
        row := row.(openedLegs := 1);
      }
      RecordEnd(row);
    }

    method CloseAll(last: Day)
      modifies this`equity, this`trades, this`open
      ensures State() == Finished(old(State()), last)
    {
      hide PnlAt, EndCloses, TotalPnl;
      var legs := open;
      NothingToClose(last);
      assert legs[..0] == [];
      for k := 0 to |legs|
        invariant open == legs[k..]
        invariant trades == old(trades) + EndCloses(legs[..k], last)
        invariant equity == old(equity) + TotalPnl(EndCloses(legs[..k], last))
      {
        var leg := open[0];
        var q := last.quote(leg);
        NextClose(legs, k, last);
        Book(Closed(AtEnd, leg, last.ms, PnlAt(leg, q.mark, q.fee, LastSpotOr(q.spot, leg))));
        open := open[1..];
      }
      assert legs[..|legs|] == legs;
    }

    method Run(days: seq<Day>)
      requires State() == Start(cfg) && days != []
      modifies this
      ensures State() == Finished(DaysAfter(Start(cfg), days, cfg), days[|days| - 1])
    {
      hide DayAfter, Finished, Start;
      for k := 0 to |days|
        invariant State() == DaysAfter(Start(cfg), days[..k], cfg)
      {
        assert days[..k + 1][..k] == days[..k];
        RunDay(days[k]);
      }
      assert days[..|days|] == days;
      CloseAll(days[|days| - 1]);
    }
  }

  lemma NothingToClose(last: Day)
    ensures EndCloses([], last) == [] && TotalPnl([]) == 0.0
  {
  }

  lemma NextClose(legs: seq<Leg>, k: nat, last: Day)
    requires k < |legs|
    ensures var q := last.quote(legs[k]); var pnl := PnlAt(legs[k], q.mark, q.fee, LastSpotOr(q.spot, legs[k]));
            && EndCloses(legs[..k + 1], last) == EndCloses(legs[..k], last) + [Closed(AtEnd, legs[k], last.ms, pnl)]
            && TotalPnl(EndCloses(legs[..k + 1], last)) == TotalPnl(EndCloses(legs[..k], last)) + pnl
  {
    hide PnlAt, LastSpotOr, TotalPnl;
    assert legs[..k + 1][..k] == legs[..k];
    var q := last.quote(legs[k]);
    SnocPnl(EndCloses(legs[..k], last), Closed(AtEnd, legs[k], last.ms, PnlAt(legs[k], q.mark, q.fee, LastSpotOr(q.spot, legs[k]))));
  }

  lemma SnocPnl(trades: seq<Trade>, t: Trade)
    ensures TotalPnl(trades + [t]) == TotalPnl(trades) + if t.Closed? then t.pnl else 0.0
  {
    assert (trades + [t])[..|trades|] == trades;
  }

  lemma NoLegs(day: Day, cfg: Config)
    ensures Survivors([], day, cfg) == [] && Closes([], day, cfg) == [] && TotalPnl([]) == 0.0
  {
  }

  lemma SnocLegs(legs: seq<Leg>, k: nat, day: Day, cfg: Config)
    requires k < |legs|
    ensures var path := ClosePath(legs[k], day, cfg);
            var closes := Closes(legs[..k], day, cfg);
            && Survivors(legs[..k + 1], day, cfg) ==
               (if path.None? then Survivors(legs[..k], day, cfg) + [legs[k]] else Survivors(legs[..k], day, cfg))
            && Closes(legs[..k + 1], day, cfg) == (if path.Some? then closes + [path.value] else closes)
            && (path.Some? ==> path.value.Closed? && TotalPnl(closes + [path.value]) == TotalPnl(closes) + path.value.pnl)
  {
    assert legs[..k + 1][..k] == legs[..k];
    var path := ClosePath(legs[k], day, cfg);
    if path.Some? {
      SnocPnl(Closes(legs[..k], day, cfg), path.value);
    }
  }
}
