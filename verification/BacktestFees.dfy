/** Which results of the backtest take off the entry fee, leg by leg and over whole runs (backtest.py:409-620). */
module BacktestFees {
  import opened Common
  import opened Backtest
  import opened BacktestRuns

  /** How a leg is closed: at what price, with what closing fee, converted at what spot. */
  datatype Terms = Terms(price: real, fee: real, spot: real)

  function TermsOf(action: Action, leg: Leg, q: Quote): Terms {
    match action
    case Expiry => Terms(Intrinsic(leg, SpotOr(q.expirySpot, leg)), 0.0, SpotOr(q.expirySpot, leg))
    case EarlyExit => Terms(q.mark, EachFee(leg, q), SpotOr(q.spot, leg))
    case TimeExit => Terms(ExitPrice(leg, q), q.exitFee, SpotOr(q.spot, leg))
    case AtEnd => Terms(q.mark, q.fee, LastSpotOr(q.spot, leg))
    case _ => Terms(q.mark, q.fee, SpotOr(q.spot, leg))
  }

  /** What the leg made before its entry fee. */
  function Gross(leg: Leg, t: Terms): real {
    InUsdc(leg, (leg.entryPremium - t.price) * leg.quantity - t.fee, t.spot)
  }

  function EntryFee(leg: Leg, t: Terms): real {
    InUsdc(leg, leg.entryFee, t.spot)
  }

  lemma GrossLessFee(leg: Leg, t: Terms)
    ensures PnlAt(leg, t.price, t.fee, t.spot) == Gross(leg, t) - EntryFee(leg, t)
  {
    var gross := (leg.entryPremium - t.price) * leg.quantity - t.fee;
    DistributeLess(gross, leg.entryFee, t.spot);
  }

  lemma DistributeLess(a: real, b: real, c: real)
    ensures (a - b) * c == a * c - b * c
  {
  }

  lemma ExpiryIsGross(leg: Leg, q: Quote)
    ensures ExpiryPnl(leg, q) == Gross(leg, TermsOf(Expiry, leg, q))
  {
    var spot := SpotOr(q.expirySpot, leg);
    DistributeLess(leg.entryPremium, Intrinsic(leg, spot), leg.quantity);
  }

  /** Every action of the five paths books the gross result less the entry fee, except expiry, which books it whole. */
  lemma BookedResult(leg: Leg, day: Day, cfg: Config)
    requires ClosePath(leg, day, cfg).Some?
    ensures var t := ClosePath(leg, day, cfg).value; var terms := TermsOf(t.action, leg, day.quote(leg));
            && t.Closed? && t.leg == leg && t.action != AtEnd
            && t.pnl == Gross(leg, terms) - if t.action == Expiry then 0.0 else EntryFee(leg, terms)
  {
    hide PnlAt, ExpiryPnl, Gross, EntryFee, LossRatio, EachFee, ExitPrice, Intrinsic;
    var t := ClosePath(leg, day, cfg).value;
    var terms := TermsOf(t.action, leg, day.quote(leg));
    ExpiryIsGross(leg, day.quote(leg));
    GrossLessFee(leg, terms);
  }

  lemma FeeIsWorthSomething(leg: Leg, t: Terms)
    requires t.spot > 0.0
    ensures EntryFee(leg, t) == 0.0 <==> leg.entryFee == 0.0
  {
  }

  /** The booked result takes off the entry fee if and only if the leg did not expire, or had no fee. */
  lemma EntryFeeTakenExactly(leg: Leg, day: Day, cfg: Config)
    requires ClosePath(leg, day, cfg).Some? && leg.entrySpot > 0.0
    ensures var t := ClosePath(leg, day, cfg).value; var terms := TermsOf(t.action, leg, day.quote(leg));
            t.pnl == Gross(leg, terms) - EntryFee(leg, terms) <==> t.action != Expiry || leg.entryFee == 0.0
  {
    hide Gross, EntryFee, ClosePath;
    var t := ClosePath(leg, day, cfg).value;
    BookedResult(leg, day, cfg);
    FeeIsWorthSomething(leg, TermsOf(t.action, leg, day.quote(leg)));
  }

  // ---- Whole runs ----

  /** The results of a day with every entry fee taken off, and the fees the day left out. */
  function Charged(legs: seq<Leg>, day: Day, cfg: Config): real {
    if legs == [] then 0.0
    else
      var leg := legs[|legs| - 1]; var path := ClosePath(leg, day, cfg);
      Charged(legs[..|legs| - 1], day, cfg)
      + if path.Some? then ChargedResult(path.value.action, leg, day) else 0.0
  }

  function ChargedResult(action: Action, leg: Leg, day: Day): real {
    var terms := TermsOf(action, leg, day.quote(leg));
    Gross(leg, terms) - EntryFee(leg, terms)
  }

  predicate Expired(leg: Leg, day: Day, cfg: Config) {
    ClosePath(leg, day, cfg).Some? && ClosePath(leg, day, cfg).value.action == Expiry
  }

  function ExpiredFees(legs: seq<Leg>, day: Day, cfg: Config): real {
    if legs == [] then 0.0
    else
      var leg := legs[|legs| - 1];
      ExpiredFees(legs[..|legs| - 1], day, cfg)
      + if Expired(leg, day, cfg) then EntryFee(leg, TermsOf(Expiry, leg, day.quote(leg))) else 0.0
  }

  lemma {:induction false} DayCharged(legs: seq<Leg>, day: Day, cfg: Config)
    ensures TotalPnl(Closes(legs, day, cfg)) == Charged(legs, day, cfg) + ExpiredFees(legs, day, cfg)
  {
    hide ClosePath, Closes, TotalPnl, Gross, EntryFee, TermsOf;
    NoLegs(day, cfg);
    if legs != [] {
      var n := |legs| - 1;
      DayCharged(legs[..n], day, cfg);
      SnocLegs(legs, n, day, cfg);
      assert legs[..n + 1] == legs;
      if ClosePath(legs[n], day, cfg).Some? {
        BookedResult(legs[n], day, cfg);
      }
    }
  }

  /** The legs open when day n begins. */
  function OpenAt(days: seq<Day>, cfg: Config, n: nat): seq<Leg>
    requires n <= |days|
  {
    DaysAfter(Start(cfg), days[..n], cfg).open
  }

  function ChargedTo(days: seq<Day>, cfg: Config, n: nat): real
    requires n <= |days|
  {
    if n == 0 then 0.0 else ChargedTo(days, cfg, n - 1) + Charged(OpenAt(days, cfg, n - 1), days[n - 1], cfg)
  }

  function ExpiredFeesTo(days: seq<Day>, cfg: Config, n: nat): real
    requires n <= |days|
  {
    if n == 0 then 0.0 else ExpiredFeesTo(days, cfg, n - 1) + ExpiredFees(OpenAt(days, cfg, n - 1), days[n - 1], cfg)
  }

  lemma {:induction false} BoundaryCharged(days: seq<Day>, cfg: Config, n: nat)
    requires n <= |days|
    ensures DaysAfter(Start(cfg), days[..n], cfg).equity == cfg.capital + ChargedTo(days, cfg, n) + ExpiredFeesTo(days, cfg, n)
  {
    hide Charged, ExpiredFees, DayAfter, TotalPnl, Closes;
    if n == 0 {
      assert days[..0] == [];
    } else {
      BoundaryCharged(days, cfg, n - 1);
      assert days[..n][..n - 1] == days[..n - 1] && days[..n][n - 1] == days[n - 1];
      var b := DaysAfter(Start(cfg), days[..n - 1], cfg);
      DayEquity(b, days[n - 1], cfg);
      DayCharged(b.open, days[n - 1], cfg);
    }
  }

  lemma DayEquity(b: Books, day: Day, cfg: Config)
    ensures DayAfter(b, day, cfg).equity == b.equity + TotalPnl(Closes(b.open, day, cfg))
  {
    hide TotalPnl, Closes, Survivors, Best;
  }

  function ChargedAtEnd(legs: seq<Leg>, day: Day): real {
    if legs == [] then 0.0
    else ChargedAtEnd(legs[..|legs| - 1], day) + ChargedResult(AtEnd, legs[|legs| - 1], day)
  }

  lemma {:induction false} EndCharged(legs: seq<Leg>, day: Day)
    ensures TotalPnl(EndCloses(legs, day)) == ChargedAtEnd(legs, day)
  {
    hide PnlAt, Gross, EntryFee;
    if legs != [] {
      var n := |legs| - 1;
      EndCharged(legs[..n], day);
      GrossLessFee(legs[n], TermsOf(AtEnd, legs[n], day.quote(legs[n])));
      var closes := EndCloses(legs, day);
      assert closes[..n] == EndCloses(legs[..n], day);
    }
  }

  /** Final equity exceeds the capital and the fully charged results by exactly the entry fees of the legs that expired. */
  lemma ExpiredFeesInflateEquity(days: seq<Day>, cfg: Config)
    requires days != []
    ensures var last := days[|days| - 1]; var n := |days|;
            Finished(DaysAfter(Start(cfg), days, cfg), last).equity ==
            cfg.capital + ChargedTo(days, cfg, n) + ChargedAtEnd(OpenAt(days, cfg, n), last) + ExpiredFeesTo(days, cfg, n)
  {
    hide DaysAfter, TotalPnl, EndCloses, ChargedTo, ExpiredFeesTo;
    assert days[..|days|] == days;
    BoundaryCharged(days, cfg, |days|);
    EndCharged(OpenAt(days, cfg, |days|), days[|days| - 1]);
  }

  /** A call sold for 10 with a fee of 1 that expires worthless books 10. */
  lemma ExpiredLegBooksItsFee() returns (leg: Leg, day: Day, cfg: Config)
    ensures leg.entryPremium == 10.0 && leg.quantity == 1.0 && leg.entryFee == 1.0
    ensures ClosePath(leg, day, cfg) == Some(Closed(Expiry, leg, day.ms, 10.0))
  {
    leg := Leg("BTC_USDC-1JAN25-100-C", 5, true, 100.0, true, 1.0, 1, 90.0, 10.0, 1.0, 0.0);
    day := Day(5, _ => Quote(95.0, 95.0, 0.0, 0.0, 0.0, false, false, 0.0, 0.0, 0.0), []);
    cfg := Config(1000.0, 1, 1.0, 1.0);
  }
}
