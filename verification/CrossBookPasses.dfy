/**
 The three matching passes over a day's books (cross_book_flow.py:21-92): stable to crypto,
 crypto to stable, then stable to stable on what is left.
 */
module CrossBookPasses {
  import opened Common
  import opened CrossBookFlow

  const STABLE_BOOKS: set<string> := {"USDC", "USDT", "USDE"}

  /** `books` lists the keys of the equities in dictionary order. */
  datatype Snapshot = Snapshot(
    books: seq<string>,
    equities: map<string, real>,
    starts: map<string, real>,
    nativeFlows: map<string, real>,
    usdcFlows: map<string, real>,
    prices: map<string, real>)

  function ExternalFlow(s: Snapshot, book: string): real {
    if book in STABLE_BOOKS then Get(s.usdcFlows, book) else Get(s.nativeFlows, book)
  }

  function Delta(s: Snapshot, book: string): real {
    var equity := Get(s.equities, book);
    equity - (if book in s.starts then s.starts[book] else equity) - ExternalFlow(s, book)
  }

  function SpotFrom(prices: map<string, real>): string -> real {
    book => if book in STABLE_BOOKS then 1.0 else Get(prices, book)
  }

  function Spot(s: Snapshot): string -> real {
    SpotFrom(s.prices)
  }

  function Outgoing(books: seq<string>, stable: bool, residual: string -> real): seq<Move> {
    if books == [] then []
    else if (books[0] in STABLE_BOOKS) == stable && residual(books[0]) < 0.0
    then [Move(books[0], -residual(books[0]))] + Outgoing(books[1..], stable, residual)
    else Outgoing(books[1..], stable, residual)
  }

  function Incoming(books: seq<string>, stable: bool, residual: string -> real): seq<Move> {
    if books == [] then []
    else if (books[0] in STABLE_BOOKS) == stable && residual(books[0]) > 0.0
    then [Move(books[0], residual(books[0]))] + Incoming(books[1..], stable, residual)
    else Incoming(books[1..], stable, residual)
  }

  function Deltas(s: Snapshot): string -> real {
    book => Delta(s, book)
  }

  /** Lines 81 and 86, as written. */
  function Added(s: Snapshot, amounts: map<string, real>): string -> real {
    book => Delta(s, book) + Get(amounts, book)
  }

  /** What the adjustments leave unexplained. */
  function Unexplained(s: Snapshot, amounts: map<string, real>): string -> real {
    book => Delta(s, book) - Get(amounts, book)
  }

  function Routed(s: Snapshot, fromStable: bool, toStable: bool, residual: string -> real, amounts: map<string, real>, threshold: real)
    : map<string, real>
  {
    Pass(Outgoing(s.books, fromStable, residual), Incoming(s.books, toStable, residual), amounts, Spot(s), threshold).amounts
  }

  function AfterTwoPasses(s: Snapshot, threshold: real): map<string, real> {
    Routed(s, false, true, Deltas(s), Routed(s, true, false, Deltas(s), map[], threshold), threshold)
  }

  function AsWritten(s: Snapshot, threshold: real): map<string, real> {
    var two := AfterTwoPasses(s, threshold);
    Routed(s, true, true, Added(s, two), two, threshold)
  }

  function Corrected(s: Snapshot, threshold: real): map<string, real> {
    var two := AfterTwoPasses(s, threshold);
    Routed(s, true, true, Unexplained(s, two), two, threshold)
  }

  function NonZero(amounts: map<string, real>): (r: map<string, real>)
    ensures forall book :: Get(r, book) == Get(amounts, book) && (book in r ==> r[book] != 0.0)
  {
    map book | book in amounts && amounts[book] != 0.0 :: amounts[book]
  }

  method CrossBookFlowAdjustments(s: Snapshot, threshold: real) returns (amounts: map<string, real>)
    ensures amounts == NonZero(AsWritten(s, threshold))
  {
    hide Pass, Outgoing, Incoming;
    var a := new Adjustments();
    var src, snk := a.MatchFlows(Outgoing(s.books, true, Deltas(s)), Incoming(s.books, false, Deltas(s)), Spot(s), threshold);
    src, snk := a.MatchFlows(Outgoing(s.books, false, Deltas(s)), Incoming(s.books, true, Deltas(s)), Spot(s), threshold);
    var added := Added(s, a.amounts);
    src, snk := a.MatchFlows(Outgoing(s.books, true, added), Incoming(s.books, true, added), Spot(s), threshold);
    amounts := NonZero(a.amounts);
  }

  // ---- One routed pass ----

  lemma OutgoingStep(books: seq<string>, stable: bool, residual: string -> real, book: string)
    requires books != []
    ensures var moves, rest := Outgoing(books, stable, residual), Outgoing(books[1..], stable, residual);
            if (books[0] in STABLE_BOOKS) == stable && residual(books[0]) < 0.0
            then && moves == [Move(books[0], -residual(books[0]))] + rest && moves[1..] == rest
                 && Amount(moves, book) == (if books[0] == book then -residual(book) else 0.0) + Amount(rest, book)
                 && Positive(moves) == [moves[0]] + Positive(rest)
            else moves == rest
  {
    var rest := Outgoing(books[1..], stable, residual);
    assert ([Move(books[0], -residual(books[0]))] + rest)[1..] == rest;
  }

  lemma {:induction false} OutgoingAmount(books: seq<string>, stable: bool, residual: string -> real, book: string)
    requires Distinct(books)
    ensures var moves := Outgoing(books, stable, residual);
            && Positive(moves) == moves
            && (forall k :: 0 <= k < |moves| ==> moves[k].book in books)
            && Amount(moves, book) ==
               if book in books && (book in STABLE_BOOKS) == stable && residual(book) < 0.0 then -residual(book) else 0.0
  {
    if books != [] {
      hide Outgoing, Positive, Amount;
      OutgoingAmount(books[1..], stable, residual, book);
      OutgoingStep(books, stable, residual, book);
    }
  }

  lemma IncomingStep(books: seq<string>, stable: bool, residual: string -> real, book: string)
    requires books != []
    ensures var moves, rest := Incoming(books, stable, residual), Incoming(books[1..], stable, residual);
            if (books[0] in STABLE_BOOKS) == stable && residual(books[0]) > 0.0
            then && moves == [Move(books[0], residual(books[0]))] + rest && moves[1..] == rest
                 && Amount(moves, book) == (if books[0] == book then residual(book) else 0.0) + Amount(rest, book)
                 && Positive(moves) == [moves[0]] + Positive(rest)
            else moves == rest
  {
    var rest := Incoming(books[1..], stable, residual);
    assert ([Move(books[0], residual(books[0]))] + rest)[1..] == rest;
  }

  lemma {:induction false} IncomingAmount(books: seq<string>, stable: bool, residual: string -> real, book: string)
    requires Distinct(books)
    ensures var moves := Incoming(books, stable, residual);
            && Positive(moves) == moves
            && (forall k :: 0 <= k < |moves| ==> moves[k].book in books)
            && Amount(moves, book) ==
               if book in books && (book in STABLE_BOOKS) == stable && residual(book) > 0.0 then residual(book) else 0.0
  {
    if books != [] {
      hide Incoming, Positive, Amount;
      IncomingAmount(books[1..], stable, residual, book);
      IncomingStep(books, stable, residual, book);
    }
  }

  lemma {:induction false} LoweredAmount(before: seq<Move>, after: seq<Move>, book: string)
    requires Lowered(before, after)
    ensures 0.0 <= Amount(after, book) <= Amount(before, book)
  {
    if before != [] {
      LoweredAmount(before[1..], after[1..], book);
    }
  }

  /** Between nothing and the whole of d, in d's direction. */
  predicate NoMoreThan(x: real, d: real) {
    0.0 <= x <= d || d <= x <= 0.0
  }

  predicate Takes(s: Snapshot, fromStable: bool, toStable: bool, d: real, book: string) {
    book in s.books && ((d < 0.0 && (book in STABLE_BOOKS) == fromStable) || (d > 0.0 && (book in STABLE_BOOKS) == toStable))
  }

  /** A pass books no more for a book than its residual, in its direction, and nothing for any other. */
  lemma RoutedWithinResidual(
    s: Snapshot, fromStable: bool, toStable: bool, residual: string -> real, amounts: map<string, real>, threshold: real,
    book: string)
    requires Distinct(s.books)
    ensures var booked := Get(Routed(s, fromStable, toStable, residual, amounts, threshold), book) - Get(amounts, book);
            if Takes(s, fromStable, toStable, residual(book), book) then NoMoreThan(booked, residual(book)) else booked == 0.0
  {
    hide Outgoing, Incoming, Matched, Positive, Sorted;
    var sources := Outgoing(s.books, fromStable, residual);
    var sinks := Incoming(s.books, toStable, residual);
    OutgoingAmount(s.books, fromStable, residual, book);
    IncomingAmount(s.books, toStable, residual, book);
    PreparedFits(sources, sinks, amounts, Spot(s));
    SortedKeepsTotals(sources, Spot(s), book);
    SortedKeepsTotals(sinks, Spot(s), book);
    var m := Prepared(sources, sinks, amounts, Spot(s));
    var r := Pass(sources, sinks, amounts, Spot(s), threshold);
    MatchedAccounts(m, 0, 0, Spot(s), threshold, book);
    LoweredAmount(m.sources, r.sources, book);
    LoweredAmount(m.sinks, r.sinks, book);
  }

  lemma RoutedConserves(
    s: Snapshot, fromStable: bool, toStable: bool, residual: string -> real, amounts: map<string, real>, threshold: real)
    requires Distinct(s.books)
    ensures Net(s.books, Routed(s, fromStable, toStable, residual, amounts, threshold), Spot(s)) == Net(s.books, amounts, Spot(s))
  {
    hide Outgoing, Incoming, Matched, Positive, Sorted, Net;
    var sources := Outgoing(s.books, fromStable, residual);
    var sinks := Incoming(s.books, toStable, residual);
    OutgoingAmount(s.books, fromStable, residual, "");
    IncomingAmount(s.books, toStable, residual, "");
    PreparedFits(sources, sinks, amounts, Spot(s));
    SortedIsSorted(sources, Spot(s));
    SortedIsSorted(sinks, Spot(s));
    var m := Prepared(sources, sinks, amounts, Spot(s));
    forall k | 0 <= k < |m.sources| ensures m.sources[k].book in s.books {
      assert m.sources[k] in multiset(sources);
    }
    forall k | 0 <= k < |m.sinks| ensures m.sinks[k].book in s.books {
      assert m.sinks[k] in multiset(sinks);
    }
    MatchedConserves(m, 0, 0, Spot(s), threshold, s.books);
  }

  // ---- All three passes ----

  lemma {:induction false} NetNonZero(books: seq<string>, amounts: map<string, real>, spot: string -> real)
    ensures Net(books, NonZero(amounts), spot) == Net(books, amounts, spot)
  {
    if books != [] {
      NetNonZero(books[1..], amounts, spot);
      assert Get(NonZero(amounts), books[0]) == Get(amounts, books[0]);
    }
  }

  lemma {:induction false} NetOfNothing(books: seq<string>, spot: string -> real)
    ensures Net(books, map[], spot) == 0.0
  {
    if books != [] {
      NetOfNothing(books[1..], spot);
    }
  }

  /** The adjustments returned name only the day's books and are worth nothing net. */
  lemma AdjustmentsConserve(s: Snapshot, threshold: real)
    requires Distinct(s.books)
    ensures var amounts := NonZero(AsWritten(s, threshold));
            Net(s.books, amounts, Spot(s)) == 0.0 && forall book :: book in amounts ==> book in s.books
  {
    hide Routed, Net, Get, Delta;
    var one := Routed(s, true, false, Deltas(s), map[], threshold);
    var two := AfterTwoPasses(s, threshold);
    RoutedConserves(s, true, false, Deltas(s), map[], threshold);
    RoutedConserves(s, false, true, Deltas(s), one, threshold);
    RoutedConserves(s, true, true, Added(s, two), two, threshold);
    NetOfNothing(s.books, Spot(s));
    NetNonZero(s.books, AsWritten(s, threshold), Spot(s));
    forall book | book in NonZero(AsWritten(s, threshold)) ensures book in s.books {
      NothingForOthers(s, threshold, book);
    }
  }

  lemma NothingForOthers(s: Snapshot, threshold: real, book: string)
    requires Distinct(s.books)
    ensures book in NonZero(AsWritten(s, threshold)) ==> book in s.books
  {
    hide Routed;
    var two := AfterTwoPasses(s, threshold);
    RoutedWithinResidual(s, true, false, Deltas(s), map[], threshold, book);
    RoutedWithinResidual(s, false, true, Deltas(s), Routed(s, true, false, Deltas(s), map[], threshold), threshold, book);
    RoutedWithinResidual(s, true, true, Added(s, two), two, threshold, book);
  }

  /** After two passes no adjustment explains more than its book's unexplained delta. */
  lemma TwoPassesNeverOverExplain(s: Snapshot, threshold: real, book: string)
    requires Distinct(s.books)
    ensures NoMoreThan(Get(AfterTwoPasses(s, threshold), book), Delta(s, book))
    ensures book !in s.books ==> Get(AfterTwoPasses(s, threshold), book) == 0.0
  {
    hide Routed, Delta;
    var one := Routed(s, true, false, Deltas(s), map[], threshold);
    RoutedWithinResidual(s, true, false, Deltas(s), map[], threshold, book);
    RoutedWithinResidual(s, false, true, Deltas(s), one, threshold, book);
  }

  /** With the residual taken as delta less adjustment, the third pass keeps that. */
  lemma CorrectedNeverOverExplains(s: Snapshot, threshold: real, book: string)
    requires Distinct(s.books)
    ensures NoMoreThan(Get(Corrected(s, threshold), book), Delta(s, book))
  {
    hide Routed, Delta;
    var two := AfterTwoPasses(s, threshold);
    TwoPassesNeverOverExplain(s, threshold, book);
    RoutedWithinResidual(s, true, true, Unexplained(s, two), two, threshold, book);
  }
}
