/**
 What a day's matching leaves unexplained, and what does not count as unexplained
 (cross_book_flow.py:35-92): no pass may be missing, and external flows change nothing.
 */
module CrossBookDay {
  import opened Common
  import opened CrossBookFlow
  import opened CrossBookPasses

  // ---- One book per list ----

  function Count(moves: seq<Move>, book: string): nat {
    if moves == [] then 0 else (if moves[0].book == book then 1 else 0) + Count(moves[1..], book)
  }

  lemma {:induction false} InsertCounts(m: Move, moves: seq<Move>, spot: string -> real, book: string)
    ensures Count(Insert(m, moves, spot), book) == Count([m], book) + Count(moves, book)
  {
    hide Value;
    if moves == [] || Value(m, spot) >= Value(moves[0], spot) {
      assert ([m] + moves)[1..] == moves;
    } else {
      var rest := Insert(m, moves[1..], spot);
      InsertCounts(m, moves[1..], spot, book);
      assert ([moves[0]] + rest)[1..] == rest;
    }
  }

  lemma {:induction false} SortedCounts(moves: seq<Move>, spot: string -> real, book: string)
    ensures Count(Sorted(moves, spot), book) == Count(moves, book)
  {
    if moves != [] {
      SortedCounts(moves[1..], spot, book);
      InsertCounts(moves[0], Sorted(moves[1..], spot), spot, book);
    }
  }

  lemma {:induction false} LoweredCounts(before: seq<Move>, after: seq<Move>, book: string)
    requires Lowered(before, after)
    ensures Count(after, book) == Count(before, book)
  {
    if before != [] {
      LoweredCounts(before[1..], after[1..], book);
    }
  }

  lemma {:induction false} OutgoingCounts(books: seq<string>, stable: bool, residual: string -> real, book: string)
    requires Distinct(books)
    ensures Count(Outgoing(books, stable, residual), book) <= 1
    ensures book !in books ==> Count(Outgoing(books, stable, residual), book) == 0
  {
    if books != [] {
      hide Outgoing;
      OutgoingCounts(books[1..], stable, residual, book);
      OutgoingStep(books, stable, residual, book);
    }
  }

  lemma {:induction false} IncomingCounts(books: seq<string>, stable: bool, residual: string -> real, book: string)
    requires Distinct(books)
    ensures Count(Incoming(books, stable, residual), book) <= 1
    ensures book !in books ==> Count(Incoming(books, stable, residual), book) == 0
  {
    if books != [] {
      hide Incoming;
      IncomingCounts(books[1..], stable, residual, book);
      IncomingStep(books, stable, residual, book);
    }
  }

  lemma {:induction false} NotListed(moves: seq<Move>, book: string)
    requires Count(moves, book) == 0
    ensures Amount(moves, book) == 0.0
  {
    if moves != [] {
      NotListed(moves[1..], book);
    }
  }

  /** Worth less than the threshold. */
  predicate Small(amount: real, price: real, threshold: real) {
    amount * price < threshold
  }

  /** A list that names each book once and is all below the threshold leaves no book with more. */
  lemma {:induction false} BelowForBook(moves: seq<Move>, spot: string -> real, threshold: real, book: string)
    requires AllBelow(moves, spot, threshold) && Count(moves, book) <= 1 && threshold > 0.0
    ensures Small(Amount(moves, book), spot(book), threshold)
  {
    if moves == [] {
    } else if moves[0].book == book {
      NotListed(moves[1..], book);
      assert Value(moves[0], spot) < threshold;
    } else {
      assert forall k :: 0 <= k < |moves| - 1 ==> moves[1..][k] == moves[k + 1];
      BelowForBook(moves[1..], spot, threshold, book);
    }
  }

  // ---- One pass leaves one side below the threshold ----

  /** What a pass from `amounts` to `after` left of a book's residual. */
  function Left(residual: string -> real, amounts: map<string, real>, after: map<string, real>, book: string): real {
    residual(book) - (Get(after, book) - Get(amounts, book))
  }

  ghost predicate LossesBelow(s: Snapshot, stable: bool, residual: string -> real, amounts: map<string, real>,
                              after: map<string, real>, threshold: real) {
    forall book :: book in s.books && (book in STABLE_BOOKS) == stable && residual(book) < 0.0 ==>
      Small(-Left(residual, amounts, after, book), Spot(s)(book), threshold)
  }

  ghost predicate GainsBelow(s: Snapshot, stable: bool, residual: string -> real, amounts: map<string, real>,
                             after: map<string, real>, threshold: real) {
    forall book :: book in s.books && (book in STABLE_BOOKS) == stable && residual(book) > 0.0 ==>
      Small(Left(residual, amounts, after, book), Spot(s)(book), threshold)
  }

  /** After one pass every source, or every sink, has less than the threshold left. */
  lemma RoutedIsMaximal(
    s: Snapshot, fromStable: bool, toStable: bool, residual: string -> real, amounts: map<string, real>, threshold: real)
    requires Distinct(s.books) && threshold > 0.0
    ensures var after := Routed(s, fromStable, toStable, residual, amounts, threshold);
            || LossesBelow(s, fromStable, residual, amounts, after, threshold)
            || GainsBelow(s, toStable, residual, amounts, after, threshold)
  {
    hide Outgoing, Incoming, Positive, Sorted, AllBelow, Left, Amount, Worth, Fits, Small, Pass, Spot, MovedValue, Times;
    var sources := Outgoing(s.books, fromStable, residual);
    var sinks := Incoming(s.books, toStable, residual);
    var after := Routed(s, fromStable, toStable, residual, amounts, threshold);
    var r := Pass(sources, sinks, amounts, Spot(s), threshold);
    PassMovesAlmostAll(sources, sinks, amounts, Spot(s), threshold);
    if AllBelow(r.sources, Spot(s), threshold) {
      forall book | book in s.books && (book in STABLE_BOOKS) == fromStable && residual(book) < 0.0
        ensures Small(-Left(residual, amounts, after, book), Spot(s)(book), threshold)
      {
        LeftInLists(s, fromStable, toStable, residual, amounts, threshold, book);
        BelowForBook(r.sources, Spot(s), threshold, book);
      }
    } else {
      forall book | book in s.books && (book in STABLE_BOOKS) == toStable && residual(book) > 0.0
        ensures Small(Left(residual, amounts, after, book), Spot(s)(book), threshold)
      {
        LeftInLists(s, fromStable, toStable, residual, amounts, threshold, book);
        BelowForBook(r.sinks, Spot(s), threshold, book);
      }
    }
  }

  /** What the pass leaves of a book's residual is what its lists still hold for it. */
  lemma LeftInLists(
    s: Snapshot, fromStable: bool, toStable: bool, residual: string -> real, amounts: map<string, real>, threshold: real,
    book: string)
    requires Distinct(s.books) && book in s.books
    ensures var after := Routed(s, fromStable, toStable, residual, amounts, threshold);
            var r := Pass(Outgoing(s.books, fromStable, residual), Incoming(s.books, toStable, residual), amounts, Spot(s), threshold);
            && Count(r.sources, book) <= 1 && Count(r.sinks, book) <= 1
            && ((book in STABLE_BOOKS) == fromStable && residual(book) < 0.0 ==>
                  Amount(r.sources, book) == -Left(residual, amounts, after, book))
            && ((book in STABLE_BOOKS) == toStable && residual(book) > 0.0 ==>
                  Amount(r.sinks, book) == Left(residual, amounts, after, book))
  {
    hide Outgoing, Incoming, Matched, Positive, Sorted;
    var sources := Outgoing(s.books, fromStable, residual);
    var sinks := Incoming(s.books, toStable, residual);
    OutgoingAmount(s.books, fromStable, residual, book);
    IncomingAmount(s.books, toStable, residual, book);
    OutgoingCounts(s.books, fromStable, residual, book);
    IncomingCounts(s.books, toStable, residual, book);
    PreparedFits(sources, sinks, amounts, Spot(s));
    SortedKeepsTotals(sources, Spot(s), book);
    SortedKeepsTotals(sinks, Spot(s), book);
    SortedCounts(sources, Spot(s), book);
    SortedCounts(sinks, Spot(s), book);
    var m := Prepared(sources, sinks, amounts, Spot(s));
    var r := Pass(sources, sinks, amounts, Spot(s), threshold);
    MatchedAccounts(m, 0, 0, Spot(s), threshold, book);
    LoweredCounts(m.sources, r.sources, book);
    LoweredCounts(m.sinks, r.sinks, book);
    LoweredAmount(m.sources, r.sources, book);
    LoweredAmount(m.sinks, r.sinks, book);
  }

  // ---- The day ----

  /** Every book of the kind that lost value has less than the threshold of its loss unexplained. */
  ghost predicate LossesExplained(s: Snapshot, amounts: map<string, real>, stable: bool, threshold: real) {
    forall book :: book in s.books && (book in STABLE_BOOKS) == stable && Delta(s, book) < 0.0 ==>
      Small(-Unexplained(s, amounts)(book), Spot(s)(book), threshold)
  }

  ghost predicate GainsExplained(s: Snapshot, amounts: map<string, real>, stable: bool, threshold: real) {
    forall book :: book in s.books && (book in STABLE_BOOKS) == stable && Delta(s, book) > 0.0 ==>
      Small(Unexplained(s, amounts)(book), Spot(s)(book), threshold)
  }

  /**
   After two passes nothing more could be matched, in either direction: stable losses or crypto gains
   are explained up to the threshold, and so are crypto losses or stable gains.
   */
  lemma TwoPassesExplainAlmostAll(s: Snapshot, threshold: real)
    requires Distinct(s.books) && threshold > 0.0
    ensures var two := AfterTwoPasses(s, threshold);
            && (LossesExplained(s, two, true, threshold) || GainsExplained(s, two, false, threshold))
            && (LossesExplained(s, two, false, threshold) || GainsExplained(s, two, true, threshold))
  {
    hide Routed, Delta, Spot, Small;
    var d := Deltas(s);
    var one := Routed(s, true, false, d, map[], threshold);
    var two := AfterTwoPasses(s, threshold);
    RoutedIsMaximal(s, true, false, d, map[], threshold);
    RoutedIsMaximal(s, false, true, d, one, threshold);
    forall book
      ensures Takes(s, true, false, Delta(s, book), book) ==> Get(two, book) == Get(one, book)
      ensures !Takes(s, true, false, Delta(s, book), book) ==> Get(one, book) == 0.0
    {
      RoutedWithinResidual(s, true, false, d, map[], threshold, book);
      RoutedWithinResidual(s, false, true, d, one, threshold, book);
    }
    assert LossesBelow(s, true, d, map[], one, threshold) ==> LossesExplained(s, two, true, threshold);
    assert GainsBelow(s, false, d, map[], one, threshold) ==> GainsExplained(s, two, false, threshold);
    assert LossesBelow(s, false, d, one, two, threshold) ==> LossesExplained(s, two, false, threshold);
    assert GainsBelow(s, true, d, one, two, threshold) ==> GainsExplained(s, two, true, threshold);
  }

  /** As written, the third pass is as thorough about the residuals it is given. */
  lemma ThirdPassIsMaximal(s: Snapshot, threshold: real)
    requires Distinct(s.books) && threshold > 0.0
    ensures var two := AfterTwoPasses(s, threshold); var written := AsWritten(s, threshold);
            || LossesBelow(s, true, Added(s, two), two, written, threshold)
            || GainsBelow(s, true, Added(s, two), two, written, threshold)
  {
    hide Routed, Delta, AfterTwoPasses;
    var two := AfterTwoPasses(s, threshold);
    RoutedIsMaximal(s, true, true, Added(s, two), two, threshold);
  }

  lemma NothingIsSmall(price: real, threshold: real)
    requires threshold > 0.0
    ensures Small(0.0, price, threshold)
  {
  }

  lemma CorrectedBook(s: Snapshot, threshold: real, book: string)
    requires Distinct(s.books) && threshold > 0.0
    ensures var two := AfterTwoPasses(s, threshold); var rest := Unexplained(s, two); var corrected := Corrected(s, threshold);
            && (Delta(s, book) < 0.0 ==> rest(book) <= 0.0) && (Delta(s, book) > 0.0 ==> rest(book) >= 0.0)
            && (rest(book) == 0.0 ==> Unexplained(s, corrected)(book) == 0.0)
            && Left(rest, two, corrected, book) == Unexplained(s, corrected)(book)
  {
    hide Routed, Delta, AfterTwoPasses;
    var two := AfterTwoPasses(s, threshold);
    TwoPassesNeverOverExplain(s, threshold, book);
    RoutedWithinResidual(s, true, true, Unexplained(s, two), two, threshold, book);
  }

  /** Corrected, it leaves stable losses or stable gains explained up to the threshold. */
  lemma CorrectedExplainsAlmostAll(s: Snapshot, threshold: real)
    requires Distinct(s.books) && threshold > 0.0
    ensures var corrected := Corrected(s, threshold);
            LossesExplained(s, corrected, true, threshold) || GainsExplained(s, corrected, true, threshold)
  {
    hide Routed, Delta, Spot, AfterTwoPasses, Small, Left;
    var two := AfterTwoPasses(s, threshold);
    var rest := Unexplained(s, two);
    var corrected := Corrected(s, threshold);
    RoutedIsMaximal(s, true, true, rest, two, threshold);
    if LossesBelow(s, true, rest, two, corrected, threshold) {
      forall book | book in s.books && book in STABLE_BOOKS && Delta(s, book) < 0.0
        ensures Small(-Unexplained(s, corrected)(book), Spot(s)(book), threshold)
      {
        CorrectedBook(s, threshold, book);
        NothingIsSmall(Spot(s)(book), threshold);
      }
    } else {
      forall book | book in s.books && book in STABLE_BOOKS && Delta(s, book) > 0.0
        ensures Small(Unexplained(s, corrected)(book), Spot(s)(book), threshold)
      {
        CorrectedBook(s, threshold, book);
        NothingIsSmall(Spot(s)(book), threshold);
      }
    }
  }

  // ---- External flows ----

  /** The snapshot with `x` more deposited into a book, booked as an external flow. */
  function Deposited(s: Snapshot, book: string, x: real): Snapshot {
    var t := s.(equities := Plus(s.equities, book, x));
    if book in STABLE_BOOKS then t.(usdcFlows := Plus(s.usdcFlows, book, x))
    else t.(nativeFlows := Plus(s.nativeFlows, book, x))
  }

  lemma {:induction false} SameMoves(books: seq<string>, stable: bool, a: string -> real, b: string -> real)
    requires forall book :: a(book) == b(book)
    ensures Outgoing(books, stable, a) == Outgoing(books, stable, b)
    ensures Incoming(books, stable, a) == Incoming(books, stable, b)
  {
    if books != [] {
      SameMoves(books[1..], stable, a, b);
    }
  }

  lemma SameRouted(s: Snapshot, t: Snapshot, fromStable: bool, toStable: bool, a: string -> real, b: string -> real,
                   amounts: map<string, real>, threshold: real)
    requires s.books == t.books && s.prices == t.prices && forall book :: a(book) == b(book)
    ensures Routed(s, fromStable, toStable, a, amounts, threshold) == Routed(t, fromStable, toStable, b, amounts, threshold)
  {
    hide Pass;
    SameMoves(s.books, fromStable, a, b);
    SameMoves(s.books, toStable, a, b);
  }

  /** A deposit or withdrawal booked as an external flow changes no adjustment. */
  lemma ExternalFlowsAreNeutral(s: Snapshot, threshold: real, book: string, x: real)
    requires book in s.starts
    ensures AsWritten(Deposited(s, book, x), threshold) == AsWritten(s, threshold)
  {
    var t := Deposited(s, book, x);
    forall other ensures Delta(t, other) == Delta(s, other) {
      DepositKeepsDelta(s, book, x, other);
    }
    hide Routed, Delta, Deposited;
    var one := Routed(s, true, false, Deltas(s), map[], threshold);
    var two := AfterTwoPasses(s, threshold);
    SameShape(s, book, x);
    SameRouted(s, t, true, false, Deltas(s), Deltas(t), map[], threshold);
    SameRouted(s, t, false, true, Deltas(s), Deltas(t), one, threshold);
    SameRouted(s, t, true, true, Added(s, two), Added(t, two), two, threshold);
  }

  lemma DepositKeepsDelta(s: Snapshot, book: string, x: real, other: string)
    requires book in s.starts
    ensures Delta(Deposited(s, book, x), other) == Delta(s, other)
  {
  }

  lemma SameShape(s: Snapshot, book: string, x: real)
    ensures var t := Deposited(s, book, x); t.books == s.books && t.prices == s.prices
  {
  }

  /** A book first seen today has gained or lost nothing but, with the sign reversed, its external flow. */
  lemma FirstSeenBooksStartHere(s: Snapshot, book: string)
    requires book !in s.starts
    ensures Delta(s, book) == -ExternalFlow(s, book)
  {
  }
}
