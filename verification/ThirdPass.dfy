/**
 When the third pass as written explains more than a book lost or gained
 (cross_book_flow.py:78-90). At most three books are stable, so one side has at most one.
 */
module ThirdPass {
  import opened Common
  import opened CrossBookFlow
  import opened CrossBookPasses

  function Amounts(moves: seq<Move>): seq<real> {
    if moves == [] then [] else [moves[0].amount] + Amounts(moves[1..])
  }

  /** What a single book gives each of the others in turn. */
  function Shares(h: real, others: seq<real>, threshold: real): (shares: seq<real>)
    ensures |shares| == |others|
    decreases |others|
  {
    if others == [] then []
    else
      var share := if h >= threshold && others[0] >= threshold then Min(h, others[0]) else 0.0;
      [share] + Shares(h - share, others[1..], threshold)
  }

  ghost predicate AllStable(moves: seq<Move>, spot: string -> real) {
    forall k :: 0 <= k < |moves| ==> spot(moves[k].book) == 1.0 && moves[k].amount >= 0.0
  }

  lemma {:induction false} NothingToShare(others: seq<real>, threshold: real)
    requires forall k :: 0 <= k < |others| ==> others[k] >= 0.0
    ensures Shares(0.0, others, threshold) == seq(|others|, _ => 0.0)
    ensures Sum(Shares(0.0, others, threshold)) == 0.0
  {
    if others != [] {
      NothingToShare(others[1..], threshold);
      SumCons(Shares(0.0, others, threshold));
    }
  }

  lemma {:induction false} TooLittleToShare(h: real, others: seq<real>, threshold: real)
    requires h < threshold
    ensures Shares(h, others, threshold) == seq(|others|, _ => 0.0)
    ensures Sum(Shares(h, others, threshold)) == 0.0
  {
    if others != [] {
      TooLittleToShare(h, others[1..], threshold);
      SumCons(Shares(h, others, threshold));
    }
  }

  lemma {:induction false} AmountsAt(moves: seq<Move>)
    ensures |Amounts(moves)| == |moves|
    ensures forall k :: 0 <= k < |moves| ==> Amounts(moves)[k] == moves[k].amount
  {
    if moves != [] {
      AmountsAt(moves[1..]);
    }
  }

  lemma SharesFirst(h: real, moves: seq<Move>, j: nat, threshold: real)
    requires j < |moves|
    ensures var shares := Shares(h, Amounts(moves[j..]), threshold);
            var share := if h >= threshold && moves[j].amount >= threshold then Min(h, moves[j].amount) else 0.0;
            && shares == [share] + Shares(h - share, Amounts(moves[j + 1..]), threshold)
            && Sum(shares) == share + Sum(Shares(h - share, Amounts(moves[j + 1..]), threshold))
  {
    assert moves[j..][1..] == moves[j + 1..];
    var shares := Shares(h, Amounts(moves[j..]), threshold);
    SumCons(shares);
    assert shares[1..] == Shares(h - shares[0], Amounts(moves[j + 1..]), threshold);
  }

  lemma NoShares(h: real, moves: seq<Move>, threshold: real)
    requires h < threshold || (h == 0.0 && forall k :: 0 <= k < |moves| ==> moves[k].amount >= 0.0)
    ensures Sum(Shares(h, Amounts(moves), threshold)) == 0.0
    ensures forall k :: 0 <= k < |moves| ==> |Amounts(moves)| == |moves| && Shares(h, Amounts(moves), threshold)[k] == 0.0
  {
    AmountsAt(moves);
    if h < threshold {
      TooLittleToShare(h, Amounts(moves), threshold);
    } else {
      NothingToShare(Amounts(moves), threshold);
    }
  }

  lemma StableStep(m: Matching, i: nat, j: nat, spot: string -> real)
    requires Fits(m) && InRange(m, i, j) && AllStable(m.sources, spot) && AllStable(m.sinks, spot)
    ensures !Stops(m, i, j, spot)
    ensures Value(m.sources[i], spot) == m.sources[i].amount && Value(m.sinks[j], spot) == m.sinks[j].amount
    ensures var next := Step(m, i, j, spot); var share := Min(m.sources[i].amount, m.sinks[j].amount);
            && Fits(next) && AllStable(next.sources, spot) && AllStable(next.sinks, spot)
            && next.sources == m.sources[i := m.sources[i].(amount := m.sources[i].amount - share)]
            && next.sinks == m.sinks[j := m.sinks[j].(amount := m.sinks[j].amount - share)]
  {
    StepTakesValue(m, i, j, spot);
  }

  /** From position `from` on, the list gave up exactly the shares. */
  ghost predicate Gave(before: seq<Move>, after: seq<Move>, from: nat, shares: seq<real>) {
    && |after| == |before| && from <= |before| && |shares| == |before| - from
    && (forall k :: 0 <= k < from ==> after[k] == before[k])
    && (forall k :: from <= k < |before| ==> before[k].amount - after[k].amount == shares[k - from])
  }

  lemma GaveNext(before: seq<Move>, mid: seq<Move>, after: seq<Move>, j: nat, share: real, rest: seq<real>)
    requires j < |before| && mid == before[j := before[j].(amount := before[j].amount - share)]
    requires Gave(mid, after, j + 1, rest)
    ensures Gave(before, after, j, [share] + rest)
  {
    assert after[j] == mid[j];
    forall k | j <= k < |before| ensures before[k].amount - after[k].amount == ([share] + rest)[k - j] {
      if k > j {
        assert mid[k] == before[k] && rest[k - (j + 1)] == ([share] + rest)[k - j];
      }
    }
  }

  /** A single source serves the sinks in their order. */
  lemma {:induction false} OneSource(m: Matching, j: nat, spot: string -> real, threshold: real)
    requires Fits(m) && |m.sources| == 1 && j <= |m.sinks|
    requires AllStable(m.sources, spot) && AllStable(m.sinks, spot)
    ensures Gave(m.sinks, Matched(m, 0, j, spot, threshold).sinks, j, Shares(m.sources[0].amount, Amounts(m.sinks[j..]), threshold))
    decreases |m.sinks| - j
  {
    hide Amounts, Shares, Sum, Gave, Step, Value, AllStable, Matched;
    MatchedOnce(m, 0, j, spot, threshold);
    var h := m.sources[0].amount;
    if j == |m.sinks| {
      NothingGiven(h, m.sinks, j, threshold);
    } else {
      StableStep(m, 0, j, spot);
      SharesFirst(h, m.sinks, j, threshold);
      var rest := m.sinks[j + 1..];
      if h < threshold {
        MatchedOnce(m, 1, j, spot, threshold);
        NothingGiven(h, m.sinks, j, threshold);
      } else if m.sinks[j].amount < threshold {
        OneSource(m, j + 1, spot, threshold);
        GaveNext(m.sinks, m.sinks, Matched(m, 0, j + 1, spot, threshold).sinks, j, 0.0, Shares(h, Amounts(rest), threshold));
      } else {
        var next := Step(m, 0, j, spot);
        var share := Min(h, m.sinks[j].amount);
        assert next.sinks[j + 1..] == rest;
        if next.sources[0].amount <= 0.0 {
          MatchedOnce(next, 1, j, spot, threshold);
          MatchedOnce(next, 1, j + 1, spot, threshold);
          NothingGiven(h - share, next.sinks, j + 1, threshold);
          GaveNext(m.sinks, next.sinks, next.sinks, j, share, Shares(h - share, Amounts(rest), threshold));
        } else {
          OneSource(next, j + 1, spot, threshold);
          GaveNext(m.sinks, next.sinks, Matched(next, 0, j + 1, spot, threshold).sinks, j, share,
            Shares(h - share, Amounts(rest), threshold));
        }
      }
    }
  }

  lemma NothingGiven(h: real, moves: seq<Move>, j: nat, threshold: real)
    requires j <= |moves|
    requires j < |moves| ==> h < threshold || (h == 0.0 && forall k :: 0 <= k < |moves| ==> moves[k].amount >= 0.0)
    ensures Gave(moves, moves, j, Shares(h, Amounts(moves[j..]), threshold))
    ensures Sum(Shares(h, Amounts(moves[j..]), threshold)) == 0.0
  {
    AmountsAt(moves[j..]);
    if j < |moves| {
      NoShares(h, moves[j..], threshold);
    }
  }

  /** A single sink is served by the sources in their order. */
  lemma {:induction false} OneSink(m: Matching, i: nat, spot: string -> real, threshold: real)
    requires Fits(m) && |m.sinks| == 1 && i <= |m.sources|
    requires AllStable(m.sources, spot) && AllStable(m.sinks, spot)
    ensures Gave(m.sources, Matched(m, i, 0, spot, threshold).sources, i, Shares(m.sinks[0].amount, Amounts(m.sources[i..]), threshold))
    decreases |m.sources| - i
  {
    hide Amounts, Shares, Sum, Gave, Step, Value, AllStable, Matched;
    MatchedOnce(m, i, 0, spot, threshold);
    var h := m.sinks[0].amount;
    if i == |m.sources| {
      NothingGiven(h, m.sources, i, threshold);
    } else {
      StableStep(m, i, 0, spot);
      SharesFirst(h, m.sources, i, threshold);
      var rest := m.sources[i + 1..];
      if m.sources[i].amount < threshold {
        OneSink(m, i + 1, spot, threshold);
        GaveNext(m.sources, m.sources, Matched(m, i + 1, 0, spot, threshold).sources, i, 0.0, Shares(h, Amounts(rest), threshold));
      } else if h < threshold {
        MatchedOnce(m, i, 1, spot, threshold);
        NothingGiven(h, m.sources, i, threshold);
      } else {
        var next := Step(m, i, 0, spot);
        var share := Min(h, m.sources[i].amount);
        assert next.sources[i + 1..] == rest;
        if next.sinks[0].amount <= 0.0 {
          MatchedOnce(next, i, 1, spot, threshold);
          MatchedOnce(next, i + 1, 1, spot, threshold);
          NothingGiven(h - share, next.sources, i + 1, threshold);
          GaveNext(m.sources, next.sources, next.sources, i, share, Shares(h - share, Amounts(rest), threshold));
        } else {
          OneSink(next, i + 1, spot, threshold);
          GaveNext(m.sources, next.sources, Matched(next, i + 1, 0, spot, threshold).sources, i, share,
            Shares(h - share, Amounts(rest), threshold));
        }
      }
    }
  }

  // ---- What the single book gives in all ----

  lemma {:induction false} GaveWorth(before: seq<Move>, after: seq<Move>, shares: seq<real>, spot: string -> real)
    requires Gave(before, after, 0, shares) && Lowered(before, after) && AllStable(before, spot)
    ensures Worth(before, spot) - Worth(after, spot) == Sum(shares)
  {
    if before == [] {
      assert shares == [];
    } else {
      assert before[0].amount - after[0].amount == shares[0];
      forall k | 0 <= k < |before[1..]| ensures before[1..][k].amount - after[1..][k].amount == shares[1..][k] {
        assert before[k + 1].amount - after[k + 1].amount == shares[k + 1];
      }
      GaveWorth(before[1..], after[1..], shares[1..], spot);
      SumCons(shares);
      StableValue(before[0], spot);
      StableValue(after[0], spot);
    }
  }

  lemma StableValue(m: Move, spot: string -> real)
    requires spot(m.book) == 1.0
    ensures Value(m, spot) == m.amount
  {
  }

  lemma OneWorth(moves: seq<Move>, spot: string -> real)
    requires |moves| == 1 && spot(moves[0].book) == 1.0
    ensures Worth(moves, spot) == moves[0].amount
  {
    assert moves[1..] == [];
    StableValue(moves[0], spot);
  }

  /** A single source gives, and a single sink takes, all the shares of the other side. */
  lemma OneSideTotal(m: Matching, spot: string -> real, threshold: real)
    requires Fits(m) && AllStable(m.sources, spot) && AllStable(m.sinks, spot)
    ensures |m.sources| == 1 ==>
              var r := Matched(m, 0, 0, spot, threshold);
              |r.sources| == 1 && m.sources[0].amount - r.sources[0].amount ==
                                  Sum(Shares(m.sources[0].amount, Amounts(m.sinks), threshold))
    ensures |m.sinks| == 1 ==>
              var r := Matched(m, 0, 0, spot, threshold);
              |r.sinks| == 1 && m.sinks[0].amount - r.sinks[0].amount ==
                                Sum(Shares(m.sinks[0].amount, Amounts(m.sources), threshold))
  {
    hide Matched, Shares, Gave, Sum, Amounts, Worth, Value, Balance;
    var r := Matched(m, 0, 0, spot, threshold);
    MatchedAccounts(m, 0, 0, spot, threshold, "");
    if |m.sources| == 1 {
      OneSource(m, 0, spot, threshold);
      assert m.sinks[0..] == m.sinks;
      GaveWorth(m.sinks, r.sinks, Shares(m.sources[0].amount, Amounts(m.sinks), threshold), spot);
      OneWorth(m.sources, spot);
      OneWorth(r.sources, spot);
    }
    if |m.sinks| == 1 {
      OneSink(m, 0, spot, threshold);
      assert m.sources[0..] == m.sources;
      GaveWorth(m.sources, r.sources, Shares(m.sinks[0].amount, Amounts(m.sources), threshold), spot);
      OneWorth(m.sinks, spot);
      OneWorth(r.sinks, spot);
    }
  }

  // ---- At most three stable books ----

  function StableOf(books: seq<string>): set<string> {
    set book | book in books && book in STABLE_BOOKS
  }

  lemma {:induction false} FewStableMoves(books: seq<string>, residual: string -> real)
    requires Distinct(books)
    ensures |Outgoing(books, true, residual)| + |Incoming(books, true, residual)| <= |StableOf(books)|
  {
    if books != [] {
      FewStableMoves(books[1..], residual);
      if books[0] in STABLE_BOOKS {
        assert StableOf(books) == StableOf(books[1..]) + {books[0]};
      } else {
        assert StableOf(books) == StableOf(books[1..]);
      }
    }
  }

  lemma {:induction false} SubsetIsSmaller(a: set<string>, b: set<string>)
    requires a <= b
    ensures |a| <= |b|
  {
    if a != {} {
      var x :| x in a;
      SubsetIsSmaller(a - {x}, b - {x});
    }
  }

  // ---- The exact condition ----

  function Labelled(moves: seq<Move>, shares: seq<real>): seq<Move>
    requires |moves| == |shares|
  {
    if moves == [] then [] else [Move(moves[0].book, shares[0])] + Labelled(moves[1..], shares[1..])
  }

  lemma {:induction false} GaveAmount(before: seq<Move>, after: seq<Move>, shares: seq<real>, book: string)
    requires Gave(before, after, 0, shares) && forall k :: 0 <= k < |before| && k < |after| ==> after[k].book == before[k].book
    ensures Amount(before, book) - Amount(after, book) == Amount(Labelled(before, shares), book)
  {
    if before != [] {
      assert before[0].amount - after[0].amount == shares[0];
      forall k | 0 <= k < |before[1..]| ensures before[1..][k].amount - after[1..][k].amount == shares[1..][k] {
        assert before[k + 1].amount - after[k + 1].amount == shares[k + 1];
      }
      GaveAmount(before[1..], after[1..], shares[1..], book);
    }
  }

  /** What `one` trades with the others, read for `book`. */
  function TradedWith(one: Move, others: seq<Move>, threshold: real, book: string): real {
    AmountsLength(others);
    var shares := Shares(one.amount, Amounts(others), threshold);
    if one.book == book then Sum(shares) else Amount(Labelled(others, shares), book)
  }

  lemma {:induction false} AmountsLength(moves: seq<Move>)
    ensures |Amounts(moves)| == |moves|
  {
    AmountsAt(moves);
  }

  /** What the third pass as written adds to a book's adjustment, without its sign. */
  function Traded(s: Snapshot, threshold: real, book: string): real {
    var residual := Added(s, AfterTwoPasses(s, threshold));
    var sources := Sorted(Outgoing(s.books, true, residual), Spot(s));
    var sinks := Sorted(Incoming(s.books, true, residual), Spot(s));
    if sources == [] || sinks == [] then 0.0
    else if |sources| == 1 then TradedWith(sources[0], sinks, threshold, book)
    else TradedWith(sinks[0], sources, threshold, book)
  }

  function Abs(x: real): real {
    if x < 0.0 then -x else x
  }

  /** The part of a book's delta that the first two passes left unexplained. */
  function Room(s: Snapshot, threshold: real, book: string): real {
    Abs(Delta(s, book)) - Abs(Get(AfterTwoPasses(s, threshold), book))
  }

  predicate AllPositive(moves: seq<Move>) {
    forall k :: 0 <= k < |moves| ==> moves[k].amount > 0.0
  }

  function TradedIn(m: Matching, threshold: real, book: string): real {
    if m.sources == [] || m.sinks == [] then 0.0
    else if |m.sources| == 1 then TradedWith(m.sources[0], m.sinks, threshold, book)
    else TradedWith(m.sinks[0], m.sources, threshold, book)
  }

  lemma OneMove(moves: seq<Move>, book: string)
    requires |moves| == 1
    ensures Amount(moves, book) == if moves[0].book == book then moves[0].amount else 0.0
  {
    assert moves[1..] == [];
  }

  /** With one book on a side, a pass books for a source or a sink exactly what it trades. */
  lemma MatchedTrades(m: Matching, spot: string -> real, threshold: real, book: string)
    requires Fits(m) && AllStable(m.sources, spot) && AllStable(m.sinks, spot)
    requires |m.sources| + |m.sinks| <= 3 && AllPositive(m.sources) && AllPositive(m.sinks)
    requires Amount(m.sources, book) == 0.0 || Amount(m.sinks, book) == 0.0
    ensures var booked := Get(Matched(m, 0, 0, spot, threshold).amounts, book) - Get(m.amounts, book);
            && (Amount(m.sources, book) > 0.0 ==> booked == -TradedIn(m, threshold, book) <= 0.0)
            && (Amount(m.sinks, book) > 0.0 ==> booked == TradedIn(m, threshold, book) >= 0.0)
            && (Amount(m.sources, book) == 0.0 == Amount(m.sinks, book) ==> booked == 0.0 == TradedIn(m, threshold, book))
  {
    hide Shares, Gave, AllStable, Matched, Sum, Amounts, Labelled;
    var r := Matched(m, 0, 0, spot, threshold);
    MatchedAccounts(m, 0, 0, spot, threshold, book);
    LoweredAmount(m.sources, r.sources, book);
    LoweredAmount(m.sinks, r.sinks, book);
    OneSideTotal(m, spot, threshold);
    if m.sources == [] || m.sinks == [] {
      TraderNeeded(m, spot, threshold);
    } else if |m.sources| == 1 {
      OneSource(m, 0, spot, threshold);
      assert m.sinks[0..] == m.sinks;
      GaveAmount(m.sinks, r.sinks, Shares(m.sources[0].amount, Amounts(m.sinks), threshold), book);
      OneMove(m.sources, book);
      OneMove(r.sources, book);
    } else {
      OneSink(m, 0, spot, threshold);
      assert m.sources[0..] == m.sources;
      GaveAmount(m.sources, r.sources, Shares(m.sinks[0].amount, Amounts(m.sources), threshold), book);
      OneMove(m.sinks, book);
      OneMove(r.sinks, book);
    }
  }

  lemma TraderNeeded(m: Matching, spot: string -> real, threshold: real)
    requires Fits(m) && (m.sources == [] || m.sinks == [])
    ensures Matched(m, 0, 0, spot, threshold) == m
  {
  }

  lemma PreparedTrades(s: Snapshot, residual: string -> real, amounts: map<string, real>, book: string)
    requires Distinct(s.books)
    ensures var sources := Outgoing(s.books, true, residual); var sinks := Incoming(s.books, true, residual);
            var m := Prepared(sources, sinks, amounts, Spot(s));
            && m == Matching(Sorted(sources, Spot(s)), Sorted(sinks, Spot(s)), amounts)
            && Fits(m) && AllStable(m.sources, Spot(s)) && AllStable(m.sinks, Spot(s)) && |m.sources| + |m.sinks| <= 3
            && AllPositive(m.sources) && AllPositive(m.sinks)
            && Amount(m.sources, book) == (if book in StableOf(s.books) && residual(book) < 0.0 then -residual(book) else 0.0)
            && Amount(m.sinks, book) == (if book in StableOf(s.books) && residual(book) > 0.0 then residual(book) else 0.0)
  {
    hide Outgoing, Incoming, Sorted, Positive;
    var sources := Outgoing(s.books, true, residual);
    var sinks := Incoming(s.books, true, residual);
    var m := Prepared(sources, sinks, amounts, Spot(s));
    OutgoingAmount(s.books, true, residual, book);
    IncomingAmount(s.books, true, residual, book);
    PreparedFits(sources, sinks, amounts, Spot(s));
    SortedKeepsTotals(sources, Spot(s), book);
    SortedKeepsTotals(sinks, Spot(s), book);
    FewStableMoves(s.books, residual);
    SubsetIsSmaller(StableOf(s.books), STABLE_BOOKS);
    MovesAreStable(s.books, residual);
    SortedIsSorted(sources, Spot(s));
    SortedIsSorted(sinks, Spot(s));
    forall k | 0 <= k < |m.sources| ensures m.sources[k].book in STABLE_BOOKS {
      assert m.sources[k] in multiset(sources);
    }
    PositiveIsPositive(sources);
    PositiveIsPositive(sinks);
    SortedStaysPositive(sources, Spot(s));
    SortedStaysPositive(sinks, Spot(s));
    forall k | 0 <= k < |m.sinks| ensures m.sinks[k].book in STABLE_BOOKS {
      assert m.sinks[k] in multiset(sinks);
    }
  }

  lemma SortedStaysPositive(moves: seq<Move>, spot: string -> real)
    requires AllPositive(moves)
    ensures AllPositive(Sorted(moves, spot))
  {
    hide Sorted;
    SortedIsSorted(moves, spot);
    forall k | 0 <= k < |Sorted(moves, spot)| ensures Sorted(moves, spot)[k].amount > 0.0 {
      assert Sorted(moves, spot)[k] in multiset(moves);
    }
  }

  lemma {:induction false} MovesAreStable(books: seq<string>, residual: string -> real)
    ensures forall move :: move in Outgoing(books, true, residual) ==> move.book in STABLE_BOOKS
    ensures forall move :: move in Incoming(books, true, residual) ==> move.book in STABLE_BOOKS
  {
    if books != [] {
      MovesAreStable(books[1..], residual);
    }
  }

  /** A stable book the first two passes left alone trades no more than its delta. */
  lemma UnadjustedBooksAreSafe(s: Snapshot, threshold: real, book: string)
    requires Distinct(s.books) && book in StableOf(s.books) && Get(AfterTwoPasses(s, threshold), book) == 0.0
    ensures Traded(s, threshold, book) <= Room(s, threshold, book)
  {
    hide Outgoing, Incoming, Sorted, Positive, Matched, Delta, AfterTwoPasses, TradedWith, Fits, Amount, AllStable, StableOf;
    var two := AfterTwoPasses(s, threshold);
    var residual := Added(s, two);
    var m := Prepared(Outgoing(s.books, true, residual), Incoming(s.books, true, residual), two, Spot(s));
    PreparedTrades(s, residual, two, book);
    MatchedTrades(m, Spot(s), threshold, book);
    RoutedWithinResidual(s, true, true, residual, two, threshold, book);
    assert Traded(s, threshold, book) == TradedIn(m, threshold, book);
  }

  /**
   As written, no book is over-explained exactly when no stable book that the first two passes
   adjusted trades more than its room, the part of its delta they left.
   */
  lemma AsWrittenOverExplainsExactly(s: Snapshot, threshold: real)
    requires Distinct(s.books)
    ensures (forall book :: NoMoreThan(Get(AsWritten(s, threshold), book), Delta(s, book))) <==>
            (forall book :: book in StableOf(s.books) && Get(AfterTwoPasses(s, threshold), book) != 0.0 ==>
               Traded(s, threshold, book) <= Room(s, threshold, book))
  {
    hide *;
    forall book
      ensures NoMoreThan(Get(AsWritten(s, threshold), book), Delta(s, book)) <==>
              (book in StableOf(s.books) && Get(AfterTwoPasses(s, threshold), book) != 0.0 ==>
                 Traded(s, threshold, book) <= Room(s, threshold, book))
    {
      BookOverExplainedExactly(s, threshold, book);
      if book in StableOf(s.books) && Get(AfterTwoPasses(s, threshold), book) == 0.0 {
        UnadjustedBooksAreSafe(s, threshold, book);
      }
    }
  }

  lemma BookOverExplainedExactly(s: Snapshot, threshold: real, book: string)
    requires Distinct(s.books)
    ensures NoMoreThan(Get(AsWritten(s, threshold), book), Delta(s, book)) <==>
            (book in StableOf(s.books) ==> Traded(s, threshold, book) <= Room(s, threshold, book))
  {
    hide Outgoing, Incoming, Sorted, Positive, Matched, Delta, AfterTwoPasses, TradedWith, Fits, Amount, AllStable, StableOf;
    var two := AfterTwoPasses(s, threshold);
    var residual := Added(s, two);
    var m := Prepared(Outgoing(s.books, true, residual), Incoming(s.books, true, residual), two, Spot(s));
    PreparedTrades(s, residual, two, book);
    MatchedTrades(m, Spot(s), threshold, book);
    TwoPassesNeverOverExplain(s, threshold, book);
    assert Traded(s, threshold, book) == TradedIn(m, threshold, book);
  }

  /** USDT lost 100 to bitcoin worth 100 while USDC gained 100: USDT ends up explained twice. */
  function Converted(): Snapshot {
    Snapshot(["USDT", "USDC", "BTC"],
             map["USDT" := 0.0, "USDC" := 200.0, "BTC" := 1.0], map["USDT" := 100.0, "USDC" := 100.0, "BTC" := 0.0],
             map[], map[], map["BTC" := 100.0])
  }

  lemma SingleSorted(a: Move, spot: string -> real)
    requires a.amount > 0.0
    ensures Sorted(Positive([a]), spot) == [a]
  {
    assert [a][1..] == [];
    assert Positive([a]) == [a] + Positive([]);
  }

  lemma OneToOne(a: Move, b: Move, amounts: map<string, real>, spot: string -> real, threshold: real)
    requires a.amount > 0.0 && b.amount > 0.0 && spot(a.book) > 0.0 && spot(b.book) > 0.0
    requires Value(a, spot) >= threshold && Value(b, spot) >= threshold
    ensures Pass([a], [b], amounts, spot, threshold).amounts ==
            Plus(Plus(amounts, a.book, -SafeDiv(Min(Value(a, spot), Value(b, spot)), spot(a.book))),
                 b.book, SafeDiv(Min(Value(a, spot), Value(b, spot)), spot(b.book)))
  {
    PreparedFits([a], [b], amounts, spot);
    var m := Matching([a], [b], amounts);
    SingleSorted(a, spot);
    SingleSorted(b, spot);
    StepTakesValue(m, 0, 0, spot);
    var next := Step(m, 0, 0, spot);
    assert next.amounts == Plus(Plus(amounts, a.book, -SafeDiv(Matchable(m, 0, 0, spot), spot(a.book))),
                                b.book, SafeDiv(Matchable(m, 0, 0, spot), spot(b.book)));
    assert Matched(next, 0, 1, spot, threshold) == Matched(next, 1, 0, spot, threshold) == next;
    assert Matched(next, 1, 1, spot, threshold) == next;
  }

  lemma NoSources(sinks: seq<Move>, amounts: map<string, real>, spot: string -> real, threshold: real)
    ensures Pass([], sinks, amounts, spot, threshold).amounts == amounts
  {
  }

  lemma ConvertedMoves(residual: string -> real)
    requires residual("USDT") < 0.0 < residual("USDC")
    ensures var books := Converted().books;
            && Outgoing(books, true, residual) == [Move("USDT", -residual("USDT"))]
            && Incoming(books, true, residual) == [Move("USDC", residual("USDC"))]
            && (residual("BTC") > 0.0 ==>
                  && Outgoing(books, false, residual) == []
                  && Incoming(books, false, residual) == [Move("BTC", residual("BTC"))])
  {
    var books := Converted().books;
    assert books[1..] == ["USDC", "BTC"] && books[1..][1..] == ["BTC"] && books[1..][1..][1..] == [];
  }

  lemma ConversionExplainedTwice()
    ensures Distinct(Converted().books) && Delta(Converted(), "USDT") == -100.0
    ensures Get(AsWritten(Converted(), 10.0), "USDT") == -200.0
    ensures Get(Corrected(Converted(), 10.0), "USDT") == -100.0
  {
    hide Pass, Outgoing, Incoming, Routed, AfterTwoPasses;
    ConvertedTwoPasses();
    ConvertedThirdPass();
  }

  const CONVERTED_TWO: map<string, real> := map["USDT" := -100.0, "BTC" := 1.0]

  lemma ConvertedThirdPass()
    ensures var s := Converted();
            && Get(Routed(s, true, true, Added(s, CONVERTED_TWO), CONVERTED_TWO, 10.0), "USDT") == -200.0
            && Routed(s, true, true, Unexplained(s, CONVERTED_TWO), CONVERTED_TWO, 10.0) == CONVERTED_TWO
  {
    hide Pass, Outgoing, Incoming;
    var s := Converted();
    assert Delta(s, "USDT") == -100.0 && Delta(s, "USDC") == 100.0 && Delta(s, "BTC") == 1.0;
    BitcoinIsNotStable(Unexplained(s, CONVERTED_TWO));
    NoSources(Incoming(s.books, true, Unexplained(s, CONVERTED_TWO)), CONVERTED_TWO, Spot(s), 10.0);
    ConvertedMoves(Added(s, CONVERTED_TWO));
    OneToOne(Move("USDT", 200.0), Move("USDC", 100.0), CONVERTED_TWO, Spot(s), 10.0);
  }

  lemma BitcoinIsNotStable(residual: string -> real)
    requires residual("USDT") == 0.0 < residual("USDC")
    ensures Outgoing(Converted().books, true, residual) == []
  {
    var books := Converted().books;
    assert books[1..] == ["USDC", "BTC"] && books[1..][1..] == ["BTC"] && books[1..][1..][1..] == [];
  }

  lemma ConvertedTwoPasses()
    ensures AfterTwoPasses(Converted(), 10.0) == CONVERTED_TWO
  {
    hide Pass, Outgoing, Incoming;
    var s := Converted();
    assert Delta(s, "USDT") == -100.0 && Delta(s, "USDC") == 100.0 && Delta(s, "BTC") == 1.0;
    ConvertedMoves(Deltas(s));
    OneToOne(Move("USDT", 100.0), Move("BTC", 1.0), map[], Spot(s), 10.0);
    assert Routed(s, true, false, Deltas(s), map[], 10.0) == CONVERTED_TWO;
    NoSources([Move("USDC", 100.0)], CONVERTED_TWO, Spot(s), 10.0);
  }
}
