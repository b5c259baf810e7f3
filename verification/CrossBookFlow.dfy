/**
 Cross-book flow matching (cross_book_flow.py): value that left some books is matched, greedily
 and largest first, against value that entered others.
 */
module CrossBookFlow {
  import opened Common

  datatype Move = Move(book: string, amount: real)

  /** The two remaining lists and the shared adjustments of one matching pass. */
  datatype Matching = Matching(sources: seq<Move>, sinks: seq<Move>, amounts: map<string, real>)

  function Get(amounts: map<string, real>, book: string): real {
    if book in amounts then amounts[book] else 0.0
  }

  function Plus(amounts: map<string, real>, book: string, amount: real): map<string, real> {
    amounts[book := Get(amounts, book) + amount]
  }

  function Value(m: Move, spot: string -> real): real {
    m.amount * spot(m.book)
  }

  // ---- Sorting, largest value first ----

  function Positive(moves: seq<Move>): seq<Move> {
    if moves == [] then []
    else if moves[0].amount > 0.0 then [moves[0]] + Positive(moves[1..])
    else Positive(moves[1..])
  }

  function Insert(m: Move, moves: seq<Move>, spot: string -> real): seq<Move> {
    if moves == [] || Value(m, spot) >= Value(moves[0], spot) then [m] + moves
    else [moves[0]] + Insert(m, moves[1..], spot)
  }

  function Sorted(moves: seq<Move>, spot: string -> real): seq<Move> {
    if moves == [] then [] else Insert(moves[0], Sorted(moves[1..], spot), spot)
  }

  predicate Descending(moves: seq<Move>, spot: string -> real) {
    forall k, l :: 0 <= k <= l < |moves| ==> Value(moves[l], spot) <= Value(moves[k], spot)
  }

  lemma {:induction false} InsertKeepsOrder(m: Move, moves: seq<Move>, spot: string -> real)
    requires Descending(moves, spot)
    ensures Descending(Insert(m, moves, spot), spot) && multiset(Insert(m, moves, spot)) == multiset([m] + moves)
  {
    hide Value;
    if moves != [] && !(Value(m, spot) >= Value(moves[0], spot)) {
      var rest := Insert(m, moves[1..], spot);
      InsertKeepsOrder(m, moves[1..], spot);
      assert moves == [moves[0]] + moves[1..];
      forall k | 0 <= k < |rest| ensures Value(rest[k], spot) <= Value(moves[0], spot) {
        assert rest[k] in multiset(rest);
        assert rest[k] == m || rest[k] in moves[1..];
      }
    }
  }

  lemma {:induction false} SortedIsSorted(moves: seq<Move>, spot: string -> real)
    ensures Descending(Sorted(moves, spot), spot) && multiset(Sorted(moves, spot)) == multiset(moves)
  {
    if moves != [] {
      SortedIsSorted(moves[1..], spot);
      InsertKeepsOrder(moves[0], Sorted(moves[1..], spot), spot);
      assert moves == [moves[0]] + moves[1..];
    }
  }

  // ---- The matching loop ----

  predicate InRange(m: Matching, i: nat, j: nat) {
    i < |m.sources| && j < |m.sinks|
  }

  /** Line 119: the loop ends before the lists do at a book without a price. */
  predicate Stops(m: Matching, i: nat, j: nat, spot: string -> real) {
    InRange(m, i, j) ==> spot(m.sources[i].book) <= 0.0 || spot(m.sinks[j].book) <= 0.0
  }

  function Matchable(m: Matching, i: nat, j: nat, spot: string -> real): real
    requires InRange(m, i, j)
  {
    Min(Value(m.sources[i], spot), Value(m.sinks[j], spot))
  }

  function Step(m: Matching, i: nat, j: nat, spot: string -> real): Matching
    requires InRange(m, i, j)
  {
    var source, sink := m.sources[i], m.sinks[j];
    var x := SafeDiv(Matchable(m, i, j, spot), spot(source.book));
    var y := SafeDiv(Matchable(m, i, j, spot), spot(sink.book));
    Matching(
      m.sources[i := source.(amount := source.amount - x)],
      m.sinks[j := sink.(amount := sink.amount - y)],
      Plus(Plus(m.amounts, source.book, -x), sink.book, y))
  }

  lemma TakeValue(amount: real, price: real, value: real)
    requires price > 0.0 && 0.0 <= value <= amount * price
    ensures (amount - value / price) * price == amount * price - value
    ensures 0.0 <= value / price <= amount && (value / price) * price == value
    ensures value == amount * price ==> value / price == amount
  {
    var x := value / price;
    assert x * price == value;
    assert (amount - x) * price == amount * price - x * price;
    assert (x - amount) * price == value - amount * price;
    assert x > amount ==> (x - amount) * price > 0.0;
    assert x < amount ==> (amount - x) * price > 0.0;
    assert x < 0.0 ==> (0.0 - x) * price > 0.0;
  }

  predicate Fits(m: Matching) {
    && (forall k :: 0 <= k < |m.sources| ==> m.sources[k].amount >= 0.0)
    && (forall k :: 0 <= k < |m.sinks| ==> m.sinks[k].amount >= 0.0)
  }

  lemma NonNegativeValue(m: Move, spot: string -> real)
    requires m.amount >= 0.0 && spot(m.book) > 0.0
    ensures Value(m, spot) >= 0.0
  {
  }

  function Reduced(m: Move, value: real, spot: string -> real): Move {
    m.(amount := m.amount - SafeDiv(value, spot(m.book)))
  }

  lemma ReducedTakesValue(m: Move, value: real, spot: string -> real)
    requires m.amount >= 0.0 && spot(m.book) > 0.0 && 0.0 <= value <= Value(m, spot)
    ensures var after := Reduced(m, value, spot);
            && 0.0 <= after.amount <= m.amount && Value(after, spot) == Value(m, spot) - value
            && (m.amount - after.amount) * spot(m.book) == value
            && (after.amount == 0.0 <==> value == Value(m, spot))
  {
    TakeValue(m.amount, spot(m.book), value);
  }

  /** A match takes the same value from both sides and uses up at least one of them. */
  lemma StepTakesValue(m: Matching, i: nat, j: nat, spot: string -> real)
    requires InRange(m, i, j) && !Stops(m, i, j, spot) && Fits(m)
    ensures var next := Step(m, i, j, spot); var v := Matchable(m, i, j, spot);
            && Fits(next) && v >= 0.0 && |next.sources| == |m.sources| && |next.sinks| == |m.sinks|
            && next.sources[i].amount <= m.sources[i].amount && next.sinks[j].amount <= m.sinks[j].amount
            && Value(next.sources[i], spot) == Value(m.sources[i], spot) - v
            && Value(next.sinks[j], spot) == Value(m.sinks[j], spot) - v
            && (m.sources[i].amount - next.sources[i].amount) * spot(m.sources[i].book) == v
            && (m.sinks[j].amount - next.sinks[j].amount) * spot(m.sinks[j].book) == v
            && (next.sources[i].amount == 0.0 || next.sinks[j].amount == 0.0)
            && (next.sources[i].amount == 0.0 <==> v == Value(m.sources[i], spot))
            && (next.sinks[j].amount == 0.0 <==> v == Value(m.sinks[j], spot))
  {
    hide Value;
    var source, sink := m.sources[i], m.sinks[j];
    var v := Matchable(m, i, j, spot);
    NonNegativeValue(source, spot);
    NonNegativeValue(sink, spot);
    ReducedTakesValue(source, v, spot);
    ReducedTakesValue(sink, v, spot);
    hide Matchable, SafeDiv;
    assert Step(m, i, j, spot).sources[i] == Reduced(source, v, spot) && Step(m, i, j, spot).sinks[j] == Reduced(sink, v, spot);
  }

  function Matched(m: Matching, i: nat, j: nat, spot: string -> real, threshold: real): Matching
    requires Fits(m) && i <= |m.sources| && j <= |m.sinks|
    decreases |m.sources| - i + |m.sinks| - j
  {
    if !InRange(m, i, j) || Stops(m, i, j, spot) then m
    else if Value(m.sources[i], spot) < threshold then Matched(m, i + 1, j, spot, threshold)
    else if Value(m.sinks[j], spot) < threshold then Matched(m, i, j + 1, spot, threshold)
    else
      StepTakesValue(m, i, j, spot);
      var next := Step(m, i, j, spot);
      Matched(next, if next.sources[i].amount <= 0.0 then i + 1 else i, if next.sinks[j].amount <= 0.0 then j + 1 else j,
        spot, threshold)
  }

  /** One round of the loop. */
  lemma MatchedOnce(m: Matching, i: nat, j: nat, spot: string -> real, threshold: real)
    requires Fits(m) && i <= |m.sources| && j <= |m.sinks|
    ensures !InRange(m, i, j) || Stops(m, i, j, spot) ==> Matched(m, i, j, spot, threshold) == m
    ensures InRange(m, i, j) && !Stops(m, i, j, spot) ==>
              if Value(m.sources[i], spot) < threshold then
                Matched(m, i, j, spot, threshold) == Matched(m, i + 1, j, spot, threshold)
              else if Value(m.sinks[j], spot) < threshold then
                Matched(m, i, j, spot, threshold) == Matched(m, i, j + 1, spot, threshold)
              else
                var next := Step(m, i, j, spot);
                Fits(next) && |next.sources| == |m.sources| && |next.sinks| == |m.sinks|
                && (next.sources[i].amount <= 0.0 || next.sinks[j].amount <= 0.0)
                && Matched(m, i, j, spot, threshold) ==
                   Matched(next, if next.sources[i].amount <= 0.0 then i + 1 else i,
                           if next.sinks[j].amount <= 0.0 then j + 1 else j, spot, threshold)
  {
    hide Value;
    if InRange(m, i, j) && !Stops(m, i, j, spot) {
      StepTakesValue(m, i, j, spot);
    }
  }

  function Prepared(sources: seq<Move>, sinks: seq<Move>, amounts: map<string, real>, spot: string -> real): Matching {
    Matching(Sorted(Positive(sources), spot), Sorted(Positive(sinks), spot), amounts)
  }

  lemma {:induction false} PositiveIsPositive(moves: seq<Move>)
    ensures forall k :: 0 <= k < |Positive(moves)| ==> Positive(moves)[k].amount > 0.0
  {
    if moves != [] {
      PositiveIsPositive(moves[1..]);
    }
  }

  lemma PreparedFits(sources: seq<Move>, sinks: seq<Move>, amounts: map<string, real>, spot: string -> real)
    ensures var m := Prepared(sources, sinks, amounts, spot);
            Fits(m) && Descending(m.sources, spot) && Descending(m.sinks, spot)
  {
    PositiveIsPositive(sources);
    PositiveIsPositive(sinks);
    SortedIsSorted(Positive(sources), spot);
    SortedIsSorted(Positive(sinks), spot);
    var m := Prepared(sources, sinks, amounts, spot);
    forall k | 0 <= k < |m.sources| ensures m.sources[k].amount >= 0.0 {
      assert m.sources[k] in multiset(m.sources);
    }
    forall k | 0 <= k < |m.sinks| ensures m.sinks[k].amount >= 0.0 {
      assert m.sinks[k] in multiset(m.sinks);
    }
  }

  function Pass(sources: seq<Move>, sinks: seq<Move>, amounts: map<string, real>, spot: string -> real, threshold: real): Matching {
    PreparedFits(sources, sinks, amounts, spot);
    Matched(Prepared(sources, sinks, amounts, spot), 0, 0, spot, threshold)
  }

  /** The shared dictionary of adjustments, and the loop that updates it. */
  class Adjustments {
    var amounts: map<string, real>

    constructor ()
      ensures amounts == map[]
    {
      amounts := map[];
    }

    method MatchFlows(sources: seq<Move>, sinks: seq<Move>, spot: string -> real, threshold: real)
      returns (src: seq<Move>, snk: seq<Move>)
      modifies this
      ensures Matching(src, snk, amounts) == Pass(sources, sinks, old(amounts), spot, threshold)
    {
      hide Value, Sorted, Positive, Min, Matched;
      PreparedFits(sources, sinks, amounts, spot);
      src := Sorted(Positive(sources), spot);
      snk := Sorted(Positive(sinks), spot);
      var i, j := 0, 0;
      while i < |src| && j < |snk|
        invariant i <= |src| && j <= |snk| && Fits(Matching(src, snk, amounts))
        invariant Matched(Matching(src, snk, amounts), i, j, spot, threshold) == Pass(sources, sinks, old(amounts), spot, threshold)
        decreases |src| - i + |snk| - j
      {
        ghost var m := Matching(src, snk, amounts);
        MatchedOnce(m, i, j, spot, threshold);
        var source, sink := src[i], snk[j];
        var sourceSpot, sinkSpot := spot(source.book), spot(sink.book);
        if sourceSpot <= 0.0 || sinkSpot <= 0.0 {
          break;
        }
        var sourceValue, sinkValue := Value(source, spot), Value(sink, spot);
        if sourceValue < threshold {
          i := i + 1;
          continue;
        }
        if sinkValue < threshold {
          j := j + 1;
          continue;
        }
        var matched := Min(sourceValue, sinkValue);
        var x, y := SafeDiv(matched, sourceSpot), SafeDiv(matched, sinkSpot);
        amounts := Plus(amounts, source.book, -x);
        amounts := Plus(amounts, sink.book, y);
        src := src[i := Move(source.book, source.amount - x)];
        snk := snk[j := Move(sink.book, sink.amount - y)];
        assert Matching(src, snk, amounts) == Step(m, i, j, spot);
        if src[i].amount <= 0.0 {
          i := i + 1;
        }
        if snk[j].amount <= 0.0 {
          j := j + 1;
        }
      }
      MatchedOnce(Matching(src, snk, amounts), i, j, spot, threshold);
    }
  }

  // ---- What a pass keeps ----

  /** The amount a list holds for a book. */
  function Amount(moves: seq<Move>, book: string): real {
    if moves == [] then 0.0 else (if moves[0].book == book then moves[0].amount else 0.0) + Amount(moves[1..], book)
  }

  function Worth(moves: seq<Move>, spot: string -> real): real {
    if moves == [] then 0.0 else Value(moves[0], spot) + Worth(moves[1..], spot)
  }

  /** The value of the adjustments over a list of books. */
  function Net(books: seq<string>, amounts: map<string, real>, spot: string -> real): real {
    if books == [] then 0.0 else Get(amounts, books[0]) * spot(books[0]) + Net(books[1..], amounts, spot)
  }

  ghost predicate Distinct(books: seq<string>) {
    forall k, l :: 0 <= k < l < |books| ==> books[k] != books[l]
  }

  lemma {:induction false} AmountUpdate(moves: seq<Move>, i: nat, amount: real, book: string, spot: string -> real)
    requires i < |moves|
    ensures var after := moves[i := moves[i].(amount := amount)];
            && Amount(after, book) == Amount(moves, book) + (if moves[i].book == book then amount - moves[i].amount else 0.0)
            && Worth(after, spot) == Worth(moves, spot) + Value(after[i], spot) - Value(moves[i], spot)
  {
    hide Value;
    var after := moves[i := moves[i].(amount := amount)];
    if i == 0 {
      assert after[1..] == moves[1..];
    } else {
      AmountUpdate(moves[1..], i - 1, amount, book, spot);
      assert after[1..] == moves[1..][i - 1 := moves[i].(amount := amount)];
    }
  }

  lemma WorthAdds(a: real, b: real, price: real)
    ensures (a + b) * price == a * price + b * price
  {
  }

  lemma {:induction false} NetPlus(books: seq<string>, amounts: map<string, real>, book: string, amount: real, spot: string -> real)
    requires Distinct(books)
    ensures Net(books, Plus(amounts, book, amount), spot) == Net(books, amounts, spot) + if book in books then amount * spot(book) else 0.0
  {
    if books != [] {
      NetPlus(books[1..], amounts, book, amount, spot);
      WorthAdds(Get(amounts, book), amount, spot(book));
    }
  }

  /** Same books in the same places, with amounts that only went down. */
  ghost predicate Lowered(before: seq<Move>, after: seq<Move>) {
    && |after| == |before|
    && (forall k :: 0 <= k < |before| ==> after[k].book == before[k].book && 0.0 <= after[k].amount <= before[k].amount)
  }

  function Balance(m: Matching, book: string): real {
    Get(m.amounts, book) - Amount(m.sources, book) + Amount(m.sinks, book)
  }

  ghost predicate Within(m: Matching, books: seq<string>) {
    && Distinct(books)
    && (forall k :: 0 <= k < |m.sources| ==> m.sources[k].book in books)
    && (forall k :: 0 <= k < |m.sinks| ==> m.sinks[k].book in books)
  }

  lemma StepAccounts(m: Matching, i: nat, j: nat, spot: string -> real, book: string)
    requires InRange(m, i, j) && !Stops(m, i, j, spot) && Fits(m)
    ensures var next := Step(m, i, j, spot);
            && Balance(next, book) == Balance(m, book)
            && Worth(next.sources, spot) - Worth(next.sinks, spot) == Worth(m.sources, spot) - Worth(m.sinks, spot)
  {
    hide Value;
    StepTakesValue(m, i, j, spot);
    var next := Step(m, i, j, spot);
    AmountUpdate(m.sources, i, next.sources[i].amount, book, spot);
    AmountUpdate(m.sinks, j, next.sinks[j].amount, book, spot);
  }

  lemma StepConserves(m: Matching, i: nat, j: nat, spot: string -> real, books: seq<string>)
    requires InRange(m, i, j) && !Stops(m, i, j, spot) && Fits(m) && Within(m, books)
    ensures Net(books, Step(m, i, j, spot).amounts, spot) == Net(books, m.amounts, spot)
  {
    hide Value, Matchable, Net, Plus;
    StepTakesValue(m, i, j, spot);
    var next := Step(m, i, j, spot);
    var source, sink := m.sources[i], m.sinks[j];
    var x := SafeDiv(Matchable(m, i, j, spot), spot(source.book));
    var y := SafeDiv(Matchable(m, i, j, spot), spot(sink.book));
    NetPlus(books, m.amounts, source.book, -x, spot);
    NetPlus(books, Plus(m.amounts, source.book, -x), sink.book, y, spot);
    assert source.amount - next.sources[i].amount == x && sink.amount - next.sinks[j].amount == y;
    assert -x * spot(source.book) == -(x * spot(source.book));
  }

  /** Whatever the pass takes off a list is what it books, and both lists lose the same value. */
  lemma {:induction false} MatchedAccounts(m: Matching, i: nat, j: nat, spot: string -> real, threshold: real, book: string)
    requires Fits(m) && i <= |m.sources| && j <= |m.sinks|
    ensures var r := Matched(m, i, j, spot, threshold);
            && Lowered(m.sources, r.sources) && Lowered(m.sinks, r.sinks)
            && Balance(r, book) == Balance(m, book)
            && Worth(r.sources, spot) - Worth(r.sinks, spot) == Worth(m.sources, spot) - Worth(m.sinks, spot)
    decreases |m.sources| - i + |m.sinks| - j
  {
    hide Value, Balance, Worth, Matchable, Plus;
    if InRange(m, i, j) && !Stops(m, i, j, spot) {
      if Value(m.sources[i], spot) < threshold {
        MatchedAccounts(m, i + 1, j, spot, threshold, book);
      } else if Value(m.sinks[j], spot) < threshold {
        MatchedAccounts(m, i, j + 1, spot, threshold, book);
      } else {
        StepTakesValue(m, i, j, spot);
        StepAccounts(m, i, j, spot, book);
        var next := Step(m, i, j, spot);
        MatchedAccounts(next, if next.sources[i].amount <= 0.0 then i + 1 else i, if next.sinks[j].amount <= 0.0 then j + 1 else j,
          spot, threshold, book);
      }
    }
  }

  /** What the pass books is worth nothing net. */
  lemma {:induction false} MatchedConserves(m: Matching, i: nat, j: nat, spot: string -> real, threshold: real, books: seq<string>)
    requires Fits(m) && i <= |m.sources| && j <= |m.sinks| && Within(m, books)
    ensures Net(books, Matched(m, i, j, spot, threshold).amounts, spot) == Net(books, m.amounts, spot)
    decreases |m.sources| - i + |m.sinks| - j
  {
    hide Value, Net, Matchable, Plus;
    if InRange(m, i, j) && !Stops(m, i, j, spot) {
      if Value(m.sources[i], spot) < threshold {
        MatchedConserves(m, i + 1, j, spot, threshold, books);
      } else if Value(m.sinks[j], spot) < threshold {
        MatchedConserves(m, i, j + 1, spot, threshold, books);
      } else {
        StepTakesValue(m, i, j, spot);
        StepConserves(m, i, j, spot, books);
        var next := Step(m, i, j, spot);
        MatchedConserves(next, if next.sources[i].amount <= 0.0 then i + 1 else i, if next.sinks[j].amount <= 0.0 then j + 1 else j,
          spot, threshold, books);
      }
    }
  }

  // ---- Maximality ----

  ghost predicate AllBelow(moves: seq<Move>, spot: string -> real, threshold: real) {
    forall k :: 0 <= k < |moves| ==> Value(moves[k], spot) < threshold
  }

  /** Done up to `i`, and in descending order from there. */
  ghost predicate Settled(moves: seq<Move>, i: nat, spot: string -> real, threshold: real) {
    && (forall k :: 0 <= k < i && k < |moves| ==> Value(moves[k], spot) < threshold)
    && (forall k, l :: i < k <= l < |moves| ==> Value(moves[l], spot) <= Value(moves[k], spot))
    && (forall l :: i < l < |moves| ==> spot(moves[i].book) <= 0.0 ==> Value(moves[l], spot) <= 0.0)
  }

  lemma SettledNext(moves: seq<Move>, i: nat, spot: string -> real, threshold: real)
    requires Settled(moves, i, spot, threshold) && i < |moves| && Value(moves[i], spot) < threshold
    requires forall k :: 0 <= k < |moves| ==> moves[k].amount >= 0.0
    ensures Settled(moves, i + 1, spot, threshold)
  {
    if i + 1 < |moves| && spot(moves[i + 1].book) <= 0.0 {
      assert moves[i + 1].amount * spot(moves[i + 1].book) <= 0.0;
    }
  }

  lemma SettledAtStart(moves: seq<Move>, spot: string -> real, threshold: real)
    requires Descending(moves, spot) && forall k :: 0 <= k < |moves| ==> moves[k].amount >= 0.0
    ensures Settled(moves, 0, spot, threshold)
  {
    if moves != [] && spot(moves[0].book) <= 0.0 {
      assert moves[0].amount * spot(moves[0].book) <= 0.0;
    }
  }

  /** A list that ran out, or stopped at an unpriced book, holds nothing above the threshold. */
  lemma SettledIsBelow(moves: seq<Move>, i: nat, spot: string -> real, threshold: real)
    requires Settled(moves, i, spot, threshold) && threshold > 0.0
    requires forall k :: 0 <= k < |moves| ==> moves[k].amount >= 0.0
    requires i < |moves| ==> spot(moves[i].book) <= 0.0
    ensures AllBelow(moves, spot, threshold)
  {
    if i < |moves| {
      assert moves[i].amount * spot(moves[i].book) <= 0.0;
    }
  }

  lemma SettledStep(m: Matching, i: nat, j: nat, spot: string -> real, threshold: real)
    requires InRange(m, i, j) && !Stops(m, i, j, spot) && Fits(m) && threshold > 0.0
    requires Settled(m.sources, i, spot, threshold) && Settled(m.sinks, j, spot, threshold)
    ensures var next := Step(m, i, j, spot);
            && Settled(next.sources, if next.sources[i].amount <= 0.0 then i + 1 else i, spot, threshold)
            && Settled(next.sinks, if next.sinks[j].amount <= 0.0 then j + 1 else j, spot, threshold)
  {
    hide Value, Matchable;
    StepTakesValue(m, i, j, spot);
    var next := Step(m, i, j, spot);
    if next.sources[i].amount <= 0.0 {
      SettledNext(next.sources, i, spot, threshold);
    }
    if next.sinks[j].amount <= 0.0 {
      SettledNext(next.sinks, j, spot, threshold);
    }
  }

  /** However the loop ends, every remaining source or every remaining sink is below the threshold. */
  lemma {:induction false} MatchedIsMaximal(m: Matching, i: nat, j: nat, spot: string -> real, threshold: real)
    requires Fits(m) && i <= |m.sources| && j <= |m.sinks| && threshold > 0.0
    requires Settled(m.sources, i, spot, threshold) && Settled(m.sinks, j, spot, threshold)
    ensures var r := Matched(m, i, j, spot, threshold);
            Fits(r) && (AllBelow(r.sources, spot, threshold) || AllBelow(r.sinks, spot, threshold))
    decreases |m.sources| - i + |m.sinks| - j
  {
    hide Value, Settled, Step;
    if !InRange(m, i, j) || Stops(m, i, j, spot) {
      if i == |m.sources| || (j < |m.sinks| && spot(m.sources[i].book) <= 0.0) {
        SettledIsBelow(m.sources, i, spot, threshold);
      } else {
        SettledIsBelow(m.sinks, j, spot, threshold);
      }
    } else if Value(m.sources[i], spot) < threshold {
      SettledNext(m.sources, i, spot, threshold);
      MatchedIsMaximal(m, i + 1, j, spot, threshold);
    } else if Value(m.sinks[j], spot) < threshold {
      SettledNext(m.sinks, j, spot, threshold);
      MatchedIsMaximal(m, i, j + 1, spot, threshold);
    } else {
      StepTakesValue(m, i, j, spot);
      SettledStep(m, i, j, spot, threshold);
      var next := Step(m, i, j, spot);
      MatchedIsMaximal(next, if next.sources[i].amount <= 0.0 then i + 1 else i, if next.sinks[j].amount <= 0.0 then j + 1 else j,
        spot, threshold);
    }
  }

  lemma {:induction false} BelowIsWorthLittle(moves: seq<Move>, spot: string -> real, threshold: real)
    requires AllBelow(moves, spot, threshold)
    ensures Worth(moves, spot) <= Times(threshold, |moves|)
  {
    hide Value;
    if moves != [] {
      assert Value(moves[0], spot) < threshold;
      assert forall k :: 0 <= k < |moves[1..]| ==> moves[1..][k] == moves[k + 1];
      BelowIsWorthLittle(moves[1..], spot, threshold);
    }
  }

  lemma {:induction false} InsertKeepsTotals(m: Move, moves: seq<Move>, spot: string -> real, book: string)
    ensures var after := Insert(m, moves, spot);
            && |after| == |moves| + 1
            && Worth(after, spot) == Value(m, spot) + Worth(moves, spot)
            && Amount(after, book) == Amount([m], book) + Amount(moves, book)
  {
    hide Value;
    if moves == [] || Value(m, spot) >= Value(moves[0], spot) {
      assert ([m] + moves)[1..] == moves;
    } else {
      var rest := Insert(m, moves[1..], spot);
      InsertKeepsTotals(m, moves[1..], spot, book);
      assert ([moves[0]] + rest)[1..] == rest;
    }
  }

  lemma {:induction false} SortedKeepsTotals(moves: seq<Move>, spot: string -> real, book: string)
    ensures var after := Sorted(moves, spot);
            |after| == |moves| && Worth(after, spot) == Worth(moves, spot) && Amount(after, book) == Amount(moves, book)
  {
    hide Value;
    if moves != [] {
      SortedKeepsTotals(moves[1..], spot, book);
      InsertKeepsTotals(moves[0], Sorted(moves[1..], spot), spot, book);
    }
  }

  /** What a pass moved: the value its sources lost. */
  function MovedValue(sources: seq<Move>, sinks: seq<Move>, amounts: map<string, real>, spot: string -> real, threshold: real): real {
    Worth(Positive(sources), spot) - Worth(Pass(sources, sinks, amounts, spot, threshold).sources, spot)
  }

  /** A pass moves as much as it can, up to one threshold per book on the side that ran out. */
  lemma PassMovesAlmostAll(sources: seq<Move>, sinks: seq<Move>, amounts: map<string, real>, spot: string -> real, threshold: real)
    requires threshold > 0.0
    ensures var r := Pass(sources, sinks, amounts, spot, threshold);
            var moved := MovedValue(sources, sinks, amounts, spot, threshold);
            && (AllBelow(r.sources, spot, threshold) || AllBelow(r.sinks, spot, threshold))
            && moved == Worth(Positive(sinks), spot) - Worth(r.sinks, spot)
            && moved >= Min(
                          Worth(Positive(sources), spot) - Times(threshold, |Positive(sources)|),
                          Worth(Positive(sinks), spot) - Times(threshold, |Positive(sinks)|))
  {
    hide Value, Worth, Matched, Times, Sorted, Positive, Settled, Descending;
    var m := Prepared(sources, sinks, amounts, spot);
    var r := Pass(sources, sinks, amounts, spot, threshold);
    PreparedFits(sources, sinks, amounts, spot);
    SettledAtStart(m.sources, spot, threshold);
    SettledAtStart(m.sinks, spot, threshold);
    MatchedIsMaximal(m, 0, 0, spot, threshold);
    SortedKeepsTotals(Positive(sources), spot, "");
    SortedKeepsTotals(Positive(sinks), spot, "");
    MatchedAccounts(m, 0, 0, spot, threshold, "");
    if AllBelow(r.sources, spot, threshold) {
      BelowIsWorthLittle(r.sources, spot, threshold);
    } else {
      BelowIsWorthLittle(r.sinks, spot, threshold);
    }
  }
}
