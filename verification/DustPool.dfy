/** Pooling sub-minimum remainders and crediting one pooled sell to its groups (profit_sweep_dust.py). */
module DustPool {
  import opened Common
  import opened ProfitSweep
  import opened ProfitSweepGroup

  datatype PoolRow = PoolRow(id: string, remainder: real)

  // ---- Sizing the pooled sell ----

  function SellBudget(pool: real, deficit: real): real {
    if pool <= 0.0 || deficit <= 0.0 then 0.0 else Min(pool, deficit)
  }

  /** Decimal division to an integer rounds toward zero. */
  function Truncated(x: real): real {
    if x >= 0.0 then x.Floor as real else -((-x).Floor as real)
  }

  function Aligned(amount: real, step: real, minTrade: real): real {
    if step <= 0.0 then Max(amount, 0.0)
    else
      var aligned := Truncated(amount / step) * step;
      if aligned <= 0.0 || (minTrade > 0.0 && aligned < minTrade) then 0.0 else aligned
  }

  /** The order of one currency's pool, or nothing when the pool is below the minimum. */
  function OrderAmount(pool: real, deficit: real, available: real, step: real, minTrade: real): Option<real> {
    var budget := SellBudget(pool, deficit);
    var first := Aligned(Min(budget, available), step, minTrade);
    var amount := if first > budget then Aligned(budget, step, minTrade) else first;
    if amount <= 0.0 || amount > budget then None else Some(amount)
  }

  lemma AlignedNeverRoundsUp(amount: real, step: real, minTrade: real)
    ensures 0.0 <= Aligned(amount, step, minTrade) <= Max(amount, 0.0)
  {
  }

  /** A pooled order stays within the pool, the exchange deficit and the free balance. */
  lemma OrderWithinAllCaps(pool: real, deficit: real, available: real, step: real, minTrade: real)
    ensures var order := OrderAmount(pool, deficit, available, step, minTrade);
            order.Some? ==> 0.0 < order.value <= Min(pool, deficit) && order.value <= available
  {
    var budget := SellBudget(pool, deficit);
    AlignedNeverRoundsUp(Min(budget, available), step, minTrade);
  }

  function Lot(n: nat, step: real): real {
    n as real * step
  }

  lemma QuotientMonotone(a: real, b: real, step: real)
    requires step > 0.0 && a <= b
    ensures a / step <= b / step
  {
  }

  lemma LotBelow(n: nat, cap: real, step: real)
    requires step > 0.0 && Lot(n, step) <= cap && n >= 1
    ensures cap > 0.0 && n <= (cap / step).Floor
  {
    QuotientMonotone(Lot(n, step), cap, step);
    assert Lot(n, step) / step == n as real;
  }

  lemma LotsGrow(n: nat, m: nat, step: real)
    requires n <= m && step > 0.0
    ensures Lot(n, step) <= Lot(m, step)
  {
    assert (m - n) as real * step >= 0.0;
  }

  /** The order is the largest multiple of the lot that the caps allow; there is none exactly when no lot reaches the minimum. */
  lemma OrderIsLargestLot(pool: real, deficit: real, available: real, step: real, minTrade: real, n: nat)
    requires step > 0.0 && n >= 1 && Lot(n, step) <= Min(Min(pool, deficit), available)
    ensures match OrderAmount(pool, deficit, available, step, minTrade)
            case Some(amount) => Lot(n, step) <= amount && (exists k: nat :: amount == Lot(k, step)) && amount >= minTrade
            case None => Lot(n, step) < minTrade
  {
    var cap := Min(Min(pool, deficit), available);
    LotBelow(n, cap, step);
    var k: nat := (cap / step).Floor;
    LotsGrow(n, k, step);
    assert Truncated(cap / step) * step == Lot(k, step);
    LotsGrow(1, k, step);
    AlignedNeverRoundsUp(cap, step, minTrade);
    hide Lot, Truncated;
  }

  /** What a filled pool order hands to the allocation: the fill, capped by budget and pool. */
  function SoldForPool(reported: real, order: real, pool: real, deficit: real): real {
    Min(if reported <= 0.0 then order else reported, Min(SellBudget(pool, deficit), pool))
  }

  // ---- Crediting one sell ----

  /** What a group may still take from the sell. */
  function Want(row: Option<Row>, remainder: real): real {
    match row
    case None => 0.0
    case Some(r) =>
      if Native(r).None? then 0.0
      else
        var rem := if r.status == Pending || r.status == Submitted then ToSweep(r) else Remaining(r);
        Max(0.0, Min(rem, remainder))
  }

  /** A group can take what its premium has left: of a queued row what the executor would still sell. */
  lemma WantIsWhatIsLeft(r: Row, remainder: real)
    requires Native(r).Some? && RetainedForCover !in r.reason && remainder >= 0.0
    ensures (r.status == Pending || r.status == Submitted) && 0.0 < r.amount <= r.profit ==>
              Want(Some(r), remainder) == Min(remainder, Unswept(r))
    ensures r.status == Unset || r.status == Failed || r.status == Skipped ==> Want(Some(r), remainder) == Min(remainder, r.profit)
    ensures r.status == Filled && r.amount > 0.0 ==>
              var sold := if r.exchangeNative > 0.0 then Min(r.amount, r.exchangeNative) else r.amount;
              Want(Some(r), remainder) == Max(0.0, Min(remainder, r.profit - sold))
  {
  }

  /** The chunk each pool row takes, in pool order, from `left`. */
  function Chunks(wants: seq<real>, left: real): seq<real>
    ensures |Chunks(wants, left)| == |wants|
  {
    if wants == [] then []
    else
      var chunk := if left <= 0.0 then 0.0 else Min(wants[0], left);
      [chunk] + Chunks(wants[1..], left - chunk)
  }

  const TOLERANCE: real := 0.000000000001

  /** The row after `chunk` of a sell worth `quote` was credited to it. */
  function Credited(r: Row, chunk: real, quote: real): Row
    requires Native(r).Some?
  {
    var native := Native(r).value;
    var exchange := Min(native, Max(r.exchangeNative, 0.0) + chunk);
    var exchangeQuote := Max(r.exchangeQuote, 0.0) + quote;
    var r1 := r.(exchangeNative := exchange, exchangeQuote := exchangeQuote);
    var r2 := if r.status == Pending || r.status == Submitted
              then r1.(amount := exchange, status := if exchange + TOLERANCE < native then Pending else Filled)
              else
                var grown := r1.(amount := Min(native, Max(r.amount, 0.0) + chunk));
                if Remaining(grown) <= 0.0 then grown.(status := Filled) else grown;
    var total := if Max(r.exchangeQuote, 0.0) > 0.0 && r.quote + quote > exchangeQuote then exchangeQuote else r.quote + quote;
    r2.(quote := total,
        lifetimeQuote := if total > 0.0 then Max(r.lifetimeQuote, total) else r.lifetimeQuote,
        reason := r.reason + {DustPool})
  }

  /** No credit lifts a row above its premium, and what it adds to the exchange side is the chunk at most. */
  lemma CreditStaysWithinPremium(r: Row, chunk: real, quote: real)
    requires Native(r).Some? && chunk > 0.0
    ensures var c := Credited(r, chunk, quote);
            && Native(c) == Native(r)
            && 0.0 < c.amount <= r.profit && 0.0 < c.exchangeNative <= r.profit
            && c.exchangeNative - Max(r.exchangeNative, 0.0) <= chunk
            && c.exchangeQuote == Max(r.exchangeQuote, 0.0) + quote
  {
  }

  /**
   A credited queue is filled once its exchange total reaches the premium, and pending until then;
   any other row keeps its status, unless it was retained for cover. What it was paid grows by the chunk's quote, at most to the exchange's.
   */
  lemma CreditSettles(r: Row, chunk: real, quote: real)
    requires Native(r).Some? && chunk > 0.0 && quote >= 0.0
    ensures var c := Credited(r, chunk, quote);
            && (if r.status == Pending || r.status == Submitted
                then c.status == (if r.profit - c.exchangeNative <= TOLERANCE then Filled else Pending)
                else c.status == (if RetainedForCover in r.reason then Filled else r.status))
            && c.quote == (if r.exchangeQuote <= 0.0 then r.quote + quote else Min(r.quote + quote, c.exchangeQuote))
            && c.lifetimeQuote >= r.lifetimeQuote && (c.quote > 0.0 ==> c.lifetimeQuote >= c.quote)
            && c.reason == r.reason + {DustPool}
  {
  }

  /** The fill handed on is the reported one, the order's size if none was reported, as far as the caps allow. */
  lemma SoldIsTheFill(reported: real, order: real, pool: real, deficit: real)
    requires 0.0 < order <= Min(pool, deficit)
    ensures reported <= 0.0 ==> SoldForPool(reported, order, pool, deficit) == order
    ensures 0.0 < reported <= Min(pool, deficit) ==> SoldForPool(reported, order, pool, deficit) == reported
  {
  }

  predicate NonNegative(xs: seq<real>) {
    forall k :: 0 <= k < |xs| ==> xs[k] >= 0.0
  }

  lemma {:induction false} SumNonNegative(xs: seq<real>)
    requires NonNegative(xs)
    ensures Sum(xs) >= 0.0
  {
    if xs != [] {
      SumNonNegative(xs[..|xs| - 1]);
    }
  }

  /** The sell is handed out exactly as far as the wants reach, never beyond what was sold. */
  lemma {:induction false} ChunksConserve(wants: seq<real>, left: real)
    requires NonNegative(wants) && left >= 0.0
    ensures Sum(Chunks(wants, left)) == Min(Sum(wants), left)
    ensures forall k :: 0 <= k < |wants| ==> 0.0 <= Chunks(wants, left)[k] <= wants[k]
  {
    hide Sum, Chunks;
    ChunksStart(wants, left);
    if wants != [] {
      var chunk := if left <= 0.0 then 0.0 else Min(wants[0], left);
      SumCons(wants);
      SumNonNegative(wants[1..]);
      ChunksConserve(wants[1..], left - chunk);
      SumCons(Chunks(wants, left));
    }
  }

  lemma ChunksStart(wants: seq<real>, left: real)
    ensures wants == [] ==> Sum(wants) == 0.0 && Sum(Chunks(wants, left)) == 0.0
    ensures wants != [] ==>
              var chunk := if left <= 0.0 then 0.0 else Min(wants[0], left);
              Chunks(wants, left)[0] == chunk && Chunks(wants, left)[1..] == Chunks(wants[1..], left - chunk)
  {
  }

  /** Whatever the exchange reports as filled, the groups are credited no more than pool and deficit allow. */
  lemma AllocationWithinDeficit(wants: seq<real>, reported: real, order: real, pool: real, deficit: real)
    requires NonNegative(wants) && pool > 0.0 && deficit > 0.0 && order > 0.0
    ensures var sold := SoldForPool(reported, order, pool, deficit);
            sold > 0.0 && Sum(Chunks(wants, sold)) <= Min(pool, deficit)
  {
    ChunksConserve(wants, SoldForPool(reported, order, pool, deficit));
  }

  /** Groups fill in pool order: a later row takes coin only when every earlier one is satisfied. */
  lemma {:induction false} ChunksInPoolOrder(wants: seq<real>, left: real, i: nat, j: nat)
    requires NonNegative(wants) && i < j < |wants| && Chunks(wants, left)[j] > 0.0
    ensures Chunks(wants, left)[i] == wants[i]
  {
    var chunk := if left <= 0.0 then 0.0 else Min(wants[0], left);
    if i > 0 {
      ChunksInPoolOrder(wants[1..], left - chunk, i - 1, j - 1);
    } else if chunk != wants[0] {
      NothingLeft(wants[1..], left - chunk, j - 1);
    }
  }

  lemma {:induction false} NothingLeft(wants: seq<real>, left: real, k: nat)
    requires left <= 0.0 && k < |wants|
    ensures Chunks(wants, left)[k] == 0.0
  {
    if k > 0 {
      NothingLeft(wants[1..], left, k - 1);
    }
  }

  /** The proceeds a chunk carries. */
  function QuoteOf(chunk: real, sold: real, proceeds: real): real
    requires sold != 0.0
  {
    proceeds * (chunk / sold)
  }

  function Quotes(chunks: seq<real>, sold: real, proceeds: real): (quotes: seq<real>)
    requires sold != 0.0
    ensures |quotes| == |chunks|
    ensures forall k :: 0 <= k < |chunks| ==> quotes[k] == QuoteOf(chunks[k], sold, proceeds)
  {
    seq(|chunks|, k requires 0 <= k < |chunks| => QuoteOf(chunks[k], sold, proceeds))
  }

  lemma ShareAdds(a: real, b: real, sold: real, proceeds: real)
    requires sold > 0.0
    ensures QuoteOf(a + b, sold, proceeds) == QuoteOf(a, sold, proceeds) + QuoteOf(b, sold, proceeds)
    ensures QuoteOf(0.0, sold, proceeds) == 0.0
  {
    assert (a + b) / sold == a / sold + b / sold;
  }

  lemma {:induction false} QuotesShare(chunks: seq<real>, sold: real, proceeds: real)
    requires sold > 0.0
    ensures Sum(Quotes(chunks, sold, proceeds)) == QuoteOf(Sum(chunks), sold, proceeds)
  {
    hide QuoteOf;
    if chunks == [] {
      ShareAdds(0.0, 0.0, sold, proceeds);
    } else {
      var last := |chunks| - 1;
      QuotesShare(chunks[..last], sold, proceeds);
      assert Quotes(chunks, sold, proceeds)[..last] == Quotes(chunks[..last], sold, proceeds);
      ShareAdds(Sum(chunks[..last]), chunks[last], sold, proceeds);
    }
  }

  lemma FractionOf(placed: real, sold: real, proceeds: real)
    requires placed <= sold && sold > 0.0 && proceeds > 0.0
    ensures QuoteOf(placed, sold, proceeds) <= proceeds
    ensures QuoteOf(placed, sold, proceeds) == proceeds <==> placed == sold
  {
    var share := placed / sold;
    assert share * sold == placed;
    if placed == sold {
      assert share == 1.0;
    } else {
      assert share < 1.0;
      assert proceeds * share < proceeds;
    }
  }

  /** All of the proceeds are credited exactly when all of the coin is. */
  lemma ProceedsFullyCreditedExactly(wants: seq<real>, sold: real, proceeds: real)
    requires NonNegative(wants) && sold > 0.0 && proceeds > 0.0
    ensures Sum(Quotes(Chunks(wants, sold), sold, proceeds)) <= proceeds
    ensures Sum(Quotes(Chunks(wants, sold), sold, proceeds)) == proceeds <==> Sum(wants) >= sold
  {
    hide Quotes, QuoteOf;
    ChunksConserve(wants, sold);
    QuotesShare(Chunks(wants, sold), sold, proceeds);
    FractionOf(Sum(Chunks(wants, sold)), sold, proceeds);
  }

  // ---- The allocation loop ----

  predicate DistinctIds(pool: seq<PoolRow>) {
    forall i, j :: 0 <= i < j < |pool| ==> pool[i].id != pool[j].id
  }

  /** The run's index of groups: each id maps to the group that carries it. */
  predicate Indexed(byId: map<string, Group>) {
    forall id :: id in byId ==> byId[id].id == id
  }

  function RowOf(byId: map<string, Group>, id: string): Option<Row>
    reads byId.Values
  {
    if id in byId then Some(byId[id].Journal()) else None
  }

  function Wants(byId: map<string, Group>, pool: seq<PoolRow>): (wants: seq<real>)
    reads byId.Values
    ensures |wants| == |pool| && NonNegative(wants)
    ensures forall k :: 0 <= k < |pool| ==> wants[k] == Want(RowOf(byId, pool[k].id), pool[k].remainder)
  {
    if pool == [] then []
    else Wants(byId, pool[..|pool| - 1]) + [Want(RowOf(byId, pool[|pool| - 1].id), pool[|pool| - 1].remainder)]
  }

  /** Writes one chunk into the group it was taken for. */
  method CreditGroup(group: Group, chunk: real, quote: real)
    requires Native(group.Journal()).Some?
    modifies group
    ensures group.Journal() == Credited(old(group.Journal()), chunk, quote)
  {
    hide Min, Max, Remaining, TOLERANCE;
    var native := group.profit;
    var priorExchange := Max(group.exchangeNative, 0.0);
    var priorQuote := Max(group.exchangeQuote, 0.0);
    var queued := group.status in {Pending, Submitted};
    group.exchangeNative := Min(native, priorExchange + chunk);
    group.exchangeQuote := priorQuote + quote;
    if queued {
      group.amount := group.exchangeNative;
      group.status := if group.exchangeNative + TOLERANCE < native then Pending else Filled;
    } else {
      group.amount := Min(native, Max(group.amount, 0.0) + chunk);
      if Remaining(group.Journal()) <= 0.0 {
        group.status := Filled;
      }
    }
    group.quote := group.quote + quote;
    if priorQuote > 0.0 && group.quote > group.exchangeQuote {
      group.quote := group.exchangeQuote;
    }
    group.RecordLifetimeProceeds(group.quote);
    group.reason := group.reason + {DustPool};
  }

  /** The ids of the pool rows that took coin, in pool order. */
  function Takers(pool: seq<PoolRow>, chunks: seq<real>): seq<string>
    requires |pool| == |chunks|
  {
    if pool == [] then []
    else
      var last := |pool| - 1;
      Takers(pool[..last], chunks[..last]) + (if chunks[last] > 0.0 then [pool[last].id] else [])
  }

  /** The chunk the group `id` took; 0 for a group that is not in the pool. */
  function Taken(pool: seq<PoolRow>, chunks: seq<real>, id: string): real
    requires |pool| == |chunks|
  {
    if pool == [] then 0.0
    else
      var last := |pool| - 1;
      if pool[last].id == id then chunks[last] else Taken(pool[..last], chunks[..last], id)
  }

  /** A group after the allocation, given the chunk it took. */
  function AfterChunk(r: Row, chunk: real, sold: real, proceeds: real): Row {
    if chunk > 0.0 && sold > 0.0 && Native(r).Some? then Credited(r, chunk, QuoteOf(chunk, sold, proceeds)) else r
  }

  lemma NextChunk(wants: seq<real>, left: real, chunks: seq<real>, i: nat)
    requires i < |wants| == |chunks| && chunks[i..] == Chunks(wants[i..], left)
    ensures chunks[i] == if left <= 0.0 then 0.0 else Min(wants[i], left)
    ensures chunks[i + 1..] == Chunks(wants[i + 1..], left - chunks[i])
  {
    assert wants[i..][0] == wants[i] && wants[i..][1..] == wants[i + 1..];
    assert chunks[i..][0] == chunks[i] && chunks[i..][1..] == chunks[i + 1..];
  }

  lemma NextTaker(pool: seq<PoolRow>, chunks: seq<real>, i: nat)
    requires i < |pool| == |chunks|
    ensures Takers(pool[..i + 1], chunks[..i + 1]) ==
            Takers(pool[..i], chunks[..i]) + (if chunks[i] > 0.0 then [pool[i].id] else [])
  {
    assert pool[..i + 1][..i] == pool[..i] && chunks[..i + 1][..i] == chunks[..i];
  }

  lemma NextTaken(pool: seq<PoolRow>, chunks: seq<real>, i: nat, id: string)
    requires i < |pool| == |chunks|
    ensures Taken(pool[..i + 1], chunks[..i + 1], id) ==
            if pool[i].id == id then chunks[i] else Taken(pool[..i], chunks[..i], id)
  {
    assert pool[..i + 1][..i] == pool[..i] && chunks[..i + 1][..i] == chunks[..i];
  }

  lemma {:induction false} NotYetTaken(pool: seq<PoolRow>, chunks: seq<real>, i: nat, id: string)
    requires i <= |pool| == |chunks| && forall k :: 0 <= k < i ==> pool[k].id != id
    ensures Taken(pool[..i], chunks[..i], id) == 0.0
  {
    if i > 0 {
      NextTaken(pool, chunks, i - 1, id);
      NotYetTaken(pool, chunks, i - 1, id);
    }
  }

  /** After `i` turns every group has been credited what the first `i` pool rows took for it. */
  ghost predicate Progress(byId: map<string, Group>, before: map<string, Row>, pool: seq<PoolRow>, chunks: seq<real>,
                           i: nat, sold: real, proceeds: real)
    requires i <= |pool| == |chunks|
    reads byId.Values
  {
    forall id :: id in byId ==>
      && id in before
      && byId[id].Journal() == AfterChunk(before[id], Taken(pool[..i], chunks[..i], id), sold, proceeds)
  }

  /** One turn of the allocation loop. */
  method TakeChunk(byId: map<string, Group>, pool: seq<PoolRow>, i: nat, left: real, sold: real, proceeds: real,
                   ghost before: map<string, Row>, ghost chunks: seq<real>, ghost wants: seq<real>)
    returns (chunk: real)
    requires Indexed(byId) && DistinctIds(pool) && sold > 0.0
    requires i < |pool| == |chunks| == |wants| && chunks[i..] == Chunks(wants[i..], left)
    requires wants[i] == Want(if pool[i].id in before then Some(before[pool[i].id]) else None, pool[i].remainder)
    requires before.Keys == byId.Keys && Progress(byId, before, pool, chunks, i, sold, proceeds)
    modifies byId.Values
    ensures chunk == chunks[i] && Progress(byId, before, pool, chunks, i + 1, sold, proceeds)
  {
    hide Credited, Remaining, ToSweep, Takers, HasExchangeFill, Taken;
    NextChunk(wants, left, chunks, i);
    NotYetTaken(pool, chunks, i, pool[i].id);
    forall id | id in byId
      ensures Taken(pool[..i + 1], chunks[..i + 1], id) ==
              if pool[i].id == id then chunks[i] else Taken(pool[..i], chunks[..i], id)
    {
      NextTaken(pool, chunks, i, id);
    }
    if left <= 0.0 || pool[i].id !in byId {
      return 0.0;
    }
    var group := byId[pool[i].id];
    assert group.Journal() == before[pool[i].id];
    chunk := Min(Want(Some(group.Journal()), pool[i].remainder), left);
    if chunk > 0.0 {
      SomethingTaken(group.Journal(), chunk, sold, proceeds);
      CreditGroup(group, chunk, QuoteOf(chunk, sold, proceeds));
    }
    forall id | id in byId && id != pool[i].id ensures byId[id].Journal() == old(byId[id].Journal()) {
      assert byId[id] != group;
    }
  }

  /**
   Hands a pooled sell out in pool order. A listed group is credited exactly its chunk and
   that chunk's share of the proceeds; every other group is left alone.
   */
  method ApplyAllocation(byId: map<string, Group>, pool: seq<PoolRow>, sold: real, proceeds: real)
    returns (credited: seq<string>)
    requires Indexed(byId) && DistinctIds(pool)
    modifies byId.Values
    ensures credited == if sold <= 0.0 then [] else Takers(pool, Chunks(old(Wants(byId, pool)), sold))
    ensures forall id :: id in byId ==>
      byId[id].Journal() ==
        AfterChunk(old(byId[id].Journal()), Taken(pool, Chunks(old(Wants(byId, pool)), sold), id), sold, proceeds)
  {
    hide Chunks, Takers, Taken, Credited, Want;
    credited := [];
    if sold <= 0.0 {
      return;
    }
    var left := sold;
    ghost var wants := Wants(byId, pool);
    ghost var chunks := Chunks(wants, sold);
    ghost var before := map id | id in byId :: byId[id].Journal();
    StartOfLoop(pool, chunks, wants);
    for i := 0 to |pool|
      invariant |chunks| == |wants| == |pool| && chunks[i..] == Chunks(wants[i..], left)
      invariant credited == Takers(pool[..i], chunks[..i])
      invariant Progress(byId, before, pool, chunks, i, sold, proceeds)
    {
      NextChunk(wants, left, chunks, i);
      NextTaker(pool, chunks, i);
      hide Progress;
      var chunk := TakeChunk(byId, pool, i, left, sold, proceeds, before, chunks, wants);
      if chunk > 0.0 {
        credited := credited + [pool[i].id];
        left := left - chunk;
      }
    }
    assert pool[..|pool|] == pool && chunks[..|pool|] == chunks;
  }

  lemma StartOfLoop(pool: seq<PoolRow>, chunks: seq<real>, wants: seq<real>)
    requires |pool| == |chunks|
    ensures Takers(pool[..0], chunks[..0]) == []
    ensures forall id :: Taken(pool[..0], chunks[..0], id) == 0.0
    ensures chunks[0..] == chunks && wants[0..] == wants
  {
    assert pool[..0] == [] && chunks[..0] == [];
  }

  lemma SomethingTaken(r: Row, chunk: real, sold: real, proceeds: real)
    requires chunk > 0.0 && sold > 0.0 && Native(r).Some?
    ensures AfterChunk(r, chunk, sold, proceeds) == Credited(r, chunk, QuoteOf(chunk, sold, proceeds))
  {
  }

  // ---- Enough coin for everyone ----

  /** Coin that covers all wants serves each in full. */
  lemma {:induction false} EnoughServesAll(wants: seq<real>, left: real)
    requires NonNegative(wants) && left >= Sum(wants)
    ensures Chunks(wants, left) == wants
  {
    hide Sum, Chunks;
    ChunksStart(wants, left);
    if wants != [] {
      SumCons(wants);
      SumNonNegative(wants[1..]);
      EnoughServesAll(wants[1..], left - wants[0]);
      assert Chunks(wants, left) == [wants[0]] + Chunks(wants, left)[1..];
    }
  }

  function Listed(pool: seq<PoolRow>): (total: seq<real>)
    ensures |total| == |pool| && forall k :: 0 <= k < |pool| ==> total[k] == pool[k].remainder
  {
    seq(|pool|, k requires 0 <= k < |pool| => pool[k].remainder)
  }

  lemma {:induction false} SumMonotone(xs: seq<real>, ys: seq<real>)
    requires |xs| == |ys| && forall k :: 0 <= k < |xs| ==> xs[k] <= ys[k]
    ensures Sum(xs) <= Sum(ys)
  {
    if xs != [] {
      SumMonotone(xs[..|xs| - 1], ys[..|ys| - 1]);
    }
  }

  lemma {:induction false} TakenAt(pool: seq<PoolRow>, chunks: seq<real>, k: nat)
    requires k < |pool| == |chunks| && DistinctIds(pool)
    ensures Taken(pool, chunks, pool[k].id) == chunks[k]
    ensures chunks[k] > 0.0 ==> pool[k].id in Takers(pool, chunks)
  {
    var last := |pool| - 1;
    if k < last {
      TakenAt(pool[..last], chunks[..last], k);
    }
  }

  lemma WantWithin(row: Option<Row>, remainder: real)
    requires remainder >= 0.0
    ensures 0.0 <= Want(row, remainder) <= remainder
  {
  }

  /** Coin for every listed remainder leaves each listed group exactly its want, and its id in the result. */
  lemma EnoughForEveryGroup(byId: map<string, Group>, pool: seq<PoolRow>, sold: real, k: nat)
    requires DistinctIds(pool) && NonNegative(Listed(pool)) && sold >= Sum(Listed(pool)) && k < |pool|
    ensures var want := Want(RowOf(byId, pool[k].id), pool[k].remainder);
            var chunks := Chunks(Wants(byId, pool), sold);
            Taken(pool, chunks, pool[k].id) == want && (want > 0.0 ==> pool[k].id in Takers(pool, chunks))
  {
    hide Chunks, Want, Taken, Takers, Sum;
    var wants := Wants(byId, pool);
    forall i | 0 <= i < |pool| ensures wants[i] <= Listed(pool)[i] {
      WantWithin(RowOf(byId, pool[i].id), pool[i].remainder);
    }
    SumMonotone(wants, Listed(pool));
    EnoughServesAll(wants, sold);
    TakenAt(pool, wants, k);
  }

  /**
   When the coin sold covers every listed remainder, a group queued and listed at its full premium
   is credited all of it: filled, the premium sold on the exchange and nothing remaining.
   */
  lemma FullQueueIsFilled(byId: map<string, Group>, pool: seq<PoolRow>, sold: real, proceeds: real, k: nat)
    requires DistinctIds(pool) && NonNegative(Listed(pool)) && sold >= Sum(Listed(pool)) && k < |pool| && pool[k].id in byId
    requires var r := byId[pool[k].id].Journal();
             && Native(r) == Some(pool[k].remainder) && RetainedForCover !in r.reason
             && (r.status == Pending || r.status == Submitted) && r.amount == r.profit
    ensures var r := byId[pool[k].id].Journal(); var chunks := Chunks(Wants(byId, pool), sold);
            var after := AfterChunk(r, Taken(pool, chunks, pool[k].id), sold, proceeds);
            && after.status == Filled && after.exchangeNative == after.amount == r.profit && Remaining(after) == 0.0
            && after.exchangeQuote == Max(r.exchangeQuote, 0.0) + QuoteOf(r.profit, sold, proceeds)
            && pool[k].id in Takers(pool, chunks)
  {
    hide Chunks, Want, Taken, Takers, Sum, QuoteOf, Listed;
    var r := byId[pool[k].id].Journal();
    EnoughForEveryGroup(byId, pool, sold, k);
    WantIsWhatIsLeft(r, r.profit);
    ListedWithin(pool, k);
    SomethingTaken(r, r.profit, sold, proceeds);
  }

  lemma ListedWithin(pool: seq<PoolRow>, k: nat)
    requires NonNegative(Listed(pool)) && k < |pool|
    ensures pool[k].remainder <= Sum(Listed(pool))
  {
    var xs := Listed(pool);
    SumNonNegative(xs[..k]);
    SumNonNegative(xs[k + 1..]);
    SumConcat(xs[..k], xs[k..]);
    SumCons(xs[k..]);
    assert xs == xs[..k] + xs[k..] && xs[k..][1..] == xs[k + 1..];
  }
}
