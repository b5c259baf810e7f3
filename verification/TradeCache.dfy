/** The per-run cache of profit-sweep sells (profit_sweep_ops.py:78-152). */
module TradeCache {
  import opened Common
  import ProfitSweep

  datatype Trade = Trade(tag: string, direction: string, id: Option<string>, timestampMs: nat, amount: real, quote: real, orderId: nat)

  /** What asking the exchange for a currency's spot trades gives; `NoClient` when it cannot be asked. */
  datatype Answer = NoClient | Failed | Trades(trades: seq<Trade>)

  predicate Contains(s: string, part: string) {
    exists k :: 0 <= k <= |s| - |part| && StandsAt(s, part, k)
  }

  predicate StandsAt(s: string, part: string, k: nat)
    requires k + |part| <= |s|
  {
    s[k..k + |part|] == part
  }

  predicate IsSweepSell(t: Trade) {
    Contains(t.tag, "profit-sweep") && t.direction == "sell"
  }

  /** A sweep sell is any sell whose label carries the sweep's mark somewhere. */
  lemma SweepSellExactly(t: Trade)
    ensures IsSweepSell(t) <==> t.direction == "sell" && exists before, after :: t.tag == before + "profit-sweep" + after
  {
    var mark := "profit-sweep";
    if k :| 0 <= k <= |t.tag| - |mark| && StandsAt(t.tag, mark, k) {
      assert t.tag == t.tag[..k] + mark + t.tag[k + |mark|..];
    }
    if before, after :| t.tag == before + mark + after {
      assert StandsAt(t.tag, mark, |before|);
    }
  }

  function Ids(trades: seq<Trade>): set<Option<string>> {
    set t | t in trades :: t.id
  }

  /** The sweep sells, each trade id once. */
  function Sells(trades: seq<Trade>): seq<Trade> {
    if trades == [] then []
    else
      var earlier := Sells(trades[..|trades| - 1]);
      var t := trades[|trades| - 1];
      if IsSweepSell(t) && t.id !in Ids(earlier) then earlier + [t] else earlier
  }

  function WithLabel(trades: seq<Trade>, tag: string): seq<Trade> {
    if trades == [] then []
    else
      var earlier := WithLabel(trades[..|trades| - 1], tag);
      var t := trades[|trades| - 1];
      if t.tag == tag then earlier + [t] else earlier
  }

  function InsertByTime(t: Trade, trades: seq<Trade>): seq<Trade> {
    if trades == [] || t.timestampMs <= trades[0].timestampMs then [t] + trades
    else [trades[0]] + InsertByTime(t, trades[1..])
  }

  function ByTime(trades: seq<Trade>): seq<Trade> {
    if trades == [] then [] else InsertByTime(trades[0], ByTime(trades[1..]))
  }

  /** The fills a group sees under its label. */
  function FillsOf(answer: Answer, tag: string): seq<Trade> {
    if answer.Trades? then ByTime(WithLabel(Sells(answer.trades), tag)) else []
  }

  function AsFill(t: Trade): ProfitSweep.Fill {
    ProfitSweep.Fill(t.timestampMs, t.amount, t.quote, t.orderId)
  }

  function AsFills(trades: seq<Trade>): seq<ProfitSweep.Fill> {
    if trades == [] then [] else AsFills(trades[..|trades| - 1]) + [AsFill(trades[|trades| - 1])]
  }

  /** What the sweep's steps read for a group: an outage, or the fills under its label. */
  function FetchOf(answer: Answer, tag: string): ProfitSweep.Fetch {
    if answer.Failed? then ProfitSweep.Unavailable else ProfitSweep.Fetched(AsFills(FillsOf(answer, tag)))
  }

  datatype Key = Key(currency: string, tag: string)

  class Cache {
    var byKey: map<Key, seq<Trade>>
    var loaded: set<string>
    var unavailable: set<string>
    /** The one answer each currency was given. */
    ghost var answers: map<string, Answer>

    ghost predicate Valid()
      reads this
    {
      Consistent(byKey, loaded, unavailable, answers)
    }

    function Rows(currency: string, tag: string): seq<Trade>
      reads this
    {
      Grouped(byKey, currency, tag)
    }

    constructor ()
      ensures Valid() && answers == map[]
    {
      byKey, loaded, unavailable, answers := map[], {}, {}, map[];
    }

    /** False where the source raises. `answer` is what a fetch would return, if one is made. */
    method EnsureCurrency(currency: string, answer: Answer) returns (ok: bool)
      requires Valid()
      modifies this
      ensures Valid()
      ensures answers == if currency in old(answers) then old(answers) else old(answers)[currency := answer]
      ensures ok <==> !answers[currency].Failed?
    {
      hide Consistent;
      Known(byKey, loaded, unavailable, answers, currency);
      if currency in loaded {
        return true;
      }
      if currency in unavailable {
        return false;
      }
      Answered(byKey, loaded, unavailable, answers, currency, answer);
      answers := answers[currency := answer];
      if answer.NoClient? {
        loaded := loaded + {currency};
        return true;
      }
      if answer.Failed? {
        unavailable := unavailable + {currency};
        return false;
      }
      var rows := Collect(currency, answer.trades);
      Collected(byKey, loaded, unavailable, old(answers), currency, answer, rows);
      byKey := byKey + rows;
      loaded := loaded + {currency};
      return true;
    }

    method TradesForGroupStrict(currency: string, tag: string, answer: Answer) returns (fills: Option<seq<Trade>>)
      requires Valid()
      modifies this
      ensures Valid()
      ensures answers == if currency in old(answers) then old(answers) else old(answers)[currency := answer]
      ensures fills == if answers[currency].Failed? then None else Some(FillsOf(answers[currency], tag))
    {
      var ok := EnsureCurrency(currency, answer);
      if !ok {
        return None;
      }
      return Some(Rows(currency, tag));
    }

    /** The group's fills as the sweep reads them. */
    method FetchFor(currency: string, tag: string, answer: Answer) returns (fetch: ProfitSweep.Fetch)
      requires Valid()
      modifies this
      ensures Valid()
      ensures answers == if currency in old(answers) then old(answers) else old(answers)[currency := answer]
      ensures fetch == FetchOf(answers[currency], tag) && (fetch.Unavailable? <==> answers[currency].Failed?)
    {
      hide FillsOf, AsFills;
      var fills := TradesForGroupStrict(currency, tag, answer);
      fetch := if fills.None? then ProfitSweep.Unavailable else ProfitSweep.Fetched(AsFills(fills.value));
    }

    method TradesForGroup(currency: string, tag: string, answer: Answer) returns (fills: seq<Trade>)
      requires Valid()
      modifies this
      ensures Valid()
      ensures answers == if currency in old(answers) then old(answers) else old(answers)[currency := answer]
      ensures fills == if answers[currency].Failed? then [] else FillsOf(answers[currency], tag)
    {
      var strict := TradesForGroupStrict(currency, tag, answer);
      fills := strict.GetOr([]);
    }
  }

  ghost predicate Consistent(
    byKey: map<Key, seq<Trade>>, loaded: set<string>, unavailable: set<string>, answers: map<string, Answer>)
  {
    && loaded !! unavailable
    && answers.Keys == loaded + unavailable
    && (forall c :: c in answers ==> (c in unavailable <==> answers[c].Failed?))
    && (forall c, tag :: c in loaded ==> Grouped(byKey, c, tag) == FillsOf(answers[c], tag))
    && (forall key :: key in byKey ==> key.currency in loaded)
  }

  lemma Known(byKey: map<Key, seq<Trade>>, loaded: set<string>, unavailable: set<string>, answers: map<string, Answer>, currency: string)
    requires Consistent(byKey, loaded, unavailable, answers)
    ensures currency in answers <==> currency in loaded || currency in unavailable
    ensures currency in answers ==> (currency in loaded <==> !answers[currency].Failed?)
  {
  }

  lemma Answered(
    byKey: map<Key, seq<Trade>>, loaded: set<string>, unavailable: set<string>, answers: map<string, Answer>,
    currency: string, answer: Answer)
    requires Consistent(byKey, loaded, unavailable, answers) && currency !in answers
    ensures answer.Failed? ==> Consistent(byKey, loaded, unavailable + {currency}, answers[currency := answer])
    ensures answer.NoClient? ==> Consistent(byKey, loaded + {currency}, unavailable, answers[currency := answer])
  {
    hide FillsOf, Grouped;
    if answer.NoClient? {
      NoFills(answer);
      Merged(byKey, map[], currency);
    }
  }

  lemma Collected(
    byKey: map<Key, seq<Trade>>, loaded: set<string>, unavailable: set<string>, answers: map<string, Answer>,
    currency: string, answer: Answer, rows: map<Key, seq<Trade>>)
    requires Consistent(byKey, loaded, unavailable, answers) && currency !in answers && answer.Trades?
    requires forall tag :: Grouped(rows, currency, tag) == FillsOf(answer, tag)
    requires forall key :: key in rows ==> key.currency == currency
    ensures Consistent(byKey + rows, loaded + {currency}, unavailable, answers[currency := answer])
  {
    hide FillsOf, Grouped;
    Merged(byKey, rows, currency);
  }

  lemma Merged(byKey: map<Key, seq<Trade>>, rows: map<Key, seq<Trade>>, currency: string)
    requires forall key :: key in byKey ==> key.currency != currency
    requires forall key :: key in rows ==> key.currency == currency
    ensures forall c, tag :: Grouped(byKey + rows, c, tag) == if c == currency then Grouped(rows, c, tag) else Grouped(byKey, c, tag)
    ensures forall tag :: Grouped(map[], currency, tag) == []
    ensures rows == map[] ==> byKey + rows == byKey
  {
  }

  lemma NoFills(answer: Answer)
    requires !answer.Trades?
    ensures forall tag :: FillsOf(answer, tag) == []
  {
  }

  /** The grouping loop, with the sort of every list at its end. */
  method Collect(currency: string, trades: seq<Trade>) returns (rows: map<Key, seq<Trade>>)
    ensures forall tag :: Grouped(rows, currency, tag) == FillsOf(Trades(trades), tag)
    ensures forall key :: key in rows ==> key.currency == currency
  {
    hide Sells, WithLabel, IsSweepSell, ByTime;
    NothingCollected();
    assert trades[..0] == [];
    var grouped: map<Key, seq<Trade>> := map[];
    var seen: set<Option<string>> := {};
    for k := 0 to |trades|
      invariant seen == Ids(Sells(trades[..k]))
      invariant forall key :: key in grouped ==> key.currency == currency
      invariant forall tag :: Grouped(grouped, currency, tag) == WithLabel(Sells(trades[..k]), tag)
    {
      var t := trades[k];
      SellsStep(trades, k);
      if !IsSweepSell(t) || t.id in seen {
        continue;
      }
      seen := seen + {t.id};
      grouped := grouped[Key(currency, t.tag) := Grouped(grouped, currency, t.tag) + [t]];
    }
    assert trades[..|trades|] == trades;
    rows := map key | key in grouped :: ByTime(grouped[key]);
    forall tag
      ensures Grouped(rows, currency, tag) == FillsOf(Trades(trades), tag)
    {
      assert Grouped(grouped, currency, tag) == WithLabel(Sells(trades), tag);
    }
  }

  function Grouped(grouped: map<Key, seq<Trade>>, currency: string, tag: string): seq<Trade> {
    if Key(currency, tag) in grouped then grouped[Key(currency, tag)] else []
  }

  lemma NothingCollected()
    ensures Sells([]) == [] && Ids([]) == {} && forall tag :: WithLabel([], tag) == []
    ensures ByTime([]) == []
  {
  }

  lemma SellsStep(trades: seq<Trade>, k: nat)
    requires k < |trades|
    ensures var earlier := Sells(trades[..k]); var t := trades[k];
            if IsSweepSell(t) && t.id !in Ids(earlier) then
              && Sells(trades[..k + 1]) == earlier + [t]
              && forall tag :: WithLabel(earlier + [t], tag) ==
                                 (if t.tag == tag then WithLabel(earlier, tag) + [t] else WithLabel(earlier, tag))
            else Sells(trades[..k + 1]) == earlier
  {
    assert trades[..k + 1][..k] == trades[..k];
    var earlier := Sells(trades[..k]);
    assert (earlier + [trades[k]])[..|earlier|] == earlier;
  }

  // ---- What a group sees ----

  /** The first sweep sell carrying its id. */
  ghost predicate FirstOfId(trades: seq<Trade>, i: nat) {
    && i < |trades| && IsSweepSell(trades[i])
    && forall j :: 0 <= j < i && IsSweepSell(trades[j]) ==> trades[j].id != trades[i].id
  }

  ghost predicate DistinctIds(trades: seq<Trade>) {
    forall i, j :: 0 <= i < j < |trades| ==> trades[i].id != trades[j].id
  }

  ghost predicate IsFirst(trades: seq<Trade>, t: Trade) {
    exists i: nat :: FirstOfId(trades, i) && trades[i] == t
  }

  lemma FirstOfLonger(trades: seq<Trade>, t: Trade)
    requires trades != []
    ensures var n := |trades| - 1; IsFirst(trades, t) <==> IsFirst(trades[..n], t) || (trades[n] == t && FirstOfId(trades, n))
  {
    hide IsSweepSell;
    var n := |trades| - 1;
    var init := trades[..n];
    forall i: nat | i < n ensures FirstOfId(trades, i) <==> FirstOfId(init, i) {
      assert forall j :: 0 <= j <= i ==> init[j] == trades[j];
    }
    if i: nat :| FirstOfId(init, i) && init[i] == t {
      assert FirstOfId(trades, i) && trades[i] == t;
    }
    if i: nat :| FirstOfId(trades, i) && trades[i] == t {
      assert i < n ==> FirstOfId(init, i) && init[i] == t;
    }
  }

  lemma {:induction false} SellIdsCovered(trades: seq<Trade>)
    ensures forall t :: t in trades && IsSweepSell(t) ==> t.id in Ids(Sells(trades))
    ensures forall t :: t in Sells(trades) ==> t in trades && IsSweepSell(t)
  {
    hide IsSweepSell;
    if trades != [] {
      var init := trades[..|trades| - 1];
      SellIdsCovered(init);
      assert trades == init + [trades[|trades| - 1]];
      assert forall t :: t in Sells(init) ==> t in Sells(trades);
    }
  }

  lemma {:induction false} SellsExactly(trades: seq<Trade>)
    ensures DistinctIds(Sells(trades))
    ensures forall t :: t in Sells(trades) <==> IsFirst(trades, t)
  {
    hide IsSweepSell, IsFirst;
    if trades == [] {
      NoFirst();
    } else {
      var n := |trades| - 1;
      var init := trades[..n];
      SellsExactly(init);
      SellIdsCovered(init);
      assert forall j :: 0 <= j < n ==> init[j] == trades[j] && init[j] in init;
      assert IsSweepSell(trades[n]) ==> (FirstOfId(trades, n) <==> trades[n].id !in Ids(Sells(init)));
      forall t ensures t in Sells(trades) <==> IsFirst(trades, t) {
        FirstOfLonger(trades, t);
      }
    }
  }

  lemma NoFirst()
    ensures forall t :: !IsFirst([], t)
  {
  }

  predicate InTimeOrder(trades: seq<Trade>) {
    forall i, j :: 0 <= i <= j < |trades| ==> trades[i].timestampMs <= trades[j].timestampMs
  }

  lemma {:induction false} InsertKeepsAll(t: Trade, trades: seq<Trade>)
    ensures multiset(InsertByTime(t, trades)) == multiset{t} + multiset(trades)
  {
    if trades != [] && t.timestampMs > trades[0].timestampMs {
      InsertKeepsAll(t, trades[1..]);
      assert trades == [trades[0]] + trades[1..];
    }
  }

  lemma OrderedCons(t: Trade, rest: seq<Trade>)
    requires InTimeOrder(rest) && From(rest, t.timestampMs)
    ensures InTimeOrder([t] + rest)
  {
  }

  predicate From(trades: seq<Trade>, ms: nat) {
    forall k :: 0 <= k < |trades| ==> ms <= trades[k].timestampMs
  }

  lemma {:induction false} InsertStaysFrom(t: Trade, trades: seq<Trade>, ms: nat)
    requires ms <= t.timestampMs && From(trades, ms)
    ensures From(InsertByTime(t, trades), ms)
  {
    if trades != [] && t.timestampMs > trades[0].timestampMs {
      InsertStaysFrom(t, trades[1..], ms);
    }
  }

  lemma OrderedTail(trades: seq<Trade>)
    requires trades != [] && InTimeOrder(trades)
    ensures InTimeOrder(trades[1..]) && From(trades[1..], trades[0].timestampMs) && From(trades, trades[0].timestampMs)
  {
  }

  lemma {:induction false} InsertKeepsTimeOrder(t: Trade, trades: seq<Trade>)
    requires InTimeOrder(trades)
    ensures InTimeOrder(InsertByTime(t, trades))
  {
    if trades != [] {
      OrderedTail(trades);
      hide InTimeOrder;
      if t.timestampMs > trades[0].timestampMs {
        InsertKeepsTimeOrder(t, trades[1..]);
        InsertStaysFrom(t, trades[1..], trades[0].timestampMs);
        OrderedCons(trades[0], InsertByTime(t, trades[1..]));
      } else {
        OrderedCons(t, trades);
      }
    }
  }

  lemma {:induction false} ByTimeSorts(trades: seq<Trade>)
    ensures InTimeOrder(ByTime(trades)) && multiset(ByTime(trades)) == multiset(trades)
  {
    if trades != [] {
      ByTimeSorts(trades[1..]);
      InsertKeepsTimeOrder(trades[0], ByTime(trades[1..]));
      InsertKeepsAll(trades[0], ByTime(trades[1..]));
      assert trades == [trades[0]] + trades[1..];
    }
  }

  lemma {:induction false} WithLabelExactly(trades: seq<Trade>, tag: string)
    ensures forall t :: multiset(WithLabel(trades, tag))[t] == if t.tag == tag then multiset(trades)[t] else 0
  {
    if trades != [] {
      var init, last := trades[..|trades| - 1], trades[|trades| - 1];
      WithLabelExactly(init, tag);
      assert trades == init + [last];
    }
  }

  lemma {:induction false} DistinctIdsOnce(trades: seq<Trade>)
    requires DistinctIds(trades)
    ensures forall t :: multiset(trades)[t] == if t in trades then 1 else 0
  {
    if trades != [] {
      DistinctIdsOnce(trades[1..]);
      assert trades == [trades[0]] + trades[1..];
    }
  }

  /**
   A group's fills are exactly the sweep sells under its label, each trade id once and as first
   reported, in time order: nothing is counted twice and nothing of its own is missed.
   */
  lemma FillsExactly(trades: seq<Trade>, tag: string)
    ensures var fills := FillsOf(Trades(trades), tag);
            && InTimeOrder(fills)
            && forall t :: multiset(fills)[t] ==
                           if t.tag == tag && IsFirst(trades, t) then 1 else 0
  {
    hide Sells, WithLabel, ByTime, DistinctIds, IsFirst;
    SellsExactly(trades);
    DistinctIdsOnce(Sells(trades));
    WithLabelExactly(Sells(trades), tag);
    ByTimeSorts(WithLabel(Sells(trades), tag));
  }

  // ---- What the sweep counts ----

  /** The amount sold under a label, read off the exchange's answer in its own order. */
  function SoldUnder(trades: seq<Trade>, tag: string): real {
    if trades == [] then 0.0
    else
      var t := trades[|trades| - 1];
      SoldUnder(trades[..|trades| - 1], tag) + if t.tag == tag then t.amount else 0.0
  }

  function Amounts(trades: seq<Trade>): real {
    if trades == [] then 0.0 else trades[0].amount + Amounts(trades[1..])
  }

  lemma {:induction false} AmountsSnoc(trades: seq<Trade>, t: Trade)
    ensures Amounts(trades + [t]) == Amounts(trades) + t.amount
  {
    if trades == [] {
      assert [t][1..] == [] && trades + [t] == [t];
    } else {
      AmountsSnoc(trades[1..], t);
      assert (trades + [t])[1..] == trades[1..] + [t];
    }
  }

  lemma {:induction false} FillsTotal(trades: seq<Trade>)
    ensures ProfitSweep.Total(AsFills(trades)) == Amounts(trades)
  {
    if trades != [] {
      var init, t := trades[..|trades| - 1], trades[|trades| - 1];
      FillsTotal(init);
      AmountsSnoc(init, t);
      assert trades == init + [t];
      assert AsFills(trades)[..|AsFills(trades)| - 1] == AsFills(init);
    }
  }

  lemma {:induction false} ByTimeTotal(trades: seq<Trade>)
    ensures Amounts(ByTime(trades)) == Amounts(trades)
  {
    if trades != [] {
      ByTimeTotal(trades[1..]);
      InsertTotal(trades[0], ByTime(trades[1..]));
    }
  }

  lemma {:induction false} InsertTotal(t: Trade, trades: seq<Trade>)
    ensures Amounts(InsertByTime(t, trades)) == t.amount + Amounts(trades)
  {
    if trades == [] || t.timestampMs <= trades[0].timestampMs {
      assert ([t] + trades)[1..] == trades;
    } else {
      InsertTotal(t, trades[1..]);
      assert InsertByTime(t, trades)[1..] == InsertByTime(t, trades[1..]);
    }
  }

  lemma {:induction false} WithLabelTotal(trades: seq<Trade>, tag: string)
    ensures Amounts(WithLabel(trades, tag)) == SoldUnder(trades, tag)
  {
    if trades != [] {
      var init, t := trades[..|trades| - 1], trades[|trades| - 1];
      WithLabelTotal(init, tag);
      AmountsSnoc(WithLabel(init, tag), t);
    }
  }

  /** The sum the sweep's guard works with is what the exchange reported sold under the label, each trade id once. */
  lemma FetchTotalExactly(trades: seq<Trade>, tag: string)
    ensures FetchOf(Trades(trades), tag).Fetched? && FetchOf(NoClient, tag).Fetched? && FetchOf(Failed, tag).Unavailable?
    ensures ProfitSweep.Total(FetchOf(Trades(trades), tag).fills) == SoldUnder(Sells(trades), tag)
  {
    hide AsFills, ByTime, WithLabel, Sells, SoldUnder, Amounts;
    FillsTotal(FillsOf(Trades(trades), tag));
    ByTimeTotal(WithLabel(Sells(trades), tag));
    WithLabelTotal(Sells(trades), tag);
  }
}
