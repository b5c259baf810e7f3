/** The cash-secured-put wheel's books (cash_secured_ops.py): linked children, banked premium and the strike window. */
module Wheel {
  import opened Common
  import PremiumSwap

  /** The two statuses the engine ever gives a group. */
  datatype Life = Open | Closed

  datatype Restore = NoRestore | RestorePending | RestoreSubmitted | RestoreFilled | RestoreSkipped | RestoreCancelled | RestoreFailed

  datatype Group = Group(
    id: string,
    fromId: string,
    cashSecuredStrategy: bool,
    life: Life,
    closeReason: string,
    closeIndex: real,
    strike: real,
    restore: Restore,
    restoreAmount: real,
    restoreOrder: bool,
    credit: Option<real>,
    debit: Option<real>,
    fee: Option<real>,
    swapStatus: PremiumSwap.Status,
    swapAmount: real,
    swapNative: real)

  datatype Parent = Parent(
    id: string,
    knownIds: seq<string>,
    latestId: string,
    coveredCall: bool,
    closed: bool,
    exitFilled: bool,
    restore: Restore,
    restoreAmount: real,
    restoreOrder: bool,
    putStatus: string,
    putReason: string,
    strike: real,
    quantity: real,
    proceeds: real,
    soldNative: real)

  predicate IsCashSecured(g: Group) {
    g.cashSecuredStrategy || g.fromId != ""
  }

  /** The group as the premium swap sees it. */
  function SwapRow(g: Group): PremiumSwap.Row {
    PremiumSwap.Row(IsCashSecured(g), g.life == Closed, g.restore == RestorePending || g.restore == RestoreSubmitted,
                    g.credit, g.debit, g.fee, g.swapStatus, g.swapAmount, g.swapNative)
  }

  // ---- Children ----

  function Known(p: Parent): set<string> {
    (set id | id in p.knownIds && id != "") + if p.latestId != "" then {p.latestId} else {}
  }

  predicate Linked(g: Group, p: Parent) {
    && g.id != "" && g.id != p.id
    && (g.fromId == p.id || g.id in Known(p))
    && (IsCashSecured(g) || g.id in Known(p))
  }

  /** A group belongs to a parent it names, or to one that knows it by id, as latest or among the earlier ones. */
  lemma LinkedExactly(g: Group, p: Parent)
    ensures Linked(g, p) <==>
            && g.id != "" && g.id != p.id
            && ((g.fromId == p.id && (p.id != "" || g.cashSecuredStrategy)) || g.id in p.knownIds || g.id == p.latestId)
  {
  }

  function Ids(groups: seq<Group>): set<string> {
    set g | g in groups :: g.id
  }

  function Children(groups: seq<Group>, p: Parent): seq<Group> {
    if groups == [] then []
    else
      var earlier := Children(groups[..|groups| - 1], p);
      var g := groups[|groups| - 1];
      if Linked(g, p) && g.id !in Ids(earlier) then earlier + [g] else earlier
  }

  method CashSecuredChildren(groups: seq<Group>, p: Parent) returns (children: seq<Group>)
    ensures children == Children(groups, p)
  {
    children := [];
    var seen: set<string> := {};
    var known := Known(p);
    for k := 0 to |groups|
      invariant children == Children(groups[..k], p)
      invariant seen == Ids(children)
    {
      var g := groups[k];
      assert groups[..k + 1][..k] == groups[..k] && groups[..k + 1][k] == g;
      if g.id == "" || g.id == p.id || g.id in seen {
        continue;
      }
      if !(g.fromId == p.id || g.id in known) {
        continue;
      }
      if IsCashSecured(g) || g.id in known {
        seen := seen + {g.id};
        children := children + [g];
      }
    }
    assert groups[..|groups|] == groups;
  }

  /** The first group linked under its id. */
  ghost predicate FirstLinked(groups: seq<Group>, p: Parent, i: nat) {
    && i < |groups| && Linked(groups[i], p)
    && forall j :: 0 <= j < i && Linked(groups[j], p) ==> groups[j].id != groups[i].id
  }

  ghost predicate DistinctIds(groups: seq<Group>) {
    forall i, j :: 0 <= i < j < |groups| ==> groups[i].id != groups[j].id
  }

  ghost predicate IsFirst(groups: seq<Group>, p: Parent, c: Group) {
    exists i: nat :: FirstLinked(groups, p, i) && groups[i] == c
  }

  /** The last group is a first of its id when no earlier linked one has it. */
  lemma FirstOfLonger(groups: seq<Group>, p: Parent, c: Group)
    requires groups != []
    ensures var n := |groups| - 1;
            IsFirst(groups, p, c) <==> IsFirst(groups[..n], p, c) || (groups[n] == c && FirstLinked(groups, p, n))
  {
    hide Linked;
    var n := |groups| - 1;
    var init := groups[..n];
    forall i: nat | i < n ensures FirstLinked(groups, p, i) <==> FirstLinked(init, p, i) {
      assert forall j :: 0 <= j <= i ==> init[j] == groups[j];
    }
    if i: nat :| FirstLinked(init, p, i) && init[i] == c {
      assert FirstLinked(groups, p, i) && groups[i] == c;
    }
    if i: nat :| FirstLinked(groups, p, i) && groups[i] == c {
      assert i < n ==> FirstLinked(init, p, i) && init[i] == c;
    }
  }

  lemma {:induction false} EarlierIdsCovered(groups: seq<Group>, p: Parent)
    ensures forall g :: g in groups && Linked(g, p) ==> g.id in Ids(Children(groups, p))
    ensures forall c :: c in Children(groups, p) ==> c in groups && Linked(c, p)
  {
    hide Linked;
    if groups != [] {
      var init := groups[..|groups| - 1];
      EarlierIdsCovered(init, p);
      assert groups == init + [groups[|groups| - 1]];
      assert forall c :: c in Children(init, p) ==> c in Children(groups, p);
    }
  }

  /** The last group is a new child exactly when no child has its id yet. */
  lemma FirstIsNew(groups: seq<Group>, p: Parent)
    requires groups != [] && Linked(groups[|groups| - 1], p)
    ensures var n := |groups| - 1; FirstLinked(groups, p, n) <==> groups[n].id !in Ids(Children(groups[..n], p))
  {
    hide Linked, Children;
    var n := |groups| - 1;
    var init := groups[..n];
    EarlierIdsCovered(init, p);
    if groups[n].id in Ids(Children(init, p)) {
      var c :| c in Children(init, p) && c.id == groups[n].id;
      var k :| 0 <= k < n && init[k] == c;
      assert groups[k] == c;
    } else {
      forall k | 0 <= k < n && Linked(groups[k], p) ensures groups[k].id != groups[n].id {
        assert init[k] == groups[k] && init[k] in init;
      }
    }
  }

  lemma {:induction false} ChildIdsDistinct(groups: seq<Group>, p: Parent)
    ensures DistinctIds(Children(groups, p))
  {
    hide Linked;
    if groups != [] {
      var earlier := Children(groups[..|groups| - 1], p);
      ChildIdsDistinct(groups[..|groups| - 1], p);
      assert forall k :: 0 <= k < |earlier| ==> earlier[k] in earlier;
    }
  }

  /** The children are exactly the linked groups, each id once and as its first occurrence. */
  lemma {:induction false} ChildrenExact(groups: seq<Group>, p: Parent)
    ensures DistinctIds(Children(groups, p))
    ensures forall c :: c in Children(groups, p) <==> IsFirst(groups, p, c)
  {
    hide Linked, IsFirst, FirstLinked, DistinctIds, Ids;
    ChildIdsDistinct(groups, p);
    if groups == [] {
      NoFirst(p);
    } else {
      var n := |groups| - 1;
      ChildrenExact(groups[..n], p);
      if Linked(groups[n], p) {
        FirstIsNew(groups, p);
      } else {
        UnlinkedIsNoFirst(groups, p);
      }
      forall c ensures c in Children(groups, p) <==> IsFirst(groups, p, c) {
        FirstOfLonger(groups, p, c);
      }
    }
  }

  lemma UnlinkedIsNoFirst(groups: seq<Group>, p: Parent)
    requires groups != [] && !Linked(groups[|groups| - 1], p)
    ensures !FirstLinked(groups, p, |groups| - 1)
  {
  }

  lemma NoFirst(p: Parent)
    ensures forall c :: !IsFirst([], p, c)
  {
  }

  /** With distinct group ids the children are all the linked groups. */
  lemma ChildrenAreLinked(groups: seq<Group>, p: Parent, g: Group)
    requires DistinctIds(groups)
    ensures g in Children(groups, p) <==> g in groups && Linked(g, p)
  {
    hide Linked, Children;
    ChildrenExact(groups, p);
    if g in groups && Linked(g, p) {
      var i :| 0 <= i < |groups| && groups[i] == g;
      assert FirstLinked(groups, p, i);
      assert IsFirst(groups, p, g);
    }
  }

  // ---- The premium ledger ----

  /** What one child has banked. */
  function Banked(g: Group): real {
    var credit := g.credit.GetOr(0.0);
    if g.life != Closed || credit <= 0.0 then 0.0
    else credit - Max(g.debit.GetOr(0.0), 0.0) - PremiumSwap.Spent(SwapRow(g))
  }

  function BankedAll(children: seq<Group>): (xs: seq<real>)
    ensures |xs| == |children| && forall k :: 0 <= k < |xs| ==> xs[k] == Banked(children[k])
  {
    seq(|children|, k requires 0 <= k < |children| => Banked(children[k]))
  }

  function Ledger(groups: seq<Group>, p: Parent): real {
    Sum(BankedAll(Children(groups, p)))
  }

  method PremiumLedger(p: Parent, groups: seq<Group>) returns (total: real)
    ensures total == Ledger(groups, p)
  {
    total := 0.0;
    var children := CashSecuredChildren(groups, p);
    for k := 0 to |children|
      invariant total == Sum(BankedAll(children)[..k])
    {
      var child := children[k];
      assert BankedAll(children)[..k + 1][..k] == BankedAll(children)[..k];
      if child.life != Closed {
        continue;
      }
      var credit := child.credit.GetOr(0.0);
      if credit <= 0.0 {
        continue;
      }
      var debit := Max(child.debit.GetOr(0.0), 0.0);
      total := total + (credit - debit - PremiumSwap.Spent(SwapRow(child)));
    }
    assert BankedAll(children)[..|children|] == BankedAll(children);
  }

  /**
   A child whose swap stayed within its realized premium adds to the ledger exactly the premium
   still unswapped and the close fee, which the swap budget takes off once more.
   */
  lemma BankedIsLeftoverPlusFee(g: Group)
    requires var r := SwapRow(g); PremiumSwap.Realized(r) > 0.0 && PremiumSwap.Spent(r) <= PremiumSwap.Realized(r)
    ensures Banked(g) == PremiumSwap.Leftover(SwapRow(g)) + Max(g.fee.GetOr(0.0), 0.0)
  {
  }

  // ---- The strike window ----

  function StrikeBounds(strike: real, floorPct: real, credit: real, quantity: real): (real, real) {
    if strike <= 0.0 then (0.0, 0.0)
    else
      var ceiling := if credit != 0.0 && quantity > 0.0 then Max(strike + credit / quantity, 0.0) else strike;
      if ceiling <= 0.0 then (0.0, 0.0)
      else (ceiling * (1.0 - Max(0.0, Min(floorPct, 1.0))), ceiling)
  }

  lemma ScaledDown(a: real, f: real)
    requires 0.0 <= f <= 1.0
    ensures a >= 0.0 ==> 0.0 <= a * f <= a
  {
  }

  /** The window is never inverted or negative, and reaches down by the floor fraction alone. */
  lemma WindowIsOrdered(strike: real, floorPct: real, credit: real, quantity: real)
    ensures var (low, high) := StrikeBounds(strike, floorPct, credit, quantity);
            && 0.0 <= low <= high && (floorPct <= 0.0 ==> low == high) && (floorPct >= 1.0 ==> low == 0.0)
            && (0.0 <= floorPct <= 1.0 ==> low + floorPct * high == high)
            && (strike <= 0.0 ==> high == 0.0) && (strike > 0.0 && credit == 0.0 ==> high == strike)
  {
    var (low, high) := StrikeBounds(strike, floorPct, credit, quantity);
    ScaledDown(high, 1.0 - Max(0.0, Min(floorPct, 1.0)));
  }

  function Raised(strike: real, credit: real, quantity: real): real
    requires quantity > 0.0
  {
    strike + credit / quantity
  }

  lemma RaisedNotional(strike: real, credit: real, quantity: real)
    requires quantity > 0.0
    ensures Raised(strike, credit, quantity) * quantity == strike * quantity + credit
    ensures credit == 0.0 ==> Raised(strike, credit, quantity) == strike
  {
    assert (credit / quantity) * quantity == credit;
  }

  lemma HighIsRaised(strike: real, floorPct: real, credit: real, quantity: real)
    requires quantity > 0.0 && strike > 0.0
    ensures StrikeBounds(strike, floorPct, credit, quantity).1 == Max(Raised(strike, credit, quantity), 0.0)
  {
    RaisedNotional(strike, credit, quantity);
  }

  /** What a put of that quantity promises to buy for. */
  function Notional(strike: real, put: real): real {
    strike * put
  }

  lemma NotionalMonotone(strike: real, high: real, put: real, quantity: real)
    requires 0.0 < strike <= high && 0.0 < put <= quantity
    ensures 0.0 < Notional(strike, put) <= Notional(high, quantity)
  {
    assert strike * put <= high * put;
    assert high * put <= high * quantity;
  }

  lemma SignOfProduct(raised: real, quantity: real)
    requires quantity > 0.0
    ensures Notional(Max(raised, 0.0), quantity) == Max(raised * quantity, 0.0)
    ensures raised > 0.0 <==> raised * quantity > 0.0
  {
  }

  lemma CeilingNotional(strike: real, floorPct: real, credit: real, quantity: real)
    requires quantity > 0.0 && strike > 0.0
    ensures var high := StrikeBounds(strike, floorPct, credit, quantity).1; var collateral := Notional(strike, quantity) + credit;
            Notional(high, quantity) == Max(collateral, 0.0) && (high > 0.0 <==> collateral > 0.0)
  {
    hide StrikeBounds, Raised;
    RaisedNotional(strike, credit, quantity);
    HighIsRaised(strike, floorPct, credit, quantity);
    SignOfProduct(Raised(strike, credit, quantity), quantity);
  }

  /**
   With the ladder on: a put of at most the window's quantity at a strike inside the window never
   promises more than the sale's notional plus the net banked premium, and the ceiling promises just that.
   */
  lemma LadderStaysSecured(p: Parent, groups: seq<Group>, floorPct: real, quantity: real)
    requires quantity > 0.0 && p.strike > 0.0
    ensures var collateral := Notional(p.strike, quantity) + Ledger(groups, p);
            var (low, high) := StrikeBounds(p.strike, floorPct, Ledger(groups, p), quantity);
            && (forall strike, put :: 0.0 < strike && low <= strike <= high && 0.0 < put <= quantity ==>
                  Notional(strike, put) <= collateral)
            && Notional(high, quantity) == Max(collateral, 0.0) && low <= high && (high > 0.0 <==> collateral > 0.0)
  {
    hide Ledger, StrikeBounds, Notional;
    var ledger := Ledger(groups, p);
    CeilingNotional(p.strike, floorPct, ledger, quantity);
    WindowIsOrdered(p.strike, floorPct, ledger, quantity);
    var (low, high) := StrikeBounds(p.strike, floorPct, ledger, quantity);
    forall strike, put | 0.0 < strike && low <= strike <= high && 0.0 < put <= quantity
      ensures Notional(strike, put) <= Notional(high, quantity)
    {
      NotionalMonotone(strike, high, put, quantity);
    }
  }
}
