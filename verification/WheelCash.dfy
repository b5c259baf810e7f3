/**
 The wheel's cash over whole runs: what its puts bring in and cost, and what the strike window
 promises against it (cash_secured_ops.py:18-86).
 */
module WheelCash {
  import opened Common
  import opened Wheel
  import PremiumSwap
  import WheelRuns

  /**
   `cash` is the USDC of this wheel: the sale's proceeds and everything its puts earned and cost;
   `unrecorded` is the part of it that puts without a recorded credit brought in.
   */
  datatype State = State(wheel: WheelRuns.State, cash: real, unrecorded: real)

  /**
   `Enter` fills a put for the credit received, recorded or not, `Close` and `RollClose` pay the all-in debit of closing one, `Swap` is a
   step of the premium swap of a closed one; every other step of the wheel moves no money.
   */
  datatype Step =
    | Enter(put: Group, received: real)
    | Close(k: nat, closed: Group, debit: real)
    | RollClose(k: nat, closed: Group, debit: real, first: WheelRuns.Cover, second: WheelRuns.Cover)
    | Swap(k: nat, swap: PremiumSwap.Step)
    | Quiet(step: WheelRuns.Step)

  predicate SameMoney(g: Group, after: Group) {
    && after.life == g.life && after.credit == g.credit && after.debit == g.debit && after.fee == g.fee
    && after.swapStatus == g.swapStatus && after.swapAmount == g.swapAmount && after.swapNative == g.swapNative
  }

  /** The close records the debit and leaves the credit and the swap alone. */
  predicate ClosedFor(g: Group, after: Group, debit: real) {
    && g.life == Open && after.life == Closed && debit >= 0.0 && after.debit == Some(debit) && after.credit == g.credit
    && after.swapStatus == g.swapStatus && after.swapAmount == g.swapAmount && after.swapNative == g.swapNative
  }

  predicate FreshMoney(put: Group, received: real) {
    put.credit.GetOr(received) == received && put.debit.None? && put.swapStatus == PremiumSwap.Unset && put.swapAmount == 0.0
  }

  function WheelStep(s: State, step: Step): WheelRuns.Step
    requires (step.Close? || step.RollClose? || step.Swap?) ==> step.k < |s.wheel.groups|
  {
    match step
    case Enter(put, _) => WheelRuns.Fill(put)
    case Close(k, closed, _) => WheelRuns.Evolve(k, closed)
    case RollClose(k, closed, _, first, second) => WheelRuns.Roll(k, closed, first, second)
    case Swap(k, swap) => WheelRuns.Evolve(k, Swapped(s.wheel.groups[k], swap))
    case Quiet(q) => q
  }

  /** The group after a step of its premium swap. */
  function Swapped(g: Group, swap: PremiumSwap.Step): Group {
    var r := PremiumSwap.After(SwapRow(g), swap);
    g.(swapStatus := r.status, swapAmount := r.amount, swapNative := r.native)
  }

  predicate MovesNoMoney(s: State, q: WheelRuns.Step) {
    match q
    case Fill(_) => false
    case Roll(_, _, _, _) => false
    case Evolve(k, after) => k < |s.wheel.groups| && (Linked(s.wheel.groups[k], s.wheel.parent) ==> SameMoney(s.wheel.groups[k], after))
    case _ => true
  }

  predicate Enabled(s: State, step: Step) {
    && ((step.Close? || step.RollClose? || step.Swap?) ==> step.k < |s.wheel.groups| && Linked(s.wheel.groups[step.k], s.wheel.parent))
    && WheelRuns.Enabled(s.wheel, WheelStep(s, step))
    && match step
       case Enter(put, received) => FreshMoney(put, received)
       case Close(k, closed, debit) => ClosedFor(s.wheel.groups[k], closed, debit)
       case RollClose(k, closed, debit, _, _) => ClosedFor(s.wheel.groups[k], closed, debit)
       case Swap(k, swap) => !swap.Wait? && s.wheel.groups[k].life == Closed && PremiumSwap.Enabled(SwapRow(s.wheel.groups[k]), swap)
       case Quiet(q) => MovesNoMoney(s, q)
  }

  function Paid(step: Step): real {
    match step
    case Enter(_, received) => -received
    case Close(_, _, debit) => debit
    case RollClose(_, _, debit, _, _) => debit
    case Swap(_, swap) => PremiumSwap.FilledBy(swap)
    case Quiet(_) => 0.0
  }

  function Unrecorded(step: Step): real {
    if step.Enter? && step.put.credit.None? then step.received else 0.0
  }

  function After(s: State, step: Step): State
    requires Enabled(s, step)
  {
    State(WheelRuns.After(s.wheel, WheelStep(s, step)), s.cash - Paid(step), s.unrecorded + Unrecorded(step))
  }

  predicate Run(s: State, steps: seq<Step>)
    decreases |steps|
  {
    steps == [] || (Enabled(s, steps[0]) && Run(After(s, steps[0]), steps[1..]))
  }

  function End(s: State, steps: seq<Step>): State
    requires Run(s, steps)
    decreases |steps|
  {
    if steps == [] then s else End(After(s, steps[0]), steps[1..])
  }

  // ---- What each put has brought ----

  /** Credit taken in, less the debit and the swapped premium once the put is closed. */
  function Flow(g: Group): real {
    g.credit.GetOr(0.0) - if g.life == Open then 0.0 else Max(g.debit.GetOr(0.0), 0.0) + PremiumSwap.Spent(SwapRow(g))
  }

  function LinkedFlow(g: Group, p: Parent): real {
    if Linked(g, p) then Flow(g) else 0.0
  }

  function TotalFlow(groups: seq<Group>, p: Parent): real {
    if groups == [] then 0.0 else TotalFlow(groups[..|groups| - 1], p) + LinkedFlow(groups[|groups| - 1], p)
  }

  /** The books of one child: nothing is swapped before the close, and its swap reads back right. */
  predicate Proper(g: Group) {
    PremiumSwap.Accurate(SwapRow(g)) && (g.life == Open ==> g.swapAmount == 0.0)
  }

  ghost predicate Balanced(s: State, proceeds: real) {
    && WheelRuns.Sound(s.wheel)
    && (forall g :: g in s.wheel.groups && Linked(g, s.wheel.parent) ==> Proper(g))
    && s.cash == proceeds + TotalFlow(s.wheel.groups, s.wheel.parent) + s.unrecorded
  }

  lemma {:induction false} FlowUpdate(groups: seq<Group>, k: nat, g: Group, p: Parent)
    requires k < |groups|
    ensures TotalFlow(groups[k := g], p) == TotalFlow(groups, p) - LinkedFlow(groups[k], p) + LinkedFlow(g, p)
  {
    hide LinkedFlow;
    var n := |groups| - 1;
    if k == n {
      assert groups[k := g][..n] == groups[..n];
    } else {
      FlowUpdate(groups[..n], k, g, p);
      assert groups[k := g][..n] == groups[..n][k := g];
    }
  }

  lemma {:induction false} FlowSameLinks(groups: seq<Group>, p: Parent, q: Parent)
    requires forall g :: g in groups ==> (Linked(g, p) <==> Linked(g, q))
    ensures TotalFlow(groups, p) == TotalFlow(groups, q)
  {
    hide Linked, Flow;
    if groups != [] {
      FlowSameLinks(groups[..|groups| - 1], p, q);
    }
  }

  lemma FlowSnoc(groups: seq<Group>, g: Group, p: Parent)
    ensures TotalFlow(groups + [g], p) == TotalFlow(groups, p) + LinkedFlow(g, p)
  {
    assert (groups + [g])[..|groups|] == groups;
  }

  // ---- One step ----

  lemma ClosePays(g: Group, after: Group, debit: real)
    requires Proper(g) && ClosedFor(g, after, debit)
    ensures Proper(after) && Flow(after) == Flow(g) - debit
  {
  }

  lemma SwapPays(g: Group, swap: PremiumSwap.Step)
    requires Proper(g) && g.life == Closed && !swap.Wait? && PremiumSwap.Enabled(SwapRow(g), swap)
    ensures var after := Swapped(g, swap);
            && Proper(after) && Flow(after) == Flow(g) - PremiumSwap.FilledBy(swap)
            && SwapRow(after) == PremiumSwap.After(SwapRow(g), swap)
  {
    PremiumSwap.StepStaysAccurate(SwapRow(g), swap);
    SameTerms(SwapRow(g), swap);
  }

  lemma SameTerms(r: PremiumSwap.Row, swap: PremiumSwap.Step)
    requires !swap.Wait?
    ensures var after := PremiumSwap.After(r, swap);
            after == r.(status := after.status, amount := after.amount, native := after.native)
  {
  }

  lemma SameMoneySameFlow(g: Group, after: Group)
    requires SameMoney(g, after) && IsCashSecured(after) == IsCashSecured(g) && Proper(g)
    ensures Proper(after) && Flow(after) == Flow(g)
  {
    SpentIgnoresWaiting(SwapRow(g), SwapRow(after));
  }

  lemma SpentIgnoresWaiting(r: PremiumSwap.Row, after: PremiumSwap.Row)
    requires after == r.(waiting := after.waiting)
    ensures PremiumSwap.Spent(after) == PremiumSwap.Spent(r) && (PremiumSwap.Accurate(after) <==> PremiumSwap.Accurate(r))
  {
  }

  /** One group replaced by another of the same identity, at the price the cash shows. */
  lemma ReplacedStaysBalanced(s: State, k: nat, g: Group, paid: real, proceeds: real)
    requires Balanced(s, proceeds) && k < |s.wheel.groups|
    requires g.id == s.wheel.groups[k].id && g.fromId == s.wheel.groups[k].fromId
    requires g.cashSecuredStrategy == s.wheel.groups[k].cashSecuredStrategy
    requires Linked(s.wheel.groups[k], s.wheel.parent) ==> Proper(g) && Flow(g) == Flow(s.wheel.groups[k]) - paid
    requires !Linked(s.wheel.groups[k], s.wheel.parent) ==> paid == 0.0
    ensures s.cash - paid == proceeds + TotalFlow(s.wheel.groups[k := g], s.wheel.parent) + s.unrecorded
    ensures forall h :: h in s.wheel.groups[k := g] && Linked(h, s.wheel.parent) ==> Proper(h)
  {
    hide Linked, Flow, Proper;
    WheelRuns.SameLink(s.wheel.groups[k], g, s.wheel.parent);
    FlowUpdate(s.wheel.groups, k, g, s.wheel.parent);
    forall h | h in s.wheel.groups[k := g] && Linked(h, s.wheel.parent) ensures Proper(h) {
      if h != g {
        assert h in s.wheel.groups;
      }
    }
  }

  lemma {:induction false} StepStaysBalanced(s: State, step: Step, proceeds: real)
    requires Balanced(s, proceeds) && Enabled(s, step)
    ensures Balanced(After(s, step), proceeds)
  {
    hide Linked, Flow, Proper, WheelRuns.Sound, WheelRuns.Refusal, WheelRuns.BlockedBy, TotalFlow;
    WheelRuns.StepStaysSound(s.wheel, WheelStep(s, step));
    var groups, p := s.wheel.groups, s.wheel.parent;
    var after := After(s, step).wheel;
    match step
    case Enter(put, received) => EnterStaysBalanced(s, put, received, proceeds);
    case Close(k, closed, debit) =>
      ClosePays(groups[k], closed, debit);
      ReplacedStaysBalanced(s, k, closed, debit, proceeds);
    case RollClose(k, closed, debit, _, _) =>
      ClosePays(groups[k], closed, debit);
      ReplacedStaysBalanced(s, k, closed, debit, proceeds);
      WheelRuns.SameLinks(s.wheel, after.parent);
      FlowSameLinks(after.groups, p, after.parent);
    case Swap(k, swap) =>
      SwapPays(groups[k], swap);
      ReplacedStaysBalanced(s, k, Swapped(groups[k], swap), PremiumSwap.FilledBy(swap), proceeds);
    case Quiet(q) => QuietStaysBalanced(s, q, proceeds);
  }

  lemma EnterStaysBalanced(s: State, put: Group, received: real, proceeds: real)
    requires Balanced(s, proceeds) && Enabled(s, Enter(put, received))
    ensures var after := After(s, Enter(put, received));
            && after.cash == proceeds + TotalFlow(after.wheel.groups, after.wheel.parent) + after.unrecorded
            && (forall g :: g in after.wheel.groups && Linked(g, after.wheel.parent) ==> Proper(g))
  {
    hide Linked, WheelRuns.Sound, TotalFlow, Known;
    var after := After(s, Enter(put, received)).wheel;
    forall g | g in s.wheel.groups ensures Linked(g, after.parent) <==> Linked(g, s.wheel.parent) {
      WheelRuns.LinkingKeepsOthers(s.wheel, put, g);
    }
    NewPutLinked(s.wheel, put);
    FlowSnoc(s.wheel.groups, put, after.parent);
    FlowSameLinks(s.wheel.groups, s.wheel.parent, after.parent);
  }

  lemma NewPutLinked(s: WheelRuns.State, put: Group)
    requires WheelRuns.NewPut(s, put)
    ensures Linked(put, WheelRuns.WithPut(s, put).parent)
  {
  }

  lemma QuietStaysBalanced(s: State, q: WheelRuns.Step, proceeds: real)
    requires Balanced(s, proceeds) && Enabled(s, Quiet(q))
    ensures var after := After(s, Quiet(q));
            && after.cash == proceeds + TotalFlow(after.wheel.groups, after.wheel.parent) + after.unrecorded
            && (forall g :: g in after.wheel.groups && Linked(g, after.wheel.parent) ==> Proper(g))
  {
    hide Linked, Flow, Proper, WheelRuns.Sound, WheelRuns.Refusal, WheelRuns.BlockedBy, TotalFlow;
    var groups, p := s.wheel.groups, s.wheel.parent;
    var after := After(s, Quiet(q)).wheel;
    WheelRuns.SameLinks(s.wheel, after.parent);
    FlowSameLinks(after.groups, p, after.parent);
    match q
    case Evolve(k, g) =>
      if Linked(groups[k], p) {
        SameMoneySameFlow(groups[k], g);
      }
      ReplacedStaysBalanced(s, k, g, 0.0, proceeds);
    case Abort(child) =>
      if child.Some? {
        var g := WheelRuns.MarkedByOperator(groups[child.value]);
        if Linked(groups[child.value], p) {
          SameMoneySameFlow(groups[child.value], g);
        }
        ReplacedStaysBalanced(s, child.value, g, 0.0, proceeds);
      }
    case AddGroup(g) =>
      WheelRuns.NotLinked(s.wheel, g);
      FlowSnoc(groups, g, p);
    case _ =>
  }

  // ---- Cash against the ledger ----

  /** What the ledger leaves out of a child: an open put, and a closed one without a positive credit. */
  function Unbanked(g: Group): real {
    if g.life == Open then g.credit.GetOr(0.0) else if g.credit.GetOr(0.0) <= 0.0 then Flow(g) else 0.0
  }

  function TotalUnbanked(groups: seq<Group>, p: Parent): real {
    if groups == [] then 0.0
    else TotalUnbanked(groups[..|groups| - 1], p) + if Linked(groups[|groups| - 1], p) then Unbanked(groups[|groups| - 1]) else 0.0
  }

  /** Every child is counted by the ledger exactly once, and by nothing else but what it leaves out. */
  lemma {:induction false} FlowIsLedgerPlusUnbanked(groups: seq<Group>, p: Parent)
    requires DistinctIds(groups)
    ensures TotalFlow(groups, p) == Ledger(groups, p) + TotalUnbanked(groups, p)
  {
    hide Linked, Flow;
    if groups != [] {
      var init, g := groups[..|groups| - 1], groups[|groups| - 1];
      FlowIsLedgerPlusUnbanked(init, p);
      ChildrenExact(init, p);
      forall c | c in Children(init, p) ensures c.id != g.id {
        ChildrenAreLinked(init, p, c);
        var i :| 0 <= i < |init| && init[i] == c;
        assert groups[i] == c;
      }
      if Linked(g, p) {
        BankedSnoc(Children(init, p), g);
        BankedOrNot(g);
      }
    }
  }

  lemma BankedOrNot(g: Group)
    ensures Flow(g) == Banked(g) + Unbanked(g)
  {
  }

  lemma BankedSnoc(children: seq<Group>, g: Group)
    ensures Sum(BankedAll(children + [g])) == Sum(BankedAll(children)) + Banked(g)
  {
    var all := BankedAll(children + [g]);
    assert all[..|all| - 1] == BankedAll(children);
  }

  /** At the sale: no put yet, and the cash is the proceeds. */
  ghost predicate AtSale(s: State, proceeds: real) {
    WheelRuns.Sound(s.wheel) && s.cash == proceeds && s.unrecorded == 0.0 && forall g :: g in s.wheel.groups ==> !Linked(g, s.wheel.parent)
  }

  lemma {:induction false} NoFlowAtSale(groups: seq<Group>, p: Parent)
    requires forall g :: g in groups ==> !Linked(g, p)
    ensures TotalFlow(groups, p) == 0.0
  {
    hide Linked;
    if groups != [] {
      NoFlowAtSale(groups[..|groups| - 1], p);
    }
  }

  lemma {:induction false} RunStaysBalanced(s: State, steps: seq<Step>, proceeds: real)
    requires Balanced(s, proceeds) && Run(s, steps)
    ensures Balanced(End(s, steps), proceeds)
    decreases |steps|
  {
    hide Enabled, After, Balanced;
    if steps != [] {
      StepStaysBalanced(s, steps[0], proceeds);
      RunStaysBalanced(After(s, steps[0]), steps[1..], proceeds);
    }
  }

  /**
   After any run of entries, closes, losing rolls and premium swaps the wheel's cash is the sale's
   proceeds plus the ledger plus what the ledger leaves out, unrecorded premium included.
   */
  lemma CashIsProceedsPlusLedger(s: State, steps: seq<Step>, proceeds: real)
    requires AtSale(s, proceeds) && Run(s, steps)
    ensures var end := End(s, steps);
            && WheelRuns.Sound(end.wheel)
            && end.cash == proceeds + Ledger(end.wheel.groups, end.wheel.parent)
                           + TotalUnbanked(end.wheel.groups, end.wheel.parent) + end.unrecorded
  {
    hide Ledger, TotalUnbanked, TotalFlow, Linked;
    NoFlowAtSale(s.wheel.groups, s.wheel.parent);
    RunStaysBalanced(s, steps, proceeds);
    var end := End(s, steps);
    FlowIsLedgerPlusUnbanked(end.wheel.groups, end.wheel.parent);
  }

  /** Closed children without a positive recorded credit: the ledger skips them, their buybacks were paid all the same. */
  ghost predicate AllCredited(groups: seq<Group>, p: Parent) {
    forall g :: g in groups && Linked(g, p) ==> g.credit.GetOr(0.0) > 0.0
  }

  lemma {:induction false} UnbankedSign(groups: seq<Group>, p: Parent)
    requires forall g :: g in groups && Linked(g, p) ==> g.life == Closed
    ensures TotalUnbanked(groups, p) <= 0.0 && (AllCredited(groups, p) ==> TotalUnbanked(groups, p) == 0.0)
  {
    hide Linked;
    if groups != [] {
      var init := groups[..|groups| - 1];
      UnbankedSign(init, p);
      SpentNonNegative(groups[|groups| - 1]);
    }
  }

  lemma SpentNonNegative(g: Group)
    ensures PremiumSwap.Spent(SwapRow(g)) >= 0.0
  {
  }

  ghost predicate NoPutOpen(s: State) {
    forall g :: g in s.wheel.groups && Linked(g, s.wheel.parent) ==> g.life == Closed
  }

  /** Every put of at most the window's quantity, at any strike inside the window, can be assigned from the cash. */
  ghost predicate Secured(s: State, floorPct: real, quantity: real) {
    var (low, high) := StrikeBounds(s.wheel.parent.strike, floorPct, Ledger(s.wheel.groups, s.wheel.parent), quantity);
    forall strike, put: real :: 0.0 < strike && low <= strike <= high && 0.0 < put <= quantity ==> Notional(strike, put) <= s.cash
  }

  lemma {:induction false} TermsStay(s: State, steps: seq<Step>)
    requires Run(s, steps)
    ensures End(s, steps).wheel.parent.strike == s.wheel.parent.strike
    decreases |steps|
  {
    hide Enabled, After;
    if steps != [] {
      StepKeepsTerms(s, steps[0]);
      TermsStay(After(s, steps[0]), steps[1..]);
    }
  }

  lemma StepKeepsTerms(s: State, step: Step)
    requires Enabled(s, step)
    ensures After(s, step).wheel.parent.strike == s.wheel.parent.strike
  {
  }

  // ---- Unrecorded premium ----

  predicate Unnoted(g: Group, p: Parent) {
    Linked(g, p) && g.credit.None?
  }

  /** Premium is unrecorded only while some child has no recorded credit. */
  ghost predicate Traced(s: State) {
    s.unrecorded != 0.0 ==> exists i :: 0 <= i < |s.wheel.groups| && Unnoted(s.wheel.groups[i], s.wheel.parent)
  }

  /** A child keeps its place, its link and whether its credit is recorded. */
  lemma CreditStays(s: State, step: Step, i: nat)
    requires Enabled(s, step) && i < |s.wheel.groups| && Unnoted(s.wheel.groups[i], s.wheel.parent)
    ensures i < |After(s, step).wheel.groups| && Unnoted(After(s, step).wheel.groups[i], After(s, step).wheel.parent)
  {
    hide Linked, Known, WheelRuns.Refusal, WheelRuns.BlockedBy, Children;
    var groups := s.wheel.groups;
    var after := After(s, step).wheel;
    if step.Enter? {
      assert groups[i] in groups;
      WheelRuns.LinkingKeepsOthers(s.wheel, step.put, groups[i]);
    } else {
      WheelRuns.SameLinks(s.wheel, after.parent);
      if after.groups[i] != groups[i] {
        WheelRuns.SameLink(groups[i], after.groups[i], s.wheel.parent);
      }
    }
  }

  lemma StepStaysTraced(s: State, step: Step)
    requires Traced(s) && Enabled(s, step)
    ensures Traced(After(s, step))
  {
    hide Enabled, After, Unnoted;
    if step.Enter? && step.put.credit.None? {
      EntersUnnoted(s, step);
    } else if i :| 0 <= i < |s.wheel.groups| && Unnoted(s.wheel.groups[i], s.wheel.parent) {
      CreditStays(s, step, i);
    } else {
      NothingUnrecorded(s, step);
    }
  }

  lemma EntersUnnoted(s: State, step: Step)
    requires Enabled(s, step) && step.Enter? && step.put.credit.None?
    ensures var after := After(s, step).wheel;
            after.groups != [] && Unnoted(after.groups[|after.groups| - 1], after.parent)
  {
    NewPutLinked(s.wheel, step.put);
  }

  lemma NothingUnrecorded(s: State, step: Step)
    requires Enabled(s, step) && !(step.Enter? && step.put.credit.None?)
    ensures After(s, step).unrecorded == s.unrecorded
  {
  }

  lemma {:induction false} RunStaysTraced(s: State, steps: seq<Step>)
    requires Traced(s) && Run(s, steps)
    ensures Traced(End(s, steps))
    decreases |steps|
  {
    hide Enabled, After, Traced;
    if steps != [] {
      StepStaysTraced(s, steps[0]);
      RunStaysTraced(After(s, steps[0]), steps[1..]);
    }
  }

  lemma AllNoted(s: State)
    requires Traced(s) && AllCredited(s.wheel.groups, s.wheel.parent)
    ensures s.unrecorded == 0.0
  {
    if i :| 0 <= i < |s.wheel.groups| && Unnoted(s.wheel.groups[i], s.wheel.parent) {
      assert s.wheel.groups[i] in s.wheel.groups;
    }
  }

  /**
   With no put open, after any run: everything the window offers is covered by the wheel's cash if
   and only if the window is shut, or the coin was sold for its strike at least, on top of what
   skipped children cost beyond the premium they brought in unrecorded. With every credit recorded
   and positive that is: sold for its strike.
   */
  lemma SecuredExactly(s: State, steps: seq<Step>, proceeds: real, floorPct: real, quantity: real)
    requires AtSale(s, proceeds) && Run(s, steps) && NoPutOpen(End(s, steps))
    requires quantity > 0.0 && s.wheel.parent.strike > 0.0
    ensures var end := End(s, steps); var p := end.wheel.parent;
            var high := StrikeBounds(p.strike, floorPct, Ledger(end.wheel.groups, p), quantity).1;
            var skipped := TotalUnbanked(end.wheel.groups, p);
            && (Secured(end, floorPct, quantity) <==>
                high == 0.0 || Notional(p.strike, quantity) <= proceeds + skipped + end.unrecorded)
            && skipped <= 0.0
            && (AllCredited(end.wheel.groups, p) ==>
                  skipped == 0.0 == end.unrecorded && end.cash == proceeds + Ledger(end.wheel.groups, p))
  {
    hide Ledger, TotalUnbanked, Linked, StrikeBounds, Notional, Run, End, AllCredited;
    assert Traced(s);
    hide AtSale, Traced;
    var end := End(s, steps);
    var groups, p := end.wheel.groups, end.wheel.parent;
    TermsStay(s, steps);
    CashIsProceedsPlusLedger(s, steps, proceeds);
    RunStaysTraced(s, steps);
    if AllCredited(groups, p) {
      AllNoted(end);
    }
    UnbankedSign(groups, p);
    LadderStaysSecured(p, groups, floorPct, quantity);
    WindowIsOrdered(p.strike, floorPct, Ledger(groups, p), quantity);
    var (low, high) := StrikeBounds(p.strike, floorPct, Ledger(groups, p), quantity);
    CoveredByCeiling(low, high, quantity, end.cash);
  }

  /** The costliest put of a window is the ceiling at the full quantity. */
  lemma CoveredByCeiling(low: real, high: real, quantity: real, cash: real)
    requires 0.0 <= low <= high && quantity > 0.0
    ensures (forall strike, put: real :: 0.0 < strike && low <= strike <= high && 0.0 < put <= quantity ==> Notional(strike, put) <= cash)
            <==> (high == 0.0 || Notional(high, quantity) <= cash)
  {
    hide Notional;
    forall strike, put | 0.0 < strike && low <= strike <= high && 0.0 < put <= quantity
      ensures Notional(strike, put) <= Notional(high, quantity)
    {
      NotionalMonotone(strike, high, put, quantity);
    }
  }

  // ---- A window left uncovered ----

  const SOLD_CALL: Parent :=
    Parent("0001", [], "", true, true, true, NoRestore, 0.0, false, "", "", 100.0, 1.0, 100.0, 1.0)

  const UNNOTED_PUT: Group :=
    Group("0002", "0001", true, Open, "", 0.0, 90.0, NoRestore, 0.0, false,
          None, None, None, PremiumSwap.Unset, 0.0, 0.0)

  function BoughtBack(): Group {
    UNNOTED_PUT.(life := Closed, closeReason := "csp_active_roll", closeIndex := 95.0, debit := Some(20.0))
  }

  const ENTRY: WheelRuns.Step := WheelRuns.Park(WheelRuns.Cover(false, 1.0))

  lemma EntryAllowed(s: State)
    requires s.wheel == WheelRuns.State(SOLD_CALL, [])
    ensures Enabled(s, Quiet(ENTRY)) && After(s, Quiet(ENTRY)) == s.(wheel := WheelRuns.Submitted(s.wheel))
  {
    assert Children([], SOLD_CALL) == [];
  }

  lemma PutEnters(s: State)
    requires s.wheel == WheelRuns.Submitted(WheelRuns.State(SOLD_CALL, []))
    ensures Enabled(s, Enter(UNNOTED_PUT, 5.0))
    ensures var after := After(s, Enter(UNNOTED_PUT, 5.0));
            && after.cash == s.cash + 5.0 && after.unrecorded == s.unrecorded + 5.0
            && after.wheel.groups == [UNNOTED_PUT] && Linked(UNNOTED_PUT, after.wheel.parent)
            && after.wheel.parent.strike == 100.0 && after.wheel.parent.id == "0001"
  {
    assert Known(s.wheel.parent) == {};
    assert [] + [UNNOTED_PUT] == [UNNOTED_PUT];
    NewPutLinked(s.wheel, UNNOTED_PUT);
  }

  lemma PutIsBoughtBack(s: State)
    requires s.wheel.groups == [UNNOTED_PUT] && Linked(UNNOTED_PUT, s.wheel.parent)
    ensures Enabled(s, Close(0, BoughtBack(), 20.0))
    ensures var after := After(s, Close(0, BoughtBack(), 20.0));
            && after == State(s.wheel.(groups := [BoughtBack()]), s.cash - 20.0, s.unrecorded)
            && Linked(BoughtBack(), s.wheel.parent)
  {
    hide Linked;
    WheelRuns.SameLink(UNNOTED_PUT, BoughtBack(), s.wheel.parent);
    assert [UNNOTED_PUT][0 := BoughtBack()] == [BoughtBack()];
  }

  lemma NothingBanked(p: Parent)
    ensures Ledger([BoughtBack()], p) == 0.0
  {
    var groups := [BoughtBack()];
    assert groups[..0] == [] && Children([], p) == [];
    var children := Children(groups, p);
    assert children == [] || children == [] + [BoughtBack()];
    assert BankedAll([]) == [] && Banked(BoughtBack()) == 0.0;
    BankedSnoc([], BoughtBack());
  }

  /** A put that brought in 5 without recording it is bought back for 20: the cash of 85 does not cover the window's 100. */
  lemma UnrecordedBuybackUncovers() returns (s: State, steps: seq<Step>)
    ensures AtSale(s, 100.0) && s.wheel.parent.strike == 100.0 && |steps| == 3
    ensures Run(s, steps) && NoPutOpen(End(s, steps)) && End(s, steps).cash == 85.0 && !Secured(End(s, steps), 0.0, 1.0)
  {
    hide Enabled, After, Linked, Ledger;
    s := State(WheelRuns.State(SOLD_CALL, []), 100.0, 0.0);
    EntryAllowed(s);
    var s1 := After(s, Quiet(ENTRY));
    PutEnters(s1);
    var s2 := After(s1, Enter(UNNOTED_PUT, 5.0));
    PutIsBoughtBack(s2);
    var end := After(s2, Close(0, BoughtBack(), 20.0));
    NothingBanked(end.wheel.parent);
    assert Notional(100.0, 1.0) > end.cash;
    RunOfThree(s, Quiet(ENTRY), Enter(UNNOTED_PUT, 5.0), Close(0, BoughtBack(), 20.0));
    steps := [Quiet(ENTRY), Enter(UNNOTED_PUT, 5.0), Close(0, BoughtBack(), 20.0)];
  }

  lemma RunOfThree(s: State, a: Step, b: Step, c: Step)
    requires Enabled(s, a) && Enabled(After(s, a), b) && Enabled(After(After(s, a), b), c)
    ensures Run(s, [a, b, c]) && End(s, [a, b, c]) == After(After(After(s, a), b), c)
  {
    hide Enabled, After;
    var s1, s2 := After(s, a), After(After(s, a), b);
    NoSteps(After(s2, c));
    OneMore(s2, [c], [], After(s2, c));
    OneMore(s1, [b, c], [c], After(s2, c));
    OneMore(s, [a, b, c], [b, c], After(s2, c));
  }

  lemma NoSteps(s: State)
    ensures Run(s, []) && End(s, []) == s
  {
  }

  lemma OneMore(s: State, steps: seq<Step>, rest: seq<Step>, last: State)
    requires steps != [] && steps[1..] == rest && Enabled(s, steps[0])
    requires Run(After(s, steps[0]), rest) && End(After(s, steps[0]), rest) == last
    ensures Run(s, steps) && End(s, steps) == last
  {
    hide Enabled, After;
  }
}
