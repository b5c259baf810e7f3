/** The gates that stop the wheel (cash_secured_ops.py:220-273, 656-699) and whole runs of it. */
module WheelRuns {
  import opened Common
  import opened Wheel

  const OPERATOR_REASONS: set<string> := {"manual_close", "reconciled_external"}
  const RETRIED_SKIPS: set<string> := {"operator_cancelled", "ioc_unfilled", "not_enough_funds"}

  /** What the cover helpers answer for a parent: is the cover back, and how much is to recover. */
  datatype Cover = Cover(complete: bool, target: real)

  predicate OperatorClosed(g: Group) {
    g.life == Closed && g.closeReason in OPERATOR_REASONS
  }

  predicate ExpiredItm(g: Group) {
    g.life == Closed && g.closeIndex > 0.0 && g.strike > 0.0 && g.closeIndex < g.strike
  }

  predicate RestoreInFlight(g: Group) {
    g.restore == RestoreSubmitted || g.restore == RestorePending
  }

  predicate CoverBought(g: Group) {
    g.restore == RestoreFilled && (g.restoreAmount > 0.0 || g.restoreOrder)
  }

  // ---- The gates ----

  /** The first child, in order, that stops the wheel at once. */
  function ChildStop(children: seq<Group>): Option<string> {
    if children == [] then None
    else if RestoreInFlight(children[0]) then Some("child_restore_in_flight")
    else if CoverBought(children[0]) then Some("cover_restored")
    else if ExpiredItm(children[0]) then Some("child_expired_itm")
    else ChildStop(children[1..])
  }

  function BlockedBy(children: seq<Group>, cover: Cover): Option<string> {
    if ChildStop(children).Some? then ChildStop(children)
    else if cover.complete then Some("cover_restored")
    else if exists c :: c in children && OperatorClosed(c) then Some("operator_closed_child")
    else None
  }

  method RollBlocked(p: Parent, groups: seq<Group>, cover: Cover) returns (why: Option<string>)
    ensures why == BlockedBy(Children(groups, p), cover)
  {
    var children := CashSecuredChildren(groups, p);
    for k := 0 to |children|
      invariant ChildStop(children) == ChildStop(children[k..])
    {
      var child := children[k];
      assert children[k..][1..] == children[k + 1..];
      if RestoreInFlight(child) {
        return Some("child_restore_in_flight");
      }
      if CoverBought(child) {
        return Some("cover_restored");
      }
      if ExpiredItm(child) {
        return Some("child_expired_itm");
      }
    }
    if cover.complete {
      return Some("cover_restored");
    }
    if exists c :: c in children && OperatorClosed(c) {
      return Some("operator_closed_child");
    }
    return None;
  }

  /** Why a parent may not fund another put; None when it may. `groups` is absent outside live management. */
  function Refusal(p: Parent, groups: Option<seq<Group>>, cover: Cover): Option<string> {
    if !p.coveredCall then Some("not_covered_call")
    else if !p.closed then Some("not_closed")
    else if !p.exitFilled then Some("spot_exit_not_filled")
    else if p.restore in {RestoreSubmitted, RestorePending, RestoreFilled} && (p.restoreAmount > 0.0 || p.restoreOrder)
    then Some("restore_in_flight")
    else if p.putStatus == "skipped" && p.putReason !in RETRIED_SKIPS then Some("already_skipped")
    else if p.putStatus == "submitted" then Some("already_submitted")
    else if cover.complete then Some("cover_restored")
    else
      var linked := if groups.Some? then WithGroups(p, Children(groups.value, p), cover)
                    else if p.putStatus == "entered" then Some("already_entered")
                    else if p.latestId != "" then Some("child_already_linked")
                    else None;
      if linked.Some? then linked
      else if p.proceeds <= 0.0 then Some("no_usdc_proceeds")
      else if p.soldNative <= 0.0 && p.quantity <= 0.0 then Some("no_sold_native")
      else if cover.target <= 0.0 then Some("cover_restored")
      else None
  }

  function WithGroups(p: Parent, children: seq<Group>, cover: Cover): Option<string> {
    if exists c :: c in children && c.life == Open then Some("child_open")
    else if BlockedBy(children, cover).Some? then BlockedBy(children, cover)
    else if (p.putStatus == "entered" || p.latestId != "") && children == [] then Some("already_entered")
    else None
  }

  lemma {:induction false} ChildStopExactly(children: seq<Group>)
    ensures ChildStop(children).Some? <==> exists c :: c in children && (RestoreInFlight(c) || CoverBought(c) || ExpiredItm(c))
  {
    if children != [] {
      ChildStopExactly(children[1..]);
      assert children == [children[0]] + children[1..];
    }
  }

  /** The roll is blocked exactly when the cover is back or on its way, or some child ended the wheel. */
  lemma BlockedExactly(children: seq<Group>, cover: Cover)
    ensures BlockedBy(children, cover).Some? <==>
            (cover.complete
             || exists c :: c in children && (RestoreInFlight(c) || CoverBought(c) || ExpiredItm(c) || OperatorClosed(c)))
  {
    ChildStopExactly(children);
  }

  /** What each child must be for its parent to fund another put. */
  predicate Spent(c: Group) {
    && c.life == Closed && c.restore != RestoreSubmitted && c.restore != RestorePending
    && (c.restore == RestoreFilled ==> c.restoreAmount <= 0.0 && !c.restoreOrder)
    && (c.closeIndex <= 0.0 || c.strike <= 0.0 || c.closeIndex >= c.strike)
    && c.closeReason != "manual_close" && c.closeReason != "reconciled_external"
  }

  /** A covered call closed with its coin sold, neither cover nor another put on its way or back. */
  predicate HasMeans(p: Parent, cover: Cover) {
    && p.coveredCall && p.closed && p.exitFilled
    && !(p.restore != NoRestore && p.restore != RestoreSkipped && p.restore != RestoreCancelled && p.restore != RestoreFailed
         && (p.restoreAmount > 0.0 || p.restoreOrder))
    && p.putStatus != "submitted"
    && (p.putStatus == "skipped" ==> p.putReason in {"operator_cancelled", "ioc_unfilled", "not_enough_funds"})
    && !cover.complete && cover.target > 0.0
    && p.proceeds > 0.0 && (p.soldNative > 0.0 || p.quantity > 0.0)
  }

  /**
   A parent may fund another put exactly when it has the means and every child is spent; one without
   children, or met outside live management, must not have entered a put before.
   */
  lemma MayFundExactly(p: Parent, groups: Option<seq<Group>>, cover: Cover)
    ensures Refusal(p, groups, cover).None? <==>
            && HasMeans(p, cover)
            && (groups.Some? ==> forall c :: c in Children(groups.value, p) ==> Spent(c))
            && (groups.None? || Children(groups.value, p) == [] ==> p.putStatus != "entered" && p.latestId == "")
  {
    hide Children, BlockedBy, ChildStop;
    forall c ensures Spent(c) <==> c.life == Closed && !RestoreInFlight(c) && !CoverBought(c) && !ExpiredItm(c) && !OperatorClosed(c) {
    }
    hide RestoreInFlight, CoverBought, ExpiredItm, OperatorClosed, Spent;
    if groups.Some? {
      BlockedExactly(Children(groups.value, p), cover);
    }
  }

  /** The reason given is that of the first child to give one; an operator's close only speaks once the cover is not back. */
  lemma BlockedReason(children: seq<Group>, k: nat, cover: Cover)
    requires k <= |children| && forall j :: 0 <= j < k ==> ChildStop([children[j]]).None?
    ensures k < |children| && ChildStop([children[k]]).Some? ==> BlockedBy(children, cover) == ChildStop([children[k]])
    ensures k == |children| && cover.complete ==> BlockedBy(children, cover) == Some("cover_restored")
    ensures k == |children| && !cover.complete && (exists c :: c in children && OperatorClosed(c)) ==>
              BlockedBy(children, cover) == Some("operator_closed_child")
  {
    hide RestoreInFlight, CoverBought, ExpiredItm, OperatorClosed;
    FirstStop(children, k);
  }

  lemma {:induction false} FirstStop(children: seq<Group>, k: nat)
    requires k <= |children| && forall j :: 0 <= j < k ==> ChildStop([children[j]]).None?
    ensures ChildStop(children) == if k < |children| then ChildStop(children[k..]) else None
    ensures k < |children| && ChildStop([children[k]]).Some? ==> ChildStop(children) == ChildStop([children[k]])
  {
    hide RestoreInFlight, CoverBought, ExpiredItm;
    if children != [] {
      assert [children[0]][1..] == [];
      if k > 0 {
        assert forall j :: 0 <= j < k - 1 ==> children[1..][j] == children[j + 1];
        FirstStop(children[1..], k - 1);
        assert children[1..][k - 1..] == children[k..];
      } else {
        assert children[0..] == children;
      }
    }
  }

  /** The one reason each kind of child gives by itself, the first that applies. */
  lemma ReasonOf(c: Group)
    ensures ChildStop([c]) ==
            if c.restore == RestoreSubmitted || c.restore == RestorePending then Some("child_restore_in_flight")
            else if CoverBought(c) then Some("cover_restored")
            else if ExpiredItm(c) then Some("child_expired_itm")
            else None
  {
    assert [c][1..] == [];
  }

  // ---- Runs ----

  datatype State = State(parent: Parent, groups: seq<Group>)

  /**
   `Park` is the gated entry placing its order, `Fill` the order filling, then or in a later cycle.
   `Roll` buys a put back and places its replacement, with a gate before the close and one after;
   a roll stopped by the second gate is an `Evolve`. `Abort` is the operator's abort of the wheel,
   with the child whose close it marks as the operator's. `Evolve` is anything else that happens to
   one group, an unfilled order and every other change of the parent are `ParentChanges`.
   */
  datatype Step =
    | Park(cover: Cover)
    | Roll(k: nat, closed: Group, first: Cover, second: Cover)
    | Fill(put: Group)
    | Abort(child: Option<nat>)
    | Evolve(k: nat, after: Group)
    | AddGroup(group: Group)
    | ParentChanges(parent: Parent)

  predicate Fresh(s: State, g: Group) {
    g.id != "" && g.id != s.parent.id && g.id !in Ids(s.groups) && g.id !in Known(s.parent)
  }

  predicate NewPut(s: State, g: Group) {
    Fresh(s, g) && g.fromId == s.parent.id && g.cashSecuredStrategy && g.life == Open
  }

  /** A group keeps its identity; a closed one stays closed as it was, and nothing re-opens. */
  predicate Evolves(g: Group, after: Group) {
    && after.id == g.id && after.fromId == g.fromId && after.cashSecuredStrategy == g.cashSecuredStrategy
    && after.strike == g.strike
    && (g.life == Closed ==> after.life == Closed && after.closeReason == g.closeReason && after.closeIndex == g.closeIndex)
  }

  const ABORT_REASON := "operator_csp_abort_restore"

  function MarkedByOperator(g: Group): Group {
    if g.life == Closed && (g.closeReason == "" || g.closeReason == "reconciled_external")
    then g.(closeReason := "manual_close") else g
  }

  /** What the entry asks again right before it places its order. */
  predicate EntryAllowed(s: State, cover: Cover) {
    && !cover.complete && BlockedBy(Children(s.groups, s.parent), cover).None?
    && (s.parent.putStatus == "skipped" ==> s.parent.putReason in RETRIED_SKIPS)
  }

  function Rolled(s: State, k: nat, closed: Group): State
    requires k < |s.groups|
  {
    s.(groups := s.groups[k := closed])
  }

  predicate Enabled(s: State, step: Step) {
    match step
    case Park(cover) => Refusal(s.parent, Some(s.groups), cover).None? && EntryAllowed(s, cover)
    case Roll(k, closed, first, second) =>
      && k < |s.groups| && Linked(s.groups[k], s.parent) && s.groups[k].life == Open
      && BlockedBy(Children(s.groups, s.parent), first).None?
      && Evolves(s.groups[k], closed) && closed.life == Closed
      && EntryAllowed(Rolled(s, k, closed), second)
    case Fill(put) => s.parent.putStatus == "submitted" && NewPut(s, put)
    case Abort(child) => child.Some? ==> child.value < |s.groups|
    case Evolve(k, after) => k < |s.groups| && Evolves(s.groups[k], after)
    case AddGroup(g) => Fresh(s, g) && g.fromId != s.parent.id
    case ParentChanges(p) =>
      && p.id == s.parent.id && p.knownIds == s.parent.knownIds && p.latestId == s.parent.latestId && p.strike == s.parent.strike
      && (p.putStatus == "submitted" ==> s.parent.putStatus == "submitted")
  }

  function Submitted(s: State): State {
    s.(parent := s.parent.(putStatus := "submitted", putReason := "ioc_pending"))
  }

  /** Linking a new put to its parent. */
  function WithPut(s: State, put: Group): State {
    var ids := if s.parent.latestId != "" && s.parent.latestId !in s.parent.knownIds
               then s.parent.knownIds + [s.parent.latestId] else s.parent.knownIds;
    State(s.parent.(knownIds := if put.id in ids then ids else ids + [put.id], latestId := put.id, putStatus := "entered"),
          s.groups + [put])
  }

  function After(s: State, step: Step): State
    requires Enabled(s, step)
  {
    match step
    case Park(_) => Submitted(s)
    case Roll(k, closed, _, _) => Submitted(Rolled(s, k, closed))
    case Fill(put) => WithPut(s, put)
    case Abort(child) =>
      State(s.parent.(putStatus := "skipped", putReason := ABORT_REASON),
            if child.Some? then s.groups[child.value := MarkedByOperator(s.groups[child.value])] else s.groups)
    case Evolve(k, after) => s.(groups := s.groups[k := after])
    case AddGroup(g) => s.(groups := s.groups + [g])
    case ParentChanges(p) => s.(parent := p)
  }

  predicate Run(s: State, steps: seq<Step>)
    decreases |steps|
  {
    steps == [] || (Enabled(s, steps[0]) && Run(After(s, steps[0]), steps[1..]))
  }

  function End(s: State, steps: seq<Step>): State
    requires Run(s, steps)
    decreases |steps|
  {
    if steps == [] then s else End(After(s, steps[0]), steps[1..])
  }

  /** Distinct ids, at most one open child, and an order in flight only while no child is open or ended the wheel. */
  ghost predicate Sound(s: State) {
    && DistinctIds(s.groups)
    && (forall i, j :: 0 <= i < |s.groups| && 0 <= j < |s.groups| && OpenChild(s, i) && OpenChild(s, j) ==> i == j)
    && (s.parent.putStatus == "submitted" ==> NoneOpen(s) && !Stopped(s))
  }

  predicate OpenChild(s: State, i: nat)
    requires i < |s.groups|
  {
    s.groups[i].life == Open && Linked(s.groups[i], s.parent)
  }

  ghost predicate NoneOpen(s: State) {
    forall i :: 0 <= i < |s.groups| ==> !OpenChild(s, i)
  }

  /** Some child was closed by an operator, or closed in the money. */
  ghost predicate Stopped(s: State) {
    exists i :: 0 <= i < |s.groups| && StoppedBy(s, i)
  }

  predicate StoppedBy(s: State, i: nat)
    requires i < |s.groups|
  {
    Linked(s.groups[i], s.parent) && (OperatorClosed(s.groups[i]) || ExpiredItm(s.groups[i]))
  }

  lemma LinkingKeepsOthers(s: State, put: Group, g: Group)
    requires g.id != put.id
    ensures Linked(g, WithPut(s, put).parent) <==> Linked(g, s.parent)
  {
  }

  /** Links depend on the parent's id and lists alone. */
  lemma SameLinks(s: State, p: Parent)
    requires p.id == s.parent.id && p.knownIds == s.parent.knownIds && p.latestId == s.parent.latestId
    ensures forall g :: Linked(g, p) <==> Linked(g, s.parent)
  {
    assert Known(p) == Known(s.parent);
  }

  lemma SameLink(g: Group, after: Group, p: Parent)
    requires after.id == g.id && after.fromId == g.fromId && after.cashSecuredStrategy == g.cashSecuredStrategy
    ensures Linked(after, p) <==> Linked(g, p)
  {
  }

  /** The readiness check passes only with no open child and none that ended the wheel. */
  lemma GateMeansNoneOpen(s: State, cover: Cover)
    requires DistinctIds(s.groups) && Refusal(s.parent, Some(s.groups), cover).None?
    ensures NoneOpen(s) && !Stopped(s)
  {
    hide Children, Linked;
    var children := Children(s.groups, s.parent);
    assert WithGroups(s.parent, children, cover).None?;
    NotStopped(s, cover);
    forall i | 0 <= i < |s.groups| ensures !OpenChild(s, i) {
      ChildrenAreLinked(s.groups, s.parent, s.groups[i]);
    }
  }

  lemma NotStopped(s: State, cover: Cover)
    requires DistinctIds(s.groups) && BlockedBy(Children(s.groups, s.parent), cover).None?
    ensures !Stopped(s)
  {
    hide Children, Linked, ExpiredItm, OperatorClosed;
    BlockedExactly(Children(s.groups, s.parent), cover);
    forall i | 0 <= i < |s.groups| ensures !StoppedBy(s, i) {
      ChildrenAreLinked(s.groups, s.parent, s.groups[i]);
    }
  }

  // ---- What every step keeps ----

  /** The groups after a step are the old ones, some changed in place, and perhaps one more at the end. */
  ghost predicate Follows(s: State, after: State) {
    && |s.groups| <= |after.groups| <= |s.groups| + 1
    && (forall i :: 0 <= i < |s.groups| ==> after.groups[i].id == s.groups[i].id)
    && (forall i :: 0 <= i < |s.groups| ==> OpenChild(after, i) ==> OpenChild(s, i))
    && (forall i :: 0 <= i < |s.groups| && StoppedBy(s, i) ==> StoppedBy(after, i))
    && (forall i :: |s.groups| <= i < |after.groups| ==> after.groups[i].id !in Ids(s.groups) && !StoppedBy(after, i))
  }

  lemma StepFollows(s: State, step: Step)
    requires Enabled(s, step)
    ensures Follows(s, After(s, step))
    ensures forall i :: |s.groups| <= i < |After(s, step).groups| && OpenChild(After(s, step), i) ==> step.Fill?
  {
    hide Known, Linked, Refusal, BlockedBy, Children, WithPut;
    var after := After(s, step);
    match step
    case Park(_) => SameLinks(s, after.parent);
    case Roll(k, closed, _, _) =>
      SameLinks(s, after.parent);
      SameLink(s.groups[k], closed, s.parent);
    case Fill(put) => FillFollows(s, put);
    case Abort(child) =>
      SameLinks(s, after.parent);
      if child.Some? {
        SameLink(s.groups[child.value], MarkedByOperator(s.groups[child.value]), s.parent);
      }
    case Evolve(k, g) => SameLink(s.groups[k], g, s.parent);
    case AddGroup(g) => NotLinked(s, g);
    case ParentChanges(p) => SameLinks(s, p);
  }

  lemma NotLinked(s: State, g: Group)
    requires Fresh(s, g) && g.fromId != s.parent.id
    ensures !Linked(g, s.parent)
  {
  }

  lemma FillFollows(s: State, put: Group)
    requires NewPut(s, put)
    ensures Follows(s, WithPut(s, put))
  {
    hide Linked, Known;
    var after := WithPut(s, put);
    forall i | 0 <= i < |s.groups|
      ensures (OpenChild(after, i) <==> OpenChild(s, i)) && (StoppedBy(after, i) <==> StoppedBy(s, i))
    {
      assert s.groups[i] in s.groups;
      LinkingKeepsOthers(s, put, s.groups[i]);
      assert after.groups[i] == s.groups[i];
    }
  }

  lemma FollowsKeepsIds(s: State, after: State)
    requires DistinctIds(s.groups) && Follows(s, after)
    ensures DistinctIds(after.groups)
  {
    hide OpenChild, StoppedBy;
    forall i | 0 <= i < |s.groups| ensures after.groups[i].id in Ids(s.groups) {
      assert s.groups[i] in s.groups;
    }
  }

  lemma SubmittedSame(s: State)
    requires NoneOpen(s) && !Stopped(s)
    ensures NoneOpen(Submitted(s)) && !Stopped(Submitted(s))
  {
    hide Linked;
    SameLinks(s, Submitted(s).parent);
    forall i | 0 <= i < |s.groups| ensures !OpenChild(Submitted(s), i) && !StoppedBy(Submitted(s), i) {
      assert !OpenChild(s, i) && !StoppedBy(s, i);
    }
  }

  lemma RollEndsOpen(s: State, k: nat, closed: Group, second: Cover)
    requires Sound(s) && k < |s.groups| && OpenChild(s, k) && Evolves(s.groups[k], closed) && closed.life == Closed
    requires EntryAllowed(Rolled(s, k, closed), second)
    ensures NoneOpen(Rolled(s, k, closed)) && !Stopped(Rolled(s, k, closed))
  {
    hide Linked, Children, BlockedBy, StoppedBy;
    var mid := Rolled(s, k, closed);
    assert DistinctIds(mid.groups);
    NotStopped(mid, second);
    forall i | 0 <= i < |mid.groups| ensures !OpenChild(mid, i) {
      assert i == k || !OpenChild(s, i);
    }
  }

  lemma EvolvesQuietly(s: State, k: nat, g: Group)
    requires NoneOpen(s) && !Stopped(s) && k < |s.groups| && Evolves(s.groups[k], g)
    ensures NoneOpen(Rolled(s, k, g)) && !Stopped(Rolled(s, k, g))
  {
    hide Linked;
    SameLink(s.groups[k], g, s.parent);
    var after := Rolled(s, k, g);
    forall i | 0 <= i < |s.groups| ensures !OpenChild(after, i) && !StoppedBy(after, i) {
      assert !OpenChild(s, i) && !StoppedBy(s, i);
    }
  }

  lemma OthersStayQuiet(s: State, after: State)
    requires NoneOpen(s) && !Stopped(s) && |after.groups| >= |s.groups| && after.groups[..|s.groups|] == s.groups
    requires after.parent.id == s.parent.id && after.parent.knownIds == s.parent.knownIds && after.parent.latestId == s.parent.latestId
    requires forall i :: |s.groups| <= i < |after.groups| ==> !Linked(after.groups[i], s.parent)
    ensures NoneOpen(after) && !Stopped(after)
  {
    hide Linked;
    SameLinks(s, after.parent);
    forall i | 0 <= i < |after.groups| ensures !OpenChild(after, i) && !StoppedBy(after, i) {
      if i < |s.groups| {
        assert !OpenChild(s, i) && !StoppedBy(s, i) && after.groups[i] == s.groups[i];
      }
    }
  }

  /** An order is in flight only while nothing is open and nothing ended the wheel. */
  lemma SubmittedIsQuiet(s: State, step: Step)
    requires Sound(s) && Enabled(s, step) && After(s, step).parent.putStatus == "submitted"
    ensures NoneOpen(After(s, step)) && !Stopped(After(s, step))
  {
    hide Linked, Known, Refusal, BlockedBy, Children, NoneOpen, Stopped;
    match step
    case Park(cover) =>
      GateMeansNoneOpen(s, cover);
      SubmittedSame(s);
    case Roll(k, closed, _, second) =>
      RollEndsOpen(s, k, closed, second);
      SubmittedSame(Rolled(s, k, closed));
    case Evolve(k, g) => EvolvesQuietly(s, k, g);
    case AddGroup(g) =>
      NotLinked(s, g);
      OthersStayQuiet(s, After(s, step));
    case ParentChanges(p) => OthersStayQuiet(s, After(s, step));
    case Fill(_) =>
    case Abort(_) =>
  }

  lemma {:induction false} StepStaysSound(s: State, step: Step)
    requires Sound(s) && Enabled(s, step)
    ensures Sound(After(s, step))
  {
    hide Linked, Known, Refusal, BlockedBy, Children, OpenChild, StoppedBy, After;
    var after := After(s, step);
    StepFollows(s, step);
    FollowsKeepsIds(s, after);
    if after.parent.putStatus == "submitted" {
      SubmittedIsQuiet(s, step);
    }
    if step.Fill? {
      assert s.parent.putStatus == "submitted";
    }
  }

  /**
   A put opens only by a fill, and then no child was closed by an operator or in the money, before
   it or after it; and a wheel so ended stays ended.
   */
  lemma OpeningsAreClean(s: State, step: Step)
    requires Sound(s) && Enabled(s, step)
    ensures step.Fill? ==> !Stopped(s) && !Stopped(After(s, step))
    ensures Stopped(s) ==> Stopped(After(s, step))
    ensures !step.Fill? ==> forall i :: 0 <= i < |After(s, step).groups| && OpenChild(After(s, step), i) ==> i < |s.groups| && OpenChild(s, i)
  {
    hide Linked, Known, Refusal, BlockedBy, Children, OpenChild, StoppedBy;
    StepFollows(s, step);
    if step.Fill? {
      FillFollowsBack(s, step.put);
    } else if i :| 0 <= i < |s.groups| && StoppedBy(s, i) {
      assert StoppedBy(After(s, step), i);
    }
  }

  lemma FillFollowsBack(s: State, put: Group)
    requires NewPut(s, put) && !Stopped(s)
    ensures !Stopped(WithPut(s, put))
  {
    hide Linked, Known;
    var after := WithPut(s, put);
    forall i | 0 <= i < |after.groups| ensures !StoppedBy(after, i) {
      if i < |s.groups| {
        assert s.groups[i] in s.groups && !StoppedBy(s, i);
        LinkingKeepsOthers(s, put, s.groups[i]);
        assert after.groups[i] == s.groups[i];
      }
    }
  }

  /** A parent that may fund another put gets one: the order parks, fills, and its put is the open child. */
  lemma QuietWheelOpens(s: State, cover: Cover, put: Group)
    requires Sound(s) && Refusal(s.parent, Some(s.groups), cover).None? && NewPut(s, put)
    ensures Run(s, [Park(cover), Fill(put)])
    ensures var end := End(s, [Park(cover), Fill(put)]);
            && end.groups == s.groups + [put] && OpenChild(end, |s.groups|)
            && end.parent.putStatus == "entered" && end.parent.latestId == put.id
  {
    hide Refusal, BlockedBy, Children, Linked;
    RefusedOrAllowed(s, cover);
    var mid := Submitted(s);
    SameLinks(s, mid.parent);
    TwoSteps(s, Park(cover), Fill(put));
    PutIsChild(mid, put);
  }

  /** The operator's abort of a child that closed in no named way ends the wheel: its parent is refused, now and for good. */
  lemma AbortEndsTheWheel(s: State, k: nat, cover: Cover)
    requires k < |s.groups| && Linked(s.groups[k], s.parent) && s.groups[k].life == Closed
    requires s.groups[k].closeReason in {"", "reconciled_external", "manual_close"}
    ensures var after := After(s, Abort(Some(k)));
            && Stopped(after) && Refusal(after.parent, Some(after.groups), cover).Some?
            && after.groups[k] == s.groups[k].(closeReason := after.groups[k].closeReason)
            && after.groups[..k] == s.groups[..k] && after.groups[k + 1..] == s.groups[k + 1..]
  {
    hide Linked, Children, BlockedBy;
    var after := After(s, Abort(Some(k)));
    SameLinks(s, after.parent);
    SameLink(s.groups[k], after.groups[k], s.parent);
    assert StoppedBy(after, k);
  }

  /** Any abort keeps the parent from entering or rolling another put. */
  lemma AbortRefuses(s: State, child: Option<nat>, cover: Cover)
    requires child.Some? ==> child.value < |s.groups|
    ensures var after := After(s, Abort(child));
            !EntryAllowed(after, cover) && Refusal(after.parent, Some(after.groups), cover).Some?
  {
    hide BlockedBy, Children, WithGroups;
  }

  /** A roll that both gates pass replaces the open put: the old one closed, the new one the open child. */
  lemma RollReplaces(s: State, k: nat, closed: Group, first: Cover, second: Cover, put: Group)
    requires Enabled(s, Roll(k, closed, first, second)) && NewPut(Rolled(s, k, closed), put)
    ensures var steps := [Roll(k, closed, first, second), Fill(put)];
            && Run(s, steps)
            && var end := End(s, steps);
               && end.groups == s.groups[k := closed] + [put] && OpenChild(end, |s.groups|) && !OpenChild(end, k)
               && end.parent.putStatus == "entered" && end.parent.latestId == put.id
  {
    hide Refusal, BlockedBy, Children, Linked, EntryAllowed;
    var mid := Submitted(Rolled(s, k, closed));
    SameLinks(s, mid.parent);
    TwoSteps(s, Roll(k, closed, first, second), Fill(put));
    PutIsChild(mid, put);
  }

  lemma TwoSteps(s: State, a: Step, b: Step)
    requires Enabled(s, a) && Enabled(After(s, a), b)
    ensures Run(s, [a, b]) && End(s, [a, b]) == After(After(s, a), b)
  {
    hide Enabled, After, Run, End;
    NoMoreSteps(After(After(s, a), b));
    OneStepMore(After(s, a), [b], []);
    OneStepMore(s, [a, b], [b]);
  }

  lemma NoMoreSteps(s: State)
    ensures Run(s, []) && End(s, []) == s
  {
  }

  lemma OneStepMore(s: State, steps: seq<Step>, rest: seq<Step>)
    requires steps != [] && steps[1..] == rest && Enabled(s, steps[0]) && Run(After(s, steps[0]), rest)
    ensures Run(s, steps) && End(s, steps) == End(After(s, steps[0]), rest)
  {
    hide Enabled, After;
  }

  lemma PutIsChild(s: State, put: Group)
    requires NewPut(s, put)
    ensures var after := WithPut(s, put);
            && after.groups == s.groups + [put] && OpenChild(after, |s.groups|)
            && after.parent.putStatus == "entered" && after.parent.latestId == put.id
  {
    hide Known;
  }

  lemma RefusedOrAllowed(s: State, cover: Cover)
    requires Refusal(s.parent, Some(s.groups), cover).None?
    ensures EntryAllowed(s, cover)
  {
    hide BlockedBy, Children;
  }

  // ---- Whole runs ----

  /** Over any run at most one put of a parent is open. */
  lemma {:induction false} AtMostOneOpenPut(s: State, steps: seq<Step>)
    requires Sound(s) && Run(s, steps)
    ensures Sound(End(s, steps))
    decreases |steps|
  {
    hide Enabled, After;
    if steps != [] {
      StepStaysSound(s, steps[0]);
      AtMostOneOpenPut(After(s, steps[0]), steps[1..]);
    }
  }

  /** Once a child was closed by an operator or in the money, no step of any run opens another put. */
  lemma {:induction false} StoppedForGood(s: State, steps: seq<Step>)
    requires Sound(s) && Stopped(s) && Run(s, steps)
    ensures Stopped(End(s, steps)) && forall step :: step in steps ==> !step.Fill?
    decreases |steps|
  {
    hide Enabled, After, Stopped;
    if steps != [] {
      OpeningsAreClean(s, steps[0]);
      StepStaysSound(s, steps[0]);
      StoppedForGood(After(s, steps[0]), steps[1..]);
      assert steps == [steps[0]] + steps[1..];
    }
  }

  /** Whenever a run opens a put, no child has ended the wheel, the one just bought back included. */
  lemma {:induction false} NoPutAfterTheEnd(s: State, steps: seq<Step>, n: nat)
    requires Sound(s) && Run(s, steps) && n < |steps| && steps[n].Fill?
    ensures Run(s, steps[..n]) && Run(s, steps[..n + 1])
    ensures !Stopped(End(s, steps[..n])) && !Stopped(End(s, steps[..n + 1]))
    decreases n
  {
    hide Enabled, After, Stopped;
    OneStep(s, steps);
    if n == 0 {
      OpeningsAreClean(s, steps[0]);
      assert steps[..0] == [] && steps[..1] == [steps[0]];
      assert [steps[0]][1..] == [];
    } else {
      StepStaysSound(s, steps[0]);
      NoPutAfterTheEnd(After(s, steps[0]), steps[1..], n - 1);
      assert steps[..n][1..] == steps[1..][..n - 1] && steps[..n + 1][1..] == steps[1..][..n];
    }
  }

  lemma OneStep(s: State, steps: seq<Step>)
    requires Run(s, steps) && steps != []
    ensures Enabled(s, steps[0]) && Run(After(s, steps[0]), steps[1..])
  {
  }
}
