/**
 The profit-sweep journal of one closed covered call (profit_sweep_ops.py).

 `amount` is overloaded: on a queued row it means "queue the whole premium" when it
 equals the premium and "this much is already sold" when it is below it.
 */
module ProfitSweep {
  import opened Common

  datatype Status = Unset | Pending | Submitted | Filled | Failed | Skipped | Unknown

  /** The markers the code looks for inside the free-text reason. */
  datatype Tag =
    | DuplicateRepaired | AmountSynced | ProceedsReconciled | FullySwept
    | UnlabeledReconciled | ManualSwap | DustPool | RetainedForCover
    | ManualSweep | ResweepRemainder | FreeText

  datatype Row = Row(
    closedCall: bool,       // closed and a covered call
    coin: bool,             // coin collateral
    profit: real,           // realized premium in coin; not positive means none
    status: Status,
    amount: real,
    exchangeNative: real,
    exchangeQuote: real,
    quote: real,
    lifetimeQuote: real,
    orderId: nat,           // 0 is the blank id
    reason: set<Tag>)

  /** One spot sell under the group's own order label. */
  datatype Fill = Fill(timestampMs: nat, amount: real, quote: real, orderId: nat)

  /** What the trade cache says about a group's currency: an outage, or every labelled fill. */
  datatype Fetch = Unavailable | Fetched(fills: seq<Fill>)

  const MS_PER_DAY: nat := 86_400_000

  // ---- Fills ----

  function Total(fills: seq<Fill>): real {
    if fills == [] then 0.0 else Total(fills[..|fills| - 1]) + fills[|fills| - 1].amount
  }

  function TotalQuote(fills: seq<Fill>): real {
    if fills == [] then 0.0 else TotalQuote(fills[..|fills| - 1]) + fills[|fills| - 1].quote
  }

  predicate Positive(fills: seq<Fill>) {
    forall k :: 0 <= k < |fills| ==> fills[k].amount > 0.0
  }

  function EarliestDay(fills: seq<Fill>): nat
    requires fills != []
  {
    var day := fills[0].timestampMs / MS_PER_DAY;
    if |fills| == 1 then day
    else
      var rest := EarliestDay(fills[1..]);
      if day <= rest then day else rest
  }

  function OnDay(fills: seq<Fill>, day: nat): seq<Fill> {
    if fills == [] then []
    else
      var last := fills[|fills| - 1];
      var rest := OnDay(fills[..|fills| - 1], day);
      if last.timestampMs / MS_PER_DAY == day then rest + [last] else rest
  }

  function FirstDay(fills: seq<Fill>): seq<Fill> {
    if fills == [] then [] else OnDay(fills, EarliestDay(fills))
  }

  function OfOrder(fills: seq<Fill>, orderId: nat): seq<Fill> {
    if fills == [] then []
    else
      var last := fills[|fills| - 1];
      var rest := OfOrder(fills[..|fills| - 1], orderId);
      if last.orderId == orderId then rest + [last] else rest
  }

  function Attributed(r: Row, fills: seq<Fill>): seq<Fill> {
    if r.orderId != 0 && OfOrder(fills, r.orderId) != [] then OfOrder(fills, r.orderId) else FirstDay(fills)
  }

  // ---- Reading a row ----

  function Native(r: Row): Option<real> {
    if r.closedCall && r.coin && r.profit > 0.0 then Some(r.profit) else None
  }

  predicate HasExchangeFill(r: Row) {
    && r.status == Filled
    && if ProceedsReconciled in r.reason then
         || r.exchangeNative > 0.0
         || FullySwept in r.reason
         || (AmountSynced in r.reason && r.orderId != 0)
         || UnlabeledReconciled in r.reason
         || ManualSwap in r.reason
       else
         || r.orderId != 0
         || FullySwept in r.reason
         || UnlabeledReconciled in r.reason
         || ManualSwap in r.reason
         || DustPool !in r.reason
         || r.exchangeNative > 0.0
  }

  predicate Locked(r: Row) {
    || DuplicateRepaired in r.reason
    || AmountSynced in r.reason
    || (ProceedsReconciled in r.reason && HasExchangeFill(r))
  }

  function Remaining(r: Row): real {
    match Native(r)
    case None => 0.0
    case Some(native) =>
      var credited := Max(r.amount, 0.0);
      if RetainedForCover in r.reason then 0.0
      else if r.status == Filled then
        var journalRem := if credited > 0.0 then Max(0.0, native - Min(credited, native)) else native;
        if r.exchangeNative > 0.0 then
          Max(if credited > 0.0 then journalRem else 0.0, Max(0.0, native - r.exchangeNative))
        else if credited >= native then 0.0
        else if credited > 0.0 then journalRem
        else if !HasExchangeFill(r) then 0.0
        else native
      else if r.status == Pending || r.status == Submitted then
        if credited <= 0.0 then native else Max(0.0, native - credited)
      else native
  }

  function ToSweep(r: Row): real {
    match Native(r)
    case None => 0.0
    case Some(native) =>
      if RetainedForCover in r.reason then 0.0
      else if r.status == Pending || r.status == Submitted then
        var swept := if r.amount > 0.0 then r.amount else native;
        if swept < native then native - swept else swept
      else if r.status == Filled then Remaining(r)
      else native
  }

  function Swept(fetch: Fetch): Option<real> {
    match fetch
    case Unavailable => None
    case Fetched(fills) => Some(Total(fills))
  }

  function ExchangeRemaining(r: Row, fetch: Fetch): Option<real> {
    match (Native(r), Swept(fetch))
    case (Some(native), Some(swept)) =>
      if swept > 0.0 then Some(Max(0.0, native - swept))
      else if (r.status == Pending || r.status == Submitted) && ToSweep(r) > 0.0 then Some(ToSweep(r))
      else Some(Remaining(r))
    case _ => None
  }

  // ---- Steps on a row ----

  function WithProceeds(r: Row, proceeds: real): Row {
    if proceeds > 0.0 then r.(quote := proceeds, lifetimeQuote := Max(r.lifetimeQuote, proceeds)) else r
  }

  function WithOrder(r: Row, orderId: nat): Row {
    if orderId != 0 then r.(orderId := orderId) else r
  }

  function Refreshed(r: Row, fetch: Fetch): Row {
    if !r.closedCall || !HasExchangeFill(r) || fetch.Unavailable? then r
    else
      var trades := Attributed(r, fetch.fills);
      if Total(trades) <= 0.0 then r
      else r.(exchangeNative := Total(trades),
              exchangeQuote := if TotalQuote(trades) > 0.0 then TotalQuote(trades) else r.exchangeQuote)
  }

  /** Synchronises the row with the exchange; true means nothing may be queued now. */
  function Guarded(r: Row, fetch: Fetch): (Row, bool) {
    if !r.closedCall then (r, false)
    else
      var r1 := Refreshed(r, fetch);
      if Locked(r1) then (r1, Remaining(r1) <= 0.0)
      else if Native(r1).None? || fetch.Unavailable? then (r1, true)
      else if FirstDay(fetch.fills) == [] then (r1, false)
      else
        var native, trades := Native(r1).value, FirstDay(fetch.fills);
        var swept, orderId := Total(trades), trades[|trades| - 1].orderId;
        if swept >= native then
          var r2 := WithProceeds(WithOrder(r1.(status := Filled, amount := Min(swept, native)), orderId), TotalQuote(trades));
          (r2.(reason := r2.reason + {FullySwept}), true)
        else if swept > r1.amount then
          (WithProceeds(WithOrder(r1.(status := Filled, amount := swept), orderId), TotalQuote(trades)), false)
        else (r1, false)
  }

  function WouldSchedule(r: Row, fetch: Fetch): (Row, bool) {
    var (r1, blocked) := Guarded(r, fetch);
    if blocked then (r1, false)
    else
      match ExchangeRemaining(r1, fetch)
      case None => (r1, false)
      case Some(remaining) =>
        if remaining <= 0.0 || r1.status == Submitted then (r1, false)
        else if r1.status == Filled then (r1, true)
        else if r1.status == Unset || r1.status == Failed || r1.status == Skipped then (r1, true)
        else (r1, r1.status == Pending && ToSweep(r1) > 0.0)
  }

  function EnsuredPending(r: Row, fetch: Fetch): (Row, bool) {
    if Locked(r) && Remaining(r) <= 0.0 then (r, false)
    else
      var (r1, blocked) := Guarded(r, fetch);
      if blocked then (r1, false)
      else
        var (r2, wanted) := WouldSchedule(r1, fetch);
        match (Native(r2), Swept(fetch))
        case (Some(native), Some(swept)) =>
          var remaining := if swept > 0.0 then Max(0.0, native - swept) else Remaining(r2);
          if !wanted || remaining <= 0.0 then (r2, false)
          else if r2.status == Filled then
            var sold := if swept > 0.0 then swept else Max(r2.exchangeNative, 0.0);
            (r2.(status := Pending,
                 amount := if sold > 0.0 then sold else r2.amount,
                 reason := if r2.reason == {} then {ManualSweep} else r2.reason + {ResweepRemainder}), true)
          else if r2.status == Unset || r2.status == Failed || r2.status == Skipped then
            (r2.(status := Pending,
                 amount := if swept > 0.0 then swept else native,
                 reason := if r2.reason == {} then {ManualSweep} else r2.reason), true)
          else if r2.status == Pending then
            if 0.0 < swept < native then (r2.(amount := swept), false)
            else if 0.0 < r2.amount < native then (r2, false)
            else (r2.(amount := native), false)
          else (r2, false)
        case _ => (r2, false)
  }

  function Scheduled(r: Row, fetch: Fetch): (Row, bool) {
    var (r1, blocked) := Guarded(r, fetch);
    if blocked then (r1, false)
    else
      match ExchangeRemaining(r1, fetch)
      case None => (r1, false)
      case Some(remaining) => if remaining <= 0.0 then (r1, false) else EnsuredPending(r1, fetch)
  }

  /** The tests a row passes in the sweep pass right before its executor runs. */
  predicate AboutToSell(r: Row, fetch: Fetch) {
    && r.status == Pending
    && ExchangeRemaining(r, fetch).Some?
    && ExchangeRemaining(r, fetch).value > 0.0
    && ToSweep(r) > 0.0
  }

  /** A day-by-day reading of the fills; an outage reads as no fills here, and an order is looked up by label. */
  function Reconciled(r: Row, fetch: Fetch, labelled: Option<Fill>): Row {
    if !r.closedCall || Locked(r) then r
    else if fetch.Fetched? && FirstDay(fetch.fills) != [] then
      var trades := FirstDay(fetch.fills);
      var sold := Total(trades);
      var r1 := WithOrder(r.(status := Filled), trades[|trades| - 1].orderId);
      var r2 := WithProceeds(if sold > 0.0 then r1.(amount := sold, exchangeNative := sold) else r1, TotalQuote(trades));
      r2.(reason := if r.reason == {} || |trades| < |fetch.fills| then r.reason + {FreeText} else r.reason)
    else if (r.status == Filled && r.orderId != 0 && r.quote > 0.0) || labelled.None? then r
    else
      var order := labelled.value;
      var r1 := WithOrder(r.(status := Filled), order.orderId);
      var r2 := WithProceeds(if order.amount > 0.0 then r1.(amount := order.amount, exchangeNative := order.amount) else r1, order.quote);
      r2.(reason := if r.reason == {} then {FreeText} else r.reason)
  }

  /** Re-queues a filled row that never received proceeds or an exchange fill. */
  function RequeuedLedgerOnly(r: Row, fetch: Fetch): Row {
    if !r.closedCall || r.status != Filled || HasExchangeFill(r) || r.quote > 0.0 || r.lifetimeQuote > 0.0
       || r.amount > 0.0 || Native(r).None? || fetch.Unavailable? || Total(fetch.fills) > 0.0
    then r
    else
      var kept := r.reason - {ProceedsReconciled};
      r.(status := Pending, amount := Native(r).value, quote := 0.0, reason := if kept == {} then {FreeText} else kept)
  }

  function RequeuedFailed(r: Row, fetch: Fetch): Row {
    if r.closedCall && r.status == Failed then EnsuredPending(r, fetch).0 else r
  }

  // ---- The executor's effect on the journal ----

  /** How the order ended: an exception, a skip, or an accepted order. */
  datatype Outcome = Raised | SlippageSkip | OtherSkip | Cancelled(orderId: nat) | Done(orderId: nat)

  function Unswept(r: Row): real {
    match Native(r)
    case None => 0.0
    case Some(native) =>
      if r.status == Filled then Remaining(r)
      else if (r.status == Pending || r.status == Submitted) && 0.0 < r.amount < native then native - r.amount
      else native
  }

  function PriorSwept(r: Row): real {
    match Native(r)
    case None => 0.0
    case Some(native) =>
      if r.status == Filled then Min(Max(r.amount, 0.0), native)
      else if r.status == Pending && 0.0 < r.amount < native then r.amount
      else 0.0
  }

  /** The order's size: what wallet and lot limits leave (`sizing`), never above the unswept premium. */
  function OrderSize(r: Row, sizing: real): real {
    Min(sizing, Unswept(r))
  }

  /** An accepted order: the amount counts what earlier runs sold, the proceeds accumulate. */
  function Settled(placed: Row, prior: real, size: real, status: Status, orderId: nat, proceeds: real): Row {
    var closed := WithOrder(placed, orderId).(status := status);
    var quote := if prior > 0.0 then closed.quote + proceeds else proceeds;
    var paid := if proceeds > 0.0 then WithProceeds(closed, quote).(quote := quote) else closed;
    if prior > 0.0 then paid.(amount := prior + size) else paid
  }

  function Executed(r: Row, sizing: real, outcome: Outcome, proceeds: real): Row {
    var size, prior := OrderSize(r, sizing), PriorSwept(r);
    if Native(r).None? then (if r.status == Pending then r.(status := Skipped, reason := {FreeText}) else r)
    else if r.status == Submitted || (r.status == Filled && Unswept(r) <= 0.0) then r
    else if size <= 0.0 then r.(status := Pending)
    else
      var placed := r.(status := Submitted, amount := size);
      match outcome
      case Raised => placed.(reason := r.reason + {FreeText})
      case SlippageSkip => placed.(status := Pending, reason := r.reason + {FreeText})
      case OtherSkip => placed.(status := Skipped, reason := r.reason + {FreeText})
      case Cancelled(orderId) => Settled(placed, prior, size, Failed, orderId, proceeds)
      case Done(orderId) => Settled(placed, prior, size, Filled, orderId, proceeds)
  }

  /** The sweep pass as one row sees it. */
  function Passed(r: Row, fetch: Fetch, sizing: real, outcome: Outcome, proceeds: real): Row {
    var r1 := Scheduled(r, fetch).0;
    if AboutToSell(r1, fetch) then Executed(r1, sizing, outcome, proceeds) else r1
  }
}
