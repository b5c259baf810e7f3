/**
 The journal row as the object the engine updates in place, and the loops of a sweep run
 over all groups. Every method is specified by the row functions of `ProfitSweep`.
 */
module ProfitSweepGroup {
  import opened Common
  import opened ProfitSweep

  class Group {
    const id: string
    const closedCall: bool
    const coin: bool
    const profit: real
    var status: Status
    var amount: real
    var exchangeNative: real
    var exchangeQuote: real
    var quote: real
    var lifetimeQuote: real
    var orderId: nat
    var reason: set<Tag>

    constructor (id: string, row: Row)
      ensures this.id == id && Journal() == row
    {
      this.id := id;
      closedCall, coin, profit := row.closedCall, row.coin, row.profit;
      status, amount, orderId, reason := row.status, row.amount, row.orderId, row.reason;
      exchangeNative, exchangeQuote := row.exchangeNative, row.exchangeQuote;
      quote, lifetimeQuote := row.quote, row.lifetimeQuote;
    }

    function Journal(): Row
      reads this
    {
      Row(closedCall, coin, profit, status, amount, exchangeNative, exchangeQuote, quote, lifetimeQuote, orderId, reason)
    }

    method RecordLifetimeProceeds(proceeds: real)
      modifies this`lifetimeQuote
      ensures lifetimeQuote == if proceeds > 0.0 then Max(old(lifetimeQuote), proceeds) else old(lifetimeQuote)
    {
      if proceeds > 0.0 && proceeds > lifetimeQuote {
        lifetimeQuote := proceeds;
      }
    }

    method RefreshExchangeNative(fetch: Fetch)
      modifies this
      ensures Journal() == Refreshed(old(Journal()), fetch)
    {
      if !closedCall || status != Filled || !HasExchangeFill(Journal()) || fetch.Unavailable? {
        return;
      }
      var trades := Attributed(Journal(), fetch.fills);
      var native, sold := Total(trades), TotalQuote(trades);
      if native <= 0.0 {
        return;
      }
      exchangeNative := native;
      if sold > 0.0 {
        exchangeQuote := sold;
      }
    }

    /** Copies order and proceeds of the attributed fills, as both guard branches do. */
    method TakeOrder(trades: seq<Fill>)
      requires trades != []
      modifies this
      ensures Journal() == WithProceeds(WithOrder(old(Journal()), trades[|trades| - 1].orderId), TotalQuote(trades))
    {
      if trades[|trades| - 1].orderId != 0 {
        orderId := trades[|trades| - 1].orderId;
      }
      var proceeds := TotalQuote(trades);
      if proceeds > 0.0 {
        quote := proceeds;
        RecordLifetimeProceeds(proceeds);
      }
    }

    method GuardAgainstOversell(fetch: Fetch) returns (blocked: bool)
      modifies this
      ensures (Journal(), blocked) == Guarded(old(Journal()), fetch)
    {
      if !closedCall {
        return false;
      }
      RefreshExchangeNative(fetch);
      if Locked(Journal()) {
        return Remaining(Journal()) <= 0.0;
      }
      if Native(Journal()).None? || fetch.Unavailable? {
        return true;
      }
      var trades := FirstDay(fetch.fills);
      if trades == [] {
        return false;
      }
      var swept := Total(trades);
      if swept >= profit {
        status, amount := Filled, Min(swept, profit);
        TakeOrder(trades);
        reason := reason + {FullySwept};
        return true;
      }
      if swept > amount {
        status, amount := Filled, swept;
        TakeOrder(trades);
      }
      return false;
    }

    method CheckWouldSchedule(fetch: Fetch) returns (wanted: bool)
      modifies this
      ensures (Journal(), wanted) == WouldSchedule(old(Journal()), fetch)
    {
      var blocked := GuardAgainstOversell(fetch);
      if blocked {
        return false;
      }
      var remaining := ExchangeRemaining(Journal(), fetch);
      if remaining.None? || remaining.value <= 0.0 || status == Submitted {
        return false;
      }
      return || status in {Filled, Unset, Failed, Skipped}
             || (status == Pending && ToSweep(Journal()) > 0.0);
    }

    method EnsurePending(fetch: Fetch) returns (queued: bool)
      modifies this
      ensures (Journal(), queued) == EnsuredPending(old(Journal()), fetch)
    {
      hide Guarded, WouldSchedule, Locked, Remaining, Total;
      if Locked(Journal()) && Remaining(Journal()) <= 0.0 {
        return false;
      }
      var blocked := GuardAgainstOversell(fetch);
      if blocked {
        return false;
      }
      var wanted := CheckWouldSchedule(fetch);
      if !wanted || Native(Journal()).None? || fetch.Unavailable? {
        return false;
      }
      var swept := Total(fetch.fills);
      var remaining := if swept > 0.0 then Max(0.0, profit - swept) else Remaining(Journal());
      if remaining <= 0.0 {
        return false;
      }
      if status == Filled {
        var sold := if swept > 0.0 then swept else Max(exchangeNative, 0.0);
        status := Pending;
        if sold > 0.0 {
          amount := sold;
        }
        reason := if reason == {} then {ManualSweep} else reason + {ResweepRemainder};
        return true;
      }
      if status in {Unset, Failed, Skipped} {
        status, amount := Pending, if swept > 0.0 then swept else profit;
        if reason == {} {
          reason := {ManualSweep};
        }
        return true;
      }
      if status == Pending {
        if 0.0 < swept < profit {
          amount := swept;
        } else if !(0.0 < amount < profit) {
          amount := profit;
        }
      }
      return false;
    }

    method ScheduleRemaining(fetch: Fetch) returns (queued: bool)
      modifies this
      ensures (Journal(), queued) == Scheduled(old(Journal()), fetch)
    {
      var blocked := GuardAgainstOversell(fetch);
      if blocked {
        return false;
      }
      var remaining := ExchangeRemaining(Journal(), fetch);
      if remaining.None? || remaining.value <= 0.0 {
        return false;
      }
      queued := EnsurePending(fetch);
    }

    method Settle(prior: real, size: real, order: nat, proceeds: real)
      modifies this
      ensures Journal() == Settled(old(Journal()), prior, size, old(status), order, proceeds)
    {
      if order != 0 {
        orderId := order;
      }
      if proceeds > 0.0 {
        quote := if prior > 0.0 then quote + proceeds else proceeds;
        RecordLifetimeProceeds(quote);
      }
      if prior > 0.0 {
        amount := prior + size;
      }
    }

    /** The executor's journal effect: size the order, place it, record how it ended. */
    method Execute(order: Order)
      modifies this
      ensures Journal() == Executed(old(Journal()), order.sizing, order.outcome, order.proceeds)
    {
      if Native(Journal()).None? {
        if status == Pending {
          status, reason := Skipped, {FreeText};
        }
        return;
      }
      if status == Submitted || (status == Filled && Unswept(Journal()) <= 0.0) {
        return;
      }
      var size := OrderSize(Journal(), order.sizing);
      if size <= 0.0 {
        status := Pending;
        return;
      }
      var prior := PriorSwept(Journal());
      status, amount := Submitted, size;
      match order.outcome
      case Raised => reason := reason + {FreeText};
      case SlippageSkip => status, reason := Pending, reason + {FreeText};
      case OtherSkip => status, reason := Skipped, reason + {FreeText};
      case Cancelled(oid) => status := Failed; Settle(prior, size, oid, order.proceeds);
      case Done(oid) => status := Filled; Settle(prior, size, oid, order.proceeds);
    }
  }

  /** One order's fate: what the limits left of its size, how it ended, what it paid. */
  datatype Order = Order(sizing: real, outcome: Outcome, proceeds: real)

  predicate Distinct(groups: seq<Group>) {
    forall i, j :: 0 <= i < j < |groups| ==> groups[i] != groups[j]
  }

  /** The run's trade cache: a group without labelled fills reads as an empty list. */
  function Lookup(cache: map<string, Fetch>, id: string): Fetch {
    if id in cache then cache[id] else Fetched([])
  }

  predicate Selected(target: Option<string>, id: string) {
    target.None? || target.value == id
  }

  /** What scheduling and the whole pass do to the group `id`, given the run's filter. */
  function ScheduledFor(target: Option<string>, id: string, cache: map<string, Fetch>, row: Row): Row {
    if Selected(target, id) then Scheduled(row, Lookup(cache, id)).0 else row
  }

  function PassedFor(target: Option<string>, id: string, cache: map<string, Fetch>, order: Order, row: Row): Row {
    if Selected(target, id) then Passed(row, Lookup(cache, id), order.sizing, order.outcome, order.proceeds) else row
  }

  method ScheduleOne(group: Group, cache: map<string, Fetch>, target: Option<string>)
    modifies group
    ensures group.Journal() == ScheduledFor(target, group.id, cache, old(group.Journal()))
  {
    if Selected(target, group.id) {
      var _ := group.ScheduleRemaining(Lookup(cache, group.id));
    }
  }

  method ScheduleAll(groups: seq<Group>, cache: map<string, Fetch>, target: Option<string>)
    requires Distinct(groups)
    modifies groups
    ensures forall k :: 0 <= k < |groups| ==>
      groups[k].Journal() == ScheduledFor(target, groups[k].id, cache, old(groups[k].Journal()))
  {
    hide ScheduledFor, Lookup;
    for i := 0 to |groups|
      invariant forall k :: 0 <= k < i ==>
        groups[k].Journal() == ScheduledFor(target, groups[k].id, cache, old(groups[k].Journal()))
      invariant forall k :: i <= k < |groups| ==> groups[k].Journal() == old(groups[k].Journal())
    {
      ScheduleOne(groups[i], cache, target);
    }
  }

  /** The pass's second half on one scheduled group. */
  function SoldFor(target: Option<string>, id: string, cache: map<string, Fetch>, order: Order, row: Row): Row {
    if Selected(target, id) && AboutToSell(row, Lookup(cache, id))
    then Executed(row, order.sizing, order.outcome, order.proceeds)
    else row
  }

  lemma PassIsScheduleThenSell(target: Option<string>, id: string, cache: map<string, Fetch>, order: Order, row: Row)
    ensures PassedFor(target, id, cache, order, row) ==
            SoldFor(target, id, cache, order, ScheduledFor(target, id, cache, row))
  {
    hide Scheduled, AboutToSell, Executed;
  }

  /** A run for one group leaves every other row as it was. */
  lemma OnlyTheTargetMoves(target: Option<string>, id: string, cache: map<string, Fetch>, order: Order, row: Row)
    ensures PassedFor(target, id, cache, order, row) ==
            if target.Some? && target.value != id then row
            else Passed(row, if id in cache then cache[id] else Fetched([]), order.sizing, order.outcome, order.proceeds)
  {
    hide Passed;
  }

  method ExecuteOne(group: Group, cache: map<string, Fetch>, target: Option<string>, order: Order)
    modifies group
    ensures group.Journal() == SoldFor(target, group.id, cache, order, old(group.Journal()))
  {
    if Selected(target, group.id) && group.status == Pending {
      var remaining := ExchangeRemaining(group.Journal(), Lookup(cache, group.id));
      if remaining.Some? && remaining.value > 0.0 && ToSweep(group.Journal()) > 0.0 {
        group.Execute(order);
      }
    }
  }

  /** Schedules every group, then executes the queued ones that still have something to sell. */
  method RunPass(groups: seq<Group>, cache: map<string, Fetch>, target: Option<string>, orders: string -> Order)
    requires Distinct(groups)
    modifies groups
    ensures forall k :: 0 <= k < |groups| ==>
      groups[k].Journal() == PassedFor(target, groups[k].id, cache, orders(groups[k].id), old(groups[k].Journal()))
  {
    hide ScheduledFor, SoldFor, PassedFor, AboutToSell, Lookup;
    ScheduleAll(groups, cache, target);
    for i := 0 to |groups|
      invariant forall k :: i <= k < |groups| ==>
        groups[k].Journal() == ScheduledFor(target, groups[k].id, cache, old(groups[k].Journal()))
      invariant forall k :: 0 <= k < i ==>
        groups[k].Journal() == PassedFor(target, groups[k].id, cache, orders(groups[k].id), old(groups[k].Journal()))
    {
      PassIsScheduleThenSell(target, groups[i].id, cache, orders(groups[i].id), old(groups[i].Journal()));
      ExecuteOne(groups[i], cache, target, orders(groups[i].id));
    }
  }
}
