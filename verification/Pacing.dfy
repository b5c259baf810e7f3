/** Any number of threads pacing their requests (exchange_throttle.py): one lock per identity. */
module Pacing {
  import opened Common
  import opened Throttle

  type Tid = nat

  /** A request computes its interval, takes its identity's lock, sleeps, and records its slot. */
  datatype Thread =
    | Idle
    | Chosen(key: string, interval: real)
    | Locked(key: string, interval: real)
    | Sleeping(key: string, interval: real, until: real)

  /** `last` is the recorded time of the latest request, 0 before the first. */
  datatype State = State(
    now: real,
    penalties: map<string, real>,
    last: map<string, real>,
    slots: map<string, seq<real>>,
    holder: map<string, Tid>,
    threads: map<Tid, Thread>)

  datatype Step =
    | Tick(dt: real)
    | Respond(key: string, response: Response)
    | Choose(t: Tid, key: string)
    | Acquire(t: Tid)
    | Sample(t: Tid)
    | Record(t: Tid)

  predicate ByThread(step: Step) {
    !step.Tick? && !step.Respond?
  }

  function Last(s: State, key: string): real {
    if key in s.last then s.last[key] else 0.0
  }

  function Slots(s: State, key: string): seq<real> {
    if key in s.slots then s.slots[key] else []
  }

  function Penalty(s: State, key: string): Option<real> {
    if key in s.penalties then Some(s.penalties[key]) else None
  }

  predicate Enabled(s: State, step: Step) {
    && (ByThread(step) ==> step.t in s.threads)
    && match step
       case Tick(dt) => dt >= 0.0
       case Respond(_, _) => true
       case Choose(t, _) => s.threads[t].Idle?
       case Acquire(t) => s.threads[t].Chosen? && s.threads[t].key !in s.holder
       case Sample(t) => s.threads[t].Locked?
       case Record(t) => s.threads[t].Sleeping? && s.now >= s.threads[t].until
  }

  function ThreadAfter(s: State, step: Step, base: real): Thread
    requires Enabled(s, step) && ByThread(step)
  {
    var c := s.threads[step.t];
    match step
    case Choose(_, key) => Chosen(key, Interval(Penalty(s, key), base))
    case Acquire(_) => Locked(c.key, c.interval)
    case Sample(_) =>
      var wait := c.interval - (s.now - Last(s, c.key));
      Sleeping(c.key, c.interval, if wait > 0.0 then s.now + wait else s.now)
    case Record(_) => Idle
    case _ => c
  }

  function PenaltiesAfter(s: State, step: Step, base: real, cap: real): map<string, real> {
    match step
    case Respond(key, response) =>
      (match After(Penalty(s, key), [response], base, cap)
       case Some(p) => s.penalties[key := p]
       case None => s.penalties - {key})
    case _ => s.penalties
  }

  function Next(s: State, step: Step, base: real, cap: real): State
    requires Enabled(s, step)
  {
    var key := if step.Acquire? || step.Record? then s.threads[step.t].key else "";
    State(
      if step.Tick? then s.now + step.dt else s.now,
      PenaltiesAfter(s, step, base, cap),
      if step.Record? then s.last[key := s.now] else s.last,
      if step.Record? then s.slots[key := Slots(s, key) + [s.now]] else s.slots,
      if step.Acquire? then s.holder[key := step.t] else if step.Record? then s.holder - {key} else s.holder,
      if ByThread(step) then s.threads[step.t := ThreadAfter(s, step, base)] else s.threads)
  }

  /** Each identity's lock is held by the one thread between acquiring it and recording its slot. */
  ghost predicate HolderInv(s: State) {
    forall t :: t in s.threads && (s.threads[t].Locked? || s.threads[t].Sleeping?) ==>
      s.threads[t].key in s.holder && s.holder[s.threads[t].key] == t
  }

  ghost predicate IntervalInv(s: State, base: real) {
    forall t :: t in s.threads && !s.threads[t].Idle? ==> s.threads[t].interval >= base
  }

  ghost predicate SleepInv(s: State) {
    forall t :: t in s.threads && s.threads[t].Sleeping? ==>
      s.threads[t].until >= Last(s, s.threads[t].key) + s.threads[t].interval
  }

  predicate SlotsInv(s: State, key: string, base: real) {
    && Spaced(Slots(s, key), base)
    && (Slots(s, key) != [] ==> Last(s, key) == Slots(s, key)[|Slots(s, key)| - 1])
  }

  ghost predicate Paced(s: State, base: real) {
    HolderInv(s) && IntervalInv(s, base) && SleepInv(s) && forall key :: SlotsInv(s, key, base)
  }

  lemma SleepKept(s: State, step: Step, base: real, cap: real)
    requires HolderInv(s) && SleepInv(s) && Enabled(s, step)
    ensures SleepInv(Next(s, step, base, cap))
  {
    hide PenaltiesAfter, Interval;
  }

  lemma SlotsKept(s: State, step: Step, base: real, cap: real, key: string)
    requires IntervalInv(s, base) && SleepInv(s) && SlotsInv(s, key, base) && Enabled(s, step)
    ensures SlotsInv(Next(s, step, base, cap), key, base)
  {
    hide PenaltiesAfter, ThreadAfter;
  }

  lemma PacedKept(s: State, step: Step, base: real, cap: real)
    requires base > 0.0 && Paced(s, base) && Enabled(s, step)
    ensures Paced(Next(s, step, base, cap), base)
  {
    SleepKept(s, step, base, cap);
    forall key ensures SlotsInv(Next(s, step, base, cap), key, base) {
      SlotsKept(s, step, base, cap, key);
    }
    hide PenaltiesAfter, SlotsInv, SleepInv;
  }

  ghost predicate Reaches(s: State, steps: seq<Step>, last: State, base: real, cap: real)
    decreases |steps|
  {
    if steps == [] then s == last
    else Enabled(s, steps[0]) && Reaches(Next(s, steps[0], base, cap), steps[1..], last, base, cap)
  }

  lemma {:induction false} PacedAlways(s: State, steps: seq<Step>, last: State, base: real, cap: real)
    requires base > 0.0 && Paced(s, base) && Reaches(s, steps, last, base, cap)
    ensures Paced(last, base)
    decreases |steps|
  {
    if steps != [] {
      hide Paced;
      PacedKept(s, steps[0], base, cap);
      PacedAlways(Next(s, steps[0], base, cap), steps[1..], last, base, cap);
    }
  }

  /**
   For any number of threads, penalties and interleavings: an identity's recorded requests are at
   least the base interval apart, so a window of length w holds at most w / base + 1 of them.
   */
  lemma RequestsArePaced(s: State, steps: seq<Step>, last: State, base: real, cap: real, key: string, lo: real, w: real)
    requires base > 0.0 && w >= 0.0 && s.slots == map[]
    requires (forall t :: t in s.threads ==> s.threads[t].Idle?) && Reaches(s, steps, last, base, cap)
    ensures Spaced(Slots(last, key), base)
    ensures base * (CountIn(Slots(last, key), lo, lo + w) as real) <= w + base
  {
    PacedAlways(s, steps, last, base, cap);
    assert SlotsInv(last, key, base);
    WindowBound(Slots(last, key), base, lo, w);
  }

  // ---- Backoff reaches the requests ----

  /** The thread is somewhere inside a request that chose this interval. */
  predicate Requesting(s: State, t: Tid, key: string, interval: real) {
    t in s.threads && !s.threads[t].Idle? && s.threads[t].key == key && s.threads[t].interval == interval
  }

  lemma {:induction false} IntervalIsKept(s: State, steps: seq<Step>, last: State, base: real, cap: real, t: Tid, key: string, interval: real)
    requires Requesting(s, t, key, interval) && Reaches(s, steps, last, base, cap)
    requires forall i :: 0 <= i < |steps| ==> steps[i] != Record(t)
    ensures Requesting(last, t, key, interval)
    decreases |steps|
  {
    if steps != [] {
      hide PenaltiesAfter, Interval;
      assert steps[0] != Record(t);
      assert forall i :: 0 <= i < |steps| - 1 ==> steps[1..][i] == steps[i + 1];
      IntervalIsKept(Next(s, steps[0], base, cap), steps[1..], last, base, cap, t, key, interval);
    }
  }

  /**
   Over every run: a request that chose its interval while a penalty was noted for its identity is
   recorded at least that penalty, and the base, after the identity's previous slot.
   */
  lemma PenaltyIsWaitedOut(
    start: State, before: seq<Step>, s: State, steps: seq<Step>, last: State, base: real, cap: real, t: Tid, key: string)
    requires base > 0.0 && start.slots == map[] && (forall u :: u in start.threads ==> start.threads[u].Idle?)
    requires Reaches(start, before, s, base, cap) && Enabled(s, Choose(t, key))
    requires Reaches(Next(s, Choose(t, key), base, cap), steps, last, base, cap)
    requires (forall i :: 0 <= i < |steps| ==> steps[i] != Record(t)) && Enabled(last, Record(t))
    ensures var after := Next(last, Record(t), base, cap); var n := |Slots(after, key)|;
            && n > 0 && (n > 1 ==> Slots(after, key)[n - 1] - Slots(after, key)[n - 2] >= base)
            && (n > 1 && key in s.penalties ==> Slots(after, key)[n - 1] - Slots(after, key)[n - 2] >= s.penalties[key])
  {
    hide Next, Enabled, Reaches, Paced, Interval;
    var chosen := Next(s, Choose(t, key), base, cap);
    var interval := Interval(Penalty(s, key), base);
    FreshIsPaced(start, base);
    PacedAlways(start, before, s, base, cap);
    PacedKept(s, Choose(t, key), base, cap);
    PacedAlways(chosen, steps, last, base, cap);
    ChosenInterval(s, t, key, base, cap);
    IntervalIsKept(chosen, steps, last, base, cap, t, key, interval);
    RecordWaits(last, t, key, interval, base, cap);
  }

  lemma FreshIsPaced(s: State, base: real)
    requires s.slots == map[] && forall t :: t in s.threads ==> s.threads[t].Idle?
    ensures Paced(s, base)
  {
  }

  lemma ChosenInterval(s: State, t: Tid, key: string, base: real, cap: real)
    requires base > 0.0 && Enabled(s, Choose(t, key))
    ensures var interval := Interval(Penalty(s, key), base);
            && Requesting(Next(s, Choose(t, key), base, cap), t, key, interval)
            && interval >= base && (key in s.penalties ==> interval >= s.penalties[key])
  {
  }

  /** A slot is recorded no sooner than the request's interval after the one before. */
  lemma RecordWaits(s: State, t: Tid, key: string, interval: real, base: real, cap: real)
    requires Paced(s, base) && Requesting(s, t, key, interval) && Enabled(s, Record(t))
    ensures var slots := Slots(Next(s, Record(t), base, cap), key); var n := |slots|;
            n > 0 && (n > 1 ==> slots[n - 1] - slots[n - 2] >= interval)
  {
    assert SlotsInv(s, key, base);
    hide Spaced, HolderInv;
  }

  /** And it does not sleep beyond that: until the later of now and one interval after the last slot. */
  lemma SleepsNoLonger(s: State, t: Tid, base: real, cap: real)
    requires Enabled(s, Sample(t))
    ensures var after := Next(s, Sample(t), base, cap).threads[t];
            after.Sleeping? && after.until == Max(s.now, Last(s, after.key) + s.threads[t].interval)
  {
  }

  /** The responses of a run to one identity. */
  function Responses(steps: seq<Step>, key: string): seq<Response> {
    if steps == [] then []
    else
      var last := steps[|steps| - 1];
      Responses(steps[..|steps| - 1], key) + if last.Respond? && last.key == key then [last.response] else []
  }

  lemma StepNotes(s: State, step: Step, base: real, cap: real, key: string)
    requires Enabled(s, step)
    ensures Penalty(Next(s, step, base, cap), key) ==
            if step.Respond? && step.key == key then After(Penalty(s, key), [step.response], base, cap) else Penalty(s, key)
  {
    hide ThreadAfter, After;
  }

  lemma {:induction false} SplitLast(s: State, steps: seq<Step>, last: State, base: real, cap: real) returns (mid: State)
    requires steps != [] && Reaches(s, steps, last, base, cap)
    ensures Reaches(s, steps[..|steps| - 1], mid, base, cap)
    ensures Enabled(mid, steps[|steps| - 1]) && Next(mid, steps[|steps| - 1], base, cap) == last
    decreases |steps|
  {
    hide Enabled, Next;
    if |steps| == 1 {
      mid := s;
    } else {
      mid := SplitLast(Next(s, steps[0], base, cap), steps[1..], last, base, cap);
      assert steps[..|steps| - 1][1..] == steps[1..][..|steps| - 2];
    }
  }

  lemma AfterOne(p: Option<real>, responses: seq<Response>, r: Response, base: real, cap: real)
    ensures After(p, responses + [r], base, cap) == After(After(p, responses, base, cap), [r], base, cap)
  {
    assert (responses + [r])[..|responses|] == responses && [r][..0] == [];
    assert After(After(p, responses, base, cap), [], base, cap) == After(p, responses, base, cap);
  }

  /** Over every run an identity's penalty is what its own responses make of it, in order, whatever the threads do. */
  lemma {:induction false} PenaltyFollowsResponses(s: State, steps: seq<Step>, last: State, base: real, cap: real, key: string)
    requires Reaches(s, steps, last, base, cap)
    ensures Penalty(last, key) == After(Penalty(s, key), Responses(steps, key), base, cap)
    decreases |steps|
  {
    hide Next, Enabled, Reaches;
    if steps == [] {
      NoStepsLeft(s, last, base, cap);
    } else {
      var step := steps[|steps| - 1];
      var mid := SplitLast(s, steps, last, base, cap);
      PenaltyFollowsResponses(s, steps[..|steps| - 1], mid, base, cap, key);
      StepNotes(mid, step, base, cap, key);
      if step.Respond? && step.key == key {
        AfterOne(Penalty(s, key), Responses(steps[..|steps| - 1], key), step.response, base, cap);
      } else {
        assert Responses(steps, key) == Responses(steps[..|steps| - 1], key);
      }
    }
  }

  lemma NoStepsLeft(s: State, last: State, base: real, cap: real)
    requires Reaches(s, [], last, base, cap)
    ensures s == last
  {
  }
}
