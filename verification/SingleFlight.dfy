/**
 N threads reading through the cache (client.py, the cached public read): one global lock for
 the dictionaries, one flight lock per in-flight key, a shared store behind.
 Every transition is one step of the code between two points where another thread may run.
 */
module SingleFlight {
  import opened Common
  import opened ReadCache

  type Tid = nat

  datatype Phase = Get1 | Mark | Wait | Get2 | Shared | Load | Put | Write | Pop | Release

  /** `critical`: inside the global lock; `carried`: the value this call will return. */
  datatype Thread =
    | Idle
    | Call(key: string, ttl: real, phase: Phase, critical: bool, flight: nat, since: real, delay: real,
           carried: Option<Value>, loaded: bool)

  datatype Published = Published(written: real, born: real)

  datatype State = State(
    now: real,
    cache: Cache,
    lastPrune: real,
    inflight: map<string, nat>,
    holder: map<nat, Tid>,
    flights: seq<string>,      // the key each flight lock was created for
    nextRef: nat,
    global: Option<Tid>,
    threads: map<Tid, Thread>,
    shared: map<string, Published>,
    handed: set<nat>,          // objects given to callers
    loads: map<string, nat>)   // how often each key's loader was called

  datatype Step =
    | Tick(dt: real)
    | Publish(key: string, born: real)
    | Evict(key: string)
    | Start(t: Tid, key: string, ttl: real)
    | Enter(t: Tid)
    | LookUp(t: Tid, sample: real)
    | MarkFlight(t: Tid)
    | Acquire(t: Tid)
    | ReadShared(t: Tid)
    | LoadOk(t: Tid)
    | LoadFail(t: Tid)
    | Store(t: Tid)
    | WriteShared(t: Tid)
    | PopMarker(t: Tid)
    | ReleaseFlight(t: Tid)

  predicate Calls(s: State, t: Tid, phase: Phase, critical: bool) {
    t in s.threads && s.threads[t].Call? && s.threads[t].phase == phase && s.threads[t].critical == critical
  }

  predicate NeedsGlobal(phase: Phase) {
    phase in {Get1, Mark, Get2, Put, Pop}
  }

  predicate HoldsFlight(phase: Phase) {
    phase in {Get2, Shared, Load, Put, Write, Pop, Release}
  }

  function Loads(s: State, key: string): nat {
    if key in s.loads then s.loads[key] else 0
  }

  predicate Enabled(s: State, step: Step) {
    match step
    case Tick(dt) => dt >= 0.0
    case Publish(_, born) => born <= s.now
    case Evict(_) => true
    case Start(t, _, ttl) => t in s.threads && s.threads[t].Idle? && ttl > 0.0
    case Enter(t) =>
      && t in s.threads && s.threads[t].Call? && !s.threads[t].critical && NeedsGlobal(s.threads[t].phase)
      && s.global.None?
    case LookUp(t, sample) => (Calls(s, t, Get1, true) || Calls(s, t, Get2, true)) && s.threads[t].since <= sample <= s.now
    case MarkFlight(t) => Calls(s, t, Mark, true)
    case Acquire(t) => Calls(s, t, Wait, false) && s.threads[t].flight !in s.holder
    case ReadShared(t) => Calls(s, t, Shared, false)
    case LoadOk(t) => Calls(s, t, Load, false)
    case LoadFail(t) => Calls(s, t, Load, false)
    case Store(t) => Calls(s, t, Put, true)
    case WriteShared(t) => Calls(s, t, Write, false)
    case PopMarker(t) => Calls(s, t, Pop, true)
    case ReleaseFlight(t) => Calls(s, t, Release, false)
  }

  predicate ByThread(step: Step) {
    !step.Tick? && !step.Publish? && !step.Evict?
  }

  function Found(s: State, t: Tid, sample: real): Option<Entry>
    requires t in s.threads && s.threads[t].Call?
  {
    Hit(s.cache, s.threads[t].key, sample, s.threads[t].ttl)
  }

  predicate SharedHit(s: State, t: Tid)
    requires t in s.threads && s.threads[t].Call?
  {
    var c := s.threads[t];
    c.key in s.shared && s.now - s.shared[c.key].written < c.ttl
  }

  function Born(c: Thread, now: real): real
    requires c.Call?
  {
    if c.carried.Some? then c.carried.value.born else now
  }

  /** The control flow of one call. Every step may use the fresh object identity `s.nextRef`. */
  function ThreadAfter(s: State, step: Step): Thread
    requires Enabled(s, step) && ByThread(step)
  {
    var c := s.threads[step.t];
    match step
    case Start(_, key, ttl) => Call(key, ttl, Get1, false, 0, s.now, 0.0, None, false)
    case Enter(_) => c.(critical := true)
    case LookUp(t, sample) =>
      var found := Found(s, t, sample);
      if found.None? then c.(phase := if c.phase == Get1 then Mark else Shared, critical := false)
      else if c.phase == Get1 then Idle
      else c.(phase := Pop, critical := false, carried := Some(Value(s.nextRef, found.value.value.born)))
    case MarkFlight(_) =>
      c.(phase := Wait, critical := false, flight := if c.key in s.inflight then s.inflight[c.key] else |s.flights|)
    case Acquire(_) => c.(phase := Get2, since := s.now)
    case ReadShared(t) =>
      if SharedHit(s, t) then
        var p := s.shared[c.key];
        c.(phase := Put, since := s.now, delay := p.written - p.born, carried := Some(Value(s.nextRef, p.born)))
      else c.(phase := Load)
    case LoadOk(_) =>
      c.(phase := Put, since := s.now, delay := 0.0, loaded := true, carried := Some(Value(s.nextRef, s.now)))
    case LoadFail(_) => c.(phase := Pop)
    case Store(_) => c.(phase := if c.loaded then Write else Pop, critical := false)
    case WriteShared(_) => c.(phase := Pop)
    case PopMarker(_) => c.(phase := Release, critical := false)
    case ReleaseFlight(_) => Idle
    case _ => c
  }

  function GlobalAfter(s: State, step: Step): Option<Tid>
    requires Enabled(s, step) && ByThread(step)
  {
    if step.Enter? then Some(step.t)
    else if s.threads[step.t].Call? && s.threads[step.t].critical then None
    else s.global
  }

  /** The in-flight table: a marker is added for a key without one, and dropped only if it is still the caller's. */
  function InflightAfter(s: State, step: Step): map<string, nat>
    requires Enabled(s, step)
  {
    match step
    case MarkFlight(t) =>
      var c := s.threads[t];
      if c.key in s.inflight then s.inflight else s.inflight[c.key := |s.flights|]
    case PopMarker(t) =>
      var c := s.threads[t];
      if c.key in s.inflight && s.inflight[c.key] == c.flight then s.inflight - {c.key} else s.inflight
    case _ => s.inflight
  }

  function FlightsAfter(s: State, step: Step): seq<string>
    requires Enabled(s, step)
  {
    if step.MarkFlight? && s.threads[step.t].key !in s.inflight then s.flights + [s.threads[step.t].key] else s.flights
  }

  function HolderAfter(s: State, step: Step): map<nat, Tid>
    requires Enabled(s, step)
  {
    match step
    case Acquire(t) => s.holder[s.threads[t].flight := t]
    case ReleaseFlight(t) => s.holder - {s.threads[t].flight}
    case _ => s.holder
  }

  /** The entry a store writes: a fresh copy of the value, and the time it took to get here. */
  function NewEntry(s: State, t: Tid): Entry
    requires t in s.threads && s.threads[t].Call?
  {
    var c := s.threads[t];
    Entry(s.now, Value(s.nextRef, Born(c, s.now)), c.ttl, c.delay + (s.now - c.since))
  }

  function CacheAfter(s: State, step: Step): Cache
    requires Enabled(s, step)
  {
    if step.Store? then Stored(s.cache, s.lastPrune, s.threads[step.t].key, NewEntry(s, step.t)) else s.cache
  }

  function SharedAfter(s: State, step: Step): map<string, Published>
    requires Enabled(s, step)
  {
    match step
    case Publish(key, born) => s.shared[key := Published(s.now, born)]
    case Evict(key) => s.shared - {key}
    case WriteShared(t) => s.shared[s.threads[t].key := Published(s.now, Born(s.threads[t], s.now))]
    case _ => s.shared
  }

  /** A hit at the first lookup hands out a copy at once; otherwise the call returns as it releases its lock. */
  function HandedAfter(s: State, step: Step): set<nat>
    requires Enabled(s, step)
  {
    match step
    case LookUp(t, sample) =>
      if s.threads[t].phase == Get1 && Found(s, t, sample).Some? then s.handed + {s.nextRef} else s.handed
    case ReleaseFlight(t) =>
      if s.threads[t].carried.Some? then s.handed + {s.threads[t].carried.value.ref} else s.handed
    case _ => s.handed
  }

  function LoadsAfter(s: State, step: Step): map<string, nat>
    requires Enabled(s, step)
  {
    if step.ReadShared? && !SharedHit(s, step.t)
    then s.loads[s.threads[step.t].key := Loads(s, s.threads[step.t].key) + 1]
    else s.loads
  }

  function Next(s: State, step: Step): State
    requires Enabled(s, step)
  {
    State(
      if step.Tick? then s.now + step.dt else s.now,
      CacheAfter(s, step),
      if step.Store? && PruneDue(s.lastPrune, s.now) then s.now else s.lastPrune,
      InflightAfter(s, step),
      HolderAfter(s, step),
      FlightsAfter(s, step),
      s.nextRef + 1,
      if ByThread(step) then GlobalAfter(s, step) else s.global,
      if ByThread(step) then s.threads[step.t := ThreadAfter(s, step)] else s.threads,
      SharedAfter(s, step),
      HandedAfter(s, step),
      LoadsAfter(s, step))
  }

  // ---- What every step keeps ----

  /** The global lock: held by the one thread inside a critical section. */
  ghost predicate GlobalInv(s: State) {
    && (s.global.Some? ==> s.global.value in s.threads && s.threads[s.global.value].Call? && s.threads[s.global.value].critical)
    && (forall t :: t in s.threads && s.threads[t].Call? && s.threads[t].critical ==>
          s.global == Some(t) && NeedsGlobal(s.threads[t].phase))
  }

  /** The flight locks: each held by the one thread between acquiring and releasing it. */
  ghost predicate HolderInv(s: State) {
    && (forall t :: t in s.threads && s.threads[t].Call? && HoldsFlight(s.threads[t].phase) ==>
          s.threads[t].flight in s.holder && s.holder[s.threads[t].flight] == t)
    && (forall f :: f in s.holder ==>
          && s.holder[f] in s.threads && s.threads[s.holder[f]].Call?
          && HoldsFlight(s.threads[s.holder[f]].phase) && s.threads[s.holder[f]].flight == f)
  }

  /** Every flight lock in use was created for the key it serves. */
  ghost predicate FlightInv(s: State) {
    && (forall t :: t in s.threads && s.threads[t].Call? && s.threads[t].phase !in {Get1, Mark} ==>
          s.threads[t].flight < |s.flights| && s.flights[s.threads[t].flight] == s.threads[t].key)
    && (forall k :: k in s.inflight ==> s.inflight[k] < |s.flights| && s.flights[s.inflight[k]] == k)
  }

  ghost predicate LockInv(s: State) {
    GlobalInv(s) && HolderInv(s) && FlightInv(s)
  }

  lemma GlobalKept(s: State, step: Step)
    requires GlobalInv(s) && Enabled(s, step)
    ensures GlobalInv(Next(s, step))
  {
    hide CacheAfter, SharedAfter, HandedAfter, LoadsAfter, Found, SharedHit, Born, InflightAfter, FlightsAfter, HolderAfter;
  }

  lemma HolderStays(s: State, step: Step, t: Tid)
    requires HolderInv(s) && Enabled(s, step) && t in Next(s, step).threads
    requires Next(s, step).threads[t].Call? && HoldsFlight(Next(s, step).threads[t].phase)
    ensures var f := Next(s, step).threads[t].flight; f in Next(s, step).holder && Next(s, step).holder[f] == t
  {
    hide CacheAfter, SharedAfter, HandedAfter, LoadsAfter, Found, SharedHit, Born, InflightAfter, FlightsAfter, GlobalAfter;
    if !ByThread(step) || step.t != t {
      assert Next(s, step).threads[t] == s.threads[t];
    }
  }

  lemma HeldStays(s: State, step: Step, f: nat)
    requires HolderInv(s) && Enabled(s, step) && f in Next(s, step).holder
    ensures var t := Next(s, step).holder[f];
            && t in Next(s, step).threads && Next(s, step).threads[t].Call?
            && HoldsFlight(Next(s, step).threads[t].phase) && Next(s, step).threads[t].flight == f
  {
    hide CacheAfter, SharedAfter, HandedAfter, LoadsAfter, Found, SharedHit, Born, InflightAfter, FlightsAfter, GlobalAfter;
    var t := Next(s, step).holder[f];
    if !ByThread(step) || step.t != t {
      assert t in s.threads && Next(s, step).threads[t] == s.threads[t];
    }
  }

  lemma HolderKept(s: State, step: Step)
    requires HolderInv(s) && Enabled(s, step)
    ensures HolderInv(Next(s, step))
  {
    hide Next, Enabled;
    var next := Next(s, step);
    forall t | t in next.threads && next.threads[t].Call? && HoldsFlight(next.threads[t].phase)
      ensures next.threads[t].flight in next.holder && next.holder[next.threads[t].flight] == t
    {
      HolderStays(s, step, t);
    }
    forall f | f in next.holder
      ensures next.holder[f] in next.threads && next.threads[next.holder[f]].Call?
      ensures HoldsFlight(next.threads[next.holder[f]].phase) && next.threads[next.holder[f]].flight == f
    {
      HeldStays(s, step, f);
    }
  }

  lemma FlightsKept(s: State, step: Step)
    requires FlightInv(s) && Enabled(s, step)
    ensures FlightInv(Next(s, step))
  {
    hide CacheAfter, SharedAfter, HandedAfter, LoadsAfter, Found, SharedHit, Born, HolderAfter, GlobalAfter;
  }

  lemma LocksKept(s: State, step: Step)
    requires LockInv(s) && Enabled(s, step)
    ensures LockInv(Next(s, step))
  {
    hide GlobalInv, HolderInv, FlightInv, Next, Enabled;
    GlobalKept(s, step);
    HolderKept(s, step);
    FlightsKept(s, step);
  }

  /** Loads under one flight lock never overlap. */
  lemma LoadsUnderOneLockNeverOverlap(s: State, t: Tid, u: Tid)
    requires LockInv(s) && Calls(s, t, Load, false) && Calls(s, u, Load, false)
    requires s.threads[t].flight == s.threads[u].flight
    ensures t == u
  {
    assert s.holder[s.threads[t].flight] == t;
  }

  /** A marker leaves the table only by the thread that holds the very lock it names. */
  lemma OnlyTheOwnMarkerIsRemoved(s: State, step: Step, k: string)
    requires Enabled(s, step) && k in s.inflight && k !in Next(s, step).inflight
    ensures step.PopMarker? && s.threads[step.t].key == k && s.inflight[k] == s.threads[step.t].flight
  {
    hide ThreadAfter, CacheAfter, SharedAfter, HandedAfter, LoadsAfter;
  }

  /** Clocks of the calls, and how old the data in the cache can be. */
  ghost predicate TimeInv(s: State) {
    && (forall t :: t in s.threads && s.threads[t].Call? ==>
          var c := s.threads[t];
          && c.since <= s.now && c.ttl > 0.0
          && (c.phase == Put ==> c.carried.Some? && c.since - c.carried.value.born < c.ttl + c.delay))
    && (forall k :: k in s.cache ==>
          var e := s.cache[k];
          e.stored <= s.now && e.ttl > 0.0 && e.stored - e.value.born < e.ttl + e.delay)
  }

  /** While any call is under way, some thread inside a call can take a step: nothing deadlocks. */
  lemma NeverDeadlocks(s: State, t: Tid)
    requires LockInv(s) && TimeInv(s) && t in s.threads && s.threads[t].Call?
    ensures exists step :: Enabled(s, step) && !step.Tick? && !step.Publish? && !step.Evict? && !step.Start?
  {
    if s.global.Some? {
      var step := ExitStep(s, s.global.value);
    } else if s.threads[t].phase == Wait && s.threads[t].flight in s.holder {
      var step := OwnStep(s, s.holder[s.threads[t].flight]);
    } else {
      var step := OwnStep(s, t);
    }
  }

  lemma ExitStep(s: State, t: Tid) returns (step: Step)
    requires LockInv(s) && t in s.threads && s.threads[t].Call? && s.threads[t].critical && s.threads[t].since <= s.now
    ensures Enabled(s, step) && !step.Tick? && !step.Publish? && !step.Evict? && !step.Start?
  {
    step := match s.threads[t].phase
      case Get1 => LookUp(t, s.now)
      case Get2 => LookUp(t, s.now)
      case Mark => MarkFlight(t)
      case Put => Store(t)
      case _ => PopMarker(t);
  }

  lemma OwnStep(s: State, t: Tid) returns (step: Step)
    requires LockInv(s) && t in s.threads && s.threads[t].Call? && s.global.None?
    requires s.threads[t].phase == Wait ==> s.threads[t].flight !in s.holder
    ensures Enabled(s, step) && !step.Tick? && !step.Publish? && !step.Evict? && !step.Start?
  {
    step := match s.threads[t].phase
      case Wait => Acquire(t)
      case Shared => ReadShared(t)
      case Load => LoadOk(t)
      case Write => WriteShared(t)
      case Release => ReleaseFlight(t)
      case _ => Enter(t);
  }
}
