/**
 What one call amounts to when no other thread runs: a copy from memory, a copy from the shared
 store that is then cached, or one load that reaches both (client.py:94-131).
 */
module SingleFlightCalls {
  import opened Common
  import opened ReadCache
  import opened SingleFlight
  import opened SingleFlightRuns

  /** A load is counted exactly when a call under its flight lock finds no shared entry younger than its TTL. */
  lemma LoadsCountedExactly(s: State, step: Step, key: string)
    requires Enabled(s, step)
    ensures Loads(Next(s, step), key) == Loads(s, key) +
            if step.ReadShared? && s.threads[step.t].key == key
               && !(key in s.shared && s.now < s.shared[key].written + s.threads[step.t].ttl)
            then 1 else 0
  {
    hide CacheAfter, InflightAfter, FlightsAfter, HolderAfter, HandedAfter, SharedAfter, GlobalAfter, ThreadAfter;
  }

  lemma Then(s: State, steps: seq<Step>, mid: State, step: Step)
    requires Reaches(s, steps, mid) && Enabled(mid, step)
    ensures Reaches(s, steps + [step], Next(mid, step))
  {
    hide Reaches, Next, Enabled;
    NoSteps(Next(mid, step));
    OneMore(mid, [step], [], Next(mid, step));
    ReachesThrough(s, steps, mid, [step], Next(mid, step));
  }

  lemma NewLockIsFree(s: State)
    requires LockInv(s)
    ensures |s.flights| !in s.holder
  {
  }

  // ---- The steps of a call, each as what it changes ----

  lemma HitStep(s: State, t: Tid)
    requires Calls(s, t, Get1, true) && s.threads[t].since <= s.now && Found(s, t, s.now).Some?
    ensures Enabled(s, LookUp(t, s.now))
    ensures Next(s, LookUp(t, s.now)) ==
            s.(nextRef := s.nextRef + 1, global := None, threads := s.threads[t := Idle], handed := s.handed + {s.nextRef})
  {
  }

  lemma SharedHitStep(s: State, t: Tid)
    requires Calls(s, t, Shared, false) && s.threads[t].key in s.shared
    requires s.now - s.shared[s.threads[t].key].written < s.threads[t].ttl
    ensures Enabled(s, ReadShared(t))
    ensures var p := s.shared[s.threads[t].key];
            Next(s, ReadShared(t)) ==
            s.(nextRef := s.nextRef + 1,
               threads := s.threads[t := s.threads[t].(phase := Put, since := s.now, delay := p.written - p.born,
                                                       carried := Some(Value(s.nextRef, p.born)))])
  {
  }

  lemma LoadedStep(s: State, t: Tid)
    requires Calls(s, t, Load, false)
    ensures Enabled(s, LoadOk(t))
    ensures Next(s, LoadOk(t)) ==
            s.(nextRef := s.nextRef + 1,
               threads := s.threads[t := s.threads[t].(phase := Put, since := s.now, delay := 0.0, loaded := true,
                                                       carried := Some(Value(s.nextRef, s.now)))])
  {
  }

  /** A store caches a fresh copy of what the call carries. */
  lemma CopyStoredStep(s: State, t: Tid)
    requires Calls(s, t, Put, true) && s.threads[t].ttl > 0.0 && s.threads[t].carried.Some?
    ensures Enabled(s, Store(t))
    ensures var c := s.threads[t]; var next := Next(s, Store(t));
            && next == s.(nextRef := s.nextRef + 1, global := None, cache := next.cache, lastPrune := next.lastPrune,
                          threads := s.threads[t := c.(phase := if c.loaded then Write else Pop, critical := false)])
            && c.key in next.cache && next.cache[c.key].stored == s.now && next.cache[c.key].ttl == c.ttl
            && next.cache[c.key].value == Value(s.nextRef, c.carried.value.born)
  {
    StoreDropsExactlyTheMisses(s.cache, s.lastPrune, s.threads[t].key, NewEntry(s, t), s.threads[t].key);
  }

  lemma WrittenStep(s: State, t: Tid)
    requires Calls(s, t, Write, false) && s.threads[t].carried.Some?
    ensures Enabled(s, WriteShared(t))
    ensures Next(s, WriteShared(t)) ==
            s.(nextRef := s.nextRef + 1, threads := s.threads[t := s.threads[t].(phase := Pop)],
               shared := s.shared[s.threads[t].key := Published(s.now, s.threads[t].carried.value.born)])
  {
  }

  lemma ReturnStep(s: State, t: Tid)
    requires Calls(s, t, Release, false) && s.threads[t].carried.Some?
    ensures Enabled(s, ReleaseFlight(t))
    ensures Next(s, ReleaseFlight(t)) ==
            s.(nextRef := s.nextRef + 1, holder := s.holder - {s.threads[t].flight}, threads := s.threads[t := Idle],
               handed := s.handed + {s.threads[t].carried.value.ref})
  {
  }

  // ---- The legs of a call ----

  /** With nothing cached, to a new flight lock. */
  lemma ComesToWait(s: State, t: Tid, key: string, ttl: real) returns (steps: seq<Step>, last: State)
    requires t in s.threads && s.threads[t].Idle? && ttl > 0.0 && s.global.None?
    requires Hit(s.cache, key, s.now, ttl).None? && key !in s.inflight
    ensures Reaches(s, steps, last)
    ensures last == s.(nextRef := s.nextRef + 5, inflight := s.inflight[key := |s.flights|], flights := s.flights + [key],
                       threads := s.threads[t := Call(key, ttl, Wait, false, |s.flights|, s.now, 0.0, None, false)])
  {
    hide Reaches, Next, Enabled, HoldsFlight;
    NoSteps(s);
    StartStep(s, t, key, ttl);
    Then(s, [], s, Start(t, key, ttl));
    steps, last := [] + [Start(t, key, ttl)], Next(s, Start(t, key, ttl));
    EnterStep(last, t);
    Then(s, steps, last, Enter(t));
    steps, last := steps + [Enter(t)], Next(last, Enter(t));
    MissStep(last, t);
    Then(s, steps, last, LookUp(t, s.now));
    steps, last := steps + [LookUp(t, s.now)], Next(last, LookUp(t, s.now));
    EnterStep(last, t);
    Then(s, steps, last, Enter(t));
    steps, last := steps + [Enter(t)], Next(last, Enter(t));
    MarkStep(last, t);
    Then(s, steps, last, MarkFlight(t));
    steps, last := steps + [MarkFlight(t)], Next(last, MarkFlight(t));
  }

  /** Under its lock, with still nothing cached, on to the shared store. */
  lemma ComesToShared(s: State, t: Tid) returns (steps: seq<Step>, last: State)
    requires Calls(s, t, Wait, false) && s.global.None? && s.threads[t].flight !in s.holder
    requires Hit(s.cache, s.threads[t].key, s.now, s.threads[t].ttl).None?
    ensures Reaches(s, steps, last)
    ensures last == s.(nextRef := s.nextRef + 3, holder := s.holder[s.threads[t].flight := t],
                       threads := s.threads[t := s.threads[t].(phase := Phase.Shared, since := s.now)])
  {
    hide Reaches, Next, Enabled, HoldsFlight;
    NoSteps(s);
    AcquireStep(s, t);
    Then(s, [], s, Acquire(t));
    steps, last := [] + [Acquire(t)], Next(s, Acquire(t));
    EnterStep(last, t);
    Then(s, steps, last, Enter(t));
    steps, last := steps + [Enter(t)], Next(last, Enter(t));
    MissStep(last, t);
    Then(s, steps, last, LookUp(t, s.now));
    steps, last := steps + [LookUp(t, s.now)], Next(last, LookUp(t, s.now));
  }

  /** The shared store, or else the loader, gives the call a value. */
  lemma FindsValue(s: State, t: Tid) returns (steps: seq<Step>, last: State)
    requires Calls(s, t, Phase.Shared, false) && !s.threads[t].loaded
    ensures Reaches(s, steps, last)
    ensures t in last.threads
    ensures var c := s.threads[t]; var after := last.threads[t]; var hit := PublishedFresh(s, c.key, c.ttl);
            && after.Call? && after.carried.Some? && after.carried.value.ref >= s.nextRef
            && after.carried.value.born == (if hit then s.shared[c.key].born else s.now)
            && after == c.(phase := Put, since := s.now, delay := after.delay, loaded := !hit, carried := after.carried)
            && last == s.(nextRef := last.nextRef, threads := s.threads[t := after],
                          loads := if hit then s.loads else s.loads[c.key := Loads(s, c.key) + 1])
            && after.carried.value.ref < last.nextRef
  {
    hide Reaches, Next, Enabled;
    NoSteps(s);
    if PublishedFresh(s, s.threads[t].key, s.threads[t].ttl) {
      SharedHitStep(s, t);
      Then(s, [], s, ReadShared(t));
      steps, last := [] + [ReadShared(t)], Next(s, ReadShared(t));
    } else {
      SharedMissStep(s, t);
      Then(s, [], s, ReadShared(t));
      var mid := Next(s, ReadShared(t));
      LoadedStep(mid, t);
      Then(s, [] + [ReadShared(t)], mid, LoadOk(t));
      steps, last := [] + [ReadShared(t)] + [LoadOk(t)], Next(mid, LoadOk(t));
    }
  }

  /** A call with a value stores it, publishes it if it was loaded, and returns it. */
  lemma Completes(s: State, t: Tid) returns (steps: seq<Step>, last: State)
    requires Calls(s, t, Put, false) && s.threads[t].ttl > 0.0 && s.threads[t].carried.Some? && s.global.None?
    requires s.threads[t].key in s.inflight && s.inflight[s.threads[t].key] == s.threads[t].flight
    requires s.threads[t].carried.value.ref < s.nextRef
    ensures Reaches(s, steps, last)
    ensures var c := s.threads[t]; var value := c.carried.value;
            && CachedAs(last, c.key, c.ttl, value.born, value.ref) && last.now == s.now
            && last == s.(nextRef := last.nextRef, cache := last.cache, lastPrune := last.lastPrune, threads := s.threads[t := Idle],
                          shared := if c.loaded then s.shared[c.key := Published(s.now, value.born)] else s.shared,
                          inflight := s.inflight - {c.key}, holder := s.holder - {c.flight}, handed := s.handed + {value.ref})
  {
    hide Reaches, Next, Enabled, HoldsFlight;
    var first, mid := StoresAndPublishes(s, t);
    var second;
    second, last := Returns(mid, t);
    ReachesThrough(s, first, mid, second, last);
    steps := first + second;
  }

  /** A call that carries a value caches a copy, publishes it if it was loaded, and comes to its marker. */
  lemma StoresAndPublishes(s: State, t: Tid) returns (steps: seq<Step>, last: State)
    requires Calls(s, t, Put, false) && s.threads[t].ttl > 0.0 && s.threads[t].carried.Some? && s.global.None?
    ensures Reaches(s, steps, last)
    ensures var c := s.threads[t];
            && last == s.(nextRef := last.nextRef, cache := last.cache, lastPrune := last.lastPrune,
                          shared := if c.loaded then s.shared[c.key := Published(s.now, c.carried.value.born)] else s.shared,
                          threads := s.threads[t := c.(phase := Pop)])
            && c.key in last.cache && last.cache[c.key].stored == s.now && last.cache[c.key].ttl == c.ttl
            && last.cache[c.key].value.born == c.carried.value.born && s.nextRef <= last.cache[c.key].value.ref < last.nextRef
  {
    hide Reaches, Next, Enabled, HoldsFlight;
    NoSteps(s);
    EnterStep(s, t);
    Then(s, [], s, Enter(t));
    steps, last := [] + [Enter(t)], Next(s, Enter(t));
    CopyStoredStep(last, t);
    Then(s, steps, last, Store(t));
    steps, last := steps + [Store(t)], Next(last, Store(t));
    if s.threads[t].loaded {
      WrittenStep(last, t);
      Then(s, steps, last, WriteShared(t));
      steps, last := steps + [WriteShared(t)], Next(last, WriteShared(t));
    }
  }

  /** It removes its marker, releases its lock and returns the object it carries. */
  lemma Returns(s: State, t: Tid) returns (steps: seq<Step>, last: State)
    requires Calls(s, t, Pop, false) && s.threads[t].carried.Some? && s.global.None?
    requires s.threads[t].key in s.inflight && s.inflight[s.threads[t].key] == s.threads[t].flight
    ensures Reaches(s, steps, last)
    ensures last == s.(nextRef := last.nextRef, inflight := s.inflight - {s.threads[t].key},
                       holder := s.holder - {s.threads[t].flight}, threads := s.threads[t := Idle],
                       handed := s.handed + {s.threads[t].carried.value.ref})
  {
    hide Reaches, Next, Enabled, HoldsFlight;
    NoSteps(s);
    EnterStep(s, t);
    Then(s, [], s, Enter(t));
    steps, last := [] + [Enter(t)], Next(s, Enter(t));
    PopStep(last, t);
    Then(s, steps, last, PopMarker(t));
    steps, last := steps + [PopMarker(t)], Next(last, PopMarker(t));
    ReturnStep(last, t);
    Then(s, steps, last, ReleaseFlight(t));
    steps, last := steps + [ReleaseFlight(t)], Next(last, ReleaseFlight(t));
  }

  // ---- The whole call ----

  /** The call is over, its locks and marker gone, and its caller was given one new object. */
  predicate Finished(s: State, last: State, given: nat) {
    && last.threads == s.threads && last.holder == s.holder && last.inflight == s.inflight
    && last.now == s.now && last.global.None?
    && given >= s.nextRef && last.handed == s.handed + {given}
  }

  /** The key is cached now, as a copy of its own, of data this old. */
  predicate CachedAs(last: State, key: string, ttl: real, born: real, given: nat) {
    && key in last.cache && last.cache[key].stored == last.now && last.cache[key].ttl == ttl
    && last.cache[key].value.born == born && last.cache[key].value.ref != given
  }

  predicate PublishedFresh(s: State, key: string, ttl: real) {
    key in s.shared && s.now - s.shared[key].written < ttl
  }

  /**
   A call nobody disturbs runs to its end. A memory hit changes nothing; otherwise a fresh shared
   entry is cached and returned without a load; otherwise one load is cached and published.
   */
  lemma UndisturbedCall(s: State, t: Tid, key: string, ttl: real) returns (steps: seq<Step>, last: State, given: nat)
    requires LockInv(s) && t in s.threads && s.threads[t].Idle? && ttl > 0.0 && s.global.None? && key !in s.inflight
    ensures Reaches(s, steps, last) && Finished(s, last, given)
    ensures Hit(s.cache, key, s.now, ttl).Some? ==> last.cache == s.cache && last.shared == s.shared && last.loads == s.loads
    ensures Hit(s.cache, key, s.now, ttl).None? && PublishedFresh(s, key, ttl) ==>
              CachedAs(last, key, ttl, s.shared[key].born, given) && last.shared == s.shared && last.loads == s.loads
    ensures Hit(s.cache, key, s.now, ttl).None? && !PublishedFresh(s, key, ttl) ==>
              && CachedAs(last, key, ttl, s.now, given) && last.shared == s.shared[key := Published(s.now, s.now)]
              && last.loads == s.loads[key := Loads(s, key) + 1]
  {
    hide Reaches, Next, Enabled, HoldsFlight, LockInv;
    NewLockIsFree(s);
    if Hit(s.cache, key, s.now, ttl).Some? {
      steps, last, given := MemoryHit(s, t, key, ttl);
    } else {
      steps, last, given := MissedCall(s, t, key, ttl);
    }
  }

  /** With nothing cached, to a value that can be stored. */
  lemma ComesToValue(s: State, t: Tid, key: string, ttl: real) returns (steps: seq<Step>, last: State)
    requires t in s.threads && s.threads[t].Idle? && ttl > 0.0 && s.global.None?
    requires Hit(s.cache, key, s.now, ttl).None? && key !in s.inflight && |s.flights| !in s.holder
    ensures Reaches(s, steps, last)
    ensures Calls(last, t, Put, false)
    ensures var c := last.threads[t]; var hit := PublishedFresh(s, key, ttl);
            && c.key == key && c.ttl == ttl && c.flight == |s.flights| && c.loaded == !hit && c.carried.Some?
            && c.carried.value.born == (if hit then s.shared[key].born else s.now) && s.nextRef <= c.carried.value.ref < last.nextRef
            && last == s.(nextRef := last.nextRef, inflight := s.inflight[key := |s.flights|], flights := s.flights + [key],
                          holder := s.holder[|s.flights| := t], threads := s.threads[t := c],
                          loads := if hit then s.loads else s.loads[key := Loads(s, key) + 1])
  {
    hide Reaches, Next, Enabled, HoldsFlight;
    var before, waiting := ComesToWait(s, t, key, ttl);
    var named, at := ComesToShared(waiting, t);
    var found;
    found, last := FindsValue(at, t);
    ReachesThrough(s, before, waiting, named, at);
    ReachesThrough(s, before + named, at, found, last);
    steps := before + named + found;
  }

  lemma MissedCall(s: State, t: Tid, key: string, ttl: real) returns (steps: seq<Step>, last: State, given: nat)
    requires t in s.threads && s.threads[t].Idle? && ttl > 0.0 && s.global.None?
    requires Hit(s.cache, key, s.now, ttl).None? && key !in s.inflight && |s.flights| !in s.holder
    ensures Reaches(s, steps, last) && Finished(s, last, given)
    ensures PublishedFresh(s, key, ttl) ==>
              CachedAs(last, key, ttl, s.shared[key].born, given) && last.shared == s.shared && last.loads == s.loads
    ensures !PublishedFresh(s, key, ttl) ==>
              && CachedAs(last, key, ttl, s.now, given) && last.shared == s.shared[key := Published(s.now, s.now)]
              && last.loads == s.loads[key := Loads(s, key) + 1]
  {
    hide Reaches, Next, Enabled, HoldsFlight, CachedAs, Loads;
    var before, have := ComesToValue(s, t, key, ttl);
    given := have.threads[t].carried.value.ref;
    var after;
    after, last := Completes(have, t);
    ReachesThrough(s, before, have, after, last);
    steps := before + after;
    assert last.inflight == s.inflight && last.holder == s.holder && last.threads == s.threads;
  }

  lemma MemoryHit(s: State, t: Tid, key: string, ttl: real) returns (steps: seq<Step>, last: State, given: nat)
    requires t in s.threads && s.threads[t].Idle? && ttl > 0.0 && s.global.None? && Hit(s.cache, key, s.now, ttl).Some?
    ensures Reaches(s, steps, last) && Finished(s, last, given)
    ensures last.cache == s.cache && last.shared == s.shared && last.loads == s.loads
  {
    hide Reaches, Next, Enabled;
    NoSteps(s);
    StartStep(s, t, key, ttl);
    Then(s, [], s, Start(t, key, ttl));
    var s1 := Next(s, Start(t, key, ttl));
    EnterStep(s1, t);
    Then(s, [] + [Start(t, key, ttl)], s1, Enter(t));
    var s2 := Next(s1, Enter(t));
    HitStep(s2, t);
    Then(s, [] + [Start(t, key, ttl)] + [Enter(t)], s2, LookUp(t, s.now));
    steps, last := [] + [Start(t, key, ttl)] + [Enter(t)] + [LookUp(t, s.now)], Next(s2, LookUp(t, s.now));
    given := s2.nextRef;
  }
}
