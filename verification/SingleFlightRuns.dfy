/** Freshness, aliasing and the at-most-once load, over every interleaving. */
module SingleFlightRuns {
  import opened Common
  import opened ReadCache
  import opened SingleFlight

  lemma StoredIsOldOrNew(cache: Cache, lastPrune: real, key: string, entry: Entry)
    ensures var after := Stored(cache, lastPrune, key, entry);
            && (forall k :: k in after ==> (k == key && after[k] == entry) || (k in cache && after[k] == cache[k]))
            && (entry.ttl > 0.0 ==> key in after)
  {
  }

  // ---- Freshness ----

  lemma TimesKept(s: State, step: Step)
    requires TimeInv(s) && Enabled(s, step)
    ensures TimeInv(Next(s, step))
  {
    CacheTimesKept(s, step);
    CallTimesKept(s, step);
  }

  lemma CacheTimesKept(s: State, step: Step)
    requires TimeInv(s) && Enabled(s, step)
    ensures forall k :: k in Next(s, step).cache ==>
              var e := Next(s, step).cache[k];
              e.stored <= Next(s, step).now && e.ttl > 0.0 && e.stored - e.value.born < e.ttl + e.delay
  {
    hide InflightAfter, FlightsAfter, HolderAfter, SharedAfter, HandedAfter, LoadsAfter, GlobalAfter, ThreadAfter, Stored, Hit;
    if step.Store? {
      StoredIsOldOrNew(s.cache, s.lastPrune, s.threads[step.t].key, NewEntry(s, step.t));
    }
  }

  lemma CallTimesKept(s: State, step: Step)
    requires TimeInv(s) && Enabled(s, step)
    ensures forall t :: t in Next(s, step).threads && Next(s, step).threads[t].Call? ==>
              var c := Next(s, step).threads[t];
              && c.since <= Next(s, step).now && c.ttl > 0.0
              && (c.phase == Put ==> c.carried.Some? && c.since - c.carried.value.born < c.ttl + c.delay)
  {
    hide InflightAfter, FlightsAfter, HolderAfter, SharedAfter, HandedAfter, LoadsAfter, GlobalAfter, CacheAfter, Hit;
  }

  /** A value served from memory was stored less than its caller's TTL before the lookup's clock reading. */
  lemma ServedFromMemoryIsFresh(s: State, t: Tid, sample: real)
    requires TimeInv(s) && Enabled(s, LookUp(t, sample)) && Found(s, t, sample).Some?
    ensures var e := Found(s, t, sample).value;
            && sample - e.stored < s.threads[t].ttl
            && sample - e.value.born < s.threads[t].ttl + e.ttl + e.delay
  {
  }

  // ---- Aliasing ----

  /** No stored object is one a caller holds or will be given, and fresh identities are really fresh. */
  ghost predicate RefInv(s: State) {
    && (forall k :: k in s.cache ==> s.cache[k].value.ref < s.nextRef && s.cache[k].value.ref !in s.handed)
    && (forall r :: r in s.handed ==> r < s.nextRef)
    && (forall t :: t in s.threads && s.threads[t].Call? && s.threads[t].carried.Some? ==>
          s.threads[t].carried.value.ref < s.nextRef)
    && (forall t, k :: t in s.threads && k in s.cache && s.threads[t].Call? && s.threads[t].carried.Some? ==>
          s.threads[t].carried.value.ref != s.cache[k].value.ref)
  }

  lemma RefsKept(s: State, step: Step)
    requires RefInv(s) && Enabled(s, step)
    ensures RefInv(Next(s, step))
  {
    if step.Store? {
      StoredRefsKept(s, step);
    } else {
      OtherRefsKept(s, step);
    }
  }

  lemma StoredRefsKept(s: State, step: Step)
    requires RefInv(s) && Enabled(s, step) && step.Store?
    ensures RefInv(Next(s, step))
  {
    hide InflightAfter, FlightsAfter, HolderAfter, SharedAfter, LoadsAfter, GlobalAfter, Stored;
    StoredIsOldOrNew(s.cache, s.lastPrune, s.threads[step.t].key, NewEntry(s, step.t));
  }

  lemma OtherRefsKept(s: State, step: Step)
    requires RefInv(s) && Enabled(s, step) && !step.Store?
    ensures RefInv(Next(s, step))
  {
    hide InflightAfter, FlightsAfter, HolderAfter, SharedAfter, LoadsAfter, GlobalAfter, Hit, SharedHit, NewEntry;
    assert Next(s, step).cache == s.cache;
    hide CacheAfter;
  }

  // ---- At most one load ----

  predicate On(s: State, t: Tid, key: string) {
    t in s.threads && s.threads[t].Call? && s.threads[t].key == key
  }

  /** The step neither fails a load of `key`, nor finds its stored entry expired, nor prunes it. */
  predicate Quiet(s: State, step: Step, key: string)
    requires Enabled(s, step)
  {
    && (step.LoadFail? ==> s.threads[step.t].key != key)
    && (step.LookUp? && s.threads[step.t].key == key && key in s.cache ==> Found(s, step.t, step.sample).Some?)
    && (key in s.cache ==> key in CacheAfter(s, step))
  }

  ghost predicate BeingLoaded(s: State, key: string) {
    exists t :: On(s, t, key) && s.threads[t].phase in {Load, Put}
  }

  lemma OthersStay(s: State, step: Step, t: Tid)
    requires Enabled(s, step) && t in s.threads && (!ByThread(step) || step.t != t)
    ensures t in Next(s, step).threads && Next(s, step).threads[t] == s.threads[t]
  {
    hide ThreadAfter, CacheAfter, InflightAfter, FlightsAfter, HolderAfter, HandedAfter, SharedAfter, GlobalAfter, LoadsAfter;
  }

  lemma LoaderStaysOrStores(s: State, step: Step, key: string)
    requires TimeInv(s) && Enabled(s, step) && Quiet(s, step, key)
    requires BeingLoaded(s, key) || (step.ReadShared? && On(s, step.t, key) && !SharedHit(s, step.t))
    ensures BeingLoaded(Next(s, step), key) || key in Next(s, step).cache
  {
    hide Next, TimeInv, Quiet;
    if step.ReadShared? && On(s, step.t, key) && !SharedHit(s, step.t) {
      SharedMissStep(s, step.t);
      assert On(Next(s, step), step.t, key);
    } else {
      var t :| On(s, t, key) && s.threads[t].phase in {Load, Put};
      if ByThread(step) && step.t == t {
        LoaderSteps(s, step, key);
      } else {
        OthersStay(s, step, t);
        assert On(Next(s, step), t, key);
      }
    }
  }

  /** A loader that does not fail comes to store, and its store caches the key. */
  lemma LoaderSteps(s: State, step: Step, key: string)
    requires TimeInv(s) && Enabled(s, step) && Quiet(s, step, key) && ByThread(step)
    requires On(s, step.t, key) && s.threads[step.t].phase in {Load, Put}
    ensures BeingLoaded(Next(s, step), key) || key in Next(s, step).cache
  {
    hide InflightAfter, FlightsAfter, HolderAfter, HandedAfter, SharedAfter, GlobalAfter, LoadsAfter, Stored;
    if step.Store? {
      StoredIsOldOrNew(s.cache, s.lastPrune, s.threads[step.t].key, NewEntry(s, step.t));
    } else {
      assert On(Next(s, step), step.t, key);
    }
  }

  /**
   The key was loaded at most once. Once it is cached nobody is about to load it; until then
   everyone past the in-flight table waits for, or holds, the one lock the table names.
   */
  ghost predicate OnceInv(s: State, key: string) {
    CountInv(s, key) && CachedInv(s, key) && WaitingInv(s, key)
  }

  ghost predicate CountInv(s: State, key: string) {
    Loads(s, key) <= 1 && (Loads(s, key) == 0 || key in s.cache || BeingLoaded(s, key))
  }

  ghost predicate CachedInv(s: State, key: string) {
    forall t :: On(s, t, key) && key in s.cache ==> s.threads[t].phase !in {Shared, Load, Put}
  }

  ghost predicate WaitingInv(s: State, key: string) {
    forall t :: On(s, t, key) ==> WaitsRight(s, t, key)
  }

  predicate WaitsRight(s: State, t: Tid, key: string)
    requires On(s, t, key)
  {
    key !in s.cache && s.threads[t].phase !in {Get1, Mark} ==>
      && s.threads[t].phase !in {Write, Pop, Release}
      && key in s.inflight && s.inflight[key] == s.threads[t].flight
  }

  /** Before the key is cached, at most one thread is past the flight lock towards its load. */
  lemma OneThreadPastTheLock(s: State, t: Tid, u: Tid, key: string)
    requires HolderInv(s) && WaitingInv(s, key) && key !in s.cache && On(s, t, key) && On(s, u, key)
    requires s.threads[t].phase in {Shared, Load, Put} && s.threads[u].phase in {Shared, Load, Put}
    ensures t == u
  {
    assert WaitsRight(s, t, key) && WaitsRight(s, u, key);
  }

  lemma CountKept(s: State, step: Step, key: string)
    requires LockInv(s) && TimeInv(s) && OnceInv(s, key) && Enabled(s, step) && Quiet(s, step, key)
    ensures CountInv(Next(s, step), key)
  {
    if step.ReadShared? && On(s, step.t, key) && !SharedHit(s, step.t) {
      LoaderStaysOrStores(s, step, key);
      if BeingLoaded(s, key) {
        var u :| On(s, u, key) && s.threads[u].phase in {Load, Put};
        OneThreadPastTheLock(s, step.t, u, key);
      }
    } else {
      assert Loads(Next(s, step), key) == Loads(s, key);
      if BeingLoaded(s, key) {
        LoaderStaysOrStores(s, step, key);
      }
    }
  }

  lemma CachedKept(s: State, step: Step, key: string)
    requires LockInv(s) && TimeInv(s) && OnceInv(s, key) && Enabled(s, step) && Quiet(s, step, key)
    ensures CachedInv(Next(s, step), key)
  {
    var after := Next(s, step);
    forall t | On(after, t, key) && key in after.cache ensures after.threads[t].phase !in {Shared, Load, Put} {
      if key in s.cache {
        hide InflightAfter, FlightsAfter, HolderAfter, HandedAfter, SharedAfter, GlobalAfter, LoadsAfter;
        assert step.Start? || On(s, t, key);
      } else {
        StoredIsOldOrNew(s.cache, s.lastPrune, s.threads[step.t].key, NewEntry(s, step.t));
        if t != step.t && after.threads[t].phase in {Shared, Load, Put} {
          OneThreadPastTheLock(s, t, step.t, key);
        }
      }
    }
  }

  /** The table's marker for an uncached key with waiters does not change. */
  lemma MarkerStays(s: State, step: Step, key: string)
    requires WaitingInv(s, key) && Enabled(s, step) && key !in s.cache && key in s.inflight
    ensures key in InflightAfter(s, step) && InflightAfter(s, step)[key] == s.inflight[key]
  {
    if step.PopMarker? {
      assert On(s, step.t, s.threads[step.t].key);
    }
  }

  lemma StepperWaitsRight(s: State, step: Step, key: string)
    requires TimeInv(s) && WaitingInv(s, key) && Enabled(s, step) && Quiet(s, step, key) && ByThread(step)
    requires On(Next(s, step), step.t, key)
    ensures WaitsRight(Next(s, step), step.t, key)
  {
    hide HandedAfter, SharedAfter, GlobalAfter, LoadsAfter, HolderAfter, SharedHit;
    if step.Store? {
      StoredIsOldOrNew(s.cache, s.lastPrune, s.threads[step.t].key, NewEntry(s, step.t));
    }
    hide Stored, TimeInv;
    assert step.Start? || On(s, step.t, key);
  }

  lemma WaitingKept(s: State, step: Step, key: string)
    requires TimeInv(s) && WaitingInv(s, key) && Enabled(s, step) && Quiet(s, step, key)
    ensures WaitingInv(Next(s, step), key)
  {
    var after := Next(s, step);
    forall t | On(after, t, key) ensures WaitsRight(after, t, key) {
      if ByThread(step) && step.t == t {
        StepperWaitsRight(s, step, key);
      } else if key !in after.cache && after.threads[t].phase !in {Get1, Mark} {
        hide ThreadAfter, HandedAfter, SharedAfter, GlobalAfter, LoadsAfter, HolderAfter, TimeInv, InflightAfter;
        assert On(s, t, key) && WaitsRight(s, t, key);
        MarkerStays(s, step, key);
      }
    }
  }

  lemma OnceKept(s: State, step: Step, key: string)
    requires LockInv(s) && TimeInv(s) && OnceInv(s, key) && Enabled(s, step) && Quiet(s, step, key)
    ensures OnceInv(Next(s, step), key)
  {
    hide LockInv, TimeInv, CountInv, CachedInv, WaitingInv, Next, Enabled, Quiet;
    CountKept(s, step, key);
    CachedKept(s, step, key);
    WaitingKept(s, step, key);
  }

  // ---- Whole runs ----

  ghost predicate Good(s: State) {
    LockInv(s) && TimeInv(s) && RefInv(s)
  }

  /** Idle threads over an empty cache. */
  ghost predicate Initial(s: State) {
    && s.cache == map[] && s.inflight == map[] && s.holder == map[] && s.flights == []
    && s.global.None? && s.handed == {} && s.loads == map[]
    && forall t :: t in s.threads ==> s.threads[t].Idle?
  }

  ghost predicate Reaches(s: State, steps: seq<Step>, last: State)
    decreases |steps|
  {
    if steps == [] then s == last
    else Enabled(s, steps[0]) && Reaches(Next(s, steps[0]), steps[1..], last)
  }

  /** A run no step of which fails a load of `key` or meets its entry expired. */
  ghost predicate QuietlyReaches(s: State, steps: seq<Step>, last: State, key: string)
    decreases |steps|
  {
    if steps == [] then s == last
    else
      && Enabled(s, steps[0]) && Quiet(s, steps[0], key)
      && QuietlyReaches(Next(s, steps[0]), steps[1..], last, key)
  }

  lemma {:induction false} GoodAlways(s: State, steps: seq<Step>, last: State)
    requires Good(s) && Reaches(s, steps, last)
    ensures Good(last)
    decreases |steps|
  {
    hide LockInv, TimeInv, RefInv, Next, Enabled;
    if steps != [] {
      LocksKept(s, steps[0]);
      TimesKept(s, steps[0]);
      RefsKept(s, steps[0]);
      GoodAlways(Next(s, steps[0]), steps[1..], last);
    }
  }

  lemma {:induction false} OnceAlways(s: State, steps: seq<Step>, last: State, key: string)
    requires Good(s) && OnceInv(s, key) && QuietlyReaches(s, steps, last, key)
    ensures OnceInv(last, key)
    decreases |steps|
  {
    hide LockInv, TimeInv, RefInv, Next, Enabled, OnceInv, Quiet;
    if steps != [] {
      LocksKept(s, steps[0]);
      TimesKept(s, steps[0]);
      RefsKept(s, steps[0]);
      OnceKept(s, steps[0], key);
      OnceAlways(Next(s, steps[0]), steps[1..], last, key);
    }
  }

  /**
   Under every interleaving of any number of threads: while no load of the key fails and its
   stored entry is never met expired, its loader is called at most once.
   */
  lemma SingleFlightPerKey(s: State, steps: seq<Step>, last: State, key: string)
    requires Initial(s) && QuietlyReaches(s, steps, last, key)
    ensures Loads(last, key) <= 1
  {
    OnceAlways(s, steps, last, key);
  }

  /** Every reachable state is deadlock free, hands out no stored object, and serves no stale entry. */
  lemma ReachableStatesAreGood(s: State, steps: seq<Step>, last: State)
    requires Initial(s) && Reaches(s, steps, last)
    ensures Good(last)
  {
    GoodAlways(s, steps, last);
  }

  // ---- The way of one caller ----

  /** Neither store has the key younger than the TTL. */
  predicate Missing(s: State, key: string, ttl: real) {
    Hit(s.cache, key, s.now, ttl).None? && (key in s.shared ==> s.now - s.shared[key].written >= ttl)
  }

  /** Thread `t` stands before the second lookup of an uncached key, its flight lock free. */
  predicate MayLoad(s: State, t: Tid, key: string) {
    && On(s, t, key) && s.threads[t].phase == Wait && !s.threads[t].critical && s.threads[t].flight !in s.holder
    && s.global.None? && Missing(s, key, s.threads[t].ttl) && s.threads[t].since <= s.now
  }

  predicate SameBackground(s: State, after: State) {
    after.cache == s.cache && after.shared == s.shared && after.global.None? && after.now == s.now
  }

  /** The steps of the story below, each as what it changes. */
  lemma StartStep(s: State, t: Tid, key: string, ttl: real)
    requires t in s.threads && s.threads[t].Idle? && ttl > 0.0
    ensures Enabled(s, Start(t, key, ttl))
    ensures Next(s, Start(t, key, ttl)) ==
            s.(nextRef := s.nextRef + 1, threads := s.threads[t := Call(key, ttl, Get1, false, 0, s.now, 0.0, None, false)])
  {
  }

  lemma EnterStep(s: State, t: Tid)
    requires t in s.threads && s.threads[t].Call? && !s.threads[t].critical && NeedsGlobal(s.threads[t].phase) && s.global.None?
    ensures Enabled(s, Enter(t))
    ensures Next(s, Enter(t)) ==
            s.(nextRef := s.nextRef + 1, global := Some(t), threads := s.threads[t := s.threads[t].(critical := true)])
  {
  }

  lemma MissStep(s: State, t: Tid)
    requires (Calls(s, t, Get1, true) || Calls(s, t, Get2, true)) && s.threads[t].since <= s.now && Found(s, t, s.now).None?
    ensures Enabled(s, LookUp(t, s.now))
    ensures Next(s, LookUp(t, s.now)) ==
            s.(nextRef := s.nextRef + 1, global := None,
               threads := s.threads[t := s.threads[t].(phase := if s.threads[t].phase == Get1 then Mark else Shared, critical := false)])
  {
  }

  lemma MarkStep(s: State, t: Tid)
    requires Calls(s, t, Mark, true) && s.threads[t].key !in s.inflight
    ensures Enabled(s, MarkFlight(t))
    ensures Next(s, MarkFlight(t)) ==
            s.(nextRef := s.nextRef + 1, global := None, inflight := s.inflight[s.threads[t].key := |s.flights|],
               flights := s.flights + [s.threads[t].key],
               threads := s.threads[t := s.threads[t].(phase := Wait, critical := false, flight := |s.flights|)])
  {
  }

  lemma AcquireStep(s: State, t: Tid)
    requires Calls(s, t, Wait, false) && s.threads[t].flight !in s.holder
    ensures Enabled(s, Acquire(t))
    ensures Next(s, Acquire(t)) ==
            s.(nextRef := s.nextRef + 1, holder := s.holder[s.threads[t].flight := t],
               threads := s.threads[t := s.threads[t].(phase := Get2, since := s.now)])
  {
  }

  lemma SharedMissStep(s: State, t: Tid)
    requires Calls(s, t, Shared, false) && !SharedHit(s, t)
    ensures Enabled(s, ReadShared(t))
    ensures Next(s, ReadShared(t)) ==
            s.(nextRef := s.nextRef + 1, loads := s.loads[s.threads[t].key := Loads(s, s.threads[t].key) + 1],
               threads := s.threads[t := s.threads[t].(phase := Load)])
  {
  }

  lemma FailStep(s: State, t: Tid)
    requires Calls(s, t, Load, false)
    ensures Enabled(s, LoadFail(t))
    ensures Next(s, LoadFail(t)) == s.(nextRef := s.nextRef + 1, threads := s.threads[t := s.threads[t].(phase := Pop)])
  {
  }

  lemma PopStep(s: State, t: Tid)
    requires Calls(s, t, Pop, true) && s.threads[t].key in s.inflight && s.inflight[s.threads[t].key] == s.threads[t].flight
    ensures Enabled(s, PopMarker(t))
    ensures Next(s, PopMarker(t)) ==
            s.(nextRef := s.nextRef + 1, global := None, inflight := s.inflight - {s.threads[t].key},
               threads := s.threads[t := s.threads[t].(phase := Release, critical := false)])
  {
  }

  lemma ReleaseStep(s: State, t: Tid)
    requires Calls(s, t, Release, false)
    ensures Enabled(s, ReleaseFlight(t))
    ensures Next(s, ReleaseFlight(t)) ==
            s.(nextRef := s.nextRef + 1, holder := s.holder - {s.threads[t].flight}, threads := s.threads[t := Idle],
               handed := HandedAfter(s, ReleaseFlight(t)))
  {
  }

  lemma NoSteps(s: State)
    ensures Reaches(s, [], s)
  {
  }

  lemma OneMore(s: State, steps: seq<Step>, rest: seq<Step>, last: State)
    requires steps != [] && steps[1..] == rest && Enabled(s, steps[0]) && Reaches(Next(s, steps[0]), rest, last)
    ensures Reaches(s, steps, last)
  {
  }

  lemma WaiterLoads(s: State, t: Tid, key: string) returns (last: State)
    requires MayLoad(s, t, key)
    ensures Reaches(s, [Acquire(t), Enter(t), LookUp(t, s.now), ReadShared(t)], last)
    ensures Calls(last, t, Load, false) && On(last, t, key) && SameBackground(s, last)
    ensures last.threads == s.threads[t := last.threads[t]] && last.holder == s.holder[s.threads[t].flight := t]
    ensures last.inflight == s.inflight && last.flights == s.flights && last.threads[t].flight == s.threads[t].flight
    ensures last.threads[t].ttl == s.threads[t].ttl
  {
    hide Reaches, Next, Enabled, HoldsFlight;
    AcquireStep(s, t);
    var s1 := Next(s, Acquire(t));
    EnterStep(s1, t);
    var s2 := Next(s1, Enter(t));
    MissStep(s2, t);
    var s3 := Next(s2, LookUp(t, s.now));
    SharedMissStep(s3, t);
    last := Next(s3, ReadShared(t));
    NoSteps(last);
    OneMore(s3, [ReadShared(t)], [], last);
    OneMore(s2, [LookUp(t, s.now), ReadShared(t)], [ReadShared(t)], last);
    OneMore(s1, [Enter(t), LookUp(t, s.now), ReadShared(t)], [LookUp(t, s.now), ReadShared(t)], last);
    OneMore(s, [Acquire(t), Enter(t), LookUp(t, s.now), ReadShared(t)], [Enter(t), LookUp(t, s.now), ReadShared(t)], last);
  }

  /** An idle thread finds nothing and comes to the in-flight table. */
  lemma ComesToMark(s: State, t: Tid, key: string, ttl: real) returns (last: State)
    requires t in s.threads && s.threads[t].Idle? && ttl > 0.0 && s.global.None? && Missing(s, key, ttl)
    ensures Reaches(s, [Start(t, key, ttl), Enter(t), LookUp(t, s.now), Enter(t)], last)
    ensures last == s.(nextRef := s.nextRef + 4, global := Some(t),
                       threads := s.threads[t := Call(key, ttl, Mark, true, 0, s.now, 0.0, None, false)])
  {
    hide Reaches, Next, Enabled;
    StartStep(s, t, key, ttl);
    var s1 := Next(s, Start(t, key, ttl));
    EnterStep(s1, t);
    var s2 := Next(s1, Enter(t));
    MissStep(s2, t);
    var s3 := Next(s2, LookUp(t, s.now));
    EnterStep(s3, t);
    last := Next(s3, Enter(t));
    NoSteps(last);
    OneMore(s3, [Enter(t)], [], last);
    OneMore(s2, [LookUp(t, s.now), Enter(t)], [Enter(t)], last);
    OneMore(s1, [Enter(t), LookUp(t, s.now), Enter(t)], [LookUp(t, s.now), Enter(t)], last);
    OneMore(s, [Start(t, key, ttl), Enter(t), LookUp(t, s.now), Enter(t)], [Enter(t), LookUp(t, s.now), Enter(t)], last);
  }

  lemma NewcomerWaits(s: State, t: Tid, key: string, ttl: real) returns (last: State)
    requires t in s.threads && s.threads[t].Idle? && ttl > 0.0 && s.global.None?
    requires Missing(s, key, ttl) && key !in s.inflight && |s.flights| !in s.holder
    ensures Reaches(s, [Start(t, key, ttl), Enter(t), LookUp(t, s.now), Enter(t), MarkFlight(t)], last)
    ensures MayLoad(last, t, key) && SameBackground(s, last)
    ensures last.threads == s.threads[t := last.threads[t]] && last.holder == s.holder
    ensures last.inflight == s.inflight[key := |s.flights|] && last.flights == s.flights + [key]
    ensures last.threads[t].flight == |s.flights| && last.threads[t].ttl == ttl
  {
    hide Reaches, Next, Enabled, HoldsFlight;
    var mid := ComesToMark(s, t, key, ttl);
    MarkStep(mid, t);
    last := Next(mid, MarkFlight(t));
    NoSteps(last);
    OneMore(mid, [MarkFlight(t)], [], last);
    ReachesThrough(s, [Start(t, key, ttl), Enter(t), LookUp(t, s.now), Enter(t)], mid, [MarkFlight(t)], last);
    assert [Start(t, key, ttl), Enter(t), LookUp(t, s.now), Enter(t)] + [MarkFlight(t)] ==
           [Start(t, key, ttl), Enter(t), LookUp(t, s.now), Enter(t), MarkFlight(t)];
  }

  lemma {:induction false} ReachesThrough(s: State, first: seq<Step>, mid: State, second: seq<Step>, last: State)
    requires Reaches(s, first, mid) && Reaches(mid, second, last)
    ensures Reaches(s, first + second, last)
    decreases |first|
  {
    hide Enabled, Next;
    if first == [] {
      assert first + second == second;
    } else {
      ReachesThrough(Next(s, first[0]), first[1..], mid, second, last);
      assert (first + second)[0] == first[0] && (first + second)[1..] == first[1..] + second;
    }
  }
}
