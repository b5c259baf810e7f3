/**
 When two loads of one key can overlap (client.py:94-131): the exact condition on a state in
 which the key is not cached, with the runs that bring it about.
 */
module SingleFlightOverlap {
  import opened Common
  import opened ReadCache
  import opened SingleFlight
  import opened SingleFlightRuns

  // ---- The condition ----

  predicate OnLock(s: State, t: Tid, key: string, f: nat) {
    On(s, t, key) && s.threads[t].phase !in {Get1, Mark} && s.threads[t].flight == f
  }

  predicate Heading(phase: Phase) {
    phase in {Wait, Get2, Shared, Load}
  }

  /** The lock's holder has a value to store: nobody else on this lock will load. */
  predicate Blocked(s: State, f: nat) {
    f in s.holder && s.holder[f] in s.threads && s.threads[s.holder[f]].Call? && s.threads[s.holder[f]].phase == Put
  }

  ghost predicate Viable(s: State, key: string, f: nat) {
    !Blocked(s, f) && exists t :: OnLock(s, t, key, f) && Heading(s.threads[t].phase)
  }

  predicate Named(s: State, key: string, f: nat) {
    key in s.inflight && s.inflight[key] == f
  }

  /** A newcomer would get a lock on which it can come to load. */
  predicate SlotOpen(s: State, key: string) {
    key in s.inflight ==> !Blocked(s, s.inflight[key])
  }

  /** The holder of the named lock is about to remove its name from under those waiting for it. */
  ghost predicate Breaking(s: State, key: string) {
    exists w :: Breaks(s, key, w)
  }

  ghost predicate Breaks(s: State, key: string, w: Tid) {
    && On(s, w, key) && Named(s, key, s.threads[w].flight) && s.threads[w].flight in s.holder && s.holder[s.threads[w].flight] == w
    && (s.threads[w].phase == Write
        || (s.threads[w].phase == Pop && (s.threads[w].critical ==> WaitedFor(s, key, s.threads[w].flight))))
  }

  ghost predicate WaitedFor(s: State, key: string, f: nat) {
    exists t :: OnLock(s, t, key, f) && s.threads[t].phase == Wait
  }

  /** Someone is inside the dictionary lock to store the key. */
  ghost predicate Committed(s: State, key: string) {
    exists t :: On(s, t, key) && Calls(s, t, Put, true)
  }

  predicate Ahead(s: State, t: Tid, key: string) {
    On(s, t, key) && s.threads[t].phase in {Shared, Load}
  }

  ghost predicate TwoAhead(s: State, key: string) {
    exists t, u :: t != u && Ahead(s, t, key) && Ahead(s, u, key)
  }

  /** A lock that can still carry a load although the table does not name it, besides another way to one. */
  ghost predicate Stray(s: State, key: string) {
    exists f :: Viable(s, key, f) && !Named(s, key, f) && (SlotOpen(s, key) || AnotherStray(s, key, f))
  }

  ghost predicate AnotherStray(s: State, key: string, f: nat) {
    exists g :: g != f && Viable(s, key, g) && !Named(s, key, g)
  }

  ghost predicate Overlapping(s: State, key: string) {
    if key in s.cache || Committed(s, key) then TwoAhead(s, key) else Stray(s, key) || Breaking(s, key)
  }

  /** Two threads in the loader at once. */
  ghost predicate TwoLoads(s: State, key: string) {
    exists t, u :: t != u && Calls(s, t, Load, false) && Calls(s, u, Load, false) && On(s, t, key) && On(s, u, key)
  }

  // ---- Necessity: no quiet step brings the condition about ----

  lemma TwoAheadOverlaps(s: State, key: string)
    requires LockInv(s) && TwoAhead(s, key)
    ensures Overlapping(s, key)
  {
    if key !in s.cache && !Committed(s, key) {
      var t, u :| t != u && Ahead(s, t, key) && Ahead(s, u, key);
      var f, g := s.threads[t].flight, s.threads[u].flight;
      assert s.holder[f] == t && s.holder[g] == u;
      assert OnLock(s, t, key, f) && OnLock(s, u, key, g);
      assert Viable(s, key, f) && Viable(s, key, g);
    }
  }

  /** Every thread but the one that steps stays as it is; a lock changes hands only with its thread's step. */
  lemma UntouchedLock(s: State, step: Step, f: nat)
    requires HolderInv(s) && Enabled(s, step) && f in s.holder && (!ByThread(step) || step.t != s.holder[f])
    ensures f in Next(s, step).holder && Next(s, step).holder[f] == s.holder[f]
  {
    hide ThreadAfter, CacheAfter, InflightAfter, FlightsAfter, HandedAfter, SharedAfter, GlobalAfter, LoadsAfter;
  }

  /** The locks of one key are held by threads of that key. */
  lemma HolderOnKey(s: State, t: Tid, key: string, f: nat)
    requires LockInv(s) && OnLock(s, t, key, f) && f in s.holder
    ensures OnLock(s, s.holder[f], key, f)
  {
  }

  lemma UnblockedBack(s: State, step: Step, key: string, f: nat)
    requires LockInv(s) && TimeInv(s) && Enabled(s, step) && f < |s.flights| && s.flights[f] == key
    requires key !in s.cache && key !in Next(s, step).cache && Blocked(s, f) && Quiet(s, step, key)
    ensures Blocked(Next(s, step), f)
  {
    var w := s.holder[f];
    if !ByThread(step) || step.t != w {
      OthersStay(s, step, w);
      UntouchedLock(s, step, f);
    } else {
      hide InflightAfter, FlightsAfter, HandedAfter, SharedAfter, LoadsAfter, GlobalAfter, Stored;
      if step.Store? {
        StoredIsOldOrNew(s.cache, s.lastPrune, s.threads[w].key, NewEntry(s, w));
      }
    }
  }

  /** A lock that is viable and unnamed after a quiet step was so before, or lost its name in the step. */
  lemma ViableBack(s: State, step: Step, key: string, f: nat)
    requires LockInv(s) && TimeInv(s) && Enabled(s, step) && Quiet(s, step, key)
    requires key !in s.cache && key !in Next(s, step).cache
    requires Viable(Next(s, step), key, f) && !Named(Next(s, step), key, f)
    ensures f < |s.flights| && s.flights[f] == key && Viable(s, key, f)
    ensures Named(s, key, f) ==> Breaking(s, key)
  {
    var next := Next(s, step);
    var t :| OnLock(next, t, key, f) && Heading(next.threads[t].phase);
    WitnessBack(s, step, key, f, t);
    if Blocked(s, f) {
      UnblockedBack(s, step, key, f);
    }
    if Named(s, key, f) {
      NameLost(s, step, key, f, t);
    }
  }

  lemma WitnessBack(s: State, step: Step, key: string, f: nat, t: Tid)
    requires LockInv(s) && Enabled(s, step) && Quiet(s, step, key)
    requires OnLock(Next(s, step), t, key, f) && Heading(Next(s, step).threads[t].phase) && !Named(Next(s, step), key, f)
    ensures OnLock(s, t, key, f) && Heading(s.threads[t].phase) && f < |s.flights| && s.flights[f] == key
  {
    hide HandedAfter, SharedAfter, LoadsAfter, GlobalAfter, CacheAfter, HolderAfter;
    if !ByThread(step) || step.t != t {
      assert t in s.threads && Next(s, step).threads[t] == s.threads[t];
    }
  }

  /** A name is lost only to its lock's holder, while the others on the lock wait. */
  lemma NameLost(s: State, step: Step, key: string, f: nat, t: Tid)
    requires LockInv(s) && Enabled(s, step) && Named(s, key, f) && !Named(Next(s, step), key, f)
    requires OnLock(s, t, key, f) && Heading(s.threads[t].phase)
    ensures Breaking(s, key)
  {
    OnlyTheOwnMarkerIsRemoved(s, step, key) by {
      MarkerMoves(s, step, key);
    }
    var w := step.t;
    assert s.holder[f] == w;
    assert s.threads[t].phase == Wait;
    assert WaitedFor(s, key, f);
    assert Breaks(s, key, w);
  }

  lemma MarkerMoves(s: State, step: Step, key: string)
    requires Enabled(s, step) && key in s.inflight
    ensures key !in Next(s, step).inflight || Next(s, step).inflight[key] == s.inflight[key]
  {
    hide ThreadAfter, CacheAfter, SharedAfter, HandedAfter, LoadsAfter, GlobalAfter, HolderAfter, FlightsAfter;
  }

  lemma SlotBack(s: State, step: Step, key: string)
    requires LockInv(s) && TimeInv(s) && Enabled(s, step) && Quiet(s, step, key)
    requires key !in s.cache && key !in Next(s, step).cache && SlotOpen(Next(s, step), key)
    ensures SlotOpen(s, key)
  {
    if key in s.inflight && Blocked(s, s.inflight[key]) {
      var f := s.inflight[key];
      UnblockedBack(s, step, key, f);
      MarkerMoves(s, step, key);
      if key !in Next(s, step).inflight {
        OnlyTheOwnMarkerIsRemoved(s, step, key);
      }
    }
  }

  lemma StrayBack(s: State, step: Step, key: string)
    requires LockInv(s) && TimeInv(s) && Enabled(s, step) && Quiet(s, step, key)
    requires key !in s.cache && key !in Next(s, step).cache && Stray(Next(s, step), key)
    ensures Stray(s, key) || Breaking(s, key)
  {
    hide Viable, SlotOpen, Next, Enabled, Quiet, LockInv, TimeInv, Breaking;
    var next := Next(s, step);
    var f :| Viable(next, key, f) && !Named(next, key, f) && (SlotOpen(next, key) || AnotherStray(next, key, f));
    ViableBack(s, step, key, f);
    if SlotOpen(next, key) {
      SlotBack(s, step, key);
    } else {
      var g :| g != f && Viable(next, key, g) && !Named(next, key, g);
      ViableBack(s, step, key, g);
    }
  }

  lemma BreakingBack(s: State, step: Step, key: string)
    requires LockInv(s) && TimeInv(s) && Enabled(s, step) && Quiet(s, step, key)
    requires key !in s.cache && key !in Next(s, step).cache && Breaking(Next(s, step), key)
    ensures Breaking(s, key)
  {
    var w :| Breaks(Next(s, step), key, w);
    BreaksBack(s, step, key, w);
  }

  lemma BreaksBack(s: State, step: Step, key: string, w: Tid)
    requires LockInv(s) && TimeInv(s) && Enabled(s, step) && Quiet(s, step, key)
    requires key !in s.cache && key !in Next(s, step).cache && Breaks(Next(s, step), key, w)
    ensures Breaks(s, key, w)
  {
    if !ByThread(step) || step.t != w {
      BreaksBackAside(s, step, key, w);
    } else {
      BreaksBackOwn(s, step, key);
    }
  }

  /** The breaking thread's own last step: writing to the shared store, or entering to remove its marker. */
  lemma BreaksBackOwn(s: State, step: Step, key: string)
    requires LockInv(s) && Enabled(s, step) && Quiet(s, step, key) && TimeInv(s)
    requires key !in s.cache && key !in Next(s, step).cache && ByThread(step) && Breaks(Next(s, step), key, step.t)
    ensures Breaks(s, key, step.t)
  {
    var w := step.t;
    LastStepBeforePop(s, step, key);
    hide HandedAfter, SharedAfter, LoadsAfter, CacheAfter, GlobalAfter, Found, SharedHit;
    assert s.holder[s.threads[w].flight] == w;
  }

  lemma LastStepBeforePop(s: State, step: Step, key: string)
    requires Enabled(s, step) && Quiet(s, step, key) && TimeInv(s) && key !in s.cache && key !in Next(s, step).cache && ByThread(step)
    requires On(Next(s, step), step.t, key) && Next(s, step).threads[step.t].phase in {Write, Pop}
    ensures (step.WriteShared? && s.threads[step.t].phase == Write) || (step.Enter? && s.threads[step.t].phase == Pop && !s.threads[step.t].critical)
    ensures On(s, step.t, key)
  {
    hide InflightAfter, FlightsAfter, HolderAfter, HandedAfter, SharedAfter, LoadsAfter, GlobalAfter, Stored;
    if step.Store? {
      StoredIsOldOrNew(s.cache, s.lastPrune, s.threads[step.t].key, NewEntry(s, step.t));
    }
  }

  lemma BreaksBackAside(s: State, step: Step, key: string, w: Tid)
    requires LockInv(s) && Enabled(s, step) && Breaks(Next(s, step), key, w) && (!ByThread(step) || step.t != w)
    ensures Breaks(s, key, w)
  {
    hide ThreadAfter, HandedAfter, SharedAfter, LoadsAfter, CacheAfter, GlobalAfter;
    var next := Next(s, step);
    assert next.threads[w] == s.threads[w];
    var f := s.threads[w].flight;
    if s.threads[w].phase == Pop && s.threads[w].critical {
      var t :| OnLock(next, t, key, f) && next.threads[t].phase == Wait;
      WaiterBack(s, step, key, f, t);
    }
  }

  /** While another thread is inside the dictionary lock nobody starts to wait. */
  lemma WaiterBack(s: State, step: Step, key: string, f: nat, t: Tid)
    requires LockInv(s) && Enabled(s, step) && s.global.Some? && (!ByThread(step) || step.t != s.global.value)
    requires OnLock(Next(s, step), t, key, f) && Next(s, step).threads[t].phase == Wait
    ensures WaitedFor(s, key, f)
  {
    hide HandedAfter, SharedAfter, LoadsAfter, CacheAfter, GlobalAfter, InflightAfter, FlightsAfter, HolderAfter;
    if !ByThread(step) || step.t != t {
      assert t in s.threads && Next(s, step).threads[t] == s.threads[t];
    }
    assert OnLock(s, t, key, f);
  }

  lemma AheadBack(s: State, step: Step, key: string, t: Tid)
    requires LockInv(s) && Enabled(s, step) && Quiet(s, step, key) && (key in s.cache || Committed(s, key))
    requires Ahead(Next(s, step), t, key)
    ensures Ahead(s, t, key)
  {
    hide HandedAfter, SharedAfter, LoadsAfter, CacheAfter, GlobalAfter, InflightAfter, FlightsAfter, HolderAfter;
    if !ByThread(step) || step.t != t {
      assert t in s.threads && Next(s, step).threads[t] == s.threads[t];
    }
  }

  /** Leaving the committing section stores the key; entering it is the only way in. */
  lemma CommitMoves(s: State, step: Step, key: string)
    requires LockInv(s) && TimeInv(s) && Enabled(s, step) && key !in s.cache
    ensures Committed(s, key) ==> Committed(Next(s, step), key) || key in Next(s, step).cache
    ensures key in Next(s, step).cache ==> Committed(s, key)
    ensures !Committed(s, key) && Committed(Next(s, step), key) ==> step.Enter?
  {
    hide Next, Enabled, LockInv, TimeInv, Committed;
    if Committed(s, key) {
      CommitEnds(s, step, key);
    }
    if key in Next(s, step).cache {
      CacheNeedsCommit(s, step, key);
    }
    if Committed(Next(s, step), key) {
      CommitBegins(s, step, key);
    }
  }

  lemma CommitEnds(s: State, step: Step, key: string)
    requires TimeInv(s) && Enabled(s, step) && Committed(s, key)
    ensures Committed(Next(s, step), key) || key in Next(s, step).cache
  {
    hide HandedAfter, SharedAfter, LoadsAfter, GlobalAfter, InflightAfter, FlightsAfter, HolderAfter, Stored, TimeInv;
    var t :| On(s, t, key) && Calls(s, t, Put, true);
    if !ByThread(step) || step.t != t {
      OthersStay(s, step, t);
      assert On(Next(s, step), t, key) && Calls(Next(s, step), t, Put, true);
    } else {
      StoredTtl(s, t);
      StoredIsOldOrNew(s.cache, s.lastPrune, key, NewEntry(s, t));
    }
  }

  lemma StoredTtl(s: State, t: Tid)
    requires TimeInv(s) && t in s.threads && s.threads[t].Call?
    ensures NewEntry(s, t).ttl > 0.0
  {
  }

  lemma CacheNeedsCommit(s: State, step: Step, key: string)
    requires Enabled(s, step) && key !in s.cache && key in Next(s, step).cache
    ensures Committed(s, key)
  {
    hide HandedAfter, SharedAfter, LoadsAfter, GlobalAfter, InflightAfter, FlightsAfter, HolderAfter, Stored, ThreadAfter;
    StoredIsOldOrNew(s.cache, s.lastPrune, s.threads[step.t].key, NewEntry(s, step.t));
    assert On(s, step.t, key) && Calls(s, step.t, Put, true);
  }

  lemma CommitBegins(s: State, step: Step, key: string)
    requires LockInv(s) && Enabled(s, step) && Committed(Next(s, step), key)
    ensures Committed(s, key) || step.Enter?
  {
    hide HandedAfter, SharedAfter, LoadsAfter, GlobalAfter, InflightAfter, FlightsAfter, HolderAfter, CacheAfter, Found, SharedHit;
    var t :| On(Next(s, step), t, key) && Calls(Next(s, step), t, Put, true);
    if !ByThread(step) || step.t != t {
      assert On(s, t, key) && Calls(s, t, Put, true);
    }
  }

  lemma EnterKeepsAhead(s: State, step: Step, key: string, t: Tid)
    requires Enabled(s, step) && step.Enter? && Ahead(Next(s, step), t, key)
    ensures Ahead(s, t, key)
  {
    hide HandedAfter, SharedAfter, LoadsAfter, CacheAfter, GlobalAfter, InflightAfter, FlightsAfter, HolderAfter;
  }

  lemma OverlapBack(s: State, step: Step, key: string)
    requires LockInv(s) && TimeInv(s) && Enabled(s, step) && Quiet(s, step, key) && Overlapping(Next(s, step), key)
    ensures Overlapping(s, key)
  {
    hide LockInv, TimeInv, Next, Enabled, Stray, Breaking, Ahead, Committed;
    var next := Next(s, step);
    if key in s.cache {
      CachedStays(s, step, key);
    } else {
      CommitMoves(s, step, key);
    }
    if key in s.cache || Committed(s, key) {
      var t, u :| t != u && Ahead(next, t, key) && Ahead(next, u, key);
      AheadBack(s, step, key, t);
      AheadBack(s, step, key, u);
    } else if Committed(next, key) {
      var t, u :| t != u && Ahead(next, t, key) && Ahead(next, u, key);
      EnterKeepsAhead(s, step, key, t);
      EnterKeepsAhead(s, step, key, u);
      TwoAheadOverlaps(s, key);
    } else if Stray(next, key) {
      StrayBack(s, step, key);
    } else {
      BreakingBack(s, step, key);
    }
  }

  lemma CachedStays(s: State, step: Step, key: string)
    requires Enabled(s, step) && Quiet(s, step, key) && key in s.cache
    ensures key in Next(s, step).cache
  {
  }

  lemma {:induction false} OverlapAllTheWayBack(s: State, steps: seq<Step>, last: State, key: string)
    requires LockInv(s) && TimeInv(s) && QuietlyReaches(s, steps, last, key) && TwoLoads(last, key)
    ensures Overlapping(s, key)
    decreases |steps|
  {
    hide LockInv, TimeInv, Next, Enabled, Quiet, Overlapping;
    if steps == [] {
      LoadsAreAhead(s, key);
      TwoAheadOverlaps(s, key);
    } else {
      LocksKept(s, steps[0]);
      TimesKept(s, steps[0]);
      OverlapAllTheWayBack(Next(s, steps[0]), steps[1..], last, key);
      OverlapBack(s, steps[0], key);
    }
  }

  lemma LoadsAreAhead(s: State, key: string)
    requires TwoLoads(s, key)
    ensures TwoAhead(s, key)
  {
    var t, u :| t != u && Calls(s, t, Load, false) && Calls(s, u, Load, false) && On(s, t, key) && On(s, u, key);
    assert Ahead(s, t, key) && Ahead(s, u, key);
  }
}
