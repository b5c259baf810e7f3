/** The runs that bring two loads of one key together, and the exact condition (client.py:94-131). */
module SingleFlightWays {
  import opened Common
  import opened ReadCache
  import opened SingleFlight
  import opened SingleFlightRuns
  import opened SingleFlightOverlap

  /** Nobody has stored the key or is about to inside the dictionary lock. */
  ghost predicate Uncommitted(s: State, key: string) {
    LockInv(s) && TimeInv(s) && key !in s.cache && !Committed(s, key)
  }

  /** The steps that neither bring a value for the key nor lose one. */
  predicate Harmless(s: State, step: Step, key: string)
    requires Enabled(s, step)
  {
    match step
    case Tick(_) => false
    case Publish(_, _) => false
    case LoadOk(_) => false
    case LoadFail(_) => false
    case Enter(t) => !(s.threads[t].key == key && s.threads[t].phase == Put)
    case Store(t) => s.threads[t].key != key
    case ReadShared(t) => !SharedHit(s, t)
    case _ => true
  }

  ghost predicate Keeps(s: State, after: State, key: string) {
    && (forall f :: Viable(s, key, f) ==> Viable(after, key, f))
    && (forall t :: Loading(s, t, key) ==> Loading(after, t, key) && after.threads[t].flight == s.threads[t].flight)
    && |s.flights| <= |after.flights|
    && (forall f: nat :: f < |s.flights| && !Named(s, key, f) ==> !Named(after, key, f))
    && (SlotOpen(s, key) ==> SlotOpen(after, key))
  }

  predicate Loading(s: State, t: Tid, key: string) {
    On(s, t, key) && Calls(s, t, Load, false)
  }

  lemma KeepsThrough(s: State, mid: State, after: State, key: string)
    requires Keeps(s, mid, key) && Keeps(mid, after, key)
    ensures Keeps(s, after, key)
  {
    hide Viable, Named, SlotOpen, Loading;
  }

  lemma KeepsSame(s: State, key: string)
    ensures Keeps(s, s, key)
  {
  }

  // ---- What a harmless step keeps ----

  lemma HarmlessIsQuiet(s: State, step: Step, key: string)
    requires Uncommitted(s, key) && Enabled(s, step) && Harmless(s, step, key)
    ensures Quiet(s, step, key) && Uncommitted(Next(s, step), key)
  {
    hide LockInv, TimeInv, Next;
    LocksKept(s, step);
    TimesKept(s, step);
    NotStored(s, step, key);
    if Committed(Next(s, step), key) {
      NotCommitted(s, step, key);
    }
  }

  lemma NotStored(s: State, step: Step, key: string)
    requires key !in s.cache && Enabled(s, step) && Harmless(s, step, key)
    ensures key !in Next(s, step).cache
  {
    hide HandedAfter, SharedAfter, LoadsAfter, GlobalAfter, InflightAfter, FlightsAfter, HolderAfter, Stored, ThreadAfter;
    if step.Store? {
      StoredIsOldOrNew(s.cache, s.lastPrune, s.threads[step.t].key, NewEntry(s, step.t));
    }
  }

  lemma NotCommitted(s: State, step: Step, key: string)
    requires LockInv(s) && Enabled(s, step) && Harmless(s, step, key) && Committed(Next(s, step), key)
    ensures Committed(s, key)
  {
    hide HandedAfter, SharedAfter, LoadsAfter, GlobalAfter, InflightAfter, FlightsAfter, HolderAfter, CacheAfter;
    var t :| On(Next(s, step), t, key) && Calls(Next(s, step), t, Put, true);
    if !ByThread(step) || step.t != t {
      assert On(s, t, key) && Calls(s, t, Put, true);
    }
  }

  lemma BlockedBack(s: State, step: Step, key: string, f: nat)
    requires LockInv(s) && Enabled(s, step) && Harmless(s, step, key) && Blocked(Next(s, step), f)
    requires f < |s.flights| && s.flights[f] == key
    ensures Blocked(s, f)
  {
    hide HandedAfter, SharedAfter, LoadsAfter, GlobalAfter, InflightAfter, CacheAfter;
    LocksKept(s, step);
  }

  lemma ViableStays(s: State, step: Step, key: string, f: nat)
    requires Uncommitted(s, key) && Enabled(s, step) && Harmless(s, step, key) && Viable(s, key, f)
    ensures Viable(Next(s, step), key, f)
  {
    var t :| OnLock(s, t, key, f) && Heading(s.threads[t].phase);
    HeadingStays(s, step, key, f, t);
    if Blocked(Next(s, step), f) {
      BlockedBack(s, step, key, f);
    }
  }

  lemma HeadingStays(s: State, step: Step, key: string, f: nat, t: Tid)
    requires Uncommitted(s, key) && Enabled(s, step) && Harmless(s, step, key) && OnLock(s, t, key, f) && Heading(s.threads[t].phase)
    ensures OnLock(Next(s, step), t, key, f) && Heading(Next(s, step).threads[t].phase)
    ensures Loading(s, t, key) ==> Loading(Next(s, step), t, key)
  {
    hide HandedAfter, SharedAfter, LoadsAfter, GlobalAfter, InflightAfter, CacheAfter, HolderAfter, FlightsAfter;
    if !ByThread(step) || step.t != t {
      OthersStay(s, step, t);
    }
  }

  lemma NamesStay(s: State, step: Step, key: string)
    requires LockInv(s) && Enabled(s, step)
    ensures |s.flights| <= |Next(s, step).flights|
    ensures forall f: nat :: f < |s.flights| && !Named(s, key, f) ==> !Named(Next(s, step), key, f)
    ensures key in Next(s, step).inflight && key !in s.inflight ==> Next(s, step).inflight[key] == |s.flights|
  {
    hide HandedAfter, SharedAfter, LoadsAfter, GlobalAfter, CacheAfter, HolderAfter, ThreadAfter;
  }

  lemma SlotStays(s: State, step: Step, key: string)
    requires Uncommitted(s, key) && Enabled(s, step) && Harmless(s, step, key) && SlotOpen(s, key)
    ensures SlotOpen(Next(s, step), key)
  {
    hide Next, Harmless, Enabled;
    var next := Next(s, step);
    NamesStay(s, step, key);
    if key in next.inflight && Blocked(next, next.inflight[key]) {
      if key in s.inflight {
        MarkerMoves(s, step, key);
        BlockedBack(s, step, key, s.inflight[key]);
      } else {
        FreshIsFree(s, step, key);
      }
    }
  }

  lemma FreshIsFree(s: State, step: Step, key: string)
    requires LockInv(s) && Enabled(s, step) && key !in s.inflight && key in Next(s, step).inflight
    ensures Next(s, step).inflight[key] !in Next(s, step).holder
  {
    hide HandedAfter, SharedAfter, LoadsAfter, GlobalAfter, CacheAfter, ThreadAfter;
  }

  lemma HarmlessKeeps(s: State, step: Step, key: string)
    requires Uncommitted(s, key) && Enabled(s, step) && Harmless(s, step, key)
    ensures Quiet(s, step, key) && Uncommitted(Next(s, step), key) && Keeps(s, Next(s, step), key)
  {
    hide Viable, Next, Harmless, Enabled, SlotOpen, Quiet;
    var next := Next(s, step);
    HarmlessIsQuiet(s, step, key);
    forall f | Viable(s, key, f) ensures Viable(next, key, f) {
      ViableStays(s, step, key, f);
    }
    forall t | Loading(s, t, key) ensures Loading(next, t, key) && next.threads[t].flight == s.threads[t].flight {
      HeadingStays(s, step, key, s.threads[t].flight, t);
    }
    NamesStay(s, step, key);
    if SlotOpen(s, key) {
      SlotStays(s, step, key);
    }
  }

  // ---- Bringing a lock to its load ----

  /** Whoever is inside the dictionary lock can leave it. */
  lemma Exit(s: State, key: string) returns (step: Step)
    requires Uncommitted(s, key) && s.global.Some?
    ensures Enabled(s, step) && ByThread(step) && step.t == s.global.value && Harmless(s, step, key)
    ensures var next := Next(s, step); next.global.None? && next.holder == s.holder && next.shared == s.shared && next.now == s.now
    ensures step.PopMarker? <==> s.threads[step.t].phase == Pop
  {
    var t := s.global.value;
    assert !(On(s, t, key) && Calls(s, t, Put, true));
    step := match s.threads[t].phase
      case Get1 => LookUp(t, s.now)
      case Get2 => LookUp(t, s.now)
      case Mark => MarkFlight(t)
      case Put => Store(t)
      case _ => PopMarker(t);
  }

  ghost predicate LoadingOn(s: State, key: string, f: nat) {
    exists t :: Loading(s, t, key) && s.threads[t].flight == f
  }

  function PhaseRank(s: State, f: nat): nat {
    if f in s.holder && s.holder[f] in s.threads && s.threads[s.holder[f]].Call? then
      var h := s.threads[s.holder[f]];
      match h.phase
      case Load => 0
      case Shared => 1
      case Get2 => if h.critical then 2 else 3
      case Release => 5
      case Pop => if h.critical then 6 else 7
      case Write => 8
      case _ => 9
    else 4
  }

  function Rank(s: State, key: string, f: nat): nat {
    4 * PhaseRank(s, f) + (if key in s.shared then 2 else 0)
    + if s.global.Some? && !(f in s.holder && s.holder[f] == s.global.value) then 1 else 0
  }

  /** The next step of the lock's holder, or of one who waits, or of whoever is in the way. */
  lemma Advance(s: State, key: string, f: nat) returns (step: Step)
    requires Uncommitted(s, key) && Viable(s, key, f) && !LoadingOn(s, key, f)
    ensures Enabled(s, step) && Harmless(s, step, key) && Rank(Next(s, step), key, f) < Rank(s, key, f)
  {
    hide Next, Enabled, Rank, Harmless, LoadingOn;
    var t :| OnLock(s, t, key, f) && Heading(s.threads[t].phase);
    if f !in s.holder {
      AcquireRanks(s, key, f, t);
      step := Acquire(t);
    } else {
      var h := s.holder[f];
      HolderOnKey(s, t, key, f);
      NotLoading(s, key, f, h);
      if NeedsGlobal(s.threads[h].phase) && !s.threads[h].critical && s.global.Some? {
        step := Exit(s, key);
        ExitRanks(s, key, f, h, step);
      } else {
        step := HolderStep(s, key, f, h);
      }
    }
  }

  lemma AcquireRanks(s: State, key: string, f: nat, t: Tid)
    requires Uncommitted(s, key) && OnLock(s, t, key, f) && Heading(s.threads[t].phase) && f !in s.holder
    ensures Enabled(s, Acquire(t)) && Harmless(s, Acquire(t), key) && Rank(Next(s, Acquire(t)), key, f) < Rank(s, key, f)
  {
    AcquireStep(s, t);
    hide Next, Enabled;
  }

  lemma NotLoading(s: State, key: string, f: nat, h: Tid)
    requires Uncommitted(s, key) && OnLock(s, h, key, f) && !LoadingOn(s, key, f) && !Blocked(s, f) && f in s.holder && s.holder[f] == h
    ensures s.threads[h].phase !in {Wait, Put, Load}
  {
  }

  /** Whoever leaves the dictionary lock brings the lock's holder closer to it. */
  lemma ExitRanks(s: State, key: string, f: nat, h: Tid, step: Step)
    requires f in s.holder && s.holder[f] == h && h in s.threads && s.threads[h].Call? && !s.threads[h].critical
    requires Enabled(s, step) && ByThread(step) && s.global == Some(step.t) && step.t != h
    requires var next := Next(s, step); next.global.None? && next.holder == s.holder && next.shared == s.shared
    ensures Rank(Next(s, step), key, f) < Rank(s, key, f)
  {
    OthersStay(s, step, h);
    hide Next, Enabled;
  }

  lemma HolderStep(s: State, key: string, f: nat, h: Tid) returns (step: Step)
    requires Uncommitted(s, key) && OnLock(s, h, key, f) && f in s.holder && s.holder[f] == h && s.threads[h].phase !in {Wait, Put, Load}
    requires NeedsGlobal(s.threads[h].phase) && !s.threads[h].critical ==> s.global.None?
    ensures Enabled(s, step) && Harmless(s, step, key) && Rank(Next(s, step), key, f) < Rank(s, key, f)
  {
    hide Next, Enabled, Harmless, Rank;
    var c := s.threads[h];
    if c.phase == Shared && key in s.shared {
      EvictRanks(s, key, f);
      step := Evict(key);
    } else if NeedsGlobal(c.phase) && !c.critical {
      EnterRanks(s, key, f, h);
      step := Enter(h);
    } else {
      step := match c.phase
        case Shared => ReadShared(h)
        case Get2 => LookUp(h, s.now)
        case Pop => PopMarker(h)
        case Write => WriteShared(h)
        case _ => ReleaseFlight(h);
      OwnRanks(s, key, f, h, step);
    }
  }

  lemma EvictRanks(s: State, key: string, f: nat)
    requires key in s.shared
    ensures Enabled(s, Evict(key)) && Harmless(s, Evict(key), key) && Rank(Next(s, Evict(key)), key, f) < Rank(s, key, f)
  {
    hide HandedAfter, LoadsAfter, CacheAfter, InflightAfter, FlightsAfter;
  }

  lemma EnterRanks(s: State, key: string, f: nat, h: Tid)
    requires On(s, h, key) && f in s.holder && s.holder[f] == h && s.threads[h].phase in {Get2, Pop} && !s.threads[h].critical && s.global.None?
    ensures Enabled(s, Enter(h)) && Harmless(s, Enter(h), key) && Rank(Next(s, Enter(h)), key, f) < Rank(s, key, f)
  {
    EnterStep(s, h);
    hide Next;
  }

  /** What the holder's own steps do to its phase. */
  lemma OwnRanks(s: State, key: string, f: nat, h: Tid, step: Step)
    requires Uncommitted(s, key) && OnLock(s, h, key, f) && f in s.holder && s.holder[f] == h
    requires s.threads[h].phase == Shared ==> key !in s.shared
    requires s.threads[h].phase in {Get2, Pop} ==> s.threads[h].critical
    requires match s.threads[h].phase
             case Shared => step == ReadShared(h)
             case Get2 => step == LookUp(h, s.now)
             case Pop => step == PopMarker(h)
             case Write => step == WriteShared(h)
             case Release => step == ReleaseFlight(h)
             case _ => false
    ensures Enabled(s, step) && Harmless(s, step, key) && Rank(Next(s, step), key, f) < Rank(s, key, f)
  {
    hide Rank;
    OwnMoves(s, key, f, h, step);
    RankFalls(s, Next(s, step), key, f, h);
  }

  /** What counts for the rank after one of the holder's own steps. */
  ghost predicate Lower(s: State, after: State, key: string, f: nat, h: Tid)
    requires h in s.threads && s.threads[h].Call?
  {
    && (s.threads[h].phase != Write ==> after.shared == s.shared)
    && (s.threads[h].phase in {Get2, Pop} ==> after.global.None?)
    && (s.threads[h].phase !in {Get2, Pop} ==> after.global == s.global)
    && (if s.threads[h].phase == Release then f !in after.holder
        else f in after.holder && after.holder[f] == h && h in after.threads && after.threads[h].Call?
             && after.threads[h].phase == (match s.threads[h].phase case Shared => Load case Get2 => Shared case Pop => Release case _ => Pop))
  }

  lemma OwnMoves(s: State, key: string, f: nat, h: Tid, step: Step)
    requires Uncommitted(s, key) && OnLock(s, h, key, f) && f in s.holder && s.holder[f] == h
    requires s.threads[h].phase == Shared ==> key !in s.shared
    requires s.threads[h].phase in {Get2, Pop} ==> s.threads[h].critical
    requires match s.threads[h].phase
             case Shared => step == ReadShared(h)
             case Get2 => step == LookUp(h, s.now)
             case Pop => step == PopMarker(h)
             case Write => step == WriteShared(h)
             case Release => step == ReleaseFlight(h)
             case _ => false
    ensures Enabled(s, step) && Harmless(s, step, key) && Lower(s, Next(s, step), key, f, h)
  {
    hide Next, Enabled;
    match s.threads[h].phase
    case Shared =>
      OutsideLock(s, h);
      SharedMissStep(s, h);
    case Get2 => MissStep(s, h);
    case Pop => PopAnyStep(s, h);
    case Write =>
      OutsideLock(s, h);
      WriteStep(s, h);
    case _ =>
      OutsideLock(s, h);
      ReleaseStep(s, h);
  }

  /** Only the phases that need the dictionary lock are inside it. */
  lemma OutsideLock(s: State, t: Tid)
    requires LockInv(s) && t in s.threads && s.threads[t].Call? && !NeedsGlobal(s.threads[t].phase)
    ensures !s.threads[t].critical
  {
  }

  lemma PopAnyStep(s: State, t: Tid)
    requires Calls(s, t, Pop, true)
    ensures Enabled(s, PopMarker(t))
    ensures Next(s, PopMarker(t)) ==
            s.(nextRef := s.nextRef + 1, global := None, inflight := InflightAfter(s, PopMarker(t)),
               threads := s.threads[t := s.threads[t].(phase := Release, critical := false)])
  {
  }

  lemma RankFalls(s: State, after: State, key: string, f: nat, h: Tid)
    requires OnLock(s, h, key, f) && f in s.holder && s.holder[f] == h && Lower(s, after, key, f, h)
    requires s.threads[h].phase in {Shared, Get2, Pop, Write, Release} && (s.threads[h].phase in {Get2, Pop} ==> s.threads[h].critical)
    ensures Rank(after, key, f) < Rank(s, key, f)
  {
  }

  /** Runs one lock to its load, leaving every other lock as far as it was. */
  lemma Drive(s: State, key: string, f: nat) returns (steps: seq<Step>, last: State)
    requires Uncommitted(s, key) && Viable(s, key, f)
    ensures QuietlyReaches(s, steps, last, key) && Uncommitted(last, key) && Keeps(s, last, key) && LoadingOn(last, key, f)
    decreases Rank(s, key, f)
  {
    hide Next, Enabled, Harmless, Uncommitted, Viable, Keeps, LoadingOn, Rank, Quiet;
    if LoadingOn(s, key, f) {
      steps, last := [], s;
      KeepsSame(s, key);
    } else {
      var step := Advance(s, key, f);
      HarmlessKeeps(s, step, key);
      ViableAfter(s, Next(s, step), key, f);
      var rest;
      rest, last := Drive(Next(s, step), key, f);
      steps := [step] + rest;
      assert steps[1..] == rest;
      KeepsThrough(s, Next(s, step), last, key);
    }
  }

  lemma ViableAfter(s: State, after: State, key: string, f: nat)
    requires Keeps(s, after, key) && Viable(s, key, f)
    ensures Viable(after, key, f)
  {
  }

  lemma {:induction false} QuietlyThrough(s: State, first: seq<Step>, mid: State, second: seq<Step>, last: State, key: string)
    requires QuietlyReaches(s, first, mid, key) && QuietlyReaches(mid, second, last, key)
    ensures QuietlyReaches(s, first + second, last, key)
    decreases |first|
  {
    hide Enabled, Next, Quiet;
    if first == [] {
      assert first + second == second;
    } else {
      QuietlyThrough(Next(s, first[0]), first[1..], mid, second, last, key);
      assert (first + second)[0] == first[0] && (first + second)[1..] == first[1..] + second;
    }
  }

  /** Two viable locks end in two loads at once. */
  lemma BothLocksLoad(s: State, key: string, f: nat, g: nat) returns (steps: seq<Step>, last: State)
    requires Uncommitted(s, key) && f != g && Viable(s, key, f) && Viable(s, key, g)
    ensures QuietlyReaches(s, steps, last, key) && TwoLoads(last, key)
  {
    hide Uncommitted, Viable, QuietlyReaches;
    var first, mid := Drive(s, key, f);
    ViableAfter(s, mid, key, g);
    var second;
    second, last := Drive(mid, key, g);
    steps := first + second;
    QuietlyThrough(s, first, mid, second, last, key);
    var t :| Loading(mid, t, key) && mid.threads[t].flight == f;
    var u :| Loading(last, u, key) && last.threads[u].flight == g;
    assert Loading(last, t, key) && t != u;
  }

  // ---- Bringing a newcomer to a lock ----

  /** A quiet way from one state to another that keeps what was viable. */
  ghost predicate Way(s: State, steps: seq<Step>, last: State, key: string) {
    QuietlyReaches(s, steps, last, key) && Uncommitted(last, key) && Keeps(s, last, key)
  }

  lemma NoWay(s: State, key: string)
    requires Uncommitted(s, key)
    ensures Way(s, [], s, key)
  {
  }

  lemma OneQuietStep(s: State, step: Step, key: string)
    requires Enabled(s, step) && Quiet(s, step, key)
    ensures QuietlyReaches(s, [step], Next(s, step), key)
  {
    assert QuietlyReaches(Next(s, step), [], Next(s, step), key);
    assert [step][1..] == [];
  }

  lemma Onward(s: State, steps: seq<Step>, mid: State, step: Step, key: string)
    requires Way(s, steps, mid, key) && Enabled(mid, step) && Harmless(mid, step, key)
    ensures Way(s, steps + [step], Next(mid, step), key)
  {
    hide Next, Enabled, Harmless, Uncommitted, Keeps, QuietlyReaches, Quiet;
    HarmlessKeeps(mid, step, key);
    OneQuietStep(mid, step, key);
    QuietlyThrough(s, steps, mid, [step], Next(mid, step), key);
    KeepsThrough(s, mid, Next(mid, step), key);
  }

  /** Threads and locks as they were, but for those of the threads that stepped. */
  ghost predicate Aside(s: State, after: State, moved: set<Tid>) {
    && (forall t :: t in s.threads && t !in moved ==> t in after.threads && after.threads[t] == s.threads[t])
    && (forall f :: f in s.holder && s.holder[f] !in moved ==> f in after.holder && after.holder[f] == s.holder[f])
  }

  lemma StepAside(s: State, step: Step)
    requires HolderInv(s) && Enabled(s, step) && ByThread(step)
    ensures Aside(s, Next(s, step), {step.t})
  {
    hide Next, Enabled;
    forall t | t in s.threads && t != step.t ensures t in Next(s, step).threads && Next(s, step).threads[t] == s.threads[t] {
      OthersStay(s, step, t);
    }
    forall f | f in s.holder && s.holder[f] != step.t ensures f in Next(s, step).holder && Next(s, step).holder[f] == s.holder[f] {
      UntouchedLock(s, step, f);
    }
  }

  lemma AsideThrough(s: State, mid: State, after: State, moved: set<Tid>)
    requires Aside(s, mid, moved) && Aside(mid, after, moved)
    ensures Aside(s, after, moved)
  {
  }

  lemma AsideMore(s: State, after: State, moved: set<Tid>, more: set<Tid>)
    requires Aside(s, after, moved) && moved <= more
    ensures Aside(s, after, more)
  {
  }

  function Inside(s: State): set<Tid> {
    if s.global.Some? then {s.global.value} else {}
  }

  lemma Clear(s: State, key: string) returns (steps: seq<Step>, last: State)
    requires Uncommitted(s, key)
    ensures Way(s, steps, last, key) && last.global.None? && last.now == s.now && Aside(s, last, Inside(s))
    ensures forall f :: Named(s, key, f) && f in s.holder && s.holder[f] !in Inside(s) ==> Named(last, key, f)
  {
    hide Way, Next, Enabled, Harmless;
    NoWay(s, key);
    if s.global.None? {
      steps, last := [], s;
    } else {
      var step := Exit(s, key);
      Onward(s, [], s, step, key);
      StepAside(s, step);
      steps, last := [] + [step], Next(s, step);
      forall f | Named(s, key, f) && f in s.holder && s.holder[f] != s.global.value ensures Named(last, key, f) {
        NameKept(s, step, key, f);
      }
    }
  }

  lemma NameKept(s: State, step: Step, key: string, f: nat)
    requires LockInv(s) && Enabled(s, step) && ByThread(step) && Named(s, key, f) && f in s.holder && s.holder[f] != step.t
    ensures Named(Next(s, step), key, f)
  {
    MarkerMoves(s, step, key);
    if key !in Next(s, step).inflight {
      OnlyTheOwnMarkerIsRemoved(s, step, key);
    }
  }

  lemma JoinStep(s: State, t: Tid)
    requires Calls(s, t, Mark, true) && s.threads[t].key in s.inflight
    ensures Enabled(s, MarkFlight(t))
    ensures Next(s, MarkFlight(t)) ==
            s.(nextRef := s.nextRef + 1, global := None,
               threads := s.threads[t := s.threads[t].(phase := Wait, critical := false, flight := s.inflight[s.threads[t].key])])
  {
  }

  /** An idle thread comes to wait on the lock the table names, or on a new one. */
  lemma Join(s: State, key: string, i: Tid) returns (steps: seq<Step>, last: State, f: nat)
    requires Uncommitted(s, key) && SlotOpen(s, key) && i in s.threads && s.threads[i].Idle?
    ensures Way(s, steps, last, key) && Named(last, key, f) && OnLock(last, i, key, f) && last.threads[i].phase == Wait
    ensures Viable(last, key, f) && Aside(s, last, Inside(s) + {i})
    ensures forall g :: Named(s, key, g) && g in s.holder && s.holder[g] !in Inside(s) ==> f == g
  {
    hide Way, Next, Enabled, Aside, Viable, Keeps, SlotOpen;
    var clear, s1 := Clear(s, key);
    IdleIsOutside(s, key, i);
    IdleStays(s, s1, i, Inside(s));
    AsideMore(s, s1, Inside(s), Inside(s) + {i});
    UncommittedOf(s, clear, s1, key);
    var arrive, s5;
    arrive, s5 := Arrive(s1, key, i);
    AsideMore(s1, s5, {i}, Inside(s) + {i});
    AsideThrough(s, s1, s5, Inside(s) + {i});
    WayThrough(s, clear, s1, arrive, s5, key);
    var step := MarkFlight(i);
    if key in s5.inflight {
      JoinStep(s5, i);
    } else {
      MarkStep(s5, i);
    }
    assert Harmless(s5, step, key);
    Onward(s, clear + arrive, s5, step, key);
    UncommittedOf(s, clear + arrive, s5, key);
    StepAside(s5, step);
    steps, last := clear + arrive + [step], Next(s5, step);
    AsideMore(s5, last, {i}, Inside(s) + {i});
    AsideThrough(s, s5, last, Inside(s) + {i});
    f := last.inflight[key];
    JoinedIsViable(s, steps, last, key, i, f);
  }

  lemma IdleIsOutside(s: State, key: string, i: Tid)
    requires Uncommitted(s, key) && i in s.threads && s.threads[i].Idle?
    ensures i !in Inside(s)
  {
  }

  lemma IdleStays(s: State, after: State, i: Tid, moved: set<Tid>)
    requires Aside(s, after, moved) && i in s.threads && s.threads[i].Idle? && i !in moved
    ensures i in after.threads && after.threads[i].Idle?
  {
  }

  lemma UncommittedOf(s: State, steps: seq<Step>, last: State, key: string)
    requires Way(s, steps, last, key)
    ensures Uncommitted(last, key)
  {
  }

  lemma WayThrough(s: State, first: seq<Step>, mid: State, second: seq<Step>, last: State, key: string)
    requires Way(s, first, mid, key) && Way(mid, second, last, key)
    ensures Way(s, first + second, last, key)
  {
    hide Uncommitted, Keeps, QuietlyReaches;
    QuietlyThrough(s, first, mid, second, last, key);
    KeepsThrough(s, mid, last, key);
  }

  lemma JoinedIsViable(s: State, steps: seq<Step>, last: State, key: string, i: Tid, f: nat)
    requires Way(s, steps, last, key) && SlotOpen(s, key) && OnLock(last, i, key, f) && last.threads[i].phase == Wait && Named(last, key, f)
    ensures Viable(last, key, f)
  {
  }

  /** From an idle thread to the dictionary lock with nothing found. */
  lemma Arrive(s: State, key: string, i: Tid) returns (steps: seq<Step>, last: State)
    requires Uncommitted(s, key) && s.global.None? && i in s.threads && s.threads[i].Idle?
    ensures Way(s, steps, last, key) && Aside(s, last, {i}) && Calls(last, i, Mark, true) && On(last, i, key)
    ensures last.inflight == s.inflight && last.flights == s.flights
  {
    hide Way, Next, Enabled, Uncommitted;
    NoWay(s, key);
    StartStep(s, i, key, 1.0);
    Onward(s, [], s, Start(i, key, 1.0), key);
    var s2 := Next(s, Start(i, key, 1.0));
    EnterStep(s2, i);
    Onward(s, [] + [Start(i, key, 1.0)], s2, Enter(i), key);
    var s3 := Next(s2, Enter(i));
    UncommittedOf(s, [] + [Start(i, key, 1.0)] + [Enter(i)], s3, key);
    NotCached(s3, key);
    MissStep(s3, i);
    Onward(s, [] + [Start(i, key, 1.0)] + [Enter(i)], s3, LookUp(i, s3.now), key);
    var s4 := Next(s3, LookUp(i, s3.now));
    EnterStep(s4, i);
    steps := [] + [Start(i, key, 1.0)] + [Enter(i)] + [LookUp(i, s3.now)];
    Onward(s, steps, s4, Enter(i), key);
    steps, last := steps + [Enter(i)], Next(s4, Enter(i));
  }

  lemma NotCached(s: State, key: string)
    requires Uncommitted(s, key)
    ensures key !in s.cache
  {
  }

  // ---- Sufficiency ----

  lemma WayIsQuiet(s: State, first: seq<Step>, mid: State, second: seq<Step>, last: State, key: string)
    requires Way(s, first, mid, key) && QuietlyReaches(mid, second, last, key)
    ensures QuietlyReaches(s, first + second, last, key)
  {
    hide Uncommitted, Keeps, QuietlyReaches;
    QuietlyThrough(s, first, mid, second, last, key);
  }

  /** A stray lock and a newcomer's, or two stray locks. */
  lemma StrayLoads(s: State, key: string, i: Tid) returns (steps: seq<Step>, last: State)
    requires Uncommitted(s, key) && Stray(s, key) && i in s.threads && s.threads[i].Idle?
    ensures QuietlyReaches(s, steps, last, key) && TwoLoads(last, key)
  {
    hide Uncommitted, Viable, Way, QuietlyReaches, TwoLoads, SlotOpen, Aside;
    var f :| Viable(s, key, f) && !Named(s, key, f) && (SlotOpen(s, key) || AnotherStray(s, key, f));
    if SlotOpen(s, key) {
      var first, mid, g := Join(s, key, i);
      StrayStays(s, first, mid, key, f);
      var second;
      second, last := BothLocksLoad(mid, key, f, g);
      steps := first + second;
      WayIsQuiet(s, first, mid, second, last, key);
    } else {
      var g :| g != f && Viable(s, key, g) && !Named(s, key, g);
      steps, last := BothLocksLoad(s, key, f, g);
    }
  }

  lemma StrayStays(s: State, steps: seq<Step>, last: State, key: string, f: nat)
    requires Way(s, steps, last, key) && Uncommitted(s, key) && Viable(s, key, f) && !Named(s, key, f)
    ensures Uncommitted(last, key) && Viable(last, key, f) && !Named(last, key, f)
  {
    var t :| OnLock(s, t, key, f) && Heading(s.threads[t].phase);
    assert f < |s.flights|;
  }

  /** The holder of the named lock drops its marker while someone waits, and comes back as a newcomer. */
  lemma BreakingLoads(s: State, key: string, i: Tid) returns (steps: seq<Step>, last: State)
    requires Uncommitted(s, key) && Breaking(s, key) && i in s.threads && s.threads[i].Idle?
    ensures QuietlyReaches(s, steps, last, key) && TwoLoads(last, key)
  {
    hide Uncommitted, Way, QuietlyReaches, TwoLoads, Breaks, Aside, Stray;
    var w :| Breaks(s, key, w);
    var first, mid := Waited(s, key, w, i);
    UncommittedOf(s, first, mid, key);
    var second, end := Broken(mid, key, w);
    UncommittedOf(mid, second, end, key);
    WayThrough(s, first, mid, second, end, key);
    var third;
    third, last := StrayLoads(end, key, w);
    steps := first + second + third;
    WayIsQuiet(s, first + second, end, third, last, key);
  }

  /** Someone waits on the lock that is about to lose its name, the idle thread if nobody else does. */
  lemma Waited(s: State, key: string, w: Tid, i: Tid) returns (steps: seq<Step>, last: State)
    requires Uncommitted(s, key) && Breaks(s, key, w) && i in s.threads && s.threads[i].Idle?
    ensures Way(s, steps, last, key) && Breaks(last, key, w) && WaitedFor(last, key, last.threads[w].flight)
  {
    hide Way, Keeps;
    var f := s.threads[w].flight;
    if WaitedFor(s, key, f) {
      NoWay(s, key);
      steps, last := [], s;
    } else {
      var g;
      NotInside(s, key, w);
      steps, last, g := Join(s, key, i);
      assert last.threads[w] == s.threads[w] && g == f;
      assert OnLock(last, i, key, f);
    }
  }

  lemma NotInside(s: State, key: string, w: Tid)
    requires Uncommitted(s, key) && Breaks(s, key, w) && !WaitedFor(s, key, s.threads[w].flight)
    ensures w !in Inside(s) && SlotOpen(s, key)
  {
  }

  /** The holder finishes: its marker gone, its waiter left on a lock without a name, itself idle. */
  lemma Broken(s: State, key: string, w: Tid) returns (steps: seq<Step>, last: State)
    requires Uncommitted(s, key) && Breaks(s, key, w) && WaitedFor(s, key, s.threads[w].flight)
    ensures Way(s, steps, last, key) && Stray(last, key) && w in last.threads && last.threads[w].Idle?
  {
    hide Way, Next, Enabled, Keeps, Stray, Uncommitted;
    var f := s.threads[w].flight;
    var wait, s1 := ToPop(s, key, w);
    UncommittedOf(s, wait, s1, key);
    PopStep(s1, w);
    assert Harmless(s1, PopMarker(w), key);
    Onward(s, wait, s1, PopMarker(w), key);
    var s2 := Next(s1, PopMarker(w));
    ReleaseStep(s2, w);
    assert Harmless(s2, ReleaseFlight(w), key);
    Onward(s, wait + [PopMarker(w)], s2, ReleaseFlight(w), key);
    steps, last := wait + [PopMarker(w)] + [ReleaseFlight(w)], Next(s2, ReleaseFlight(w));
    var t :| OnLock(s1, t, key, f) && s1.threads[t].phase == Wait;
    StrayWaiter(last, key, f, t);
  }

  lemma StrayWaiter(s: State, key: string, f: nat, t: Tid)
    requires OnLock(s, t, key, f) && s.threads[t].phase == Wait && f !in s.holder && key !in s.inflight
    ensures Stray(s, key)
  {
    assert Viable(s, key, f);
  }

  /** The holder gets inside the dictionary lock to remove its marker. */
  lemma ToPop(s: State, key: string, w: Tid) returns (steps: seq<Step>, last: State)
    requires Uncommitted(s, key) && Breaks(s, key, w) && WaitedFor(s, key, s.threads[w].flight)
    ensures Way(s, steps, last, key) && Calls(last, w, Pop, true) && On(last, w, key)
    ensures last.threads[w].flight == s.threads[w].flight && Named(last, key, s.threads[w].flight)
    ensures last.holder[s.threads[w].flight := w] == last.holder && WaitedFor(last, key, s.threads[w].flight)
  {
    hide Way, Next, Enabled, Keeps, Uncommitted;
    var f := s.threads[w].flight;
    NoWay(s, key);
    var first, s1 := [], s;
    if s.threads[w].phase == Write {
      WritesOutside(s, key, w);
      WriteStep(s, w);
      Onward(s, [], s, WriteShared(w), key);
      first, s1 := [] + [WriteShared(w)], Next(s, WriteShared(w));
      UncommittedOf(s, first, s1, key);
      var t :| OnLock(s, t, key, f) && s.threads[t].phase == Wait;
      assert OnLock(s1, t, key, f);
    }
    if s1.threads[w].critical {
      steps, last := first, s1;
    } else {
      var clear, s2 := PastOthers(s1, key, w);
      WayThrough(s, first, s1, clear, s2, key);
      EnterStep(s2, w);
      assert Harmless(s2, Enter(w), key);
      Onward(s, first + clear, s2, Enter(w), key);
      steps, last := first + clear + [Enter(w)], Next(s2, Enter(w));
      var t :| OnLock(s2, t, key, f) && s2.threads[t].phase == Wait;
      assert OnLock(last, t, key, f);
    }
  }

  lemma WritesOutside(s: State, key: string, t: Tid)
    requires Uncommitted(s, key) && On(s, t, key) && s.threads[t].phase == Write
    ensures !s.threads[t].critical
  {
  }

  lemma WriteStep(s: State, t: Tid)
    requires Calls(s, t, Write, false)
    ensures Enabled(s, WriteShared(t))
    ensures Next(s, WriteShared(t)) ==
            s.(nextRef := s.nextRef + 1, threads := s.threads[t := s.threads[t].(phase := Pop)], shared := SharedAfter(s, WriteShared(t)))
  {
  }

  /** Whoever is inside the dictionary lock leaves it; the holder, its marker and its waiter stay. */
  lemma PastOthers(s: State, key: string, w: Tid) returns (steps: seq<Step>, last: State)
    requires Uncommitted(s, key) && On(s, w, key) && s.threads[w].phase == Pop && !s.threads[w].critical
    requires Named(s, key, s.threads[w].flight) && WaitedFor(s, key, s.threads[w].flight)
    ensures Way(s, steps, last, key) && last.global.None? && w in last.threads && last.threads[w] == s.threads[w]
    ensures Named(last, key, s.threads[w].flight) && WaitedFor(last, key, s.threads[w].flight)
    ensures s.threads[w].flight in last.holder && last.holder[s.threads[w].flight] == w
  {
    hide Way;
    var f := s.threads[w].flight;
    var t :| OnLock(s, t, key, f) && s.threads[t].phase == Wait;
    assert s.holder[f] == w && w !in Inside(s) && t !in Inside(s);
    steps, last := Clear(s, key);
    assert OnLock(last, t, key, f);
  }

  // ---- While a store is under way ----

  /** One thread past its second lookup gets to its load; every other stays as it is. */
  lemma LoadOne(s: State, key: string, t: Tid) returns (steps: seq<Step>, last: State)
    requires Ahead(s, t, key) && !s.threads[t].critical && key !in s.cache
    ensures QuietlyReaches(s, steps, last, key) && key !in last.cache && Loading(last, t, key)
    ensures last.threads == s.threads[t := last.threads[t]]
  {
    hide Next, Enabled;
    if s.threads[t].phase == Load {
      steps, last := [], s;
      assert QuietlyReaches(s, [], s, key);
    } else {
      GoneFromShared(s, key);
      var s1 := Next(s, Evict(key));
      SharedMissStep(s1, t);
      last := Next(s1, ReadShared(t));
      OneQuietStep(s, Evict(key), key);
      OneQuietStep(s1, ReadShared(t), key);
      QuietlyThrough(s, [Evict(key)], s1, [ReadShared(t)], last, key);
      steps := [Evict(key)] + [ReadShared(t)];
    }
  }

  lemma GoneFromShared(s: State, key: string)
    ensures Enabled(s, Evict(key)) && Next(s, Evict(key)) == s.(nextRef := s.nextRef + 1, shared := s.shared - {key})
  {
  }

  lemma AheadLoads(s: State, key: string) returns (steps: seq<Step>, last: State)
    requires LockInv(s) && key !in s.cache && TwoAhead(s, key)
    ensures QuietlyReaches(s, steps, last, key) && TwoLoads(last, key)
  {
    hide QuietlyReaches;
    var t, u :| t != u && Ahead(s, t, key) && Ahead(s, u, key);
    var first, mid := LoadOne(s, key, t);
    var second;
    second, last := LoadOne(mid, key, u);
    steps := first + second;
    QuietlyThrough(s, first, mid, second, last, key);
    assert Loading(last, t, key) && Loading(last, u, key);
  }

  // ---- The theorem ----

  lemma OverlapIsReached(s: State, key: string, i: Tid) returns (steps: seq<Step>, last: State)
    requires LockInv(s) && TimeInv(s) && key !in s.cache && i in s.threads && s.threads[i].Idle? && Overlapping(s, key)
    ensures QuietlyReaches(s, steps, last, key) && TwoLoads(last, key)
  {
    hide LockInv, TimeInv, Stray, Breaking, QuietlyReaches, TwoLoads, TwoAhead;
    if Committed(s, key) {
      steps, last := AheadLoads(s, key);
    } else if Stray(s, key) {
      steps, last := StrayLoads(s, key, i);
    } else {
      steps, last := BreakingLoads(s, key, i);
    }
  }

  /**
   In any reachable state with the key not cached and a thread to spare: without any failed load or
   expired entry from here on, two threads can come to load the key at once if and only if the
   state is overlapping.
   */
  lemma LoadsOverlapExactly(start: State, before: seq<Step>, s: State, key: string, i: Tid)
    requires Initial(start) && Reaches(start, before, s) && key !in s.cache && i in s.threads && s.threads[i].Idle?
    ensures (exists steps, last :: QuietlyReaches(s, steps, last, key) && TwoLoads(last, key)) <==> Overlapping(s, key)
  {
    hide LockInv, TimeInv, RefInv, Overlapping, QuietlyReaches, TwoLoads, Reaches, Initial;
    ReachableStatesAreGood(start, before, s);
    if Overlapping(s, key) {
      var steps, last := OverlapIsReached(s, key, i);
    }
    if steps, last :| QuietlyReaches(s, steps, last, key) && TwoLoads(last, key) {
      OverlapAllTheWayBack(s, steps, last, key);
    }
  }

  // ---- Two ways from the start ----

  lemma {:induction false} QuietIsReaching(s: State, steps: seq<Step>, last: State, key: string)
    requires QuietlyReaches(s, steps, last, key)
    ensures Reaches(s, steps, last)
    decreases |steps|
  {
    hide Enabled, Next, Quiet;
    if steps != [] {
      QuietIsReaching(Next(s, steps[0]), steps[1..], last, key);
    }
  }

  /** From an empty cache: one load fails, and two threads end up loading the key at once. */
  lemma FailedLoadFromTheStart(start: State, t: Tid, i: Tid, key: string) returns (steps: seq<Step>, last: State)
    requires Initial(start) && t in start.threads && i in start.threads && t != i && key !in start.shared
    ensures Reaches(start, steps, last) && TwoLoads(last, key)
  {
    hide Next, Enabled, Reaches, LockInv, TimeInv, RefInv, QuietlyReaches, TwoLoads, Overlapping;
    StartIsFree(start);
    var s1 := NewcomerWaits(start, t, key, 1.0);
    var s2 := WaiterLoads(s1, t, key);
    FailStep(s2, t);
    var s3 := Next(s2, LoadFail(t));
    NoSteps(s3);
    OneMore(s2, [LoadFail(t)], [], s3);
    var p1 := [Start(t, key, 1.0), Enter(t), LookUp(t, start.now), Enter(t), MarkFlight(t)];
    var p2 := [Acquire(t), Enter(t), LookUp(t, s1.now), ReadShared(t)];
    ReachesThrough(start, p1, s1, p2, s2);
    ReachesThrough(start, p1 + p2, s2, [LoadFail(t)], s3);
    var first := p1 + p2 + [LoadFail(t)];
    ReachableStatesAreGood(start, first, s3);
    FailedHolderBreaks(s3, key, t);
    var second;
    second, last := OverlapIsReached(s3, key, i);
    QuietIsReaching(s3, second, last, key);
    ReachesThrough(start, first, s3, second, last);
    steps := first + second;
  }

  lemma StartIsFree(s: State)
    requires Initial(s)
    ensures s.global.None? && s.cache == map[] && s.inflight == map[] && s.holder == map[] && s.flights == []
    ensures forall t :: t in s.threads ==> s.threads[t].Idle?
  {
  }

  lemma FailedHolderBreaks(s: State, key: string, t: Tid)
    requires On(s, t, key) && s.threads[t].phase == Pop && !s.threads[t].critical && key !in s.cache
    requires Named(s, key, s.threads[t].flight) && s.threads[t].flight in s.holder && s.holder[s.threads[t].flight] == t
    requires LockInv(s) && s.global.None?
    ensures Overlapping(s, key)
  {
    assert Breaks(s, key, t);
  }

  // ---- The expired entry ----

  /** A second caller joins the lock the first one named. */
  lemma SecondWaits(s: State, i: Tid, key: string) returns (last: State)
    requires i in s.threads && s.threads[i].Idle? && s.global.None? && Missing(s, key, 1.0) && key in s.inflight
    ensures Reaches(s, [Start(i, key, 1.0), Enter(i), LookUp(i, s.now), Enter(i), MarkFlight(i)], last)
    ensures SameBackground(s, last) && i in last.threads && last.threads == s.threads[i := last.threads[i]] && last.holder == s.holder
    ensures last.inflight == s.inflight && last.flights == s.flights
    ensures OnLock(last, i, key, s.inflight[key]) && Calls(last, i, Wait, false) && last.threads[i].ttl == 1.0 && last.threads[i].since == s.now
  {
    hide Reaches, Next, Enabled, HoldsFlight;
    var mid := ComesToMark(s, i, key, 1.0);
    JoinStep(mid, i);
    last := Next(mid, MarkFlight(i));
    NoSteps(last);
    OneMore(mid, [MarkFlight(i)], [], last);
    ReachesThrough(s, [Start(i, key, 1.0), Enter(i), LookUp(i, s.now), Enter(i)], mid, [MarkFlight(i)], last);
    assert [Start(i, key, 1.0), Enter(i), LookUp(i, s.now), Enter(i)] + [MarkFlight(i)] ==
           [Start(i, key, 1.0), Enter(i), LookUp(i, s.now), Enter(i), MarkFlight(i)];
  }

  /** What publishing and letting two seconds pass comes to. */
  lemma StoreSteps(s: State, t: Tid, key: string) returns (last: State)
    requires Loading(s, t, key) && s.global.None? && s.threads[t].ttl == 1.0
    ensures Reaches(s, [LoadOk(t), Enter(t), Store(t), WriteShared(t), Tick(2.0)], last)
    ensures Missing(last, key, 1.0) && last.global.None? && t in last.threads && last.threads == s.threads[t := last.threads[t]]
    ensures On(last, t, key) && Calls(last, t, Pop, false) && last.threads[t].flight == s.threads[t].flight
    ensures last.holder == s.holder && last.inflight == s.inflight && last.flights == s.flights && last.now == s.now + 2.0
  {
    hide Reaches, Next, Enabled, HoldsFlight;
    LoadOkStep(s, t);
    var s1 := Next(s, LoadOk(t));
    EnterStep(s1, t);
    var s2 := Next(s1, Enter(t));
    StoreStep(s2, t);
    var s3 := Next(s2, Store(t));
    WriteStep(s3, t);
    var s4 := Next(s3, WriteShared(t));
    TickStep(s4, 2.0);
    last := Next(s4, Tick(2.0));
    NoSteps(last);
    OneMore(s4, [Tick(2.0)], [], last);
    OneMore(s3, [WriteShared(t), Tick(2.0)], [Tick(2.0)], last);
    OneMore(s2, [Store(t), WriteShared(t), Tick(2.0)], [WriteShared(t), Tick(2.0)], last);
    OneMore(s1, [Enter(t), Store(t), WriteShared(t), Tick(2.0)], [Store(t), WriteShared(t), Tick(2.0)], last);
    OneMore(s, [LoadOk(t), Enter(t), Store(t), WriteShared(t), Tick(2.0)], [Enter(t), Store(t), WriteShared(t), Tick(2.0)], last);
  }

  lemma LoadOkStep(s: State, t: Tid)
    requires Calls(s, t, Load, false)
    ensures Enabled(s, LoadOk(t))
    ensures var next := Next(s, LoadOk(t));
            && next == s.(nextRef := s.nextRef + 1, threads := s.threads[t := next.threads[t]])
            && Calls(next, t, Put, false) && next.threads[t].loaded && next.threads[t].key == s.threads[t].key
            && next.threads[t].flight == s.threads[t].flight && next.threads[t].ttl == s.threads[t].ttl
  {
  }

  lemma StoreStep(s: State, t: Tid)
    requires Calls(s, t, Put, true) && s.threads[t].loaded && s.threads[t].ttl > 0.0
    ensures Enabled(s, Store(t))
    ensures var next := Next(s, Store(t)); var key := s.threads[t].key;
            && next == s.(nextRef := s.nextRef + 1, global := None, cache := next.cache, lastPrune := next.lastPrune,
                          threads := s.threads[t := s.threads[t].(phase := Write, critical := false)])
            && key in next.cache && next.cache[key].stored == s.now
  {
    StoredIsOldOrNew(s.cache, s.lastPrune, s.threads[t].key, NewEntry(s, t));
    EntryStays(s.cache, s.lastPrune, s.threads[t].key, NewEntry(s, t));
  }

  lemma EntryStays(cache: Cache, lastPrune: real, key: string, entry: Entry)
    requires entry.ttl > 0.0
    ensures var after := Stored(cache, lastPrune, key, entry); key in after && after[key] == entry
  {
  }

  lemma TickStep(s: State, dt: real)
    requires dt >= 0.0
    ensures Enabled(s, Tick(dt)) && Next(s, Tick(dt)) == s.(nextRef := s.nextRef + 1, now := s.now + dt)
  {
  }

  /** The first caller takes its marker away and returns. */
  lemma Leaves(s: State, t: Tid, key: string) returns (last: State)
    requires On(s, t, key) && Calls(s, t, Pop, false) && s.global.None? && Named(s, key, s.threads[t].flight)
    ensures Reaches(s, [Enter(t), PopMarker(t), ReleaseFlight(t)], last)
    ensures SameBackground(s, last) && last.threads == s.threads[t := Idle] && last.flights == s.flights
    ensures last.holder == s.holder - {s.threads[t].flight} && last.inflight == s.inflight - {key}
  {
    hide Reaches, Next, Enabled;
    EnterStep(s, t);
    var s1 := Next(s, Enter(t));
    PopStep(s1, t);
    var s2 := Next(s1, PopMarker(t));
    ReleaseStep(s2, t);
    last := Next(s2, ReleaseFlight(t));
    NoSteps(last);
    OneMore(s2, [ReleaseFlight(t)], [], last);
    OneMore(s1, [PopMarker(t), ReleaseFlight(t)], [ReleaseFlight(t)], last);
    OneMore(s, [Enter(t), PopMarker(t), ReleaseFlight(t)], [PopMarker(t), ReleaseFlight(t)], last);
  }

  predicate NoFailure(steps: seq<Step>) {
    forall step :: step in steps ==> !step.LoadFail?
  }

  /** One caller comes to load while another waits on its lock. */
  lemma OneLoadsOneWaits(start: State, t: Tid, i: Tid, key: string) returns (steps: seq<Step>, last: State)
    requires Initial(start) && t in start.threads && i in start.threads && t != i && key !in start.shared
    ensures Reaches(start, steps, last) && NoFailure(steps) && last.global.None? && last.holder == map[0 := t]
    ensures last.inflight == map[key := 0] && last.flights == [key] && last.now == start.now
    ensures Loading(last, t, key) && last.threads[t].flight == 0 && last.threads[t].ttl == 1.0
    ensures OnLock(last, i, key, 0) && Calls(last, i, Wait, false) && last.threads[i].ttl == 1.0 && last.threads[i].since == last.now
  {
    hide Next, Enabled, Reaches;
    StartIsFree(start);
    var s1 := NewcomerWaits(start, t, key, 1.0);
    var s2 := SecondWaits(s1, i, key);
    last := WaiterLoads(s2, t, key);
    var p1 := [Start(t, key, 1.0), Enter(t), LookUp(t, start.now), Enter(t), MarkFlight(t)];
    var p2 := [Start(i, key, 1.0), Enter(i), LookUp(i, s1.now), Enter(i), MarkFlight(i)];
    var p3 := [Acquire(t), Enter(t), LookUp(t, s2.now), ReadShared(t)];
    ReachesThrough(start, p1, s1, p2, s2);
    ReachesThrough(start, p1 + p2, s2, p3, last);
    steps := p1 + p2 + p3;
  }

  /** The loader stores and leaves while the other still waits, and the entry expires. */
  lemma EntryExpires(start: State, t: Tid, i: Tid, key: string) returns (steps: seq<Step>, last: State)
    requires Initial(start) && t in start.threads && i in start.threads && t != i && key !in start.shared
    ensures Reaches(start, steps, last) && NoFailure(steps)
    ensures Missing(last, key, 1.0) && last.global.None? && last.holder == map[] && last.inflight == map[] && last.flights == [key]
    ensures OnLock(last, i, key, 0) && Calls(last, i, Wait, false) && last.threads[i].ttl == 1.0 && last.threads[i].since <= last.now
    ensures t in last.threads && last.threads[t].Idle?
  {
    hide Next, Enabled, Reaches, Initial;
    var first, s3 := OneLoadsOneWaits(start, t, i, key);
    var s4 := StoreSteps(s3, t, key);
    last := Leaves(s4, t, key);
    var p4 := [LoadOk(t), Enter(t), Store(t), WriteShared(t), Tick(2.0)];
    var p5 := [Enter(t), PopMarker(t), ReleaseFlight(t)];
    ReachesThrough(start, first, s3, p4, s4);
    ReachesThrough(start, first + p4, s4, p5, last);
    steps := first + p4 + p5;
  }

  /** The waiter on the old lock and a newcomer on a fresh one both miss, and both load. */
  lemma BothMiss(s: State, t: Tid, i: Tid, key: string) returns (steps: seq<Step>, last: State)
    requires Missing(s, key, 1.0) && s.global.None? && s.holder == map[] && s.inflight == map[] && s.flights == [key]
    requires OnLock(s, i, key, 0) && Calls(s, i, Wait, false) && s.threads[i].ttl == 1.0 && s.threads[i].since <= s.now
    requires t in s.threads && s.threads[t].Idle?
    ensures Reaches(s, steps, last) && NoFailure(steps) && TwoLoads(last, key)
  {
    hide Next, Enabled, Reaches, TwoLoads;
    var s1 := WaiterLoads(s, i, key);
    var s2 := NewcomerWaits(s1, t, key, 1.0);
    last := WaiterLoads(s2, t, key);
    var p1 := [Acquire(i), Enter(i), LookUp(i, s.now), ReadShared(i)];
    var p2 := [Start(t, key, 1.0), Enter(t), LookUp(t, s1.now), Enter(t), MarkFlight(t)];
    var p3 := [Acquire(t), Enter(t), LookUp(t, s2.now), ReadShared(t)];
    ReachesThrough(s, p1, s1, p2, s2);
    ReachesThrough(s, p1 + p2, s2, p3, last);
    steps := p1 + p2 + p3;
    BothLoad(last, t, i, key);
  }

  /**
   From an empty cache, no load failing: the entry is met expired by a thread that waited for it
   on the old lock and by a newcomer on a fresh one, and both load.
   */
  lemma ExpiredEntryFromTheStart(start: State, t: Tid, i: Tid, key: string) returns (steps: seq<Step>, last: State)
    requires Initial(start) && t in start.threads && i in start.threads && t != i && key !in start.shared
    ensures Reaches(start, steps, last) && NoFailure(steps) && TwoLoads(last, key)
  {
    hide Reaches, TwoLoads, Missing;
    var first, mid := EntryExpires(start, t, i, key);
    var second;
    second, last := BothMiss(mid, t, i, key);
    ReachesThrough(start, first, mid, second, last);
    steps := first + second;
  }

  lemma BothLoad(s: State, t: Tid, i: Tid, key: string)
    requires t != i && Loading(s, t, key) && Loading(s, i, key)
    ensures TwoLoads(s, key)
  {
  }
}
