/**
 The cache of connection pools. Every miss in `getConnection` makes one abort controller, whose index names
 the attempt; `fallBackHandler` is awaited, so attempts for one key can overlap. Once its pool is cached the
 manager listens to the controller, and an abort cleans up whatever is cached under the key by then.

 `slots` are the entries of the JavaScript `Map` in insertion order; a deletion leaves a hole, and iterating
 while deleting goes through the slots. Listeners that a handler adds itself do not call the manager.
 */
module ConnectionPool {
  import opened Wrappers

  type Key = string

  const TTL := 300000
  const CLEAN_UP_INTERVAL := 60000

  datatype Registration = Registration(pool: nat, controller: nat, lastUsed: int)

  datatype Controller = Controller(key: Key, aborted: bool, listening: bool)

  datatype Manager = Manager(registered: map<Key, Registration>, slots: seq<Option<Key>>, controllers: seq<Controller>)

  const EMPTY := Manager(map[], [], [])

  // ---------------------------------------------------------------- the map

  function Punch(slots: seq<Option<Key>>, keys: set<Key>): seq<Option<Key>> {
    seq(|slots|, i requires 0 <= i < |slots| => if slots[i].Some? && slots[i].value in keys then None else slots[i])
  }

  function Set(m: Manager, key: Key, registration: Registration): Manager {
    m.(registered := m.registered[key := registration],
       slots := if key in m.registered then m.slots else m.slots + [Some(key)])
  }

  function Delete(m: Manager, key: Key): Manager {
    m.(registered := m.registered - {key}, slots := Punch(m.slots, {key}))
  }

  /** The slots hold exactly the keys of the map, each once. */
  ghost predicate SlotsOk(m: Manager) {
    && (forall i :: 0 <= i < |m.slots| && m.slots[i].Some? ==> m.slots[i].value in m.registered)
    && (forall key :: key in m.registered ==> Some(key) in m.slots)
    && (forall i, j :: 0 <= i < j < |m.slots| && m.slots[i].Some? ==> m.slots[i] != m.slots[j])
  }

  // ---------------------------------------------------------------- the steps

  /** An abort sets the flag and then runs the listener, which may abort another controller. */
  function Abort(m: Manager, c: nat): (m': Manager)
    ensures |m'.controllers| == |m.controllers|
    decreases |m.registered|, 1
  {
    if c >= |m.controllers| || m.controllers[c].aborted then m
    else
      var m1 := m.(controllers := m.controllers[c := m.controllers[c].(aborted := true)]);
      if m.controllers[c].listening then Cleanup(m1, m.controllers[c].key) else m1
  }

  /** `cleanupConnection`: the entry goes first, then its controller is aborted. */
  function Cleanup(m: Manager, key: Key): (m': Manager)
    ensures |m'.controllers| == |m.controllers|
    decreases |m.registered|, 0
  {
    if key !in m.registered then m
    else
      assert m.registered.Keys == Delete(m, key).registered.Keys + {key};
      Abort(Delete(m, key), m.registered[key].controller)
  }

  /** `getConnection` on a cached key. */
  function Touch(m: Manager, key: Key, now: int): Manager
    requires key in m.registered
  {
    m.(registered := m.registered[key := m.registered[key].(lastUsed := now)])
  }

  /** `getConnection` on a key that is not cached, up to the await. */
  function BeginCreate(m: Manager, key: Key): Manager {
    m.(controllers := m.controllers + [Controller(key, false, false)])
  }

  /** The rest of `getConnection`, once the handler of attempt `c` has made `pool`. */
  function FinishCreate(m: Manager, c: nat, pool: nat, now: int): Manager {
    if c >= |m.controllers| || m.controllers[c].listening || m.controllers[c].aborted then m
    else Set(m, m.controllers[c].key, Registration(pool, c, now))
         .(controllers := m.controllers[c := m.controllers[c].(listening := true)])
  }

  /** The entries under `keys` cleaned up, all at once. */
  function RemoveAll(m: Manager, keys: set<Key>): (m': Manager)
    ensures |m'.controllers| == |m.controllers| && |m'.slots| == |m.slots|
  {
    Manager(m.registered - keys, Punch(m.slots, keys),
            seq(|m.controllers|, c requires 0 <= c < |m.controllers| =>
              if m.controllers[c].key in keys && IsRegistered(m, c) then m.controllers[c].(aborted := true)
              else m.controllers[c]))
  }

  predicate IsRegistered(m: Manager, c: nat) {
    && c < |m.controllers|
    && m.controllers[c].key in m.registered && m.registered[m.controllers[c].key].controller == c
  }

  function Stale(m: Manager, now: int): set<Key> {
    set key | key in m.registered && now - m.registered[key].lastUsed > TTL
  }

  function Sweep(m: Manager, now: int): Manager { RemoveAll(m, Stale(m, now)) }

  function Purge(m: Manager): (m': Manager)
    ensures |m'.controllers| == |m.controllers|
  {
    RemoveAll(m, m.registered.Keys)
  }

  // ---------------------------------------------------------------- no aborted pool is ever cached

  /** Every cached registration belongs to a controller of its key that the manager listens to. */
  ghost predicate Linked(m: Manager) {
    forall key :: key in m.registered ==>
      && m.registered[key].controller < |m.controllers|
      && m.controllers[m.registered[key].controller].key == key
      && m.controllers[m.registered[key].controller].listening
  }

  ghost predicate Valid(m: Manager) {
    && SlotsOk(m) && Linked(m)
    && forall key :: key in m.registered ==> !m.controllers[m.registered[key].controller].aborted
  }

  function Flag(m: Manager, c: nat): Manager
    requires c < |m.controllers|
  {
    m.(controllers := m.controllers[c := m.controllers[c].(aborted := true)])
  }

  /** Cleaning up one key aborts its own controller, and the abort's listener finds nothing more to do. */
  lemma CleanupIsRemoval(m: Manager, key: Key)
    requires SlotsOk(m) && Linked(m)
    ensures Cleanup(m, key) == RemoveAll(m, {key})
  {
    if key in m.registered {
      var c := m.registered[key].controller;
      var m1 := Delete(m, key);
      assert Cleanup(Flag(m1, c), key) == Flag(m1, c);
      if m.controllers[c].aborted {
        assert Flag(m1, c).controllers == m1.controllers;
      } else {
        assert Abort(m1, c) == Cleanup(Flag(m1, c), key);
      }
      assert Flag(m1, c).controllers == RemoveAll(m, {key}).controllers;
    } else {
      assert Punch(m.slots, {key}) == m.slots;
      assert RemoveAll(m, {key}).controllers == m.controllers;
      assert m.registered - {key} == m.registered;
    }
  }

  /** An abort the manager listens to removes whatever is cached under the controller's key. */
  lemma AbortIsRemoval(m: Manager, c: nat)
    requires SlotsOk(m) && Linked(m) && c < |m.controllers| && !m.controllers[c].aborted
    ensures Abort(m, c) ==
      if m.controllers[c].listening then RemoveAll(Flag(m, c), {m.controllers[c].key}) else Flag(m, c)
  {
    if m.controllers[c].listening { CleanupIsRemoval(Flag(m, c), m.controllers[c].key); }
  }

  lemma RemovalSlots(m: Manager, keys: set<Key>)
    requires SlotsOk(m)
    ensures SlotsOk(RemoveAll(m, keys))
  {
    var m' := RemoveAll(m, keys);
    forall key | key in m'.registered ensures Some(key) in m'.slots {
      var i :| 0 <= i < |m.slots| && m.slots[i] == Some(key);
      assert m'.slots[i] == Some(key);
    }
    forall i, j | 0 <= i < j < |m'.slots| && m'.slots[i].Some? ensures m'.slots[i] != m'.slots[j] {
      assert m.slots[i] != m.slots[j];
    }
  }

  /** Removing keys leaves the rest in order, even if the controllers of the removed entries were aborted. */
  lemma RemovalValid(m: Manager, keys: set<Key>)
    requires SlotsOk(m) && Linked(m)
    requires forall key :: key in m.registered && key !in keys ==> !m.controllers[m.registered[key].controller].aborted
    ensures Valid(RemoveAll(m, keys))
  {
    RemovalSlots(m, keys);
  }

  lemma AbortValid(m: Manager, c: nat)
    requires Valid(m)
    ensures Valid(Abort(m, c))
  {
    if c < |m.controllers| && !m.controllers[c].aborted {
      AbortIsRemoval(m, c);
      if m.controllers[c].listening { RemovalValid(Flag(m, c), {m.controllers[c].key}); }
    }
  }

  datatype Event =
    | Get(key: Key, now: int)
    | Created(c: nat, pool: nat, now: int)
    | Aborted(c: nat)
    | Swept(now: int)
    | Purged

  function Step(m: Manager, ev: Event): Manager {
    match ev
    case Get(key, now) => if key in m.registered then Touch(m, key, now) else BeginCreate(m, key)
    case Created(c, pool, now) => FinishCreate(m, c, pool, now)
    case Aborted(c) => Abort(m, c)
    case Swept(now) => Sweep(m, now)
    case Purged => Purge(m)
  }

  function Run(m: Manager, events: seq<Event>): Manager
    decreases |events|
  {
    if events == [] then m else Run(Step(m, events[0]), events[1..])
  }

  lemma StepValid(m: Manager, ev: Event)
    requires Valid(m)
    ensures Valid(Step(m, ev))
  {
    match ev
    case Get(key, now) => GetValid(m, key, now);
    case Created(c, pool, now) => FinishValid(m, c, pool, now);
    case Aborted(c) => AbortValid(m, c);
    case Swept(now) => RemovalValid(m, Stale(m, now));
    case Purged => RemovalValid(m, m.registered.Keys);
  }

  lemma GetValid(m: Manager, key: Key, now: int)
    requires Valid(m)
    ensures Valid(if key in m.registered then Touch(m, key, now) else BeginCreate(m, key))
  {
  }

  lemma FinishValid(m: Manager, c: nat, pool: nat, now: int)
    requires Valid(m)
    ensures Valid(FinishCreate(m, c, pool, now))
  {
    var m' := FinishCreate(m, c, pool, now);
    if c < |m.controllers| && !m.controllers[c].listening && !m.controllers[c].aborted {
      forall key | key in m'.registered ensures Some(key) in m'.slots {
        if key in m.registered {
          var i :| 0 <= i < |m.slots| && m.slots[i] == Some(key);
          assert m'.slots[i] == Some(key);
        } else {
          assert m'.slots[|m.slots|] == Some(key);
        }
      }
    }
  }

  lemma {:induction false} RunValid(m: Manager, events: seq<Event>)
    requires Valid(m)
    ensures Valid(Run(m, events))
    decreases |events|
  {
    if events != [] {
      StepValid(m, events[0]);
      RunValid(Step(m, events[0]), events[1..]);
    }
  }

  /**
   Under every interleaving of overlapping creations, external aborts, sweeps and purges no cached
   registration has an aborted controller, so a cache hit never returns an aborted pool.
   */
  lemma NoAbortedPoolIsCached(events: seq<Event>, key: Key)
    requires key in Run(EMPTY, events).registered
    ensures var m := Run(EMPTY, events); var c := m.registered[key].controller;
      c < |m.controllers| && !m.controllers[c].aborted && m.controllers[c].key == key
  {
    RunValid(EMPTY, events);
  }

  // ---------------------------------------------------------------- overlapping creations

  /** A pool the manager still listens to but has replaced: no sweep or purge will ever reach it. */
  predicate IsOrphan(m: Manager, c: nat) {
    c < |m.controllers| && m.controllers[c].listening && !m.controllers[c].aborted && !IsRegistered(m, c)
  }

  /** A step makes an orphan exactly when a creation ends while its key is cached: then the cached pool is one. */
  lemma OnlyOverlapOrphans(m: Manager, ev: Event, c: nat)
    requires Valid(m) && c < |m.controllers| && !IsOrphan(m, c)
    ensures IsOrphan(Step(m, ev), c) <==>
      ev.Created? && ev.c < |m.controllers| && !m.controllers[ev.c].listening && !m.controllers[ev.c].aborted &&
      IsRegistered(m, c) && m.controllers[ev.c].key == m.controllers[c].key && c != ev.c
  {
    match ev
    case Aborted(d) =>
      if d < |m.controllers| && !m.controllers[d].aborted { AbortIsRemoval(m, d); }
    case Get(key, now) =>
    case Created(d, pool, now) =>
    case Swept(now) =>
    case Purged =>
  }

  /** A purge closes every pool the manager listens to exactly when there is no orphan. */
  lemma PurgeClosesAllButOrphans(m: Manager)
    requires Valid(m)
    ensures Purge(m).registered == map[]
    ensures
      (forall c :: 0 <= c < |m.controllers| && m.controllers[c].listening ==> Purge(m).controllers[c].aborted) <==>
      forall c :: 0 <= c < |m.controllers| ==> !IsOrphan(m, c)
  {
    var m' := Purge(m);
    forall c | 0 <= c < |m.controllers| && m.controllers[c].listening
      ensures m'.controllers[c].aborted <==> !IsOrphan(m, c)
    {
    }
  }

  /** Aborting an orphan closes the newer pool that took its place, too. */
  lemma OrphanTakesSuccessorDown(m: Manager, c: nat)
    requires Valid(m) && IsOrphan(m, c) && m.controllers[c].key in m.registered
    ensures var m' := Abort(m, c); var successor := m.registered[m.controllers[c].key].controller;
      successor != c && m.controllers[c].key !in m'.registered && m'.controllers[successor].aborted
  {
    AbortIsRemoval(m, c);
  }

  // ---------------------------------------------------------------- what a step does to a cached pool

  /** The creation of attempt `c` would be cached under `key`. */
  predicate WillCache(m: Manager, c: nat, key: Key) {
    c < |m.controllers| && m.controllers[c].key == key && !m.controllers[c].listening && !m.controllers[c].aborted
  }

  /** The steps that take the pool cached under `key` out of the cache, or put another in its place. */
  predicate Displaces(m: Manager, ev: Event, key: Key)
    requires key in m.registered
  {
    match ev
    case Get(_, _) => false
    case Created(c, _, _) => WillCache(m, c, key)
    case Aborted(c) =>
      c < |m.controllers| && m.controllers[c].key == key && m.controllers[c].listening && !m.controllers[c].aborted
    case Swept(now) => now - m.registered[key].lastUsed > 300000
    case Purged => true
  }

  /** `key` is used by a step at time `now`: a hit returns its pool, or a creation is cached under it. */
  predicate Uses(m: Manager, ev: Event, key: Key) {
    match ev
    case Get(other, _) => other == key && key in m.registered
    case Created(c, _, _) => WillCache(m, c, key)
    case _ => false
  }

  function TimeOf(ev: Event): int
    requires ev.Get? || ev.Created? || ev.Swept?
  {
    ev.now
  }

  /** A cached pool stays, with its controller, exactly if no such step comes; a hit renews it. */
  lemma StepKeepsPool(m: Manager, ev: Event, key: Key)
    requires Valid(m) && key in m.registered
    ensures var m' := Step(m, ev);
      && (!Displaces(m, ev, key) <==>
            key in m'.registered && m'.registered[key].controller == m.registered[key].controller)
      && (!Displaces(m, ev, key) ==>
            && m'.registered[key].pool == m.registered[key].pool
            && m'.registered[key].lastUsed == if Uses(m, ev, key) then TimeOf(ev) else m.registered[key].lastUsed)
  {
    match ev
    case Aborted(c) => if c < |m.controllers| && !m.controllers[c].aborted { AbortIsRemoval(m, c); }
    case _ =>
  }

  /** What comes to be cached under a key is the pool just created for it. */
  lemma StepCaches(m: Manager, ev: Event, key: Key)
    requires Valid(m) && (key in m.registered ==> Displaces(m, ev, key))
    ensures var m' := Step(m, ev);
      && (key in m'.registered <==> ev.Created? && WillCache(m, ev.c, key))
      && (key in m'.registered ==> m'.registered[key] == Registration(ev.pool, ev.c, ev.now))
  {
    match ev
    case Aborted(c) => if c < |m.controllers| && !m.controllers[c].aborted { AbortIsRemoval(m, c); }
    case _ =>
  }

  /** A sweep takes out exactly the pools idle for longer than five minutes, and aborts exactly their controllers. */
  lemma SweepTakesTheIdle(m: Manager, now: int, key: Key, c: nat)
    requires Valid(m) && c < |m.controllers|
    ensures var m' := Step(m, Swept(now));
      && (key in m'.registered <==> key in m.registered && now - m.registered[key].lastUsed <= 300000)
      && (key in m'.registered ==> m'.registered[key] == m.registered[key])
      && (m'.controllers[c].aborted <==>
            m.controllers[c].aborted ||
            (IsRegistered(m, c) && now - m.registered[m.controllers[c].key].lastUsed > 300000))
      && m'.controllers[c].key == m.controllers[c].key && m'.controllers[c].listening == m.controllers[c].listening
  {
  }

  /** The pool cached under a key is one that a creation for the key has made, under its own controller. */
  ghost predicate WasCreated(m: Manager, done: seq<Event>) {
    forall key :: key in m.registered ==>
      exists k :: 0 <= k < |done| && CreatedAs(done[k], m.registered[key])
  }

  predicate CreatedAs(ev: Event, r: Registration) { ev.Created? && ev.c == r.controller && ev.pool == r.pool }

  lemma StepWasCreated(m: Manager, ev: Event, done: seq<Event>)
    requires Valid(m) && WasCreated(m, done)
    ensures WasCreated(Step(m, ev), done + [ev])
  {
    var m', more := Step(m, ev), done + [ev];
    forall key | key in m'.registered ensures exists k :: 0 <= k < |more| && CreatedAs(more[k], m'.registered[key]) {
      if key in m.registered && !Displaces(m, ev, key) {
        StepKeepsPool(m, ev, key);
        var k :| 0 <= k < |done| && CreatedAs(done[k], m.registered[key]);
        assert CreatedAs(more[k], m'.registered[key]);
      } else {
        StepCaches(m, ev, key);
        assert CreatedAs(more[|done|], m'.registered[key]);
      }
    }
  }

  lemma {:induction false} RunWasCreated(m: Manager, events: seq<Event>, done: seq<Event>)
    requires Valid(m) && WasCreated(m, done)
    ensures WasCreated(Run(m, events), done + events)
    decreases |events|
  {
    if events == [] {
      assert done + events == done;
    } else {
      StepValid(m, events[0]);
      StepWasCreated(m, events[0], done);
      RunWasCreated(Step(m, events[0]), events[1..], done + [events[0]]);
      assert done + [events[0]] + events[1..] == done + events;
    }
  }

  /** So a hit returns a pool that was created under the controller that is cached with it. */
  lemma CachedPoolWasCreated(events: seq<Event>, key: Key)
    requires key in Run(EMPTY, events).registered
    ensures exists k :: 0 <= k < |events| && CreatedAs(events[k], Run(EMPTY, events).registered[key])
  {
    RunWasCreated(EMPTY, events, []);
    assert [] + events == events;
  }

  // ---------------------------------------------------------------- time to live

  /** The manager with its clock; a sweep is due `CLEAN_UP_INTERVAL` after the last one, and comes on time. */
  datatype Timed = Timed(manager: Manager, now: int, lastSweep: int)

  predicate OnTime(s: Timed, t: int, ev: Event) {
    && s.now <= t <= s.lastSweep + CLEAN_UP_INTERVAL
    && match ev
       case Get(_, now) => now == t
       case Created(_, _, now) => now == t
       case Swept(now) => now == t == s.lastSweep + CLEAN_UP_INTERVAL
       case _ => true
  }

  function TimedStep(s: Timed, t: int, ev: Event): Timed {
    if !OnTime(s, t, ev) then s
    else Timed(Step(s.manager, ev), t, if ev.Swept? then t else s.lastSweep)
  }

  function TimedRun(s: Timed, events: seq<(int, Event)>): Timed
    decreases |events|
  {
    if events == [] then s else TimedRun(TimedStep(s, events[0].0, events[0].1), events[1..])
  }

  ghost predicate Fresh(s: Timed) {
    && Valid(s.manager)
    && s.lastSweep <= s.now <= s.lastSweep + CLEAN_UP_INTERVAL
    && forall key :: key in s.manager.registered ==>
         && s.manager.registered[key].lastUsed <= s.now
         && s.lastSweep <= s.manager.registered[key].lastUsed + TTL
  }

  lemma TimedStepFresh(s: Timed, t: int, ev: Event)
    requires Fresh(s)
    ensures Fresh(TimedStep(s, t, ev))
  {
    StepValid(s.manager, ev);
    if OnTime(s, t, ev) {
      match ev
      case Aborted(c) =>
        if c < |s.manager.controllers| && !s.manager.controllers[c].aborted { AbortIsRemoval(s.manager, c); }
      case Swept(now) =>
        assert forall key :: key in Sweep(s.manager, now).registered ==>
            now - s.manager.registered[key].lastUsed <= TTL;
      case _ =>
    }
  }

  lemma {:induction false} TimedRunFresh(s: Timed, events: seq<(int, Event)>)
    requires Fresh(s)
    ensures Fresh(TimedRun(s, events))
    decreases |events|
  {
    if events != [] {
      TimedStepFresh(s, events[0].0, events[0].1);
      TimedRunFresh(TimedStep(s, events[0].0, events[0].1), events[1..]);
    }
  }

  /** When `key` was used last in a timed run from `s`; `before` if it was not. */
  function LastUse(s: Timed, events: seq<(int, Event)>, key: Key, before: Option<int>): Option<int>
    decreases |events|
  {
    if events == [] then before
    else
      var (t, ev) := events[0];
      LastUse(TimedStep(s, t, ev), events[1..], key,
              if OnTime(s, t, ev) && Uses(s.manager, ev, key) then Some(t) else before)
  }

  lemma TimedStepUse(s: Timed, t: int, ev: Event, key: Key)
    requires Fresh(s) && key in TimedStep(s, t, ev).manager.registered
    ensures var used := OnTime(s, t, ev) && Uses(s.manager, ev, key);
      && (used ==> TimedStep(s, t, ev).manager.registered[key].lastUsed == t)
      && (!used ==> key in s.manager.registered &&
                    TimedStep(s, t, ev).manager.registered[key].lastUsed == s.manager.registered[key].lastUsed)
  {
    if OnTime(s, t, ev) {
      if key in s.manager.registered && !Displaces(s.manager, ev, key) {
        StepKeepsPool(s.manager, ev, key);
      } else {
        StepCaches(s.manager, ev, key);
      }
    }
  }

  /** The stamp of a cached pool is the time of its last use. */
  lemma {:induction false} StampIsLastUse(s: Timed, events: seq<(int, Event)>, key: Key, before: Option<int>)
    requires Fresh(s) && key in TimedRun(s, events).manager.registered
    requires key in s.manager.registered ==> before == Some(s.manager.registered[key].lastUsed)
    ensures LastUse(s, events, key, before) == Some(TimedRun(s, events).manager.registered[key].lastUsed)
    decreases |events|
  {
    if events != [] {
      var (t, ev) := events[0];
      var s1 := TimedStep(s, t, ev);
      TimedStepFresh(s, t, ev);
      if key in s1.manager.registered { TimedStepUse(s, t, ev, key); }
      StampIsLastUse(s1, events[1..], key, if OnTime(s, t, ev) && Uses(s.manager, ev, key) then Some(t) else before);
    }
  }

  /**
   A pool last used at time t is out of the cache six minutes later: it is never cached after t + 360000, and if
   it still is at that very time, the sweep due then removes it.
   */
  lemma IdlePoolsLeaveInTime(start: int, events: seq<(int, Event)>, key: Key)
    requires key in TimedRun(Timed(EMPTY, start, start), events).manager.registered
    ensures var s := TimedRun(Timed(EMPTY, start, start), events);
      var used := LastUse(Timed(EMPTY, start, start), events, key, None);
      && used.Some? && s.now <= used.value + 360000
      && (s.now == used.value + 360000 ==>
            OnTime(s, s.now, Swept(s.now)) && key !in TimedStep(s, s.now, Swept(s.now)).manager.registered)
  {
    TimedRunFresh(Timed(EMPTY, start, start), events);
    StampIsLastUse(Timed(EMPTY, start, start), events, key, None);
  }

  /** No step of the timed run purges, aborts a pool of `key`, or caches a new one under it. */
  predicate Undisturbed(s: Timed, events: seq<(int, Event)>, key: Key)
    decreases |events|
  {
    events == [] ||
    (var (t, ev) := events[0];
     (OnTime(s, t, ev) && key in s.manager.registered && !ev.Swept? ==> !Displaces(s.manager, ev, key)) &&
     Undisturbed(TimedStep(s, t, ev), events[1..], key))
  }

  lemma {:induction false} TimePasses(s: Timed, events: seq<(int, Event)>)
    ensures s.now <= TimedRun(s, events).now
    decreases |events|
  {
    if events != [] { TimePasses(TimedStep(s, events[0].0, events[0].1), events[1..]); }
  }

  lemma {:induction false} RecentPoolStays(s: Timed, events: seq<(int, Event)>, key: Key, t: int)
    requires Fresh(s) && Undisturbed(s, events, key) && TimedRun(s, events).now <= t + 300000
    requires key in s.manager.registered && s.manager.registered[key].lastUsed >= t
    ensures var r, r' := s.manager.registered[key], TimedRun(s, events).manager.registered;
      key in r' && r'[key].pool == r.pool && r'[key].controller == r.controller && r'[key].lastUsed >= t
    decreases |events|
  {
    if events != [] {
      var (at, ev) := events[0];
      var s1 := TimedStep(s, at, ev);
      TimedStepFresh(s, at, ev);
      TimePasses(s1, events[1..]);
      if OnTime(s, at, ev) { StepKeepsPool(s.manager, ev, key); }
      RecentPoolStays(s1, events[1..], key, t);
    }
  }

  /**
   A pool in use stays: after a hit at time t every timed run up to t + 300000, the sweeps included, still has
   the same pool under the same controller, unless it is purged, aborted or replaced.
   */
  lemma PoolsInUseStay(start: int, events: seq<(int, Event)>, key: Key, t: int, later: seq<(int, Event)>)
    requires var s := TimedRun(Timed(EMPTY, start, start), events);
      && key in s.manager.registered && OnTime(s, t, Get(key, t))
      && Undisturbed(TimedStep(s, t, Get(key, t)), later, key)
      && TimedRun(TimedStep(s, t, Get(key, t)), later).now <= t + 300000
    ensures var s := TimedRun(Timed(EMPTY, start, start), events);
      var r, r' := s.manager.registered[key], TimedRun(TimedStep(s, t, Get(key, t)), later).manager.registered;
      key in r' && r'[key].pool == r.pool && r'[key].controller == r.controller
  {
    var s := TimedRun(Timed(EMPTY, start, start), events);
    TimedRunFresh(Timed(EMPTY, start, start), events);
    TimedStepFresh(s, t, Get(key, t));
    StepKeepsPool(s.manager, Get(key, t), key);
    RecentPoolStays(TimedStep(s, t, Get(key, t)), later, key, t);
  }

  // ---------------------------------------------------------------- the object

  datatype Error = AbortedDuringCreation

  datatype Lookup = Hit(pool: nat) | Miss(controller: nat)

  /** Removing one more key after others: the order does not matter. */
  lemma RemoveOneMore(m: Manager, keys: set<Key>, key: Key)
    requires Linked(m)
    ensures RemoveAll(RemoveAll(m, keys), {key}) == RemoveAll(m, keys + {key})
  {
    var a, b := RemoveAll(RemoveAll(m, keys), {key}), RemoveAll(m, keys + {key});
    assert a.registered == b.registered;
    assert a.slots == b.slots;
    assert a.controllers == b.controllers;
  }

  lemma RemoveNone(m: Manager)
    ensures RemoveAll(m, {}) == m
  {
    assert RemoveAll(m, {}).controllers == m.controllers && RemoveAll(m, {}).slots == m.slots;
    assert m.registered - {} == m.registered;
  }

  /** The keys of `keys` in the first `n` slots. */
  function Visited(m: Manager, keys: set<Key>, n: nat): set<Key> {
    set i | 0 <= i < n && i < |m.slots| && m.slots[i].Some? && m.slots[i].value in keys :: m.slots[i].value
  }

  lemma VisitedNext(m: Manager, keys: set<Key>, n: nat)
    requires n < |m.slots|
    ensures Visited(m, keys, n + 1) ==
      if m.slots[n].Some? && m.slots[n].value in keys then Visited(m, keys, n) + {m.slots[n].value}
      else Visited(m, keys, n)
  {
  }

  /** Coming to slot `n` of the live map: the slot is as it was, and cleaning its key up removes one more. */
  lemma VisitOne(m: Manager, keys: set<Key>, n: nat)
    requires Valid(m) && n < |m.slots|
    ensures var m1 := RemoveAll(m, Visited(m, keys, n));
      && Valid(m1) && m1.slots[n] == m.slots[n]
      && (m.slots[n].Some? ==>
            var key := m.slots[n].value;
            key in m.registered && key in m1.registered && m1.registered[key] == m.registered[key])
      && RemoveAll(m, Visited(m, keys, n + 1)) ==
           if m.slots[n].Some? && m.slots[n].value in keys then Cleanup(m1, m.slots[n].value) else m1
  {
    var visited := Visited(m, keys, n);
    RemovalValid(m, visited);
    VisitedNext(m, keys, n);
    if m.slots[n].Some? {
      assert m.slots[n].value !in visited;
      CleanupIsRemoval(RemoveAll(m, visited), m.slots[n].value);
      RemoveOneMore(m, visited, m.slots[n].value);
    }
  }

  /** `VisitOne` for a sweep, said with the live map. */
  lemma VisitStale(m: Manager, now: int, n: nat)
    requires Valid(m) && n < |m.slots|
    ensures var m1 := SweptTo(m, now, n); var slot := m1.slots[n];
      && (slot.Some? ==> slot.value in m1.registered)
      && SweptTo(m, now, n + 1) ==
           if slot.Some? && now - m1.registered[slot.value].lastUsed > TTL then Cleanup(m1, slot.value) else m1
  {
    VisitOne(m, Stale(m, now), n);
  }

  lemma VisitedAll(m: Manager, keys: set<Key>)
    requires SlotsOk(m) && keys <= m.registered.Keys
    ensures Visited(m, keys, |m.slots|) == keys
  {
    forall key | key in keys ensures key in Visited(m, keys, |m.slots|) {
      var i :| 0 <= i < |m.slots| && m.slots[i] == Some(key);
    }
  }

  lemma SweepDone(m: Manager, now: int)
    requires Valid(m)
    ensures SweptTo(m, now, |m.slots|) == Sweep(m, now)
  {
    VisitedAll(m, Stale(m, now));
  }

  /** `m` after a sweep has visited its first `n` slots. */
  function SweptTo(m: Manager, now: int, n: nat): (m': Manager)
    ensures |m'.slots| == |m.slots|
  {
    RemoveAll(m, Visited(m, Stale(m, now), n))
  }

  /** `m` after a purge has visited its first `n` slots. */
  function PurgedTo(m: Manager, n: nat): (m': Manager)
    ensures |m'.slots| == |m.slots|
  {
    RemoveAll(m, Visited(m, m.registered.Keys, n))
  }

  class ConnectionPoolManager {
    var registered: map<Key, Registration>
    var slots: seq<Option<Key>>
    var controllers: seq<Controller>

    function State(): Manager
      reads this
    {
      Manager(registered, slots, controllers)
    }

    constructor ()
      ensures State() == EMPTY
    {
      registered, slots, controllers := map[], [], [];
    }

    /** `getConnection` up to the await of the handler, or to the return of a cached pool. */
    method GetConnection(key: Key, now: int) returns (r: Lookup)
      requires Valid(State())
      modifies this
      ensures Valid(State()) && State() == Step(old(State()), Get(key, now))
      ensures r == if key in old(registered) then Hit(old(registered[key].pool)) else Miss(|old(controllers)|)
      ensures r.Hit? ==> !controllers[registered[key].controller].aborted
      ensures r.Hit? ==> registered == old(registered)[key := old(registered)[key].(lastUsed := now)]
    {
      if key in registered {
        registered := registered[key := registered[key].(lastUsed := now)];
        r := Hit(registered[key].pool);
      } else {
        r := Miss(|controllers|);
        controllers := controllers + [Controller(key, false, false)];
      }
      GetValid(old(State()), key, now);
    }

    /** The rest of `getConnection` for attempt `c`. */
    method Created(c: nat, pool: nat, now: int) returns (r: Result<nat, Error>)
      requires Valid(State()) && c < |controllers| && !controllers[c].listening
      modifies this
      ensures Valid(State()) && State() == FinishCreate(old(State()), c, pool, now)
      ensures r == if old(controllers[c].aborted) then Failure(AbortedDuringCreation) else Success(pool)
      ensures r.Failure? ==> State() == old(State())
      ensures r.Success? ==>
        registered == old(registered)[controllers[c].key := Registration(pool, c, now)] && controllers[c].listening
    {
      FinishValid(State(), c, pool, now);
      if controllers[c].aborted { return Failure(AbortedDuringCreation); }
      var key := controllers[c].key;
      if key !in registered { slots := slots + [Some(key)]; }
      registered := registered[key := Registration(pool, c, now)];
      controllers := controllers[c := controllers[c].(listening := true)];
      r := Success(pool);
    }

    method AbortController(c: nat)
      requires c < |controllers|
      modifies this
      ensures State() == Abort(old(State()), c)
      decreases |registered|, 1
    {
      if !controllers[c].aborted {
        controllers := controllers[c := controllers[c].(aborted := true)];
        if controllers[c].listening { CleanupConnection(controllers[c].key); }
      }
    }

    method CleanupConnection(key: Key)
      modifies this
      ensures State() == Cleanup(old(State()), key)
      decreases |registered|, 0
    {
      if key in registered {
        var registration := registered[key];
        registered := registered - {key};
        assert old(registered).Keys == registered.Keys + {key};
        slots := Punch(slots, {key});
        if registration.controller < |controllers| { AbortController(registration.controller); }
      }
    }

    /** One turn of a sweep that began in state `m`. */
    method SweepSlot(i: nat, now: int, ghost m: Manager)
      requires Valid(m) && i < |m.slots| && |slots| == |m.slots| && State() == SweptTo(m, now, i)
      modifies this
      ensures State() == SweptTo(m, now, i + 1)
    {
      VisitStale(m, now, i);
      if slots[i].Some? {
        var key := slots[i].value;
        if now - registered[key].lastUsed > TTL { CleanupConnection(key); }
      }
    }

    /** Visits the slots in order, over the live map: a key that a cleanup has deleted is a hole by then. */
    method CleanupStaleConnections(now: int)
      requires Valid(State())
      modifies this
      ensures State() == Sweep(old(State()), now)
    {
      ghost var m := State();
      RemoveNone(m);
      var i := 0;
      while i < |slots|
        invariant 0 <= i <= |slots| == |m.slots|
        invariant State() == SweptTo(m, now, i)
      {
        SweepSlot(i, now, m);
        i := i + 1;
      }
      SweepDone(m, now);
    }

    /** One turn of a purge that began in state `m`. */
    method PurgeSlot(i: nat, ghost m: Manager)
      requires Valid(m) && i < |m.slots| && |slots| == |m.slots| && State() == PurgedTo(m, i)
      modifies this
      ensures State() == PurgedTo(m, i + 1)
    {
      VisitOne(m, m.registered.Keys, i);
      if slots[i].Some? { CleanupConnection(slots[i].value); }
    }

    method PurgeConnections()
      requires Valid(State())
      modifies this
      ensures State() == Purge(old(State())) && registered == map[]
    {
      ghost var m := State();
      RemoveNone(m);
      var i := 0;
      while i < |slots|
        invariant 0 <= i <= |slots| == |m.slots|
        invariant State() == PurgedTo(m, i)
      {
        PurgeSlot(i, m);
        i := i + 1;
      }
      VisitedAll(m, m.registered.Keys);
    }
  }
}
