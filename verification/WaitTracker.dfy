/**
 The timers that resume waiting executions in one process. `waiting` is `waitingExecutions`, `live` holds the
 timeouts that are set and have neither fired nor been cleared, with the execution each will start.
 */
module WaitTracker {
  type Id = string

  datatype Tracker = Tracker(waiting: map<Id, nat>, live: map<nat, Id>, next: nat)

  const EMPTY := Tracker(map[], map[], 0)

  /** One execution found by the poll: it gets a timeout only if it has no entry yet. */
  function Track(t: Tracker, id: Id): Tracker {
    if id in t.waiting then t
    else Tracker(t.waiting[id := t.next], t.live[t.next := id], t.next + 1)
  }

  function Poll(t: Tracker, found: seq<Id>): Tracker {
    if found == [] then t else Track(Poll(t, found[..|found| - 1]), found[|found| - 1])
  }

  /** `stopExecution`: the timeout of the entry is cleared and the entry goes. */
  function Stop(t: Tracker, id: Id): Tracker {
    if id !in t.waiting then t
    else t.(live := t.live - {t.waiting[id]}, waiting := t.waiting - {id})
  }

  /** The head of `startExecution`: the entry goes, its timeout is left alone. */
  function Start(t: Tracker, id: Id): Tracker {
    t.(waiting := t.waiting - {id})
  }

  /** Timeout `n` fires. */
  function Fire(t: Tracker, n: nat): Tracker {
    if n !in t.live then t else Start(t.(live := t.live - {n}), t.live[n])
  }

  /** `stopTracking` at a leader stepdown: every timeout of an entry is cleared, the entries stay. */
  function StepDown(t: Tracker): Tracker {
    t.(live := t.live - t.waiting.Values)
  }

  datatype Event = PollFound(found: seq<Id>) | Stopped(id: Id) | Started(id: Id) | Fired(n: nat) | SteppedDown

  function Step(t: Tracker, ev: Event): Tracker {
    match ev
    case PollFound(found) => Poll(t, found)
    case Stopped(id) => Stop(t, id)
    case Started(id) => Start(t, id)
    case Fired(n) => Fire(t, n)
    case SteppedDown => StepDown(t)
  }

  function Run(t: Tracker, events: seq<Event>): Tracker
    decreases |events|
  {
    if events == [] then t else Run(Step(t, events[0]), events[1..])
  }

  // ---------------------------------------------------------------- an entry has its timeout, until a stepdown

  ghost predicate NumbersOk(t: Tracker) {
    && (forall n :: n in t.live ==> n < t.next)
    && (forall id :: id in t.waiting ==> t.waiting[id] < t.next)
    && (forall a, b :: a in t.waiting && b in t.waiting && t.waiting[a] == t.waiting[b] ==> a == b)
    && (forall id :: id in t.waiting && t.waiting[id] in t.live ==> t.live[t.waiting[id]] == id)
  }

  predicate Timed(t: Tracker, id: Id) { id in t.waiting && t.waiting[id] in t.live }

  /** `t'` is `t` after the executions `found` were polled. */
  ghost predicate Polled(t: Tracker, found: set<Id>, t': Tracker) {
    && t.next <= t'.next && (forall n :: n in t'.live ==> n < t'.next)
    && PolledWaiting(t, found, t')
    && PolledLive(t, found, t')
  }

  ghost predicate PolledWaiting(t: Tracker, found: set<Id>, t': Tracker) {
    && (forall id :: id in t'.waiting <==> id in t.waiting || id in found)
    && (forall id :: id in t.waiting ==> id in t'.waiting && t'.waiting[id] == t.waiting[id])
    && (forall id :: id in found && id !in t.waiting ==>
          id in t'.waiting && t.next <= t'.waiting[id] && t'.waiting[id] in t'.live && t'.live[t'.waiting[id]] == id)
  }

  ghost predicate PolledLive(t: Tracker, found: set<Id>, t': Tracker) {
    && (forall n :: n in t'.live && n < t.next ==> n in t.live && t'.live[n] == t.live[n])
    && (forall n :: n in t.live ==> n in t'.live)
    && (forall n :: n in t'.live && t.next <= n ==> t'.live[n] in found && t'.live[n] !in t.waiting)
  }

  lemma TrackPolled(t: Tracker, found: set<Id>, t': Tracker, id: Id)
    requires Polled(t, found, t')
    ensures Polled(t, found + {id}, Track(t', id))
  {
    assert PolledWaiting(t, found + {id}, Track(t', id));
    assert PolledLive(t, found + {id}, Track(t', id));
  }

  lemma TrackNumbers(t: Tracker, id: Id)
    requires NumbersOk(t)
    ensures NumbersOk(Track(t, id))
  {
  }

  function Ids(found: seq<Id>): set<Id> {
    set id | id in found
  }

  lemma IdsLast(front: seq<Id>, last: Id)
    ensures Ids(front + [last]) == Ids(front) + {last}
  {
  }

  lemma PollStep(t: Tracker, front: seq<Id>, last: Id)
    requires NumbersOk(Poll(t, front)) && Polled(t, Ids(front), Poll(t, front))
    ensures NumbersOk(Poll(t, front + [last])) && Polled(t, Ids(front + [last]), Poll(t, front + [last]))
  {
    var t1 := Poll(t, front);
    IdsLast(front, last);
    TrackNumbers(t1, last);
    TrackPolled(t, Ids(front), t1, last);
    assert (front + [last])[..|front|] == front;
    assert Poll(t, front + [last]) == Track(t1, last);
  }

  lemma {:induction false} PollOk(t: Tracker, found: seq<Id>)
    requires NumbersOk(t)
    ensures NumbersOk(Poll(t, found)) && Polled(t, Ids(found), Poll(t, found))
  {
    if found == [] {
      assert Ids(found) == {};
    } else {
      var front := found[..|found| - 1];
      PollOk(t, front);
      PollStep(t, front, found[|found| - 1]);
      assert front + [found[|found| - 1]] == found;
    }
  }

  lemma StepNumbers(t: Tracker, ev: Event)
    requires NumbersOk(t)
    ensures NumbersOk(Step(t, ev)) && t.next <= Step(t, ev).next
  {
    if ev.PollFound? { PollOk(t, ev.found); }
  }

  ghost predicate AllTimed(t: Tracker) {
    NumbersOk(t) && forall id :: id in t.waiting ==> Timed(t, id)
  }

  lemma StepAllTimed(t: Tracker, ev: Event)
    requires AllTimed(t) && !ev.SteppedDown?
    ensures AllTimed(Step(t, ev))
  {
    StepNumbers(t, ev);
    match ev
    case PollFound(found) => PollOk(t, found);
    case Stopped(id) => assert AllTimed(Stop(t, id));
    case Started(id) => assert AllTimed(Start(t, id));
    case Fired(n) => assert AllTimed(Fire(t, n));
  }

  /**
   Until a stepdown every tracked execution has a live timeout of its own, in every run; the timeout of an
   entry that `startExecution` dropped stays live, so an execution can have several.
   */
  lemma {:induction false} TrackedIsTimed(t: Tracker, events: seq<Event>)
    requires AllTimed(t) && SteppedDown !in events
    ensures AllTimed(Run(t, events))
    decreases |events|
  {
    if events != [] {
      StepAllTimed(t, events[0]);
      TrackedIsTimed(Step(t, events[0]), events[1..]);
    }
  }

  /** Some live timeout numbered `low` or higher, other than `but`, will start `id`. */
  ghost predicate WillStart(t: Tracker, id: Id, low: int, but: int) {
    exists n :: n in t.live && t.live[n] == id && low <= n && n != but
  }

  /** A poll gives a found execution a new timeout exactly when it has no entry. */
  lemma PollTimesTheUntracked(t: Tracker, found: seq<Id>, id: Id)
    requires NumbersOk(t) && id in found
    ensures WillStart(Poll(t, found), id, t.next, -1) <==> id !in t.waiting
  {
    PollOk(t, found);
    var t' := Poll(t, found);
    if id !in t.waiting { assert t'.live[t'.waiting[id]] == id; }
  }

  /**
   `stopTracking` leaves its entries behind: at the next takeover the poll skips them, so a found execution
   has a live timeout again only if it was not tracked at the stepdown, or a duplicate timeout survived.
   */
  lemma TimedAfterTakeover(t: Tracker, found: seq<Id>, id: Id)
    requires NumbersOk(t) && id in found
    ensures WillStart(Poll(StepDown(t), found), id, 0, -1) <==>
      id !in t.waiting || WillStart(t, id, 0, t.waiting[id])
  {
    var d := StepDown(t);
    PollOk(d, found);
    var t' := Poll(d, found);
    if id !in t.waiting {
      assert t'.live[t'.waiting[id]] == id;
    } else {
      assert t.waiting[id] in t.waiting.Values;
      if WillStart(t, id, 0, t.waiting[id]) {
        var n :| n in t.live && t.live[n] == id && n != t.waiting[id];
        assert n in d.live && t'.live[n] == id;
      }
      if WillStart(t', id, 0, -1) {
        var n :| n in t'.live && t'.live[n] == id;
        assert n in d.live;
      }
    }
  }

  /** `id` is tracked, and no live timeout will start it. */
  ghost predicate Abandoned(t: Tracker, id: Id) {
    NumbersOk(t) && id in t.waiting && !WillStart(t, id, 0, -1)
  }

  lemma StepAbandoned(t: Tracker, ev: Event, id: Id)
    requires Abandoned(t, id) && ev != Stopped(id) && ev != Started(id)
    ensures Abandoned(Step(t, ev), id)
  {
    StepNumbers(t, ev);
    if ev.PollFound? { PollOk(t, ev.found); }
  }

  /** An abandoned execution stays abandoned, whatever is polled, until it is started or stopped directly. */
  lemma {:induction false} AbandonedStays(t: Tracker, events: seq<Event>, id: Id)
    requires Abandoned(t, id) && Stopped(id) !in events && Started(id) !in events
    ensures Abandoned(Run(t, events), id)
    decreases |events|
  {
    if events != [] {
      StepAbandoned(t, events[0], id);
      AbandonedStays(Step(t, events[0]), events[1..], id);
    }
  }

  // ---------------------------------------------------------------- stopping, starting, firing

  /** Nothing but the entry of `id` and the timeout `n` differs. */
  ghost predicate OthersKept(t: Tracker, t': Tracker, id: Id, n: int) {
    && t'.next == t.next
    && (forall other :: other != id ==> (other in t'.waiting <==> other in t.waiting))
    && (forall other :: other != id && other in t.waiting ==> t'.waiting[other] == t.waiting[other])
    && (forall m :: m != n ==> (m in t'.live <==> m in t.live))
    && (forall m :: m != n && m in t.live ==> t'.live[m] == t.live[m])
  }

  /** Stopping an execution clears the timeout of its entry and drops the entry, and touches no other. */
  lemma StopClears(t: Tracker, id: Id)
    requires NumbersOk(t)
    ensures var t' := Step(t, Stopped(id));
      && id !in t'.waiting
      && (id in t.waiting ==> t.waiting[id] !in t'.live && OthersKept(t, t', id, t.waiting[id]))
      && (id !in t.waiting ==> t' == t)
  {
  }

  /** Starting an execution drops its entry only: its timeout stays set and will start it again. */
  lemma StartKeepsTimeout(t: Tracker, id: Id)
    requires NumbersOk(t)
    ensures var t' := Step(t, Started(id)); id !in t'.waiting && t'.live == t.live && OthersKept(t, t', id, -1)
  {
  }

  /** A timeout that fires starts its execution, and is gone. */
  lemma FireStarts(t: Tracker, n: nat)
    requires NumbersOk(t)
    ensures var t' := Step(t, Fired(n));
      && n !in t'.live
      && (n in t.live ==> t.live[n] !in t'.waiting && OthersKept(t, t', t.live[n], n))
      && (n !in t.live ==> t' == t)
  {
  }

  /** A timeout that has fired or been cleared never fires again. */
  lemma {:induction false} NeverFiresAgain(t: Tracker, events: seq<Event>, n: nat)
    requires NumbersOk(t) && n < t.next && n !in t.live
    ensures n !in Run(t, events).live
    decreases |events|
  {
    if events != [] {
      StepNumbers(t, events[0]);
      if events[0].PollFound? { PollOk(t, events[0].found); }
      NeverFiresAgain(Step(t, events[0]), events[1..], n);
    }
  }

  lemma PollOne(t: Tracker, id: Id)
    ensures Poll(t, [id]) == Track(t, id)
  {
    assert Poll(t, [id][..0]) == t;
  }

  /** So an execution that is started by other means and waits again has two timeouts, both of which will start it. */
  lemma StartedTwice(id: Id)
    ensures var t := Run(EMPTY, [PollFound([id]), Started(id), PollFound([id])]);
      0 in t.live && 1 in t.live && t.live[0] == id && t.live[1] == id && t.waiting == map[id := 1]
  {
    PollOne(EMPTY, id);
    var t1 := Poll(EMPTY, [id]);
    var t2 := Start(t1, id);
    assert t2.waiting == map[];
    PollOne(t2, id);
    var t3 := Poll(t2, [id]);
    var events := [PollFound([id]), Started(id), PollFound([id])];
    assert events[1..] == [Started(id), PollFound([id])] && events[1..][1..] == [PollFound([id])];
    assert Run(t2, [PollFound([id])]) == Run(t3, [PollFound([id])][1..]);
    assert Run(t1, events[1..]) == Run(t2, events[1..][1..]);
  }

  // ---------------------------------------------------------------- the object

  class WaitTracker {
    var waitingExecutions: map<Id, nat>
    var timeouts: map<nat, Id>
    var nextTimeout: nat

    function State(): Tracker
      reads this
    {
      Tracker(waitingExecutions, timeouts, nextTimeout)
    }

    constructor ()
      ensures State() == EMPTY
    {
      waitingExecutions, timeouts, nextTimeout := map[], map[], 0;
    }

    method GetWaitingExecutions(executions: seq<Id>)
      modifies this
      ensures State() == Poll(old(State()), executions)
    {
      for i := 0 to |executions|
        invariant State() == Poll(old(State()), executions[..i])
      {
        assert executions[..i + 1][..i] == executions[..i];
        var id := executions[i];
        if id !in waitingExecutions {
          waitingExecutions := waitingExecutions[id := nextTimeout];
          timeouts := timeouts[nextTimeout := id];
          nextTimeout := nextTimeout + 1;
        }
      }
      assert executions[..|executions|] == executions;
    }

    method StopExecution(id: Id)
      modifies this
      ensures State() == Stop(old(State()), id)
    {
      if id !in waitingExecutions { return; }
      timeouts := timeouts - {waitingExecutions[id]};
      waitingExecutions := waitingExecutions - {id};
    }

    method StartExecution(id: Id)
      modifies this
      ensures State() == Start(old(State()), id)
    {
      waitingExecutions := waitingExecutions - {id};
    }

    /** The keys are visited in no particular order. */
    method StopTracking()
      modifies this
      ensures State() == StepDown(old(State()))
    {
      var todo := waitingExecutions.Keys;
      while todo != {}
        invariant waitingExecutions == old(waitingExecutions) && nextTimeout == old(nextTimeout)
        invariant todo <= waitingExecutions.Keys
        invariant timeouts == old(timeouts) - (set id | id in waitingExecutions.Keys - todo :: waitingExecutions[id])
        decreases todo
      {
        var id :| id in todo;
        timeouts := timeouts - {waitingExecutions[id]};
        todo := todo - {id};
      }
      assert waitingExecutions.Values == set id | id in waitingExecutions.Keys :: waitingExecutions[id];
    }
  }
}
