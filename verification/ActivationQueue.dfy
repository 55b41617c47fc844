/**
 The queue of workflows whose activation is retried: one entry per workflow, with the timeout that will retry
 next and a delay that doubles up to a day. The body of a retry is one step; what `add` did in it is given.

 `failures` counts the failed retries since the workflow was queued, and `dropped` says that a retry returned
 without activating it. No step looks at either.
 */
module ActivationQueue {
  import opened Wrappers

  type WorkflowId = string

  const INITIAL_TIMEOUT := 1000
  const MAX_TIMEOUT := 86400000

  datatype Activation = Activation(lastTimeout: int, timeout: nat, failures: nat, dropped: bool)

  datatype Timeout = Timeout(id: WorkflowId, delay: int)

  datatype Queue = Queue(queued: map<WorkflowId, Activation>, timeouts: map<nat, Timeout>, next: nat)

  const EMPTY := Queue(map[], map[], 0)

  /**
   How `add` ended: it activated the workflow, which takes it off the queue; it returned early, for a workflow
   that is no longer active or whose activation was handed to the leader; it threw before or after the point
   where it takes the workflow off the queue.
   */
  datatype Outcome = Activated | ReturnedEarly | FailedEarly | FailedLate

  // ---------------------------------------------------------------- the steps

  function Remove(q: Queue, id: WorkflowId): Queue {
    if id !in q.queued then q
    else q.(timeouts := q.timeouts - {q.queued[id].timeout}, queued := q.queued - {id})
  }

  function Enqueue(q: Queue, id: WorkflowId): Queue {
    var r := Remove(q, id);
    Queue(r.queued[id := Activation(INITIAL_TIMEOUT, r.next, 0, false)],
          r.timeouts[r.next := Timeout(id, INITIAL_TIMEOUT)], r.next + 1)
  }

  function NextTimeout(lastTimeout: int): int {
    if lastTimeout < MAX_TIMEOUT then
      if lastTimeout * 2 < MAX_TIMEOUT then lastTimeout * 2 else MAX_TIMEOUT
    else lastTimeout
  }

  /** The catch block of a retry; it throws if the workflow is not queued any more. */
  function RetryLater(q: Queue, id: WorkflowId): Queue {
    if id !in q.queued then q
    else
      var a := q.queued[id];
      var delay := NextTimeout(a.lastTimeout);
      Queue(q.queued[id := Activation(delay, q.next, a.failures + 1, a.dropped)],
            q.timeouts[q.next := Timeout(id, delay)], q.next + 1)
  }

  /** Timeout `n` fires and its retry ends with `outcome`. */
  function Retry(q: Queue, n: nat, outcome: Outcome): Queue {
    if n !in q.timeouts then q
    else
      var id := q.timeouts[n].id;
      var fired := q.(timeouts := q.timeouts - {n});
      match outcome
      case Activated => Remove(fired, id)
      case ReturnedEarly =>
        if id in fired.queued then fired.(queued := fired.queued[id := fired.queued[id].(dropped := true)]) else fired
      case FailedEarly => RetryLater(fired, id)
      case FailedLate => RetryLater(Remove(fired, id), id)
  }

  function RemoveAll(q: Queue): Queue {
    q.(queued := map[], timeouts := q.timeouts - set id | id in q.queued :: q.queued[id].timeout)
  }

  datatype Event =
    | Queued(id: WorkflowId)
    | Removed(id: WorkflowId)
    | RemovedAll
    | Fired(n: nat, outcome: Outcome)

  function Step(q: Queue, ev: Event): Queue {
    match ev
    case Queued(id) => Enqueue(q, id)
    case Removed(id) => Remove(q, id)
    case RemovedAll => RemoveAll(q)
    case Fired(n, outcome) => Retry(q, n, outcome)
  }

  function Run(q: Queue, events: seq<Event>): Queue
    decreases |events|
  {
    if events == [] then q else Run(Step(q, events[0]), events[1..])
  }

  // ---------------------------------------------------------------- the delay

  function Pow2(n: nat): nat {
    if n == 0 then 1 else 2 * Pow2(n - 1)
  }

  /** The delay after `n` failures in closed form. */
  function Delay(n: nat): int {
    if INITIAL_TIMEOUT * Pow2(n) < MAX_TIMEOUT then INITIAL_TIMEOUT * Pow2(n) else MAX_TIMEOUT
  }

  lemma {:induction false} Pow2Grows(m: nat, n: nat)
    requires m < n
    ensures 0 < Pow2(m) < Pow2(n)
    decreases n
  {
    if m < n - 1 { Pow2Grows(m, n - 1); } else if m > 0 { Pow2Grows(m - 1, m); }
  }

  lemma Pow2At17()
    ensures Pow2(16) == 65536 && Pow2(17) == 131072
  {
    assert Pow2(4) == 16;
    assert Pow2(8) == 256;
    assert Pow2(12) == 4096;
    assert Pow2(16) == 65536;
  }

  /** The delay never falls; it rises with every failure up to the 17th, and from there on it is one day. */
  lemma DelayShape(m: nat, n: nat)
    requires m < n
    ensures Delay(m) <= Delay(n)
    ensures Delay(n) == if n < 17 then 1000 * Pow2(n) else 86400000
    ensures Delay(n) == 86400000 <==> n >= 17
    ensures Delay(m) < Delay(n) <==> m < 17
  {
    Pow2At17();
    Pow2Grows(m, n);
    if n < 16 { Pow2Grows(n, 16); }
    if n > 17 { Pow2Grows(17, n); }
    if m < 16 { Pow2Grows(m, 16); }
    if m > 17 { Pow2Grows(17, m); }
  }

  lemma NextDelay(n: nat)
    ensures NextTimeout(Delay(n)) == Delay(n + 1)
  {
    assert Pow2(n + 1) == 2 * Pow2(n);
    if n > 0 { Pow2Grows(0, n); }
  }

  // ---------------------------------------------------------------- timeouts and entries

  ghost predicate Valid(q: Queue) {
    && (forall n :: n in q.timeouts ==>
          && n < q.next && q.timeouts[n].id in q.queued && q.queued[q.timeouts[n].id].timeout == n)
    && (forall id :: id in q.queued ==> EntryOk(q, id))
  }

  ghost predicate EntryOk(q: Queue, id: WorkflowId)
    requires id in q.queued
  {
    var a := q.queued[id];
    && a.timeout < q.next
    && a.lastTimeout == Delay(a.failures)
    && (a.timeout in q.timeouts <==> !a.dropped)
    && (a.timeout in q.timeouts ==> q.timeouts[a.timeout] == Timeout(id, Delay(a.failures)))
  }

  lemma RemoveValid(q: Queue, id: WorkflowId)
    requires Valid(q)
    ensures Valid(Remove(q, id))
  {
    var q' := Remove(q, id);
    forall other | other in q'.queued ensures EntryOk(q', other) {
      assert EntryOk(q, other);
      if id in q.queued { assert EntryOk(q, id); }
    }
  }

  lemma EnqueueValid(q: Queue, id: WorkflowId)
    requires Valid(q)
    ensures Valid(Enqueue(q, id))
  {
    var r, q' := Remove(q, id), Enqueue(q, id);
    RemoveValid(q, id);
    assert Delay(0) == INITIAL_TIMEOUT;
    forall other | other in q'.queued ensures EntryOk(q', other) {
      if other != id { assert EntryOk(r, other); }
    }
  }

  lemma RetryValid(q: Queue, n: nat, outcome: Outcome)
    requires Valid(q)
    ensures Valid(Retry(q, n, outcome))
  {
    if n in q.timeouts {
      var id, q' := q.timeouts[n].id, Retry(q, n, outcome);
      assert EntryOk(q, id);
      NextDelay(q.queued[id].failures);
      forall other | other in q'.queued ensures EntryOk(q', other) {
        assert EntryOk(q, other);
      }
    }
  }

  lemma RemoveAllEmpties(q: Queue)
    requires Valid(q)
    ensures RemoveAll(q).queued == map[] && RemoveAll(q).timeouts == map[]
  {
    forall n | n in q.timeouts ensures n in set id | id in q.queued :: q.queued[id].timeout {
      assert q.timeouts[n].id in q.queued;
    }
  }

  lemma StepValid(q: Queue, ev: Event)
    requires Valid(q)
    ensures Valid(Step(q, ev))
  {
    match ev
    case Queued(id) => EnqueueValid(q, id);
    case Removed(id) => RemoveValid(q, id);
    case RemovedAll => RemoveAllEmpties(q);
    case Fired(n, outcome) => RetryValid(q, n, outcome);
  }

  lemma {:induction false} RunValid(q: Queue, events: seq<Event>)
    requires Valid(q)
    ensures Valid(Run(q, events))
    decreases |events|
  {
    if events != [] {
      StepValid(q, events[0]);
      RunValid(Step(q, events[0]), events[1..]);
    }
  }

  /** `n` is the one live timeout that will retry `id`. */
  ghost predicate OnlyTimeout(q: Queue, id: WorkflowId, n: nat) {
    && n in q.timeouts && q.timeouts[n].id == id
    && forall m :: m in q.timeouts && q.timeouts[m].id == id ==> m == n
  }

  ghost predicate NoTimeout(q: Queue, id: WorkflowId) {
    forall n :: n in q.timeouts ==> q.timeouts[n].id != id
  }

  /**
   In every reachable state a queued workflow has exactly one live timeout, set to the delay of its failures
   so far, unless a retry of it returned early: then it has none and stays queued for nothing. A workflow that
   is not queued has none.
   */
  lemma OneTimeoutPerQueuedWorkflow(events: seq<Event>, id: WorkflowId)
    ensures var q := Run(EMPTY, events);
      if id !in q.queued || q.queued[id].dropped then NoTimeout(q, id)
      else OnlyTimeout(q, id, q.queued[id].timeout) &&
           q.timeouts[q.queued[id].timeout].delay == Delay(q.queued[id].failures)
  {
    RunValid(EMPTY, events);
    var q := Run(EMPTY, events);
    if id in q.queued { assert EntryOk(q, id); }
  }

  /** How a retry ends for its workflow: failing early sets the next timeout, an activation leaves nothing. */
  lemma RetryEffect(q: Queue, n: nat, outcome: Outcome)
    requires Valid(q) && n in q.timeouts
    ensures var id, q' := q.timeouts[n].id, Retry(q, n, outcome);
      match outcome
      case FailedEarly =>
        && id in q'.queued && q'.queued[id].failures == q.queued[id].failures + 1
        && OnlyTimeout(q', id, q'.queued[id].timeout)
        && q'.timeouts[q'.queued[id].timeout].delay == Delay(q.queued[id].failures + 1)
      case ReturnedEarly => id in q'.queued && NoTimeout(q', id)
      case _ => id !in q'.queued && NoTimeout(q', id)
  {
    var id, q' := q.timeouts[n].id, Retry(q, n, outcome);
    RetryValid(q, n, outcome);
    assert EntryOk(q, id);
    if id in q'.queued { assert EntryOk(q', id); }
  }

  /** No workflow but `id` has a different entry or different timeouts. */
  ghost predicate OthersKept(q: Queue, q': Queue, id: WorkflowId) {
    && (forall other :: other != id ==> (other in q'.queued <==> other in q.queued))
    && (forall other :: other != id && other in q.queued ==> q'.queued[other] == q.queued[other])
    && (forall n :: n in q'.timeouts && q'.timeouts[n].id != id ==>
          n in q.timeouts && q'.timeouts[n] == q.timeouts[n])
    && (forall n :: n in q.timeouts && q.timeouts[n].id != id ==>
          n in q'.timeouts && q'.timeouts[n] == q.timeouts[n])
  }

  /** A workflow that is queued, again or for the first time, is retried after a second, by that timeout alone. */
  lemma QueuedAfresh(q: Queue, id: WorkflowId)
    requires Valid(q)
    ensures var q' := Step(q, Queued(id));
      && id in q'.queued && !q'.queued[id].dropped && q'.queued[id].failures == 0
      && OnlyTimeout(q', id, q'.queued[id].timeout)
      && q'.timeouts[q'.queued[id].timeout].delay == 1000
      && OthersKept(q, q', id)
  {
    EnqueueValid(q, id);
    if id in q.queued { assert EntryOk(q, id); }
    assert EntryOk(Step(q, Queued(id)), id);
  }

  /** A workflow that is removed is off the queue and has no timeout any more. */
  lemma RemovedIsGone(q: Queue, id: WorkflowId)
    requires Valid(q)
    ensures var q' := Step(q, Removed(id)); id !in q'.queued && NoTimeout(q', id) && OthersKept(q, q', id)
  {
    if id in q.queued { assert EntryOk(q, id); }
  }

  /** A retry touches no workflow but its own. */
  lemma RetryTouchesItsOwn(q: Queue, n: nat, outcome: Outcome)
    requires Valid(q)
    ensures n in q.timeouts ==> OthersKept(q, Step(q, Fired(n, outcome)), q.timeouts[n].id)
    ensures n !in q.timeouts ==> Step(q, Fired(n, outcome)) == q
  {
    if n in q.timeouts { assert EntryOk(q, q.timeouts[n].id); }
  }

  /** `id` queued, and retried `k` times in a row by the timeout that is live, every time without success. */
  ghost function FailedInARow(q: Queue, id: WorkflowId, k: nat): (q': Queue)
    requires Valid(q)
    ensures Valid(q') && id in q'.queued && q'.queued[id].failures == k && !q'.queued[id].dropped
  {
    if k == 0 then
      QueuedAfresh(q, id);
      EnqueueValid(q, id);
      Step(q, Queued(id))
    else
      var before := FailedInARow(q, id, k - 1);
      assert EntryOk(before, id);
      RetryEffect(before, before.queued[id].timeout, FailedEarly);
      RetryValid(before, before.queued[id].timeout, FailedEarly);
      Step(before, Fired(before.queued[id].timeout, FailedEarly))
  }

  /** After `k` failures in a row the next retry is due in 1000 * 2^k milliseconds, but in a day at the latest. */
  lemma DelayAfterFailures(q: Queue, id: WorkflowId, k: nat)
    requires Valid(q)
    ensures var q' := FailedInARow(q, id, k); var n := q'.queued[id].timeout;
      OnlyTimeout(q', id, n) && q'.timeouts[n].delay == if k < 17 then 1000 * Pow2(k) else 86400000
  {
    var q' := FailedInARow(q, id, k);
    assert EntryOk(q', id);
    if k > 0 { DelayShape(0, k); }
  }

  // ---------------------------------------------------------------- the object

  class ActivationRetries {
    var queuedActivations: map<WorkflowId, Activation>
    var timeouts: map<nat, Timeout>
    var nextTimeout: nat

    function State(): Queue
      reads this
    {
      Queue(queuedActivations, timeouts, nextTimeout)
    }

    constructor ()
      ensures State() == EMPTY
    {
      queuedActivations, timeouts, nextTimeout := map[], map[], 0;
    }

    method SetTimeout(id: WorkflowId, delay: int) returns (n: nat)
      modifies this`timeouts, this`nextTimeout
      ensures n == old(nextTimeout) && nextTimeout == n + 1 && timeouts == old(timeouts)[n := Timeout(id, delay)]
    {
      n := nextTimeout;
      timeouts := timeouts[n := Timeout(id, delay)];
      nextTimeout := n + 1;
    }

    method AddQueuedWorkflowActivation(id: WorkflowId)
      modifies this
      ensures State() == Enqueue(old(State()), id)
    {
      RemoveQueuedWorkflowActivation(id);
      var n := SetTimeout(id, INITIAL_TIMEOUT);
      queuedActivations := queuedActivations[id := Activation(INITIAL_TIMEOUT, n, 0, false)];
    }

    method RemoveQueuedWorkflowActivation(id: WorkflowId)
      modifies this
      ensures State() == Remove(old(State()), id)
    {
      if id in queuedActivations {
        timeouts := timeouts - {queuedActivations[id].timeout};
        queuedActivations := queuedActivations - {id};
      }
    }

    /** The keys are visited in no particular order, and each is deleted on its visit. */
    method RemoveAllQueuedWorkflowActivations()
      requires Valid(State())
      modifies this
      ensures State() == RemoveAll(old(State()))
      ensures queuedActivations == map[] && timeouts == map[]
    {
      ghost var q := State();
      RemoveAllEmpties(q);
      while queuedActivations.Keys != {}
        invariant Valid(State()) && nextTimeout == q.next
        decreases queuedActivations.Keys
      {
        var id :| id in queuedActivations;
        RemoveValid(State(), id);
        RemoveQueuedWorkflowActivation(id);
      }
      assert timeouts.Keys == {};
    }

    /** The catch block of the retry function. */
    method RetryAgain(id: WorkflowId)
      modifies this
      ensures State() == RetryLater(old(State()), id)
    {
      if id in queuedActivations {
        var a := queuedActivations[id];
        var lastTimeout := a.lastTimeout;
        if lastTimeout < MAX_TIMEOUT {
          lastTimeout := if lastTimeout * 2 < MAX_TIMEOUT then lastTimeout * 2 else MAX_TIMEOUT;
        }
        var next := SetTimeout(id, lastTimeout);
        queuedActivations := queuedActivations[id := Activation(lastTimeout, next, a.failures + 1, a.dropped)];
      }
    }

    /** The retry function, run by timeout `n`, with what `add` did in it. */
    method RetryFunction(n: nat, outcome: Outcome)
      requires Valid(State()) && n in timeouts
      modifies this
      ensures Valid(State()) && State() == Retry(old(State()), n, outcome)
    {
      RetryValid(State(), n, outcome);
      var id := timeouts[n].id;
      timeouts := timeouts - {n};
      match outcome {
        case Activated => RemoveQueuedWorkflowActivation(id);
        case ReturnedEarly =>
          queuedActivations := queuedActivations[id := queuedActivations[id].(dropped := true)];
        case FailedEarly => RetryAgain(id);
        case FailedLate =>
          RemoveQueuedWorkflowActivation(id);
          RetryAgain(id);
      }
    }
  }
}
