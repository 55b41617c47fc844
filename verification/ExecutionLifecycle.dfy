/**
 The executions that are active in one process: the `activeExecutions` table, the deferred promises whose
 settling removes an entry again, and the concurrency permits that `add` takes and the settle callback gives
 back. Every entry object ever created has an index in `entries`; the table maps an execution id to the index
 of its current object, so an older object of the same id stays distinguishable from a newer one.

 An `await` inside `add` ends a step: `BeginAdd` runs up to the throttle, `CompleteAdd` from the outcome of
 the database update to the return or the throw.
 */
module ExecutionLifecycle {
  import opened Wrappers
  import opened Counting

  type Id = string

  datatype Mode = Webhook | Trigger | Chat | Manual | Integrated | Cli | Internal | Retry | Failing

  /** The modes that count against the production concurrency limit. */
  predicate Limited(mode: Mode) { mode.Webhook? || mode.Trigger? || mode.Chat? }

  datatype Status = New | Running | Waiting | Ended

  /** The post-execution promise: not settled, settled, settled and its `finally` callback has run. */
  datatype Promise = Pending | Settled | Drained

  datatype Entry = Entry(
    id: Id, mode: Mode, startedAt: int, status: Status, response: Option<nat>, workflow: bool, promise: Promise)

  /** `Removed` is a call whose execution was stopped while it waited: its promise never resolves. */
  datatype AddPc = Queued | Granted | Added(entry: nat) | Lost | Removed

  datatype AddCall = AddCall(id: Id, mode: Mode, resume: bool, pc: AddPc)

  /**
   `granted` and `released` count, for limited modes, the calls of `throttle` that returned and the calls of
   `release`. `capacity` and `queue` are those of the production `ConcurrencyQueue`.
   */
  datatype Process = Process(
    regular: bool, limit: nat, enabled: bool, capacity: int, queue: seq<nat>,
    calls: seq<AddCall>, entries: seq<Entry>, active: map<Id, nat>, granted: nat, released: nat)

  function Init(regular: bool, limit: nat): Process {
    Process(regular, limit, regular, limit, [], [], [], map[], 0, 0)
  }

  ghost predicate WellFormed(s: Process) {
    && (forall id :: id in s.active ==> s.active[id] < |s.entries| && s.entries[s.active[id]].id == id)
    && QueueOk(s.queue, s.calls)
  }

  /** The queue holds exactly the queued calls, each once. */
  ghost predicate QueueOk(queue: seq<nat>, calls: seq<AddCall>) {
    && (forall k :: 0 <= k < |queue| ==> queue[k] < |calls| && calls[queue[k]].pc.Queued?)
    && (forall j, k :: 0 <= j < k < |queue| ==> queue[j] != queue[k])
    && (forall c :: 0 <= c < |calls| && calls[c].pc.Queued? ==> Limited(calls[c].mode) && c in queue)
  }

  ghost predicate SameConfiguration(s: Process, s': Process) {
    s'.limit == s.limit && s'.regular == s.regular && (!s.enabled ==> !s'.enabled)
  }

  // ---------------------------------------------------------------- the steps

  function Throttled(s: Process, mode: Mode, resume: bool): bool {
    s.enabled && Limited(mode) && (resume || s.regular)
  }

  lemma EnqueuedOk(queue: seq<nat>, calls: seq<AddCall>, call: AddCall)
    requires QueueOk(queue, calls) && call.pc == Queued && Limited(call.mode)
    ensures QueueOk(queue + [|calls|], calls + [call])
  {
    assert (queue + [|calls|])[|queue|] == |calls|;
    assert forall c :: c in queue ==> c in queue + [|calls|];
  }

  /** `add` up to and including the call of `throttle`. */
  function BeginAdd(s: Process, id: Id, mode: Mode, resume: bool): (s': Process)
    requires WellFormed(s)
    ensures WellFormed(s') && SameConfiguration(s, s')
  {
    if Throttled(s, mode, resume) && s.capacity <= 0 then
      EnqueuedOk(s.queue, s.calls, AddCall(id, mode, resume, Queued));
      s.(capacity := s.capacity - 1, queue := s.queue + [|s.calls|],
         calls := s.calls + [AddCall(id, mode, resume, Queued)])
    else
      s.(capacity := if Throttled(s, mode, resume) then s.capacity - 1 else s.capacity,
         calls := s.calls + [AddCall(id, mode, resume, Granted)],
         granted := if Limited(mode) && (resume || s.regular) then s.granted + 1 else s.granted)
  }

  /** The rest of `add`: a resume that did not find the record waiting throws, any other call inserts an entry. */
  function CompleteAdd(s: Process, c: nat, updated: bool, now: int): (s': Process)
    requires WellFormed(s)
    ensures WellFormed(s') && SameConfiguration(s, s')
  {
    if c >= |s.calls| || s.calls[c].pc != Granted then s
    else
      var call := s.calls[c];
      if call.resume && !updated then s.(calls := s.calls[c := call.(pc := Lost)])
      else
        var e := |s.entries|;
        var resuming := if call.id in s.active then Some(s.entries[s.active[call.id]]) else None;
        var entry := Entry(call.id, call.mode,
                           if resuming.Some? then resuming.value.startedAt else now,
                           Running,
                           if resuming.Some? then resuming.value.response else None,
                           false, Pending);
        s.(calls := s.calls[c := call.(pc := Added(e))], entries := s.entries + [entry],
           active := s.active[call.id := e])
  }

  /** A promise settles at most once. */
  function Settle(entry: Entry): Entry {
    if entry.promise == Pending then entry.(promise := Settled) else entry
  }

  function StopExecution(s: Process, id: Id): (s': Process)
    requires WellFormed(s)
    ensures WellFormed(s') && SameConfiguration(s, s')
  {
    if id !in s.active then s
    else
      var e := s.active[id];
      if s.entries[e].status == Waiting then s.(active := s.active - {id})
      else s.(entries := s.entries[e := Settle(s.entries[e])])
  }

  function FinalizeExecution(s: Process, id: Id): (s': Process)
    requires WellFormed(s)
    ensures WellFormed(s') && SameConfiguration(s, s')
  {
    if id !in s.active then s
    else s.(entries := s.entries[s.active[id] := Settle(s.entries[s.active[id]])])
  }

  function SetStatus(s: Process, id: Id, status: Status): (s': Process)
    requires WellFormed(s)
    ensures WellFormed(s') && SameConfiguration(s, s')
  {
    if id !in s.active then s
    else s.(entries := s.entries[s.active[id] := s.entries[s.active[id]].(status := status)])
  }

  function AttachResponse(s: Process, id: Id, response: nat): (s': Process)
    requires WellFormed(s)
    ensures WellFormed(s') && SameConfiguration(s, s')
  {
    if id !in s.active then s
    else s.(entries := s.entries[s.active[id] := s.entries[s.active[id]].(response := Some(response))])
  }

  function AttachWorkflow(s: Process, id: Id): (s': Process)
    requires WellFormed(s)
    ensures WellFormed(s') && SameConfiguration(s, s')
  {
    if id !in s.active then s
    else s.(entries := s.entries[s.active[id] := s.entries[s.active[id]].(workflow := true)])
  }

  /** `ConcurrencyQueue.resolveNext`: the longest waiting call goes through. */
  function ResolveNext(s: Process): (s': Process)
    requires WellFormed(s)
    ensures WellFormed(s') && SameConfiguration(s, s')
    ensures s'.entries == s.entries && s'.active == s.active
  {
    if s.queue == [] then s
    else
      var c := s.queue[0];
      s.(queue := s.queue[1..], calls := s.calls[c := s.calls[c].(pc := Granted)], granted := s.granted + 1)
  }

  /** `ConcurrencyControlService.release`. */
  function Release(s: Process, mode: Mode): (s': Process)
    requires WellFormed(s)
    ensures WellFormed(s') && SameConfiguration(s, s')
    ensures s'.entries == s.entries && s'.active == s.active
  {
    if !Limited(mode) then s
    else if !s.enabled then s.(released := s.released + 1)
    else ResolveNext(s.(released := s.released + 1, capacity := s.capacity + 1))
  }

  /** The first place in the queue that is held by a call for `id`; the length of the queue if there is none. */
  function FirstQueued(queue: seq<nat>, calls: seq<AddCall>, id: Id): (k: nat)
    requires forall j :: 0 <= j < |queue| ==> queue[j] < |calls|
    ensures k <= |queue| && (k < |queue| ==> calls[queue[k]].id == id)
    ensures forall j :: 0 <= j < k ==> calls[queue[j]].id != id
  {
    if queue == [] || calls[queue[0]].id == id then 0 else 1 + FirstQueued(queue[1..], calls, id)
  }

  function Without(queue: seq<nat>, k: nat): seq<nat>
    requires k < |queue|
  {
    queue[..k] + queue[k + 1..]
  }

  lemma WithoutQueueOk(queue: seq<nat>, calls: seq<AddCall>, k: nat)
    requires QueueOk(queue, calls) && k < |queue|
    ensures QueueOk(Without(queue, k), calls[queue[k] := calls[queue[k]].(pc := Removed)])
  {
    var rest, calls' := Without(queue, k), calls[queue[k] := calls[queue[k]].(pc := Removed)];
    forall c | 0 <= c < |calls'| && calls'[c].pc.Queued? ensures c in rest {
      var j :| 0 <= j < |queue| && queue[j] == c;
      assert rest[if j < k then j else j - 1] == c;
    }
  }

  /**
   `ConcurrencyControlService.remove`, called when a user stops an execution that waits in the queue. It
   raises the capacity and lets the next call through, although no permit came back.
   */
  function RemoveQueued(s: Process, id: Id, mode: Mode): (s': Process)
    requires WellFormed(s)
    ensures WellFormed(s') && SameConfiguration(s, s')
    ensures s'.entries == s.entries && s'.active == s.active
  {
    var k := FirstQueued(s.queue, s.calls, id);
    if !s.enabled || !Limited(mode) || k == |s.queue| then s
    else
      WithoutQueueOk(s.queue, s.calls, k);
      ResolveNext(Dropped(s, k))
  }

  /** The call at place `k` of the queue is taken out of it. */
  function Dropped(s: Process, k: nat): Process
    requires WellFormed(s) && k < |s.queue|
  {
    var c := s.queue[k];
    s.(capacity := s.capacity + 1, queue := Without(s.queue, k), calls := s.calls[c := s.calls[c].(pc := Removed)])
  }

  /** The `finally` callback of entry object `e`. */
  function SettleCallback(s: Process, e: nat): (s': Process)
    requires WellFormed(s)
    ensures WellFormed(s') && SameConfiguration(s, s')
  {
    if e >= |s.entries| || s.entries[e].promise != Settled then s
    else
      var entry := s.entries[e];
      Release(s, entry.mode).(
        entries := s.entries[e := entry.(promise := Drained, workflow := entry.workflow && entry.status != Waiting)],
        active := if entry.status == Waiting then s.active else s.active - {entry.id})
  }

  // ---------------------------------------------------------------- shutdown

  predicate Cancels(s: Process, entry: Entry, cancelAll: bool) {
    entry.response.Some? || (s.regular && cancelAll)
  }

  /** Is an entry with this content still in the table when the cancel loop is over? */
  predicate Stays(s: Process, entry: Entry, cancelAll: bool) {
    if Cancels(s, entry, cancelAll) then entry.status != Waiting
    else entry.status != Waiting && entry.status != New
  }

  predicate IsCurrent(s: Process, e: nat) {
    e < |s.entries| && s.entries[e].id in s.active && s.active[s.entries[e].id] == e
  }

  /** `shutdown` up to the wait loop, said for all entries at once. */
  function Shutdown(s: Process, cancelAll: bool): (s': Process)
    requires WellFormed(s)
    ensures WellFormed(s') && SameConfiguration(s, s')
  {
    s.(enabled := s.enabled && !s.regular,
       active := map id | id in s.active && Stays(s, s.entries[s.active[id]], cancelAll) :: s.active[id],
       entries := seq(|s.entries|, e requires 0 <= e < |s.entries| =>
         if IsCurrent(s, e) && Cancels(s, s.entries[e], cancelAll) && s.entries[e].status != Waiting
         then Settle(s.entries[e]) else s.entries[e]))
  }

  /** The body of the cancel loop. */
  function CancelOrDrop(s: Process, id: Id, cancelAll: bool): (s': Process)
    requires WellFormed(s) && id in s.active
    ensures WellFormed(s') && SameConfiguration(s, s')
  {
    var entry := s.entries[s.active[id]];
    if Cancels(s, entry, cancelAll) then StopExecution(s, id)
    else if entry.status == Waiting || entry.status == New then s.(active := s.active - {id})
    else s
  }

  /** The cancel loop over `ids`, and the executions it collects for cancellation. */
  function CancelLoop(s: Process, ids: seq<Id>, cancelAll: bool): (r: (Process, seq<Id>))
    requires WellFormed(s)
    ensures WellFormed(r.0) && SameConfiguration(s, r.0)
    decreases |ids|
  {
    if ids == [] then (s, [])
    else if ids[0] !in s.active then CancelLoop(s, ids[1..], cancelAll)
    else
      var (s', rest) := CancelLoop(CancelOrDrop(s, ids[0], cancelAll), ids[1..], cancelAll);
      (s', (if Cancels(s, s.entries[s.active[ids[0]]], cancelAll) then [ids[0]] else []) + rest)
  }

  /** The loop over `ids` that started in `s` has collected `done` and goes on in `s'` over `rest`. */
  ghost predicate CancelsOn(s: Process, ids: seq<Id>, done: seq<Id>, s': Process, rest: seq<Id>, cancelAll: bool) {
    WellFormed(s) && WellFormed(s') &&
    CancelLoop(s, ids, cancelAll) ==
      (CancelLoop(s', rest, cancelAll).0, done + CancelLoop(s', rest, cancelAll).1)
  }

  lemma CancelStarts(s: Process, ids: seq<Id>, cancelAll: bool)
    requires WellFormed(s)
    ensures CancelsOn(s, ids, [], s, ids, cancelAll)
  {
    assert [] + CancelLoop(s, ids, cancelAll).1 == CancelLoop(s, ids, cancelAll).1;
  }

  lemma CancelTurn(s: Process, ids: seq<Id>, done: seq<Id>, s': Process, rest: seq<Id>, cancelAll: bool)
    requires CancelsOn(s, ids, done, s', rest, cancelAll) && rest != []
    ensures rest[0] !in s'.active ==> CancelsOn(s, ids, done, s', rest[1..], cancelAll)
    ensures rest[0] in s'.active ==>
      CancelsOn(s, ids, if Cancels(s', s'.entries[s'.active[rest[0]]], cancelAll) then done + [rest[0]] else done,
                CancelOrDrop(s', rest[0], cancelAll), rest[1..], cancelAll)
  {
    if rest[0] in s'.active {
      var later := CancelLoop(CancelOrDrop(s', rest[0], cancelAll), rest[1..], cancelAll);
      if Cancels(s', s'.entries[s'.active[rest[0]]], cancelAll) {
        assert CancelLoop(s', rest, cancelAll) == (later.0, [rest[0]] + later.1);
        Regroup(done, [rest[0]], later.1);
      } else {
        assert CancelLoop(s', rest, cancelAll) == (later.0, [] + later.1);
        Regroup(done, [], later.1);
        assert done + [] == done;
      }
    } else {
      assert CancelLoop(s', rest, cancelAll) == CancelLoop(s', rest[1..], cancelAll);
    }
  }

  lemma Regroup(a: seq<Id>, b: seq<Id>, c: seq<Id>)
    ensures a + (b + c) == a + b + c
  {
  }

  /** The loop part of the way: the executions in `todo` are still to be visited. */
  ghost predicate Cancelling(s: Process, cancelAll: bool, todo: set<Id>, s': Process)
    requires WellFormed(s)
  {
    && s' == s.(entries := s'.entries, active := s'.active) && |s'.entries| == |s.entries| && todo <= s.active.Keys
    && (forall id :: id in s'.active <==>
          id in s.active && (id in todo || Stays(s, s.entries[s.active[id]], cancelAll)))
    && (forall id :: id in s'.active ==> s'.active[id] == s.active[id])
    && (forall e :: 0 <= e < |s.entries| ==>
          s'.entries[e] == if IsCurrent(s, e) && s.entries[e].id !in todo && Cancels(s, s.entries[e], cancelAll) &&
                              s.entries[e].status != Waiting
                           then Settle(s.entries[e]) else s.entries[e])
  }

  lemma CancelNone(s: Process, cancelAll: bool)
    requires WellFormed(s)
    ensures Cancelling(s, cancelAll, s.active.Keys, s)
  {
  }

  lemma CancelOne(s: Process, cancelAll: bool, todo: set<Id>, id: Id, s': Process)
    requires WellFormed(s) && Cancelling(s, cancelAll, todo, s') && id in todo
    ensures id in s'.active && s'.active[id] == s.active[id] && s'.entries[s'.active[id]] == s.entries[s.active[id]]
    ensures var e := s.active[id]; var entry := s.entries[e];
      Cancelling(s, cancelAll, todo - {id}, s'.(
        entries := if Cancels(s, entry, cancelAll) && entry.status != Waiting
                   then s'.entries[e := Settle(entry)] else s'.entries,
        active := if Stays(s, entry, cancelAll) then s'.active else s'.active - {id}))
  {
    assert IsCurrent(s, s.active[id]);
  }

  lemma CancelOrDropForm(s: Process, cancelAll: bool, id: Id)
    requires WellFormed(s) && id in s.active
    ensures var e := s.active[id]; var entry := s.entries[e];
      CancelOrDrop(s, id, cancelAll) == s.(
        entries := if Cancels(s, entry, cancelAll) && entry.status != Waiting
                   then s.entries[e := Settle(entry)] else s.entries,
        active := if Stays(s, entry, cancelAll) then s.active else s.active - {id})
  {
  }

  ghost predicate Unrepeated(ids: seq<Id>) {
    forall j, k :: 0 <= j < k < |ids| ==> ids[j] != ids[k]
  }

  /** The rest of the loop leads to the closed form, and collects exactly the executions still to be canceled. */
  lemma {:induction false} CancelRest(s: Process, cancelAll: bool, ids: seq<Id>, todo: set<Id>, s': Process)
    requires WellFormed(s) && WellFormed(s') && Cancelling(s, cancelAll, todo, s')
    requires Unrepeated(ids) && forall id :: id in todo <==> id in ids
    ensures var (end, canceled) := CancelLoop(s', ids, cancelAll);
      && Cancelling(s, cancelAll, {}, end)
      && forall id :: id in canceled <==> id in todo && Cancels(s, s.entries[s.active[id]], cancelAll)
    decreases |ids|
  {
    if ids == [] {
      assert todo == {};
    } else {
      var id, rest := ids[0], ids[1..];
      assert id in todo && id !in rest && forall other :: other in ids <==> other == id || other in rest;
      CancelOne(s, cancelAll, todo, id, s');
      CancelOrDropForm(s', cancelAll, id);
      CancelRest(s, cancelAll, rest, todo - {id}, CancelOrDrop(s', id, cancelAll));
    }
  }

  /** Whatever the order of the keys, the cancel loop does to all entries what the closed form says. */
  lemma CancelLoopIsShutdown(s: Process, cancelAll: bool, ids: seq<Id>)
    requires WellFormed(s) && Unrepeated(ids) && forall id :: id in ids <==> id in s.active
    ensures var disabled := s.(enabled := s.enabled && !s.regular);
      var (end, canceled) := CancelLoop(disabled, ids, cancelAll);
      && end == Shutdown(s, cancelAll)
      && forall id :: id in canceled <==>
           id in s.active && (s.entries[s.active[id]].response.Some? || (s.regular && cancelAll))
  {
    var disabled := s.(enabled := s.enabled && !s.regular);
    CancelNone(disabled, cancelAll);
    CancelRest(disabled, cancelAll, ids, disabled.active.Keys, disabled);
    var end := CancelLoop(disabled, ids, cancelAll).0;
    CancelledEntries(s, cancelAll, disabled, end);
    CancelledTable(s, cancelAll, disabled, end);
  }

  lemma CancelledEntries(s: Process, cancelAll: bool, disabled: Process, end: Process)
    requires WellFormed(s) && disabled == s.(enabled := s.enabled && !s.regular)
    requires Cancelling(disabled, cancelAll, {}, end)
    ensures end.entries == Shutdown(s, cancelAll).entries
  {
  }

  lemma CancelledTable(s: Process, cancelAll: bool, disabled: Process, end: Process)
    requires WellFormed(s) && disabled == s.(enabled := s.enabled && !s.regular)
    requires Cancelling(disabled, cancelAll, {}, end)
    ensures end.active == Shutdown(s, cancelAll).active
  {
  }

  // ---------------------------------------------------------------- runs

  /** What can happen. `Wait` is the one status change the program makes: a node puts its execution to wait. */
  datatype Event =
    | Begin(id: Id, mode: Mode, resume: bool)
    | Complete(c: nat, updated: bool, now: int)
    | Stop(id: Id)
    | Finalize(id: Id)
    | Wait(id: Id)
    | Respond(id: Id, response: nat)
    | Attach(id: Id)
    | Callback(e: nat)
    | StopQueued(id: Id, mode: Mode)
    | Down(cancelAll: bool)

  function Step(s: Process, ev: Event): (s': Process)
    requires WellFormed(s)
    ensures WellFormed(s') && SameConfiguration(s, s')
  {
    match ev
    case Begin(id, mode, resume) => BeginAdd(s, id, mode, resume)
    case Complete(c, updated, now) => CompleteAdd(s, c, updated, now)
    case Stop(id) => StopExecution(s, id)
    case Finalize(id) => FinalizeExecution(s, id)
    case Wait(id) => SetStatus(s, id, Waiting)
    case Respond(id, response) => AttachResponse(s, id, response)
    case Attach(id) => AttachWorkflow(s, id)
    case Callback(e) => SettleCallback(s, e)
    case StopQueued(id, mode) => RemoveQueued(s, id, mode)
    case Down(cancelAll) => Shutdown(s, cancelAll)
  }

  function Run(s: Process, events: seq<Event>): (s': Process)
    requires WellFormed(s)
    ensures WellFormed(s') && SameConfiguration(s, s')
    decreases |events|
  {
    if events == [] then s else Run(Step(s, events[0]), events[1..])
  }

  /** What a step that works on one entry makes of it, if it stays. */
  function EntryAfter(entry: Entry, ev: Event): Entry {
    match ev
    case Wait(_) => entry.(status := Waiting)
    case Respond(_, response) => entry.(response := Some(response))
    case Attach(_) => entry.(workflow := true)
    case _ => Settle(entry)
  }

  /** The steps that work on one entry. */
  predicate OnEntry(ev: Event) { ev.Stop? || ev.Finalize? || ev.Wait? || ev.Respond? || ev.Attach? }

  /** A stop of a waiting execution. */
  predicate StopsWaiting(s: Process, ev: Event)
    requires WellFormed(s) && OnEntry(ev)
  {
    ev.Stop? && ev.id in s.active && s.entries[s.active[ev.id]].status == Waiting
  }

  lemma EntryStepForm(s: Process, ev: Event)
    requires WellFormed(s) && OnEntry(ev)
    ensures Step(s, ev) ==
      if ev.id !in s.active then s
      else if StopsWaiting(s, ev) then s.(active := s.active - {ev.id})
      else s.(entries := s.entries[s.active[ev.id] := EntryAfter(s.entries[s.active[ev.id]], ev)])
  {
  }

  /** Steps that work on one entry touch neither calls nor permits, and no entry's id, mode or finished callback. */
  lemma EntryStepShape(s: Process, ev: Event)
    requires WellFormed(s) && OnEntry(ev)
    ensures var s' := Step(s, ev);
      && s'.(entries := s.entries, active := s.active) == s && SameEntries(s.entries, s'.entries)
  {
    EntryStepForm(s, ev);
    if ev.id in s.active {
      var e := s.active[ev.id];
      OneEntryChanged(s.entries, e, EntryAfter(s.entries[e], ev));
    }
  }

  lemma OneEntryChanged(entries: seq<Entry>, e: nat, entry: Entry)
    requires e < |entries| && entry.id == entries[e].id && entry.mode == entries[e].mode
    requires (entry.promise == Drained) == (entries[e].promise == Drained)
    ensures SameEntries(entries, entries[e := entry])
  {
  }

  ghost predicate SameEntries(before: seq<Entry>, after: seq<Entry>) {
    |after| == |before| &&
    forall e :: 0 <= e < |before| ==>
      && after[e].id == before[e].id && after[e].mode == before[e].mode
      && (after[e].promise == Drained) == (before[e].promise == Drained)
  }

  // ---------------------------------------------------------------- permits

  predicate InFlight(call: AddCall) { Limited(call.mode) && call.pc.Granted? }

  predicate LostPermit(call: AddCall) { Limited(call.mode) && call.pc.Lost? }

  predicate Undrained(entry: Entry) { Limited(entry.mode) && entry.promise != Drained }

  predicate Released(entry: Entry) { Limited(entry.mode) && entry.promise == Drained }

  /** The permits that are out: adds in flight, promises whose callback has not run, lost resumes. */
  function Held(s: Process): nat {
    Count(s.calls, InFlight) + Count(s.entries, Undrained) + Count(s.calls, LostPermit)
  }

  /** `over` is how many calls removals have let through so far. */
  ghost predicate PermitsOk(s: Process, over: nat) {
    && WellFormed(s)
    && s.regular
    && s.granted == s.released + Held(s)
    && s.released == Count(s.entries, Released)
    && (s.enabled ==> s.capacity == s.limit - Held(s) - |s.queue| && Held(s) <= s.limit + over &&
                      (s.queue != [] ==> Held(s) >= s.limit))
  }

  /** A removal from the queue while another call waits there: that call goes through without a permit. */
  predicate Overtakes(s: Process, ev: Event)
    requires WellFormed(s)
  {
    ev.StopQueued? && s.enabled && Limited(ev.mode) && |s.queue| >= 2 &&
    FirstQueued(s.queue, s.calls, ev.id) < |s.queue|
  }

  function LetThrough(s: Process, events: seq<Event>): nat
    requires WellFormed(s)
    decreases |events|
  {
    if events == [] then 0
    else LetThrough(Step(s, events[0]), events[1..]) + if Overtakes(s, events[0]) then 1 else 0
  }

  lemma BeginPermits(s: Process, over: nat, id: Id, mode: Mode, resume: bool)
    requires PermitsOk(s, over)
    ensures PermitsOk(BeginAdd(s, id, mode, resume), over)
  {
    var pc := if Throttled(s, mode, resume) && s.capacity <= 0 then Queued else Granted;
    var call := AddCall(id, mode, resume, pc);
    assert BeginAdd(s, id, mode, resume).calls == s.calls + [call];
    CountAppend(s.calls, call, InFlight);
    CountAppend(s.calls, call, LostPermit);
  }

  lemma CompletePermits(s: Process, over: nat, c: nat, updated: bool, now: int)
    requires PermitsOk(s, over)
    ensures PermitsOk(CompleteAdd(s, c, updated, now), over)
  {
    var s' := CompleteAdd(s, c, updated, now);
    if c < |s.calls| && s.calls[c].pc == Granted {
      CountUpdate(s.calls, c, s'.calls[c], InFlight);
      CountUpdate(s.calls, c, s'.calls[c], LostPermit);
      if |s'.entries| > |s.entries| {
        CountAppend(s.entries, s'.entries[|s.entries|], Undrained);
        CountAppend(s.entries, s'.entries[|s.entries|], Released);
      }
    }
  }

  /** The next call goes through, if one waits, and nothing else happens to the counts. */
  lemma ResolveCounts(s: Process)
    requires WellFormed(s)
    ensures var s1, next := ResolveNext(s), if s.queue == [] then 0 else 1;
      && s1.granted == s.granted + next && |s1.queue| == |s.queue| - next
      && s1.capacity == s.capacity && s1.released == s.released
      && Count(s1.calls, InFlight) == Count(s.calls, InFlight) + next
      && Count(s1.calls, LostPermit) == Count(s.calls, LostPermit)
  {
    if s.queue != [] {
      var c := s.queue[0];
      CountUpdate(s.calls, c, s.calls[c].(pc := Granted), InFlight);
      CountUpdate(s.calls, c, s.calls[c].(pc := Granted), LostPermit);
    }
  }

  lemma CallbackPermits(s: Process, over: nat, e: nat)
    requires PermitsOk(s, over)
    ensures PermitsOk(SettleCallback(s, e), over)
  {
    var s' := SettleCallback(s, e);
    if e < |s.entries| && s.entries[e].promise == Settled {
      CountUpdate(s.entries, e, s'.entries[e], Undrained);
      CountUpdate(s.entries, e, s'.entries[e], Released);
      if Limited(s.entries[e].mode) && s.enabled {
        ResolveCounts(s.(released := s.released + 1, capacity := s.capacity + 1));
      }
    }
  }

  /** A removal takes out one more permit exactly if it lets another call through. */
  lemma RemovePermits(s: Process, over: nat, ev: Event)
    requires PermitsOk(s, over) && ev.StopQueued?
    ensures Held(Step(s, ev)) == Held(s) + if Overtakes(s, ev) then 1 else 0
    ensures PermitsOk(Step(s, ev), over + if Overtakes(s, ev) then 1 else 0)
  {
    var k := FirstQueued(s.queue, s.calls, ev.id);
    if s.enabled && Limited(ev.mode) && k < |s.queue| {
      DroppedCounts(s, k);
      ResolveCounts(Dropped(s, k));
    }
  }

  lemma DroppedCounts(s: Process, k: nat)
    requires WellFormed(s) && k < |s.queue|
    ensures WellFormed(Dropped(s, k)) && |Dropped(s, k).queue| == |s.queue| - 1
    ensures Count(Dropped(s, k).calls, InFlight) == Count(s.calls, InFlight)
    ensures Count(Dropped(s, k).calls, LostPermit) == Count(s.calls, LostPermit)
  {
    var c := s.queue[k];
    CountUpdate(s.calls, c, s.calls[c].(pc := Removed), InFlight);
    CountUpdate(s.calls, c, s.calls[c].(pc := Removed), LostPermit);
    WithoutQueueOk(s.queue, s.calls, k);
  }

  lemma {:induction false} SamePermits(before: seq<Entry>, after: seq<Entry>)
    requires SameEntries(before, after)
    ensures Count(after, Undrained) == Count(before, Undrained) && Count(after, Released) == Count(before, Released)
  {
    if before != [] { SamePermits(before[..|before| - 1], after[..|after| - 1]); }
  }

  lemma StepPermits(s: Process, over: nat, ev: Event)
    requires PermitsOk(s, over)
    ensures PermitsOk(Step(s, ev), over + if Overtakes(s, ev) then 1 else 0)
  {
    match ev
    case Begin(id, mode, resume) => BeginPermits(s, over, id, mode, resume);
    case Complete(c, updated, now) => CompletePermits(s, over, c, updated, now);
    case Callback(e) => CallbackPermits(s, over, e);
    case StopQueued(id, mode) => RemovePermits(s, over, ev);
    case Down(cancelAll) => SamePermits(s.entries, Shutdown(s, cancelAll).entries);
    case _ => EntryStepPermits(s, over, ev);
  }

  lemma EntryStepPermits(s: Process, over: nat, ev: Event)
    requires PermitsOk(s, over) && OnEntry(ev)
    ensures PermitsOk(Step(s, ev), over)
  {
    EntryStepShape(s, ev);
    SamePermits(s.entries, Step(s, ev).entries);
  }

  lemma {:induction false} RunPermits(s: Process, over: nat, events: seq<Event>)
    requires PermitsOk(s, over)
    ensures PermitsOk(Run(s, events), over + LetThrough(s, events))
    decreases |events|
  {
    if events != [] {
      StepPermits(s, over, events[0]);
      RunPermits(Step(s, events[0]), over + if Overtakes(s, events[0]) then 1 else 0, events[1..]);
    }
  }

  /**
   Regular mode, any run: every permit granted has been released or is out with an add in flight, with a
   promise whose callback has not run, or with a resume that lost; each entry has given back exactly one
   permit if its callback has run and none otherwise, however often it was stopped and finalized. Until
   shutdown the capacity is what the limit leaves after the permits out and the calls that wait, a call waits
   only while the limit is used up, and the limit is exceeded by at most the calls that removals let through.
   */
  lemma PermitAccounting(limit: nat, events: seq<Event>)
    ensures var s := Run(Init(true, limit), events);
      && s.granted == s.released + Held(s)
      && s.released == Count(s.entries, Released)
      && (s.enabled ==>
            && s.capacity == limit - Held(s) - |s.queue|
            && Held(s) <= limit + LetThrough(Init(true, limit), events)
            && (s.queue != [] ==> Held(s) >= limit))
  {
    RunPermits(Init(true, limit), 0, events);
  }

  /**
   The only step that takes more permits out than the limit allows is a removal from the queue while another
   call waits there; it always does.
   */
  lemma LimitBrokenByRemoval(limit: nat, events: seq<Event>, ev: Event)
    requires var s := Run(Init(true, limit), events); Held(s) <= limit && Step(s, ev).enabled
    ensures var s := Run(Init(true, limit), events); Held(Step(s, ev)) > limit <==> Overtakes(s, ev)
  {
    var s := Run(Init(true, limit), events);
    RunPermits(Init(true, limit), 0, events);
    assert PermitsOk(s, 0);
    StepPermits(s, 0, ev);
    if Overtakes(s, ev) { RemovePermits(s, 0, ev); }
  }

  /**
   What every step keeps: calls and entries, which are only added; the loss of a lost call; the wait of a call
   that was removed and, once shutdown has disabled the limit, of a call in the queue.
   */
  ghost predicate Grows(s: Process, s': Process) {
    && |s.calls| <= |s'.calls| && |s.entries| <= |s'.entries|
    && (forall c :: 0 <= c < |s.calls| ==> CallGrows(s, s.calls[c], s'.calls[c]))
    && (forall e :: 0 <= e < |s.entries| ==>
          s'.entries[e].id == s.entries[e].id && s'.entries[e].mode == s.entries[e].mode)
  }

  ghost predicate CallGrows(s: Process, before: AddCall, after: AddCall) {
    && after.mode == before.mode
    && (before.pc.Lost? ==> after.pc.Lost?)
    && (before.pc.Removed? ==> after.pc.Removed?)
    && (!s.enabled && before.pc.Queued? ==> after.pc.Queued?)
  }

  lemma ReleaseGrows(s: Process, mode: Mode)
    requires WellFormed(s)
    ensures Grows(s, Release(s, mode))
  {
  }

  lemma ResolveGrows(s: Process)
    requires WellFormed(s) && s.enabled
    ensures Grows(s, ResolveNext(s))
  {
  }

  lemma GrowsOn(s: Process, s1: Process, s2: Process)
    requires Grows(s, s1) && Grows(s1, s2) && s1.enabled == s.enabled
    ensures Grows(s, s2)
  {
    forall c | 0 <= c < |s.calls| ensures CallGrows(s, s.calls[c], s2.calls[c]) {
      assert CallGrows(s, s.calls[c], s1.calls[c]) && CallGrows(s1, s1.calls[c], s2.calls[c]);
    }
  }

  lemma RemoveGrows(s: Process, id: Id, mode: Mode)
    requires WellFormed(s)
    ensures Grows(s, RemoveQueued(s, id, mode))
  {
    var k := FirstQueued(s.queue, s.calls, id);
    if s.enabled && Limited(mode) && k < |s.queue| {
      WithoutQueueOk(s.queue, s.calls, k);
      var s1 := Dropped(s, k);
      assert Grows(s, s1);
      ResolveGrows(s1);
      GrowsOn(s, s1, ResolveNext(s1));
    }
  }

  lemma CallbackGrows(s: Process, e: nat)
    requires WellFormed(s)
    ensures Grows(s, SettleCallback(s, e))
  {
    if e < |s.entries| { ReleaseGrows(s, s.entries[e].mode); }
  }

  lemma EntryStepGrows(s: Process, ev: Event)
    requires WellFormed(s) && OnEntry(ev)
    ensures Grows(s, Step(s, ev))
  {
    EntryStepShape(s, ev);
    EntriesGrow(s, Step(s, ev));
  }

  lemma EntriesGrow(s: Process, s': Process)
    requires s'.calls == s.calls && SameEntries(s.entries, s'.entries)
    ensures Grows(s, s')
  {
  }

  lemma BeginGrows(s: Process, id: Id, mode: Mode, resume: bool)
    requires WellFormed(s)
    ensures Grows(s, BeginAdd(s, id, mode, resume))
  {
  }

  lemma CompleteGrows(s: Process, c: nat, updated: bool, now: int)
    requires WellFormed(s)
    ensures Grows(s, CompleteAdd(s, c, updated, now))
  {
  }

  lemma ShutdownGrows(s: Process, cancelAll: bool)
    requires WellFormed(s)
    ensures Grows(s, Shutdown(s, cancelAll))
  {
  }

  lemma StepGrows(s: Process, ev: Event)
    requires WellFormed(s)
    ensures Grows(s, Step(s, ev))
  {
    match ev
    case Callback(e) => CallbackGrows(s, e);
    case StopQueued(id, mode) => RemoveGrows(s, id, mode);
    case Begin(id, mode, resume) => BeginGrows(s, id, mode, resume);
    case Complete(c, updated, now) => CompleteGrows(s, c, updated, now);
    case Down(cancelAll) => ShutdownGrows(s, cancelAll);
    case _ => EntryStepGrows(s, ev);
  }

  lemma {:induction false} RunGrows(s: Process, events: seq<Event>)
    requires WellFormed(s)
    ensures Grows(s, Run(s, events))
    decreases |events|
  {
    if events != [] {
      StepGrows(s, events[0]);
      RunGrows(Step(s, events[0]), events[1..]);
    }
  }

  lemma {:induction false} LostGrows(before: seq<AddCall>, after: seq<AddCall>)
    requires |before| <= |after|
    requires forall c :: 0 <= c < |before| ==>
      after[c].mode == before[c].mode && (before[c].pc.Lost? ==> after[c].pc.Lost?)
    ensures Count(before, LostPermit) <= Count(after, LostPermit)
    decreases |after|
  {
    if before == [] {
    } else if |before| == |after| {
      LostGrows(before[..|before| - 1], after[..|after| - 1]);
    } else {
      LostGrows(before, after[..|after| - 1]);
    }
  }

  /**
   A resume that loses never gives its permit back: once as many have lost as the limit allows, the limited
   executions that are starting or running, together with any further losers, are at most as many as removals
   from the queue have let through. Without a removal none is let through again until shutdown.
   */
  lemma LostResumesStarve(limit: nat, events: seq<Event>, later: seq<Event>)
    requires Count(Run(Init(true, limit), events).calls, LostPermit) >= limit
    requires Run(Run(Init(true, limit), events), later).enabled
    ensures var s := Run(Init(true, limit), events); var s' := Run(s, later);
      Count(s'.calls, InFlight) + Count(s'.entries, Undrained) + (Count(s'.calls, LostPermit) - limit)
        <= LetThrough(Init(true, limit), events) + LetThrough(s, later)
  {
    var s := Run(Init(true, limit), events);
    RunPermits(Init(true, limit), 0, events);
    RunPermits(s, LetThrough(Init(true, limit), events), later);
    RunGrows(s, later);
    LostGrows(s.calls, Run(s, later).calls);
  }

  /** While lost resumes hold all permits and nothing runs, a call goes through exactly by such a removal. */
  lemma StarvedUntilRemoval(limit: nat, events: seq<Event>, ev: Event)
    requires var s := Run(Init(true, limit), events);
      && Count(s.calls, LostPermit) >= limit && Count(s.calls, InFlight) == 0 && Count(s.entries, Undrained) == 0
      && Step(s, ev).enabled
    ensures var s := Run(Init(true, limit), events); Step(s, ev).granted > s.granted <==> Overtakes(s, ev)
  {
    var s := Run(Init(true, limit), events);
    RunPermits(Init(true, limit), 0, events);
    StarvedCapacity(s, LetThrough(Init(true, limit), events));
    StarvedStep(s, ev);
  }

  lemma StarvedCapacity(s: Process, over: nat)
    requires PermitsOk(s, over) && s.enabled && Count(s.calls, LostPermit) >= s.limit
    ensures s.capacity <= 0
  {
  }

  lemma StarvedStep(s: Process, ev: Event)
    requires WellFormed(s) && s.regular && s.enabled && s.capacity <= 0 && Count(s.entries, Undrained) == 0
    ensures Step(s, ev).granted > s.granted <==> Overtakes(s, ev)
  {
    match ev
    case Callback(e) => StarvedCallback(s, e);
    case StopQueued(id, mode) => RemovalGrants(s, ev);
    case Begin(id, mode, resume) => StarvedBegin(s, id, mode, resume);
    case _ =>
  }

  lemma StarvedBegin(s: Process, id: Id, mode: Mode, resume: bool)
    requires WellFormed(s) && s.regular && s.enabled && s.capacity <= 0
    ensures BeginAdd(s, id, mode, resume).granted == s.granted
  {
  }

  lemma StarvedCallback(s: Process, e: nat)
    requires WellFormed(s) && Count(s.entries, Undrained) == 0
    ensures SettleCallback(s, e).granted == s.granted
  {
    if e < |s.entries| && Undrained(s.entries[e]) { CountPositive(s.entries, e, Undrained); }
  }

  lemma RemovalGrants(s: Process, ev: Event)
    requires WellFormed(s) && ev.StopQueued?
    ensures Step(s, ev).granted > s.granted <==> Overtakes(s, ev)
  {
    var k := FirstQueued(s.queue, s.calls, ev.id);
    if k < |s.queue| { WithoutQueueOk(s.queue, s.calls, k); }
  }

  /**
   A limit of one, a resume that lost, two calls in the queue: stopping the first lets the second through,
   and two permits are out.
   */
  lemma RemovalOvertakes(a: Id, b: Id, c: Id, mode: Mode, now: int) returns (events: seq<Event>, s: Process)
    requires Limited(mode) && b != c
    ensures s == Run(Init(true, 1), events) && s.enabled && Held(s) == 2
    ensures s.calls ==
      [AddCall(a, mode, true, Lost), AddCall(b, mode, false, Removed), AddCall(c, mode, false, Granted)]
  {
    var waiting, s0 := StarvedQueue(a, b, c, mode, now);
    events := waiting + [StopQueued(b, mode)];
    RunSplit(Init(true, 1), waiting, [StopQueued(b, mode)]);
    RunOne(s0, StopQueued(b, mode));
    s := RemoveFirst(s0, a, b, c, mode);
    OvertakenHolds(s0, LetThrough(Init(true, 1), waiting), StopQueued(b, mode));
  }

  lemma OvertakenHolds(s: Process, over: nat, ev: Event)
    requires PermitsOk(s, over) && Overtakes(s, ev)
    ensures Held(Step(s, ev)) == Held(s) + 1
  {
    RemovePermits(s, over, ev);
  }

  lemma RemoveFirst(s0: Process, a: Id, b: Id, c: Id, mode: Mode) returns (s: Process)
    requires WellFormed(s0) && s0.enabled && s0.queue == [1, 2] && Limited(mode)
    requires s0.calls == Queued3(a, b, c, mode)
    ensures s == RemoveQueued(s0, b, mode) && s.enabled && Overtakes(s0, StopQueued(b, mode))
    ensures s.calls ==
      [AddCall(a, mode, true, Lost), AddCall(b, mode, false, Removed), AddCall(c, mode, false, Granted)]
  {
    s := RemoveQueued(s0, b, mode);
    assert FirstQueued(s0.queue, s0.calls, b) == 0;
    assert Dropped(s0, 0).queue == [2];
  }

  function Queued3(a: Id, b: Id, c: Id, mode: Mode): seq<AddCall> {
    [AddCall(a, mode, true, Lost), AddCall(b, mode, false, Queued), AddCall(c, mode, false, Queued)]
  }

  lemma RunOne(s: Process, ev: Event)
    requires WellFormed(s)
    ensures Run(s, [ev]) == Step(s, ev)
  {
    assert Run(s, [ev]) == Run(Step(s, ev), [ev][1..]);
  }

  lemma StarvedQueue(a: Id, b: Id, c: Id, mode: Mode, now: int) returns (events: seq<Event>, s: Process)
    requires Limited(mode)
    ensures s == Run(Init(true, 1), events) && s.enabled && s.queue == [1, 2] && s.entries == []
    ensures s.calls == Queued3(a, b, c, mode) && Held(s) == 1
    ensures PermitsOk(s, LetThrough(Init(true, 1), events))
  {
    var lost, s1 := LostResume(a, mode, now);
    events := lost + [Begin(b, mode, false)];
    RunSplit(Init(true, 1), lost, [Begin(b, mode, false)]);
    RunOne(s1, Begin(b, mode, false));
    RunSplit(Init(true, 1), events, [Begin(c, mode, false)]);
    RunOne(BeginAdd(s1, b, mode, false), Begin(c, mode, false));
    events := events + [Begin(c, mode, false)];
    s := TwoQueued(s1, a, b, c, mode);
    RunPermits(Init(true, 1), 0, events);
    CountThree(s.calls, InFlight);
    CountThree(s.calls, LostPermit);
  }

  lemma TwoQueued(s1: Process, a: Id, b: Id, c: Id, mode: Mode) returns (s: Process)
    requires WellFormed(s1) && s1.enabled && s1.regular && s1.capacity == 0 && s1.queue == [] && Limited(mode)
    requires s1.calls == [AddCall(a, mode, true, Lost)]
    ensures s == BeginAdd(BeginAdd(s1, b, mode, false), c, mode, false)
    ensures s.enabled && s.entries == s1.entries && s.queue == [1, 2] && s.calls == Queued3(a, b, c, mode)
  {
    QueuesUp(s1, b, mode);
    var s2 := BeginAdd(s1, b, mode, false);
    QueuesUp(s2, c, mode);
    s := BeginAdd(s2, c, mode, false);
  }

  lemma QueuesUp(s: Process, id: Id, mode: Mode)
    requires WellFormed(s) && s.enabled && s.regular && s.capacity <= 0 && Limited(mode)
    ensures BeginAdd(s, id, mode, false) == Enqueued(s, AddCall(id, mode, false, Queued))
  {
  }

  function Enqueued(s: Process, call: AddCall): Process {
    s.(capacity := s.capacity - 1, queue := s.queue + [|s.calls|], calls := s.calls + [call])
  }

  /** A resume that lost, with a limit of one. */
  lemma LostResume(a: Id, mode: Mode, now: int) returns (events: seq<Event>, s: Process)
    requires Limited(mode)
    ensures s == Run(Init(true, 1), events)
    ensures s.enabled && s.regular && s.queue == [] && s.entries == [] && s.capacity == 0
    ensures s.calls == [AddCall(a, mode, true, Lost)]
  {
    events := [Begin(a, mode, true)] + [Complete(0, false, now)];
    RunSplit(Init(true, 1), [Begin(a, mode, true)], [Complete(0, false, now)]);
    RunOne(Init(true, 1), Begin(a, mode, true));
    var s1 := BeginAdd(Init(true, 1), a, mode, true);
    RunOne(s1, Complete(0, false, now));
    s := CompleteAdd(s1, 0, false, now);
  }

  lemma CountThree<T>(s: seq<T>, p: T -> bool)
    requires |s| == 3
    ensures Count(s, p) == (if p(s[0]) then 1 else 0) + (if p(s[1]) then 1 else 0) + (if p(s[2]) then 1 else 0)
  {
    assert Count(s[..2], p) == Count(s[..2][..1], p) + if p(s[1]) then 1 else 0;
    assert Count(s[..2][..1], p) == Count(s[..2][..1][..0], p) + if p(s[0]) then 1 else 0;
  }

  /** An execution that was stopped while it waited in the queue never starts. */
  lemma StoppedWhileQueuedNeverStarts(s: Process, ev: Event, later: seq<Event>)
    requires WellFormed(s) && s.enabled && ev.StopQueued? && Limited(ev.mode)
    requires FirstQueued(s.queue, s.calls, ev.id) < |s.queue|
    ensures var c, s' := s.queue[FirstQueued(s.queue, s.calls, ev.id)], Run(Step(s, ev), later);
      c < |s'.calls| && s'.calls[c].pc == Removed
  {
    RemovedCall(s, ev.id, ev.mode);
    RunGrows(Step(s, ev), later);
    var c := s.queue[FirstQueued(s.queue, s.calls, ev.id)];
    assert CallGrows(Step(s, ev), Step(s, ev).calls[c], Run(Step(s, ev), later).calls[c]);
  }

  lemma RemovedCall(s: Process, id: Id, mode: Mode)
    requires WellFormed(s) && s.enabled && Limited(mode) && FirstQueued(s.queue, s.calls, id) < |s.queue|
    ensures var c, s' := s.queue[FirstQueued(s.queue, s.calls, id)], RemoveQueued(s, id, mode);
      c < |s'.calls| && s'.calls[c].pc == Removed
  {
    var k := FirstQueued(s.queue, s.calls, id);
    WithoutQueueOk(s.queue, s.calls, k);
    var s1 := Dropped(s, k);
    assert s1.calls[s.queue[k]].pc == Removed;
    ResolveGrows(s1);
    assert CallGrows(s1, s1.calls[s.queue[k]], ResolveNext(s1).calls[s.queue[k]]);
  }

  /** After the cancel loop of a regular-mode shutdown no throttled call is let through any more. */
  lemma ShutdownKeepsThrottledCallsOut(s: Process, cancelAll: bool, later: seq<Event>, c: nat)
    requires WellFormed(s) && s.regular && c < |s.calls| && s.calls[c].pc == Queued
    ensures var s' := Run(Shutdown(s, cancelAll), later); c < |s'.calls| && s'.calls[c].pc == Queued
  {
    RunGrows(Shutdown(s, cancelAll), later);
  }

  // ---------------------------------------------------------------- the order of the queue

  /** Calls wait in the order in which they came. */
  ghost predicate Increasing(queue: seq<nat>) {
    forall j, k :: 0 <= j < k < |queue| ==> queue[j] < queue[k]
  }

  /** What a settle callback or a removal leaves of the queue: the call let through, if any, was its head. */
  ghost predicate Serves(queue: seq<nat>, calls: seq<AddCall>, queue': seq<nat>, calls': seq<AddCall>) {
    && |calls'| == |calls|
    && if queue == [] then queue' == queue && calls' == calls
       else queue' == queue[1..] && queue[0] < |calls| && calls' == calls[queue[0] := calls[queue[0]].(pc := Granted)]
  }

  lemma ResolveServes(s: Process)
    requires WellFormed(s)
    ensures Serves(s.queue, s.calls, ResolveNext(s).queue, ResolveNext(s).calls)
  {
  }

  lemma CallbackServes(s: Process, e: nat)
    requires WellFormed(s)
    ensures var s' := SettleCallback(s, e);
      (s'.queue == s.queue && s'.calls == s.calls) || Serves(s.queue, s.calls, s'.queue, s'.calls)
  {
    if e < |s.entries| { ResolveServes(s.(released := s.released + 1, capacity := s.capacity + 1)); }
  }

  lemma RemoveServes(s: Process, id: Id, mode: Mode)
    requires WellFormed(s)
    ensures var s', k := RemoveQueued(s, id, mode), FirstQueued(s.queue, s.calls, id);
      (s'.queue == s.queue && s'.calls == s.calls) ||
      (k < |s.queue| && WellFormed(Dropped(s, k)) &&
       Serves(Dropped(s, k).queue, Dropped(s, k).calls, s'.queue, s'.calls))
  {
    var k := FirstQueued(s.queue, s.calls, id);
    if k < |s.queue| {
      WithoutQueueOk(s.queue, s.calls, k);
      ResolveServes(Dropped(s, k));
    }
  }

  lemma WithoutIncreases(queue: seq<nat>, k: nat)
    requires Increasing(queue) && k < |queue|
    ensures Increasing(Without(queue, k))
  {
  }

  /** The queue as it was, or without its head. */
  ghost predicate Shortened(queue: seq<nat>, queue': seq<nat>) {
    queue' == queue || (queue != [] && queue' == queue[1..])
  }

  /** Steps other than a begin, a callback or a removal leave queue and waiting calls alone. */
  lemma QueueUntouched(s: Process, ev: Event)
    requires WellFormed(s) && !ev.Begin? && !ev.Callback? && !ev.StopQueued?
    ensures var s' := Step(s, ev);
      && s'.queue == s.queue && |s'.calls| == |s.calls|
      && forall c :: 0 <= c < |s.calls| && s.calls[c].pc.Queued? ==> s'.calls[c] == s.calls[c]
  {
    match ev
    case Complete(c, updated, now) =>
    case Down(cancelAll) =>
    case _ => EntryStepShape(s, ev);
  }

  lemma StepIncreases(s: Process, ev: Event)
    requires WellFormed(s) && Increasing(s.queue)
    ensures Increasing(Step(s, ev).queue)
  {
    match ev
    case Begin(id, mode, resume) => BeginIncreases(s, id, mode, resume);
    case Callback(e) => CallbackIncreases(s, e);
    case StopQueued(id, mode) => RemoveIncreases(s, id, mode);
    case _ => OtherIncreases(s, ev);
  }

  lemma OtherIncreases(s: Process, ev: Event)
    requires WellFormed(s) && Increasing(s.queue) && !ev.Begin? && !ev.Callback? && !ev.StopQueued?
    ensures Increasing(Step(s, ev).queue)
  {
    QueueUntouched(s, ev);
  }

  lemma BeginIncreases(s: Process, id: Id, mode: Mode, resume: bool)
    requires WellFormed(s) && Increasing(s.queue)
    ensures Increasing(BeginAdd(s, id, mode, resume).queue)
  {
  }

  lemma TailIncreases(queue: seq<nat>, queue': seq<nat>)
    requires Increasing(queue) && Shortened(queue, queue')
    ensures Increasing(queue')
  {
  }

  lemma CallbackIncreases(s: Process, e: nat)
    requires WellFormed(s) && Increasing(s.queue)
    ensures Increasing(SettleCallback(s, e).queue)
  {
    CallbackServes(s, e);
    TailIncreases(s.queue, SettleCallback(s, e).queue);
  }

  lemma RemoveIncreases(s: Process, id: Id, mode: Mode)
    requires WellFormed(s) && Increasing(s.queue)
    ensures Increasing(RemoveQueued(s, id, mode).queue)
  {
    var k, queue' := FirstQueued(s.queue, s.calls, id), RemoveQueued(s, id, mode).queue;
    RemoveServes(s, id, mode);
    if queue' != s.queue {
      WithoutIncreases(s.queue, k);
      TailIncreases(Without(s.queue, k), queue');
    }
  }

  lemma {:induction false} RunIncreases(s: Process, events: seq<Event>)
    requires WellFormed(s) && Increasing(s.queue)
    ensures Increasing(Run(s, events).queue)
    decreases |events|
  {
    if events != [] {
      StepIncreases(s, events[0]);
      RunIncreases(Step(s, events[0]), events[1..]);
    }
  }

  /** Call `d` goes from the queue to a permit. */
  predicate LetIn(calls: seq<AddCall>, calls': seq<AddCall>, d: nat) {
    d < |calls| && calls[d].pc.Queued? && d < |calls'| && calls'[d].pc.Granted?
  }

  /** No call before `d` waits. */
  ghost predicate NobodyBefore(calls: seq<AddCall>, d: nat) {
    forall c :: 0 <= c < d && c < |calls| ==> !calls[c].pc.Queued?
  }

  lemma ServesFirst(queue: seq<nat>, calls: seq<AddCall>, queue': seq<nat>, calls': seq<AddCall>, d: nat)
    requires QueueOk(queue, calls) && Increasing(queue) && Serves(queue, calls, queue', calls')
    ensures LetIn(calls, calls', d) ==> NobodyBefore(calls', d)
  {
    if LetIn(calls, calls', d) {
      assert forall j :: 0 <= j < |queue| ==> d <= queue[j];
      assert NobodyBefore(calls, d);
    }
  }

  /** The same when call `c` has been taken out of the queue before. */
  lemma ServesFirstWithout(queue: seq<nat>, calls: seq<AddCall>, k: nat, queue': seq<nat>, calls': seq<AddCall>, d: nat)
    requires QueueOk(queue, calls) && Increasing(queue) && k < |queue|
    requires var rest, calls1 := Without(queue, k), calls[queue[k] := calls[queue[k]].(pc := Removed)];
      QueueOk(rest, calls1) && Serves(rest, calls1, queue', calls')
    ensures LetIn(calls, calls', d) ==> NobodyBefore(calls', d)
  {
    var rest, calls1 := Without(queue, k), calls[queue[k] := calls[queue[k]].(pc := Removed)];
    WithoutIncreases(queue, k);
    ServesFirst(rest, calls1, queue', calls', d);
    StaysRemoved(rest, calls1, queue', calls', queue[k]);
  }

  lemma RemoveServesFirst(s: Process, id: Id, mode: Mode, d: nat)
    requires WellFormed(s) && Increasing(s.queue)
    ensures LetIn(s.calls, RemoveQueued(s, id, mode).calls, d) ==> NobodyBefore(RemoveQueued(s, id, mode).calls, d)
  {
    var s', k := RemoveQueued(s, id, mode), FirstQueued(s.queue, s.calls, id);
    RemoveServes(s, id, mode);
    if s'.calls != s.calls { ServesFirstWithout(s.queue, s.calls, k, s'.queue, s'.calls, d); }
  }

  lemma StaysRemoved(queue: seq<nat>, calls: seq<AddCall>, queue': seq<nat>, calls': seq<AddCall>, c: nat)
    requires QueueOk(queue, calls) && Serves(queue, calls, queue', calls') && c < |calls| && calls[c].pc == Removed
    ensures calls'[c].pc == Removed
  {
  }

  lemma StepServesFirst(s: Process, ev: Event, d: nat)
    requires WellFormed(s) && Increasing(s.queue)
    ensures LetIn(s.calls, Step(s, ev).calls, d) ==> NobodyBefore(Step(s, ev).calls, d)
  {
    match ev
    case Begin(id, mode, resume) => assert forall c :: 0 <= c < |s.calls| ==> Step(s, ev).calls[c] == s.calls[c];
    case Callback(e) =>
      var s' := SettleCallback(s, e);
      CallbackServes(s, e);
      if Serves(s.queue, s.calls, s'.queue, s'.calls) { ServesFirst(s.queue, s.calls, s'.queue, s'.calls, d); }
    case StopQueued(id, mode) => RemoveServesFirst(s, id, mode, d);
    case _ => QueueUntouched(s, ev);
  }

  /**
   First come, first served, on every run and in either mode: when a waiting call is let through, no call that
   came before it is still waiting.
   */
  lemma LongestWaitingGoesFirst(regular: bool, limit: nat, events: seq<Event>, ev: Event, d: nat)
    requires var s := Run(Init(regular, limit), events); LetIn(s.calls, Step(s, ev).calls, d)
    ensures var s := Run(Init(regular, limit), events);
      forall c :: 0 <= c < d ==> !Step(s, ev).calls[c].pc.Queued?
  {
    RunIncreases(Init(regular, limit), events);
    StepServesFirst(Run(Init(regular, limit), events), ev, d);
  }

  /** Only webhook, trigger and chat executions wait; the others are let through and take no permit. */
  lemma ThrottledModes(limit: nat, events: seq<Event>, id: Id, mode: Mode, resume: bool)
    requires Run(Init(true, limit), events).enabled
    ensures var s := Run(Init(true, limit), events); var s' := Step(s, Begin(id, mode, resume));
      && |s'.calls| == |s.calls| + 1 && s'.calls[|s.calls|].id == id
      && (s'.calls[|s.calls|].pc == Queued <==>
            (mode == Webhook || mode == Trigger || mode == Chat) && Held(s) + |s.queue| >= limit)
      && (s'.calls[|s.calls|].pc == Queued || s'.calls[|s.calls|].pc == Granted)
      && Held(s') == Held(s) + if (mode == Webhook || mode == Trigger || mode == Chat) &&
                                  Held(s) + |s.queue| < limit then 1 else 0
  {
    var s := Run(Init(true, limit), events);
    RunPermits(Init(true, limit), 0, events);
    BeginThrottles(s, LetThrough(Init(true, limit), events), id, mode, resume);
  }

  lemma BeginThrottles(s: Process, over: nat, id: Id, mode: Mode, resume: bool)
    requires PermitsOk(s, over) && s.enabled
    ensures var s' := BeginAdd(s, id, mode, resume);
      && |s'.calls| == |s.calls| + 1 && s'.calls[|s.calls|].id == id
      && (s'.calls[|s.calls|].pc == Queued <==>
            (mode == Webhook || mode == Trigger || mode == Chat) && Held(s) + |s.queue| >= s.limit)
      && (s'.calls[|s.calls|].pc == Queued || s'.calls[|s.calls|].pc == Granted)
      && Held(s') == Held(s) + if (mode == Webhook || mode == Trigger || mode == Chat) &&
                                  Held(s) + |s.queue| < s.limit then 1 else 0
  {
    var call := BeginAdd(s, id, mode, resume).calls[|s.calls|];
    assert BeginAdd(s, id, mode, resume).calls == s.calls + [call];
    CountAppend(s.calls, call, InFlight);
    CountAppend(s.calls, call, LostPermit);
  }

  // ---------------------------------------------------------------- what an entry holds

  /** An `add` that returns puts a running entry of its own into the table; a first one starts now. */
  lemma AddInsertsRunning(s: Process, c: nat, updated: bool, now: int)
    requires WellFormed(s) && c < |s.calls| && s.calls[c].pc == Granted && (s.calls[c].resume ==> updated)
    ensures var s', call := Step(s, Complete(c, updated, now)), s.calls[c];
      && |s'.entries| == |s.entries| + 1 && (forall e :: 0 <= e < |s.entries| ==> s'.entries[e] == s.entries[e])
      && s'.active == s.active[call.id := |s.entries|]
      && var entry := s'.entries[|s.entries|];
         && entry.id == call.id && entry.mode == call.mode && entry.status == Running && entry.promise == Pending
         && !entry.workflow
         && (call.id !in s.active ==> entry.startedAt == now && entry.response == None)
  {
  }

  lemma CallbackWorkflow(s: Process, k: nat, e: nat)
    requires WellFormed(s) && e < |s.entries|
    ensures SettleCallback(s, k).entries[e].workflow ==
      if k == e && s.entries[e].promise == Settled && s.entries[e].status == Waiting then false
      else s.entries[e].workflow
  {
  }

  /**
   The running workflow of an entry is set by attaching it and dropped by the callback of a waiting entry, so
   that a resume starts with a new one; no other step touches it.
   */
  lemma WorkflowReference(s: Process, ev: Event, e: nat)
    requires WellFormed(s) && e < |s.entries|
    ensures e < |Step(s, ev).entries|
    ensures Step(s, ev).entries[e].workflow ==
      if ev.Attach? && ev.id in s.active && s.active[ev.id] == e then true
      else if ev == Callback(e) && s.entries[e].promise == Settled && s.entries[e].status == Waiting then false
      else s.entries[e].workflow
  {
    match ev
    case Callback(k) => CallbackWorkflow(s, k, e);
    case Down(cancelAll) =>
    case Begin(id, mode, resume) =>
    case Complete(c, updated, now) =>
    case StopQueued(id, mode) =>
    case _ => EntryStepWorkflow(s, ev, e);
  }

  lemma EntryStepWorkflow(s: Process, ev: Event, e: nat)
    requires WellFormed(s) && e < |s.entries| && OnEntry(ev)
    ensures Step(s, ev).entries[e].workflow ==
      (s.entries[e].workflow || (ev.Attach? && ev.id in s.active && s.active[ev.id] == e))
  {
    EntryStepForm(s, ev);
  }

  // ---------------------------------------------------------------- generations of one execution

  /** This object of `id` has settled with a final status, and its callback is still to run. */
  predicate FinallySettled(entry: Entry, id: Id) {
    entry.id == id && entry.promise == Settled && entry.status != Waiting
  }

  /** There is no such object of `id`. */
  ghost predicate Quiet(s: Process, id: Id) {
    forall e :: 0 <= e < |s.entries| ==> !FinallySettled(s.entries[e], id)
  }

  /** The step with which `add` inserts an entry for `id`; a resume that lost its update inserts none. */
  predicate Inserts(s: Process, ev: Event, id: Id) {
    && ev.Complete? && ev.c < |s.calls| && s.calls[ev.c].id == id
    && s.calls[ev.c].pc == Granted && (s.calls[ev.c].resume ==> ev.updated)
  }

  /** `add` inserts no entry for `id` between a final settle of that execution and its callback. */
  ghost predicate Guarded(s: Process, ev: Event, id: Id)
    requires WellFormed(s)
  {
    Inserts(s, ev, id) ==> Quiet(s, id)
  }

  ghost predicate GuardedRun(s: Process, events: seq<Event>, id: Id)
    requires WellFormed(s)
    decreases |events|
  {
    events == [] || (Guarded(s, events[0], id) && GuardedRun(Step(s, events[0]), events[1..], id))
  }

  /** An object of `id` that has settled with a final status is the current one, or there is none. */
  ghost predicate GenerationsOk(s: Process, id: Id) {
    WellFormed(s) &&
    forall e :: 0 <= e < |s.entries| && FinallySettled(s.entries[e], id) && id in s.active ==> s.active[id] == e
  }

  lemma CompleteGenerations(s: Process, c: nat, updated: bool, now: int, id: Id)
    requires GenerationsOk(s, id)
    ensures GenerationsOk(CompleteAdd(s, c, updated, now), id) <==> Guarded(s, Complete(c, updated, now), id)
  {
    var s' := CompleteAdd(s, c, updated, now);
    if !Guarded(s, Complete(c, updated, now), id) {
      var e :| 0 <= e < |s.entries| && FinallySettled(s.entries[e], id);
      assert s'.entries[e] == s.entries[e] && s'.active[id] != e;
    }
  }

  lemma CallbackGenerations(s: Process, e: nat, id: Id)
    requires GenerationsOk(s, id)
    ensures GenerationsOk(SettleCallback(s, e), id)
  {
    var s' := SettleCallback(s, e);
    if e < |s.entries| && s.entries[e].promise == Settled {
      assert s'.entries == s.entries[e := s'.entries[e]] && s'.entries[e].promise == Drained;
    }
  }

  lemma EntryStepGenerations(s: Process, ev: Event, id: Id)
    requires GenerationsOk(s, id) && OnEntry(ev)
    ensures GenerationsOk(Step(s, ev), id)
  {
  }

  /** Only an unguarded `add` leaves a final settle of an earlier object behind, and it always does. */
  lemma StepGenerations(s: Process, ev: Event, id: Id)
    requires GenerationsOk(s, id)
    ensures GenerationsOk(Step(s, ev), id) <==> Guarded(s, ev, id)
  {
    match ev
    case Begin(other, mode, resume) => assert GenerationsOk(BeginAdd(s, other, mode, resume), id);
    case Complete(c, updated, now) => CompleteGenerations(s, c, updated, now, id);
    case Callback(e) => CallbackGenerations(s, e, id);
    case StopQueued(other, mode) => assert GenerationsOk(RemoveQueued(s, other, mode), id);
    case Down(cancelAll) => assert GenerationsOk(Shutdown(s, cancelAll), id);
    case _ => EntryStepGenerations(s, ev, id);
  }

  /** The steps that take `id` out of the table, given that no earlier generation can. */
  predicate Removes(s: Process, ev: Event, id: Id)
    requires WellFormed(s) && id in s.active
  {
    var entry := s.entries[s.active[id]];
    match ev
    case Callback(e) => e == s.active[id] && entry.promise == Settled && entry.status != Waiting
    case Stop(other) => other == id && entry.status == Waiting
    case Down(cancelAll) => !Stays(s, entry, cancelAll)
    case _ => false
  }

  /** The response promise a step attaches to `id`, or `previous`. */
  function Attached(ev: Event, id: Id, previous: Option<nat>): Option<nat> {
    if ev.Respond? && ev.id == id then Some(ev.response) else previous
  }

  function LastAttached(events: seq<Event>, id: Id, previous: Option<nat>): Option<nat>
    decreases |events|
  {
    if events == [] then previous else LastAttached(events[1..], id, Attached(events[0], id, previous))
  }

  /** What `StepKeepsEntry` says of one step from `s` to `s'`. */
  ghost predicate KeepsEntry(s: Process, ev: Event, s': Process, id: Id)
    requires WellFormed(s) && WellFormed(s') && id in s.active
  {
    && (id in s'.active <==> !Removes(s, ev, id))
    && (id in s'.active ==>
          && s'.entries[s'.active[id]].startedAt == s.entries[s.active[id]].startedAt
          && s'.entries[s'.active[id]].response == Attached(ev, id, s.entries[s.active[id]].response))
  }

  lemma CallbackKeepsEntry(s: Process, e: nat, id: Id)
    requires GenerationsOk(s, id) && id in s.active
    ensures KeepsEntry(s, Callback(e), SettleCallback(s, e), id)
  {
    if e < |s.entries| && s.entries[e].promise == Settled {
      if FinallySettled(s.entries[e], id) {
        assert s.active[id] == e;
      } else if s.entries[e].id != id {
        assert s.active[id] != e;
      }
    }
  }

  lemma CompleteKeepsEntry(s: Process, c: nat, updated: bool, now: int, id: Id)
    requires GenerationsOk(s, id) && id in s.active
    ensures KeepsEntry(s, Complete(c, updated, now), CompleteAdd(s, c, updated, now), id)
  {
  }

  lemma StopKeepsEntry(s: Process, other: Id, id: Id)
    requires GenerationsOk(s, id) && id in s.active
    ensures KeepsEntry(s, Stop(other), StopExecution(s, other), id)
  {
  }

  lemma EntryStepKeepsEntry(s: Process, ev: Event, id: Id)
    requires GenerationsOk(s, id) && id in s.active
    requires ev.Finalize? || ev.Wait? || ev.Respond? || ev.Attach?
    ensures KeepsEntry(s, ev, Step(s, ev), id)
  {
  }

  /**
   One step on an execution in the table, if no earlier object of it has settled with a final status and still
   has to run its callback: it leaves the table exactly when its own entry is settled with a final status, is
   stopped while waiting, or is dropped by shutdown; otherwise its start time stays and its response promise is
   the old one or the one just attached, even when a resume put a new object in.
   */
  lemma StepKeepsEntry(s: Process, ev: Event, id: Id)
    requires GenerationsOk(s, id) && id in s.active
    ensures KeepsEntry(s, ev, Step(s, ev), id)
  {
    match ev
    case Callback(e) => CallbackKeepsEntry(s, e, id);
    case Complete(c, updated, now) => CompleteKeepsEntry(s, c, updated, now, id);
    case Begin(other, mode, resume) => assert KeepsEntry(s, ev, BeginAdd(s, other, mode, resume), id);
    case Down(cancelAll) => assert KeepsEntry(s, ev, Shutdown(s, cancelAll), id);
    case Stop(other) => StopKeepsEntry(s, other, id);
    case StopQueued(other, mode) => assert KeepsEntry(s, ev, RemoveQueued(s, other, mode), id);
    case _ => EntryStepKeepsEntry(s, ev, id);
  }

  /**
   An execution in the table leaves it by its own doing only, whatever the next step is, exactly if no earlier
   object of it has settled with a final status and still has to run its callback.
   */
  lemma EarlierObjectsHarmless(s: Process, id: Id)
    requires WellFormed(s) && id in s.active
    ensures (forall ev :: KeepsEntry(s, ev, Step(s, ev), id)) <==> GenerationsOk(s, id)
  {
    if GenerationsOk(s, id) {
      forall ev ensures KeepsEntry(s, ev, Step(s, ev), id) { StepKeepsEntry(s, ev, id); }
    } else {
      var e :| 0 <= e < |s.entries| && FinallySettled(s.entries[e], id) && s.active[id] != e;
      assert !KeepsEntry(s, Callback(e), Step(s, Callback(e)), id);
    }
  }

  /**
   Stopping or finalizing an execution and letting its settle callback run: a final status takes it out of the
   table and gives its permit back, 'waiting' keeps it when it is finalized and drops it when it is stopped.
   Only an entry whose callback had already run is beyond the reach of both.
   */
  lemma SettledExecutionLeaves(s: Process, id: Id)
    requires WellFormed(s) && id in s.active
    ensures var e := s.active[id]; var entry := s.entries[e];
      && (id in SettleCallback(StopExecution(s, id), e).active <==> entry.promise == Drained && entry.status != Waiting)
      && (id in SettleCallback(FinalizeExecution(s, id), e).active <==>
            entry.promise == Drained || entry.status == Waiting)
      && SettleCallback(FinalizeExecution(s, id), e).entries[e].promise == Drained
      && SettleCallback(FinalizeExecution(s, id), e).released ==
           s.released + if Limited(entry.mode) && entry.promise != Drained then 1 else 0
  {
    var e := s.active[id];
    var stopped, finalized := StopExecution(s, id), FinalizeExecution(s, id);
    assert stopped.active.Keys <= s.active.Keys && finalized.active == s.active;
    assert finalized.entries[e].promise == Settled || finalized.entries[e].promise == Drained;
  }

  ghost predicate NeverRemoves(s: Process, events: seq<Event>, id: Id)
    requires WellFormed(s)
    decreases |events|
  {
    events == [] ||
    ((id in s.active ==> !Removes(s, events[0], id)) && NeverRemoves(Step(s, events[0]), events[1..], id))
  }

  /**
   Over any number of wait and resume cycles, none of which inserts an entry between a final settle and its
   callback: the execution stays in the table, keeps its first start time and carries the response promise
   attached last. Resumes that lose may come at any time, and other executions may do as they like.
   */
  lemma {:induction false} WaitCyclesKeepEntry(s: Process, events: seq<Event>, id: Id)
    requires GenerationsOk(s, id) && GuardedRun(s, events, id) && NeverRemoves(s, events, id) && id in s.active
    ensures var s' := Run(s, events);
      && id in s'.active
      && s'.entries[s'.active[id]].startedAt == s.entries[s.active[id]].startedAt
      && s'.entries[s'.active[id]].response == LastAttached(events, id, s.entries[s.active[id]].response)
    decreases |events|
  {
    if events != [] {
      StepKeepsEntry(s, events[0], id);
      StepGenerations(s, events[0], id);
      WaitCyclesKeepEntry(Step(s, events[0]), events[1..], id);
    }
  }

  /** Every state of a guarded run satisfies `GenerationsOk`; the initial state does. */
  lemma {:induction false} RunGenerations(s: Process, events: seq<Event>, id: Id)
    requires GenerationsOk(s, id) && GuardedRun(s, events, id)
    ensures GenerationsOk(Run(s, events), id)
    decreases |events|
  {
    if events != [] {
      StepGenerations(s, events[0], id);
      RunGenerations(Step(s, events[0]), events[1..], id);
    }
  }

  /**
   A pending promise whose entry is no longer the current one, because it was stopped while 'waiting' or
   replaced before it settled, can never settle: its callback never runs and its permit stays out.
   */
  lemma {:induction false} OrphanNeverSettles(s: Process, e: nat, events: seq<Event>)
    requires WellFormed(s) && Orphan(s, e)
    ensures Orphan(Run(s, events), e)
    decreases |events|
  {
    if events != [] {
      StepKeepsOrphan(s, events[0], e);
      OrphanNeverSettles(Step(s, events[0]), e, events[1..]);
    }
  }

  predicate Orphan(s: Process, e: nat) { e < |s.entries| && s.entries[e].promise == Pending && !IsCurrent(s, e) }

  lemma CallbackKeepsOrphan(s: Process, k: nat, e: nat)
    requires WellFormed(s) && Orphan(s, e)
    ensures Orphan(SettleCallback(s, k), e)
  {
  }

  lemma EntryStepKeepsOrphan(s: Process, ev: Event, e: nat)
    requires WellFormed(s) && Orphan(s, e)
    requires ev.Stop? || ev.Finalize? || ev.Wait? || ev.Respond? || ev.Attach?
    ensures Orphan(Step(s, ev), e)
  {
  }

  lemma StepKeepsOrphan(s: Process, ev: Event, e: nat)
    requires WellFormed(s) && Orphan(s, e)
    ensures Orphan(Step(s, ev), e)
  {
    match ev
    case Callback(k) => CallbackKeepsOrphan(s, k, e);
    case Begin(id, mode, resume) => assert Orphan(BeginAdd(s, id, mode, resume), e);
    case Complete(c, updated, now) => assert Orphan(CompleteAdd(s, c, updated, now), e);
    case StopQueued(id, mode) => assert Orphan(RemoveQueued(s, id, mode), e);
    case Down(cancelAll) => assert Orphan(Shutdown(s, cancelAll), e);
    case _ => EntryStepKeepsOrphan(s, ev, e);
  }

  /** After `events` the settle callback of entry object `e` has run, so its permit is back. */
  ghost predicate Drains(s: Process, events: seq<Event>, e: nat)
    requires WellFormed(s)
  {
    e < |Run(s, events).entries| && Run(s, events).entries[e].promise == Drained
  }

  /** The permit of an entry can still come back exactly if the entry is no orphan. */
  lemma PermitComesBackUnlessOrphan(s: Process, e: nat)
    requires WellFormed(s) && e < |s.entries|
    ensures (exists events :: Drains(s, events, e)) <==> !Orphan(s, e)
  {
    if Orphan(s, e) {
      forall events ensures !Drains(s, events, e) { OrphanNeverSettles(s, e, events); }
    } else {
      var events := DrainingRun(s, e);
      assert Drains(s, events, e);
    }
  }

  lemma DrainingRun(s: Process, e: nat) returns (events: seq<Event>)
    requires WellFormed(s) && e < |s.entries| && !Orphan(s, e)
    ensures Drains(s, events, e)
  {
    if s.entries[e].promise == Drained {
      events := [];
    } else if s.entries[e].promise == Settled {
      events := [Callback(e)];
      RunOne(s, Callback(e));
    } else {
      var id := s.entries[e].id;
      RunSplit(s, [Finalize(id)], [Callback(e)]);
      RunOne(s, Finalize(id));
      RunOne(FinalizeExecution(s, id), Callback(e));
      events := [Finalize(id)] + [Callback(e)];
    }
  }

  /**
   Without the guard an entry can be lost: a resume that inserts its object before the earlier run finalizes
   makes that finalize settle the new promise, so the resumed execution leaves the table while it runs, and
   the earlier promise, an orphan, keeps its permit for good.
   */
  lemma ResumeBeforeFinalizeLosesEntry(limit: nat, id: Id, t0: int, t1: int) returns (events: seq<Event>, s: Process)
    requires limit >= 2
    ensures s == Run(Init(true, limit), events)
    ensures WellFormed(s) && id !in s.active && Orphan(s, 0)
    ensures |s.entries| == 2 && s.entries[1].status == Running && s.entries[1].promise == Drained
  {
    var first, s1 := FirstRun(limit, id, t0);
    var second, s2 := EarlyResume(s1, id, t0, t1);
    var third := [Callback(1)];
    s := SettledResume(s2, id);
    RunSplit(Init(true, limit), first, second);
    RunSplit(Init(true, limit), first + second, third);
    events := first + second + third;
  }

  lemma FirstRun(limit: nat, id: Id, t0: int) returns (events: seq<Event>, s: Process)
    requires limit >= 2
    ensures s == Run(Init(true, limit), events)
    ensures s.entries == [Entry(id, Webhook, t0, Waiting, None, false, Pending)] && s.active == map[id := 0]
    ensures WellFormed(s) && s.enabled && s.capacity >= 1 && |s.calls| == 1 && s.queue == []
  {
    events := [Begin(id, Webhook, false), Complete(0, true, t0), Wait(id)];
    Unroll3(Init(true, limit), Begin(id, Webhook, false), Complete(0, true, t0), Wait(id));
    var a := BeginAdd(Init(true, limit), id, Webhook, false);
    var b := CompleteAdd(a, 0, true, t0);
    assert b.entries == [Entry(id, Webhook, t0, Running, None, false, Pending)] && b.active == map[id := 0];
    s := SetStatus(b, id, Waiting);
  }

  lemma EarlyResume(s1: Process, id: Id, t0: int, t1: int) returns (events: seq<Event>, s: Process)
    requires s1.entries == [Entry(id, Webhook, t0, Waiting, None, false, Pending)] && s1.active == map[id := 0]
    requires WellFormed(s1) && s1.enabled && s1.capacity >= 1 && |s1.calls| == 1 && s1.queue == []
    ensures s == Run(s1, events)
    ensures WellFormed(s) && s.active == map[id := 1] && |s.entries| == 2 && s.entries[0] == s1.entries[0]
    ensures s.entries[1] == Entry(id, Webhook, t0, Running, None, false, Settled)
  {
    events := [Begin(id, Webhook, true), Complete(1, true, t1), Finalize(id)];
    Unroll3(s1, Begin(id, Webhook, true), Complete(1, true, t1), Finalize(id));
    var a := BeginAdd(s1, id, Webhook, true);
    var b := CompleteAdd(a, 1, true, t1);
    assert b.entries == s1.entries + [Entry(id, Webhook, t0, Running, None, false, Pending)];
    assert b.active == map[id := 1];
    s := FinalizeExecution(b, id);
  }

  lemma SettledResume(s2: Process, id: Id) returns (s: Process)
    requires WellFormed(s2) && s2.active == map[id := 1] && |s2.entries| == 2
    requires s2.entries[0].id == s2.entries[1].id == id && s2.entries[0].promise == Pending
    requires s2.entries[1].promise == Settled && s2.entries[1].status == Running
    ensures s == Run(s2, [Callback(1)])
    ensures WellFormed(s) && id !in s.active && Orphan(s, 0)
    ensures |s.entries| == 2 && s.entries[1].status == Running && s.entries[1].promise == Drained
  {
    s := SettleCallback(s2, 1);
    assert Run(s2, [Callback(1)]) == Run(s, [Callback(1)][1..]);
  }

  lemma {:induction false} RunSplit(s: Process, first: seq<Event>, second: seq<Event>)
    requires WellFormed(s)
    ensures Run(s, first + second) == Run(Run(s, first), second)
    decreases |first|
  {
    if first == [] {
      assert first + second == second;
    } else {
      assert (first + second)[1..] == first[1..] + second;
      RunSplit(Step(s, first[0]), first[1..], second);
    }
  }

  lemma Unroll3(s: Process, a: Event, b: Event, c: Event)
    requires WellFormed(s)
    ensures Run(s, [a, b, c]) == Step(Step(Step(s, a), b), c)
  {
    var s1 := Step(s, a);
    var s2 := Step(s1, b);
    assert [a, b, c][1..] == [b, c] && [b, c][1..] == [c] && [c][1..] == [];
    assert Run(s, [a, b, c]) == Run(s1, [b, c]);
    assert Run(s1, [b, c]) == Run(s2, [c]);
    assert Run(s2, [c]) == Run(Step(s2, c), []);
  }

  // ---------------------------------------------------------------- what the cancel loop leaves behind

  /** Statuses are what the program sets, and an entry in the table whose callback has run is waiting. */
  ghost predicate TableOk(s: Process) {
    && WellFormed(s)
    && (forall e :: 0 <= e < |s.entries| ==> s.entries[e].status == Running || s.entries[e].status == Waiting)
    && (forall id :: id in s.active && s.entries[s.active[id]].promise == Drained ==>
          s.entries[s.active[id]].status == Waiting)
  }

  lemma CallbackTableOk(s: Process, e: nat)
    requires TableOk(s)
    ensures TableOk(SettleCallback(s, e))
  {
  }

  lemma EntryStepTableOk(s: Process, ev: Event)
    requires TableOk(s) && OnEntry(ev)
    ensures TableOk(Step(s, ev))
  {
    EntryStepForm(s, ev);
  }

  lemma BeginTableOk(s: Process, id: Id, mode: Mode, resume: bool)
    requires TableOk(s)
    ensures TableOk(BeginAdd(s, id, mode, resume))
  {
  }

  lemma CompleteTableOk(s: Process, c: nat, updated: bool, now: int)
    requires TableOk(s)
    ensures TableOk(CompleteAdd(s, c, updated, now))
  {
  }

  lemma ShutdownTableOk(s: Process, cancelAll: bool)
    requires TableOk(s)
    ensures TableOk(Shutdown(s, cancelAll))
  {
  }

  lemma StepTableOk(s: Process, ev: Event)
    requires TableOk(s)
    ensures TableOk(Step(s, ev))
  {
    match ev
    case Callback(e) => CallbackTableOk(s, e);
    case Begin(id, mode, resume) => BeginTableOk(s, id, mode, resume);
    case Complete(c, updated, now) => CompleteTableOk(s, c, updated, now);
    case StopQueued(id, mode) => assert TableOk(RemoveQueued(s, id, mode));
    case Down(cancelAll) => ShutdownTableOk(s, cancelAll);
    case _ => EntryStepTableOk(s, ev);
  }

  lemma {:induction false} RunTableOk(s: Process, events: seq<Event>)
    requires TableOk(s)
    ensures TableOk(Run(s, events))
    decreases |events|
  {
    if events != [] {
      StepTableOk(s, events[0]);
      RunTableOk(Step(s, events[0]), events[1..]);
    }
  }

  /**
   After the cancel loop of any run, in either mode: exactly the executions that were not waiting are left, none
   of them drained. Those with a response promise, and in a regular-mode shutdown that cancels everything all of
   them, have settled; the others are as they were.
   */
  lemma CancelLoopRemains(regular: bool, limit: nat, events: seq<Event>, cancelAll: bool, id: Id)
    ensures var s := Run(Init(regular, limit), events); var s' := Shutdown(s, cancelAll);
      && (id in s'.active <==> id in s.active && s.entries[s.active[id]].status != Waiting)
      && (id in s'.active ==>
            && s'.active[id] == s.active[id] && s'.entries[s'.active[id]].promise != Drained
            && s'.entries[s'.active[id]] ==
                 if s.entries[s.active[id]].response.Some? || (regular && cancelAll)
                 then s.entries[s.active[id]].(promise := Settled) else s.entries[s.active[id]])
  {
    var s := Run(Init(regular, limit), events);
    RunTableOk(Init(regular, limit), events);
    if id in s.active { assert IsCurrent(s, s.active[id]); }
  }

  // ---------------------------------------------------------------- the wait loop of shutdown

  /** `id` is in the table although the callback of its entry has run: no callback will take it out again. */
  predicate IsParked(s: Process, id: Id)
    requires WellFormed(s)
  {
    id in s.active && s.entries[s.active[id]].promise == Drained
  }

  /** The callback of the current entry of `id` finds it waiting. */
  predicate Parks(s: Process, ev: Event, id: Id)
    requires WellFormed(s)
  {
    id in s.active && ev == Callback(s.active[id]) &&
    s.entries[s.active[id]].promise == Settled && s.entries[s.active[id]].status == Waiting
  }

  /** A stop, a resume, another shutdown, or the callback of an earlier object with a final status. */
  predicate Unparks(s: Process, ev: Event, id: Id)
    requires WellFormed(s)
  {
    || ev == Stop(id) || Inserts(s, ev, id) || ev.Down?
    || (ev.Callback? && ev.e < |s.entries| && FinallySettled(s.entries[ev.e], id))
  }

  /** Whether `id` is parked after `events`, told from the steps that park and unpark it. */
  predicate StaysParked(s: Process, events: seq<Event>, id: Id, before: bool)
    requires WellFormed(s)
    decreases |events|
  {
    if events == [] then before
    else
      var ev := events[0];
      StaysParked(Step(s, ev), events[1..], id, Parks(s, ev, id) || (before && !Unparks(s, ev, id)))
  }

  lemma CallbackParked(s: Process, e: nat, id: Id)
    requires TableOk(s)
    ensures IsParked(SettleCallback(s, e), id) <==>
      Parks(s, Callback(e), id) || (IsParked(s, id) && !Unparks(s, Callback(e), id))
  {
  }

  lemma EntryStepParked(s: Process, ev: Event, id: Id)
    requires TableOk(s) && OnEntry(ev)
    ensures IsParked(Step(s, ev), id) <==> IsParked(s, id) && !Unparks(s, ev, id)
  {
    EntryStepForm(s, ev);
    if id in s.active && ev.id in s.active && !StopsWaiting(s, ev) {
      EntryAfterDrained(s.entries[s.active[ev.id]], ev);
      assert Step(s, ev).entries[s.active[id]].promise == Drained <==> s.entries[s.active[id]].promise == Drained;
    }
  }

  lemma EntryAfterDrained(entry: Entry, ev: Event)
    ensures EntryAfter(entry, ev).promise == Drained <==> entry.promise == Drained
  {
  }

  lemma CompleteParked(s: Process, c: nat, updated: bool, now: int, id: Id)
    requires TableOk(s)
    ensures IsParked(CompleteAdd(s, c, updated, now), id) <==>
      IsParked(s, id) && !Inserts(s, Complete(c, updated, now), id)
  {
  }

  lemma ShutdownParksNone(s: Process, cancelAll: bool, id: Id)
    requires TableOk(s)
    ensures !IsParked(Shutdown(s, cancelAll), id)
  {
    if id in s.active { assert IsCurrent(s, s.active[id]); }
  }

  /** An execution becomes parked, and stops being parked, by exactly these steps. */
  lemma StepParked(s: Process, ev: Event, id: Id)
    requires TableOk(s)
    ensures IsParked(Step(s, ev), id) <==> Parks(s, ev, id) || (IsParked(s, id) && !Unparks(s, ev, id))
  {
    match ev
    case Callback(e) => CallbackParked(s, e, id);
    case Begin(other, mode, resume) => assert IsParked(BeginAdd(s, other, mode, resume), id) <==> IsParked(s, id);
    case Complete(c, updated, now) => CompleteParked(s, c, updated, now, id);
    case StopQueued(other, mode) => assert IsParked(RemoveQueued(s, other, mode), id) <==> IsParked(s, id);
    case Down(cancelAll) => ShutdownParksNone(s, cancelAll, id);
    case _ => EntryStepParked(s, ev, id);
  }

  lemma {:induction false} RunParked(s: Process, events: seq<Event>, id: Id)
    requires TableOk(s)
    ensures IsParked(Run(s, events), id) <==> StaysParked(s, events, id, IsParked(s, id))
    decreases |events|
  {
    if events != [] {
      StepParked(s, events[0], id);
      StepTableOk(s, events[0]);
      RunParked(Step(s, events[0]), events[1..], id);
    }
  }

  /** No step of the run parks an execution. */
  ghost predicate NeverParks(s: Process, events: seq<Event>)
    requires WellFormed(s)
    decreases |events|
  {
    events == [] || ((forall id :: !Parks(s, events[0], id)) && NeverParks(Step(s, events[0]), events[1..]))
  }

  lemma {:induction false} NeverParked(s: Process, events: seq<Event>, id: Id)
    requires WellFormed(s) && NeverParks(s, events)
    ensures !StaysParked(s, events, id, false)
    decreases |events|
  {
    if events != [] { NeverParked(Step(s, events[0]), events[1..], id); }
  }

  /** Every entry in the table has settled and run its callback. */
  ghost predicate AllDrained(s: Process)
    requires WellFormed(s)
  {
    forall id :: id in s.active ==> s.entries[s.active[id]].promise == Drained
  }

  /**
   The wait loop of `shutdown`, in either mode, whatever was canceled and whatever happens meanwhile. Once every
   entry still in the table has settled and run its callback, exactly the executions are left that such a
   callback found waiting and that have not been stopped or resumed since. So the table is empty and the loop
   ends if and only if there is none, and it does if no callback after the cancel loop found its entry waiting.
   */
  lemma WaitLoopEnds(regular: bool, limit: nat, events: seq<Event>, cancelAll: bool, later: seq<Event>)
    requires AllDrained(Run(Shutdown(Run(Init(regular, limit), events), cancelAll), later))
    ensures var s0 := Shutdown(Run(Init(regular, limit), events), cancelAll); var s' := Run(s0, later);
      && (forall id :: id in s'.active <==> StaysParked(s0, later, id, false))
      && (s'.active == map[] <==> forall id :: !StaysParked(s0, later, id, false))
      && (NeverParks(s0, later) ==> s'.active == map[])
  {
    var s := Run(Init(regular, limit), events);
    var s0 := Shutdown(s, cancelAll);
    var s' := Run(s0, later);
    RunTableOk(Init(regular, limit), events);
    StepTableOk(s, Down(cancelAll));
    forall id ensures id in s'.active <==> StaysParked(s0, later, id, false) {
      ShutdownParksNone(s, cancelAll, id);
      RunParked(s0, later, id);
    }
    if NeverParks(s0, later) {
      forall id ensures !StaysParked(s0, later, id, false) { NeverParked(s0, later, id); }
    }
    NoKeys(s'.active);
  }

  lemma NoKeys(m: map<Id, nat>)
    ensures m == map[] <==> forall id :: id !in m
  {
  }

  /** No execution is parked before a step; afterwards none is, unless the step is a callback that parks it. */
  lemma ParkedByCallbackOnly(s: Process, ev: Event)
    requires TableOk(s) && forall id :: !IsParked(s, id)
    ensures (forall id :: !IsParked(Step(s, ev), id)) <==> forall id :: !Parks(s, ev, id)
  {
    forall id ensures IsParked(Step(s, ev), id) <==> Parks(s, ev, id) { StepParked(s, ev, id); }
  }

  /**
   An `add` that was in flight when everything was canceled inserts its execution afterwards. When that one
   goes to wait and its callback has run, it stays in the table under any further callbacks.
   */
  lemma AddInFlightBlocksShutdown(limit: nat, id: Id, now: int, callbacks: seq<Event>)
    returns (events: seq<Event>, later: seq<Event>)
    requires forall k :: 0 <= k < |callbacks| ==> callbacks[k].Callback?
    ensures id in Run(Run(Shutdown(Run(Init(true, limit), events), true), later), callbacks).active
  {
    events := [Begin(id, Manual, false)];
    RunOne(Init(true, limit), events[0]);
    var s := Shutdown(BeginAdd(Init(true, limit), id, Manual, false), true);
    var suspend, s1 := Suspends(CompleteAdd(s, 0, true, now), id, now);
    RunOne(s, Complete(0, true, now));
    RunSplit(s, [Complete(0, true, now)], suspend);
    later := [Complete(0, true, now)] + suspend;
    CallbacksIdle(s1, callbacks);
  }

  /** A shutdown that does not cancel everything waits in the same way for a run that suspends meanwhile. */
  lemma SuspensionBlocksShutdown(regular: bool, limit: nat, id: Id, now: int, callbacks: seq<Event>)
    returns (events: seq<Event>, later: seq<Event>)
    requires forall k :: 0 <= k < |callbacks| ==> callbacks[k].Callback?
    ensures id in Run(Run(Shutdown(Run(Init(regular, limit), events), false), later), callbacks).active
  {
    var s;
    events, s := Started(regular, limit, id, now);
    assert Shutdown(s, false).entries == s.entries && Shutdown(s, false).active == s.active;
    var s2;
    later, s2 := Suspends(Shutdown(s, false), id, now);
    CallbacksIdle(s2, callbacks);
  }

  lemma Started(regular: bool, limit: nat, id: Id, now: int) returns (events: seq<Event>, s: Process)
    ensures s == Run(Init(regular, limit), events)
    ensures s.entries == [Entry(id, Manual, now, Running, None, false, Pending)] && s.active == map[id := 0]
  {
    var s0 := Init(regular, limit);
    var s1 := BeginAdd(s0, id, Manual, false);
    events := [Begin(id, Manual, false)] + [Complete(0, true, now)];
    RunSplit(s0, [Begin(id, Manual, false)], [Complete(0, true, now)]);
    RunOne(s0, Begin(id, Manual, false));
    RunOne(s1, Complete(0, true, now));
    s := CompleteAdd(s1, 0, true, now);
  }

  /** A run that goes to wait, is finalized and has its callback run. */
  lemma Suspends(s: Process, id: Id, now: int) returns (events: seq<Event>, s': Process)
    requires WellFormed(s) && s.active == map[id := 0]
    requires s.entries == [Entry(id, Manual, now, Running, None, false, Pending)]
    ensures s' == Run(s, events) && WellFormed(s') && s'.active == map[id := 0]
    ensures s'.entries == [Entry(id, Manual, now, Waiting, None, false, Drained)]
  {
    events := [Wait(id), Finalize(id), Callback(0)];
    Unroll3(s, Wait(id), Finalize(id), Callback(0));
    var s1 := SetStatus(s, id, Waiting);
    assert s1.entries[0] == s.entries[0].(status := Waiting);
    var s2 := FinalizeExecution(s1, id);
    assert s2.entries[0] == s1.entries[0].(promise := Settled);
    s' := SettleCallback(s2, 0);
  }

  lemma {:induction false} CallbacksIdle(s: Process, callbacks: seq<Event>)
    requires WellFormed(s) && forall e :: 0 <= e < |s.entries| ==> s.entries[e].promise != Settled
    requires forall k :: 0 <= k < |callbacks| ==> callbacks[k].Callback?
    ensures Run(s, callbacks) == s
    decreases |callbacks|
  {
    if callbacks != [] {
      assert Step(s, callbacks[0]) == s;
      CallbacksIdle(s, callbacks[1..]);
    }
  }

  // ---------------------------------------------------------------- removeAll

  /** `remove` of the queue, for each of `ids`. */
  function RemoveEach(s: Process, ids: seq<Id>): (s': Process)
    requires WellFormed(s)
    ensures WellFormed(s') && SameConfiguration(s, s')
    decreases |ids|
  {
    if ids == [] then s else RemoveEach(RemoveQueued(s, ids[0], Webhook), ids[1..])
  }

  /** The executions that wait in the queue are pairwise different and all among `ids`. */
  ghost predicate QueuedAmong(queue: seq<nat>, calls: seq<AddCall>, ids: set<Id>) {
    && QueueOk(queue, calls)
    && (forall k :: 0 <= k < |queue| ==> calls[queue[k]].id in ids)
    && (forall j, k :: 0 <= j < k < |queue| ==> calls[queue[j]].id != calls[queue[k]].id)
  }

  lemma AmongWithout(queue: seq<nat>, calls: seq<AddCall>, ids: set<Id>, k: nat)
    requires QueuedAmong(queue, calls, ids) && k < |queue|
    ensures var c := queue[k];
      QueuedAmong(Without(queue, k), calls[c := calls[c].(pc := Removed)], ids - {calls[c].id})
  {
    WithoutQueueOk(queue, calls, k);
  }

  lemma AmongServed(queue: seq<nat>, calls: seq<AddCall>, ids: set<Id>, queue': seq<nat>, calls': seq<AddCall>)
    requires QueuedAmong(queue, calls, ids) && Serves(queue, calls, queue', calls') && QueueOk(queue', calls')
    ensures QueuedAmong(queue', calls', ids)
  {
  }

  lemma AmongSome(queue: seq<nat>, calls: seq<AddCall>, ids: set<Id>)
    requires QueuedAmong(queue, calls, ids)
    ensures queue != [] ==> ids != {}
  {
    if queue != [] { assert calls[queue[0]].id in ids; }
  }

  lemma RemoveOneOf(s: Process, id: Id, ids: set<Id>)
    requires WellFormed(s) && QueuedAmong(s.queue, s.calls, ids) && s.enabled
    ensures var s' := RemoveQueued(s, id, Webhook); QueuedAmong(s'.queue, s'.calls, ids - {id}) && s'.enabled
  {
    var k := FirstQueued(s.queue, s.calls, id);
    if k < |s.queue| {
      AmongWithout(s.queue, s.calls, ids, k);
      var s1 := Dropped(s, k);
      ResolveServes(s1);
      AmongServed(s1.queue, s1.calls, ids - {id}, ResolveNext(s1).queue, ResolveNext(s1).calls);
    }
  }

  /** Removing every queued execution empties the queue, although every removal lets another one through. */
  lemma {:induction false} RemoveEachEmpties(s: Process, ids: seq<Id>, left: set<Id>)
    requires WellFormed(s) && s.enabled && QueuedAmong(s.queue, s.calls, left) && forall id :: id in left ==> id in ids
    ensures RemoveEach(s, ids).queue == []
    decreases |ids|
  {
    if ids == [] {
      AmongSome(s.queue, s.calls, left);
      assert left == {};
    } else {
      RemoveOneOf(s, ids[0], left);
      RemoveEachEmpties(RemoveQueued(s, ids[0], Webhook), ids[1..], left - {ids[0]});
    }
  }

  /** `ConcurrencyControlService.removeAll`: the new state and the executions it marks canceled in the database. */
  function RemoveAll(s: Process, ids: seq<Id>, toCancel: seq<Id>): (Process, seq<Id>)
    requires WellFormed(s)
  {
    if s.enabled then (RemoveEach(s, ids), toCancel) else (s, [])
  }

  /**
   `shutdown` calls `removeAll` when the limit is disabled: in regular mode it has just disabled it, in queue
   mode it never was enabled. So the queue stays as it is and no execution is marked canceled, on any run.
   */
  lemma ShutdownMarksNobodyCanceled(regular: bool, limit: nat, events: seq<Event>, cancelAll: bool,
                                    ids: seq<Id>, toCancel: seq<Id>)
    ensures var s := Run(Init(regular, limit), events); var s' := Shutdown(s, cancelAll);
      RemoveAll(s', ids, toCancel) == (s', []) && s'.queue == s.queue
  {
  }
}
