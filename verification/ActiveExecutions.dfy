/**
 `ActiveExecutions` with the part of `ConcurrencyControlService` it drives, as an object whose methods change
 their fields. Each method is proved against the step of the same name in `ExecutionLifecycle`.
 */
module ActiveExecutions {
  import opened Wrappers
  import opened ExecutionLifecycle

  datatype Error = ExecutionAlreadyResuming | ExecutionNotFound

  class ActiveExecutions {
    const regular: bool
    const limit: nat
    var isEnabled: bool
    var capacity: int
    var queue: seq<nat>
    var calls: seq<AddCall>
    var entries: seq<Entry>
    var activeExecutions: map<Id, nat>
    var granted: nat
    var released: nat

    function State(): Process
      reads this
    {
      Process(regular, limit, isEnabled, capacity, queue, calls, entries, activeExecutions, granted, released)
    }

    ghost predicate Valid()
      reads this
    {
      WellFormed(State()) && (isEnabled ==> regular)
    }

    constructor (regular: bool, limit: nat)
      ensures Valid() && State() == Init(regular, limit)
    {
      this.regular, this.limit := regular, limit;
      isEnabled, capacity, queue := regular, limit, [];
      calls, entries, activeExecutions := [], [], map[];
      granted, released := 0, 0;
    }

    /** `add`, first part; `c` names the call. */
    method BeginAdd(id: Id, mode: Mode, resume: bool) returns (c: nat)
      requires Valid()
      modifies this
      ensures Valid() && State() == ExecutionLifecycle.BeginAdd(old(State()), id, mode, resume)
      ensures c == |old(calls)|
    {
      c := |calls|;
      var pc := Granted;
      if resume || regular {
        if isEnabled && Limited(mode) {
          capacity := capacity - 1;
          if capacity < 0 {
            queue := queue + [c];
            pc := Queued;
          }
        }
        if Limited(mode) && pc == Granted { granted := granted + 1; }
      }
      calls := calls + [AddCall(id, mode, resume, pc)];
      assert State() == ExecutionLifecycle.BeginAdd(old(State()), id, mode, resume);
    }

    /** `add`, last part: throws for a resume whose conditional update found the record not waiting. */
    method CompleteAdd(c: nat, updated: bool, now: int) returns (r: Result<Id, Error>)
      requires Valid() && c < |calls| && calls[c].pc == Granted
      modifies this
      ensures Valid() && State() == ExecutionLifecycle.CompleteAdd(old(State()), c, updated, now)
      ensures r == if old(calls[c].resume) && !updated then Failure(ExecutionAlreadyResuming)
                   else Success(old(calls[c].id))
    {
      var call := calls[c];
      if call.resume {
        if !updated {
          calls := calls[c := call.(pc := Lost)];
          return Failure(ExecutionAlreadyResuming);
        }
      }
      var startedAt, response := now, None;
      if call.id in activeExecutions {
        var resuming := entries[activeExecutions[call.id]];
        startedAt, response := resuming.startedAt, resuming.response;
      }
      var e := |entries|;
      entries := entries + [Entry(call.id, call.mode, startedAt, Running, response, false, Pending)];
      activeExecutions := activeExecutions[call.id := e];
      calls := calls[c := call.(pc := Added(e))];
      r := Success(call.id);
      assert State() == ExecutionLifecycle.CompleteAdd(old(State()), c, updated, now);
    }

    method StopExecution(id: Id)
      requires Valid()
      modifies this`activeExecutions, this`entries
      ensures Valid() && State() == ExecutionLifecycle.StopExecution(old(State()), id)
    {
      if id !in activeExecutions { return; }
      var e := activeExecutions[id];
      if entries[e].status == Waiting {
        activeExecutions := activeExecutions - {id};
      } else if entries[e].promise == Pending {
        entries := entries[e := entries[e].(promise := Settled)];
      }
      assert State() == ExecutionLifecycle.StopExecution(old(State()), id);
    }

    method FinalizeExecution(id: Id)
      requires Valid()
      modifies this`entries
      ensures Valid() && State() == ExecutionLifecycle.FinalizeExecution(old(State()), id)
    {
      if id in activeExecutions {
        var e := activeExecutions[id];
        if entries[e].promise == Pending {
          entries := entries[e := entries[e].(promise := Settled)];
        }
      }
      assert State() == ExecutionLifecycle.FinalizeExecution(old(State()), id);
    }

    method SetStatus(id: Id, status: Status) returns (r: Result<(), Error>)
      requires Valid()
      modifies this`entries
      ensures Valid() && State() == ExecutionLifecycle.SetStatus(old(State()), id, status)
      ensures r == if id in activeExecutions then Success(()) else Failure(ExecutionNotFound)
    {
      if id !in activeExecutions { return Failure(ExecutionNotFound); }
      entries := entries[activeExecutions[id] := entries[activeExecutions[id]].(status := status)];
      r := Success(());
      assert State() == ExecutionLifecycle.SetStatus(old(State()), id, status);
    }

    method AttachResponsePromise(id: Id, response: nat) returns (r: Result<(), Error>)
      requires Valid()
      modifies this`entries
      ensures Valid() && State() == ExecutionLifecycle.AttachResponse(old(State()), id, response)
      ensures r == if id in activeExecutions then Success(()) else Failure(ExecutionNotFound)
    {
      if id !in activeExecutions { return Failure(ExecutionNotFound); }
      entries := entries[activeExecutions[id] := entries[activeExecutions[id]].(response := Some(response))];
      r := Success(());
      assert State() == ExecutionLifecycle.AttachResponse(old(State()), id, response);
    }

    /** `resolveNext` of the queue. */
    method ResolveNext()
      requires Valid()
      modifies this`queue, this`calls, this`granted
      ensures Valid() && State() == ExecutionLifecycle.ResolveNext(old(State()))
    {
      if queue != [] {
        var c := queue[0];
        queue := queue[1..];
        calls := calls[c := calls[c].(pc := Granted)];
        granted := granted + 1;
      }
      assert State() == ExecutionLifecycle.ResolveNext(old(State()));
    }

    /** `ConcurrencyControlService.release`, with `dequeue` of the queue. */
    method Release(mode: Mode)
      requires Valid()
      modifies this`released, this`capacity, this`queue, this`calls, this`granted
      ensures Valid() && State() == ExecutionLifecycle.Release(old(State()), mode)
      ensures old(isEnabled) && Limited(mode) ==> capacity == old(capacity) + 1
      ensures old(isEnabled) && Limited(mode) && old(queue) != [] ==>
        queue == old(queue)[1..] && calls[old(queue)[0]].pc == Granted
    {
      if Limited(mode) {
        released := released + 1;
        if isEnabled {
          capacity := capacity + 1;
          ResolveNext();
        }
      }
      assert State() == ExecutionLifecycle.Release(old(State()), mode);
    }

    /** `ConcurrencyControlService.remove`, with `remove` of the queue. */
    method RemoveQueued(id: Id, mode: Mode)
      requires Valid()
      modifies this`capacity, this`queue, this`calls, this`granted
      ensures Valid() && State() == ExecutionLifecycle.RemoveQueued(old(State()), id, mode)
    {
      if !isEnabled || !Limited(mode) { return; }
      var index := FirstQueued(queue, calls, id);
      if index < |queue| {
        WithoutQueueOk(queue, calls, index);
        calls := calls[queue[index] := calls[queue[index]].(pc := Removed)];
        queue := queue[..index] + queue[index + 1..];
        capacity := capacity + 1;
        assert State() == Dropped(old(State()), index);
        ResolveNext();
      }
    }

    /** The `finally` callback that `add` hangs on the promise of entry object `e`. */
    method SettleCallback(e: nat)
      requires Valid() && e < |entries| && entries[e].promise == Settled
      modifies this
      ensures Valid() && State() == ExecutionLifecycle.SettleCallback(old(State()), e)
    {
      Release(entries[e].mode);
      entries := entries[e := entries[e].(promise := Drained)];
      if entries[e].status == Waiting {
        entries := entries[e := entries[e].(workflow := false)];
      } else {
        activeExecutions := activeExecutions - {entries[e].id};
      }
      assert State() == ExecutionLifecycle.SettleCallback(old(State()), e);
    }

    /** The body of the cancel loop, and whether it collects the execution for cancellation. */
    method CancelOrDrop(id: Id, cancelAll: bool) returns (cancels: bool)
      requires Valid() && id in activeExecutions
      modifies this`activeExecutions, this`entries
      ensures Valid() && State() == ExecutionLifecycle.CancelOrDrop(old(State()), id, cancelAll)
      ensures cancels == Cancels(old(State()), old(entries[activeExecutions[id]]), cancelAll)
    {
      var entry := entries[activeExecutions[id]];
      cancels := entry.response.Some? || (regular && cancelAll);
      if cancels {
        StopExecution(id);
      } else if entry.status == Waiting || entry.status == New {
        activeExecutions := activeExecutions - {id};
      }
      assert State() == ExecutionLifecycle.CancelOrDrop(old(State()), id, cancelAll);
    }

    /** The cancel loop. */
    method CancelLoop(executionIds: seq<Id>, cancelAll: bool) returns (toCancel: seq<Id>)
      requires Valid()
      modifies this`activeExecutions, this`entries
      ensures Valid() && (State(), toCancel) == ExecutionLifecycle.CancelLoop(old(State()), executionIds, cancelAll)
    {
      ghost var s := State();
      toCancel := [];
      CancelStarts(s, executionIds, cancelAll);
      assert executionIds[0..] == executionIds;
      for i := 0 to |executionIds|
        invariant Valid()
        invariant CancelsOn(s, executionIds, toCancel, State(), executionIds[i..], cancelAll)
      {
        var id := executionIds[i];
        assert executionIds[i..][0] == id && executionIds[i..][1..] == executionIds[i + 1..];
        CancelTurn(s, executionIds, toCancel, State(), executionIds[i..], cancelAll);
        if id in activeExecutions {
          var cancels := CancelOrDrop(id, cancelAll);
          if cancels { toCancel := toCancel + [id]; }
        }
      }
      assert executionIds[|executionIds|..] == [] && toCancel + [] == toCancel;
    }

    /** `ConcurrencyControlService.removeAll`; `ids` are the ids in the queue. */
    method RemoveAll(ids: seq<Id>, toCancel: seq<Id>) returns (canceled: seq<Id>)
      requires Valid()
      modifies this`capacity, this`queue, this`calls, this`granted
      ensures Valid() && (State(), canceled) == ExecutionLifecycle.RemoveAll(old(State()), ids, toCancel)
    {
      if !isEnabled { return []; }
      ghost var s := State();
      for i := 0 to |ids|
        invariant Valid() && RemoveEach(s, ids) == RemoveEach(State(), ids[i..])
      {
        RemoveQueued(ids[i], Webhook);
        assert ids[i..][1..] == ids[i + 1..];
      }
      canceled := toCancel;
    }

    /**
     `shutdown` up to its wait loop, with the executions it marks canceled in the database. `executionIds` are
     the keys of the table in some order, `queued` those of the queue.
     */
    method Shutdown(executionIds: seq<Id>, queued: seq<Id>, cancelAll: bool) returns (canceled: seq<Id>)
      requires Valid() && Unrepeated(executionIds) && forall id :: id in executionIds <==> id in activeExecutions
      modifies this
      ensures Valid() && State() == ExecutionLifecycle.Shutdown(old(State()), cancelAll)
      ensures canceled == []
    {
      CancelLoopIsShutdown(State(), cancelAll, executionIds);
      if regular { isEnabled := false; }
      var toCancel := CancelLoop(executionIds, cancelAll);
      canceled := RemoveAll(queued, toCancel);
    }
  }
}
