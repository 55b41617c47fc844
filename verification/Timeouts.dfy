/**
 Deadlines of executions, in milliseconds: the soft deadline that nested sub-workflow calls hand down, and the
 time at which a run that is resumed is stopped for good.
 */
module Timeouts {
  import opened Wrappers

  /** `Number.MAX_SAFE_INTEGER`. */
  const MAX_SAFE_INTEGER := 9007199254740991

  function Min(a: int, b: int): int { if a < b then a else b }

  function Max(a: int, b: int): int { if a < b then b else a }

  // ---------------------------------------------------------------- nested sub-workflow calls

  /** A call of a sub-workflow: its own `executionTimeout` in seconds, and when it started. */
  datatype Call = Call(executionTimeout: Option<int>, start: int)

  predicate OwnLimit(call: Call) { call.executionTimeout.Some? && call.executionTimeout.value > 0 }

  function OwnDeadline(call: Call): int
    requires OwnLimit(call)
  {
    call.start + call.executionTimeout.value * 1000
  }

  /** The deadline a sub-workflow gets; a parent deadline of 0 counts as none. */
  function SubDeadline(parent: Option<int>, call: Call): Option<int> {
    if OwnLimit(call) then
      Some(Min(if parent.None? || parent.value == 0 then MAX_SAFE_INTEGER else parent.value, OwnDeadline(call)))
    else parent
  }

  /** The deadline at the end of a chain of nested calls. */
  function ChainDeadline(root: Option<int>, calls: seq<Call>): Option<int> {
    if calls == [] then root
    else SubDeadline(ChainDeadline(root, calls[..|calls| - 1]), calls[|calls| - 1])
  }

  /** The deadlines that apply to the end of the chain. */
  function Candidates(root: Option<int>, calls: seq<Call>): set<int> {
    (if root.Some? then {root.value} else {}) +
    set i | 0 <= i < |calls| && calls[i].executionTimeout.Some? && calls[i].executionTimeout.value > 0 ::
      calls[i].start + calls[i].executionTimeout.value * 1000
  }

  lemma CandidatesOneMore(root: Option<int>, calls: seq<Call>, call: Call)
    ensures Candidates(root, calls + [call]) ==
      Candidates(root, calls) + if OwnLimit(call) then {OwnDeadline(call)} else {}
  {
    var more := calls + [call];
    forall d | d in Candidates(root, calls) ensures d in Candidates(root, more) {
      if i :| 0 <= i < |calls| && calls[i].executionTimeout.Some? && calls[i].executionTimeout.value > 0 &&
              calls[i].start + calls[i].executionTimeout.value * 1000 == d
      {
        assert more[i] == calls[i];
      }
    }
    if OwnLimit(call) { assert more[|calls|] == call; }
  }

  /**
   Down any chain of nested calls the deadline is the least of the root deadline and of every positive own
   deadline on the way; without a root deadline it is also capped at the largest safe integer.
   */
  lemma {:induction false} DeadlineIsTheMinimum(root: Option<int>, calls: seq<Call>)
    requires root.Some? ==> root.value > 0
    requires forall i :: 0 <= i < |calls| ==> calls[i].start >= 0
    ensures var d, candidates := ChainDeadline(root, calls), Candidates(root, calls);
      && (d.None? <==> candidates == {})
      && (d.Some? ==>
            && d.value > 0
            && (forall c :: c in candidates ==> d.value <= c)
            && (d.value in candidates || (root.None? && d.value == 9007199254740991)))
  {
    if calls == [] {
      assert Candidates(root, calls) == if root.Some? then {root.value} else {};
    } else {
      var front, last := calls[..|calls| - 1], calls[|calls| - 1];
      DeadlineIsTheMinimum(root, front);
      CandidatesOneMore(root, front, last);
      assert front + [last] == calls;
    }
  }

  /** A deadline of 0 comes from the root and lasts until the first call with a limit of its own. */
  lemma {:induction false} ZeroDeadline(root: Option<int>, calls: seq<Call>)
    requires root.Some? ==> root.value >= 0
    requires forall i :: 0 <= i < |calls| ==> calls[i].start >= 0
    ensures ChainDeadline(root, calls).Some? ==> ChainDeadline(root, calls).value >= 0
    ensures ChainDeadline(root, calls) == Some(0) <==>
      root == Some(0) && forall i :: 0 <= i < |calls| ==> !OwnLimit(calls[i])
  {
    if calls != [] { ZeroDeadline(root, calls[..|calls| - 1]); }
  }

  /**
   A nested call has a later deadline than its caller in one case only: the root deadline is 0, which is taken
   for none and which no caller passes, and this call is the first with a limit of its own.
   */
  lemma DeadlineNeverIncreases(root: Option<int>, calls: seq<Call>, call: Call)
    requires root.Some? ==> root.value >= 0
    requires call.start >= 0 && forall i :: 0 <= i < |calls| ==> calls[i].start >= 0
    requires ChainDeadline(root, calls).Some?
    ensures ChainDeadline(root, calls + [call]).Some?
    ensures ChainDeadline(root, calls + [call]).value > ChainDeadline(root, calls).value <==>
      root == Some(0) && OwnLimit(call) && forall i :: 0 <= i < |calls| ==> !OwnLimit(calls[i])
  {
    ZeroDeadline(root, calls);
    assert (calls + [call])[..|calls|] == calls;
  }

  method StartExecution(executionTimeoutTimestamp: Option<int>, executionTimeout: Option<int>, startTime: int)
    returns (subworkflowTimeout: Option<int>)
    ensures subworkflowTimeout == SubDeadline(executionTimeoutTimestamp, Call(executionTimeout, startTime))
  {
    subworkflowTimeout := executionTimeoutTimestamp;
    if executionTimeout.Some? && executionTimeout.value > 0 {
      var parentTimestamp := MAX_SAFE_INTEGER;
      if executionTimeoutTimestamp.Some? && executionTimeoutTimestamp.value != 0 {
        parentTimestamp := executionTimeoutTimestamp.value;
      }
      subworkflowTimeout := Some(Min(parentTimestamp, startTime + executionTimeout.value * 1000));
    }
  }

  // ---------------------------------------------------------------- the run in the main process

  /** The limit of a workflow in seconds: its setting or the default, cut to the maximum; not positive is none. */
  function WorkflowTimeout(setting: Option<int>, default: int, maximum: int): int {
    var timeout := setting.GetOr(default);
    if timeout > 0 then Min(timeout, maximum) else timeout
  }

  /** When a run armed at `now` is stopped; `startedAt` is known only for a resumed run. */
  function KillAt(limit: int, startedAt: Option<int>, now: int): Option<int> {
    if limit <= 0 then None
    else if startedAt.None? then Some(now + limit * 1000)
    else Some(Max(now, startedAt.value + limit * 1000))
  }

  /** `v` is the smaller of `a` and `b`. */
  predicate IsSmaller(v: int, a: int, b: int) { v <= a && v <= b && (v == a || v == b) }

  /** `v` is the later of `a` and `b`. */
  predicate IsLater(v: int, a: int, b: int) { v >= a && v >= b && (v == a || v == b) }

  /** The setting of the workflow goes before the default, and the maximum cuts either. */
  lemma WorkflowTimeoutIs(setting: Option<int>, default: int, maximum: int)
    ensures var chosen := if setting.Some? then setting.value else default;
      var limit := WorkflowTimeout(setting, default, maximum);
      (chosen > 0 ==> IsSmaller(limit, chosen, maximum)) && (chosen <= 0 ==> limit <= 0)
  {
  }

  /** `runMainProcess`: the soft deadline it hands to the workflow, and the time at which it will stop the run. */
  method RunMainProcess(setting: Option<int>, default: int, maximum: int, startedAt: Option<int>, now: int)
    returns (executionTimeoutTimestamp: Option<int>, killAt: Option<int>)
    ensures var limit := WorkflowTimeout(setting, default, maximum);
      && executionTimeoutTimestamp == (if limit > 0 then Some(now + limit * 1000) else None)
      && killAt == KillAt(limit, startedAt, now)
    ensures var chosen := if setting.Some? then setting.value else default;
      if chosen <= 0 || maximum <= 0 then executionTimeoutTimestamp.None? && killAt.None?
      else
        && executionTimeoutTimestamp.Some? && killAt.Some?
        && IsSmaller(executionTimeoutTimestamp.value, now + chosen * 1000, now + maximum * 1000)
        && (startedAt.None? ==> killAt == executionTimeoutTimestamp)
        && (startedAt.Some? ==>
              IsLater(killAt.value, now, startedAt.value + (executionTimeoutTimestamp.value - now)))
  {
    WorkflowTimeoutIs(setting, default, maximum);
    var workflowTimeout := default;
    if setting.Some? { workflowTimeout := setting.value; }
    if workflowTimeout > 0 { workflowTimeout := Min(workflowTimeout, maximum); }
    executionTimeoutTimestamp := if workflowTimeout <= 0 then None else Some(now + workflowTimeout * 1000);
    killAt := None;
    if workflowTimeout > 0 {
      var timeout := Min(workflowTimeout, maximum) * 1000;
      if startedAt.Some? {
        timeout := Max(timeout - (now - startedAt.value), 0);
      }
      if timeout == 0 {
        killAt := Some(now);
      } else {
        killAt := Some(now + timeout);
      }
    }
  }

  // ---------------------------------------------------------------- across resumes

  /** One run of an execution: when `setRunning` stamped the record, and when the run armed its timeout. */
  datatype RunTimes = RunTimes(stamped: int, armed: int)

  /** The start time in the record after these runs: `setRunning` overwrites it every time. */
  function StartedAt(runs: seq<RunTimes>): Option<int> {
    if runs == [] then None else Some(runs[|runs| - 1].stamped)
  }

  /** When the last of these runs is stopped: a resumed run was given the start time in the record before it. */
  function LastKillAt(limit: int, runs: seq<RunTimes>): Option<int>
    requires runs != []
  {
    KillAt(limit, StartedAt(runs[..|runs| - 1]), runs[|runs| - 1].armed)
  }

  ghost predicate InOrder(runs: seq<RunTimes>) {
    forall i, j :: 0 <= i <= j < |runs| ==>
      runs[i].stamped <= runs[j].armed && runs[i].stamped <= runs[j].stamped
  }

  /**
   A resumed run is stopped at the later of now and the start of the run before it plus the limit. That is the
   limit counted from the first start, as the comment in the code means it, exactly if the record still holds
   the first start or the limit counted from the previous start is over already.
   */
  lemma KillDeadlineAcrossResumes(limit: int, runs: seq<RunTimes>)
    requires limit > 0 && |runs| >= 2 && InOrder(runs)
    ensures var n := |runs|; var last := runs[n - 1];
      && LastKillAt(limit, runs).Some?
      && IsLater(LastKillAt(limit, runs).value, last.armed, runs[n - 2].stamped + limit * 1000)
      && (IsLater(LastKillAt(limit, runs).value, last.armed, runs[0].stamped + limit * 1000) <==>
            runs[n - 2].stamped == runs[0].stamped || last.armed >= runs[n - 2].stamped + limit * 1000)
      && LastKillAt(limit, runs).value >= runs[0].stamped + limit * 1000
  {
    var n := |runs|;
    assert runs[..n - 1][n - 2] == runs[n - 2];
    assert runs[0].stamped <= runs[n - 2].stamped;
  }

  /** One resume is always counted from the first start. */
  lemma FirstResumeCountsFromTheStart(limit: int, runs: seq<RunTimes>)
    requires limit > 0 && |runs| == 2 && InOrder(runs)
    ensures LastKillAt(limit, runs).Some?
    ensures IsLater(LastKillAt(limit, runs).value, runs[1].armed, runs[0].stamped + limit * 1000)
  {
    KillDeadlineAcrossResumes(limit, runs);
  }

  /** From the second resume on it need not be: every resume can win a whole limit. */
  lemma LaterResumesExtendTheDeadline(limit: int, start: int)
    requires limit > 0
    ensures var half := limit * 500;
      var runs := [RunTimes(start, start), RunTimes(start + half, start + half),
                   RunTimes(start + 2 * half, start + 2 * half)];
      InOrder(runs) && LastKillAt(limit, runs) == Some(start + half + limit * 1000)
  {
    var half := limit * 500;
    var runs := [RunTimes(start, start), RunTimes(start + half, start + half),
                 RunTimes(start + 2 * half, start + 2 * half)];
    KillDeadlineAcrossResumes(limit, runs);
  }
}
