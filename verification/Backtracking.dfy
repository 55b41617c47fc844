/**
 Walking a paired item back through the tasks of a finished workflow run, from the last executed node to the
 first task that has no source any more.
 */
module Backtracking {
  import opened Wrappers

  /** `Many` is the array form, which is an object without `item` and `input`. */
  datatype PairedItem = One(item: Option<int>, input: Option<int>) | Many | Index(index: int)

  datatype Item = Item(pairedItem: Option<PairedItem>)

  datatype Source = Source(previousNode: string, previousNodeRun: Option<int>)

  /** `main` are the outputs; a list is null when the output produced nothing. */
  datatype Task = Task(executionIndex: nat, source: seq<Option<Source>>, main: seq<Option<seq<Item>>>)

  type RunData = map<string, seq<Task>>

  function At<T>(s: seq<T>, i: int): Option<T> {
    if 0 <= i < |s| then Some(s[i]) else None
  }

  function PreviousTaskData(runData: RunData, task: Task): Option<Task> {
    if task.source == [] || task.source[0].None? || task.source[0].value.previousNode == "" then None
    else
      var source := task.source[0].value;
      if source.previousNode !in runData then None
      else At(runData[source.previousNode], source.previousNodeRun.GetOr(0))
  }

  /** The first source of `task` names run `r` of `node`, run 0 if it gives none, and that run exists. */
  ghost predicate LeadsTo(runData: RunData, task: Task, node: string, r: int) {
    && |task.source| > 0 && task.source[0].Some? && task.source[0].value.previousNode == node && node != ""
    && (task.source[0].value.previousNodeRun.Some? ==> r == task.source[0].value.previousNodeRun.value)
    && (task.source[0].value.previousNodeRun.None? ==> r == 0)
    && node in runData && 0 <= r < |runData[node]|
  }

  /** Every source leads to a task that was executed earlier. */
  ghost predicate Ordered(runData: RunData) {
    forall node, i :: node in runData && 0 <= i < |runData[node]| ==> EarlierSource(runData, runData[node][i])
  }

  ghost predicate EarlierSource(runData: RunData, task: Task) {
    forall node, r :: LeadsTo(runData, task, node, r) ==> runData[node][r].executionIndex < task.executionIndex
  }

  /** The previous task is the run that the first source names; there is none exactly if it names no run. */
  lemma PreviousIs(runData: RunData, task: Task)
    ensures forall node, r :: LeadsTo(runData, task, node, r) ==>
      PreviousTaskData(runData, task) == Some(runData[node][r])
    ensures PreviousTaskData(runData, task).Some? ==> exists node, r :: LeadsTo(runData, task, node, r)
  {
    if PreviousTaskData(runData, task).Some? {
      var source := task.source[0].value;
      assert LeadsTo(runData, task, source.previousNode, source.previousNodeRun.GetOr(0));
    }
  }

  lemma PreviousIsEarlier(runData: RunData, task: Task)
    requires EarlierSource(runData, task) && PreviousTaskData(runData, task).Some?
    ensures var p := PreviousTaskData(runData, task).value;
      p.executionIndex < task.executionIndex && IsTask(runData, p)
  {
    PreviousIs(runData, task);
    var node, r :| LeadsTo(runData, task, node, r);
    assert runData[node][r] == PreviousTaskData(runData, task).value;
  }

  ghost predicate IsTask(runData: RunData, task: Task) {
    exists node, i :: node in runData && 0 <= i < |runData[node]| && runData[node][i] == task
  }

  /** Where in the outputs of a task the paired item `p` points; the original item index is the fallback. */
  function Position(p: Option<PairedItem>, itemIndex: int): (int, int) {
    match p
    case Some(One(item, input)) => (input.GetOr(0), item.GetOr(itemIndex))
    case Some(Index(index)) => (0, index)
    case _ => (0, itemIndex)
  }

  /** The item at a position in the outputs of `task`. */
  function ItemAt(task: Task, position: (int, int)): Option<Item> {
    var items := At(task.main, position.0);
    if items.Some? && items.value.Some? then At(items.value.value, position.1) else None
  }

  function PairedOf(item: Option<Item>): Option<PairedItem> {
    if item.Some? then item.value.pairedItem else None
  }

  // ---------------------------------------------------------------- the chain of tasks and the walk along it

  /** The tasks before `task`, nearest first. */
  ghost function Before(runData: RunData, task: Task): seq<Task>
    requires Ordered(runData) && IsTask(runData, task)
    decreases task.executionIndex
  {
    var p := PreviousTaskData(runData, task);
    if p.None? then [] else
      PreviousIsEarlier(runData, task);
      [p.value] + Before(runData, p.value)
  }

  /** Following `p` from task to task: each step takes the paired item of the item pointed at. */
  function Follow(tasks: seq<Task>, p: Option<PairedItem>, itemIndex: int): Option<PairedItem>
    decreases |tasks|
  {
    if tasks == [] then p
    else Follow(tasks[1..], PairedOf(ItemAt(tasks[0], Position(p, itemIndex))), itemIndex)
  }

  datatype Run = Run(lastNodeExecuted: string, runData: RunData)

  /** The last task of the node executed last, if the run has one. */
  function LastTask(run: Run): Option<Task> {
    if run.lastNodeExecuted == "" || run.lastNodeExecuted !in run.runData then None
    else At(run.runData[run.lastNodeExecuted], |run.runData[run.lastNodeExecuted]| - 1)
  }

  ghost function PairedItemOfRun(run: Run, item: Item, itemIndex: int): Option<PairedItem>
    requires Ordered(run.runData)
  {
    var last := LastTask(run);
    if last.None? then None
    else
      assert IsTask(run.runData, last.value);
      Follow(Before(run.runData, last.value), item.pairedItem, itemIndex)
  }

  /** `tasks` are linked, each to the run that its first source names, and the last one's names none. */
  ghost predicate IsChain(runData: RunData, tasks: seq<Task>)
    decreases |tasks|
  {
    && tasks != []
    && if |tasks| == 1 then forall node, r :: !LeadsTo(runData, tasks[0], node, r)
       else Linked(runData, tasks[0], tasks[1]) && IsChain(runData, tasks[1..])
  }

  ghost predicate Linked(runData: RunData, task: Task, previous: Task) {
    exists node, r :: LeadsTo(runData, task, node, r) && runData[node][r] == previous
  }

  /** `p` points at item `index` of output `input`: 0 and the original item index stand for what it leaves open. */
  predicate PointsAt(p: Option<PairedItem>, itemIndex: int, input: int, index: int) {
    match p
    case Some(Index(i)) => input == 0 && index == i
    case Some(One(item, output)) =>
      && (item.Some? ==> index == item.value) && (item.None? ==> index == itemIndex)
      && (output.Some? ==> input == output.value) && (output.None? ==> input == 0)
    case _ => input == 0 && index == itemIndex
  }

  /** `q` is the paired item of that item of `task`, if there is such an item. */
  predicate PairedAt(task: Task, input: int, index: int, q: Option<PairedItem>) {
    if 0 <= input < |task.main| && task.main[input].Some? && 0 <= index < |task.main[input].value|
    then q == task.main[input].value[index].pairedItem
    else q.None?
  }

  ghost predicate StepsTo(task: Task, p: Option<PairedItem>, itemIndex: int, q: Option<PairedItem>) {
    exists input, index :: PointsAt(p, itemIndex, input, index) && PairedAt(task, input, index, q)
  }

  /** `pairs` is the walk of the paired item `p` along `tasks`, the first of which `p` belongs to. */
  ghost predicate IsWalk(tasks: seq<Task>, p: Option<PairedItem>, itemIndex: int, pairs: seq<Option<PairedItem>>)
    decreases |tasks|
  {
    && |pairs| == |tasks| > 0 && pairs[0] == p
    && (|tasks| > 1 ==>
          StepsTo(tasks[1], p, itemIndex, pairs[1]) && IsWalk(tasks[1..], pairs[1], itemIndex, pairs[1..]))
  }

  /** The result of a walk from `last`, along the linked tasks, to the first of them. */
  ghost predicate WalksTo(runData: RunData, last: Task, p: Option<PairedItem>, itemIndex: int, r: Option<PairedItem>) {
    exists tasks, pairs :: IsChain(runData, tasks) && tasks[0] == last && IsWalk(tasks, p, itemIndex, pairs) &&
                           pairs[|pairs| - 1] == r
  }

  lemma OneStep(task: Task, p: Option<PairedItem>, itemIndex: int)
    ensures StepsTo(task, p, itemIndex, PairedOf(ItemAt(task, Position(p, itemIndex))))
  {
    var (input, index) := Position(p, itemIndex);
    assert PointsAt(p, itemIndex, input, index) && PairedAt(task, input, index, PairedOf(ItemAt(task, (input, index))));
  }

  /** The recursive walk is one along the linked tasks. */
  lemma {:induction false} FollowWalks(runData: RunData, last: Task, p: Option<PairedItem>, itemIndex: int)
    requires Ordered(runData) && IsTask(runData, last)
    ensures WalksTo(runData, last, p, itemIndex, Follow(Before(runData, last), p, itemIndex))
    decreases last.executionIndex
  {
    PreviousIs(runData, last);
    var previous := PreviousTaskData(runData, last);
    if previous.None? {
      assert IsChain(runData, [last]) && [last][0] == last && IsWalk([last], p, itemIndex, [p]) && [p][|[p]| - 1] == p;
    } else {
      PreviousIsEarlier(runData, last);
      var q := PairedOf(ItemAt(previous.value, Position(p, itemIndex)));
      OneStep(previous.value, p, itemIndex);
      FollowWalks(runData, previous.value, q, itemIndex);
      var r := Follow(Before(runData, previous.value), q, itemIndex);
      assert Before(runData, last)[1..] == Before(runData, previous.value);
      var node, n :| LeadsTo(runData, last, node, n);
      assert runData[node][n] == previous.value;
      WalkBack(runData, last, previous.value, p, q, itemIndex, r);
    }
  }

  lemma WalkBack(runData: RunData, last: Task, previous: Task, p: Option<PairedItem>, q: Option<PairedItem>,
                 itemIndex: int, r: Option<PairedItem>)
    requires WalksTo(runData, previous, q, itemIndex, r) && Linked(runData, last, previous)
    requires StepsTo(previous, p, itemIndex, q)
    ensures WalksTo(runData, last, p, itemIndex, r)
  {
    var tasks, pairs :| IsChain(runData, tasks) && tasks[0] == previous && IsWalk(tasks, q, itemIndex, pairs) &&
                        pairs[|pairs| - 1] == r;
    var longer, more := [last] + tasks, [p] + pairs;
    assert longer[1..] == tasks && more[1..] == pairs;
    assert Linked(runData, longer[0], longer[1]) && IsChain(runData, longer);
    assert IsWalk(longer, p, itemIndex, more) && more[|more| - 1] == r;
  }

  method FindPairedItemThroughWorkflowData(run: Run, item: Item, itemIndex: int)
    returns (pairedItem: Option<PairedItem>)
    requires Ordered(run.runData)
    ensures pairedItem == PairedItemOfRun(run, item, itemIndex)
    ensures var node := run.lastNodeExecuted;
      if node != "" && node in run.runData && run.runData[node] != [] then
        WalksTo(run.runData, run.runData[node][|run.runData[node]| - 1], item.pairedItem, itemIndex, pairedItem)
      else pairedItem.None?
  {
    if run.lastNodeExecuted == "" { return None; }
    if run.lastNodeExecuted !in run.runData { return None; }
    var runData := run.runData[run.lastNodeExecuted];
    var runIndex := |runData| - 1;
    if runIndex < 0 { return None; }
    var taskData := runData[runIndex];
    assert IsTask(run.runData, taskData);
    if PreviousTaskData(run.runData, taskData).Some? { PreviousIsEarlier(run.runData, taskData); }

    FollowWalks(run.runData, taskData, item.pairedItem, itemIndex);
    var runDataItem := PreviousTaskData(run.runData, taskData);
    pairedItem := item.pairedItem;
    while runDataItem.Some?
      invariant runDataItem.Some? ==> IsTask(run.runData, runDataItem.value)
      invariant PairedItemOfRun(run, item, itemIndex) ==
        Follow(Remaining(run.runData, runDataItem), pairedItem, itemIndex)
      decreases if runDataItem.Some? then 1 + runDataItem.value.executionIndex else 0
    {
      var task := runDataItem.value;
      var inputIndex, nodeIndex := 0, itemIndex;
      if pairedItem.Some? && !pairedItem.value.Index? {
        if pairedItem.value.One? {
          inputIndex := pairedItem.value.input.GetOr(0);
          nodeIndex := pairedItem.value.item.GetOr(itemIndex);
        }
      } else if pairedItem.Some? {
        nodeIndex := pairedItem.value.index;
      }
      assert (inputIndex, nodeIndex) == Position(pairedItem, itemIndex);
      if PreviousTaskData(run.runData, task).Some? { PreviousIsEarlier(run.runData, task); }
      assert Remaining(run.runData, runDataItem)[1..] == Remaining(run.runData, PreviousTaskData(run.runData, task));

      var items := At(task.main, inputIndex);
      var found := if items.Some? && items.value.Some? then At(items.value.value, nodeIndex) else None;
      pairedItem := if found.Some? then found.value.pairedItem else None;
      runDataItem := PreviousTaskData(run.runData, task);
    }
  }

  ghost function Remaining(runData: RunData, next: Option<Task>): seq<Task>
    requires Ordered(runData) && (next.Some? ==> IsTask(runData, next.value))
  {
    if next.None? then [] else [next.value] + Before(runData, next.value)
  }

  // ---------------------------------------------------------------- what the walk finds

  lemma {:induction false} FollowSplit(a: seq<Task>, b: seq<Task>, p: Option<PairedItem>, itemIndex: int)
    ensures Follow(a + b, p, itemIndex) == Follow(b, Follow(a, p, itemIndex), itemIndex)
    decreases |a|
  {
    if a == [] {
      assert a + b == b;
    } else {
      assert (a + b)[1..] == a[1..] + b;
      FollowSplit(a[1..], b, PairedOf(ItemAt(a[0], Position(p, itemIndex))), itemIndex);
    }
  }

  /**
   The result is the paired item of an item of the first task, the one the walk along the later tasks points
   at; the tasks in between only decide which one that is.
   */
  lemma ResultIsFromFirstTask(later: seq<Task>, first: Task, p: Option<PairedItem>, itemIndex: int)
    ensures Follow(later + [first], p, itemIndex) ==
      PairedOf(ItemAt(first, Position(Follow(later, p, itemIndex), itemIndex)))
  {
    FollowSplit(later, [first], p, itemIndex);
    var q := PairedOf(ItemAt(first, Position(Follow(later, p, itemIndex), itemIndex)));
    assert Follow([first][1..], q, itemIndex) == q;
  }

  /** A missing link, like the array form, sends the walk on with the original item index on input 0. */
  lemma MissingLinkFallsBack(tasks: seq<Task>, p: Option<PairedItem>, itemIndex: int)
    requires tasks != [] && (p.None? || p == Some(Many) || p == Some(One(None, None)))
    ensures Follow(tasks, p, itemIndex) == Follow(tasks, Some(Index(itemIndex)), itemIndex)
  {
  }

  /** `p` names item `i` of input 0 by itself, without the fallback. */
  predicate Names(p: Option<PairedItem>, i: int) {
    p == Some(Index(i)) || (p.Some? && p.value.One? && p.value.input.GetOr(0) == 0 && p.value.item == Some(i))
  }

  /** Through tasks that pair every item with its own index, an item is traced back to its own index. */
  lemma {:induction false} UnchangedIndexes(tasks: seq<Task>, n: nat, p: Option<PairedItem>, i: nat, itemIndex: int)
    requires i < n && Names(p, i)
    requires forall k :: 0 <= k < |tasks| ==> NamesOwn(tasks[k], n)
    ensures Names(Follow(tasks, p, itemIndex), i)
    decreases |tasks|
  {
    if tasks != [] {
      assert NamesOwn(tasks[0], n);
      UnchangedIndexes(tasks[1..], n, PairedOf(ItemAt(tasks[0], Position(p, itemIndex))), i, itemIndex);
    }
  }

  /** Every one of the `n` items on the first output of `task` is paired with its own index. */
  ghost predicate NamesOwn(task: Task, n: nat) {
    && |task.main| > 0 && task.main[0].Some? && |task.main[0].value| == n
    && forall i :: 0 <= i < n ==> Names(task.main[0].value[i].pairedItem, i)
  }
}
