/**
 The resume protocol of one execution record that several processes share through the database.

 A run of the execution suspends it ('waiting'); afterwards timers, finished child executions and requests
 (webhooks, forms, chat messages), in any process and in any number, try to resume it. Every `await` of
 `updateParentExecutionWithChildResults`, `WaitTracker.startExecution`, `ActiveExecutions.add` and
 `WorkflowRunner.runMainProcess` is a step boundary; between two boundaries a step is atomic, as it is on the
 event loop and in the database.

 A *period* is the time from one suspension to the next. `history[p]` is the data saved when period `p`
 began. The fields `history`, `origin`, `writers` and `canceled` of the world, the origins in `Snapshot`, and
 `read` and `wrote` record the past: no step looks at them to decide what to do.
 */
module ResumeProtocol {
  import opened Wrappers

  // ---------------------------------------------------------------- data carried by executions

  datatype Item = Item(json: string, paired: Option<nat>)

  /** The `main` connections of a task: one list of items per output. */
  type Payload = seq<seq<Item>>

  datatype TaskData = TaskData(data: Option<Payload>, source: string)

  datatype PinData = OnePinned(item: string) | ManyPinned(items: seq<string>)

  /** What `getDataLastExecutedNodeData` looks at in the `IRun` of a finished child. */
  datatype ChildRun = ChildRun(
    manual: bool,
    lastNode: Option<string>,
    runData: map<string, seq<TaskData>>,
    pinData: map<string, PinData>)

  datatype Error = TypeError

  function PinnedItems(pinned: PinData): seq<Item> {
    var items := if pinned.OnePinned? then [pinned.item] else pinned.items;
    seq(|items|, i requires 0 <= i < |items| => Item(items[i], Some(i)))
  }

  function LastExecutedNodeData(run: ChildRun): Result<Option<TaskData>, Error> {
    if run.lastNode.None? || run.lastNode.value !in run.runData then Success(None)
    else
      var node := run.lastNode.value;
      var tasks := run.runData[node];
      if node in run.pinData && run.manual then
        // `lastNodeRunData.source` is read, which throws when the node has no task
        if tasks == [] then Failure(TypeError)
        else Success(Some(TaskData(Some([PinnedItems(run.pinData[node])]), tasks[|tasks| - 1].source)))
      else Success(if tasks == [] then None else Some(tasks[|tasks| - 1]))
  }

  /** The payload a finished child wants to hand to its parent, if it has one. */
  function ChildOutput(run: ChildRun): Result<Option<Payload>, Error> {
    match LastExecutedNodeData(run)
    case Failure(e) => Failure(e)
    case Success(task) => Success(if task.None? then None else task.value.data)
  }

  /** One output with one item per pinned item, in their order, each paired with its own index. */
  predicate PinnedOutput(pinned: PinData, output: Payload) {
    |output| == 1 &&
    match pinned
    case OnePinned(item) => output[0] == [Item(item, Some(0))]
    case ManyPinned(items) =>
      |output[0]| == |items| && forall k :: 0 <= k < |items| ==> output[0][k] == Item(items[k], Some(k))
  }

  /**
   What a finished child hands to its parent: in manual mode what is pinned on the node executed last, else the
   data of the last of that node's tasks.
   */
  predicate HandsOver(run: ChildRun, output: Payload) {
    && run.lastNode.Some? && run.lastNode.value in run.runData && run.runData[run.lastNode.value] != []
    && var node, tasks := run.lastNode.value, run.runData[run.lastNode.value];
       if run.manual && node in run.pinData then PinnedOutput(run.pinData[node], output)
       else tasks[|tasks| - 1].data == Some(output)
  }

  /** Pinned data, in manual mode, on a node that has no task: its source cannot be read. */
  predicate Unreadable(run: ChildRun) {
    && run.manual && run.lastNode.Some? && run.lastNode.value in run.pinData
    && run.lastNode.value in run.runData && run.runData[run.lastNode.value] == []
  }

  /** The output a child is found to have is what it hands over, and looking for it fails exactly if unreadable. */
  lemma ChildOutputIs(run: ChildRun, output: Payload)
    ensures ChildOutput(run) == Success(Some(output)) <==> HandsOver(run, output)
    ensures ChildOutput(run).Failure? <==> Unreadable(run)
  {
    if run.lastNode.Some? && run.lastNode.value in run.pinData {
      PinnedItemsAre(run.pinData[run.lastNode.value], output);
    }
  }

  lemma PinnedItemsAre(pinned: PinData, output: Payload)
    ensures output == [PinnedItems(pinned)] <==> PinnedOutput(pinned, output)
  {
    if PinnedOutput(pinned, output) {
      assert output[0] == PinnedItems(pinned);
      assert output == [output[0]];
    }
  }

  /** Without pinned data the output is that of the last task, whatever tasks came before it. */
  lemma LastTaskDecides(run: ChildRun, node: string, earlier: seq<TaskData>, last: TaskData, output: Payload)
    requires run.lastNode == Some(node) && node in run.runData && run.runData[node] == earlier + [last]
    requires !(run.manual && node in run.pinData)
    ensures HandsOver(run, output) <==> last.data == Some(output)
    ensures ChildOutput(run) == Success(last.data)
  {
  }

  datatype StackEntry = StackEntry(node: string, data: Payload)

  /** `stack` is the `nodeExecutionStack`, `failed` says if an error is noted; `rest` stands for everything else. */
  datatype RunData = RunData(stack: seq<StackEntry>, failed: bool, rest: string)

  /** `data` with the input of the node that runs next replaced. */
  function WithHead(data: RunData, output: Payload): RunData
    requires data.stack != []
  {
    data.(stack := data.stack[0 := data.stack[0].(data := output)])
  }

  /** `data` is `base` with `output` as the input of the node that runs next, and differs in nothing else. */
  predicate InputReplaced(base: RunData, data: RunData, output: Payload) {
    && base.stack != [] && |data.stack| == |base.stack| && data.failed == base.failed && data.rest == base.rest
    && data.stack[0].node == base.stack[0].node && data.stack[0].data == output
    && data.stack[1..] == base.stack[1..]
  }

  /** `a` and `b` are the same but for the input of the node that runs next. */
  predicate SameFrame(a: RunData, b: RunData) {
    && |a.stack| == |b.stack| && a.failed == b.failed && a.rest == b.rest
    && (a.stack != [] ==> a.stack[0].node == b.stack[0].node && a.stack[1..] == b.stack[1..])
  }

  lemma WithHeadReplaces(base: RunData, data: RunData, output: Payload)
    requires base.stack != []
    ensures data == WithHead(base, output) <==> InputReplaced(base, data, output)
  {
    if InputReplaced(base, data, output) {
      assert data.stack == [data.stack[0]] + data.stack[1..];
      assert WithHead(base, output).stack == [WithHead(base, output).stack[0]] + base.stack[1..];
    }
  }

  // ---------------------------------------------------------------- the shared record and its users

  datatype Status = Running | Waiting | Finished | Errored | Canceled

  datatype Record = Record(status: Status, finished: bool, data: RunData)

  /** The columns an update sets; a status is execution information, the data has a table of its own. */
  datatype Changes = Changes(status: Option<Status>, data: Option<RunData>)

  /** `updateExistingExecution`: with a required status, it does nothing to a record in another status. */
  function UpdateRecord(db: Record, changes: Changes, required: Option<Status>): (Record, bool) {
    if changes.status.Some? && required.Some? && db.status != required.value then (db, false)
    else (db.(status := changes.status.GetOr(db.status), data := changes.data.GetOr(db.data)), true)
  }

  /**
   The same for a row that may have been deleted. The legacy SQLite driver, which updates the two tables one after
   the other, then reports success unless a status was required; the others do if no status was to be set.
   */
  function UpdateRow(row: Option<Record>, changes: Changes, required: Option<Status>, legacy: bool)
    : (Option<Record>, bool)
  {
    if row.None? then (None, changes.status.None? || (legacy && required.None?))
    else var (db, updated) := UpdateRecord(row.value, changes, required); (Some(db), updated)
  }

  datatype Write = Write(child: nat, output: Payload)

  /** The period whose suspended data the record holds, and the child that last put its output into them. */
  datatype Origin = Origin(period: nat, writer: Option<Write>)

  /** Data read from the record in `period`, with the origin they had and the children that had written by then. */
  datatype Snapshot = Snapshot(data: RunData, period: nat, origin: Option<Origin>, writers: set<nat>)

  datatype Kind = Original | Timer | Child(run: ChildRun) | Request

  datatype Pc =
    | Start                                // about to read the parent (child) or to start it (timer)
    | HasRead(snap: Snapshot)              // child: parent read as waiting, write still to come
    | Restart                              // startExecution called
    | Asked(period: nat)                   // request: record read, its node is still answering
    | Fetched(snap: Snapshot)              // record read, throttle pending
    | Permitted(snap: Snapshot)            // throttle passed, conditional update pending
    | Resumed(snap: Snapshot, won: nat)    // add() returned; setRunning still to come
    | Live(snap: Snapshot, won: nat)       // the run executes
    | Over(snap: Snapshot, won: nat)       // the run suspended, finished or died
    | Refused                              // ExecutionAlreadyResumingError
    | Failed                               // any other error, or the process died

  /** `read` is what a child read in order to write it back, `wrote` the period in which that write landed. */
  datatype Resumer = Resumer(process: nat, kind: Kind, pc: Pc, read: Option<Snapshot>, wrote: Option<nat>)

  /** `origin` is None while the record holds progress of a run; `writers` are the writes of the current period. */
  datatype World = World(
    db: Record,
    resumers: seq<Resumer>,
    history: seq<RunData>,
    origin: Option<Origin>,
    writers: set<nat>,
    canceled: bool)
  {
    function Period(): int { |history| - 1 }
  }

  datatype Act =
    | ReadParent
    | WriteParent
    | Fetch
    | Answer(data: RunData)
    | Throttle
    | Cas
    | SetRunning
    | SaveProgress(data: RunData)
    | Suspend(data: RunData)
    | Complete(success: bool, data: RunData)

  datatype Action =
    | Spawn(process: nat, kind: Kind)
    | By(i: nat, act: Act)
    | CancelRecord
    | Crash(process: nat)

  /** A record whose first run, resumer 0, is executing in process 0. */
  function Init(data: RunData): World {
    World(Record(Running, false, data),
          [Resumer(0, Original, Live(Snapshot(data, 0, Some(Origin(0, None)), {}), 0), None, None)],
          [data], Some(Origin(0, None)), {}, false)
  }

  function Goto(w: World, i: nat, pc: Pc): World
    requires i < |w.resumers|
  {
    w.(resumers := w.resumers[i := w.resumers[i].(pc := pc)])
  }

  function TakeSnapshot(w: World): Snapshot
    requires w.history != []
  {
    Snapshot(w.db.data, w.Period(), w.origin, w.writers)
  }

  /** `w` with the parent read by child `i`. */
  function ReadBy(w: World, i: nat): World
    requires i < |w.resumers| && w.history != []
  {
    w.(resumers := w.resumers[i := w.resumers[i].(pc := HasRead(TakeSnapshot(w)), read := Some(TakeSnapshot(w)))])
  }

  /** First half of `updateParentExecutionWithChildResults`: up to the parent read and its early returns. */
  function ReadParentStep(w: World, i: nat): World
    requires i < |w.resumers| && w.history != []
  {
    var r := w.resumers[i];
    if !r.kind.Child? || r.pc != Start then w
    else match ChildOutput(r.kind.run)
      case Failure(_) => Goto(w, i, Failed)     // the promise chain rejects: no write, no restart
      case Success(None) => Goto(w, i, Restart)
      case Success(Some(_)) =>
        if w.db.status != Waiting || w.db.data.stack == [] then Goto(w, i, Restart)
        else ReadBy(w, i)
  }

  /** Second half: an unconditional write of what was read, with the child's output put in front. */
  function WriteParentStep(w: World, i: nat): World
    requires i < |w.resumers| && w.history != []
  {
    var r := w.resumers[i];
    if !r.pc.HasRead? || !r.kind.Child? || r.pc.snap.data.stack == [] then w
    else match ChildOutput(r.kind.run)
      case Success(Some(output)) =>
        w.(db := UpdateRecord(w.db, Changes(None, Some(WithHead(r.pc.snap.data, output))), None).0,
           resumers := w.resumers[i := r.(pc := Restart, wrote := Some(w.Period()))],
           origin := if r.pc.snap.origin.None? then None
                    else Some(Origin(r.pc.snap.origin.value.period, Some(Write(i, output)))),
           writers := w.writers + {i})
      case _ => w
  }

  /**
   `findSingleExecution` in `startExecution`, and the check that the execution is not finished. A request also
   refuses an execution that is running or has an error noted.
   */
  function FetchStep(w: World, i: nat): World
    requires i < |w.resumers| && w.history != []
  {
    var r := w.resumers[i];
    if r.pc == Restart || (r.kind == Timer && r.pc == Start) then
      Goto(w, i, if w.db.finished then Failed else Fetched(TakeSnapshot(w)))
    else if r.kind == Request && r.pc == Start then
      Goto(w, i, if w.db.finished || w.db.status == Running || w.db.data.failed then Failed else Asked(w.Period()))
    else w
  }

  /** The node of a request has answered: the request resumes with run data of its own making. */
  function AnswerStep(w: World, i: nat, data: RunData): World
    requires i < |w.resumers| && w.history != []
  {
    var r := w.resumers[i];
    if r.pc.Asked? then Goto(w, i, Fetched(Snapshot(data, r.pc.period, None, {}))) else w
  }

  /** The conditional update: it writes the data that was fetched, only if the status is 'waiting'. */
  function CasStep(w: World, i: nat): World
    requires i < |w.resumers| && w.history != []
  {
    var r := w.resumers[i];
    if !r.pc.Permitted? then w
    else
      var (db, updated) := UpdateRecord(w.db, Changes(Some(Running), Some(r.pc.snap.data)), Some(Waiting));
      Goto(w, i, if updated then Resumed(r.pc.snap, w.Period()) else Refused).(
        db := db, origin := if updated then r.pc.snap.origin else w.origin)
  }

  /** What is left of a resumer when its process dies. */
  function Die(pc: Pc): Pc {
    match pc
    case Resumed(s, p) => Over(s, p)
    case Live(s, p) => Over(s, p)
    case Over(_, _) => pc
    case Refused => pc
    case _ => Failed
  }

  function CrashStep(w: World, process: nat): World {
    w.(resumers := seq(|w.resumers|, i requires 0 <= i < |w.resumers| =>
                     if w.resumers[i].process == process then w.resumers[i].(pc := Die(w.resumers[i].pc))
                     else w.resumers[i]))
  }

  /** The steps of a run that is executing: `setRunning`, saves, suspension, completion. */
  function RunStep(w: World, i: nat, act: Act): (w': World)
    requires i < |w.resumers| && w.history != []
    ensures w'.history != []
  {
    var pc := w.resumers[i].pc;
    match act
    case SetRunning =>
      if pc.Resumed? then Goto(w, i, Live(pc.snap, pc.won)).(db := w.db.(status := Running)) else w
    case SaveProgress(data) => if pc.Live? then w.(db := w.db.(data := data), origin := None) else w
    case Suspend(data) =>
      if pc.Live? then
        Goto(w, i, Over(pc.snap, pc.won)).(db := Record(Waiting, false, data), history := w.history + [data],
                                           origin := Some(Origin(|w.history|, None)), writers := {},
                                           canceled := false)
      else w
    case Complete(success, data) =>
      if pc.Live? then
        Goto(w, i, Over(pc.snap, pc.won)).(db := Record(if success then Finished else Errored, success, data),
                                           origin := None)
      else w
    case _ => w
  }

  function ResumerStep(w: World, i: nat, act: Act): (w': World)
    requires i < |w.resumers| && w.history != []
    ensures w'.history != []
  {
    match act
    case ReadParent => ReadParentStep(w, i)
    case WriteParent => WriteParentStep(w, i)
    case Fetch => FetchStep(w, i)
    case Answer(data) => AnswerStep(w, i, data)
    case Throttle =>
      var pc := w.resumers[i].pc;
      if pc.Fetched? then Goto(w, i, Permitted(pc.snap)) else w
    case Cas => CasStep(w, i)
    case _ => RunStep(w, i, act)
  }

  /** One step of the system; an action that is not enabled changes nothing. */
  function Step(w: World, a: Action): (w': World)
    requires w.history != []
    ensures w'.history != []
  {
    match a
    case Spawn(process, kind) =>
      if kind == Original then w else w.(resumers := w.resumers + [Resumer(process, kind, Start, None, None)])
    case By(i, act) => if i < |w.resumers| then ResumerStep(w, i, act) else w
    case CancelRecord => w.(db := w.db.(status := Canceled), canceled := true)
    case Crash(process) => CrashStep(w, process)
  }

  function Run(w: World, actions: seq<Action>): (w': World)
    requires w.history != []
    ensures w'.history != []
    decreases |actions|
  {
    if actions == [] then w else Run(Step(w, actions[0]), actions[1..])
  }

  // ---------------------------------------------------------------- mutual exclusion

  predicate IsLive(pc: Pc) { pc.Resumed? || pc.Live? }

  predicate HasWon(pc: Pc) { pc.Resumed? || pc.Live? || pc.Over? }

  ghost predicate Exclusive(w: World) {
    && w.history != []
    && (forall i, j :: 0 <= i < |w.resumers| && 0 <= j < |w.resumers| && HasWon(w.resumers[i].pc) ==>
          HasWon(w.resumers[j].pc) && w.resumers[i].pc.won == w.resumers[j].pc.won ==> i == j)
    && (forall i :: 0 <= i < |w.resumers| && HasWon(w.resumers[i].pc) ==> PastWin(w, w.resumers[i].pc))
    && (w.db.status != Waiting && !w.canceled ==> exists i :: WonBy(w, i, w.Period()))
  }

  /** A win belongs to a period that is over as far as waiting goes; a live run to the current one. */
  ghost predicate PastWin(w: World, pc: Pc)
    requires HasWon(pc)
  {
    && pc.won <= w.Period()
    && (w.db.status == Waiting ==> pc.won < w.Period())
    && (IsLive(pc) ==> pc.won == w.Period())
  }

  ghost predicate WonBy(w: World, i: int, p: int) {
    0 <= i < |w.resumers| && HasWon(w.resumers[i].pc) && w.resumers[i].pc.won == p
  }

  /** A step that keeps every past win, adds none, and neither suspends nor leaves 'waiting' keeps `Exclusive`. */
  lemma SameWins(w: World, w': World)
    requires Exclusive(w)
    requires w'.history == w.history && w'.canceled == w.canceled && w'.db.status == w.db.status
    requires |w'.resumers| == |w.resumers|
    requires forall i :: 0 <= i < |w.resumers| ==>
      && HasWon(w'.resumers[i].pc) == HasWon(w.resumers[i].pc)
      && (HasWon(w.resumers[i].pc) ==> w'.resumers[i].pc.won == w.resumers[i].pc.won)
      && (IsLive(w'.resumers[i].pc) ==> IsLive(w.resumers[i].pc))
    ensures Exclusive(w')
  {
    if w.db.status != Waiting && !w.canceled {
      var i :| WonBy(w, i, w.Period());
      assert WonBy(w', i, w'.Period());
    }
  }

  lemma CasExclusive(w: World, i: nat)
    requires Exclusive(w) && i < |w.resumers|
    ensures Exclusive(CasStep(w, i))
  {
    var w' := CasStep(w, i);
    if w.resumers[i].pc.Permitted? && w.db.status == Waiting {
      assert WonBy(w', i, w'.Period());
    } else {
      SameWins(w, w');
    }
  }

  lemma RunStepExclusive(w: World, i: nat, act: Act)
    requires Exclusive(w) && i < |w.resumers|
    ensures Exclusive(RunStep(w, i, act))
  {
    var w' := RunStep(w, i, act);
    if IsLive(w.resumers[i].pc) && !act.Suspend? {
      assert WonBy(w', i, w'.Period());
    }
  }

  lemma ResumerExclusive(w: World, i: nat, act: Act)
    requires Exclusive(w) && i < |w.resumers|
    ensures Exclusive(ResumerStep(w, i, act))
  {
    match act
    case Cas => CasExclusive(w, i);
    case ReadParent => ReadParentExclusive(w, i);
    case WriteParent => WriteParentExclusive(w, i);
    case Fetch => FetchExclusive(w, i);
    case Answer(data) => SameWins(w, AnswerStep(w, i, data));
    case Throttle => SameWins(w, ResumerStep(w, i, Throttle));
    case _ => RunStepExclusive(w, i, act);
  }

  lemma ReadParentExclusive(w: World, i: nat)
    requires Exclusive(w) && i < |w.resumers|
    ensures Exclusive(ReadParentStep(w, i))
  {
    SameWins(w, ReadParentStep(w, i));
  }

  lemma WriteParentExclusive(w: World, i: nat)
    requires Exclusive(w) && i < |w.resumers|
    ensures Exclusive(WriteParentStep(w, i))
  {
    SameWins(w, WriteParentStep(w, i));
  }

  lemma FetchExclusive(w: World, i: nat)
    requires Exclusive(w) && i < |w.resumers|
    ensures Exclusive(FetchStep(w, i))
  {
    SameWins(w, FetchStep(w, i));
  }

  lemma StepExclusive(w: World, a: Action)
    requires Exclusive(w)
    ensures Exclusive(Step(w, a))
  {
    var w' := Step(w, a);
    match a
    case Spawn(_, _) =>
      if w.db.status != Waiting && !w.canceled {
        var i :| WonBy(w, i, w.Period());
        assert WonBy(w', i, w'.Period());
      }
    case By(i, act) => if i < |w.resumers| { ResumerExclusive(w, i, act); }
    case CancelRecord =>
    case Crash(_) => SameWins(w, w');
  }

  lemma {:induction false} RunExclusive(w: World, actions: seq<Action>)
    requires Exclusive(w)
    ensures Exclusive(Run(w, actions))
    decreases |actions|
  {
    if actions != [] {
      StepExclusive(w, actions[0]);
      RunExclusive(Step(w, actions[0]), actions[1..]);
    }
  }

  lemma InitExclusive(data: RunData)
    ensures Exclusive(Init(data))
  {
    assert WonBy(Init(data), 0, 0);
  }

  /**
   Whatever the interleaving, at most one run of the execution is live in all processes together, every
   waiting period is left by at most one resume attempt, and while nobody is live the record either waits
   or has been left for good (canceled, finished, or its run died).
   */
  lemma AtMostOneResumePerPeriod(data: RunData, actions: seq<Action>, i: nat, j: nat)
    requires var w := Run(Init(data), actions); i < |w.resumers| && j < |w.resumers|
    ensures var w := Run(Init(data), actions); var a, b := w.resumers[i].pc, w.resumers[j].pc;
      && (HasWon(a) && HasWon(b) && a.won == b.won ==> i == j)
      && (IsLive(a) && IsLive(b) ==> i == j)
      && (IsLive(a) ==> w.db.status != Waiting && a.won == w.Period())
  {
    InitExclusive(data);
    RunExclusive(Init(data), actions);
  }

  /**
   A conditional update succeeds exactly when the record waits. The attempt that succeeds is the first and
   only winner of the period; one that does not is refused, leaves the record alone, and was beaten by the
   winner of the period unless the execution was canceled meanwhile.
   */
  lemma LosersLeaveTheRecordAlone(data: RunData, actions: seq<Action>, i: nat)
    requires var w := Run(Init(data), actions); i < |w.resumers| && w.resumers[i].pc.Permitted?
    ensures var w := Run(Init(data), actions); var w' := Step(w, By(i, Cas));
      if w.db.status == Waiting then
        && WonBy(w', i, w.Period()) && (forall k :: !WonBy(w, k, w.Period()))
        && w'.db == Record(Running, w.db.finished, w.resumers[i].pc.snap.data)
      else
        && w'.db == w.db && w'.resumers[i].pc == Refused
        && (w.canceled || exists k :: k != i && WonBy(w, k, w.Period()))
  {
    InitExclusive(data);
    RunExclusive(Init(data), actions);
    var w := Run(Init(data), actions);
    if w.db.status != Waiting && !w.canceled {
      var k :| WonBy(w, k, w.Period());
      assert k != i;
    }
  }

  // ---------------------------------------------------------------- the data a resumed parent gets

  predicate HasSnapshot(pc: Pc) { HasWon(pc) || pc.HasRead? || pc.Fetched? || pc.Permitted? }

  /** The data saved at a suspension, with the input of the next node replaced by a child's output, if any. */
  function Patched(base: RunData, writer: Option<Write>): RunData {
    if writer.Some? && base.stack != [] then WithHead(base, writer.value.output) else base
  }

  predicate HasOutput(kind: Kind) {
    kind.Child? && ChildOutput(kind.run).Success? && ChildOutput(kind.run).value.Some?
  }

  /** `write` carries the output of a finished child, which had read data of period `p`. */
  ghost predicate ChildWrite(w: World, write: Write, p: nat) {
    && write.child < |w.resumers| && w.resumers[write.child].kind.Child?
    && ChildOutput(w.resumers[write.child].kind.run) == Success(Some(write.output))
    && ReadDataOf(w.resumers[write.child], p)
  }

  predicate ReadDataOf(r: Resumer, p: nat) {
    r.read.Some? && r.read.value.origin.Some? && r.read.value.origin.value.period == p
  }

  /** `origin` says truly what `data` are. */
  ghost predicate OriginOk(w: World, origin: Origin, data: RunData) {
    && origin.period < |w.history|
    && data == Patched(w.history[origin.period], origin.writer)
    && (origin.writer.Some? ==>
          ChildWrite(w, origin.writer.value, origin.period) && w.history[origin.period].stack != [])
  }

  /** Only finished children with output write, each in the period that is noted for it. */
  ghost predicate WritersOk(w: World, writers: set<nat>, p: nat) {
    forall k :: k in writers ==>
      k < |w.resumers| && HasOutput(w.resumers[k].kind) && w.resumers[k].read.Some? && w.resumers[k].wrote == Some(p)
  }

  /** All of `writers` had read the parent in period `p`. */
  ghost predicate OnTime(w: World, writers: set<nat>, p: nat) {
    forall k :: k in writers ==> k < |w.resumers| && w.resumers[k].read.Some? && w.resumers[k].read.value.period == p
  }

  /** What is known of data in a record that has been waiting since the suspension of period `p`. */
  ghost predicate Fresh(w: World, p: nat, origin: Option<Origin>, writers: set<nat>) {
    && origin.Some?
    && (origin.value.writer.Some? <==> writers != {})
    && (origin.value.writer.Some? ==> origin.value.writer.value.child in writers)
    && (OnTime(w, writers, p) ==> origin.value.period == p)
  }

  ghost predicate SnapshotOk(w: World, s: Snapshot) {
    && s.period < |w.history|
    && (s.origin.Some? ==> OriginOk(w, s.origin.value, s.data) && s.origin.value.period <= s.period)
    && WritersOk(w, s.writers, s.period)
    && (s.period == w.Period() && w.db.status == Waiting ==>
          (s.origin.Some? ==> Fresh(w, s.period, s.origin, s.writers)) && s.writers <= w.writers)
  }

  /** A snapshot that a resumer fetched for its own update. */
  predicate HasFetched(pc: Pc) { HasWon(pc) || pc.Fetched? || pc.Permitted? }

  ghost predicate ResumerOk(w: World, i: nat)
    requires i < |w.resumers|
  {
    var r := w.resumers[i];
    && (HasSnapshot(r.pc) ==> SnapshotOk(w, r.pc.snap))
    && (HasSnapshot(r.pc) && r.pc.snap.period == w.Period() && w.db.status == Waiting && r.kind != Request ==>
          r.pc.snap.origin.Some?)
    && (r.kind == Request ==> r.wrote.None? && r.read.None? && !r.pc.HasRead? && !r.pc.Restart?)
    && (r.pc.Asked? ==> r.kind == Request && r.pc.period < |w.history|)
    && (r.pc.Start? ==> r.read.None? && r.wrote.None?)
    && (r.pc.HasRead? ==> r.pc.snap.origin.Some? && r.pc.snap.data.stack != [] && HasOutput(r.kind) &&
                          r.read == Some(r.pc.snap) && r.wrote.None?)
    && (r.wrote.Some? ==> r.wrote.value < |w.history|)
    && (i in w.writers <==> r.wrote == Some(w.Period()))
    && (HasFetched(r.pc) ==>
          && (i in r.pc.snap.writers <==> r.wrote == Some(r.pc.snap.period))
          && (r.wrote.Some? ==> r.wrote.value <= r.pc.snap.period))
    && (HasWon(r.pc) ==> r.pc.snap.period <= r.pc.won < |w.history|)
    && (HasWon(r.pc) && r.pc.snap.period == r.pc.won && r.kind != Request ==>
          Fresh(w, r.pc.won, r.pc.snap.origin, r.pc.snap.writers))
  }

  ghost predicate RecordOk(w: World) {
    && w.history != []
    && (w.origin.Some? ==> OriginOk(w, w.origin.value, w.db.data) && w.origin.value.period <= w.Period())
    && WritersOk(w, w.writers, w.Period())
    && (w.db.status == Waiting ==> Fresh(w, w.Period(), w.origin, w.writers))
  }

  ghost predicate DataOk(w: World) {
    RecordOk(w) && forall i :: 0 <= i < |w.resumers| ==> ResumerOk(w, i)
  }

  /** Later worlds only add resumers and suspensions, and what a resumer has read or written stays. */
  ghost predicate Extends(w: World, w': World) {
    && |w.resumers| <= |w'.resumers|
    && (forall i :: 0 <= i < |w.resumers| ==> ResumerExtends(w.resumers[i], w'.resumers[i]))
    && w.history <= w'.history && w.history != []
    && (w'.Period() == w.Period() ==>
          (w'.db.status == Waiting ==> w.db.status == Waiting) && w.writers <= w'.writers)
    && (w'.Period() > w.Period() ==> w'.writers == {})
  }

  predicate ResumerExtends(r: Resumer, r': Resumer) {
    && r'.kind == r.kind
    && (r.read.Some? ==> r'.read == r.read)
    && (r.wrote.Some? ==> r'.wrote == r.wrote)
  }

  lemma OriginKept(w: World, w': World, origin: Origin, data: RunData)
    requires Extends(w, w') && OriginOk(w, origin, data)
    ensures OriginOk(w', origin, data)
  {
    if origin.writer.Some? {
      assert ResumerExtends(w.resumers[origin.writer.value.child], w'.resumers[origin.writer.value.child]);
    }
  }

  lemma WritersKept(w: World, w': World, writers: set<nat>, p: nat)
    requires Extends(w, w') && WritersOk(w, writers, p)
    ensures WritersOk(w', writers, p)
    ensures forall q :: OnTime(w', writers, q) ==> OnTime(w, writers, q)
  {
    forall k | k in writers ensures ResumerExtends(w.resumers[k], w'.resumers[k]) {}
  }

  lemma SnapshotKept(w: World, w': World, s: Snapshot)
    requires Extends(w, w') && SnapshotOk(w, s)
    ensures SnapshotOk(w', s)
  {
    WritersKept(w, w', s.writers, s.period);
    if s.origin.Some? { OriginKept(w, w', s.origin.value, s.data); }
  }

  /** A run that wins no more, or an attempt that gives up: `pc'` knows nothing that `pc` did not know. */
  predicate PcDrops(pc: Pc, pc': Pc) {
    pc' == pc ||
    (!pc'.Start? && !pc'.Asked? &&
     (HasSnapshot(pc') ==> HasWon(pc) && HasWon(pc') && pc'.snap == pc.snap && pc'.won == pc.won))
  }

  /** A resumer that does not move, or only drops what it knew, stays well when the world is extended. */
  lemma ResumerKept(w: World, w': World, i: nat)
    requires Extends(w, w') && i < |w.resumers| && ResumerOk(w, i)
    requires var r, r' := w.resumers[i], w'.resumers[i]; r' == r.(pc := r'.pc) && PcDrops(r.pc, r'.pc)
    requires w.resumers[i].kind == Request ==> !w'.resumers[i].pc.Restart?
    requires w'.Period() == w.Period() ==> (i in w'.writers <==> i in w.writers)
    ensures ResumerOk(w', i)
  {
    var r' := w'.resumers[i];
    if HasSnapshot(r'.pc) {
      SnapshotKept(w, w', r'.pc.snap);
      WritersKept(w, w', r'.pc.snap.writers, r'.pc.snap.period);
    }
  }

  /** If resumer `i` alone moves, `DataOk` needs checking only for it and for the record. */
  lemma OneMoves(w: World, w': World, i: nat)
    requires DataOk(w) && Extends(w, w') && i < |w.resumers| == |w'.resumers|
    requires forall k :: 0 <= k < |w.resumers| && k != i ==> w'.resumers[k] == w.resumers[k]
    requires w'.Period() == w.Period() ==> w'.writers <= w.writers + {i}
    requires RecordOk(w') && ResumerOk(w', i)
    ensures DataOk(w')
  {
    forall k | 0 <= k < |w'.resumers| ensures ResumerOk(w', k) {
      if k != i { ResumerKept(w, w', k); }
    }
  }

  /** The record stays well when it only leaves 'waiting' or does not change, whoever moves. */
  lemma RecordKept(w: World, w': World)
    requires RecordOk(w) && Extends(w, w') && w'.history == w.history && w'.writers == w.writers
    requires w'.origin == w.origin && w'.db.data == w.db.data
    ensures RecordOk(w')
  {
    WritersKept(w, w', w.writers, w.Period());
    if w.origin.Some? { OriginKept(w, w', w.origin.value, w.db.data); }
  }

  lemma WriteTwice(base: RunData, first: Payload, second: Payload)
    requires base.stack != []
    ensures WithHead(WithHead(base, first), second) == WithHead(base, second)
  {
    assert base.stack[0 := base.stack[0].(data := first)][0 := base.stack[0].(data := second)]
        == base.stack[0 := base.stack[0].(data := second)];
  }

  /** What a child writes is the data of the period it had read, with its own output in front. */
  lemma WrittenOrigin(w: World, i: nat)
    requires DataOk(w) && i < |w.resumers| && w.resumers[i].pc.HasRead?
    ensures var w' := WriteParentStep(w, i); var s := w.resumers[i].pc.snap;
      && s.origin.Some? && w'.origin.Some? && w'.origin.value.period == s.origin.value.period
      && w'.origin.value.writer.Some?
      && w'.origin.value.writer.value.child == i && OriginOk(w', w'.origin.value, w'.db.data)
  {
    var s, w' := w.resumers[i].pc.snap, WriteParentStep(w, i);
    assert ResumerOk(w, i);
    var output := ChildOutput(w.resumers[i].kind.run).value.value;
    if s.origin.value.writer.Some? {
      WriteTwice(w.history[s.origin.value.period], s.origin.value.writer.value.output, output);
    }
    assert ReadDataOf(w'.resumers[i], s.origin.value.period);
  }

  lemma WriteParentExtends(w: World, i: nat)
    requires DataOk(w) && i < |w.resumers| && w.resumers[i].pc.HasRead?
    ensures var w' := WriteParentStep(w, i); Extends(w, w') && ResumerOk(w', i) && WritersOk(w', w'.writers, w.Period())
  {
    var w' := WriteParentStep(w, i);
    assert ResumerOk(w, i);
    assert w'.resumers[i] == w.resumers[i].(pc := Restart, wrote := Some(w.Period()));
  }

  lemma WriteParentFresh(w: World, i: nat)
    requires DataOk(w) && i < |w.resumers| && w.resumers[i].pc.HasRead? && w.db.status == Waiting
    requires var w' := WriteParentStep(w, i); Extends(w, w') && WritersOk(w', w'.writers, w.Period())
    ensures var w' := WriteParentStep(w, i); Fresh(w', w'.Period(), w'.origin, w'.writers)
  {
    var w', s := WriteParentStep(w, i), w.resumers[i].pc.snap;
    assert ResumerOk(w, i);
    WrittenOrigin(w, i);
    assert i in w'.writers;
    if OnTime(w', w'.writers, w.Period()) {
      assert w'.resumers[i].read == Some(s) && s.period == w.Period();
      WritersKept(w, w', w.writers, w.Period());
      assert OnTime(w, s.writers, w.Period());
    }
  }

  lemma WriteParentDataOk(w: World, i: nat)
    requires DataOk(w) && i < |w.resumers|
    ensures DataOk(WriteParentStep(w, i))
  {
    if w.resumers[i].pc.HasRead? {
      var w' := WriteParentStep(w, i);
      assert ResumerOk(w, i);
      WriteParentExtends(w, i);
      WrittenOrigin(w, i);
      if w.db.status == Waiting { WriteParentFresh(w, i); }
      OneMoves(w, w', i);
    }
  }

  /** A step that only moves resumer `i` on, with the record as it was or no longer waiting. */
  lemma MovesOn(w: World, w': World, i: nat)
    requires DataOk(w) && Extends(w, w') && i < |w.resumers| == |w'.resumers|
    requires w'.history == w.history && w'.writers == w.writers && w'.origin == w.origin && w'.db.data == w.db.data
    requires forall k :: 0 <= k < |w.resumers| && k != i ==> w'.resumers[k] == w.resumers[k]
    requires ResumerOk(w', i)
    ensures DataOk(w')
  {
    RecordKept(w, w');
    OneMoves(w, w', i);
  }

  lemma TakenSnapshotOk(w: World, w': World)
    requires RecordOk(w') && w'.history == w.history && w'.writers == w.writers
    requires w'.origin == w.origin && w'.db == w.db
    ensures SnapshotOk(w', TakeSnapshot(w)) && (w.db.status == Waiting ==> TakeSnapshot(w).origin.Some?)
  {
  }

  lemma ReadParentCases(w: World, i: nat)
    requires i < |w.resumers| && w.history != []
    ensures var w', r := ReadParentStep(w, i), w.resumers[i];
      w' == w || (r.pc.Start? && r.kind.Child? && (w' == Goto(w, i, Failed) || w' == Goto(w, i, Restart) ||
        (HasOutput(r.kind) && w.db.status == Waiting && w.db.data.stack != [] && w' == ReadBy(w, i))))
  {
  }

  lemma HasReadDataOk(w: World, i: nat)
    requires DataOk(w) && i < |w.resumers| && w.resumers[i].pc.Start? && HasOutput(w.resumers[i].kind)
    requires w.db.status == Waiting && w.db.data.stack != []
    ensures DataOk(ReadBy(w, i))
  {
    var w' := ReadBy(w, i);
    assert ResumerOk(w, i);
    assert Extends(w, w');
    RecordKept(w, w');
    TakenSnapshotOk(w, w');
    OneMoves(w, w', i);
  }

  lemma GivesUpDataOk(w: World, i: nat, pc: Pc)
    requires DataOk(w) && i < |w.resumers| && (pc.Failed? || (pc.Restart? && w.resumers[i].kind.Child?))
    ensures DataOk(Goto(w, i, pc))
  {
    var w' := Goto(w, i, pc);
    assert ResumerOk(w, i);
    assert Extends(w, w');
    RecordKept(w, w');
    ResumerKept(w, w', i);
    OneMoves(w, w', i);
  }

  lemma ReadParentDataOk(w: World, i: nat)
    requires DataOk(w) && i < |w.resumers|
    ensures DataOk(ReadParentStep(w, i))
  {
    var w' := ReadParentStep(w, i);
    ReadParentCases(w, i);
    if w' == w {
    } else if w' == Goto(w, i, Failed) {
      GivesUpDataOk(w, i, Failed);
    } else if w' == Goto(w, i, Restart) {
      GivesUpDataOk(w, i, Restart);
    } else {
      HasReadDataOk(w, i);
    }
  }

  lemma FetchDataOk(w: World, i: nat)
    requires DataOk(w) && i < |w.resumers|
    ensures DataOk(FetchStep(w, i))
  {
    var r := w.resumers[i];
    assert ResumerOk(w, i);
    if r.pc == Restart || (r.kind == Timer && r.pc == Start) {
      if w.db.finished { GivesUpDataOk(w, i, Failed); } else { FetchedDataOk(w, i); }
    } else if r.kind == Request && r.pc == Start {
      if w.db.finished || w.db.status == Running || w.db.data.failed { GivesUpDataOk(w, i, Failed); }
      else { AskedDataOk(w, i); }
    }
  }

  lemma AskedDataOk(w: World, i: nat)
    requires DataOk(w) && i < |w.resumers| && w.resumers[i].kind == Request && w.resumers[i].pc.Start?
    ensures DataOk(Goto(w, i, Asked(w.Period())))
  {
    var w' := Goto(w, i, Asked(w.Period()));
    assert ResumerOk(w, i);
    assert Extends(w, w');
    MovesOn(w, w', i);
  }

  lemma FetchedDataOk(w: World, i: nat)
    requires DataOk(w) && i < |w.resumers| && w.resumers[i].kind != Request
    requires w.resumers[i].pc.Restart? || w.resumers[i].pc.Start?
    ensures DataOk(Goto(w, i, Fetched(TakeSnapshot(w))))
  {
    var w' := Goto(w, i, Fetched(TakeSnapshot(w)));
    assert ResumerOk(w, i);
    assert Extends(w, w');
    RecordKept(w, w');
    TakenSnapshotOk(w, w');
    MovesOn(w, w', i);
  }

  lemma AnswerDataOk(w: World, i: nat, data: RunData)
    requires DataOk(w) && i < |w.resumers|
    ensures DataOk(AnswerStep(w, i, data))
  {
    var w' := AnswerStep(w, i, data);
    assert ResumerOk(w, i);
    if w' != w {
      assert Extends(w, w');
      RecordKept(w, w');
      MovesOn(w, w', i);
    }
  }

  lemma ThrottleDataOk(w: World, i: nat)
    requires DataOk(w) && i < |w.resumers|
    ensures DataOk(ResumerStep(w, i, Throttle))
  {
    var w' := ResumerStep(w, i, Throttle);
    assert ResumerOk(w, i);
    if w' != w {
      SnapshotKept(w, w', w.resumers[i].pc.snap);
      MovesOn(w, w', i);
    }
  }

  lemma CasDataOk(w: World, i: nat)
    requires DataOk(w) && i < |w.resumers|
    ensures DataOk(CasStep(w, i))
  {
    var w', r := CasStep(w, i), w.resumers[i];
    assert ResumerOk(w, i);
    if r.pc.Permitted? {
      SnapshotKept(w, w', r.pc.snap);
      WritersKept(w, w', w.writers, w.Period());
      WritersKept(w, w', r.pc.snap.writers, r.pc.snap.period);
      if w.db.status == Waiting { OneMoves(w, w', i); } else { MovesOn(w, w', i); }
    }
  }

  lemma SuspendDataOk(w: World, i: nat, data: RunData)
    requires Exclusive(w) && DataOk(w) && i < |w.resumers|
    ensures DataOk(RunStep(w, i, Suspend(data)))
  {
    var w' := RunStep(w, i, Suspend(data));
    if w.resumers[i].pc.Live? {
      assert w'.history == w.history + [data] && Extends(w, w');
      assert ResumerOk(w, i);
      ResumerKept(w, w', i);
      OneMoves(w, w', i);
    }
  }

  lemma CompleteDataOk(w: World, i: nat, success: bool, data: RunData)
    requires Exclusive(w) && DataOk(w) && i < |w.resumers| && w.resumers[i].pc.Live?
    ensures DataOk(RunStep(w, i, Complete(success, data)))
  {
    var w' := RunStep(w, i, Complete(success, data));
    assert w.db.status != Waiting && Extends(w, w');
    WritersKept(w, w', w.writers, w.Period());
    assert ResumerOk(w, i);
    ResumerKept(w, w', i);
    OneMoves(w, w', i);
  }

  lemma SaveDataOk(w: World, i: nat, data: RunData)
    requires Exclusive(w) && DataOk(w) && i < |w.resumers| && w.resumers[i].pc.Live?
    ensures DataOk(RunStep(w, i, SaveProgress(data)))
  {
    var w' := RunStep(w, i, SaveProgress(data));
    assert w.db.status != Waiting && Extends(w, w');
    WritersKept(w, w', w.writers, w.Period());
    assert ResumerOk(w, i);
    ResumerKept(w, w', i);
    OneMoves(w, w', i);
  }

  lemma RunStepDataOk(w: World, i: nat, act: Act)
    requires Exclusive(w) && DataOk(w) && i < |w.resumers| && act.SetRunning?
    ensures DataOk(RunStep(w, i, act))
  {
    var w', r := RunStep(w, i, act), w.resumers[i];
    if w' != w {
      assert w.db.status != Waiting && ResumerOk(w, i);
      assert Extends(w, w');
      ResumerKept(w, w', i);
      MovesOn(w, w', i);
    }
  }

  lemma ResumerDataOk(w: World, i: nat, act: Act)
    requires Exclusive(w) && DataOk(w) && i < |w.resumers|
    ensures DataOk(ResumerStep(w, i, act))
  {
    match act
    case WriteParent => WriteParentDataOk(w, i);
    case ReadParent => ReadParentDataOk(w, i);
    case Fetch => FetchDataOk(w, i);
    case Answer(data) => AnswerDataOk(w, i, data);
    case Cas => CasDataOk(w, i);
    case Throttle => ThrottleDataOk(w, i);
    case Suspend(data) => SuspendDataOk(w, i, data);
    case SaveProgress(data) => if w.resumers[i].pc.Live? { SaveDataOk(w, i, data); }
    case Complete(success, data) => if w.resumers[i].pc.Live? { CompleteDataOk(w, i, success, data); }
    case _ => RunStepDataOk(w, i, act);
  }

  lemma SpawnDataOk(w: World, process: nat, kind: Kind)
    requires DataOk(w)
    ensures DataOk(Step(w, Spawn(process, kind)))
  {
    var w' := Step(w, Spawn(process, kind));
    RecordKept(w, w');
    forall k | 0 <= k < |w'.resumers| ensures ResumerOk(w', k) {
      if k < |w.resumers| { ResumerKept(w, w', k); }
    }
  }

  lemma CrashExtends(w: World, process: nat)
    requires w.history != []
    ensures var w' := CrashStep(w, process);
      && Extends(w, w')
      && forall k :: 0 <= k < |w.resumers| ==>
           var r, r' := w.resumers[k], w'.resumers[k]; r' == r.(pc := r'.pc) && PcDrops(r.pc, r'.pc)
  {
  }

  lemma CrashDataOk(w: World, process: nat)
    requires DataOk(w)
    ensures DataOk(CrashStep(w, process))
  {
    var w' := CrashStep(w, process);
    CrashExtends(w, process);
    RecordKept(w, w');
    forall k | 0 <= k < |w'.resumers| ensures ResumerOk(w', k) { ResumerKept(w, w', k); }
  }

  lemma CancelDataOk(w: World)
    requires DataOk(w)
    ensures DataOk(Step(w, CancelRecord))
  {
    var w' := Step(w, CancelRecord);
    RecordKept(w, w');
    forall k | 0 <= k < |w'.resumers| ensures ResumerOk(w', k) { ResumerKept(w, w', k); }
  }

  lemma StepDataOk(w: World, a: Action)
    requires Exclusive(w) && DataOk(w)
    ensures DataOk(Step(w, a))
  {
    match a
    case By(i, act) => if i < |w.resumers| { ResumerDataOk(w, i, act); }
    case Spawn(process, kind) => SpawnDataOk(w, process, kind);
    case Crash(process) => CrashDataOk(w, process);
    case CancelRecord => CancelDataOk(w);
  }

  lemma {:induction false} RunDataOk(w: World, actions: seq<Action>)
    requires Exclusive(w) && DataOk(w)
    ensures Exclusive(Run(w, actions)) && DataOk(Run(w, actions))
    decreases |actions|
  {
    if actions != [] {
      StepExclusive(w, actions[0]);
      StepDataOk(w, actions[0]);
      RunDataOk(Step(w, actions[0]), actions[1..]);
    }
  }

  lemma ReachableDataOk(data: RunData, actions: seq<Action>, i: nat)
    requires i < |Run(Init(data), actions).resumers|
    ensures ResumerOk(Run(Init(data), actions), i)
  {
    InitExclusive(data);
    assert DataOk(Init(data));
    RunDataOk(Init(data), actions);
  }

  /** No two suspensions leave the same data, apart from the input of the node that runs next. */
  ghost predicate SuspensionsDiffer(w: World) {
    forall p, q :: 0 <= p < q < |w.history| ==> !SameFrame(w.history[p], w.history[q])
  }

  lemma PatchedIs(base: RunData, data: RunData, writer: Option<Write>)
    requires data == Patched(base, writer)
    ensures SameFrame(base, data) && (writer.None? ==> data == base)
    ensures writer.Some? && base.stack != [] ==> InputReplaced(base, data, writer.value.output)
  {
    if writer.Some? && base.stack != [] { WithHeadReplaces(base, data, writer.value.output); }
  }

  lemma FramesDiffer(w: World, data: RunData, b: nat, won: nat)
    requires b < |w.history| && won < |w.history| && SameFrame(w.history[b], data) && SuspensionsDiffer(w)
    ensures SameFrame(data, w.history[won]) <==> b == won
  {
    if b < won { assert !SameFrame(w.history[b], w.history[won]); }
    if won < b { assert !SameFrame(w.history[won], w.history[b]); }
  }

  /** Child `k` of the world hands over `output`, and had read data of period `p`. */
  ghost predicate HandedOver(w: World, k: nat, output: Payload, p: nat) {
    && k < |w.resumers| && w.resumers[k].kind.Child? && HandsOver(w.resumers[k].kind.run, output)
    && ReadDataOf(w.resumers[k], p)
  }

  /**
   What a winner resumes with, on every run and however old its fetch is. If the record held suspended data
   when it was fetched, with an origin of period `b` and a writer, then the winner resumes with exactly what was
   saved at the suspension of `b`, with the input of the next node replaced by what the writer hands over, if
   there is one. That is the winner's own suspension exactly if `b` is the period it won.
   */
  lemma ResumedDataIsThatOfItsOrigin(data: RunData, actions: seq<Action>, i: nat)
    requires var w := Run(Init(data), actions);
      i < |w.resumers| && HasWon(w.resumers[i].pc) && w.resumers[i].pc.snap.origin.Some?
    ensures var w := Run(Init(data), actions); var pc := w.resumers[i].pc;
      var b, writer := pc.snap.origin.value.period, pc.snap.origin.value.writer;
      && b <= pc.snap.period <= pc.won < |w.history|
      && (writer.None? ==> pc.snap.data == w.history[b])
      && (writer.Some? ==>
            && InputReplaced(w.history[b], pc.snap.data, writer.value.output)
            && HandedOver(w, writer.value.child, writer.value.output, b))
      && (SuspensionsDiffer(w) ==> (SameFrame(pc.snap.data, w.history[pc.won]) <==> b == pc.won))
  {
    ReachableDataOk(data, actions, i);
    var w := Run(Init(data), actions);
    var pc := w.resumers[i].pc;
    var b, writer := pc.snap.origin.value.period, pc.snap.origin.value.writer;
    PatchedIs(w.history[b], pc.snap.data, writer);
    if writer.Some? { ChildOutputIs(w.resumers[writer.value.child].kind.run, writer.value.output); }
    if SuspensionsDiffer(w) { FramesDiffer(w, pc.snap.data, b, pc.won); }
  }

  /** A child that wrote had something to hand over. */
  ghost predicate HasResult(kind: Kind) { kind.Child? && exists output :: HandsOver(kind.run, output) }

  lemma OutputIsResult(kind: Kind)
    ensures HasOutput(kind) <==> HasResult(kind)
  {
    if kind.Child? {
      if HasOutput(kind) { ChildOutputIs(kind.run, ChildOutput(kind.run).value.value); }
      if HasResult(kind) {
        var output :| HandsOver(kind.run, output);
        ChildOutputIs(kind.run, output);
      }
    }
  }

  /**
   A timer or child that fetched in the period it won always has suspended data. They carry a child's output
   exactly if some child had written between the suspension and the fetch, and belong to the period exactly if
   nobody had, or the child that wrote last had read data of this period; they do if all who wrote had read in it.
   */
  lemma FreshWinnerSchedule(data: RunData, actions: seq<Action>, i: nat)
    requires var w := Run(Init(data), actions);
      && i < |w.resumers| && HasWon(w.resumers[i].pc) && w.resumers[i].pc.snap.period == w.resumers[i].pc.won
      && w.resumers[i].kind != Request
    ensures var w := Run(Init(data), actions); var snap := w.resumers[i].pc.snap;
      && snap.origin.Some?
      && (snap.origin.value.writer.Some? <==> snap.writers != {})
      && (forall k :: k in snap.writers ==>
            k < |w.resumers| && HasResult(w.resumers[k].kind) && w.resumers[k].wrote == Some(snap.period))
      && (snap.origin.value.writer.Some? ==> snap.origin.value.writer.value.child in snap.writers)
      && (snap.origin.value.period == snap.period <==>
            snap.origin.value.writer.None? ||
            ReadDataOf(w.resumers[snap.origin.value.writer.value.child], snap.period))
      && (OnTime(w, snap.writers, snap.period) ==> snap.origin.value.period == snap.period)
  {
    ReachableDataOk(data, actions, i);
    var w := Run(Init(data), actions);
    var snap := w.resumers[i].pc.snap;
    if snap.origin.value.writer.None? { assert OnTime(w, snap.writers, snap.period); }
    forall k | k in snap.writers
      ensures k < |w.resumers| && HasResult(w.resumers[k].kind) && w.resumers[k].wrote == Some(snap.period)
    {
      OutputIsResult(w.resumers[k].kind);
    }
  }

  /**
   A child whose write landed in the waiting period that it then wins resumes its parent with what a finished
   child hands over that wrote in that period, never with the suspended input, and with everything else as it
   was at a suspension: that of the period itself exactly if the child that wrote last had read data of it, as
   it has if all who wrote in the period had also read in it.
   */
  lemma FinishedChildResumesWithChildOutput(data: RunData, actions: seq<Action>, i: nat)
    returns (b: nat, child: nat, output: Payload)
    requires var w := Run(Init(data), actions);
      i < |w.resumers| && HasWon(w.resumers[i].pc) && w.resumers[i].wrote == Some(w.resumers[i].pc.won)
    ensures var w := Run(Init(data), actions); var pc := w.resumers[i].pc;
      && b < |w.history| && InputReplaced(w.history[b], pc.snap.data, output)
      && child in pc.snap.writers && HandedOver(w, child, output, b)
      && (b == pc.won <==> ReadDataOf(w.resumers[child], pc.won))
      && (OnTime(w, pc.snap.writers, pc.won) ==> b == pc.won)
  {
    ReachableDataOk(data, actions, i);
    var w := Run(Init(data), actions);
    FreshWinnerSchedule(data, actions, i);
    ResumedDataIsThatOfItsOrigin(data, actions, i);
    var origin := w.resumers[i].pc.snap.origin.value;
    b, child, output := origin.period, origin.writer.value.child, origin.writer.value.output;
  }

  // ---------------------------------------------------------------- children without a result

  /** A child that can still do nothing but fail. */
  predicate Stuck(r: Resumer) { r.kind.Child? && (r.pc.Start? || r.pc.Failed?) && r.read.None? && r.wrote.None? }

  lemma StaysStuck(w: World, a: Action, i: nat)
    requires w.history != [] && i < |w.resumers| && Stuck(w.resumers[i]) && Unreadable(w.resumers[i].kind.run)
    requires ChildOutput(w.resumers[i].kind.run).Failure?
    ensures var w' := Step(w, a);
      i < |w'.resumers| && Stuck(w'.resumers[i]) && w'.resumers[i].kind == w.resumers[i].kind
  {
  }

  lemma {:induction false} StuckForever(w: World, actions: seq<Action>, i: nat)
    requires w.history != [] && i < |w.resumers| && Stuck(w.resumers[i]) && Unreadable(w.resumers[i].kind.run)
    ensures var w' := Run(w, actions);
      i < |w'.resumers| && Stuck(w'.resumers[i]) && w'.resumers[i].kind == w.resumers[i].kind
    decreases |actions|
  {
    if actions != [] {
      ChildOutputIs(w.resumers[i].kind.run, []);
      StaysStuck(w, actions[0], i);
      StuckForever(Step(w, actions[0]), actions[1..], i);
    }
  }

  /**
   A finished child fails on reading its own result exactly if that is unreadable, and it then never writes to
   its parent and never resumes it, on any run. Any other child goes on to restart its parent.
   */
  lemma UnreadableChildNeverResumes(w: World, run: ChildRun, process: nat, actions: seq<Action>)
    requires w.history != []
    ensures var i, w1 := |w.resumers|, Step(w, Spawn(process, Child(run)));
      && (Unreadable(run) ==> i < |Run(w1, actions).resumers| && Stuck(Run(w1, actions).resumers[i]))
      && (!Unreadable(run) ==>
            var pc := Step(w1, By(i, ReadParent)).resumers[i].pc;
            pc == Restart || (pc.HasRead? && HasResult(Child(run))))
  {
    ChildOutputIs(run, []);
    OutputIsResult(Child(run));
    if Unreadable(run) { StuckForever(Step(w, Spawn(process, Child(run))), actions, |w.resumers|); }
  }

  // ---------------------------------------------------------------- fetching and answering

  /**
   What a fetch does: a timer or a child that restarts its parent fails exactly if the execution is finished, a
   request also if it is running or has an error noted; otherwise a timer or child holds what the record has.
   */
  lemma FetchOutcome(w: World, i: nat)
    requires w.history != [] && i < |w.resumers|
    ensures var r, pc := w.resumers[i], Step(w, By(i, Fetch)).resumers[i].pc;
      && Step(w, By(i, Fetch)).db == w.db
      && (r.pc.Restart? || (r.kind == Timer && r.pc.Start?) ==>
            (pc == Failed <==> w.db.finished) && (pc != Failed ==> pc.Fetched? && pc.snap.data == w.db.data))
      && (r.kind == Request && r.pc.Start? ==>
            && (pc == Failed <==> w.db.finished || w.db.status == Running || w.db.data.failed)
            && (pc != Failed ==> pc.Asked?))
  {
  }

  ghost predicate Answered(w: World, done: seq<Action>) {
    forall i :: 0 <= i < |w.resumers| && w.resumers[i].kind == Request ==>
      && !w.resumers[i].pc.HasRead? && !w.resumers[i].pc.Restart?
      && (HasSnapshot(w.resumers[i].pc) ==> By(i, Answer(w.resumers[i].pc.snap.data)) in done)
  }

  lemma StepAnswered(w: World, a: Action, done: seq<Action>)
    requires w.history != [] && Answered(w, done)
    ensures Answered(Step(w, a), done + [a])
  {
    assert a in done + [a] && forall b :: b in done ==> b in done + [a];
    match a
    case By(i, act) => if i < |w.resumers| { ResumerAnswered(w, i, act, done); }
    case _ =>
  }

  lemma ResumerAnswered(w: World, i: nat, act: Act, done: seq<Action>)
    requires w.history != [] && i < |w.resumers| && Answered(w, done)
    ensures Answered(ResumerStep(w, i, act), done + [By(i, act)])
  {
    var w', more := ResumerStep(w, i, act), done + [By(i, act)];
    assert By(i, act) in more && forall b :: b in done ==> b in more;
    assert |w'.resumers| == |w.resumers| &&
           forall k :: 0 <= k < |w.resumers| && k != i ==> w'.resumers[k] == w.resumers[k];
  }

  lemma {:induction false} RunAnswered(w: World, actions: seq<Action>, done: seq<Action>)
    requires w.history != [] && Answered(w, done)
    ensures Answered(Run(w, actions), done + actions)
    decreases |actions|
  {
    if actions == [] {
      assert done + actions == done;
    } else {
      StepAnswered(w, actions[0], done);
      RunAnswered(Step(w, actions[0]), actions[1..], done + [actions[0]]);
      assert done + [actions[0]] + actions[1..] == done + actions;
    }
  }

  /** A request that wins resumes with an answer it has given, on every run. */
  lemma RequestResumesWithItsAnswer(data: RunData, actions: seq<Action>, i: nat)
    requires var w := Run(Init(data), actions);
      i < |w.resumers| && w.resumers[i].kind == Request && HasWon(w.resumers[i].pc)
    ensures By(i, Answer(Run(Init(data), actions).resumers[i].pc.snap.data)) in actions
  {
    RunAnswered(Init(data), actions, []);
    assert [] + actions == actions;
  }

  // ---------------------------------------------------------------- when an execution is over

  /** The record does not wait and nobody runs. */
  ghost predicate IsOver(w: World) {
    w.history != [] && w.db.status != Waiting && forall i :: 0 <= i < |w.resumers| ==> !IsLive(w.resumers[i].pc)
  }

  predicate SameWin(pc: Pc, pc': Pc) { (HasWon(pc') <==> HasWon(pc)) && (HasWon(pc) ==> pc'.won == pc.won) }

  /** From `w` to `w'` nobody won, and the status stayed, unless the record was canceled. */
  ghost predicate StaysOver(w: World, w': World) {
    && IsOver(w') && w'.history == w.history && |w.resumers| <= |w'.resumers|
    && w'.db.finished == w.db.finished && (w'.db.status == w.db.status || w'.db.status == Canceled)
    && (forall i :: 0 <= i < |w.resumers| ==> SameWin(w.resumers[i].pc, w'.resumers[i].pc))
    && (forall i :: |w.resumers| <= i < |w'.resumers| ==> !HasWon(w'.resumers[i].pc))
  }

  lemma StepOver(w: World, a: Action)
    requires IsOver(w)
    ensures StaysOver(w, Step(w, a))
  {
    match a
    case By(i, act) => if i < |w.resumers| { ResumerOver(w, i, act); }
    case Spawn(process, kind) =>
    case CancelRecord =>
    case Crash(process) =>
  }

  lemma ResumerOver(w: World, i: nat, act: Act)
    requires IsOver(w) && i < |w.resumers|
    ensures StaysOver(w, ResumerStep(w, i, act))
  {
    match act
    case ReadParent => ReadParentCases(w, i);
    case _ =>
  }

  lemma {:induction false} RunOver(w: World, actions: seq<Action>)
    requires IsOver(w)
    ensures StaysOver(w, Run(w, actions))
    decreases |actions|
  {
    if actions != [] {
      var w1 := Step(w, actions[0]);
      StepOver(w, actions[0]);
      RunOver(w1, actions[1..]);
      OverOn(w, w1, Run(w1, actions[1..]));
    }
  }

  lemma OverOn(w: World, w1: World, w2: World)
    requires StaysOver(w, w1) && StaysOver(w1, w2)
    ensures StaysOver(w, w2)
  {
    forall i | 0 <= i < |w.resumers| ensures SameWin(w.resumers[i].pc, w2.resumers[i].pc) {
      assert SameWin(w.resumers[i].pc, w1.resumers[i].pc) && SameWin(w1.resumers[i].pc, w2.resumers[i].pc);
    }
  }

  /** Canceling a waiting execution ends it: the period is never won, whoever tries. */
  lemma CanceledWaitIsOver(data: RunData, actions: seq<Action>, later: seq<Action>)
    requires Run(Init(data), actions).db.status == Waiting
    ensures var w := Run(Init(data), actions); var w' := Run(Step(w, CancelRecord), later);
      w'.db.status == Canceled && w'.Period() == w.Period() && forall i :: !WonBy(w', i, w.Period())
  {
    var w := Run(Init(data), actions);
    InitExclusive(data);
    RunExclusive(Init(data), actions);
    RunOver(Step(w, CancelRecord), later);
    NotWonLater(w, Step(w, CancelRecord), Run(Step(w, CancelRecord), later));
  }

  lemma NotWonLater(w: World, w1: World, w': World)
    requires Exclusive(w) && w.db.status == Waiting && w1.resumers == w.resumers && StaysOver(w1, w')
    ensures forall i :: !WonBy(w', i, w.Period())
  {
    forall i ensures !WonBy(w', i, w.Period()) {
      if 0 <= i < |w.resumers| { assert SameWin(w.resumers[i].pc, w'.resumers[i].pc); }
    }
  }

  /** A run that completes, well or not, ends its execution for good: no attempt ever wins again. */
  lemma CompletedRunIsOver(data: RunData, actions: seq<Action>, i: nat, success: bool, last: RunData,
                           later: seq<Action>)
    requires var w := Run(Init(data), actions); i < |w.resumers| && w.resumers[i].pc.Live?
    ensures var w := Run(Init(data), actions); var w' := Run(Step(w, By(i, Complete(success, last))), later);
      && w'.db.finished == success
      && (w'.db.status == (if success then Finished else Errored) || w'.db.status == Canceled)
      && forall k :: 0 <= k < |w'.resumers| && HasWon(w'.resumers[k].pc) ==>
           k < |w.resumers| && HasWon(w.resumers[k].pc)
  {
    var w := Run(Init(data), actions);
    InitExclusive(data);
    RunExclusive(Init(data), actions);
    RunOver(Step(w, By(i, Complete(success, last))), later);
  }

  /** The run of a process that dies is never taken up again: its record neither waits nor is won any more. */
  lemma CrashedRunIsOver(data: RunData, actions: seq<Action>, i: nat, later: seq<Action>)
    requires var w := Run(Init(data), actions); i < |w.resumers| && IsLive(w.resumers[i].pc)
    ensures var w := Run(Init(data), actions); var w' := Run(Step(w, Crash(w.resumers[i].process)), later);
      && w'.db.status != Waiting && w'.Period() == w.Period()
      && forall k :: 0 <= k < |w'.resumers| && HasWon(w'.resumers[k].pc) ==>
           k < |w.resumers| && HasWon(w.resumers[k].pc)
  {
    var w := Run(Init(data), actions);
    InitExclusive(data);
    RunExclusive(Init(data), actions);
    RunOver(Step(w, Crash(w.resumers[i].process)), later);
  }

  predicate IsDone(pc: Pc) { pc.Over? || pc.Refused? || pc.Failed? }

  lemma StepDone(w: World, a: Action, i: nat)
    requires w.history != [] && i < |w.resumers| && IsDone(w.resumers[i].pc)
    ensures var w' := Step(w, a); i < |w'.resumers| && w'.resumers[i] == w.resumers[i]
  {
    match a
    case By(k, act) =>
      if k < |w.resumers| { assert k != i ==> ResumerStep(w, k, act).resumers[i] == w.resumers[i]; }
    case _ =>
  }

  lemma {:induction false} RunDone(w: World, actions: seq<Action>, i: nat)
    requires w.history != [] && i < |w.resumers| && IsDone(w.resumers[i].pc)
    ensures var w' := Run(w, actions); i < |w'.resumers| && w'.resumers[i] == w.resumers[i]
    decreases |actions|
  {
    if actions != [] {
      StepDone(w, actions[0], i);
      RunDone(Step(w, actions[0]), actions[1..], i);
    }
  }

  /** After a crash nobody of that process does anything any more; the others and the record are not touched. */
  lemma CrashSilencesItsProcess(w: World, process: nat, later: seq<Action>, i: nat)
    requires w.history != [] && i < |w.resumers|
    ensures var w1 := Step(w, Crash(process));
      && w1.db == w.db
      && (w.resumers[i].process != process ==> w1.resumers[i] == w.resumers[i])
      && (w.resumers[i].process == process ==>
            && IsDone(w1.resumers[i].pc) && (HasWon(w1.resumers[i].pc) <==> HasWon(w.resumers[i].pc))
            && i < |Run(w1, later).resumers| && Run(w1, later).resumers[i] == w1.resumers[i])
  {
    if w.resumers[i].process == process { RunDone(Step(w, Crash(process)), later, i); }
  }

  // ---------------------------------------------------------------- the row of the execution

  /** What `updateParentExecutionWithChildResults` does with its parent up to the write. */
  datatype ParentRead = Rejects | NothingToWrite | Parent(data: RunData)

  /**
   The stored record, if it has not been deleted; every method is one database operation, so one step of the
   protocol. The ghost parameters name the step: resumer `i` of the world `w` whose record this is.
   */
  class ExecutionRow {
    const legacy: bool
    var found: bool
    var status: Status
    var finished: bool
    var data: RunData

    function State(): Option<Record>
      reads this
    {
      if found then Some(Record(status, finished, data)) else None
    }

    constructor (record: Record, legacy: bool)
      ensures State() == Some(record) && this.legacy == legacy
    {
      this.legacy := legacy;
      found, status, finished, data := true, record.status, record.finished, record.data;
    }

    method UpdateExistingExecution(changes: Changes, requireStatus: Option<Status>) returns (updated: bool)
      modifies this`status, this`data
      ensures (State(), updated) == UpdateRow(old(State()), changes, requireStatus, legacy)
      ensures old(State()).None? ==>
        State().None? && (updated <==> changes.status.None? || (legacy && requireStatus.None?))
      ensures old(State()).Some? ==>
        && (updated <==> changes.status.None? || requireStatus.None? || requireStatus == Some(old(status)))
        && (!updated ==> State() == old(State()))
        && (updated ==> status == if changes.status.Some? then changes.status.value else old(status))
        && (updated ==> data == if changes.data.Some? then changes.data.value else old(data))
    {
      if changes.status.Some? {
        var affected := found && (requireStatus.None? || status == requireStatus.value);
        if !affected && (!legacy || requireStatus.Some?) { return false; }
        if affected { status := changes.status.value; }
      }
      if changes.data.Some? { data := changes.data.value; }
      updated := true;
    }

    /**
     The first half of `updateParentExecutionWithChildResults`: it ends as the step of the protocol says, with
     the data of that step's snapshot if there is something to write.
     */
    method ReadParent(run: ChildRun, ghost w: World, ghost i: nat) returns (r: ParentRead)
      requires w.history != [] && i < |w.resumers| && w.resumers[i].kind == Child(run) && w.resumers[i].pc == Start
      ensures State() == Some(w.db) ==>
        var pc := ReadParentStep(w, i).resumers[i].pc;
        && (r.Rejects? <==> pc == Failed) && (r.NothingToWrite? <==> pc == Restart)
        && (r.Parent? ==> pc.HasRead? && pc.snap == TakeSnapshot(w) && r.data == pc.snap.data)
      ensures r.Rejects? <==> Unreadable(run)
      ensures r.Parent? <==> (exists output :: HandsOver(run, output)) && found && status == Waiting && data.stack != []
    {
      ChildOutputIs(run, []);
      OutputIsResult(Child(run));
      match LastExecutedNodeData(run) {
        case Failure(_) => return Rejects;
        case Success(task) =>
          if task.None? || task.value.data.None? { return NothingToWrite; }
      }
      if !found || status != Waiting || data.stack == [] { return NothingToWrite; }
      r := Parent(data);
    }

    /** The second half, whatever the row holds by now; a row that is gone stays gone. */
    method WriteParent(parent: RunData, output: Payload, ghost w: World, ghost i: nat)
      requires w.history != [] && i < |w.resumers| && w.resumers[i].pc.HasRead? && w.resumers[i].kind.Child?
      requires parent == w.resumers[i].pc.snap.data && parent.stack != []
      requires HandsOver(w.resumers[i].kind.run, output)
      modifies this`status, this`data
      ensures State() == if old(State()) == Some(w.db) then Some(WriteParentStep(w, i).db)
                         else if old(State()).Some? then Some(old(State()).value.(data := WithHead(parent, output)))
                         else None
    {
      ChildOutputIs(w.resumers[i].kind.run, output);
      var stack := parent.stack;
      stack := stack[0 := stack[0].(data := output)];
      var _ := UpdateExistingExecution(Changes(None, Some(parent.(stack := stack))), None);
    }

    /** The update with which `add` resumes, for resumer `i` and the data it fetched. */
    method Resume(fetched: RunData, ghost w: World, ghost i: nat) returns (updated: bool)
      requires w.history != [] && i < |w.resumers| && w.resumers[i].pc.Permitted?
      requires fetched == w.resumers[i].pc.snap.data
      modifies this`status, this`data
      ensures old(State()) == Some(w.db) ==>
        State() == Some(CasStep(w, i).db) && (updated <==> CasStep(w, i).resumers[i].pc.Resumed?)
      ensures old(State()).None? ==> State().None? && !updated
    {
      updated := UpdateExistingExecution(Changes(Some(Running), Some(fetched)), Some(Waiting));
    }
  }

  // ---------------------------------------------------------------- why the conditions are needed

  lemma {:induction false} RunAppend(w: World, actions: seq<Action>, a: Action)
    requires w.history != []
    ensures Run(w, actions + [a]) == Step(Run(w, actions), a)
    decreases |actions|
  {
    if actions == [] {
      assert Run(w, [a]) == Run(Step(w, a), [a][1..]);
    } else {
      assert (actions + [a])[1..] == actions[1..] + [a];
      RunAppend(Step(w, actions[0]), actions[1..], a);
    }
  }

  /** `w` with resumer `i`, which has fetched in period `w.Period()`, taken through the conditional update. */
  lemma FetchToLive(data: RunData, actions: seq<Action>, i: nat) returns (actions': seq<Action>)
    requires var w := Run(Init(data), actions);
      && i < |w.resumers| && w.db.status == Waiting && !w.db.finished
      && (w.resumers[i].pc == Restart || (w.resumers[i].kind == Timer && w.resumers[i].pc == Start))
    ensures var w := Run(Init(data), actions);
      Run(Init(data), actions') ==
        Goto(w, i, Live(TakeSnapshot(w), w.Period())).(db := w.db.(status := Running))
  {
    var w := Run(Init(data), actions);
    actions' := actions + [By(i, Fetch)];
    RunAppend(Init(data), actions, By(i, Fetch));
    RunAppend(Init(data), actions', By(i, Throttle));
    actions' := actions' + [By(i, Throttle)];
    RunAppend(Init(data), actions', By(i, Cas));
    actions' := actions' + [By(i, Cas)];
    assert Run(Init(data), actions').resumers[i].pc == Resumed(TakeSnapshot(w), w.Period());
    RunAppend(Init(data), actions', By(i, SetRunning));
    actions' := actions' + [By(i, SetRunning)];
    assert Run(Init(data), actions').resumers
        == w.resumers[i := w.resumers[i].(pc := Live(TakeSnapshot(w), w.Period()))];
  }

  /** Two actions in a row. */
  lemma RunAppend2(w: World, actions: seq<Action>, a: Action, b: Action)
    requires w.history != []
    ensures Run(w, actions + [a, b]) == Step(Step(Run(w, actions), a), b)
  {
    RunAppend(w, actions, a);
    RunAppend(w, actions + [a], b);
    assert actions + [a] + [b] == actions + [a, b];
  }

  /**
   The conditional update checks the status only. A timer that fetched before another attempt resumed and
   suspended the execution again still wins the second period, with the data of the first.
   */
  lemma StaleFetchRollsBack(d0: RunData, d1: RunData, d2: RunData) returns (actions: seq<Action>)
    ensures var w := Run(Init(d0), actions);
      w.history == [d0, d1, d2] && w.db == Record(Running, false, d1)
      && WonBy(w, 1, 2) && w.resumers[1].pc.snap.data == d1 && w.resumers[1].pc.snap.origin == Some(Origin(1, None))
  {
    actions := EarlyFetch(d0, d1);
    actions := FetchToLive(d0, actions, 2);
    var w := Run(Init(d0), actions);
    RunAppend2(Init(d0), actions, By(2, Suspend(d2)), By(1, Cas));
    actions := actions + [By(2, Suspend(d2)), By(1, Cas)];
    var w' := RunStep(w, 2, Suspend(d2));
    assert w'.resumers[1] == w.resumers[1] && w'.history == [d0, d1, d2] && w'.db == Record(Waiting, false, d2);
  }

  /** A timer that has fetched and waits for its update, and a second one that has only fired. */
  lemma EarlyFetch(d0: RunData, d1: RunData) returns (actions: seq<Action>)
    ensures var w := Run(Init(d0), actions);
      && w.history == [d0, d1] && w.db == Record(Waiting, false, d1) && |w.resumers| == 3
      && w.resumers[1].pc == Permitted(Snapshot(d1, 1, Some(Origin(1, None)), {}))
      && w.resumers[2].kind == Timer && w.resumers[2].pc == Start
  {
    var timer := Spawn(0, Timer);
    RunAppend2(Init(d0), [], By(0, Suspend(d1)), timer);
    actions := [By(0, Suspend(d1)), timer];
    assert [] + actions == actions;
    RunAppend2(Init(d0), actions, By(1, Fetch), By(1, Throttle));
    actions := actions + [By(1, Fetch), By(1, Throttle)];
    RunAppend(Init(d0), actions, timer);
    actions := actions + [timer];
  }

  /**
   The write of a child that read the parent in one period can land in the next, where it puts the data of
   the earlier suspension back.
   */
  lemma LateWriteRollsBack(d0: RunData, d1: RunData, d2: RunData, run: ChildRun) returns (actions: seq<Action>)
    requires HasOutput(Child(run)) && d1.stack != []
    ensures var w := Run(Init(d0), actions);
      w.history == [d0, d1, d2] && w.origin == Some(Origin(1, Some(Write(1, ChildOutput(run).value.value))))
      && w.db == Record(Waiting, false, WithHead(d1, ChildOutput(run).value.value))
  {
    RunAppend2(Init(d0), [], By(0, Suspend(d1)), Spawn(0, Child(run)));
    actions := [By(0, Suspend(d1)), Spawn(0, Child(run))];
    assert [] + actions == actions;
    RunAppend2(Init(d0), actions, By(1, ReadParent), Spawn(1, Timer));
    actions := actions + [By(1, ReadParent), Spawn(1, Timer)];
    actions := FetchToLive(d0, actions, 2);
    RunAppend2(Init(d0), actions, By(2, Suspend(d2)), By(1, WriteParent));
    actions := actions + [By(2, Suspend(d2)), By(1, WriteParent)];
  }

  /**
   A timer that fires while a run executes fetches the progress that run has saved, and can win the next
   period with it: data of no suspension at all.
   */
  lemma ProgressRollsBack(d0: RunData, progress: RunData, d1: RunData) returns (actions: seq<Action>)
    ensures var w := Run(Init(d0), actions);
      w.history == [d0, d1] && WonBy(w, 1, 1) && w.resumers[1].pc.snap.data == progress
      && w.resumers[1].pc.snap.origin.None?
  {
    RunAppend2(Init(d0), [], Spawn(0, Timer), By(0, SaveProgress(progress)));
    actions := [Spawn(0, Timer), By(0, SaveProgress(progress))];
    assert [] + actions == actions;
    RunAppend2(Init(d0), actions, By(1, Fetch), By(1, Throttle));
    actions := actions + [By(1, Fetch), By(1, Throttle)];
    assert Run(Init(d0), actions).resumers[1].pc == Permitted(Snapshot(progress, 0, None, {}));
    RunAppend2(Init(d0), actions, By(0, Suspend(d1)), By(1, Cas));
    actions := actions + [By(0, Suspend(d1)), By(1, Cas)];
  }

  /** The write of a child does not look at the status: it also lands in a record whose execution runs again. */
  lemma WriteLandsOnRunningParent(d0: RunData, d1: RunData, run: ChildRun, output: Payload)
    returns (actions: seq<Action>)
    requires HandsOver(run, output) && d1.stack != []
    ensures var w := Run(Init(d0), actions);
      w.history == [d0, d1] && w.db.status == Running && WonBy(w, 2, 1) && w.resumers[2].pc.Live?
      && w.resumers[2].pc.snap.data == d1 && InputReplaced(d1, w.db.data, output)
  {
    ChildOutputIs(run, output);
    RunAppend2(Init(d0), [], By(0, Suspend(d1)), Spawn(0, Child(run)));
    actions := [By(0, Suspend(d1)), Spawn(0, Child(run))];
    assert [] + actions == actions;
    RunAppend2(Init(d0), actions, By(1, ReadParent), Spawn(1, Timer));
    actions := actions + [By(1, ReadParent), Spawn(1, Timer)];
    actions := FetchToLive(d0, actions, 2);
    RunAppend(Init(d0), actions, By(1, WriteParent));
    actions := actions + [By(1, WriteParent)];
    WithHeadReplaces(d1, Run(Init(d0), actions).db.data, output);
  }

  /** `setRunning` does not look at the status: an execution canceled just before it runs all the same. */
  lemma ResumeOverrulesCancel(d0: RunData, d1: RunData) returns (actions: seq<Action>)
    ensures var w := Run(Init(d0), actions);
      w.canceled && w.db.status == Running && WonBy(w, 1, 1) && w.resumers[1].pc.Live?
  {
    actions := EarlyFetch(d0, d1);
    RunAppend2(Init(d0), actions, By(1, Cas), CancelRecord);
    actions := actions + [By(1, Cas), CancelRecord];
    RunAppend(Init(d0), actions, By(1, SetRunning));
    actions := actions + [By(1, SetRunning)];
  }

  /** A child that finishes before its parent is saved as waiting resumes it with the suspended input. */
  lemma EarlyChildResumesWithSuspendedInput(d0: RunData, d1: RunData, run: ChildRun) returns (actions: seq<Action>)
    requires HasOutput(Child(run))
    ensures var w := Run(Init(d0), actions);
      w.history == [d0, d1] && WonBy(w, 1, 1) && w.resumers[1].kind == Child(run)
      && w.resumers[1].pc.snap.data == d1 && w.resumers[1].wrote.None?
  {
    RunAppend2(Init(d0), [], Spawn(0, Child(run)), By(1, ReadParent));
    actions := [Spawn(0, Child(run)), By(1, ReadParent)];
    assert [] + actions == actions;
    RunAppend(Init(d0), actions, By(0, Suspend(d1)));
    actions := actions + [By(0, Suspend(d1))];
    actions := FetchToLive(d0, actions, 1);
  }
}
