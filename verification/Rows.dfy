/** What the report store says of a run, in every state of every run: job rows, stage rows and the run row. */
module Rows {
  import opened Models
  import opened Strings
  import opened Stage
  import opened Scheduler
  import opened SchedulerInvariant
  import opened SchedulerTheorems
  import opened SchedulerFaults
  import opened Progress
  import opened Callbacks

  /* Single callbacks. */

  /** The callback is let in and its job row is written. */
  ghost predicate Enters(c: Config, key: JobKey, f: Faults) {
    f.jobWrite && !Blank(c.pipeline) && !Blank(key.stage) && !Blank(key.job)
  }

  /** A refused callback, or one whose job row cannot be written, changes nothing and returns an error. */
  lemma RefusedChangesNothing(c: Config, r: Run, key: JobKey, success: bool, f: Faults)
    requires !Enters(c, key, f)
    ensures JobFinished(c, r, key, success, f) == (r, false)
  {
  }

  ghost function ReportedRows(r: Run, key: JobKey, success: bool): map<JobKey, Status> {
    if key in r.jobRows then r.jobRows[key := if success then Success else Failed] else r.jobRows
  }

  /** After the run has ended, a callback writes the job row and is accepted. */
  lemma LateCallbackWritesJobRow(c: Config, r: Run, key: JobKey, success: bool, f: Faults)
    requires Enters(c, key, f) && !r.live
    ensures JobFinished(c, r, key, success, f) == (r.(jobRows := ReportedRows(r, key, success)), true)
  {
  }

  /** A disallowed failure closes the stage row and then the run row as failed, and is accepted only if both were
      written. */
  lemma FailureIsWritten(c: Config, r: Run, key: JobKey, f: Faults)
    requires Inv(c, r) && Enters(c, key, f) && r.live && key in r.sent && key !in c.allow
    ensures var (r', ok) := JobFinished(c, r, key, false, f);
      && (ok <==> f.stageWrite && f.runWrite)
      && r'.jobRows == ReportedRows(r, key, false)
      && r'.stageRows == (if f.stageWrite then r.stageRows[key.stage := Failed] else r.stageRows)
      && (if f.stageWrite && f.runWrite then r'.runRow == Failed && !r'.live else r'.runRow == r.runRow && r'.live)
      && r'.sent == r.sent && r'.lost == r.lost && r'.log == r.log + [Reported(key, false)]
  {
    hide InvWith, Settled;
    SentIsStarted(c, r, key);
  }

  /** A success or an allowed failure publishes what it releases, and closes its stage if it is the last to complete;
      the stage row, the run row, the row of a next stage that is complete already, and the verdict follow from that. */
  lemma CompletionIsWritten(c: Config, r: Run, key: JobKey, success: bool, i: nat, f: Faults)
    requires Inv(c, r) && Enters(c, key, f) && r.live && key in r.sent && (success || key in c.allow)
    requires i < |c.order| && c.order[i] == key.stage
    ensures key.stage in r.stages && key.stage in c.plans && (i + 1 < |c.order| ==> c.order[i + 1] in c.plans)
    ensures var (r', ok) := JobFinished(c, r, key, success, f);
      && (ok <==> |ReleasedBy(c, r, key)| <= f.sends
                  && (Completes(c, r, key) ==> f.stageWrite && FollowsUp(c, r, i, f)))
      && r'.jobRows == ReportedRows(r, key, success)
      && r'.stageRows == (if Completes(c, r, key) && f.stageWrite then RowsAfter(c, r, i, f) else r.stageRows)
      && (if Completes(c, r, key) && f.stageWrite && f.runWrite && i + 1 == |c.order|
          then r'.runRow == Success && !r'.live
          else r'.runRow == r.runRow && r'.live)
      && (ok ==> r'.lost == r.lost && r'.sent == r.sent + Keys(key.stage, ReleasedBy(c, r, key)) +
                   if Completes(c, r, key) then NextKeys(c, r, i) else {})
  {
    hide InvWith, Settled, CompleteJob, FollowsUp, Completes, ReleasedBy, RowsAfter, NextKeys, ValidPlan, Refines;
    SentIsStarted(c, r, key);
    var r1 := r.(jobRows := ReportedRows(r, key, success), log := r.log + [Reported(key, success)]);
    ReportedKeeps(c, r, r1, key, success);
    CompleteJobLaw(c, r1, key, i, f);
    SameJudgement(c, r, r1, key, i, f);
  }

  /** Logging and the job row do not enter the judgement. */
  lemma SameJudgement(c: Config, r: Run, r1: Run, key: JobKey, i: nat, f: Faults)
    requires key.stage in r.stages && key.stage in c.plans && i < |c.order|
    requires i + 1 < |c.order| ==> c.order[i + 1] in c.plans
    requires r1 == r.(jobRows := r1.jobRows, log := r1.log)
    ensures FollowsUp(c, r1, i, f) == FollowsUp(c, r, i, f) && Completes(c, r1, key) == Completes(c, r, key)
    ensures ReleasedBy(c, r1, key) == ReleasedBy(c, r, key) && RowsAfter(c, r1, i, f) == RowsAfter(c, r, i, f)
    ensures NextKeys(c, r1, i) == NextKeys(c, r, i)
  {
    assert forall t :: Started(r1, t) == Started(r, t) && Complete(c, r1, t) == Complete(c, r, t);
  }

  /* Start dispatch. */

  /** A publish of start dispatch that fails ends the run, whose row is closed as failed if it can be written. */
  lemma FailedSendIsWritten(r: Run, runWrite: bool)
    requires r.dispatch.Sending? && r.dispatch.rest != []
    ensures var r' := Send(r, false, runWrite);
      && !r'.live && r'.dispatch == Finished && r'.dispatchFailed
      && r'.runRow == (if runWrite then Failed else r.runRow)
      && r'.stageRows == r.stageRows && r'.jobRows == r.jobRows && r'.sent == r.sent
      && r'.lost == r.lost + KeysOf(r.dispatch.stage, r.dispatch.rest)
      && r'.log == r.log + [Enqueued(JobKey(r.dispatch.stage, r.dispatch.rest[0]))]
  {
  }

  /** A publish that succeeds sends the next job and goes on with the rest. */
  lemma SendSends(r: Run, runWrite: bool)
    requires r.dispatch.Sending? && r.dispatch.rest != []
    ensures var r' := Send(r, true, runWrite);
      var key := JobKey(r.dispatch.stage, r.dispatch.rest[0]);
      && r'.sent == r.sent + {key} && r'.inflight == r.inflight + {key} && r'.log == r.log + [Enqueued(key)]
      && r'.dispatch == (if |r.dispatch.rest| == 1 then Finished else Sending(r.dispatch.stage, r.dispatch.rest[1..]))
      && r'.live == r.live && r'.runRow == r.runRow && r'.stageRows == r.stageRows && r'.jobRows == r.jobRows
      && r'.lost == r.lost
  {
  }

  /** With a plan for every stage, the start takes the ready jobs and touches no row. */
  lemma StartTouchesNoRow(c: Config, r: Run, stageWrite: bool, runWrite: bool)
    requires Inv(c, r) && r.dispatch.NotStarted?
    ensures var r' := Start(c, r, stageWrite, runWrite);
      && r'.live == r.live && r'.runRow == r.runRow && r'.stageRows == r.stageRows && r'.jobRows == r.jobRows
      && r'.dispatchFailed == r.dispatchFailed && r'.log == r.log && r'.lost == r.lost && r'.sent == r.sent
  {
    hide InvWith, Settled, ValidPlan, ScanReady, Refines;
    FirstIsFresh(c, r);
    var s := c.order[0];
    StartStage(c.plans[s]);
    var (v, ready) := ScanReady(r.stages[s], c.plans[s].jobs);
    assert Start(c, r, stageWrite, runWrite) == r.(stages := r.stages[s := v], dispatch := Sending(s, ready));
  }

  /* Job rows over runs. */

  ghost predicate IsPlanned(c: Config, key: JobKey) {
    key.stage in c.plans && key.job in c.plans[key.stage].jobByName
  }

  /** The step is a callback that writes the row of the job. */
  ghost predicate Records(c: Config, step: Step, key: JobKey) {
    step.Callback? && step.key == key && Enters(c, key, step.faults)
  }

  /** The k-th step is the last such callback among the first `i` steps. */
  ghost predicate IsLastRecord(c: Config, steps: seq<Step>, i: nat, key: JobKey, k: nat)
    requires i <= |steps|
  {
    k < i && Records(c, steps[k], key) &&
    forall m {:trigger Records(c, steps[m], key)} :: k < m < i ==> !Records(c, steps[m], key)
  }

  ghost predicate LastRecord(c: Config, steps: seq<Step>, i: nat, key: JobKey, success: bool)
    requires i <= |steps|
  {
    exists k: nat {:trigger IsLastRecord(c, steps, i, key, k)} ::
      IsLastRecord(c, steps, i, key, k) && steps[k].success == success
  }

  lemma CompleteJobKeepsJobRows(c: Config, r: Run, key: JobKey, f: Faults)
    requires key.stage in r.stages && key.stage in c.plans
    ensures CompleteJob(c, r, key, f).0.jobRows == r.jobRows
  {
    hide MarkSucceeded, ScanReady, EnqueueReady;
    var (v, ready) := MarkSucceeded(c.plans[key.stage], r.stages[key.stage], key.job);
    var names := EntryNames(c.plans[key.stage], ready);
    var r1 := r.(stages := r.stages[key.stage := v]);
    EnqueueVerdict(r1, key.stage, names, f.sends);
    var r2 := EnqueueReady(r1, key.stage, names, f.sends).0;
    var r3 := r2.(stageRows := r2.stageRows[key.stage := Success]);
    match NextStage(c.order, key.stage)
    case None =>
    case Some(next) =>
      if next in r3.stages && next in c.plans {
        var (w, more) := ScanReady(r3.stages[next], c.plans[next].jobs);
        EnqueueVerdict(r3.(stages := r3.stages[next := w]), next, more, f.nextSends);
      }
  }

  lemma {:induction false} ScanKeepsJobRows(c: Config, r: Run, i: nat, stageWrite: bool)
    requires i <= |c.order|
    ensures FindReadyStage(c, r, i, stageWrite).0.jobRows == r.jobRows
    decreases |c.order| - i
  {
    if i < |c.order| {
      var s := c.order[i];
      if s !in r.stages || s !in c.plans {
        ScanKeepsJobRows(c, r, i + 1, stageWrite);
      } else {
        var (v, ready) := ScanReady(r.stages[s], c.plans[s].jobs);
        var r1 := r.(stages := r.stages[s := v]);
        ScanKeepsJobRows(c, r1, i + 1, stageWrite);
        ScanKeepsJobRows(c, r1.(stageRows := r1.stageRows[s := Success]), i + 1, stageWrite);
      }
    }
  }

  lemma CallbackWritesItsRow(c: Config, r: Run, key: JobKey, success: bool, f: Faults)
    ensures JobFinished(c, r, key, success, f).0.jobRows
      == if Enters(c, key, f) then ReportedRows(r, key, success) else r.jobRows
  {
    hide CompleteJob;
    if key.stage in r.stages && key.stage in c.plans {
      var r1 := r.(jobRows := ReportedRows(r, key, success), log := r.log + [Reported(key, success)]);
      CompleteJobKeepsJobRows(c, r1, key, f);
    }
  }

  /** Only an entering callback writes a job row: that of its own job, with the status it reports. */
  lemma JobRowStep(c: Config, r: Run, step: Step)
    requires CanStep(r, step)
    ensures Apply(c, r, step).jobRows ==
      if step.Callback? && Enters(c, step.key, step.faults) then ReportedRows(r, step.key, step.success) else r.jobRows
  {
    hide JobFinished, FindReadyStage, Enters, ReportedRows;
    match step
    case StartDispatch(stageWrite, runWrite) => ScanKeepsJobRows(c, r, 0, stageWrite);
    case SendNext(sendOk, runWrite) =>
    case Callback(key, success, f) => CallbackWritesItsRow(c, r, key, success, f);
    case Ack(key) =>
  }

  /** In every state of every run: the row of a planned job is queued until a callback has written it, and then
      carries the status of the last callback that did. */
  lemma {:induction false} JobRowLaw(c: Config, states: seq<Run>, steps: seq<Step>, i: nat, key: JobKey)
    requires IsRun(c, states, steps) && i <= |steps| && IsPlanned(c, key)
    ensures key in states[i].jobRows
    ensures states[i].jobRows[key] == Queued <==>
      forall k {:trigger Records(c, steps[k], key)} :: 0 <= k < i ==> !Records(c, steps[k], key)
    ensures states[i].jobRows[key] == Success <==> LastRecord(c, steps, i, key, true)
    ensures states[i].jobRows[key] == Failed <==> LastRecord(c, steps, i, key, false)
  {
    hide Apply, CanStep, Records;
    if i == 0 {
      assert key == JobKey(key.stage, key.job);
      NoRecordYet(c, steps, key);
    } else {
      JobRowLaw(c, states, steps, i - 1, key);
      JobRowStep(c, states[i - 1], steps[i - 1]);
      RecordsMeaning(c, steps[i - 1], key);
      hide Enters, LastRecord;
      LastRecordStep(c, steps, i - 1, key, true);
      LastRecordStep(c, steps, i - 1, key, false);
    }
  }

  lemma NoRecordYet(c: Config, steps: seq<Step>, key: JobKey)
    ensures !LastRecord(c, steps, 0, key, true) && !LastRecord(c, steps, 0, key, false)
  {
  }

  lemma RecordsMeaning(c: Config, step: Step, key: JobKey)
    ensures Records(c, step, key) <==> step.Callback? && step.key == key && Enters(c, key, step.faults)
  {
  }

  lemma LastRecordStep(c: Config, steps: seq<Step>, i: nat, key: JobKey, success: bool)
    requires i < |steps|
    ensures LastRecord(c, steps, i + 1, key, success) <==>
      if Records(c, steps[i], key) then steps[i].success == success else LastRecord(c, steps, i, key, success)
  {
    hide Enters;
    if LastRecord(c, steps, i + 1, key, success) {
      var k: nat :| IsLastRecord(c, steps, i + 1, key, k) && steps[k].success == success;
      if !Records(c, steps[i], key) {
        assert IsLastRecord(c, steps, i, key, k);
      }
    }
    if Records(c, steps[i], key) {
      assert IsLastRecord(c, steps, i + 1, key, i);
    } else if LastRecord(c, steps, i, key, success) {
      var k: nat :| IsLastRecord(c, steps, i, key, k) && steps[k].success == success;
      assert IsLastRecord(c, steps, i + 1, key, k);
    }
  }

  /* The run row over runs. */

  /** The step closes the run row as failed: a publish of start dispatch fails, or a disallowed failure is recorded. */
  ghost predicate Fails(c: Config, r: Run, step: Step) {
    r.live && (
      || step == SendNext(false, true)
      || (step.Callback? && !step.success && step.key !in c.allow && Enters(c, step.key, step.faults) &&
          step.faults.stageWrite && step.faults.runWrite))
  }

  /** The step gives the run up, and the run row cannot be written. */
  ghost predicate Abandons(r: Run, step: Step) {
    r.live && step == SendNext(false, false)
  }

  /** The step completes the last stage with a success or an allowed failure, and both rows are written. */
  ghost predicate Succeeds(c: Config, r: Run, step: Step) {
    && r.live && step.Callback? && (step.success || step.key in c.allow) && Enters(c, step.key, step.faults)
    && c.order != [] && step.key.stage == c.order[|c.order| - 1]
    && step.key.stage in r.stages && step.key.stage in c.plans
    && Completes(c, r, step.key) && step.faults.stageWrite && step.faults.runWrite
  }

  /** Once a publish of start dispatch has failed it is over, and a dead run still in dispatch has failed. */
  ghost predicate DispatchOk(r: Run) {
    (r.dispatchFailed ==> r.dispatch.Finished?) && (!r.live && !r.dispatch.Finished? ==> r.runRow == Failed)
  }

  lemma PositionInOrder(c: Config, r: Run, key: JobKey) returns (i: nat)
    requires Inv(c, r) && key in r.sent
    ensures i < |c.order| && c.order[i] == key.stage && key.stage in r.stages && key.stage in c.plans
    ensures key.stage == c.order[|c.order| - 1] <==> i + 1 == |c.order|
  {
    hide StagesOk, KeysOk, LogOk, OrderOk, RowsOk, Settled, ValidPlan;
    SentIsStarted(c, r, key);
    i := PositionOf(c, r, key.stage);
  }

  lemma CallbackRunRow(c: Config, r: Run, key: JobKey, success: bool, f: Faults)
    requires Inv(c, r) && key in r.sent
    ensures var step, r' := Callback(key, success, f), JobFinished(c, r, key, success, f).0;
      && (r'.live <==> r.live && !Fails(c, r, step) && !Succeeds(c, r, step))
      && r'.runRow == (if Fails(c, r, step) then Failed else if Succeeds(c, r, step) then Success else r.runRow)
      && r'.dispatch == r.dispatch && r'.dispatchFailed == r.dispatchFailed
  {
    hide Inv, Enters, Completes, JobFinished;
    CallbackKeepsDispatch(c, r, key, success, f);
    if !Enters(c, key, f) {
      RefusedChangesNothing(c, r, key, success, f);
    } else if !r.live {
      LateCallbackWritesJobRow(c, r, key, success, f);
    } else if !success && key !in c.allow {
      FailureIsWritten(c, r, key, f);
    } else {
      var i := PositionInOrder(c, r, key);
      CompletionIsWritten(c, r, key, success, i, f);
    }
  }

  lemma CallbackKeepsDispatch(c: Config, r: Run, key: JobKey, success: bool, f: Faults)
    ensures var r' := JobFinished(c, r, key, success, f).0;
      r'.dispatch == r.dispatch && r'.dispatchFailed == r.dispatchFailed
  {
    hide CompleteJob;
    if key.stage in r.stages && key.stage in c.plans {
      var r1 := r.(jobRows := ReportedRows(r, key, success), log := r.log + [Reported(key, success)]);
      CompleteJobKeepsDispatch(c, r1, key, f);
    }
  }

  lemma CompleteJobKeepsDispatch(c: Config, r: Run, key: JobKey, f: Faults)
    requires key.stage in r.stages && key.stage in c.plans
    ensures var r' := CompleteJob(c, r, key, f).0; r'.dispatch == r.dispatch && r'.dispatchFailed == r.dispatchFailed
  {
    hide MarkSucceeded, ScanReady, EnqueueReady;
    var (v, ready) := MarkSucceeded(c.plans[key.stage], r.stages[key.stage], key.job);
    var names := EntryNames(c.plans[key.stage], ready);
    var r1 := r.(stages := r.stages[key.stage := v]);
    EnqueueVerdict(r1, key.stage, names, f.sends);
    var r2 := EnqueueReady(r1, key.stage, names, f.sends).0;
    var r3 := r2.(stageRows := r2.stageRows[key.stage := Success]);
    match NextStage(c.order, key.stage)
    case None =>
    case Some(next) =>
      if next in r3.stages && next in c.plans {
        var (w, more) := ScanReady(r3.stages[next], c.plans[next].jobs);
        EnqueueVerdict(r3.(stages := r3.stages[next := w]), next, more, f.nextSends);
      }
  }

  /** One step decides about runtime and run row by these three conditions alone. */
  lemma RunRowStep(c: Config, r: Run, step: Step)
    requires Inv(c, r) && DispatchOk(r) && CanStep(r, step)
    ensures var r' := Apply(c, r, step);
      && (r'.live <==> r.live && !Fails(c, r, step) && !Abandons(r, step) && !Succeeds(c, r, step))
      && r'.runRow == (if Fails(c, r, step) then Failed else if Succeeds(c, r, step) then Success else r.runRow)
      && DispatchOk(r')
  {
    hide InvWith, Settled, Start, JobFinished, Completes, Enters;
    match step
    case StartDispatch(stageWrite, runWrite) => StartTouchesNoRow(c, r, stageWrite, runWrite);
    case SendNext(sendOk, runWrite) =>
      if sendOk { SendSends(r, runWrite); } else { FailedSendIsWritten(r, runWrite); }
    case Callback(key, success, f) =>
      CallbackRunRow(c, r, key, success, f);
      StepKeeps(c, r, step);
      SuccessIsDispatched(c, Apply(c, r, step));
    case Ack(key) =>
  }

  lemma SuccessIsDispatched(c: Config, r: Run)
    requires InvWith(c, r, {})
    ensures r.runRow == Success ==> r.dispatch.Finished?
  {
    hide StagesOk, KeysOk, LogOk, OrderOk;
  }

  /** In every state of every run: it is live, failed, a success, or given up without a written row according to
      which of the ending steps has happened. */
  lemma {:induction false} RunRowLaw(c: Config, states: seq<Run>, steps: seq<Step>, i: nat)
    requires ValidConfig(c) && IsRun(c, states, steps) && i <= |steps|
    ensures states[i].runRow == Failed <==> exists k :: 0 <= k < i && Fails(c, states[k], steps[k])
    ensures states[i].runRow == Success <==> exists k :: 0 <= k < i && Succeeds(c, states[k], steps[k])
    ensures !states[i].live && states[i].runRow == Queued <==> exists k :: 0 <= k < i && Abandons(states[k], steps[k])
    ensures DispatchOk(states[i])
  {
    hide ValidConfig, Inv, Apply, CanStep, Fails, Succeeds, Abandons;
    if i > 0 {
      RunRowLaw(c, states, steps, i - 1);
      InvariantThroughout(c, states, steps, i - 1);
      RunRowStep(c, states[i - 1], steps[i - 1]);
      EndsOnce(c, states[i - 1], steps[i - 1]);
    }
  }

  /** The conditions exclude each other and need a live run, whose row is queued. */
  lemma EndsOnce(c: Config, r: Run, step: Step)
    requires Inv(c, r)
    ensures Fails(c, r, step) || Abandons(r, step) || Succeeds(c, r, step) ==> r.live
    ensures r.live ==> r.runRow == Queued
    ensures !(Fails(c, r, step) && Succeeds(c, r, step))
    ensures !(Abandons(r, step) && (Fails(c, r, step) || Succeeds(c, r, step)))
  {
    hide StagesOk, KeysOk, LogOk, OrderOk, Settled, Completes, Enters;
  }

  /** A step of start dispatch that fails it leaves the run row failed if the row can be written. */
  lemma FailedDispatchIsWritten(c: Config, states: seq<Run>, steps: seq<Step>, i: nat)
    requires ValidConfig(c) && IsRun(c, states, steps) && i < |steps| && states[i + 1].dispatchFailed
    requires (steps[i].StartDispatch? && steps[i].runWrite) || (steps[i].SendNext? && steps[i].runWrite)
    ensures states[i + 1].runRow == Failed && !states[i + 1].live && steps[i].SendNext? && !steps[i].sendOk
  {
    hide InvWith, Settled, Start;
    InvariantThroughout(c, states, steps, i);
    RunRowLaw(c, states, steps, i);
    if steps[i].StartDispatch? {
      StartTouchesNoRow(c, states[i], steps[i].stageWrite, steps[i].runWrite);
    }
  }

  /* Reports and completed jobs over runs. */

  /** The step is a callback that a live runtime handles. */
  ghost predicate Heeds(c: Config, r: Run, step: Step, key: JobKey, success: bool) {
    r.live && step.Callback? && step.key == key && step.success == success && Enters(c, key, step.faults)
  }

  lemma {:induction false} ScanKeepsCompleted(v: StageView, jobs: seq<JobExecutionPlan>)
    ensures ScanReady(v, jobs).0.completed == v.completed
  {
    if jobs != [] {
      ScanKeepsCompleted(v, jobs[..|jobs| - 1]);
    }
  }

  lemma {:induction false} ReleaseKeepsCompleted(v: StageView, deps: seq<Name>)
    ensures Release(v, deps).0.completed == v.completed
  {
    if deps != [] {
      ReleaseKeepsCompleted(v, deps[..|deps| - 1]);
    }
  }

  /** What a run remembers of its callbacks: reports logged, in order, and jobs completed. */
  ghost predicate SameCompleted(r: Run, r': Run) {
    forall key :: IsCompleted(r', key) <==> IsCompleted(r, key)
  }

  ghost function Reports(log: seq<Event>): seq<Event> {
    if log == [] then [] else
    var last := |log| - 1;
    Reports(log[..last]) + if log[last].Reported? then [log[last]] else []
  }

  lemma {:induction false} ReportsAppend(log: seq<Event>, more: seq<Event>)
    ensures Reports(log + more) == Reports(log) + Reports(more)
  {
    if more == [] {
      assert log + more == log;
    } else {
      var last := |more| - 1;
      ReportsAppend(log, more[..last]);
      assert (log + more)[..|log| + last] == log + more[..last];
    }
  }

  lemma {:induction false} EnqueuesAreNoReports(stage: Name, names: seq<Name>)
    ensures Reports(Enqueues(stage, names)) == []
  {
    if names != [] {
      EnqueuesAreNoReports(stage, names[1..]);
      OneEvent(Enqueued(JobKey(stage, names[0])));
      ReportsAppend([Enqueued(JobKey(stage, names[0]))], Enqueues(stage, names[1..]));
    }
  }

  lemma EnqueueKeepsReports(r: Run, stage: Name, names: seq<Name>, sends: nat)
    ensures Reports(EnqueueReady(r, stage, names, sends).0.log) == Reports(r.log)
    ensures EnqueueReady(r, stage, names, sends).0.stages == r.stages
  {
    if |names| <= sends {
      EnqueueAllExact(r, stage, names, sends);
      EnqueuesAreNoReports(stage, names);
      ReportsAppend(r.log, Enqueues(stage, names));
    } else {
      EnqueueSomeExact(r, stage, names, sends);
      var events := Enqueues(stage, names[..sends]);
      EnqueuesAreNoReports(stage, names[..sends]);
      ReportsAppend(r.log, events);
      OneEvent(Enqueued(JobKey(stage, names[sends])));
      ReportsAppend(r.log + events, [Enqueued(JobKey(stage, names[sends]))]);
    }
  }

  lemma OneEvent(e: Event)
    ensures Reports([e]) == if e.Reported? then [e] else []
  {
    assert [e][..0] == [];
  }

  lemma AdvanceKeepsReports(c: Config, r: Run, stage: Name, f: Faults)
    ensures var r' := Advance(c, r, stage, f).0; Reports(r'.log) == Reports(r.log) && SameCompleted(r, r')
  {
    hide ScanReady, EnqueueReady, Reports;
    var r1 := r.(stageRows := r.stageRows[stage := Success]);
    match NextStage(c.order, stage)
    case None =>
    case Some(next) =>
      if next in r1.stages && next in c.plans {
        var (v, ready) := ScanReady(r1.stages[next], c.plans[next].jobs);
        ScanKeepsCompleted(r1.stages[next], c.plans[next].jobs);
        EnqueueKeepsReports(r1.(stages := r1.stages[next := v]), next, ready, f.nextSends);
      }
  }

  lemma CompleteJobKeepsReports(c: Config, r: Run, key: JobKey, f: Faults)
    requires key.stage in r.stages && key.stage in c.plans
    ensures var r' := CompleteJob(c, r, key, f).0;
      && Reports(r'.log) == Reports(r.log)
      && forall other :: IsCompleted(r', other) <==> IsCompleted(r, other) || other == key
  {
    hide EnqueueReady, Advance, Reports, Release;
    var v := r.stages[key.stage];
    ReleaseKeepsCompleted(MarkTerminal(v, key.job), Slice(c.plans[key.stage].dependents, key.job));
    var (w, ready) := MarkSucceeded(c.plans[key.stage], v, key.job);
    assert w.completed == v.completed + {key.job};
    hide MarkSucceeded;
    var names := EntryNames(c.plans[key.stage], ready);
    var r1 := r.(stages := r.stages[key.stage := w]);
    assert forall other :: IsCompleted(r1, other) <==> IsCompleted(r, other) || other == key by {
      assert key == JobKey(key.stage, key.job);
    }
    EnqueueKeepsReports(r1, key.stage, names, f.sends);
    var r2 := EnqueueReady(r1, key.stage, names, f.sends).0;
    assert SameCompleted(r1, r2);
    AdvanceKeepsReports(c, r2, key.stage, f);
  }

  lemma FailRunKeepsReports(r: Run, key: JobKey, f: Faults)
    requires key.stage in r.stages
    ensures var r' := FailRun(r, key, f).0;
      r'.log == r.log && forall other :: IsCompleted(r', other) <==> IsCompleted(r, other) || other == key
  {
    assert key == JobKey(key.stage, key.job);
  }

  /** A callback is logged and completes its job exactly when it is heeded. */
  lemma CallbackIsHeeded(c: Config, r: Run, key: JobKey, success: bool, f: Faults)
    requires key.stage in r.stages && key.stage in c.plans
    ensures var step, r' := Callback(key, success, f), JobFinished(c, r, key, success, f).0;
      && Reports(r'.log) == Reports(r.log) + (if Heeds(c, r, step, key, success) then [Reported(key, success)] else [])
      && forall other :: IsCompleted(r', other) <==>
        IsCompleted(r, other) || (other == key && Heeds(c, r, step, key, success))
  {
    hide CompleteJob, FailRun, Reports;
    var r1 := r.(jobRows := ReportedRows(r, key, success), log := r.log + [Reported(key, success)]);
    ReportsAppend(r.log, [Reported(key, success)]);
    OneEvent(Reported(key, success));
    assert SameCompleted(r, r1) && SameCompleted(r, r.(jobRows := r1.jobRows));
    CompleteJobKeepsReports(c, r1, key, f);
    FailRunKeepsReports(r1, key, f);
  }

  lemma DispatchKeepsReports(c: Config, r: Run, step: Step)
    requires Inv(c, r) && CanStep(r, step) && !step.Callback?
    ensures Reports(Apply(c, r, step).log) == Reports(r.log) && SameCompleted(r, Apply(c, r, step))
  {
    hide InvWith, Settled, ScanReady, Reports;
    match step
    case StartDispatch(stageWrite, runWrite) => StartKeepsCompleted(c, r, stageWrite, runWrite);
    case SendNext(sendOk, runWrite) =>
      var e := Enqueued(JobKey(r.dispatch.stage, r.dispatch.rest[0]));
      if sendOk { SendSends(r, runWrite); } else { FailedSendIsWritten(r, runWrite); }
      OneEvent(e);
      ReportsAppend(r.log, [e]);
    case Ack(key) =>
  }

  lemma StartKeepsCompleted(c: Config, r: Run, stageWrite: bool, runWrite: bool)
    requires Inv(c, r) && r.dispatch.NotStarted?
    ensures var r' := Start(c, r, stageWrite, runWrite); r'.log == r.log && SameCompleted(r, r')
  {
    hide InvWith, Settled, ValidPlan, ScanReady, Refines;
    FirstIsFresh(c, r);
    var s := c.order[0];
    StartStage(c.plans[s]);
    var (v, ready) := ScanReady(r.stages[s], c.plans[s].jobs);
    ScanKeepsCompleted(r.stages[s], c.plans[s].jobs);
    assert Start(c, r, stageWrite, runWrite) == r.(stages := r.stages[s := v], dispatch := Sending(s, ready));
  }

  /** The reports that a live runtime handled in the first `i` steps, in order. */
  ghost function Heeded(c: Config, states: seq<Run>, steps: seq<Step>, i: nat): seq<Event>
    requires i <= |steps| < |states|
  {
    if i == 0 then [] else
    var step := steps[i - 1];
    Heeded(c, states, steps, i - 1) +
      if step.Callback? && Heeds(c, states[i - 1], step, step.key, step.success) then [Reported(step.key, step.success)]
      else []
  }

  /** In every state of every run: the log has the heeded reports in the order in which they came, and the completed
      jobs are those of them. */
  lemma {:induction false} ReportsLaw(c: Config, states: seq<Run>, steps: seq<Step>, i: nat)
    requires ValidConfig(c) && IsRun(c, states, steps) && i <= |steps|
    ensures Reports(states[i].log) == Heeded(c, states, steps, i)
    ensures forall key :: IsCompleted(states[i], key) <==>
      exists e :: e in Heeded(c, states, steps, i) && e.Reported? && e.key == key
  {
    hide ValidConfig, Inv, Apply, CanStep, Heeds, Reports, IsCompleted;
    if i == 0 {
      NothingAtFirst(c);
    } else {
      ReportsLaw(c, states, steps, i - 1);
      InvariantThroughout(c, states, steps, i - 1);
      HeededStep(c, states[i - 1], steps[i - 1]);
    }
  }

  lemma NothingAtFirst(c: Config)
    ensures Reports(Init(c).log) == [] && forall key :: !IsCompleted(Init(c), key)
  {
  }

  lemma HeededStep(c: Config, r: Run, step: Step)
    requires Inv(c, r) && CanStep(r, step)
    ensures var r' := Apply(c, r, step);
      var heeded := step.Callback? && Heeds(c, r, step, step.key, step.success);
      && Reports(r'.log) == Reports(r.log) + (if heeded then [Reported(step.key, step.success)] else [])
      && forall other :: IsCompleted(r', other) <==> IsCompleted(r, other) || (heeded && other == step.key)
  {
    hide InvWith, Settled, JobFinished, Start, Send, Heeds, Reports;
    if step.Callback? {
      SentIsStarted(c, r, step.key);
      CallbackIsHeeded(c, r, step.key, step.success, step.faults);
      var (r1, ok) := JobFinished(c, r, step.key, step.success, step.faults);
      assert SameCompleted(r1, Apply(c, r, step));
    } else {
      DispatchKeepsReports(c, r, step);
    }
  }

  /* Stage rows over runs. */

  /** A stage row says success only of a complete stage, and failed only after a disallowed failure of one of its
      jobs. */
  ghost predicate StageRowsOk(c: Config, r: Run) {
    forall s :: s in c.plans ==>
      && s in r.stageRows
      && (r.stageRows[s] == Success ==> Complete(c, r, s))
      && (r.stageRows[s] == Failed ==> HasFailed(c, r, s))
  }

  ghost predicate HasFailed(c: Config, r: Run, s: Name) {
    exists n :: JobKey(s, n) !in c.allow && Reported(JobKey(s, n), false) in Reports(r.log)
  }

  /** Rows that are closed as failed while the run goes on, or not closed although the next stage was started, do not
      occur in runs whose disallowed failures are recorded. */
  ghost predicate RowsKeepUp(c: Config, r: Run) {
    r.live || r.runRow == Success ==>
      && (forall s :: s in c.plans ==> s in r.stageRows && r.stageRows[s] != Failed)
      && (forall i :: 0 < i < |c.order| && Started(r, c.order[i]) && c.order[i - 1] in r.stageRows ==>
            r.stageRows[c.order[i - 1]] == Success)
      && (r.runRow == Success && c.order != [] && c.order[|c.order| - 1] in r.stageRows ==>
            r.stageRows[c.order[|c.order| - 1]] == Success)
  }

  lemma CompleteStays(c: Config, r: Run, r': Run, s: Name)
    requires Complete(c, r, s) && InvWith(c, r', {}) && forall key :: IsCompleted(r, key) ==> IsCompleted(r', key)
    ensures Complete(c, r', s)
  {
    hide KeysOk, LogOk, OrderOk, RowsOk, ValidPlan;
    forall n | n in r.stages[s].completed ensures n in r'.stages[s].completed {
      assert IsCompleted(r, JobKey(s, n));
      assert IsCompleted(r', JobKey(s, n));
    }
  }

  /** The stage that is completed is complete afterwards. */
  lemma CompletedIsComplete(c: Config, r: Run, r': Run, key: JobKey)
    requires key.stage in r.stages && key.stage in c.plans && Completes(c, r, key) && InvWith(c, r', {})
    requires forall other :: IsCompleted(r, other) || other == key ==> IsCompleted(r', other)
    ensures Complete(c, r', key.stage)
  {
    hide KeysOk, LogOk, OrderOk, RowsOk, ValidPlan;
    forall n | n in c.plans[key.stage].jobByName ensures n in r'.stages[key.stage].completed {
      assert JobKey(key.stage, n) == key || IsCompleted(r, JobKey(key.stage, n));
      assert IsCompleted(r', JobKey(key.stage, n));
    }
  }

  /** How a callback may change the row of stage `s`. */
  ghost predicate RowMoves(c: Config, r: Run, r': Run, step: Step, s: Name)
    requires step.Callback?
  {
    && s in r.stageRows && s in r'.stageRows
    && (r'.stageRows[s] == r.stageRows[s]
        || (r'.stageRows[s] == Success && Complete(c, r', s) && Heeds(c, r, step, step.key, step.success))
        || (r'.stageRows[s] == Failed && s == step.key.stage && !step.success && step.key !in c.allow &&
            Heeds(c, r, step, step.key, step.success)))
  }

  lemma CompletionStageRows(c: Config, r: Run, key: JobKey, success: bool, f: Faults, r': Run, s: Name)
    requires Inv(c, r) && key in r.sent && r' == JobFinished(c, r, key, success, f).0 && InvWith(c, r', {})
    requires s in c.plans && s in r.stageRows && Enters(c, key, f) && r.live && (success || key in c.allow)
    ensures RowMoves(c, r, r', Callback(key, success, f), s)
  {
    hide InvWith, Settled, JobFinished, Completes, FollowsUp, ReleasedBy, NextKeys, Complete, Enters, Reports;
    var i := PositionInOrder(c, r, key);
    CallbackIsHeeded(c, r, key, success, f);
    CompletionIsWritten(c, r, key, success, i, f);
    if Completes(c, r, key) {
      CompletedIsComplete(c, r, r', key);
    }
    if i + 1 < |c.order| && Complete(c, r, c.order[i + 1]) {
      CompleteStays(c, r, r', c.order[i + 1]);
    }
  }

  lemma CallbackStageRows(c: Config, r: Run, key: JobKey, success: bool, f: Faults, r': Run, s: Name)
    requires Inv(c, r) && key in r.sent && r' == JobFinished(c, r, key, success, f).0 && InvWith(c, r', {})
    requires s in c.plans && s in r.stageRows
    ensures RowMoves(c, r, r', Callback(key, success, f), s)
  {
    hide InvWith, Settled, JobFinished, Complete, Enters;
    if !Enters(c, key, f) {
      RefusedChangesNothing(c, r, key, success, f);
    } else if !r.live {
      LateCallbackWritesJobRow(c, r, key, success, f);
    } else if !success && key !in c.allow {
      FailureIsWritten(c, r, key, f);
    } else {
      CompletionStageRows(c, r, key, success, f, r', s);
    }
  }

  lemma StepStageRows(c: Config, r: Run, step: Step, r': Run, s: Name)
    requires Inv(c, r) && CanStep(r, step) && step.Callback? && r' == Apply(c, r, step) && InvWith(c, r', {})
    requires s in c.plans && s in r.stageRows
    ensures RowMoves(c, r, r', step, s)
  {
    hide InvWith, Settled, JobFinished;
    var r1 := JobFinished(c, r, step.key, step.success, step.faults).0;
    JobFinishedKeeps(c, r, step.key, step.success, step.faults);
    CallbackStageRows(c, r, step.key, step.success, step.faults, r1, s);
    assert Complete(c, r1, s) == Complete(c, r', s);
  }

  /** No other step writes a stage row. */
  lemma OthersWriteNoStageRow(c: Config, r: Run, step: Step)
    requires Inv(c, r) && CanStep(r, step) && !step.Callback?
    ensures Apply(c, r, step).stageRows == r.stageRows
  {
    hide InvWith, Settled, Start;
    match step
    case StartDispatch(stageWrite, runWrite) => StartTouchesNoRow(c, r, stageWrite, runWrite);
    case SendNext(sendOk, runWrite) =>
    case Ack(key) =>
  }

  lemma StageRowsStep(c: Config, r: Run, step: Step)
    requires Inv(c, r) && CanStep(r, step) && StageRowsOk(c, r)
    ensures StageRowsOk(c, Apply(c, r, step))
  {
    hide InvWith, Settled, Apply, Complete, Reports, CanStep;
    var r' := Apply(c, r, step);
    StepKeeps(c, r, step);
    HeededStep(c, r, step);
    forall s | s in c.plans
      ensures s in r'.stageRows && (r'.stageRows[s] == Success ==> Complete(c, r', s))
      ensures r'.stageRows[s] == Failed ==> HasFailed(c, r', s)
    {
      if step.Callback? {
        StepStageRows(c, r, step, r', s);
        FailedAfter(c, r, r', step, s);
      } else {
        OthersWriteNoStageRow(c, r, step);
      }
      if Complete(c, r, s) {
        CompleteStays(c, r, r', s);
      }
      FailedStays(c, r, r', s);
    }
  }

  lemma FailedStays(c: Config, r: Run, r': Run, s: Name)
    requires Reports(r.log) <= Reports(r'.log)
    ensures HasFailed(c, r, s) ==> HasFailed(c, r', s)
  {
    if n :| JobKey(s, n) !in c.allow && Reported(JobKey(s, n), false) in Reports(r.log) {
      assert Reported(JobKey(s, n), false) in Reports(r'.log);
    }
  }

  lemma FailedAfter(c: Config, r: Run, r': Run, step: Step, s: Name)
    requires step.Callback? && RowMoves(c, r, r', step, s)
    requires Reports(r'.log) ==
      Reports(r.log) + if Heeds(c, r, step, step.key, step.success) then [Reported(step.key, step.success)] else []
    ensures r'.stageRows[s] == Failed && r.stageRows[s] != Failed ==> HasFailed(c, r', s)
  {
    hide Complete;
    if r'.stageRows[s] == Failed && r.stageRows[s] != Failed {
      assert step.key == JobKey(s, step.key.job);
    }
  }

  /** Stage rows in every state of every run. */
  lemma {:induction false} StageRowLaw(c: Config, states: seq<Run>, steps: seq<Step>, i: nat)
    requires ValidConfig(c) && IsRun(c, states, steps) && i <= |steps|
    ensures StageRowsOk(c, states[i])
  {
    hide ValidConfig, Inv, Apply, CanStep, Complete;
    if i > 0 {
      StageRowLaw(c, states, steps, i - 1);
      InvariantThroughout(c, states, steps, i - 1);
      StageRowsStep(c, states[i - 1], steps[i - 1]);
    }
  }

  lemma AdvanceStarts(c: Config, r: Run, stage: Name, f: Faults)
    ensures var r' := Advance(c, r, stage, f).0;
      forall s :: Started(r', s) ==> Started(r, s) || (f.stageWrite && NextStage(c.order, stage) == Some(s))
  {
    hide ScanReady, EnqueueReady;
    var r1 := r.(stageRows := r.stageRows[stage := Success]);
    match NextStage(c.order, stage)
    case None =>
    case Some(next) =>
      if next in r1.stages && next in c.plans {
        var (v, ready) := ScanReady(r1.stages[next], c.plans[next].jobs);
        EnqueueKeepsReports(r1.(stages := r1.stages[next := v]), next, ready, f.nextSends);
      }
  }

  /** Completing a job starts no stage but the next one, and that only with the row of its own stage written. */
  lemma CompleteJobStarts(c: Config, r: Run, key: JobKey, i: nat, f: Faults)
    requires InvWith(c, r, {}) && r.live && key in r.sent && Good(c, r.log, key)
    requires i < |c.order| && c.order[i] == key.stage
    ensures key.stage in r.stages && key.stage in c.plans
    ensures var r' := CompleteJob(c, r, key, f).0;
      forall s :: Started(r', s) ==>
        Started(r, s) || (i + 1 < |c.order| && s == c.order[i + 1] && Completes(c, r, key) && f.stageWrite)
  {
    hide InvWith, MarkSucceeded, EnqueueReady, Advance, Good, IsStageComplete, ValidPlan, Refines;
    SentIsStarted(c, r, key);
    SuccessKeeps(c, r, key);
    SuccessIsGrown(c, r, key);
    var j := PositionOf(c, r, key.stage);
    NextStageAt(c.order, i);
    var (v, ready) := MarkSucceeded(c.plans[key.stage], r.stages[key.stage], key.job);
    var names := EntryNames(c.plans[key.stage], ready);
    var r1 := r.(stages := r.stages[key.stage := v]);
    CompletedIsPlanned(c, r1, KeysOf(key.stage, ready), key.stage);
    GrownCompletes(c, r, key, v);
    EnqueueKeepsReports(r1, key.stage, names, f.sends);
    var r2 := EnqueueReady(r1, key.stage, names, f.sends).0;
    assert forall s :: Started(r2, s) ==> Started(r, s);
    AdvanceStarts(c, r2, key.stage, f);
  }

  lemma CompletionKeepsUp(c: Config, r: Run, key: JobKey, success: bool, f: Faults)
    requires Inv(c, r) && key in r.sent && RowsKeepUp(c, r)
    requires Enters(c, key, f) && r.live && (success || key in c.allow)
    ensures RowsKeepUp(c, JobFinished(c, r, key, success, f).0)
  {
    hide InvWith, Settled, Completes, FollowsUp, ReleasedBy, NextKeys, CompleteJob, Complete, Started;
    var i := PositionInOrder(c, r, key);
    CompletionIsWritten(c, r, key, success, i, f);
    var r1 := r.(jobRows := ReportedRows(r, key, success), log := r.log + [Reported(key, success)]);
    ReportedKeeps(c, r, r1, key, success);
    CompleteJobStarts(c, r1, key, i, f);
    SameJudgement(c, r, r1, key, i, f);
    SameStarted(r, r1);
    OrderIsDistinct(c, r);
    hide RowsKeepUp, Enters, RowsAfter, Distinct;
    ClosedKeepsUp(c, r, JobFinished(c, r, key, success, f).0, i, Completes(c, r, key) && f.stageWrite, f);
  }

  /** A stage that closes, and the next one if it is complete already, get their rows before they count as left
      behind. */
  lemma ClosedKeepsUp(c: Config, r: Run, r': Run, i: nat, closes: bool, f: Faults)
    requires Distinct(c.order) && i < |c.order| && (forall s :: s in c.plans <==> s in c.order)
    requires RowsKeepUp(c, r) && r.live
    requires r'.stageRows == if closes then RowsAfter(c, r, i, f) else r.stageRows
    requires forall s :: Started(r', s) ==> Started(r, s) || (closes && i + 1 < |c.order| && s == c.order[i + 1])
    requires r'.runRow == if closes && f.runWrite && i + 1 == |c.order| then Success else r.runRow
    ensures RowsKeepUp(c, r')
  {
    hide Started, Complete;
  }

  lemma SameStarted(r: Run, r': Run)
    requires r'.stages == r.stages
    ensures forall s :: Started(r', s) == Started(r, s)
  {
  }

  lemma OrderIsDistinct(c: Config, r: Run)
    requires InvWith(c, r, {})
    ensures Distinct(c.order) && (forall s :: s in c.plans <==> s in c.order) && c.order != []
  {
  }

  lemma CallbackKeepsUp(c: Config, r: Run, key: JobKey, success: bool, f: Faults)
    requires Inv(c, r) && key in r.sent && RowsKeepUp(c, r) && Recorded(c, Callback(key, success, f))
    ensures RowsKeepUp(c, JobFinished(c, r, key, success, f).0)
  {
    hide InvWith, Settled, JobFinished;
    if !Enters(c, key, f) {
      RefusedChangesNothing(c, r, key, success, f);
    } else if !r.live {
      LateCallbackWritesJobRow(c, r, key, success, f);
      SameStarted(r, JobFinished(c, r, key, success, f).0);
    } else if !success && key !in c.allow {
      FailureIsWritten(c, r, key, f);
    } else {
      CompletionKeepsUp(c, r, key, success, f);
    }
  }

  lemma StepKeepsUp(c: Config, r: Run, step: Step)
    requires Inv(c, r) && CanStep(r, step) && RowsKeepUp(c, r) && Recorded(c, step)
    ensures RowsKeepUp(c, Apply(c, r, step))
  {
    hide InvWith, Settled, JobFinished, Start, Recorded;
    var r' := Apply(c, r, step);
    match step
    case StartDispatch(stageWrite, runWrite) => StartKeepsUp(c, r, stageWrite, runWrite);
    case SendNext(sendOk, runWrite) => SameStarted(r, r'); SuccessIsDispatched(c, r);
    case Callback(key, success, f) =>
      CallbackKeepsUp(c, r, key, success, f);
      SameStarted(JobFinished(c, r, key, success, f).0, r');
    case Ack(key) => SameStarted(r, r');
  }

  lemma StartKeepsUp(c: Config, r: Run, stageWrite: bool, runWrite: bool)
    requires Inv(c, r) && r.dispatch.NotStarted? && RowsKeepUp(c, r)
    ensures RowsKeepUp(c, Start(c, r, stageWrite, runWrite))
  {
    hide InvWith, Settled, ValidPlan, ScanReady, Refines;
    FirstIsFresh(c, r);
    OrderIsDistinct(c, r);
    var s := c.order[0];
    StartStage(c.plans[s]);
    var (v, ready) := ScanReady(r.stages[s], c.plans[s].jobs);
    var r' := r.(stages := r.stages[s := v], dispatch := Sending(s, ready));
    assert Start(c, r, stageWrite, runWrite) == r';
    assert forall t :: t != s ==> Started(r', t) == Started(r, t);
  }

  lemma {:induction false} KeepsUpThroughout(c: Config, states: seq<Run>, steps: seq<Step>, i: nat)
    requires ValidConfig(c) && IsRun(c, states, steps) && i <= |steps|
    requires forall k :: 0 <= k < i ==> Recorded(c, steps[k])
    ensures RowsKeepUp(c, states[i])
  {
    hide ValidConfig, Inv, Apply, CanStep, Recorded;
    if i == 0 {
      FreshRowsKeepUp(c);
    } else {
      hide RowsKeepUp;
      KeepsUpThroughout(c, states, steps, i - 1);
      InvariantThroughout(c, states, steps, i - 1);
      StepKeepsUp(c, states[i - 1], steps[i - 1]);
    }
  }

  lemma FreshRowsKeepUp(c: Config)
    ensures RowsKeepUp(c, Init(c))
  {
    assert forall s :: !Started(Init(c), s);
  }

  /** With recorded failures, every stage that was handed over in a run that is live or a success has its row closed as
      success, and a success has closed them all. */
  lemma HandedOverRowsAreClosed(c: Config, states: seq<Run>, steps: seq<Step>, i: nat, s: Name)
    requires ValidConfig(c) && IsRun(c, states, steps) && i <= |steps| && s in c.plans
    requires forall k :: 0 <= k < i ==> Recorded(c, steps[k])
    ensures s in states[i].stageRows
    ensures states[i].runRow == Success ==> states[i].stageRows[s] == Success
    ensures states[i].live ==>
      forall j :: 0 <= j < |c.order| - 1 && c.order[j] == s && Started(states[i], c.order[j + 1]) ==>
      states[i].stageRows[s] == Success
    ensures states[i].live ==> states[i].stageRows[s] != Failed
  {
    hide InvWith, Settled, Apply, CanStep, Recorded, Started;
    InvariantThroughout(c, states, steps, i);
    KeepsUpThroughout(c, states, steps, i);
    StageRowLaw(c, states, steps, i);
    AdmittedThroughout(c, states, steps, i);
    var r := states[i];
    OrderIsDistinct(c, r);
    var j :| 0 <= j < |c.order| && c.order[j] == s;
    if r.runRow == Success && j + 1 < |c.order| {
      SuccessStartsAll(c, r, c.order[j + 1]);
      assert c.order[j + 1 - 1] == s;
    }
    forall k | 0 <= k < |c.order| - 1 && c.order[k] == s && Started(r, c.order[k + 1]) && r.live
      ensures r.stageRows[s] == Success
    {
      assert c.order[k + 1 - 1] == s;
    }
  }

  lemma SuccessStartsAll(c: Config, r: Run, s: Name)
    requires Inv(c, r) && Admitted(c, r) && r.runRow == Success && s in c.order
    ensures Started(r, s)
  {
    hide StagesOk, KeysOk, LogOk, OrderOk, RowsOk, Settled, Admitted;
    assert ValidConfig(c) && s in c.plans;
    var n := SomeJob(c, s);
    JobWasReported(c, r, JobKey(s, n));
    SentIsStarted(c, r, JobKey(s, n));
  }
}
