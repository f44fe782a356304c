/**
 * One pipeline run as a state machine: start dispatch, job-finished callbacks and acknowledgements, in any order, with
 * store writes and publishes that may fail.
 */
module Scheduler {
  import opened Models
  import opened Strings
  import opened Stage

  datatype JobKey = JobKey(stage: Name, job: Name)

  datatype Status = Queued | Success | Failed

  /** What a run is started from: pipeline name, stage order, stage graphs and the jobs that are allowed to fail. */
  datatype Config = Config(pipeline: Name, order: seq<Name>, plans: map<Name, StagePlan>, allow: set<JobKey>)

  /** Every callback for the job is refused, because one of the three names is blank. */
  predicate Refused(c: Config, key: JobKey) {
    Blank(c.pipeline) || Blank(key.stage) || Blank(key.job)
  }

  /** enqueueJob was called for a job, or a live runtime handled a finished callback for it. */
  datatype Event = Enqueued(key: JobKey) | Reported(key: JobKey, success: bool)

  /** Start dispatch takes the ready jobs in one go and then publishes them one by one. */
  datatype Dispatch = NotStarted | Sending(stage: Name, rest: seq<Name>) | Finished

  datatype Run = Run(
    // the orchestrator
    live: bool,                     // the runtime is still registered
    dispatch: Dispatch,
    stages: map<Name, StageView>,
    // the report store
    runRow: Status,
    stageRows: map<Name, Status>,
    jobRows: map<JobKey, Status>,
    // the broker and the workers
    sent: set<JobKey>,              // the broker confirmed the job message
    inflight: set<JobKey>,          // a copy of it is in the broker or in a worker's hands
    accepted: set<JobKey>,          // a finished callback for it returned no error
    // history
    log: seq<Event>,
    lost: set<JobKey>,              // marked queued, but the publish failed or was skipped after a failure
    terminal: set<JobKey>,          // counted as completed by markJobTerminal, without releasing dependents
    dispatchFailed: bool)

  /** Which of the external calls of one callback succeed; `sends` publishes succeed before one fails. */
  datatype Faults = Faults(
    jobWrite: bool, sends: nat, stageWrite: bool, runWrite: bool, nextSends: nat, nextStageWrite: bool)

  function Init(c: Config): Run {
    Run(true, NotStarted, map s | s in c.plans :: Initial(c.plans[s]),
        Queued, map s | s in c.plans :: Queued,
        map s, n | s in c.plans && n in c.plans[s].jobByName :: JobKey(s, n) := Queued, {}, {}, {}, [], {}, {}, false)
  }

  function KeysOf(stage: Name, names: seq<Name>): set<JobKey> {
    set n | n in names :: JobKey(stage, n)
  }

  function SendOk(r: Run, key: JobKey): Run {
    r.(sent := r.sent + {key}, inflight := r.inflight + {key}, log := r.log + [Enqueued(key)])
  }

  /** The publish of `key` failed: it and everything after it is not sent. */
  function SendFail(r: Run, key: JobKey, dropped: set<JobKey>): Run {
    r.(lost := r.lost + dropped, log := r.log + [Enqueued(key)])
  }

  /** enqueueReadyJobs: stops at the first publish that fails. */
  function EnqueueReady(r: Run, stage: Name, names: seq<Name>, sends: nat): (Run, bool)
    decreases names
  {
    if names == [] then (r, true)
    else if sends == 0 then (SendFail(r, JobKey(stage, names[0]), KeysOf(stage, names)), false)
    else EnqueueReady(SendOk(r, JobKey(stage, names[0])), stage, names[1..], sends - 1)
  }

  function NextStage(order: seq<Name>, current: Name): Option<Name> {
    if |order| < 2 then None
    else if order[0] == current then Some(order[1])
    else NextStage(order[1..], current)
  }

  /** A disallowed failure ends the run, if the stage and run rows can be written. */
  function FailRun(r: Run, key: JobKey, f: Faults): (Run, bool)
    requires key.stage in r.stages
  {
    var v := r.stages[key.stage];
    var r1 := r.(stages := r.stages[key.stage := MarkTerminal(v, key.job)],
                 terminal := if key.job in v.completed then r.terminal else r.terminal + {key});
    if !f.stageWrite then (r1, false) else
    var r2 := r1.(stageRows := r1.stageRows[key.stage := Failed]);
    if !f.runWrite then (r2, false) else
    (r2.(runRow := Failed, live := false), true)
  }

  /** A completed stage is closed; then the run ends or the next stage is started. */
  function Advance(c: Config, r: Run, stage: Name, f: Faults): (Run, bool) {
    if !f.stageWrite then (r, false) else
    var r1 := r.(stageRows := r.stageRows[stage := Success]);
    match NextStage(c.order, stage)
    case None =>
      if !f.runWrite then (r1, false) else (r1.(runRow := Success, live := false), true)
    case Some(next) =>
      if next !in r1.stages || next !in c.plans then (r1, true) else
      var (v, ready) := ScanReady(r1.stages[next], c.plans[next].jobs);
      var (r2, ok) := EnqueueReady(r1.(stages := r1.stages[next := v]), next, ready, f.nextSends);
      if !ok then (r2, false)
      else if !IsStageComplete(c.plans[next], v) then (r2, true)
      else if !f.nextStageWrite then (r2, false)
      else (r2.(stageRows := r2.stageRows[next := Success]), true)
  }

  /** A success or an allowed failure completes the job and publishes what it releases. */
  function CompleteJob(c: Config, r: Run, key: JobKey, f: Faults): (Run, bool)
    requires key.stage in r.stages && key.stage in c.plans
  {
    var (v, ready) := MarkSucceeded(c.plans[key.stage], r.stages[key.stage], key.job);
    var names := EntryNames(c.plans[key.stage], ready);
    var (r1, ok) := EnqueueReady(r.(stages := r.stages[key.stage := v]), key.stage, names, f.sends);
    if !ok then (r1, false)
    else if !IsStageComplete(c.plans[key.stage], v) then (r1, true)
    else Advance(c, r1, key.stage, f)
  }

  function JobStatus(success: bool): Status {
    if success then Success else Failed
  }

  /** HandleJobFinished, with the verdict whether it returned without error. */
  function JobFinished(c: Config, r: Run, key: JobKey, success: bool, f: Faults): (Run, bool) {
    if Refused(c, key) || !f.jobWrite then (r, false) else
    var r0 := r.(jobRows := if key in r.jobRows then r.jobRows[key := JobStatus(success)] else r.jobRows);
    if !r0.live || key.stage !in r0.stages || key.stage !in c.plans then (r0, true) else
    var r1 := r0.(log := r0.log + [Reported(key, success)]);
    if !success && key !in c.allow then FailRun(r1, key, f) else CompleteJob(c, r1, key, f)
  }

  /** dispatchPipelineStartJobs after an error: the run row is written if it can be, the runtime goes in any case. */
  function FailDispatch(r: Run, runWrite: bool): Run {
    r.(dispatch := Finished, dispatchFailed := true, live := false, runRow := if runWrite then Failed else r.runRow)
  }

  datatype Scan = NoneReady | Ready(stage: Name, names: seq<Name>) | WriteFailed

  /** enqueueFirstReadyStageJobs up to its first publish: stages from the i-th on. */
  function FindReadyStage(c: Config, r: Run, i: nat, stageWrite: bool): (Run, Scan)
    requires i <= |c.order|
    decreases |c.order| - i
  {
    if i == |c.order| then (r, NoneReady) else
    var s := c.order[i];
    if s !in r.stages || s !in c.plans then FindReadyStage(c, r, i + 1, stageWrite) else
    var (v, ready) := ScanReady(r.stages[s], c.plans[s].jobs);
    var r1 := r.(stages := r.stages[s := v]);
    if ready != [] then (r1, Ready(s, ready))
    else if c.plans[s].jobs != [] then FindReadyStage(c, r1, i + 1, stageWrite)
    else if !stageWrite then (r1, WriteFailed)
    else FindReadyStage(c, r1.(stageRows := r1.stageRows[s := Success]), i + 1, stageWrite)
  }

  function Start(c: Config, r: Run, stageWrite: bool, runWrite: bool): Run {
    var (r1, scan) := FindReadyStage(c, r, 0, stageWrite);
    match scan
    case NoneReady => r1.(dispatch := Finished)
    case Ready(s, names) => r1.(dispatch := Sending(s, names))
    case WriteFailed => FailDispatch(r1, runWrite)
  }

  /** One publish of start dispatch. */
  function Send(r: Run, sendOk: bool, runWrite: bool): Run
    requires r.dispatch.Sending? && r.dispatch.rest != []
  {
    var s, rest := r.dispatch.stage, r.dispatch.rest;
    if sendOk then
      SendOk(r.(dispatch := if |rest| == 1 then Finished else Sending(s, rest[1..])), JobKey(s, rest[0]))
    else
      FailDispatch(SendFail(r, JobKey(s, rest[0]), KeysOf(s, rest)), runWrite)
  }

  datatype Step =
    | StartDispatch(stageWrite: bool, runWrite: bool)
    | SendNext(sendOk: bool, runWrite: bool)
    | Callback(key: JobKey, success: bool, faults: Faults)
    | Ack(key: JobKey)

  /** Callbacks come only for messages that were sent, any number of times; only an accepted report lets a message
      go. */
  predicate CanStep(r: Run, step: Step) {
    match step
    case StartDispatch(_, _) => r.dispatch.NotStarted?
    case SendNext(_, _) => r.dispatch.Sending? && r.dispatch.rest != []
    case Callback(key, _, _) => key in r.sent
    case Ack(key) => key in r.inflight && key in r.accepted
  }

  function Apply(c: Config, r: Run, step: Step): Run
    requires CanStep(r, step)
  {
    match step
    case StartDispatch(stageWrite, runWrite) => Start(c, r, stageWrite, runWrite)
    case SendNext(sendOk, runWrite) => Send(r, sendOk, runWrite)
    case Callback(key, success, f) =>
      var (r1, ok) := JobFinished(c, r, key, success, f);
      if ok then r1.(accepted := r1.accepted + {key}) else r1
    case Ack(key) => r.(inflight := r.inflight - {key})
  }

  /** The states of a run: `states[0]` is the initial one and each step leads to the next. */
  ghost predicate IsRun(c: Config, states: seq<Run>, steps: seq<Step>) {
    && |states| == |steps| + 1
    && states[0] == Init(c)
    && forall i {:trigger steps[i]} :: 0 <= i < |steps| ==>
      CanStep(states[i], steps[i]) && states[i + 1] == Apply(c, states[i], steps[i])
  }
}
