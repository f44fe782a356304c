/** What the store faults of a run can and cannot spoil. */
module SchedulerFaults {
  import opened Models
  import opened Stage
  import opened Scheduler
  import opened SchedulerInvariant
  import opened SchedulerTheorems

  /** If the step handles a disallowed failure, both rows that record it can be written. */
  ghost predicate Recorded(c: Config, step: Step) {
    step.Callback? && !step.success && step.key !in c.allow && step.faults.jobWrite && !Refused(c, step.key) ==>
      step.faults.stageWrite && step.faults.runWrite
  }

  /** A job cut off as terminal has ended the run as failed, and every enqueue was in order without exception. */
  ghost predicate Exact(c: Config, r: Run) {
    && (r.terminal != {} ==> !r.live && r.runRow == Failed)
    && StrictOrder(c, r)
  }

  ghost predicate StrictOrder(c: Config, r: Run) {
    forall k :: 0 <= k < |r.log| && r.log[k].Enqueued? ==> InOrder(c, {}, r.log[..k], r.log[k].key)
  }

  lemma {:induction false} EnqueueFrame(r: Run, stage: Name, names: seq<Name>, sends: nat)
    ensures EnqueueReady(r, stage, names, sends).0.terminal == r.terminal
    decreases names
  {
    if names != [] && sends > 0 {
      EnqueueFrame(SendOk(r, JobKey(stage, names[0])), stage, names[1..], sends - 1);
    }
  }

  lemma CompleteJobFrame(c: Config, r: Run, key: JobKey, f: Faults)
    requires key.stage in r.stages && key.stage in c.plans
    ensures CompleteJob(c, r, key, f).0.terminal == r.terminal
  {
    var (v, ready) := MarkSucceeded(c.plans[key.stage], r.stages[key.stage], key.job);
    var r1 := r.(stages := r.stages[key.stage := v]);
    var names := EntryNames(c.plans[key.stage], ready);
    EnqueueFrame(r1, key.stage, names, f.sends);
    var (r2, ok) := EnqueueReady(r1, key.stage, names, f.sends);
    var r3 := r2.(stageRows := r2.stageRows[key.stage := Success]);
    match NextStage(c.order, key.stage)
    case None =>
    case Some(next) =>
      if next in r3.stages && next in c.plans {
        var (w, more) := ScanReady(r3.stages[next], c.plans[next].jobs);
        EnqueueFrame(r3.(stages := r3.stages[next := w]), next, more, f.nextSends);
      }
  }

  lemma StrictFromLog(c: Config, r: Run)
    requires LogOk(c, r) && r.terminal == {}
    ensures StrictOrder(c, r)
  {
  }

  lemma StrictAfterReport(c: Config, r: Run, r': Run, e: Event)
    requires StrictOrder(c, r) && e.Reported? && r'.log == r.log + [e]
    ensures StrictOrder(c, r')
  {
    forall k | 0 <= k < |r'.log| && r'.log[k].Enqueued? ensures InOrder(c, {}, r'.log[..k], r'.log[k].key) {
      assert r'.log[..k] == r.log[..k];
    }
  }

  /** A job of the first stage has no earlier stage to wait for. */
  lemma StrictAfterFirstStage(c: Config, r: Run, r': Run, key: JobKey)
    requires StrictOrder(c, r) && Distinct(c.order) && c.order != [] && key.stage == c.order[0]
    requires r'.log == r.log + [Enqueued(key)] && InOrder(c, r.terminal, r.log, key)
    ensures StrictOrder(c, r')
  {
    forall k | 0 <= k < |r'.log| && r'.log[k].Enqueued? ensures InOrder(c, {}, r'.log[..k], r'.log[k].key) {
      assert r'.log[..k] == r.log[..k];
      assert r.log[..|r.log|] == r.log;
    }
  }

  lemma SendIsStrict(c: Config, r: Run, sendOk: bool, runWrite: bool)
    requires InvWith(c, r, {}) && StrictOrder(c, r) && r.dispatch.Sending? && r.dispatch.rest != []
    ensures StrictOrder(c, Send(r, sendOk, runWrite))
  {
    var key := JobKey(r.dispatch.stage, r.dispatch.rest[0]);
    assert IsQueued(r, key) by {
      assert key in Unsent(r);
      assert KeysOk(r, {});
    }
    assert Distinct(c.order) && key.stage == c.order[0];
    QueuedInOrder(c, r, {}, key);
    hide InvWith, InOrder;
    StrictAfterFirstStage(c, r, Send(r, sendOk, runWrite), key);
  }

  lemma ExactStep(c: Config, r: Run, step: Step)
    requires Inv(c, r) && Exact(c, r) && CanStep(r, step) && Recorded(c, step) && Inv(c, Apply(c, r, step))
    ensures Exact(c, Apply(c, r, step))
  {
    hide InvWith, Settled, LogOk, Start, Send, JobFinished, StrictOrder;
    match step
    case StartDispatch(stageWrite, runWrite) => StartIsExact(c, r, stageWrite, runWrite);
    case SendNext(sendOk, runWrite) => SendIsExact(c, r, sendOk, runWrite);
    case Callback(key, success, f) =>
      CallbackFacts(c, r, key, Apply(c, r, step));
      CallbackIsExact(c, r, key, success, f, Apply(c, r, step));
    case Ack(key) => SameLogIsStrict(c, r, Apply(c, r, step));
  }

  lemma SameLogIsStrict(c: Config, r: Run, r': Run)
    requires StrictOrder(c, r) && r'.log == r.log
    ensures StrictOrder(c, r')
  {
  }

  lemma StartIsExact(c: Config, r: Run, stageWrite: bool, runWrite: bool)
    requires Exact(c, r)
    ensures Exact(c, Start(c, r, stageWrite, runWrite))
  {
    hide InOrder;
    StartFrame(c, r, 0, stageWrite);
  }

  lemma SendIsExact(c: Config, r: Run, sendOk: bool, runWrite: bool)
    requires Inv(c, r) && Exact(c, r) && r.dispatch.Sending? && r.dispatch.rest != []
    ensures Exact(c, Send(r, sendOk, runWrite))
  {
    hide InvWith, Settled, StrictOrder;
    SendIsStrict(c, r, sendOk, runWrite);
    RowBeforeSend(c, r);
  }

  lemma RowBeforeSend(c: Config, r: Run)
    requires InvWith(c, r, {}) && r.dispatch.Sending?
    ensures r.runRow != Success
  {
  }

  lemma {:induction false} StartFrame(c: Config, r: Run, i: nat, stageWrite: bool)
    requires i <= |c.order|
    ensures var r' := FindReadyStage(c, r, i, stageWrite).0;
      && r'.terminal == r.terminal && r'.log == r.log && r'.live == r.live && r'.runRow == r.runRow
      && r'.lost == r.lost && r'.accepted == r.accepted && r'.sent == r.sent && r'.inflight == r.inflight
    decreases |c.order| - i
  {
    if i < |c.order| {
      var s := c.order[i];
      if s !in r.stages || s !in c.plans {
        StartFrame(c, r, i + 1, stageWrite);
      } else {
        var (v, ready) := ScanReady(r.stages[s], c.plans[s].jobs);
        var r1 := r.(stages := r.stages[s := v]);
        StartFrame(c, r1, i + 1, stageWrite);
        StartFrame(c, r1.(stageRows := r1.stageRows[s := Success]), i + 1, stageWrite);
      }
    }
  }

  lemma CallbackIsExact(c: Config, r: Run, key: JobKey, success: bool, f: Faults, r': Run)
    requires key.stage in r.stages && key.stage in c.plans && key in r.sent
    requires Exact(c, r) && Recorded(c, Callback(key, success, f))
    requires r' == Apply(c, r, Callback(key, success, f)) && LogOk(c, r')
    ensures Exact(c, r')
  {
    hide LogOk, StrictOrder, FailRun, CompleteJob;
    var rows := if key in r.jobRows then r.jobRows[key := JobStatus(success)] else r.jobRows;
    var r1 := r.(jobRows := rows, log := r.log + [Reported(key, success)]);
    if Refused(c, key) || !f.jobWrite || !r.live {
      SameLogIsStrict(c, r, r');
    } else if !success && key !in c.allow {
      FailRunFrame(r1, key, f);
      StrictAfterReport(c, r, r', Reported(key, success));
    } else {
      CompleteJobFrame(c, r1, key, f);
      StrictFromLog(c, r');
    }
  }

  lemma FailRunFrame(r: Run, key: JobKey, f: Faults)
    requires key.stage in r.stages
    ensures var (r', ok) := FailRun(r, key, f);
      r'.log == r.log && (f.stageWrite && f.runWrite ==> !r'.live && r'.runRow == Failed)
  {
  }

  lemma CallbackFacts(c: Config, r: Run, key: JobKey, r': Run)
    requires InvWith(c, r, {}) && InvWith(c, r', {}) && key in r.sent
    ensures key.stage in r.stages && key.stage in c.plans && LogOk(c, r')
  {
    hide LogOk;
    SentIsStarted(c, r, key);
  }

  /** If every disallowed failure is recorded, the exceptions of the theorems about order, status and progress are
      gone. */
  lemma {:induction false} RecordedRunsAreExact(c: Config, states: seq<Run>, steps: seq<Step>, i: nat)
    requires ValidConfig(c) && IsRun(c, states, steps) && i <= |steps|
    requires forall k :: 0 <= k < i ==> Recorded(c, steps[k])
    ensures StrictOrder(c, states[i])
    ensures states[i].runRow == Success ==> forall key :: IsJob(c, key) ==> Good(c, states[i].log, key)
    ensures states[i].live && states[i].dispatch.Finished? && states[i].lost == {} ==> states[i].inflight != {}
    ensures Exact(c, states[i])
  {
    hide ValidConfig, Inv, Apply, InOrder, Good;
    InvariantThroughout(c, states, steps, i);
    FinalStatusIsEarned(c, states, steps, i);
    NoStuckRun(c, states, steps, i);
    if i > 0 {
      RecordedRunsAreExact(c, states, steps, i - 1);
      InvariantThroughout(c, states, steps, i - 1);
      ExactStep(c, states[i - 1], steps[i - 1]);
    } else {
      InitIsExact(c);
    }
  }

  lemma InitIsExact(c: Config)
    ensures Exact(c, Init(c))
  {
  }

  /* A small pipeline for concrete cases. */

  /** Stage `s` with jobs `a` and `b`, where `b` needs `a` if `chained`. Neither may fail. */
  function TwoJobs(p: Name, s: Name, a: Name, b: Name, chained: bool): Config {
    Config(p, [s], map[s := TwoJobPlan(s, a, b, chained)], {})
  }

  function TwoJobPlan(s: Name, a: Name, b: Name, chained: bool): StagePlan {
    var ea, eb := JobExecutionPlan(a, "", []), JobExecutionPlan(b, "", []);
    StagePlan(s, [ea, eb],
      map[a := [], b := if chained then [a] else []],
      if chained then map[a := [b]] else map[],
      map[a := 0, b := if chained then 1 else 0],
      map[a := ea, b := eb])
  }

  lemma TwoJobsIsValid(p: Name, s: Name, a: Name, b: Name, chained: bool)
    requires a != b
    ensures ValidConfig(TwoJobs(p, s, a, b, chained))
  {
    hide ValidPlan, TwoJobPlan;
    TwoJobPlanIsValid(s, a, b, chained);
  }

  lemma TwoJobPlanIsValid(s: Name, a: Name, b: Name, chained: bool)
    requires a != b
    ensures ValidPlan(TwoJobPlan(s, a, b, chained))
  {
    hide Listed, NeedsEarlier, HasName;
    var plan := TwoJobPlan(s, a, b, chained);
    forall n ensures HasName(plan.jobs, n) <==> n in plan.needs { TwoNames(plan.jobs, n); }
    forall i | 0 <= i < |plan.jobs| ensures NeedsEarlier(plan, i) { TwoNeeds(s, a, b, chained, i); }
    forall n, d ensures Listed(plan, n, d) == if d in plan.needs then multiset(plan.needs[d])[n] else 0 {
      TwoListings(s, a, b, chained, n, d);
    }
  }

  lemma TwoNames(jobs: seq<JobExecutionPlan>, n: Name)
    requires |jobs| == 2
    ensures HasName(jobs, n) <==> n == jobs[0].name || n == jobs[1].name
  {
  }

  lemma TwoNeeds(s: Name, a: Name, b: Name, chained: bool, i: int)
    requires a != b && 0 <= i < 2
    ensures NeedsEarlier(TwoJobPlan(s, a, b, chained), i)
  {
    var plan := TwoJobPlan(s, a, b, chained);
    assert plan.jobs[..1][0].name == a;
  }

  lemma TwoListings(s: Name, a: Name, b: Name, chained: bool, n: Name, d: Name)
    requires a != b
    ensures var plan := TwoJobPlan(s, a, b, chained);
      Listed(plan, n, d) == if d in plan.needs then multiset(plan.needs[d])[n] else 0
  {
  }

  lemma ExtendRun(c: Config, states: seq<Run>, steps: seq<Step>, step: Step)
    returns (states': seq<Run>, steps': seq<Step>)
    requires IsRun(c, states, steps) && |states| == |steps| + 1 && CanStep(states[|steps|], step)
    ensures IsRun(c, states', steps') && |states'| == |steps'| + 1
    ensures states'[|steps'|] == Apply(c, states[|steps|], step)
  {
    hide Apply, CanStep, Init;
    states', steps' := states + [Apply(c, states[|steps|], step)], steps + [step];
  }
}
