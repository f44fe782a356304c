/** The promises of a run, for every configuration of a runnable pipeline and every sequence of steps. */
module SchedulerTheorems {
  import opened Models
  import opened Stage
  import opened Scheduler
  import opened SchedulerInvariant

  /** The invariant holds in every state of every run. */
  lemma {:induction false} InvariantThroughout(c: Config, states: seq<Run>, steps: seq<Step>, i: nat)
    requires ValidConfig(c) && IsRun(c, states, steps) && i <= |steps|
    ensures Inv(c, states[i])
  {
    hide Inv, ValidConfig, Apply;
    if i == 0 {
      InitHolds(c);
    } else {
      InvariantThroughout(c, states, steps, i - 1);
      StepKeeps(c, states[i - 1], steps[i - 1]);
    }
  }

  /** Each (stage, job) is passed to enqueueJob at most once, whatever is duplicated, reordered or retried. */
  lemma EnqueuedAtMostOnce(c: Config, states: seq<Run>, steps: seq<Step>, i: nat, a: nat, b: nat)
    requires ValidConfig(c) && IsRun(c, states, steps) && i <= |steps|
    requires a < |states[i].log| && b < |states[i].log|
    requires states[i].log[a].Enqueued? && states[i].log[a] == states[i].log[b]
    ensures a == b
  {
    InvariantThroughout(c, states, steps, i);
    hide ValidConfig, IsRun, StagesOk, KeysOk, OrderOk, RowsOk, Settled, InOrder;
    assert LogOk(c, states[i]);
  }

  /** Execution order: at the moment a job is enqueued its needs and all earlier stages have been dealt with. */
  lemma EnqueuedInOrder(c: Config, states: seq<Run>, steps: seq<Step>, i: nat, k: nat)
    requires ValidConfig(c) && IsRun(c, states, steps) && i <= |steps|
    requires k < |states[i].log| && states[i].log[k].Enqueued?
    ensures InOrder(c, states[i].terminal, states[i].log[..k], states[i].log[k].key)
  {
    InvariantThroughout(c, states, steps, i);
    hide ValidConfig, IsRun, StagesOk, KeysOk, OrderOk, RowsOk, Settled, InOrder;
    assert LogOk(c, states[i]);
  }

  /** Nothing stands in the way of success: every job marked queued was or will be published, and no job needs one that
      was cut off as `terminal`. */
  ghost predicate Completable(c: Config, r: Run) {
    && r.lost == {}
    && forall key, n :: key in r.terminal && IsJob(c, JobKey(key.stage, n)) ==> key.job !in c.plans[key.stage].needs[n]
  }

  /** No stuck run: while the runtime is live, start dispatch is pending or a job message is in flight, unless a publish
      has failed or a disallowed failure of a needed job could not be recorded. */
  lemma NoStuckRun(c: Config, states: seq<Run>, steps: seq<Step>, i: nat)
    requires ValidConfig(c) && IsRun(c, states, steps) && i <= |steps|
    ensures states[i].live && Completable(c, states[i]) ==> !states[i].dispatch.Finished? || states[i].inflight != {}
  {
    hide ValidConfig, Inv, Completable;
    InvariantThroughout(c, states, steps, i);
    var r := states[i];
    if r.live && r.dispatch.Finished? && Completable(c, r) {
      LiveIsNotStuck(c, r);
    }
  }

  lemma LiveIsNotStuck(c: Config, r: Run)
    requires Inv(c, r) && r.live && r.dispatch.Finished? && Completable(c, r)
    ensures r.inflight != {}
  {
    hide InvWith, Settled;
    var key := OutstandingReport(c, r);
    StillInFlight(c, r, key);
  }

  /** Some message was sent whose report has not been accepted. */
  lemma OutstandingReport(c: Config, r: Run) returns (key: JobKey)
    requires Inv(c, r) && r.live && r.dispatch.Finished? && Completable(c, r)
    ensures key in r.sent && key !in r.accepted
  {
    hide StagesOk, KeysOk, LogOk, RowsOk, Settled, ValidPlan;
    var j := LastStarted(c, r, 0);
    NextStageAt(c.order, j);
    var s := c.order[j];
    var n;
    if Complete(c, r, s) {
      n := UnreportedJob(c, r, s);
    } else {
      n := UncompletedJob(c, r, s);
    }
    key := JobKey(s, n);
  }

  lemma {:induction false} LastStarted(c: Config, r: Run, i: nat) returns (j: nat)
    requires i < |c.order| && Started(r, c.order[i])
    ensures i <= j < |c.order| && Started(r, c.order[j]) && (j + 1 < |c.order| ==> !Started(r, c.order[j + 1]))
    decreases |c.order| - i
  {
    if i + 1 < |c.order| && Started(r, c.order[i + 1]) {
      j := LastStarted(c, r, i + 1);
    } else {
      j := i;
    }
  }

  lemma UnreportedJob(c: Config, r: Run, s: Name) returns (n: Name)
    requires Settled(c, r) && r.live && HandoverDue(c, r, s)
    ensures JobKey(s, n) in r.sent && JobKey(s, n) !in r.accepted
  {
    assert Unreported(r, s);
    n :| JobKey(s, n) in r.sent && JobKey(s, n) !in r.accepted;
  }

  lemma UncompletedJob(c: Config, r: Run, s: Name) returns (n: Name)
    requires Inv(c, r) && r.live && r.dispatch.Finished? && Completable(c, r)
    requires Started(r, s) && !Complete(c, r, s)
    ensures JobKey(s, n) in r.sent && JobKey(s, n) !in r.accepted && !IsCompleted(r, JobKey(s, n))
  {
    hide ValidPlan, Refines, LogOk, OrderOk, RowsOk;
    var v := r.stages[s];
    StartedRefines(c, r, s);
    CompleteMeansAll(c.plans[s], v, Released(r, s));
    NotBlocked(c, r, s);
    StageProgress(c.plans[s], v, Released(r, s));
    n :| n in v.queued && n !in v.completed;
    assert IsQueued(r, JobKey(s, n)) && !IsCompleted(r, JobKey(s, n));
  }

  lemma NotBlocked(c: Config, r: Run, s: Name)
    requires Completable(c, r) && s in c.plans && s in r.stages
    ensures Unblocked(c.plans[s], r.stages[s], Released(r, s))
  {
    forall n, m | IsJob(c, JobKey(s, n)) && m in c.plans[s].needs[n] && m in r.stages[s].completed
      ensures m in Released(r, s)
    {
      if JobKey(s, m) in r.terminal {
        assert false;
      }
    }
  }

  lemma StartedRefines(c: Config, r: Run, s: Name)
    requires InvWith(c, r, {}) && Started(r, s)
    ensures s in c.plans && ValidPlan(c.plans[s]) && Refines(c.plans[s], r.stages[s], Released(r, s))
  {
    hide ValidPlan, Refines, KeysOk, LogOk, OrderOk, RowsOk;
  }

  lemma StillInFlight(c: Config, r: Run, key: JobKey)
    requires InvWith(c, r, {}) && key in r.sent && key !in r.accepted
    ensures key in r.inflight
  {
    hide ValidConfig, StagesOk, LogOk, OrderOk, RowsOk;
  }

  /** The count of completed jobs is right in a started stage, and never in one that was not started. */
  lemma CountedIsComplete(c: Config, r: Run, s: Name)
    requires InvWith(c, r, {}) && s in r.stages && s in c.plans && IsStageComplete(c.plans[s], r.stages[s])
    ensures Complete(c, r, s)
  {
    hide KeysOk, LogOk, OrderOk, RowsOk;
    if r.stages[s] == Initial(c.plans[s]) {
      assert HasName(c.plans[s].jobs, c.plans[s].jobs[0].name);
    } else {
      CompleteMeansAll(c.plans[s], r.stages[s], Released(r, s));
    }
  }

  /** Start dispatch begins with exactly the jobs of the first stage that need nothing. */
  lemma DispatchStartsFirstStage(c: Config, states: seq<Run>, steps: seq<Step>, i: nat)
    requires ValidConfig(c) && IsRun(c, states, steps) && i < |steps| && steps[i].StartDispatch?
    ensures c.order[0] in c.plans
    ensures var d := states[i + 1].dispatch;
      && d.Sending? && d.stage == c.order[0]
      && Distinct(d.rest)
      && forall n :: n in d.rest <==> n in c.plans[c.order[0]].needs && c.plans[c.order[0]].needs[n] == []
  {
    hide ValidConfig, InvWith, Settled, Start;
    InvariantThroughout(c, states, steps, i);
    StartFromFresh(c, states[i], steps[i].stageWrite, steps[i].runWrite);
  }

  lemma StartFromFresh(c: Config, r: Run, stageWrite: bool, runWrite: bool)
    requires InvWith(c, r, {}) && r.dispatch.NotStarted?
    ensures c.order != [] && c.order[0] in c.plans
    ensures var d := Start(c, r, stageWrite, runWrite).dispatch;
      && d.Sending? && d.stage == c.order[0]
      && Distinct(d.rest)
      && forall n :: n in d.rest <==> n in c.plans[c.order[0]].needs && c.plans[c.order[0]].needs[n] == []
  {
    hide InvWith, ValidPlan, ScanReady, Refines;
    FirstIsFresh(c, r);
    var plan := c.plans[c.order[0]];
    StartStage(plan);
    var (v, ready) := ScanReady(Initial(plan), plan.jobs);
    var enabled := set n | n in ready;
    forall n ensures n in ready <==> n in plan.needs && plan.needs[n] == [] {
      assert n in ready <==> n in enabled;
      assert n in plan.needs && plan.needs[n] != [] ==> plan.needs[n][0] in plan.needs[n];
    }
  }

  /** A run row becomes success only if every job reported success or an allowed failure, or was cut off as `terminal`;
      it becomes failed only after a disallowed failure or a failed start dispatch. */
  lemma FinalStatusIsEarned(c: Config, states: seq<Run>, steps: seq<Step>, i: nat)
    requires ValidConfig(c) && IsRun(c, states, steps) && i <= |steps|
    ensures states[i].runRow == Success ==>
      forall key :: IsJob(c, key) ==> Good(c, states[i].log, key) || key in states[i].terminal
    ensures states[i].runRow == Failed ==>
      states[i].dispatchFailed || exists key :: key !in c.allow && Reported(key, false) in states[i].log
  {
    InvariantThroughout(c, states, steps, i);
    hide ValidConfig, IsRun, StagesOk, KeysOk, LogOk, OrderOk, Settled;
  }

  lemma StatusStep(c: Config, r: Run, step: Step)
    requires Inv(c, r) && CanStep(r, step) && r.runRow != Queued
    ensures Apply(c, r, step).runRow == r.runRow
  {
    hide ValidConfig, StagesOk, KeysOk, LogOk, OrderOk, Settled, Good, IsJob;
    match step
    case StartDispatch(stageWrite, runWrite) => ScanKeepsRunRow(c, r, 0, stageWrite);
    case SendNext(sendOk, runWrite) =>
    case Callback(key, success, f) =>
    case Ack(key) =>
  }

  lemma {:induction false} ScanKeepsRunRow(c: Config, r: Run, i: nat, stageWrite: bool)
    requires i <= |c.order|
    ensures FindReadyStage(c, r, i, stageWrite).0.runRow == r.runRow
    decreases |c.order| - i
  {
    if i < |c.order| {
      var s := c.order[i];
      if s !in r.stages || s !in c.plans {
        ScanKeepsRunRow(c, r, i + 1, stageWrite);
      } else {
        var (v, ready) := ScanReady(r.stages[s], c.plans[s].jobs);
        var r1 := r.(stages := r.stages[s := v]);
        ScanKeepsRunRow(c, r1, i + 1, stageWrite);
        ScanKeepsRunRow(c, r1.(stageRows := r1.stageRows[s := Success]), i + 1, stageWrite);
      }
    }
  }

  /** A terminal run status never changes again. */
  lemma {:induction false} FinalStatusIsStable(c: Config, states: seq<Run>, steps: seq<Step>, i: nat, j: nat)
    requires ValidConfig(c) && IsRun(c, states, steps) && i <= j <= |steps| && states[i].runRow != Queued
    ensures states[j].runRow == states[i].runRow
    decreases j
  {
    hide ValidConfig, Inv, Apply;
    if i < j {
      FinalStatusIsStable(c, states, steps, i, j - 1);
      InvariantThroughout(c, states, steps, j - 1);
      StatusStep(c, states[j - 1], steps[j - 1]);
    }
  }
}
