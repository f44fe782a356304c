/** Exactly when a live run can be left with nothing in flight, although its workers report nothing but success and its
    callbacks return no error any more; and exactly which pipelines have such runs. */
module Stranded {
  import opened Models
  import opened Strings
  import opened Stage
  import opened Scheduler
  import opened SchedulerInvariant
  import opened SchedulerTheorems
  import opened SchedulerFaults
  import opened Progress
  import opened Unearned

  /** A success whose callback returns no error, or an acknowledgement. */
  ghost predicate QuietStep(c: Config, r: Run, step: Step) {
    && CanStep(r, step)
    && (step.Ack? || (step.Callback? && step.success && JobFinished(c, r, step.key, true, step.faults).1))
  }

  ghost predicate LeadsQuietly(c: Config, r: Run, steps: seq<Step>, r': Run)
    decreases steps
  {
    if steps == [] then r == r'
    else QuietStep(c, r, steps[0]) && LeadsQuietly(c, Apply(c, r, steps[0]), steps[1..], r')
  }

  /** Nothing that matters for the outcome is lost or cut off. */
  ghost predicate SameObstacles(r: Run, r': Run) {
    r'.lost == r.lost && r'.terminal == r.terminal && r'.dispatch == r.dispatch && (r'.live ==> r.live)
  }

  lemma {:induction false} EnqueueOk(r: Run, stage: Name, names: seq<Name>, sends: nat)
    ensures var (r', ok) := EnqueueReady(r, stage, names, sends);
      && r'.dispatch == r.dispatch && r'.live == r.live && r'.terminal == r.terminal
      && (if ok then r'.lost == r.lost else r'.lost != {})
      && (sends == 0 && ok ==> r' == r)
    decreases names
  {
    if names != [] {
      if sends == 0 {
        assert JobKey(stage, names[0]) in KeysOf(stage, names);
      } else {
        EnqueueOk(SendOk(r, JobKey(stage, names[0])), stage, names[1..], sends - 1);
      }
    }
  }

  lemma AdvanceOk(c: Config, r: Run, stage: Name, f: Faults)
    ensures var (r', ok) := Advance(c, r, stage, f);
      && (ok ==> SameObstacles(r, r'))
      && (f.stageWrite && f.runWrite && f.nextStageWrite && f.nextSends == 0 ==>
            && r'.terminal == r.terminal && r'.dispatch == r.dispatch
            && (if ok then r'.sent == r.sent else r'.lost != {} && r'.live == r.live)
            && (r.live && !r'.live ==> r'.runRow == Success))
  {
    hide ScanReady;
    var r1 := r.(stageRows := r.stageRows[stage := Success]);
    match NextStage(c.order, stage)
    case None =>
    case Some(next) =>
      if next in r1.stages && next in c.plans {
        var (v, ready) := ScanReady(r1.stages[next], c.plans[next].jobs);
        EnqueueOk(r1.(stages := r1.stages[next := v]), next, ready, f.nextSends);
      }
  }

  lemma CompleteJobOk(c: Config, r: Run, key: JobKey, f: Faults)
    requires key.stage in r.stages && key.stage in c.plans
    ensures var (r', ok) := CompleteJob(c, r, key, f);
      && (ok ==> SameObstacles(r, r'))
      && (f == NoSends() ==>
            && r'.terminal == r.terminal && r'.dispatch == r.dispatch
            && (if ok then r'.sent == r.sent else r'.lost != {} && r'.live == r.live)
            && (r.live && !r'.live ==> r'.runRow == Success))
  {
    hide MarkSucceeded, Advance, EnqueueReady;
    var (v, ready) := MarkSucceeded(c.plans[key.stage], r.stages[key.stage], key.job);
    var names := EntryNames(c.plans[key.stage], ready);
    var r1 := r.(stages := r.stages[key.stage := v]);
    EnqueueOk(r1, key.stage, names, f.sends);
    AdvanceOk(c, EnqueueReady(r1, key.stage, names, f.sends).0, key.stage, f);
  }

  /** Every write succeeds and every publish fails. */
  function NoSends(): Faults {
    Faults(true, 0, true, true, 0, true)
  }

  lemma QuietKeeps(c: Config, r: Run, step: Step)
    requires Inv(c, r) && QuietStep(c, r, step)
    ensures Inv(c, Apply(c, r, step)) && SameObstacles(r, Apply(c, r, step))
  {
    hide InvWith, Settled, CompleteJob, FailRun;
    StepKeeps(c, r, step);
    if step.Callback? && r.live && step.key.stage in r.stages && step.key.stage in c.plans {
      var key := step.key;
      var rows := if key in r.jobRows then r.jobRows[key := JobStatus(true)] else r.jobRows;
      CompleteJobOk(c, r.(jobRows := rows, log := r.log + [Reported(key, true)]), key, step.faults);
    }
  }

  /** A completable run is never stranded this way. */
  lemma {:induction false} CompletableIsNotStranded(c: Config, r: Run, steps: seq<Step>, r': Run)
    requires Inv(c, r) && LeadsQuietly(c, r, steps, r') && r'.live && r.dispatch.Finished? && Completable(c, r)
    ensures r'.inflight != {}
    decreases steps
  {
    hide Inv, Apply, CanStep, JobFinished;
    if steps == [] {
      LiveIsNotStuck(c, r);
    } else {
      QuietKeeps(c, r, steps[0]);
      CompletableIsNotStranded(c, Apply(c, r, steps[0]), steps[1..], r');
    }
  }

  lemma QuietFirst(c: Config, r: Run, step: Step, steps: seq<Step>, r': Run)
    requires QuietStep(c, r, step) && LeadsQuietly(c, Apply(c, r, step), steps, r')
    ensures LeadsQuietly(c, r, [step] + steps, r')
  {
    hide Apply, QuietStep;
    assert ([step] + steps)[1..] == steps;
  }

  /** Any other run is: report what was sent, then let it be acknowledged. */
  lemma {:induction false} Drain(c: Config, r: Run) returns (steps: seq<Step>, r': Run)
    requires Inv(c, r) && Admitted(c, r) && r.live && r.dispatch.Finished? && !Completable(c, r) && Addressable(c)
    ensures LeadsQuietly(c, r, steps, r') && r'.live && r'.inflight == {} && SameObstacles(r, r')
    decreases Jobs(c) - r.accepted, r.inflight
  {
    hide Inv, Apply, CanStep, JobFinished, Admitted, Addressable, Jobs, Completable;
    var step;
    if key :| key in r.sent && key !in r.accepted {
      step := DrainReport(c, r, key);
    } else if key :| key in r.inflight {
      step := DrainAck(c, r, key);
    } else {
      return [], r;
    }
    var rest;
    rest, r' := Drain(c, Apply(c, r, step));
    QuietFirst(c, r, step, rest, r');
    steps := [step] + rest;
  }

  lemma DrainReport(c: Config, r: Run, key: JobKey) returns (step: Step)
    requires Inv(c, r) && Admitted(c, r) && r.live && r.dispatch.Finished? && !Completable(c, r) && Addressable(c)
    requires key in r.sent && key !in r.accepted
    ensures QuietStep(c, r, step)
    ensures var r' := Apply(c, r, step);
      && Inv(c, r') && Admitted(c, r') && r'.live && SameObstacles(r, r') && !Completable(c, r')
      && Jobs(c) - r'.accepted < Jobs(c) - r.accepted
  {
    hide InvWith, Settled, Apply, JobFinished, Admitted, Jobs, Onward, Spares, HandoverDue;
    SentIsJob(c, r, key);
    var f := ReportSucceeds(c, r, key, {});
    step := Callback(key, true, f);
    var r' := Apply(c, r, step);
    StepPersists(c, r, step);
    if !r'.live {
      SuccessIsCompletable(c, r');
      assert false;
    }
    assert key in Jobs(c) - r.accepted;
  }

  lemma DrainAck(c: Config, r: Run, key: JobKey) returns (step: Step)
    requires Inv(c, r) && Admitted(c, r) && !Completable(c, r)
    requires key in r.inflight && forall other :: other in r.sent ==> other in r.accepted
    ensures QuietStep(c, r, step)
    ensures var r' := Apply(c, r, step);
      && Inv(c, r') && Admitted(c, r') && r'.live == r.live && SameObstacles(r, r') && !Completable(c, r')
      && r'.accepted == r.accepted && r'.inflight < r.inflight
  {
    hide InvWith, Settled;
    InFlightIsSent(c, r);
    step := Ack(key);
    StepKeeps(c, r, step);
  }

  lemma InFlightIsSent(c: Config, r: Run)
    requires InvWith(c, r, {})
    ensures r.inflight <= r.sent
  {
  }

  /** From a live state with start dispatch over, successful reports and acknowledgements alone can leave nothing in
      flight exactly when the run cannot be completed. */
  lemma StuckIsReachableIff(c: Config, states: seq<Run>, steps: seq<Step>, i: nat)
    requires ValidConfig(c) && Addressable(c) && IsRun(c, states, steps) && i <= |steps|
    requires states[i].live && states[i].dispatch.Finished?
    ensures (exists more, r :: LeadsQuietly(c, states[i], more, r) && r.live && r.inflight == {}) <==>
      !Completable(c, states[i])
  {
    hide Inv, ValidConfig, Completable, LeadsQuietly, Addressable, Admitted, Apply, CanStep;
    InvariantThroughout(c, states, steps, i);
    AdmittedThroughout(c, states, steps, i);
    if !Completable(c, states[i]) {
      var more, r := Drain(c, states[i]);
    }
    if more, r :| LeadsQuietly(c, states[i], more, r) && r.live && r.inflight == {} {
      if Completable(c, states[i]) {
        CompletableIsNotStranded(c, states[i], more, r);
      }
    }
  }

  /* Which pipelines have runs that are stranded. */

  ghost predicate Stuck(r: Run) {
    r.live && r.dispatch.Finished? && r.inflight == {}
  }

  /** Start dispatch does not publish it. */
  ghost predicate IsLater(c: Config, key: JobKey) {
    IsJob(c, key) && c.order != [] && (key.stage != c.order[0] || c.plans[key.stage].needs[key.job] != [])
  }

  /** What a live run has lost was to be published by a callback. */
  ghost predicate LosesLater(c: Config, r: Run) {
    r.live ==> forall key :: key in r.lost ==> IsLater(c, key)
  }

  lemma {:induction false} EnqueueLoses(r: Run, stage: Name, names: seq<Name>, sends: nat)
    ensures EnqueueReady(r, stage, names, sends).0.lost <= r.lost + KeysOf(stage, names)
    decreases names
  {
    if names != [] && sends > 0 {
      EnqueueLoses(SendOk(r, JobKey(stage, names[0])), stage, names[1..], sends - 1);
      assert KeysOf(stage, names[1..]) <= KeysOf(stage, names) by { assert names == [names[0]] + names[1..]; }
    }
  }

  /** A job that a completion releases has needs. */
  lemma ReleasedIsLater(c: Config, r: Run, key: JobKey)
    requires InvWith(c, r, {}) && key in r.sent
    ensures key.stage in r.stages && key.stage in c.plans
    ensures var ready := MarkSucceeded(c.plans[key.stage], r.stages[key.stage], key.job).1;
      forall other :: other in KeysOf(key.stage, ready) ==> IsLater(c, other)
  {
    hide ValidConfig, StagesOk, KeysOk, LogOk, RowsOk, ValidPlan;
    SentIsStarted(c, r, key);
    var plan, v, released := c.plans[key.stage], r.stages[key.stage], Released(r, key.stage);
    var (w, ready) := MarkSucceeded(plan, v, key.job);
    if key.job !in v.completed {
      hide MarkSucceeded;
      SuccessRefines(plan, v, released, key.job);
      var names := set n | n in ready;
      forall n | n in ready ensures IsLater(c, JobKey(key.stage, n)) {
        assert n in names && n in w.queued && n !in v.queued;
        assert n in Enabled(plan, released + {key.job}) && n !in Enabled(plan, released);
      }
    }
  }

  lemma ScannedIsLater(c: Config, r: Run, i: nat)
    requires InvWith(c, r, {}) && i + 1 < |c.order| && Complete(c, r, c.order[i])
    ensures c.order[i + 1] in r.stages && c.order[i + 1] in c.plans
    ensures var t := c.order[i + 1];
      forall other :: other in KeysOf(t, ScanReady(r.stages[t], c.plans[t].jobs).1) ==> IsLater(c, other)
  {
    hide InvWith;
    StartNextKeeps(c, r, i);
    var t := c.order[i + 1];
    var (v, ready) := ScanReady(r.stages[t], c.plans[t].jobs);
    var r' := r.(stages := r.stages[t := v]);
    forall other | other in KeysOf(t, ready) ensures IsLater(c, other) {
      ExtraIsJob(c, r', KeysOf(t, ready), other);
      FirstIsAnother(c, r, i);
    }
  }

  lemma ExtraIsJob(c: Config, r: Run, extra: set<JobKey>, key: JobKey)
    requires InvWith(c, r, extra) && key in extra
    ensures IsJob(c, key)
  {
    hide LogOk, OrderOk, RowsOk, ValidPlan;
    assert IsQueued(r, key);
  }

  lemma FirstIsAnother(c: Config, r: Run, i: nat)
    requires InvWith(c, r, {}) && i + 1 < |c.order|
    ensures c.order[i + 1] != c.order[0]
  {
    hide StagesOk, KeysOk, LogOk, OrderOk, RowsOk;
  }

  lemma AdvanceLoses(c: Config, r: Run, s: Name, f: Faults)
    requires InvWith(c, r, {}) && Complete(c, r, s)
    ensures forall key :: key in Advance(c, r, s, f).0.lost ==> key in r.lost || IsLater(c, key)
  {
    hide InvWith, ScanReady, EnqueueReady, IsLater;
    var i := PositionOf(c, r, s);
    NextStageAt(c.order, i);
    var r1 := r.(stageRows := r.stageRows[s := Success]);
    if i + 1 < |c.order| {
      ScannedIsLater(c, r, i);
      var t := c.order[i + 1];
      var (v, ready) := ScanReady(r.stages[t], c.plans[t].jobs);
      EnqueueLoses(r1.(stages := r1.stages[t := v]), t, ready, f.nextSends);
    }
  }

  lemma CompleteJobLoses(c: Config, r: Run, key: JobKey, f: Faults)
    requires InvWith(c, r, {}) && key in r.sent && Good(c, r.log, key)
    ensures key.stage in r.stages && key.stage in c.plans
    ensures forall other :: other in CompleteJob(c, r, key, f).0.lost ==> other in r.lost || IsLater(c, other)
  {
    hide InvWith, MarkSucceeded, EnqueueReady, Advance, IsLater, Good, IsStageComplete;
    SuccessKeeps(c, r, key);
    ReadyHasEntries(c, r, key);
    ReleasedIsLater(c, r, key);
    var s := key.stage;
    var (v, ready) := MarkSucceeded(c.plans[s], r.stages[s], key.job);
    var r1 := r.(stages := r.stages[s := v]);
    EnqueueLoses(r1, s, ready, f.sends);
    EnqueueKeeps(c, r1, s, ready, f.sends);
    var r2 := EnqueueReady(r1, s, ready, f.sends).0;
    if IsStageComplete(c.plans[s], v) {
      CountedIsComplete(c, r2, s);
      AdvanceLoses(c, r2, s, f);
    }
  }

  lemma CallbackLoses(c: Config, r: Run, key: JobKey, success: bool, f: Faults)
    requires InvWith(c, r, {}) && LosesLater(c, r) && key in r.sent
    ensures LosesLater(c, JobFinished(c, r, key, success, f).0)
  {
    hide InvWith, CompleteJob, IsLater;
    var rows := if key in r.jobRows then r.jobRows[key := JobStatus(success)] else r.jobRows;
    var r1 := r.(jobRows := rows, log := r.log + [Reported(key, success)]);
    if r.live && (success || key in c.allow) {
      ReportedKeeps(c, r, r1, key, success);
      CompleteJobLoses(c, r1, key, f);
    }
  }

  lemma StepLoses(c: Config, r: Run, step: Step)
    requires Inv(c, r) && LosesLater(c, r) && CanStep(r, step)
    ensures LosesLater(c, Apply(c, r, step))
  {
    hide InvWith, Settled, JobFinished, FindReadyStage, IsLater;
    match step
    case StartDispatch(stageWrite, runWrite) => StartFrame(c, r, 0, stageWrite);
    case SendNext(sendOk, runWrite) =>
    case Callback(key, success, f) => CallbackLoses(c, r, key, success, f);
    case Ack(key) =>
  }

  lemma {:induction false} LosesLaterThroughout(c: Config, states: seq<Run>, steps: seq<Step>, i: nat)
    requires ValidConfig(c) && IsRun(c, states, steps) && i <= |steps|
    ensures LosesLater(c, states[i])
  {
    hide ValidConfig, Inv, Apply, CanStep;
    if i > 0 {
      LosesLaterThroughout(c, states, steps, i - 1);
      InvariantThroughout(c, states, steps, i - 1);
      StepLoses(c, states[i - 1], steps[i - 1]);
    }
  }

  /** A stuck run had something to publish after start dispatch. */
  lemma StuckHadMore(c: Config, states: seq<Run>, steps: seq<Step>, i: nat) returns (key: JobKey)
    requires ValidConfig(c) && IsRun(c, states, steps) && i <= |steps| && Stuck(states[i])
    ensures IsLater(c, key)
  {
    hide Apply, CanStep, InvWith, Settled;
    InvariantThroughout(c, states, steps, i);
    LosesLaterThroughout(c, states, steps, i);
    NoStuckRun(c, states, steps, i);
    var r := states[i];
    if lost :| lost in r.lost {
      key := lost;
    } else {
      var cut, n :| cut in r.terminal && IsJob(c, JobKey(cut.stage, n)) && cut.job in c.plans[cut.stage].needs[n];
      key := JobKey(cut.stage, n);
    }
  }

  /** A report of success while every publish fails: something is lost, or there was nothing to publish. */
  lemma ReportOrLose(c: Config, r: Run, key: JobKey)
    requires Inv(c, r) && r.live && key in r.sent && !Refused(c, key)
    ensures CanStep(r, Callback(key, true, NoSends()))
    ensures var r' := Apply(c, r, Callback(key, true, NoSends()));
      && Inv(c, r') && r'.terminal == r.terminal && r'.dispatch == r.dispatch
      && ((r'.lost != {} && r'.live) || NothingToSend(c, r, r', key))
  {
    hide InvWith, Settled, CompleteJob, Onward, HandoverDue, Remembers, Refines, ValidPlan, NextStage, JobFinished;
    hide Apply, Refused, Started, IsCompleted, NoFaults;
    SentIsStarted(c, r, key);
    var f := NoSends();
    var r1 := AfterReport(c, r, key, f);
    CallbackKeeps(c, r, key, true, f);
    ReportedKeeps(c, r, r1, key, true);
    CompleteJobOk(c, r1, key, f);
    if CompleteJob(c, r1, key, f).1 {
      ReportMoves(c, r, r1, key, f);
    }
  }

  /** The callback went as if every publish had succeeded, because there was none. */
  ghost predicate NothingToSend(c: Config, r: Run, r': Run, key: JobKey) {
    && r'.lost == r.lost && r'.sent == r.sent
    && (r'.live ==> Onward(r, r') && IsCompleted(r', key) && !HandoverDue(c, r', key.stage))
    && (!r'.live ==> r'.runRow == Success)
  }

  lemma LoseOne(c: Config, r: Run, later: JobKey) returns (step: Step, r1: Run)
    requires Clean(c, r) && Admitted(c, r) && r.live && r.dispatch.Finished? && Addressable(c)
    requires IsJob(c, later) && later !in r.sent
    ensures CanStep(r, step) && r1 == Apply(c, r, step) && Inv(c, r1) && Admitted(c, r1)
    ensures r1.live && r1.dispatch.Finished? && r1.terminal == r.terminal
    ensures r1.lost != {} || (r1.lost == {} && r1.sent == r.sent && Closer(c, r, r1))
  {
    hide InvWith, Settled, Apply, CanStep, Admitted, Jobs, Onward, Closer, Complete, Started, NextStage, HandoverDue;
    var j := LastStage(c, r);
    var s := c.order[j];
    var wasComplete := Complete(c, r, s);
    var n;
    if wasComplete {
      NothingIsSkippable(c, r);
      n := OtherJob(c, r, s, {});
    } else {
      n := UncompletedJob(c, r, s);
    }
    var key := JobKey(s, n);
    SentIsJob(c, r, key);
    ReportOrLose(c, r, key);
    step := Callback(key, true, NoSends());
    r1 := Apply(c, r, step);
    StepPersists(c, r, step);
    if NothingToSend(c, r, r1, key) {
      if !r1.live {
        JobWasReported(c, r1, later);
        assert false;
      }
      if wasComplete {
        HandedOver(c, r, r1, j);
      } else {
        CompletedIsCloser(c, r, r1, key);
      }
    }
  }

  /** A run with a job left for the callbacks to publish can lose it. */
  lemma {:induction false} CanLose(c: Config, r: Run, later: JobKey) returns (steps: seq<Step>, r': Run)
    requires Clean(c, r) && Admitted(c, r) && r.live && Addressable(c)
    requires IsLater(c, later) && later !in r.sent && later !in Unsent(r)
    ensures Leads(c, r, steps, r') && Inv(c, r') && Admitted(c, r')
    ensures r'.live && r'.dispatch.Finished? && r'.lost != {} && r'.terminal == r.terminal
    decreases Rank(r.dispatch), if r.dispatch.Sending? then |r.dispatch.rest| else 0, Unstarted(c, r), Open(c, r)
  {
    hide Inv, Apply, CanStep, Admitted, Addressable, IsLater, Unstarted, Open, Unsent, Closer;
    var step, r1 := LoseStep(c, r, later);
    if r1.lost != {} {
      steps, r' := [step], r1;
      LeadsFirst(c, r, step, [], r');
      assert [step] + [] == [step];
    } else {
      CloserShrinks(c, r, r1);
      steps, r' := CanLose(c, r1, later);
      LeadsFirst(c, r, step, steps, r');
      steps := [step] + steps;
    }
  }

  lemma CloserShrinks(c: Config, r: Run, r1: Run)
    ensures Closer(c, r, r1) ==>
      Unstarted(c, r1) < Unstarted(c, r) || (Unstarted(c, r1) == Unstarted(c, r) && Open(c, r1) < Open(c, r))
  {
  }

  lemma LoseStep(c: Config, r: Run, later: JobKey) returns (step: Step, r1: Run)
    requires Clean(c, r) && Admitted(c, r) && r.live && Addressable(c)
    requires IsLater(c, later) && later !in r.sent && later !in Unsent(r)
    ensures CanStep(r, step) && r1 == Apply(c, r, step) && Inv(c, r1) && Admitted(c, r1)
    ensures r1.live && r1.terminal == r.terminal && (r1.lost != {} ==> r1.dispatch.Finished?)
    ensures r1.lost == {} ==>
      && Completable(c, r1) && later !in r1.sent && later !in Unsent(r1)
      && (|| Rank(r1.dispatch) < Rank(r.dispatch)
          || (r.dispatch.Sending? && r1.dispatch.Sending? && |r1.dispatch.rest| < |r.dispatch.rest|)
          || (r.dispatch.Finished? && r1.dispatch.Finished? && Closer(c, r, r1)))
  {
    hide Apply, CanStep, Inv, Admitted, Addressable, Closer;
    match r.dispatch
    case NotStarted =>
      step, r1 := StartNext(c, r, {});
      StepPersists(c, r, step);
      StartLeavesLater(c, r, step, later);
    case Sending(_, _) =>
      step, r1 := SendOne(c, r, {});
      StepPersists(c, r, step);
      SendLeavesLater(c, r, step, later);
    case Finished =>
      step, r1 := LoseOne(c, r, later);
  }

  lemma StartLeavesLater(c: Config, r: Run, step: Step, later: JobKey)
    requires Inv(c, r) && r.dispatch.NotStarted? && IsLater(c, later) && later !in r.sent
    requires CanStep(r, step) && step == StartDispatch(true, true)
    ensures var r1 := Apply(c, r, step); later !in r1.sent && later !in Unsent(r1) && r1.terminal == r.terminal
  {
    hide InvWith, Settled, FindReadyStage;
    StartFrame(c, r, 0, true);
    StartFromFresh(c, r, true, true);
  }

  lemma SendLeavesLater(c: Config, r: Run, step: Step, later: JobKey)
    requires r.dispatch.Sending? && later !in r.sent && later !in Unsent(r)
    requires CanStep(r, step) && step == SendNext(true, true)
    ensures var r1 := Apply(c, r, step); later !in r1.sent && later !in Unsent(r1) && r1.terminal == r.terminal
  {
    var rest := r.dispatch.rest;
    assert rest == [rest[0]] + rest[1..];
  }

  lemma {:induction false} QuietIsLeads(c: Config, r: Run, steps: seq<Step>, r': Run)
    requires LeadsQuietly(c, r, steps, r')
    ensures Leads(c, r, steps, r')
    decreases steps
  {
    hide Apply, CanStep, JobFinished;
    if steps != [] {
      QuietIsLeads(c, Apply(c, r, steps[0]), steps[1..], r');
    }
  }

  lemma {:induction false} LeadsOn(c: Config, r: Run, first: seq<Step>, r1: Run, second: seq<Step>, r2: Run)
    requires Leads(c, r, first, r1) && Leads(c, r1, second, r2)
    ensures Leads(c, r, first + second, r2)
    decreases first
  {
    hide Apply, CanStep;
    if first == [] {
      assert first + second == second;
    } else {
      LeadsOn(c, Apply(c, r, first[0]), first[1..], r1, second, r2);
      assert (first + second)[1..] == first[1..] + second;
    }
  }

  /** A run that is stranded with no failure cut off. */
  lemma LostPublishStrands(c: Config, later: JobKey) returns (states: seq<Run>, steps: seq<Step>)
    requires ValidConfig(c) && Addressable(c) && IsLater(c, later)
    ensures IsRun(c, states, steps) && Stuck(states[|steps|]) && states[|steps|].terminal == {}
  {
    hide ValidConfig, Inv, Apply, CanStep, Leads, LeadsQuietly, Addressable, IsLater, Admitted;
    InitHolds(c);
    StartsClean(c);
    StartsAdmitted(c);
    var first, r1 := CanLose(c, Init(c), later);
    var second, r2 := Drain(c, r1);
    QuietIsLeads(c, r1, second, r2);
    LeadsOn(c, Init(c), first, r1, second, r2);
    steps := first + second;
    states := LeadsIsRun(c, Init(c), steps, r2);
  }

  lemma StartsAdmitted(c: Config)
    ensures Admitted(c, Init(c)) && Unsent(Init(c)) == {}
  {
  }

  ghost predicate EndsStuck(c: Config, states: seq<Run>, steps: seq<Step>) {
    IsRun(c, states, steps) && Stuck(states[|steps|])
  }

  /** A pipeline without blank names has a run that gets stuck exactly when it has more than one stage, or a job with
      needs. */
  lemma StrandableIff(c: Config)
    requires ValidConfig(c) && Addressable(c)
    ensures (exists states, steps :: EndsStuck(c, states, steps)) <==> exists key :: IsLater(c, key)
    ensures (exists key :: IsLater(c, key)) <==> |c.order| > 1 || exists key :: HasNeeds(c, key)
  {
    hide Apply, CanStep, ValidPlan, Addressable;
    if states, steps :| EndsStuck(c, states, steps) {
      var key := StuckHadMore(c, states, steps, |steps|);
    }
    if key :| IsLater(c, key) {
      var states, steps := LostPublishStrands(c, key);
      assert EndsStuck(c, states, steps);
    }
    if |c.order| > 1 {
      assert c.order[1] in c.order;
      var n := SomeJob(c, c.order[1]);
      assert IsLater(c, JobKey(c.order[1], n));
    }
    if key :| HasNeeds(c, key) {
      assert IsLater(c, key);
    }
    if key :| IsLater(c, key) {
      var i :| 0 <= i < |c.order| && c.order[i] == key.stage;
      assert HasNeeds(c, key) || i > 0;
    }
  }

  ghost predicate HasNeeds(c: Config, key: JobKey) {
    IsJob(c, key) && c.plans[key.stage].needs[key.job] != []
  }

  /** A concrete case: one job needs the other. */
  lemma LostPublishStrandsRun(p: Name, s: Name, a: Name, b: Name)
    returns (c: Config, states: seq<Run>, steps: seq<Step>)
    requires a != b && !Blank(p) && !Blank(s) && !Blank(a) && !Blank(b)
    ensures ValidConfig(c) && IsRun(c, states, steps)
    ensures var r := states[|steps|]; r.live && r.dispatch.Finished? && r.inflight == {} && r.terminal == {}
  {
    c := TwoJobs(p, s, a, b, true);
    TwoJobsIsValid(p, s, a, b, true);
    SecondIsLater(p, s, a, b);
    hide ValidConfig, Apply, CanStep, Addressable, IsLater, TwoJobs;
    states, steps := LostPublishStrands(c, JobKey(s, b));
  }

  lemma SecondIsLater(p: Name, s: Name, a: Name, b: Name)
    requires a != b && !Blank(p) && !Blank(s) && !Blank(a) && !Blank(b)
    ensures var c := TwoJobs(p, s, a, b, true); Addressable(c) && IsLater(c, JobKey(s, b))
  {
    hide Blank;
  }
}
