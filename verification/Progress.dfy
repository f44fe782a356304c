/** When a run can still be brought to its end by reporting what is outstanding, and when it cannot. */
module Progress {
  import opened Models
  import opened Stage
  import opened Scheduler
  import opened SchedulerInvariant
  import opened SchedulerTheorems
  import opened SchedulerFaults

  /** The steps lead from `r` to `r'`. */
  ghost predicate Leads(c: Config, r: Run, steps: seq<Step>, r': Run)
    decreases steps
  {
    if steps == [] then r == r'
    else CanStep(r, steps[0]) && Leads(c, Apply(c, r, steps[0]), steps[1..], r')
  }

  ghost predicate Clean(c: Config, r: Run) {
    Inv(c, r) && Completable(c, r)
  }

  ghost function Jobs(c: Config): set<JobKey> {
    set s, n | s in c.plans && n in c.plans[s].needs && n in c.plans[s].jobByName :: JobKey(s, n)
  }

  lemma {:induction false} EnqueueAll(r: Run, stage: Name, names: seq<Name>)
    ensures var (r', ok) := EnqueueReady(r, stage, names, |names|);
      && ok && r'.lost == r.lost && r'.accepted == r.accepted && r'.stages == r.stages
      && r'.live == r.live && r'.runRow == r.runRow && r'.dispatch == r.dispatch
    decreases names
  {
    if names != [] {
      EnqueueAll(SendOk(r, JobKey(stage, names[0])), stage, names[1..]);
    }
  }

  /** Faults under which every call of the callback succeeds. */
  ghost function NoFaults(c: Config, r: Run, key: JobKey): Faults
    requires key.stage in r.stages && key.stage in c.plans
  {
    var ready := MarkSucceeded(c.plans[key.stage], r.stages[key.stage], key.job).1;
    var next := NextStage(c.order, key.stage);
    var more := if next.Some? && next.value in r.stages && next.value in c.plans && next.value != key.stage
                then ScanReady(r.stages[next.value], c.plans[next.value].jobs).1 else [];
    Faults(true, |ready|, true, true, |more|, true)
  }

  /** Lost and cut-off jobs are not forgotten, and nothing is reported. */
  ghost predicate Remembers(r: Run, r': Run) {
    && r.lost <= r'.lost && r.terminal <= r'.terminal && r.sent <= r'.sent
    && forall key, success :: Reported(key, success) in r'.log ==> Reported(key, success) in r.log
  }

  lemma {:induction false} EnqueueRemembers(r: Run, stage: Name, names: seq<Name>, sends: nat)
    ensures Remembers(r, EnqueueReady(r, stage, names, sends).0)
    decreases names
  {
    if names != [] && sends > 0 {
      var r1 := SendOk(r, JobKey(stage, names[0]));
      assert Remembers(r, r1);
      EnqueueRemembers(r1, stage, names[1..], sends - 1);
    }
  }

  lemma AdvanceRemembers(c: Config, r: Run, stage: Name, f: Faults)
    ensures Remembers(r, Advance(c, r, stage, f).0)
  {
    var r1 := r.(stageRows := r.stageRows[stage := Success]);
    match NextStage(c.order, stage)
    case None =>
    case Some(next) =>
      if next in r1.stages && next in c.plans {
        var (v, ready) := ScanReady(r1.stages[next], c.plans[next].jobs);
        EnqueueRemembers(r1.(stages := r1.stages[next := v]), next, ready, f.nextSends);
      }
  }

  lemma CompleteJobRemembers(c: Config, r: Run, key: JobKey, f: Faults)
    requires key.stage in r.stages && key.stage in c.plans
    ensures Remembers(r, CompleteJob(c, r, key, f).0)
  {
    hide MarkSucceeded, Advance, EnqueueReady;
    var (v, ready) := MarkSucceeded(c.plans[key.stage], r.stages[key.stage], key.job);
    var names := EntryNames(c.plans[key.stage], ready);
    var r1 := r.(stages := r.stages[key.stage := v]);
    EnqueueRemembers(r1, key.stage, names, f.sends);
    AdvanceRemembers(c, EnqueueReady(r1, key.stage, names, f.sends).0, key.stage, f);
  }

  /** What a faultless success does to the fields that measure progress. */
  ghost predicate Succeeded(c: Config, stage: Name, r: Run, r': Run, ok: bool) {
    && ok && r'.lost == r.lost && r'.accepted == r.accepted && r'.dispatch == r.dispatch
    && (r'.live || (r'.runRow == Success && NextStage(c.order, stage).None?))
  }

  lemma AdvanceSucceeds(c: Config, r: Run, stage: Name, f: Faults)
    requires f.stageWrite && f.runWrite && f.nextStageWrite && r.live && stage in r.stages
    requires var next := NextStage(c.order, stage);
      next.Some? && next.value in r.stages && next.value in c.plans ==>
        f.nextSends == |ScanReady(r.stages[next.value], c.plans[next.value].jobs).1|
    ensures var (r', ok) := Advance(c, r, stage, f); Succeeded(c, stage, r, r', ok)
  {
    var r1 := r.(stageRows := r.stageRows[stage := Success]);
    match NextStage(c.order, stage)
    case None =>
    case Some(next) =>
      if next in r1.stages && next in c.plans {
        var (v, ready) := ScanReady(r1.stages[next], c.plans[next].jobs);
        EnqueueAll(r1.(stages := r1.stages[next := v]), next, ready);
      }
  }

  lemma CompleteJobSucceeds(c: Config, r: Run, key: JobKey)
    requires key.stage in r.stages && key.stage in c.plans && r.live
    requires NextStage(c.order, key.stage) != Some(key.stage)
    ensures var (r', ok) := CompleteJob(c, r, key, NoFaults(c, r, key)); Succeeded(c, key.stage, r, r', ok)
  {
    hide MarkSucceeded, ScanReady, NextStage, Advance;
    var f := NoFaults(c, r, key);
    var (v, ready) := MarkSucceeded(c.plans[key.stage], r.stages[key.stage], key.job);
    var r1 := r.(stages := r.stages[key.stage := v]);
    var names := EntryNames(c.plans[key.stage], ready);
    EnqueueAll(r1, key.stage, names);
    var (r2, ok) := EnqueueReady(r1, key.stage, names, f.sends);
    AdvanceSucceeds(c, r2, key.stage, f);
  }

  /** Jobs completed and stages started stay so. */
  ghost predicate Onward(r: Run, r': Run) {
    && (forall key :: IsCompleted(r, key) ==> IsCompleted(r', key))
    && (forall s :: Started(r, s) ==> Started(r', s))
  }

  /** No job of `avoid` has become good. */
  ghost predicate Spares(c: Config, r: Run, r': Run, avoid: set<JobKey>) {
    forall key :: key in avoid && Good(c, r'.log, key) ==> Good(c, r.log, key)
  }

  /** Reporting success for `key`, with every call succeeding. */
  lemma ReportSucceeds(c: Config, r: Run, key: JobKey, avoid: set<JobKey>) returns (f: Faults)
    requires Inv(c, r) && r.live && key in r.sent && key !in avoid && !Refused(c, key)
    ensures CanStep(r, Callback(key, true, f)) && JobFinished(c, r, key, true, f).1
    ensures var r' := Apply(c, r, Callback(key, true, f));
      && Inv(c, r') && r'.dispatch == r.dispatch && r'.lost == r.lost && r'.terminal == r.terminal
      && r'.accepted == r.accepted + {key} && Spares(c, r, r', avoid)
      && (r'.live ==> Onward(r, r') && IsCompleted(r', key) && !HandoverDue(c, r', key.stage))
      && (!r'.live ==> r'.runRow == Success && NextStage(c.order, key.stage).None?)
  {
    hide InvWith, Settled, MarkSucceeded, ScanReady, CompleteJob, Good, Spares, Onward, HandoverDue, Remembers;
    hide Refines, ValidPlan, NextStage, JobFinished, Apply, Refused, IsJob, NoFaults, Started;
    SentIsStarted(c, r, key);
    NextIsAnother(c, r, key.stage);
    f := NoFaults(c, r, key);
    WritesSucceed(c, r, key);
    var r1 := AfterReport(c, r, key, f);
    CompleteJobSucceeds(c, r1, key);
    CompleteJobFrame(c, r1, key, f);
    CallbackKeeps(c, r, key, true, f);
    ReportedKeeps(c, r, r1, key, true);
    ReportMoves(c, r, r1, key, f);
    SparesOthers(c, r, r1, Apply(c, r, Callback(key, true, f)), key, avoid);
  }

  lemma WritesSucceed(c: Config, r: Run, key: JobKey)
    requires key.stage in r.stages && key.stage in c.plans
    ensures NoFaults(c, r, key).jobWrite
  {
  }

  /** What is left of a successful report once it has been logged. */
  lemma AfterReport(c: Config, r: Run, key: JobKey, f: Faults) returns (r1: Run)
    requires r.live && key.stage in r.stages && key.stage in c.plans && !Refused(c, key) && key in r.sent
    requires f.jobWrite
    ensures r1 == r.(jobRows := r1.jobRows, log := r.log + [Reported(key, true)])
    ensures NoFaults(c, r1, key) == NoFaults(c, r, key)
    ensures var (r2, ok) := CompleteJob(c, r1, key, f);
      && JobFinished(c, r, key, true, f) == (r2, ok)
      && Apply(c, r, Callback(key, true, f)) == if ok then r2.(accepted := r2.accepted + {key}) else r2
  {
    hide CompleteJob, MarkSucceeded, ScanReady, NextStage;
    var rows := if key in r.jobRows then r.jobRows[key := JobStatus(true)] else r.jobRows;
    r1 := r.(jobRows := rows, log := r.log + [Reported(key, true)]);
  }

  lemma ReportMoves(c: Config, r: Run, r1: Run, key: JobKey, f: Faults)
    requires InvWith(c, r1, {}) && key in r1.sent && r1.live && Reported(key, true) in r1.log && r1.stages == r.stages
    requires key.stage in r.stages && key.stage in c.plans && CompleteJob(c, r1, key, f).1
    ensures var r2 := CompleteJob(c, r1, key, f).0;
      var r' := r2.(accepted := r2.accepted + {key});
      && Remembers(r1, r')
      && (r'.live ==> Onward(r, r') && IsCompleted(r', key) && !HandoverDue(c, r', key.stage))
  {
    hide InvWith, CompleteJob;
    CompleteJobKeeps(c, r1, key, f);
    var r2 := CompleteJob(c, r1, key, f).0;
    var r' := r2.(accepted := r2.accepted + {key});
    assert forall other :: IsCompleted(r', other) == IsCompleted(r2, other);
    assert forall s :: Started(r', s) == Started(r2, s) && Complete(c, r', s) == Complete(c, r2, s);
    CompleteJobRemembers(c, r1, key, f);
    assert forall other :: IsCompleted(r, other) == IsCompleted(r1, other);
    assert forall s :: Started(r, s) == Started(r1, s);
  }

  lemma SparesOthers(c: Config, r: Run, r1: Run, r2: Run, key: JobKey, avoid: set<JobKey>)
    requires r1.log == r.log + [Reported(key, true)] && Remembers(r1, r2) && key !in avoid
    ensures Spares(c, r, r2, avoid)
  {
  }

  /** A failure of `key` whose rows cannot be written; nobody needs `key`. */
  lemma FailsUnrecorded(c: Config, r: Run, key: JobKey, avoid: set<JobKey>) returns (step: Step)
    requires Clean(c, r) && r.live && key in r.sent && !IsCompleted(r, key) && Dispensed(c, key) && !Refused(c, key)
    ensures step.Callback? && CanStep(r, step)
    ensures var r' := Apply(c, r, step);
      && Clean(c, r') && r'.live && r'.dispatch == r.dispatch && Spares(c, r, r', avoid)
      && Onward(r, r') && IsCompleted(r', key)
  {
    hide Inv, Apply, Spares, Onward, Completable;
    var f := Faults(true, 0, false, false, 0, false);
    step := Callback(key, false, f);
    CutOff(c, r, key, f);
    CallbackKeeps(c, r, key, false, f);
    CutOffIsHarmless(c, r, Apply(c, r, step), key, avoid);
  }

  lemma CutOff(c: Config, r: Run, key: JobKey, f: Faults)
    requires Inv(c, r) && r.live && key in r.sent && !IsCompleted(r, key) && key !in c.allow && !Refused(c, key)
    requires f == Faults(true, 0, false, false, 0, false)
    ensures CanStep(r, Callback(key, false, f)) && key.stage in r.stages
    ensures var r' := Apply(c, r, Callback(key, false, f));
      && r'.stages == r.stages[key.stage := MarkTerminal(r.stages[key.stage], key.job)]
      && r'.log == r.log + [Reported(key, false)] && r'.terminal == r.terminal + {key} && r'.lost == r.lost
      && r'.live && r'.dispatch == r.dispatch
  {
    hide InvWith, Settled;
    SentIsStarted(c, r, key);
  }

  lemma CutOffIsHarmless(c: Config, r: Run, r': Run, key: JobKey, avoid: set<JobKey>)
    requires Completable(c, r) && Dispensed(c, key) && key.stage in r.stages && r'.lost == r.lost
    requires r'.stages == r.stages[key.stage := MarkTerminal(r.stages[key.stage], key.job)]
    requires r'.log == r.log + [Reported(key, false)] && r'.terminal == r.terminal + {key}
    ensures Completable(c, r') && Spares(c, r, r', avoid) && Onward(r, r') && IsCompleted(r', key)
  {
  }

  lemma NextIsAnother(c: Config, r: Run, s: Name)
    requires InvWith(c, r, {}) && s in c.plans
    ensures NextStage(c.order, s) != Some(s)
  {
    hide InvWith;
    var i := PositionOf(c, r, s);
    NextStageAt(c.order, i);
  }

  function Rank(d: Dispatch): nat {
    match d
    case NotStarted => 2
    case Sending(_, _) => 1
    case Finished => 0
  }

  lemma SentIsJob(c: Config, r: Run, key: JobKey)
    requires Inv(c, r) && key in r.sent
    ensures key in Jobs(c) && IsJob(c, key)
  {
    hide InvWith, Settled, ValidPlan, Refines;
    SentIsStarted(c, r, key);
    assert key == JobKey(key.stage, key.job);
  }

  /** The job may be cut off without harm to others: its failure is not allowed, and no job needs it. */
  ghost predicate Dispensed(c: Config, key: JobKey) {
    && IsJob(c, key) && key !in c.allow
    && forall n :: IsJob(c, JobKey(key.stage, n)) ==> key.job !in c.plans[key.stage].needs[n]
  }

  /** Every stage has a job outside `avoid`, and the jobs of `avoid` may all be cut off. */
  ghost predicate Skippable(c: Config, avoid: set<JobKey>) {
    && (forall key :: key in avoid ==> Dispensed(c, key))
    && (forall s :: s in c.plans ==> HasOther(c, s, avoid))
  }

  ghost predicate HasOther(c: Config, s: Name, avoid: set<JobKey>) {
    exists n :: IsJob(c, JobKey(s, n)) && JobKey(s, n) !in avoid
  }

  ghost function Unstarted(c: Config, r: Run): set<Name> {
    set s | s in c.plans && !Started(r, s)
  }

  ghost function Open(c: Config, r: Run): set<JobKey> {
    set key | key in Jobs(c) && !IsCompleted(r, key)
  }

  /** No callback is refused for a blank name. */
  ghost predicate Addressable(c: Config) {
    forall key :: IsJob(c, key) ==> !Refused(c, key)
  }

  /** The same for the stages up to the m-th. */
  ghost predicate AddressableUpTo(c: Config, m: nat) {
    forall i, n :: 0 <= i <= m < |c.order| && IsJob(c, JobKey(c.order[i], n)) ==> !Refused(c, JobKey(c.order[i], n))
  }

  /** The m-th stage has been handed over. */
  ghost predicate Reached(c: Config, r: Run, m: nat)
    requires m < |c.order|
  {
    if m + 1 < |c.order| then r.live && Started(r, c.order[m + 1]) else !r.live && r.runRow == Success
  }

  /** From every such state, finitely many reports for jobs of the stages up to the m-th hand it over, with none of
      `avoid` reported good. */
  lemma {:induction false} RunReaches(c: Config, r: Run, avoid: set<JobKey>, m: nat)
    returns (steps: seq<Step>, r': Run)
    requires Clean(c, r) && r.live && Skippable(c, avoid) && m < |c.order| && AddressableUpTo(c, m)
    ensures Leads(c, r, steps, r') && Clean(c, r') && Reached(c, r', m) && Spares(c, r, r', avoid)
    decreases Rank(r.dispatch), if r.dispatch.Sending? then |r.dispatch.rest| else 0, Unstarted(c, r), Open(c, r)
  {
    hide Inv, Apply, CanStep, Start, Send, Good, Skippable, AddressableUpTo;
    if Reached(c, r, m) {
      steps, r' := [], r;
    } else {
      var step, r1 := NextStep(c, r, avoid, m);
      if r1.live {
        steps, r' := RunReaches(c, r1, avoid, m);
        LeadsFirst(c, r, step, steps, r');
        steps := [step] + steps;
      } else {
        steps, r' := [step], r1;
        LeadsFirst(c, r, step, [], r');
        assert [step] + [] == [step];
      }
    }
  }

  /** Finitely many reports end the run, and end it as success, with none of `avoid` reported good. */
  lemma RunCanFinishWithout(c: Config, r: Run, avoid: set<JobKey>) returns (steps: seq<Step>, r': Run)
    requires Clean(c, r) && r.live && Skippable(c, avoid) && Addressable(c)
    ensures Leads(c, r, steps, r') && !r'.live && r'.runRow == Success && Spares(c, r, r', avoid)
  {
    hide Settled, StagesOk, KeysOk, LogOk, RowsOk, Leads, Spares, Skippable, Completable;
    steps, r' := RunReaches(c, r, avoid, |c.order| - 1);
  }

  /** From every such state, finitely many successful reports end the run, and end it as success. */
  lemma RunCanFinish(c: Config, r: Run) returns (steps: seq<Step>, r': Run)
    requires Clean(c, r) && r.live && Addressable(c)
    ensures Leads(c, r, steps, r') && !r'.live && r'.runRow == Success
  {
    hide Leads;
    NothingIsSkippable(c, r);
    steps, r' := RunCanFinishWithout(c, r, {});
  }

  lemma NothingIsSkippable(c: Config, r: Run)
    requires InvWith(c, r, {})
    ensures Skippable(c, {})
  {
    hide StagesOk, KeysOk, LogOk, OrderOk, RowsOk;
    forall s | s in c.plans ensures HasOther(c, s, {}) {
      var n := SomeJob(c, s);
    }
  }

  lemma SomeJob(c: Config, s: Name) returns (n: Name)
    requires ValidConfig(c) && s in c.plans
    ensures IsJob(c, JobKey(s, n))
  {
    n := c.plans[s].jobs[0].name;
    assert HasName(c.plans[s].jobs, n);
  }

  lemma LeadsFirst(c: Config, r: Run, step: Step, steps: seq<Step>, r': Run)
    requires CanStep(r, step) && Leads(c, Apply(c, r, step), steps, r')
    ensures Leads(c, r, [step] + steps, r')
  {
    hide Apply, CanStep;
    assert ([step] + steps)[1..] == steps;
  }

  /** A step that brings the handover closer. */
  lemma NextStep(c: Config, r: Run, avoid: set<JobKey>, m: nat) returns (step: Step, r1: Run)
    requires Clean(c, r) && r.live && Skippable(c, avoid) && m < |c.order| && AddressableUpTo(c, m) && !Reached(c, r, m)
    ensures CanStep(r, step) && r1 == Apply(c, r, step) && Clean(c, r1) && (r1.live || Reached(c, r1, m))
    ensures Spares(c, r, r1, avoid)
    ensures r1.live ==>
      || Rank(r1.dispatch) < Rank(r.dispatch)
      || (r.dispatch.Sending? && r1.dispatch.Sending? && |r1.dispatch.rest| < |r.dispatch.rest|)
      || (r.dispatch.Finished? && r1.dispatch.Finished? && Closer(c, r, r1))
  {
    hide Clean, Apply, CanStep, Spares, Skippable, AddressableUpTo;
    match r.dispatch
    case NotStarted => step, r1 := StartNext(c, r, avoid);
    case Sending(_, _) => step, r1 := SendOne(c, r, avoid);
    case Finished => step, r1 := ReportOne(c, r, avoid, m);
  }

  /** A stage was started, or else a job was completed. */
  ghost predicate Closer(c: Config, r: Run, r': Run) {
    Unstarted(c, r') < Unstarted(c, r) || (Unstarted(c, r') == Unstarted(c, r) && Open(c, r') < Open(c, r))
  }

  lemma CompletedIsCloser(c: Config, r: Run, r': Run, key: JobKey)
    requires Onward(r, r') && key in Jobs(c) && !IsCompleted(r, key) && IsCompleted(r', key)
    ensures Closer(c, r, r')
  {
    assert Unstarted(c, r') <= Unstarted(c, r) && Open(c, r') <= Open(c, r);
    assert key in Open(c, r) && key !in Open(c, r');
  }

  lemma StartedIsCloser(c: Config, r: Run, r': Run, s: Name)
    requires Onward(r, r') && s in c.plans && !Started(r, s) && Started(r', s)
    ensures Closer(c, r, r')
  {
    assert s in Unstarted(c, r) && s !in Unstarted(c, r');
  }

  /** The last started stage is worked on: an open job is reported or cut off, or else a completed one reported
      again. */
  lemma ReportOne(c: Config, r: Run, avoid: set<JobKey>, m: nat) returns (step: Step, r1: Run)
    requires Clean(c, r) && r.live && r.dispatch.Finished? && Skippable(c, avoid)
    requires m < |c.order| && AddressableUpTo(c, m) && !Reached(c, r, m)
    ensures CanStep(r, step) && r1 == Apply(c, r, step) && Clean(c, r1) && (r1.live || Reached(c, r1, m))
    ensures r1.dispatch.Finished? && Spares(c, r, r1, avoid) && (r1.live ==> Closer(c, r, r1))
  {
    hide InvWith, Settled, Apply, CanStep, JobFinished, Jobs, Spares, Good, Onward, Closer, Complete, Started;
    hide NextStage;
    var j := LastStage(c, r);
    LastIsAtMost(c, r, j, m);
    NextStageAt(c.order, j);
    var s := c.order[j];
    var n;
    if Complete(c, r, s) {
      n := OtherJob(c, r, s, avoid);
      SentIsJob(c, r, JobKey(s, n));
      var f := ReportSucceeds(c, r, JobKey(s, n), avoid);
      step := Callback(JobKey(s, n), true, f);
      r1 := Apply(c, r, step);
      if r1.live {
        HandedOver(c, r, r1, j);
      }
    } else {
      n := UncompletedJob(c, r, s);
      var key := JobKey(s, n);
      SentIsJob(c, r, key);
      if key in avoid {
        step := FailsUnrecorded(c, r, key, avoid);
      } else {
        var f := ReportSucceeds(c, r, key, avoid);
        step := Callback(key, true, f);
      }
      r1 := Apply(c, r, step);
      if r1.live {
        CompletedIsCloser(c, r, r1, key);
      }
    }
  }

  /** Stages are started one after the other. */
  lemma LastIsAtMost(c: Config, r: Run, j: nat, m: nat)
    requires InvWith(c, r, {}) && r.live && j < |c.order| && Started(r, c.order[j])
    requires m < |c.order| && !Reached(c, r, m)
    ensures j <= m
  {
    hide StagesOk, KeysOk, LogOk, OrderOk, RowsOk, ValidPlan;
    if m + 1 < j {
      EarlierComplete(c, r, {}, m + 1, j);
      CompleteIsStarted(c, r, {}, c.order[m + 1]);
    }
  }

  lemma LastStage(c: Config, r: Run) returns (j: nat)
    requires InvWith(c, r, {}) && r.dispatch.Finished?
    ensures j < |c.order| && Started(r, c.order[j]) && (j + 1 < |c.order| ==> !Started(r, c.order[j + 1]))
    ensures Distinct(c.order) && forall s :: s in c.plans <==> s in c.order
  {
    hide StagesOk, KeysOk, LogOk, RowsOk, ValidPlan;
    j := LastStarted(c, r, 0);
  }

  lemma OtherJob(c: Config, r: Run, s: Name, avoid: set<JobKey>) returns (n: Name)
    requires InvWith(c, r, {}) && Skippable(c, avoid) && Complete(c, r, s)
    ensures JobKey(s, n) in r.sent && JobKey(s, n) !in avoid
  {
    hide StagesOk, LogOk, OrderOk, RowsOk, ValidPlan;
    assert HasOther(c, s, avoid);
    n :| IsJob(c, JobKey(s, n)) && JobKey(s, n) !in avoid;
    assert IsCompleted(r, JobKey(s, n));
  }

  lemma HandedOver(c: Config, r: Run, r1: Run, j: nat)
    requires InvWith(c, r1, {}) && Onward(r, r1) && j < |c.order| && Complete(c, r, c.order[j])
    requires Distinct(c.order) && (forall s :: s in c.plans <==> s in c.order)
    requires !HandoverDue(c, r1, c.order[j]) && (j + 1 < |c.order| ==> !Started(r, c.order[j + 1]))
    ensures Closer(c, r, r1)
  {
    hide KeysOk, LogOk, OrderOk, RowsOk, Closer, ValidPlan;
    var s := c.order[j];
    NextStageAt(c.order, j);
    StillComplete(c, r, r1, s);
    var next := c.order[j + 1];
    StartedIsCloser(c, r, r1, next);
  }

  lemma StillComplete(c: Config, r: Run, r1: Run, s: Name)
    requires InvWith(c, r1, {}) && Onward(r, r1) && Complete(c, r, s)
    ensures Complete(c, r1, s)
  {
    hide KeysOk, LogOk, OrderOk, RowsOk, ValidPlan;
    forall n | n in r.stages[s].completed ensures n in r1.stages[s].completed {
      assert IsCompleted(r, JobKey(s, n));
      assert IsCompleted(r1, JobKey(s, n));
    }
  }

  lemma StartNext(c: Config, r: Run, avoid: set<JobKey>) returns (step: Step, r1: Run)
    requires Clean(c, r) && r.live && r.dispatch.NotStarted?
    ensures step == StartDispatch(true, true) && CanStep(r, step) && r1 == Apply(c, r, step)
    ensures Clean(c, r1) && r1.live && r1.dispatch.Sending?
    ensures Spares(c, r, r1, avoid)
  {
    hide InvWith, Settled, FindReadyStage;
    step := StartDispatch(true, true);
    r1 := Apply(c, r, step);
    StartKeeps(c, r, true, true);
    StartFromFresh(c, r, true, true);
    StartFrame(c, r, 0, true);
  }

  lemma SendOne(c: Config, r: Run, avoid: set<JobKey>) returns (step: Step, r1: Run)
    requires Clean(c, r) && r.live && r.dispatch.Sending?
    ensures step == SendNext(true, true) && CanStep(r, step) && r1 == Apply(c, r, step) && Clean(c, r1) && r1.live
    ensures r1.dispatch.Finished? || (r1.dispatch.Sending? && |r1.dispatch.rest| < |r.dispatch.rest|)
    ensures Spares(c, r, r1, avoid)
  {
    hide InvWith, Settled;
    RestIsNotEmpty(c, r);
    step := SendNext(true, true);
    r1 := Apply(c, r, step);
    SendStepKeeps(c, r, true, true);
  }

  lemma RestIsNotEmpty(c: Config, r: Run)
    requires InvWith(c, r, {}) && r.dispatch.Sending?
    ensures r.dispatch.rest != []
  {
  }

  /** In every run: while it is live and nothing was lost or cut off, it can still end as success. */
  lemma LiveRunCanFinish(c: Config, states: seq<Run>, steps: seq<Step>, i: nat) returns (more: seq<Step>, r: Run)
    requires ValidConfig(c) && Addressable(c) && IsRun(c, states, steps) && i <= |steps|
    requires states[i].live && Completable(c, states[i])
    ensures Leads(c, states[i], more, r) && !r.live && r.runRow == Success
  {
    hide Inv, ValidConfig;
    InvariantThroughout(c, states, steps, i);
    more, r := RunCanFinish(c, states[i]);
  }

  /* The converse: what was lost, or waits for a job that was cut off, stays so, and a refused job is never reported. */

  ghost predicate Admitted(c: Config, r: Run) {
    && (forall key, success :: Reported(key, success) in r.log ==> key in r.sent && !Refused(c, key))
    && (forall key :: key in r.terminal ==> Reported(key, false) in r.log)
  }

  ghost predicate Persists(c: Config, r: Run, r': Run) {
    r.lost <= r'.lost && r.terminal <= r'.terminal && (Admitted(c, r) ==> Admitted(c, r'))
  }

  /** Nothing is reported, and what is cut off was so before. */
  lemma PersistsUnreported(c: Config, r: Run, r': Run)
    requires Remembers(r, r') && r'.terminal == r.terminal && r.log <= r'.log
    ensures Persists(c, r, r')
  {
    assert forall e :: e in r.log ==> e in r'.log;
  }

  lemma {:induction false} EnqueueAppends(r: Run, stage: Name, names: seq<Name>, sends: nat)
    ensures r.log <= EnqueueReady(r, stage, names, sends).0.log
    decreases names
  {
    if names != [] && sends > 0 {
      EnqueueAppends(SendOk(r, JobKey(stage, names[0])), stage, names[1..], sends - 1);
    }
  }

  lemma AdvanceAppends(c: Config, r: Run, stage: Name, f: Faults)
    ensures r.log <= Advance(c, r, stage, f).0.log
  {
    var r1 := r.(stageRows := r.stageRows[stage := Success]);
    match NextStage(c.order, stage)
    case None =>
    case Some(next) =>
      if next in r1.stages && next in c.plans {
        var (v, ready) := ScanReady(r1.stages[next], c.plans[next].jobs);
        EnqueueAppends(r1.(stages := r1.stages[next := v]), next, ready, f.nextSends);
      }
  }

  lemma CompleteJobAppends(c: Config, r: Run, key: JobKey, f: Faults)
    requires key.stage in r.stages && key.stage in c.plans
    ensures r.log <= CompleteJob(c, r, key, f).0.log
  {
    hide MarkSucceeded, Advance, EnqueueReady;
    var (v, ready) := MarkSucceeded(c.plans[key.stage], r.stages[key.stage], key.job);
    var names := EntryNames(c.plans[key.stage], ready);
    var r1 := r.(stages := r.stages[key.stage := v]);
    EnqueueAppends(r1, key.stage, names, f.sends);
    AdvanceAppends(c, EnqueueReady(r1, key.stage, names, f.sends).0, key.stage, f);
  }

  lemma FailRunPersists(c: Config, r: Run, key: JobKey, f: Faults)
    requires key.stage in r.stages && Reported(key, false) in r.log
    ensures Persists(c, r, FailRun(r, key, f).0)
  {
  }

  lemma CompleteJobPersists(c: Config, r: Run, key: JobKey, f: Faults)
    requires key.stage in r.stages && key.stage in c.plans
    ensures Persists(c, r, CompleteJob(c, r, key, f).0)
  {
    hide CompleteJob, Remembers;
    CompleteJobRemembers(c, r, key, f);
    CompleteJobFrame(c, r, key, f);
    CompleteJobAppends(c, r, key, f);
    PersistsUnreported(c, r, CompleteJob(c, r, key, f).0);
  }

  lemma CallbackPersists(c: Config, r: Run, key: JobKey, success: bool, f: Faults)
    requires key in r.sent
    ensures Persists(c, r, JobFinished(c, r, key, success, f).0)
  {
    hide CompleteJob, FailRun;
    var rows := if key in r.jobRows then r.jobRows[key := JobStatus(success)] else r.jobRows;
    var r1 := r.(jobRows := rows, log := r.log + [Reported(key, success)]);
    if !Refused(c, key) && r.live && key.stage in r.stages && key.stage in c.plans {
      assert Persists(c, r, r1);
      hide Admitted;
      CompleteJobPersists(c, r1, key, f);
      if !success {
        FailRunPersists(c, r1, key, f);
      }
    }
  }

  lemma SendPersists(c: Config, r: Run, sendOk: bool, runWrite: bool)
    requires r.dispatch.Sending? && r.dispatch.rest != []
    ensures Persists(c, r, Send(r, sendOk, runWrite))
  {
    var r' := Send(r, sendOk, runWrite);
    assert r'.log == r.log + [Enqueued(JobKey(r.dispatch.stage, r.dispatch.rest[0]))];
  }

  lemma StartPersists(c: Config, r: Run, stageWrite: bool, runWrite: bool)
    ensures Persists(c, r, Start(c, r, stageWrite, runWrite))
  {
    hide FindReadyStage;
    StartFrame(c, r, 0, stageWrite);
  }

  lemma StepPersists(c: Config, r: Run, step: Step)
    requires CanStep(r, step)
    ensures Persists(c, r, Apply(c, r, step))
  {
    hide JobFinished, Start, Send;
    match step
    case StartDispatch(stageWrite, runWrite) => StartPersists(c, r, stageWrite, runWrite);
    case SendNext(sendOk, runWrite) => SendPersists(c, r, sendOk, runWrite);
    case Callback(key, success, f) => CallbackPersists(c, r, key, success, f);
    case Ack(key) =>
  }

  lemma {:induction false} AdmittedThroughout(c: Config, states: seq<Run>, steps: seq<Step>, i: nat)
    requires IsRun(c, states, steps) && i <= |steps|
    ensures Admitted(c, states[i])
  {
    hide Apply, CanStep;
    if i > 0 {
      AdmittedThroughout(c, states, steps, i - 1);
      StepPersists(c, states[i - 1], steps[i - 1]);
    }
  }

  /** Success leaves no job unpublished and none cut off that another one needs. */
  lemma SuccessIsCompletable(c: Config, r: Run)
    requires Inv(c, r) && Admitted(c, r) && r.runRow == Success
    ensures Completable(c, r) && Addressable(c)
  {
    hide Settled, ValidPlan, Refines;
    forall key | IsJob(c, key) ensures key in r.sent && !Refused(c, key) { JobWasReported(c, r, key); }
    if key :| key in r.lost {
      LostIsJob(c, r, key);
      assert false;
    }
    forall key, n | key in r.terminal && IsJob(c, JobKey(key.stage, n))
      ensures key.job !in c.plans[key.stage].needs[n]
    {
      SentNeedsReleased(c, r, key, n);
    }
  }

  lemma JobWasReported(c: Config, r: Run, key: JobKey)
    requires InvWith(c, r, {}) && Admitted(c, r) && r.runRow == Success && IsJob(c, key)
    ensures key in r.sent && !Refused(c, key)
  {
    hide StagesOk, KeysOk, LogOk, OrderOk, ValidConfig;
    assert Good(c, r.log, key) || key in r.terminal;
  }

  lemma LostIsJob(c: Config, r: Run, key: JobKey)
    requires InvWith(c, r, {}) && key in r.lost
    ensures IsJob(c, key) && key !in r.sent
  {
    hide LogOk, OrderOk, RowsOk, ValidPlan;
    assert IsQueued(r, key);
    QueuedIsJob(c, r, key);
  }

  lemma QueuedIsJob(c: Config, r: Run, key: JobKey)
    requires InvWith(c, r, {}) && IsQueued(r, key)
    ensures IsJob(c, key)
  {
    hide KeysOk, LogOk, OrderOk, RowsOk;
  }

  lemma SentNeedsReleased(c: Config, r: Run, key: JobKey, n: Name)
    requires InvWith(c, r, {}) && key in r.terminal && IsJob(c, JobKey(key.stage, n)) && JobKey(key.stage, n) in r.sent
    ensures key.job !in c.plans[key.stage].needs[n]
  {
    hide LogOk, OrderOk, RowsOk, ValidPlan;
    assert IsQueued(r, JobKey(key.stage, n));
    assert key == JobKey(key.stage, key.job) && key.job !in Released(r, key.stage);
    assert n in Enabled(c.plans[key.stage], Released(r, key.stage));
  }

  lemma {:induction false} SuccessNeedsCompletable(c: Config, r: Run, steps: seq<Step>, r': Run)
    requires Inv(c, r) && Admitted(c, r) && Leads(c, r, steps, r') && r'.runRow == Success
    ensures Completable(c, r) && Addressable(c)
    decreases steps
  {
    hide Inv, Apply, CanStep, Admitted, Addressable;
    if steps == [] {
      SuccessIsCompletable(c, r);
    } else {
      StepKeeps(c, r, steps[0]);
      StepPersists(c, r, steps[0]);
      SuccessNeedsCompletable(c, Apply(c, r, steps[0]), steps[1..], r');
    }
  }

  /** A live run can still end as success exactly when no name is blank, no publish was lost and no job needs a cut-off
      one. */
  lemma SuccessIsReachableIff(c: Config, states: seq<Run>, steps: seq<Step>, i: nat)
    requires ValidConfig(c) && IsRun(c, states, steps) && i <= |steps| && states[i].live
    ensures (exists more, r :: Leads(c, states[i], more, r) && r.runRow == Success) <==>
      Completable(c, states[i]) && Addressable(c)
  {
    hide Inv, ValidConfig, Completable, Leads, Addressable;
    InvariantThroughout(c, states, steps, i);
    AdmittedThroughout(c, states, steps, i);
    if Completable(c, states[i]) && Addressable(c) {
      var more, r := RunCanFinish(c, states[i]);
    }
    if more, r :| Leads(c, states[i], more, r) && r.runRow == Success {
      SuccessNeedsCompletable(c, states[i], more, r);
    }
  }

  /** With a blank name no run ever ends as success. */
  lemma BlankNameNeverSucceeds(c: Config, states: seq<Run>, steps: seq<Step>, i: nat)
    requires ValidConfig(c) && !Addressable(c) && IsRun(c, states, steps) && i <= |steps|
    ensures states[i].runRow != Success
  {
    hide Inv, ValidConfig, Addressable;
    InvariantThroughout(c, states, steps, i);
    AdmittedThroughout(c, states, steps, i);
    if states[i].runRow == Success {
      SuccessIsCompletable(c, states[i]);
    }
  }
}
