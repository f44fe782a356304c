/** Exactly which jobs can fail without permission in a run that ends as success, and exactly when a stage can be
    started over such a failure: the pipeline alone decides. */
module Unearned {
  import opened Models
  import opened Strings
  import opened Stage
  import opened Scheduler
  import opened SchedulerInvariant
  import opened SchedulerTheorems
  import opened SchedulerFaults
  import opened Progress
  import opened Handovers

  /** The run ends as success although no job of `bad` reported success or an allowed failure. */
  ghost predicate EndsWithout(c: Config, states: seq<Run>, steps: seq<Step>, bad: set<JobKey>) {
    && IsRun(c, states, steps) && states[|steps|].runRow == Success
    && forall key :: key in bad ==> IsJob(c, key) && !Good(c, states[|steps|].log, key)
  }

  /* From such a run to the shape of the pipeline. */

  lemma CutOffIsDispensed(c: Config, r: Run, key: JobKey)
    requires Inv(c, r) && Admitted(c, r) && Handed(c, r) && r.runRow == Success
    requires IsJob(c, key) && !Good(c, r.log, key)
    ensures Dispensed(c, key)
  {
    hide Settled, StagesOk, KeysOk, LogOk, OrderOk, Good, EnqueuesHanded, SomeGood;
    assert key in r.terminal;
    SuccessIsCompletable(c, r);
  }

  lemma EveryStageHasGood(c: Config, r: Run, s: Name)
    requires Inv(c, r) && Admitted(c, r) && Handed(c, r) && r.runRow == Success && s in c.plans
    ensures SomeGood(c, r.log, s)
  {
    hide InvWith, Settled, Admitted, EnqueuesHanded, SomeGood;
    ConfigIsValid(c, r);
    var i := PositionOf(c, r, s);
    if i + 1 < |c.order| {
      var t := c.order[i + 1];
      assert t in c.order;
      var n := SomeJob(c, t);
      JobWasReported(c, r, JobKey(t, n));
      SentIsStarted(c, r, JobKey(t, n));
    }
  }

  lemma ConfigIsValid(c: Config, r: Run)
    requires InvWith(c, r, {})
    ensures ValidConfig(c) && forall s :: s in c.plans <==> s in c.order
  {
  }

  lemma SuccessSkipsOnlySkippable(c: Config, states: seq<Run>, steps: seq<Step>, bad: set<JobKey>)
    requires ValidConfig(c) && EndsWithout(c, states, steps, bad)
    ensures Skippable(c, bad) && Addressable(c)
  {
    hide ValidConfig, Inv, Apply, CanStep, Handed, Admitted, Good, Dispensed, Addressable;
    var r := states[|steps|];
    InvariantThroughout(c, states, steps, |steps|);
    AdmittedThroughout(c, states, steps, |steps|);
    HandedThroughout(c, states, steps, |steps|);
    SuccessIsCompletable(c, r);
    forall key | key in bad ensures Dispensed(c, key) { CutOffIsDispensed(c, r, key); }
    forall s | s in c.plans ensures HasOther(c, s, bad) {
      EveryStageHasGood(c, r, s);
      var n :| IsJob(c, JobKey(s, n)) && Good(c, r.log, JobKey(s, n));
    }
  }

  /* From the shape of the pipeline to such a run. */

  lemma {:induction false} LeadsIsRun(c: Config, r: Run, steps: seq<Step>, r': Run) returns (states: seq<Run>)
    requires Leads(c, r, steps, r')
    ensures |states| == |steps| + 1 && states[0] == r && states[|steps|] == r'
    ensures forall i {:trigger steps[i]} :: 0 <= i < |steps| ==>
      CanStep(states[i], steps[i]) && states[i + 1] == Apply(c, states[i], steps[i])
    decreases steps
  {
    hide Apply, CanStep;
    if steps == [] {
      states := [r];
    } else {
      var rest := LeadsIsRun(c, Apply(c, r, steps[0]), steps[1..], r');
      states := [r] + rest;
      forall i | 0 <= i < |steps|
        ensures CanStep(states[i], steps[i]) && states[i + 1] == Apply(c, states[i], steps[i])
      {
        if i > 0 {
          assert steps[1..][i - 1] == steps[i];
        }
      }
    }
  }

  lemma SkippableIsSkipped(c: Config, bad: set<JobKey>) returns (states: seq<Run>, steps: seq<Step>)
    requires ValidConfig(c) && Skippable(c, bad) && Addressable(c)
    ensures EndsWithout(c, states, steps, bad)
  {
    hide ValidConfig, Inv, Apply, CanStep, Leads;
    var r;
    InitHolds(c);
    StartsClean(c);
    steps, r := RunCanFinishWithout(c, Init(c), bad);
    states := LeadsIsRun(c, Init(c), steps, r);
    assert Init(c).log == [];
  }

  lemma StartsClean(c: Config)
    ensures Completable(c, Init(c)) && Init(c).live
  {
  }

  /** For every set of jobs: some run ends as success with none of them good, if and only if none of them is allowed to
      fail or needed by another job, every stage has a job outside the set, and no name is blank. */
  lemma SuccessWithoutIff(c: Config, bad: set<JobKey>)
    requires ValidConfig(c)
    ensures (exists states, steps :: EndsWithout(c, states, steps, bad)) <==>
      Skippable(c, bad) && Addressable(c)
  {
    hide ValidConfig, EndsWithout, Skippable, Addressable;
    if states, steps :| EndsWithout(c, states, steps, bad) {
      SuccessSkipsOnlySkippable(c, states, steps, bad);
    }
    if Skippable(c, bad) && Addressable(c) {
      var states, steps := SkippableIsSkipped(c, bad);
    }
  }

  /** One job that may be cut off, with another one in its stage. */
  ghost predicate Spare(c: Config, key: JobKey) {
    Dispensed(c, key) && HasOther(c, key.stage, {key})
  }

  lemma SpareIsSkippable(c: Config, key: JobKey)
    requires ValidConfig(c)
    ensures Skippable(c, {key}) <==> Spare(c, key)
  {
    hide ValidPlan;
    if Spare(c, key) {
      forall s | s in c.plans ensures HasOther(c, s, {key}) {
        var n := SomeJob(c, s);
        assert JobKey(s, n) == key ==> s == key.stage;
      }
    }
  }

  /** A run can end as success over a disallowed failure exactly when some job that may not fail is needed by none
      and is not alone in its stage, and no name is blank. */
  lemma UnearnedSuccessIff(c: Config)
    requires ValidConfig(c)
    ensures (exists states, steps, key :: EndsWithout(c, states, steps, {key})) <==>
      Addressable(c) && exists key :: Spare(c, key)
  {
    hide ValidConfig, EndsWithout, Skippable, Spare, Addressable;
    if states, steps, key :| EndsWithout(c, states, steps, {key}) {
      SuccessSkipsOnlySkippable(c, states, steps, {key});
      SpareIsSkippable(c, key);
    }
    if key :| Addressable(c) && Spare(c, key) {
      SpareIsSkippable(c, key);
      var states, steps := SkippableIsSkipped(c, {key});
    }
  }

  /* The same for the order of enqueues. */

  ghost predicate Later(c: Config, s: Name, t: Name) {
    exists i, j :: 0 <= i < j < |c.order| && c.order[i] == s && c.order[j] == t
  }

  /** A job of a later stage is enqueued at a time when `key` is not good. */
  ghost predicate Overtaken(c: Config, log: seq<Event>, key: JobKey) {
    exists k :: 0 <= k < |log| && log[k].Enqueued? && Later(c, key.stage, log[k].key.stage) && !Good(c, log[..k], key)
  }

  ghost predicate Overtakes(c: Config, states: seq<Run>, steps: seq<Step>, key: JobKey) {
    IsRun(c, states, steps) && IsJob(c, key) && Overtaken(c, states[|steps|].log, key)
  }

  lemma OvertakenIsSpare(c: Config, r: Run, key: JobKey)
    requires Inv(c, r) && Admitted(c, r) && Handed(c, r) && IsJob(c, key) && Overtaken(c, r.log, key)
    ensures Spare(c, key) && ReachesPast(c, key)
  {
    hide InvWith, Settled, EnqueuesHanded, Good, Distinct, Admitted;
    ConfigIsValid(c, r);
    var k :|
      0 <= k < |r.log| && r.log[k].Enqueued? && Later(c, key.stage, r.log[k].key.stage) && !Good(c, r.log[..k], key);
    var t := r.log[k].key.stage;
    var i, j :| 0 <= i < j < |c.order| && c.order[i] == key.stage && c.order[j] == t;
    OvertakenIsCut(c, r, key, k, i, j);
    EnqueuedIsStarted(c, r, r.log[k].key);
    EarlierComplete(c, r, {}, i, j);
    forall n | IsJob(c, JobKey(key.stage, n)) ensures key.job !in c.plans[key.stage].needs[n] {
      CompleteIsSent(c, r, JobKey(key.stage, n));
      SentNeedsReleased(c, r, key, n);
    }
    EarlierIsAddressable(c, r, i, j);
    hide AddressableUpTo;
    assert i + 1 < |c.order|;
  }

  /** The stage of `key` can be handed over to another one. */
  ghost predicate ReachesPast(c: Config, key: JobKey) {
    exists i :: 0 <= i < |c.order| - 1 && c.order[i] == key.stage && AddressableUpTo(c, i)
  }

  lemma EarlierIsAddressable(c: Config, r: Run, i: nat, j: nat)
    requires InvWith(c, r, {}) && Admitted(c, r) && i < j < |c.order| && Started(r, c.order[j])
    ensures AddressableUpTo(c, i)
  {
    hide InvWith;
    forall h, n | 0 <= h <= i && IsJob(c, JobKey(c.order[h], n)) ensures !Refused(c, JobKey(c.order[h], n)) {
      EarlierComplete(c, r, {}, h, j);
      assert IsCompleted(r, JobKey(c.order[h], n));
      CompletedIsAccountedFor(c, r, JobKey(c.order[h], n));
    }
  }

  lemma OvertakenIsCut(c: Config, r: Run, key: JobKey, k: nat, i: nat, j: nat)
    requires InvWith(c, r, {}) && EnqueuesHanded(c, r.log) && IsJob(c, key)
    requires k < |r.log| && r.log[k].Enqueued? && !Good(c, r.log[..k], key)
    requires i < j < |c.order| && c.order[i] == key.stage && c.order[j] == r.log[k].key.stage
    ensures key in r.terminal && HasOther(c, key.stage, {key})
  {
    hide StagesOk, KeysOk, OrderOk, RowsOk, ValidConfig, Good;
    assert InOrder(c, r.terminal, r.log[..k], r.log[k].key);
    assert key == JobKey(c.order[i], key.job) && key in r.terminal;
    assert SomeGood(c, r.log[..k], c.order[i]);
  }

  lemma EnqueuedIsStarted(c: Config, r: Run, key: JobKey)
    requires InvWith(c, r, {}) && Enqueued(key) in r.log
    ensures Started(r, key.stage)
  {
    hide StagesOk, OrderOk, RowsOk, ValidPlan;
    assert key in r.sent || key in r.lost;
    assert IsQueued(r, key);
  }

  lemma CompleteIsSent(c: Config, r: Run, key: JobKey)
    requires InvWith(c, r, {}) && IsJob(c, key) && Complete(c, r, key.stage)
    ensures key in r.sent
  {
    hide StagesOk, LogOk, OrderOk, RowsOk, ValidPlan;
    assert IsCompleted(r, key);
  }

  lemma SpareIsOvertaken(c: Config, key: JobKey) returns (states: seq<Run>, steps: seq<Step>)
    requires ValidConfig(c) && Spare(c, key) && ReachesPast(c, key)
    ensures Overtakes(c, states, steps, key)
  {
    hide ValidPlan, Apply, CanStep, Good, AddressableUpTo, Overtaken, Started;
    var i :| 0 <= i < |c.order| - 1 && c.order[i] == key.stage && AddressableUpTo(c, i);
    states, steps := SpareIsPassed(c, key, i);
    assert c.order[i + 1] in c.order;
    var n := StartedIsEnqueued(c, states, steps, c.order[i + 1]);
    NeverGoodIsOvertaken(c, states[|steps|].log, key, i, n);
  }

  lemma SpareIsPassed(c: Config, key: JobKey, i: nat) returns (states: seq<Run>, steps: seq<Step>)
    requires ValidConfig(c) && Spare(c, key) && i < |c.order| - 1 && AddressableUpTo(c, i)
    ensures IsRun(c, states, steps) && Started(states[|steps|], c.order[i + 1]) && states[|steps|].lost == {}
    ensures !Good(c, states[|steps|].log, key)
  {
    hide ValidConfig, Inv, Apply, CanStep, Good, Skippable, Leads, AddressableUpTo, Started, Init, Spare;
    SpareIsSkippable(c, key);
    InitHolds(c);
    StartsClean(c);
    var r;
    steps, r := RunReaches(c, Init(c), {key}, i);
    states := LeadsIsRun(c, Init(c), steps, r);
    NotGoodYet(c, key);
    assert key in {key};
  }

  lemma NeverGoodIsOvertaken(c: Config, log: seq<Event>, key: JobKey, i: nat, n: Name)
    requires i < |c.order| - 1 && c.order[i] == key.stage && Enqueued(JobKey(c.order[i + 1], n)) in log
    requires !Good(c, log, key)
    ensures Overtaken(c, log, key)
  {
    hide Good;
    var k :| 0 <= k < |log| && log[k] == Enqueued(JobKey(c.order[i + 1], n));
    assert Later(c, key.stage, c.order[i + 1]);
    if Good(c, log[..k], key) {
      GoodGrows(c, log[..k], log, key);
    }
  }

  lemma NotGoodYet(c: Config, key: JobKey)
    ensures !Good(c, Init(c).log, key)
  {
  }

  lemma GoodGrows(c: Config, log: seq<Event>, log': seq<Event>, key: JobKey)
    requires log <= log' && Good(c, log, key)
    ensures Good(c, log', key)
  {
    assert forall e :: e in log ==> e in log';
  }

  lemma StartedIsEnqueued(c: Config, states: seq<Run>, steps: seq<Step>, s: Name) returns (n: Name)
    requires ValidConfig(c) && IsRun(c, states, steps) && s in c.plans && c.order != [] && s != c.order[0]
    requires Started(states[|steps|], s) && states[|steps|].lost == {}
    ensures Enqueued(JobKey(s, n)) in states[|steps|].log
  {
    hide InvWith, Settled, Apply, CanStep, EnqueuesHanded, SomeGood, ValidPlan;
    InvariantThroughout(c, states, steps, |steps|);
    HandedThroughout(c, states, steps, |steps|);
    n := StartedIsSent(c, states[|steps|], s);
  }

  lemma StartedIsSent(c: Config, r: Run, s: Name) returns (n: Name)
    requires InvWith(c, r, {}) && Started(r, s) && r.lost == {} && s != c.order[0]
    ensures JobKey(s, n) in r.sent
  {
    hide StagesOk, LogOk, RowsOk, ValidPlan;
    n :| n in r.stages[s].queued;
    assert IsQueued(r, JobKey(s, n));
  }

  /** A stage can be started over a job of an earlier one that was neither good nor allowed to fail exactly when such a
      job is spare, its stage is not the last, and no name in the stages up to it is blank. */
  lemma OvertakenIff(c: Config)
    requires ValidConfig(c)
    ensures (exists states, steps, key :: Overtakes(c, states, steps, key)) <==>
      exists key :: Spare(c, key) && ReachesPast(c, key)
  {
    hide Spare, Inv, Handed, Apply, CanStep, Overtaken, ReachesPast, Admitted;
    if states, steps, key :| Overtakes(c, states, steps, key) {
      InvariantThroughout(c, states, steps, |steps|);
      AdmittedThroughout(c, states, steps, |steps|);
      HandedThroughout(c, states, steps, |steps|);
      OvertakenIsSpare(c, states[|steps|], key);
    }
    if key :| Spare(c, key) && ReachesPast(c, key) {
      var states, steps := SpareIsOvertaken(c, key);
    }
  }

  /** A concrete case: two independent jobs that may not fail. */
  lemma UnrecordedFailureEndsInSuccess(p: Name, s: Name, a: Name, b: Name)
    returns (c: Config, states: seq<Run>, steps: seq<Step>)
    requires a != b && !Blank(p) && !Blank(s) && !Blank(a) && !Blank(b)
    ensures ValidConfig(c) && IsRun(c, states, steps)
    ensures states[|steps|].runRow == Success && IsJob(c, JobKey(s, a)) && !Good(c, states[|steps|].log, JobKey(s, a))
  {
    c := TwoJobs(p, s, a, b, false);
    TwoJobsIsValid(p, s, a, b, false);
    FirstIsSpare(p, s, a, b);
    hide ValidConfig, Apply, CanStep, Good, Spare, Addressable, TwoJobs;
    var key := JobKey(s, a);
    SpareIsSkippable(c, key);
    states, steps := SkippableIsSkipped(c, {key});
    assert key in {key};
  }

  lemma FirstIsSpare(p: Name, s: Name, a: Name, b: Name)
    requires a != b && !Blank(p) && !Blank(s) && !Blank(a) && !Blank(b)
    ensures var c := TwoJobs(p, s, a, b, false); Addressable(c) && Spare(c, JobKey(s, a))
  {
    hide Blank;
    var c := TwoJobs(p, s, a, b, false);
    assert IsJob(c, JobKey(s, b)) && JobKey(s, b) !in {JobKey(s, a)};
  }
}
