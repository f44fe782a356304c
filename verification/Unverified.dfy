/** What validation is worth to a run: exactly the verified pipelines finish with every declared job dealt with, and
    exactly those without blank names can finish at all. */
module Unverified {
  import opened Models
  import opened Strings
  import opened Needs
  import opened Verifier
  import opened Scheduler
  import opened SchedulerInvariant
  import opened SchedulerTheorems
  import opened SchedulerFaults
  import opened Configurations
  import opened Progress
  import opened Unearned

  /** A job that is not planned is never passed to enqueueJob, and never reported. */
  lemma OnlyPlannedJobsRun(c: Config, states: seq<Run>, steps: seq<Step>, i: nat, key: JobKey)
    requires ValidConfig(c) && IsRun(c, states, steps) && i <= |steps|
    requires exists e :: e in states[i].log && e.key == key
    ensures IsJob(c, key)
  {
    hide ValidConfig, Apply, CanStep, InvWith, Settled;
    InvariantThroughout(c, states, steps, i);
    AdmittedThroughout(c, states, steps, i);
    if key in states[i].sent {
      SentIsStarted(c, states[i], key);
    } else {
      var k :| 0 <= k < |states[i].log| && states[i].log[k] == Enqueued(key);
      EnqueuedInOrder(c, states, steps, i, k);
    }
  }

  /** In a successful run with recorded failures, every declared job reported success or an allowed failure exactly when
      the pipeline is one that the verifier accepts. */
  lemma DeclaredAllGoodIff(p: Pipeline, c: Config, states: seq<Run>, steps: seq<Step>)
    requires Runnable(p) && IsConfigOf(p, c) && IsRun(c, states, steps) && states[|steps|].runRow == Success
    requires forall k :: 0 <= k < |steps| ==> Recorded(c, steps[k])
    ensures (forall job :: job in p.jobs ==> Good(c, states[|steps|].log, KeyOfJob(job))) <==> WellFormed(p)
  {
    hide Runnable, IsConfigOf, ValidConfig, Apply, CanStep, WellFormed, Recorded, StrictOrder, IsJob;
    RunnableIsValid(p, c);
    RecordedRunsAreExact(c, states, steps, |steps|);
    AllPlannedIffVerified(p, c);
    forall job | job in p.jobs && Good(c, states[|steps|].log, KeyOfJob(job)) ensures IsJob(c, KeyOfJob(job)) {
      OnlyPlannedJobsRun(c, states, steps, |steps|, KeyOfJob(job));
    }
  }

  /** Every other runnable pipeline has a run that ends as success with a declared job never enqueued. */
  lemma UnverifiedCanSucceed(p: Pipeline, c: Config) returns (states: seq<Run>, steps: seq<Step>, job: Job)
    requires Runnable(p) && !WellFormed(p) && IsConfigOf(p, c) && Addressable(c)
    ensures IsRun(c, states, steps) && states[|steps|].runRow == Success
    ensures job in p.jobs && Enqueued(KeyOfJob(job)) !in states[|steps|].log
  {
    hide Runnable, IsConfigOf, ValidConfig, Apply, CanStep, WellFormed, IsJob, Addressable;
    RunnableIsValid(p, c);
    AllPlannedIffVerified(p, c);
    job :| job in p.jobs && !IsJob(c, KeyOfJob(job));
    InitHolds(c);
    NothingIsSkippable(c, Init(c));
    states, steps := SkippableIsSkipped(c, {});
    if Enqueued(KeyOfJob(job)) in states[|steps|].log {
      OnlyPlannedJobsRun(c, states, steps, |steps|, KeyOfJob(job));
    }
  }

  /** Neither the pipeline nor any declared stage or job has a blank name. */
  ghost predicate Named(p: Pipeline) {
    !Blank(p.name) && forall job :: job in p.jobs ==> !Blank(job.stage) && !Blank(job.name)
  }

  /** For a verified pipeline, callbacks are admitted exactly when no name is blank. */
  lemma AddressableIffNamed(p: Pipeline, c: Config)
    requires WellFormed(p) && IsConfigOf(p, c)
    ensures Addressable(c) <==> Named(p)
  {
    hide WellFormed, Blank, IsConfigOf, IsJob, TrimSpace;
    DeclaredAreJobs(p, c);
    forall key | IsJob(c, key) ensures exists job :: job in p.jobs && KeyOfJob(job) == key {
      JobIsDeclared(p, c, key);
    }
    if Addressable(c) {
      forall job | job in p.jobs ensures !Blank(p.name) && !Blank(job.stage) && !Blank(job.name) {
        assert !Refused(c, KeyOfJob(job));
      }
      assert !Blank(p.name) by { assert p.jobs[0] in p.jobs; }
    }
  }

  lemma DeclaredAreJobs(p: Pipeline, c: Config)
    requires WellFormed(p) && IsConfigOf(p, c)
    ensures p.jobs != [] && c.pipeline == p.name && forall job :: job in p.jobs ==> IsJob(c, KeyOfJob(job))
  {
    VerifiedIsRunnable(p);
    hide Runnable;
    AllPlannedIffVerified(p, c);
  }

  lemma JobIsDeclared(p: Pipeline, c: Config, key: JobKey)
    requires IsConfigOf(p, c) && IsJob(c, key)
    ensures exists job :: job in p.jobs && KeyOfJob(job) == key
  {
    var order := OrderOf(p, c, key.stage);
    JobsForStageMembers(key.stage, p.jobs);
    var job :| job in JobsForStageSpec(key.stage, p.jobs) && job.name == key.job;
    assert KeyOfJob(job) == key;
  }

  /** A verified pipeline has a run that ends as success exactly when no name is blank; the verifier does not check
      it. */
  lemma VerifiedCanSucceedIff(p: Pipeline, c: Config)
    requires WellFormed(p) && IsConfigOf(p, c)
    ensures (exists states, steps :: EndsWithout(c, states, steps, {})) <==> Named(p)
  {
    hide IsConfigOf, ValidConfig, Runnable, EndsWithout, Named, Addressable, Skippable;
    VerifiedIsRunnable(p);
    RunnableIsValid(p, c);
    AddressableIffNamed(p, c);
    InitHolds(c);
    NothingIsSkippable(c, Init(c));
    SuccessWithoutIff(c, {});
  }

  /** A stage with one job whose name is a space. */
  const BLANK_JOB := Pipeline("nightly", ["build"], [Job(" ", "build", "alpine", [], [], false)])

  /** The verifier accepts it, and none of its runs ever ends as success. */
  lemma BlankJobNeverSucceeds(c: Config, states: seq<Run>, steps: seq<Step>, i: nat)
    requires IsConfigOf(BLANK_JOB, c) && IsRun(c, states, steps) && i <= |steps|
    ensures WellFormed(BLANK_JOB) && states[i].runRow != Success
  {
    hide IsConfigOf, Apply, CanStep, ValidConfig, Addressable;
    BlankJobIsVerified();
    VerifiedIsRunnable(BLANK_JOB);
    RunnableIsValid(BLANK_JOB, c);
    AddressableIffNamed(BLANK_JOB, c);
    BlankMeaning(" ");
    assert BLANK_JOB.jobs[0] in BLANK_JOB.jobs;
    BlankNameNeverSucceeds(c, states, steps, i);
  }

  lemma BlankJobIsVerified()
    ensures WellFormed(BLANK_JOB)
  {
    var p := BLANK_JOB;
    var job := p.jobs[0];
    assert job in p.jobs && HasJob(p.jobs, "build");
    assert p.jobs[..0] == [];
    assert IsRank(NeedsGraph(p.jobs), map[]);
  }
}
