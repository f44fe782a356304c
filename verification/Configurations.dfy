/** Which pipelines can be run, and with which configuration. Validation accepts fewer, but its answer may have been
    given for other content. */
module Configurations {
  import opened Models
  import opened Needs
  import opened Verifier
  import opened Planner
  import opened Stage
  import opened Scheduler
  import opened SchedulerInvariant

  datatype JobConfig = JobConfig(allowFailures: bool, needs: seq<Name>)

  function KeyOfJob(job: Job): JobKey {
    JobKey(job.stage, job.name)
  }

  function ConfigOfJob(job: Job): JobConfig {
    JobConfig(job.failures, job.needs)
  }

  /** One entry per (stage, name), with the settings of the last such job. */
  ghost predicate IsJobConfigs(jobs: seq<Job>, configs: map<JobKey, JobConfig>) {
    && (forall key :: key in configs <==> exists job :: job in jobs && KeyOfJob(job) == key)
    && LastWins(jobs, KeyOfJob, ConfigOfJob, configs)
  }

  function Allowed(configs: map<JobKey, JobConfig>): set<JobKey> {
    set key | key in configs && configs[key].allowFailures
  }

  /** buildJobConfigs. */
  method BuildJobConfigs(p: Pipeline) returns (configs: map<JobKey, JobConfig>)
    ensures IsJobConfigs(p.jobs, configs)
  {
    configs := map[];
    for n := 0 to |p.jobs|
      invariant forall key :: key in configs <==> exists i :: 0 <= i < n && KeyOfJob(p.jobs[i]) == key
      invariant LastWins(p.jobs[..n], KeyOfJob, ConfigOfJob, configs)
    {
      LastWinsStep(p.jobs[..n], KeyOfJob, ConfigOfJob, configs, p.jobs[n]);
      assert p.jobs[..n + 1] == p.jobs[..n] + [p.jobs[n]];
      configs := configs[KeyOfJob(p.jobs[n]) := ConfigOfJob(p.jobs[n])];
    }
    assert p.jobs[..|p.jobs|] == p.jobs;
  }

  /** With distinct names, the jobs whose configuration allows failures are the jobs declared so. */
  lemma AllowedAsDeclared(jobs: seq<Job>, configs: map<JobKey, JobConfig>)
    requires DistinctNames(jobs) && IsJobConfigs(jobs, configs)
    ensures Allowed(configs) == set job | job in jobs && job.failures :: KeyOfJob(job)
  {
    forall job | job in jobs ensures KeyOfJob(job) in configs && configs[KeyOfJob(job)].allowFailures == job.failures {
      var i :| 0 <= i < |jobs| && jobs[i] == job;
      assert IsLast(jobs, KeyOfJob, i);
    }
  }

  /** Stage plans built by the planner for each declared stage, and the jobs marked as allowed to fail. */
  ghost predicate IsConfigOf(p: Pipeline, c: Config) {
    && c.pipeline == p.name && c.order == p.stages
    && (forall s :: s in c.plans <==> s in p.stages)
    && (forall s :: s in p.stages ==> IsStagePlanOf(p, s, c.plans[s]))
    && exists configs :: IsJobConfigs(p.jobs, configs) && c.allow == Allowed(configs)
  }

  ghost predicate HasFreeJob(jobs: seq<Job>, s: Name) {
    exists job :: job in jobs && job.stage == s && job.needs == []
  }

  /** Distinct names, and in every stage a job to begin with. */
  ghost predicate Runnable(p: Pipeline) {
    && p.stages != [] && Distinct(p.stages) && DistinctNames(p.jobs)
    && forall s :: s in p.stages ==> HasFreeJob(p.jobs, s)
  }

  /** What the verifier accepts can be run. */
  lemma VerifiedIsRunnable(p: Pipeline)
    requires WellFormed(p)
    ensures Runnable(p)
  {
    forall s | s in p.stages ensures HasFreeJob(p.jobs, s) {
      JobsForStageMembers(s, p.jobs);
      StageSchedulable(p, s);
      var jobs := JobsForStageSpec(s, p.jobs);
      assert HasJob(p.jobs, s);
      if forall job :: job in jobs ==> job.needs != [] {
        forall job | job in jobs ensures exists n :: n in job.needs { assert job.needs[0] in job.needs; }
        assert Closed(jobs, {});
        assert false;
      }
    }
  }

  /** The theorems about runs speak of every runnable pipeline. */
  lemma RunnableIsValid(p: Pipeline, c: Config)
    requires Runnable(p) && IsConfigOf(p, c)
    ensures ValidConfig(c)
  {
    hide ValidPlan, IsStagePlan;
    forall s | s in c.plans ensures ValidPlan(c.plans[s]) {
      var order := OrderOf(p, c, s);
      var jobs := JobsForStageSpec(s, p.jobs);
      JobsForStageMembers(s, p.jobs);
      FreeIsScheduled(p, s, order, c.plans[s]);
      PlannedStageIsValid(jobs, order, c.plans[s]);
    }
  }

  lemma OrderOf(p: Pipeline, c: Config, s: Name) returns (order: seq<Job>)
    requires IsConfigOf(p, c) && s in c.plans
    ensures IsStagePlan(JobsForStageSpec(s, p.jobs), order, c.plans[s])
  {
    assert IsStagePlanOf(p, s, c.plans[s]);
    order :| IsStagePlan(JobsForStageSpec(s, p.jobs), order, c.plans[s]);
  }

  lemma FreeIsScheduled(p: Pipeline, s: Name, order: seq<Job>, plan: StagePlan)
    requires DistinctNames(JobsForStageSpec(s, p.jobs)) && HasFreeJob(p.jobs, s)
    requires IsStagePlan(JobsForStageSpec(s, p.jobs), order, plan)
    ensures order != []
  {
    JobsForStageMembers(s, p.jobs);
    var job :| job in p.jobs && job.stage == s && job.needs == [];
    assert job.name in NameSet(order);
  }

  /** A declared job is planned exactly when the schedule of its stage has it. */
  lemma PlannedIff(p: Pipeline, c: Config, order: seq<Job>, job: Job)
    requires DistinctNames(p.jobs) && IsConfigOf(p, c) && job in p.jobs && job.stage in p.stages
    requires IsStagePlan(JobsForStageSpec(job.stage, p.jobs), order, c.plans[job.stage])
    ensures IsJob(c, KeyOfJob(job)) <==> job in order
  {
    JobsForStageMembers(job.stage, p.jobs);
    if job.name in NameSet(order) {
      var other :| other in order && other.name == job.name;
      SameNameSameJob(p.jobs, job, other);
    }
  }

  /** Of the runnable pipelines, the verifier accepts exactly those of which every declared job is planned. */
  lemma AllPlannedIffVerified(p: Pipeline, c: Config)
    requires Runnable(p) && IsConfigOf(p, c)
    ensures (forall job :: job in p.jobs ==> IsJob(c, KeyOfJob(job))) <==> WellFormed(p)
  {
    hide IsStagePlan, IsStagePlanOf;
    if WellFormed(p) {
      forall job | job in p.jobs ensures IsJob(c, KeyOfJob(job)) { VerifiedIsPlanned(p, c, job); }
    }
    if forall job :: job in p.jobs ==> IsJob(c, KeyOfJob(job)) {
      PlannedIsVerified(p, c);
    }
  }

  lemma VerifiedIsPlanned(p: Pipeline, c: Config, job: Job)
    requires WellFormed(p) && IsConfigOf(p, c) && job in p.jobs
    ensures IsJob(c, KeyOfJob(job))
  {
    var order := OrderOf(p, c, job.stage);
    JobsForStageMembers(job.stage, p.jobs);
    StageOrderComplete(p, job.stage, order);
    PlannedIff(p, c, order, job);
  }

  lemma PlannedIsVerified(p: Pipeline, c: Config)
    requires Runnable(p) && IsConfigOf(p, c) && forall job :: job in p.jobs ==> IsJob(c, KeyOfJob(job))
    ensures WellFormed(p)
  {
    hide IsStagePlan, IsStagePlanOf, Acyclic, Schedulable;
    forall s | s in p.stages ensures HasJob(p.jobs, s) {
      assert HasFreeJob(p.jobs, s);
    }
    assert HasFreeJob(p.jobs, p.stages[0]);
    forall job, need | job in p.jobs && need in job.needs ensures JobInStage(p.jobs, need, job.stage) {
      NeedIsPlanned(p, c, job, need);
    }
    forall s ensures Schedulable(JobsForStageSpec(s, p.jobs)) {
      PlannedIsSchedulable(p, c, s);
    }
    VerifierAndPlannerAgree(p.jobs);
  }

  lemma NeedIsPlanned(p: Pipeline, c: Config, job: Job, need: Name)
    requires DistinctNames(p.jobs) && IsConfigOf(p, c) && job in p.jobs && need in job.needs && IsJob(c, KeyOfJob(job))
    ensures JobInStage(p.jobs, need, job.stage)
  {
    JobsForStageMembers(job.stage, p.jobs);
    var order := OrderOf(p, c, job.stage);
    PlannedIff(p, c, order, job);
    ScheduleFacts(p, job.stage, order, c.plans[job.stage]);
    hide IsConfigOf, IsStagePlan, DistinctNames, JobsForStageSpec, NeedsFirst;
    var other := EarlierJob(order, job, need);
  }

  lemma ScheduleFacts(p: Pipeline, s: Name, order: seq<Job>, plan: StagePlan)
    requires DistinctNames(JobsForStageSpec(s, p.jobs)) && IsStagePlan(JobsForStageSpec(s, p.jobs), order, plan)
    ensures NeedsFirst(order) && forall job :: job in order ==> job in p.jobs && job.stage == s
  {
    JobsForStageMembers(s, p.jobs);
  }

  lemma EarlierJob(order: seq<Job>, job: Job, need: Name) returns (other: Job)
    requires NeedsFirst(order) && job in order && need in job.needs
    ensures other in order && other.name == need
  {
    var i :| 0 <= i < |order| && order[i] == job;
    assert need in NameSet(order[..i]);
    other :| other in order[..i] && other.name == need;
  }

  lemma PlannedIsSchedulable(p: Pipeline, c: Config, s: Name)
    requires DistinctNames(p.jobs) && IsConfigOf(p, c) && forall job :: job in p.jobs ==> IsJob(c, KeyOfJob(job))
    ensures Schedulable(JobsForStageSpec(s, p.jobs))
  {
    hide DistinctNames, IsStagePlan, IsStagePlanOf, Schedulable, IsJob, IsJobConfigs;
    JobsForStageMembers(s, p.jobs);
    var jobs := JobsForStageSpec(s, p.jobs);
    if s in p.stages {
      var order := OrderOf(p, c, s);
      forall job | job in jobs ensures job.name in NameSet(order) { PlannedIff(p, c, order, job); }
      FullScheduleIsTotal(jobs, order, c.plans[s]);
    } else {
      forall job ensures job !in jobs { StageIsDeclared(p, c, job); }
      NoJobsSchedulable(jobs);
    }
  }

  lemma StageIsDeclared(p: Pipeline, c: Config, job: Job)
    requires IsConfigOf(p, c) && (job in p.jobs ==> IsJob(c, KeyOfJob(job)))
    ensures job in p.jobs ==> job.stage in p.stages
  {
  }

  lemma FullScheduleIsTotal(jobs: seq<Job>, order: seq<Job>, plan: StagePlan)
    requires DistinctNames(jobs) && IsStagePlan(jobs, order, plan) && NameSet(jobs) <= NameSet(order)
    ensures Schedulable(jobs)
  {
  }
}
