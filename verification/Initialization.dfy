/** From a pipeline to a run: the runtime that initializePipelineRuntime registers, and the key it is
    registered under. */
module Initialization {
  import opened Models
  import opened Verifier
  import opened Planner
  import opened Stage
  import opened Scheduler
  import opened Configurations
  import opened Orchestrator

  /** The stage records built so far, each for its own stage and untouched. */
  ghost predicate FreshStages(p: Pipeline, states: map<Name, StageState>, done: seq<Name>)
    reads states.Values
  {
    && (forall s :: s in states <==> s in done)
    && (forall s :: s in states ==> IsStagePlanOf(p, s, states[s].plan) && states[s].View() == Initial(states[s].plan))
    && (forall s, t :: s in states && t in states && s != t ==> states[s] != states[t])
  }

  method AddStage(p: Pipeline, states: map<Name, StageState>, done: seq<Name>, stage: Name)
    returns (states': map<Name, StageState>)
    requires FreshStages(p, states, done) && stage !in states
    ensures FreshStages(p, states', done + [stage])
  {
    hide IsStagePlanOf;
    var plan := BuildStagePlan(stage, p);
    var state := new StageState(plan);
    states' := states[stage := state];
  }

  lemma NoStages(p: Pipeline)
    ensures FreshStages(p, map[], p.stages[..0])
  {
  }

  lemma AddedStages(p: Pipeline, states: map<Name, StageState>, done: seq<Name>)
    requires FreshStages(p, states, done)
    ensures forall s :: s in states <==> s in done
  {
  }

  /** What creating the run record gives: a new run, one already in flight for the same request, or an error. */
  datatype RunStart = Created | InFlight(runNo: nat, status: string) | Refused

  /** `Abandoned`: a row could not be created, and the run row is closed as failed, with the row of `stage` if it was
      the row of one of its jobs. `Ended`: there is no stage, and the run row is closed as success at once. */
  datatype SetUp =
    | Registered(run: RunController)
    | Deduplicated(runNo: nat, status: string)
    | NotCreated
    | Abandoned(stage: Option<Name>)
    | Ended
    | NotEnded

  /** The row of every job in the plan of the stage can be created. */
  ghost predicate JobRowsOk(stage: StageExecutionPlan, jobWrite: JobKey -> bool) {
    forall i :: 0 <= i < |stage.jobs| ==> jobWrite(JobKey(stage.name, stage.jobs[i].name))
  }

  ghost predicate FailsAt(plan: ExecutionPlan, s: Name, jobWrite: JobKey -> bool) {
    exists stage :: stage in plan.stages && stage.name == s && !JobRowsOk(stage, jobWrite)
  }

  /** A write to the store, tried in this order; `allowFailure` is kept in the job row. */
  datatype Write =
    | StageRow(stage: Name)
    | JobRow(key: JobKey, allowFailure: bool)
    | CloseStage(stage: Name, status: Status)
    | CloseRun(status: Status)

  function StageWrites(stage: StageExecutionPlan, allow: set<JobKey>): (writes: seq<Write>)
    ensures |writes| == 1 + |stage.jobs| && writes[0] == StageRow(stage.name)
    ensures forall i :: 0 <= i < |stage.jobs| ==>
      writes[1 + i] == JobRow(JobKey(stage.name, stage.jobs[i].name), JobKey(stage.name, stage.jobs[i].name) in allow)
  {
    [StageRow(stage.name)] +
    seq(|stage.jobs|, i requires 0 <= i < |stage.jobs| =>
      JobRow(JobKey(stage.name, stage.jobs[i].name), JobKey(stage.name, stage.jobs[i].name) in allow))
  }

  /** Stage by stage in plan order, each stage row before the rows of its jobs. */
  function AllWrites(stages: seq<StageExecutionPlan>, allow: set<JobKey>): seq<Write> {
    if stages == [] then [] else
    AllWrites(stages[..|stages| - 1], allow) + StageWrites(stages[|stages| - 1], allow)
  }

  method StartJobs(stage: StageExecutionPlan, allow: set<JobKey>, jobWrite: JobKey -> bool)
    returns (ok: bool, writes: seq<Write>)
    ensures ok <==> JobRowsOk(stage, jobWrite)
    ensures 0 < |writes| <= |StageWrites(stage, allow)| && writes == StageWrites(stage, allow)[..|writes|]
    ensures ok ==> writes == StageWrites(stage, allow)
    ensures !ok ==> var last := writes[|writes| - 1]; last.JobRow? && !jobWrite(last.key)
  {
    hide StageWrites;
    writes := [StageRow(stage.name)];
    StageWritesFirst(stage, allow);
    for i := 0 to |stage.jobs|
      invariant writes == StageWrites(stage, allow)[..i + 1]
      invariant forall k :: 0 <= k < i ==> jobWrite(JobKey(stage.name, stage.jobs[k].name))
    {
      var key := JobKey(stage.name, stage.jobs[i].name);
      StageWritesNext(stage, allow, i);
      writes := writes + [JobRow(key, key in allow)];
      if !jobWrite(key) {
        return false, writes;
      }
    }
    return true, writes;
  }

  lemma StageWritesFirst(stage: StageExecutionPlan, allow: set<JobKey>)
    ensures StageWrites(stage, allow)[..1] == [StageRow(stage.name)]
  {
  }

  lemma StageWritesNext(stage: StageExecutionPlan, allow: set<JobKey>, i: nat)
    requires i < |stage.jobs|
    ensures var key := JobKey(stage.name, stage.jobs[i].name);
      StageWrites(stage, allow)[..i + 2] == StageWrites(stage, allow)[..i + 1] + [JobRow(key, key in allow)]
  {
  }

  /** The writes of an abandoned set-up, before the rows are closed: all of the stages before the k-th, and then up
      to the write that failed. */
  ghost predicate TriedUpTo(writes: seq<Write>, stages: seq<StageExecutionPlan>, allow: set<JobKey>, at: Option<Name>,
                            k: nat)
    requires k < |stages|
  {
    match at
    case None => writes == AllWrites(stages[..k], allow) + [StageRow(stages[k].name)]
    case Some(s) =>
      s == stages[k].name && exists n ::
        2 <= n <= |StageWrites(stages[k], allow)| &&
        writes == AllWrites(stages[..k], allow) + StageWrites(stages[k], allow)[..n]
  }

  ghost predicate Tried(writes: seq<Write>, stages: seq<StageExecutionPlan>, allow: set<JobKey>, at: Option<Name>) {
    exists k :: 0 <= k < |stages| && TriedUpTo(writes, stages, allow, at, k)
  }

  /** The row of every declared stage and of every declared job can be created. */
  ghost predicate CanBeRecorded(p: Pipeline, stageWrite: Name -> bool, jobWrite: JobKey -> bool) {
    && (forall s :: s in p.stages ==> stageWrite(s))
    && (forall job :: job in p.jobs ==> jobWrite(KeyOfJob(job)))
  }

  /** The rows written along the plan are the rows of the declared jobs. */
  lemma PlannedRows(p: Pipeline, plan: ExecutionPlan, jobWrite: JobKey -> bool)
    requires WellFormed(p) && IsPlanOf(p, plan)
    ensures |plan.stages| == |p.stages| && forall k :: 0 <= k < |p.stages| ==> plan.stages[k].name == p.stages[k]
    ensures (forall k :: 0 <= k < |plan.stages| ==> JobRowsOk(plan.stages[k], jobWrite)) <==>
      forall job :: job in p.jobs ==> jobWrite(KeyOfJob(job))
  {
    hide WellFormed, IsPlanOf;
    VerifiedIsFullyPlanned(p, plan);
    if forall k :: 0 <= k < |plan.stages| ==> JobRowsOk(plan.stages[k], jobWrite) {
      forall job | job in p.jobs ensures jobWrite(KeyOfJob(job)) {
        var k, i :| Planned(plan, k, i, job);
        assert JobRowsOk(plan.stages[k], jobWrite);
      }
    }
    if forall job :: job in p.jobs ==> jobWrite(KeyOfJob(job)) {
      forall k, i | Position(plan, k, i) ensures jobWrite(JobKey(plan.stages[k].name, plan.stages[k].jobs[i].name)) {
        assert PlannedAfterNeeds(p, plan, k, i);
        var job :| job in p.jobs && Planned(plan, k, i, job) && NeedsBefore(plan.stages[k].jobs, i, job.needs);
        assert KeyOfJob(job) == JobKey(plan.stages[k].name, plan.stages[k].jobs[i].name);
      }
      forall k | 0 <= k < |plan.stages| ensures JobRowsOk(plan.stages[k], jobWrite) {
        forall i | 0 <= i < |plan.stages[k].jobs|
          ensures jobWrite(JobKey(plan.stages[k].name, plan.stages[k].jobs[i].name))
        {
          assert Position(plan, k, i);
        }
      }
    }
  }

  /** Every row along the plan can be created. */
  ghost predicate RowsAlong(plan: ExecutionPlan, stageWrite: Name -> bool, jobWrite: JobKey -> bool) {
    forall k :: 0 <= k < |plan.stages| ==> stageWrite(plan.stages[k].name) && JobRowsOk(plan.stages[k], jobWrite)
  }

  /** For a verified pipeline these are the rows of the declared stages and jobs. */
  lemma VerifiedRows(p: Pipeline, plan: ExecutionPlan, stageWrite: Name -> bool, jobWrite: JobKey -> bool)
    requires WellFormed(p) && IsPlanOf(p, plan)
    ensures RowsAlong(plan, stageWrite, jobWrite) <==> CanBeRecorded(p, stageWrite, jobWrite)
  {
    hide WellFormed, IsPlanOf, JobRowsOk;
    PlannedRows(p, plan, jobWrite);
    assert forall k :: 0 <= k < |plan.stages| ==> plan.stages[k].name == p.stages[k];
    if RowsAlong(plan, stageWrite, jobWrite) {
      forall s | s in p.stages ensures stageWrite(s) {
        var k :| 0 <= k < |p.stages| && p.stages[k] == s;
        assert stageWrite(plan.stages[k].name);
      }
    }
  }

  /** The loop that creates stage and job rows and builds the stage records, up to the first row that fails. The unique
      key of the stage rows refuses a stage that is declared twice. */
  method StartStages(p: Pipeline, plan: ExecutionPlan, allow: set<JobKey>,
                     stageWrite: Name -> bool, jobWrite: JobKey -> bool)
    returns (ok: bool, at: Option<Name>, states: map<Name, StageState>, writes: seq<Write>)
    requires |plan.stages| == |p.stages| && forall k :: 0 <= k < |p.stages| ==> plan.stages[k].name == p.stages[k]
    ensures ok <==> Distinct(p.stages) && RowsAlong(plan, stageWrite, jobWrite)
    ensures ok ==> FreshStages(p, states, p.stages) && writes == AllWrites(plan.stages, allow)
    ensures !ok ==> Tried(writes, plan.stages, allow, at)
    ensures !ok ==> match at
      case None => !Distinct(p.stages) || exists s :: s in p.stages && !stageWrite(s)
      case Some(s) => stageWrite(s) && FailsAt(plan, s, jobWrite)
  {
    hide FreshStages, JobRowsOk, StageWrites, AllWrites, Tried;
    AllWritesStart(plan, allow);
    at, states, writes := None, map[], [];
    NoStages(p);
    for k := 0 to |plan.stages|
      invariant FreshStages(p, states, p.stages[..k]) && Distinct(p.stages[..k])
      invariant forall m :: 0 <= m < k ==> stageWrite(plan.stages[m].name) && JobRowsOk(plan.stages[m], jobWrite)
      invariant writes == AllWrites(plan.stages[..k], allow)
    {
      var stage := plan.stages[k];
      assert p.stages[..k + 1] == p.stages[..k] + [stage.name];
      AllWritesNext(plan, allow, k);
      AddedStages(p, states, p.stages[..k]);
      if stage.name in states || !stageWrite(stage.name) {
        if stage.name in states {
          RepeatedStage(p.stages, k);
        }
        TriedStage(plan, allow, k);
        writes := writes + [StageRow(stage.name)];
        return false, None, states, writes;
      }
      states := AddStage(p, states, p.stages[..k], stage.name);
      var more;
      ok, more := StartJobs(stage, allow, jobWrite);
      writes := writes + more;
      if !ok {
        TriedJob(plan, allow, k, more);
        return false, Some(stage.name), states, writes;
      }
    }
    assert p.stages[..|p.stages|] == p.stages && plan.stages[..|plan.stages|] == plan.stages;
    ok := true;
  }

  lemma AllWritesStart(plan: ExecutionPlan, allow: set<JobKey>)
    ensures AllWrites(plan.stages[..0], allow) == []
  {
  }

  lemma AllWritesNext(plan: ExecutionPlan, allow: set<JobKey>, k: nat)
    requires k < |plan.stages|
    ensures AllWrites(plan.stages[..k + 1], allow)
      == AllWrites(plan.stages[..k], allow) + StageWrites(plan.stages[k], allow)
  {
    assert plan.stages[..k + 1][..k] == plan.stages[..k];
  }

  lemma TriedStage(plan: ExecutionPlan, allow: set<JobKey>, k: nat)
    requires k < |plan.stages|
    ensures Tried(AllWrites(plan.stages[..k], allow) + [StageRow(plan.stages[k].name)], plan.stages, allow, None)
  {
    assert TriedUpTo(AllWrites(plan.stages[..k], allow) + [StageRow(plan.stages[k].name)], plan.stages, allow, None, k);
  }

  lemma TriedJob(plan: ExecutionPlan, allow: set<JobKey>, k: nat, more: seq<Write>)
    requires k < |plan.stages| && 0 < |more| <= |StageWrites(plan.stages[k], allow)|
    requires more == StageWrites(plan.stages[k], allow)[..|more|] && more[|more| - 1].JobRow?
    ensures Tried(AllWrites(plan.stages[..k], allow) + more, plan.stages, allow, Some(plan.stages[k].name))
  {
    assert more[0] == StageRow(plan.stages[k].name);
    assert TriedUpTo(AllWrites(plan.stages[..k], allow) + more, plan.stages, allow, Some(plan.stages[k].name), k);
  }

  lemma RepeatedStage(stages: seq<Name>, k: nat)
    requires k < |stages| && stages[k] in stages[..k]
    ensures !Distinct(stages)
  {
    var i :| 0 <= i < k && stages[..k][i] == stages[k];
    assert stages[i] == stages[k];
  }

  /** How the rows are closed after a set-up that was given up: the stage row if one of its job rows failed, and the run
      row, as failed. */
  function Closing(stage: Option<Name>): seq<Write> {
    (match stage case None => [] case Some(s) => [CloseStage(s, Failed)]) + [CloseRun(Failed)]
  }

  /** initializePipelineRuntime: a run with stages is registered exactly when it is new, no stage is declared twice and
      every row can be created, and then it is in the initial state. `writes` are the rows that were tried. */
  method InitializePipelineRuntime(p: Pipeline, plan: ExecutionPlan, start: RunStart, runWrite: bool,
                                   stageWrite: Name -> bool, jobWrite: JobKey -> bool)
    returns (result: SetUp, allow: set<JobKey>, writes: seq<Write>)
    requires IsPlanOf(p, plan)
    ensures start.InFlight? ==> result == Deduplicated(start.runNo, start.status) && writes == []
    ensures start.Refused? ==> result == NotCreated && writes == []
    ensures start.Created? && p.stages == [] ==>
      result == (if runWrite then Ended else NotEnded) && writes == [CloseRun(Success)]
    ensures start.Created? && p.stages != [] ==>
      if Distinct(p.stages) && RowsAlong(plan, stageWrite, jobWrite) then result.Registered? else result.Abandoned?
    ensures result.Abandoned? ==> match result.stage
      case None => !Distinct(p.stages) || exists s :: s in p.stages && !stageWrite(s)
      case Some(s) => stageWrite(s) && FailsAt(plan, s, jobWrite)
    ensures result.Abandoned? ==>
      exists tried :: Tried(tried, plan.stages, allow, result.stage) && writes == tried + Closing(result.stage)
    ensures result.Registered? ==>
      IsNewRun(p, result.run) && result.run.config.allow == allow && writes == AllWrites(plan.stages, allow)
    ensures exists configs :: IsJobConfigs(p.jobs, configs) && allow == Allowed(configs)
  {
    hide FreshStages, JobRowsOk, RowsAlong, Distinct, Tried, AllWrites, IsJobConfigs, Allowed, IsConfigOf;
    var configs := BuildJobConfigs(p);
    allow, writes := Allowed(configs), [];
    match start {
      case InFlight(runNo, status) => result := Deduplicated(runNo, status);
      case Refused => result := NotCreated;
      case Created =>
        PlanNamesStages(p, plan);
        EmptyPlanHasRows(p, plan, stageWrite, jobWrite);
        var ok, at, states;
        ok, at, states, writes := StartStages(p, plan, allow, stageWrite, jobWrite);
        if !ok {
          result := Abandoned(at);
          writes := writes + Closing(at);
        } else if p.stages == [] {
          result := if runWrite then Ended else NotEnded;
          NoWrites(plan, allow);
          writes := [CloseRun(Success)];
        } else {
          var run := RegisterRuntime(p, states, configs);
          result := Registered(run);
        }
    }
  }

  lemma NoWrites(plan: ExecutionPlan, allow: set<JobKey>)
    ensures plan.stages == [] ==> AllWrites(plan.stages, allow) == []
  {
  }

  lemma PlanNamesStages(p: Pipeline, plan: ExecutionPlan)
    requires IsPlanOf(p, plan)
    ensures |plan.stages| == |p.stages| && forall k :: 0 <= k < |p.stages| ==> plan.stages[k].name == p.stages[k]
  {
  }

  lemma EmptyPlanHasRows(p: Pipeline, plan: ExecutionPlan, stageWrite: Name -> bool, jobWrite: JobKey -> bool)
    requires |plan.stages| == |p.stages|
    ensures p.stages == [] ==> Distinct(p.stages) && RowsAlong(plan, stageWrite, jobWrite)
  {
  }

  /** A run of this pipeline in the initial state. */
  ghost predicate IsNewRun(p: Pipeline, run: RunController)
    reads run, run.stageStates.Values
  {
    run.Valid() && IsConfigOf(p, run.config) && run.View() == Init(run.config)
  }

  method RegisterRuntime(p: Pipeline, states: map<Name, StageState>, configs: map<JobKey, JobConfig>)
    returns (run: RunController)
    requires FreshStages(p, states, p.stages) && IsJobConfigs(p.jobs, configs)
    ensures IsNewRun(p, run) && run.config.allow == Allowed(configs)
  {
    hide IsStagePlanOf, IsJobConfigs, Allowed;
    var config := Config(p.name, p.stages, map s | s in states :: states[s].plan, Allowed(configs));
    run := new RunController(config, states);
  }

  /* The runtimes map is keyed by pipeline name and run number. */

  function Digit(n: nat): (c: char)
    requires n < 10
    ensures '0' <= c <= '9'
  {
    ('0' as int + n) as char
  }

  function Decimal(n: nat): string {
    if n < 10 then [Digit(n)] else Decimal(n / 10) + [Digit(n % 10)]
  }

  function RuntimeKey(pipeline: string, runNo: nat): string {
    pipeline + ":" + Decimal(runNo)
  }

  lemma {:induction false} DecimalHasNoColon(n: nat)
    ensures Decimal(n) != "" && ':' !in Decimal(n)
  {
    if n >= 10 {
      DecimalHasNoColon(n / 10);
    }
  }

  lemma {:induction false} DecimalInjective(n: nat, m: nat)
    requires Decimal(n) == Decimal(m)
    ensures n == m
  {
    var a, b := Decimal(n), Decimal(m);
    assert a[|a| - 1] == Digit(n % 10) && b[|b| - 1] == Digit(m % 10);
    if n >= 10 && m >= 10 {
      assert Decimal(n / 10) == a[..|a| - 1] && Decimal(m / 10) == b[..|b| - 1];
      DecimalInjective(n / 10, m / 10);
    } else if n >= 10 {
      DecimalHasNoColon(n / 10);
    } else if m >= 10 {
      DecimalHasNoColon(m / 10);
    }
  }

  /** The number that a text of decimal digits stands for. */
  function Value(s: string): nat
    requires forall i :: 0 <= i < |s| ==> '0' <= s[i] <= '9'
  {
    if s == "" then 0 else 10 * Value(s[..|s| - 1]) + (s[|s| - 1] as int - '0' as int)
  }

  lemma {:induction false} DecimalIsRight(n: nat)
    ensures Decimal(n) != "" && forall i :: 0 <= i < |Decimal(n)| ==> '0' <= Decimal(n)[i] <= '9'
    ensures Value(Decimal(n)) == n && (n > 0 ==> Decimal(n)[0] != '0')
  {
    var s := Decimal(n);
    if n >= 10 {
      DecimalIsRight(n / 10);
      assert s[..|s| - 1] == Decimal(n / 10);
    } else {
      assert s[..|s| - 1] == "";
    }
  }

  /** A key reads back as pipeline name, colon and run number. */
  lemma RuntimeKeyReads(p: string, n: nat)
    ensures var k := RuntimeKey(p, n);
      && |k| > |p| && k[..|p|] == p && k[|p|] == ':' && k[|p| + 1..] == Decimal(n)
  {
  }

  /** Two runs never share a runtime, whatever characters a pipeline name contains. */
  lemma RuntimesAreSeparate(p: string, n: nat, q: string, m: nat)
    requires RuntimeKey(p, n) == RuntimeKey(q, m)
    ensures p == q && n == m
  {
    var a, b := Decimal(n), Decimal(m);
    var k, l := RuntimeKey(p, n), RuntimeKey(q, m);
    DecimalHasNoColon(n);
    DecimalHasNoColon(m);
    assert k[|p|] == ':' && l[|q|] == ':' && k[|p| + 1..] == a && l[|q| + 1..] == b;
    assert forall i :: |p| < i < |k| ==> k[i] == a[i - |p| - 1];
    assert forall i :: |q| < i < |l| ==> l[i] == b[i - |q| - 1];
    assert |p| == |q|;
    assert p == k[..|p|] && q == l[..|q|];
    DecimalInjective(n, m);
  }
}
