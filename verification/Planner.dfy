/** internal/common/planner: Kahn's algorithm inside each stage, and the plans built from it. */
module Planner {
  import opened Models
  import opened Needs
  import opened Verifier
  import opened Waves

  /** A schedule of a stage: distinct jobs of it, needs first and in waves, and exactly the least closed set. */
  ghost predicate IsSchedule(jobs: seq<Job>, order: seq<Job>) {
    && DistinctNames(order)
    && (forall job :: job in order ==> job in jobs)
    && NeedsFirst(order) && InWaves(order)
    && Closed(jobs, NameSet(order))
    && forall done :: Closed(jobs, done) ==> NameSet(order) <= done
  }

  /** Both plan builders list, for each need, the jobs that wait for it. */
  method CollectDependents(jobs: seq<Job>) returns (dependents: map<Name, seq<Name>>)
    ensures forall n :: Slice(dependents, n) == DependentsOf(jobs, n)
  {
    dependents := map[];
    for i := 0 to |jobs|
      invariant forall n :: Slice(dependents, n) == DependentsOf(jobs[..i], n)
    {
      var job := jobs[i];
      for k := 0 to |job.needs|
        invariant forall n ::
          Slice(dependents, n) == DependentsOf(jobs[..i], n) + Occurrences(job.needs[..k], n, job.name)
      {
        var need := job.needs[k];
        dependents := dependents[need := Slice(dependents, need) + [job.name]];
        assert job.needs[..k + 1][..k] == job.needs[..k];
      }
      assert job.needs[..|job.needs|] == job.needs;
      assert jobs[..i + 1][..i] == jobs[..i];
    }
    assert jobs[..|jobs|] == jobs;
  }

  /** The job under each name, and how many needs it lists; a repeated name keeps its last declaration. */
  method IndexJobs(jobs: seq<Job>) returns (jobMap: map<Name, Job>, inDegree: map<Name, int>)
    ensures jobMap.Keys == inDegree.Keys == NameSet(jobs)
    ensures forall n :: n in jobMap ==> jobMap[n] in jobs && jobMap[n].name == n && inDegree[n] == |jobMap[n].needs|
    ensures LastWins(jobs, (job: Job) => job.name, (job: Job) => job, jobMap)
  {
    ghost var name, whole := (job: Job) => job.name, (job: Job) => job;
    jobMap, inDegree := map[], map[];
    for i := 0 to |jobs|
      invariant jobMap.Keys == inDegree.Keys == NameSet(jobs[..i])
      invariant forall n :: n in jobMap ==> jobMap[n] in jobs && jobMap[n].name == n && inDegree[n] == |jobMap[n].needs|
      invariant LastWins(jobs[..i], name, whole, jobMap)
    {
      LastWinsStep(jobs[..i], name, whole, jobMap, jobs[i]);
      jobMap := jobMap[jobs[i].name := jobs[i]];
      inDegree := inDegree[jobs[i].name := |jobs[i].needs|];
      assert jobs[..i + 1] == jobs[..i] + [jobs[i]];
    }
    assert jobs[..|jobs|] == jobs;
  }

  /** The jobs without needs, in any order: a Go map is ranged over. */
  method InitialQueue(inDegree: map<Name, int>) returns (queue: seq<Name>)
    ensures Distinct(queue)
    ensures forall n :: n in queue <==> n in inDegree && inDegree[n] == 0
  {
    queue := [];
    var rest := inDegree.Keys;
    while rest != {}
      invariant rest <= inDegree.Keys && Distinct(queue)
      invariant forall n :: n in queue <==> n in inDegree && n !in rest && inDegree[n] == 0
      decreases rest
    {
      var name :| name in rest;
      rest := rest - {name};
      if inDegree[name] == 0 {
        queue := queue + [name];
      }
    }
  }

  /** The names of a job list, in order. */
  function Names(jobs: seq<Job>): (names: seq<Name>)
    ensures |names| == |jobs| && forall i :: 0 <= i < |jobs| ==> names[i] == jobs[i].name
  {
    seq(|jobs|, i requires 0 <= i < |jobs| => jobs[i].name)
  }

  /** Taken off the queue or waiting in it, without repetition; the counter of any other job is still positive. */
  ghost predicate Queued(inDegree: map<Name, int>, result: seq<Job>, queue: seq<Name>) {
    && Distinct(Names(result) + queue)
    && (forall q :: q in queue ==> q in inDegree)
    && forall n :: n in inDegree ==> (n in NameSet(result) || n in queue <==> inDegree[n] <= 0)
  }

  /** Counts down the jobs of `deps`, once per entry, and queues those that reach zero. */
  method ReleaseDependents(inDegree: map<Name, int>, queue: seq<Name>, deps: seq<Name>, ghost result: seq<Job>)
    returns (inDegree': map<Name, int>, queue': seq<Name>)
    requires Queued(inDegree, result, queue)
    requires forall d :: d in deps ==> d in inDegree
    ensures inDegree'.Keys == inDegree.Keys && Queued(inDegree', result, queue') && queue <= queue'
    ensures forall n :: n in inDegree ==> inDegree'[n] == inDegree[n] - multiset(deps)[n]
  {
    inDegree', queue' := inDegree, queue;
    for i := 0 to |deps|
      invariant inDegree'.Keys == inDegree.Keys && Queued(inDegree', result, queue') && queue <= queue'
      invariant forall n :: n in inDegree ==> inDegree'[n] == inDegree[n] - multiset(deps[..i])[n]
    {
      var dep := deps[i];
      assert deps[..i + 1] == deps[..i] + [dep];
      CountDown(inDegree', result, queue', dep);
      inDegree' := inDegree'[dep := inDegree'[dep] - 1];
      if inDegree'[dep] == 0 {
        queue' := queue' + [dep];
      }
    }
    assert deps[..|deps|] == deps;
  }

  lemma CountDown(inDegree: map<Name, int>, result: seq<Job>, queue: seq<Name>, dep: Name)
    requires Queued(inDegree, result, queue) && dep in inDegree
    ensures Queued(inDegree[dep := inDegree[dep] - 1], result, if inDegree[dep] == 1 then queue + [dep] else queue)
  {
    NamesMembers(result);
    if inDegree[dep] == 1 {
      assert Names(result) + (queue + [dep]) == (Names(result) + queue) + [dep];
      assert dep !in Names(result) + queue;
    }
  }

  lemma NamesMembers(jobs: seq<Job>)
    ensures forall n :: n in Names(jobs) <==> n in NameSet(jobs)
    ensures Distinct(Names(jobs)) <==> DistinctNames(jobs)
  {
    forall n | n in Names(jobs) ensures n in NameSet(jobs) {
      var i :| 0 <= i < |jobs| && Names(jobs)[i] == n;
      assert jobs[i] in jobs;
    }
    forall job | job in jobs ensures job.name in Names(jobs) {
      var i :| 0 <= i < |jobs| && jobs[i] == job;
      assert Names(jobs)[i] == job.name;
    }
  }

  /** Each counter is the number of unfinished needs. */
  ghost predicate Counted(jobMap: map<Name, Job>, inDegree: map<Name, int>, done: set<Name>) {
    inDegree.Keys == jobMap.Keys && forall n :: n in inDegree ==> inDegree[n] == Pending(jobMap[n].needs, done)
  }

  /** Moving the head of the queue to the result keeps the bookkeeping. */
  lemma PopKeepsQueued(inDegree: map<Name, int>, result: seq<Job>, queue: seq<Name>, job: Job)
    requires Queued(inDegree, result, queue) && queue != [] && job.name == queue[0]
    ensures Queued(inDegree, result + [job], queue[1..])
    ensures job.name !in NameSet(result)
  {
    assert Names(result + [job]) + queue[1..] == Names(result) + queue by {
      assert (result + [job])[..|result|] == result;
      assert queue == [queue[0]] + queue[1..];
    }
    NamesMembers(result);
    forall other | other in result ensures other.name != job.name {
      var i :| 0 <= i < |result| && result[i] == other;
      assert (Names(result) + queue)[i] == other.name && (Names(result) + queue)[|result|] == job.name;
    }
    assert NameSet(result + [job]) == NameSet(result) + {job.name};
  }

  /** With distinct names, counting down the dependents of `name` once per listing finishes `name` everywhere. */
  lemma FinishEverywhere(jobs: seq<Job>, jobMap: map<Name, Job>, inDegree: map<Name, int>, inDegree': map<Name, int>,
                         done: set<Name>, name: Name)
    requires DistinctNames(jobs) && name !in done
    requires forall n :: n in jobMap ==> jobMap[n] in jobs && jobMap[n].name == n
    requires Counted(jobMap, inDegree, done) && inDegree'.Keys == inDegree.Keys
    requires forall n :: n in inDegree ==> inDegree'[n] == inDegree[n] - multiset(DependentsOf(jobs, name))[n]
    ensures Counted(jobMap, inDegree', done + {name})
  {
    forall n | n in inDegree ensures inDegree'[n] == Pending(jobMap[n].needs, done + {name}) {
      DependentsCount(jobs, name, jobMap[n]);
      PendingStep(jobMap[n].needs, done, name);
    }
  }

  lemma AppendNeedsFirst(order: seq<Job>, job: Job)
    requires NeedsFirst(order) && Pending(job.needs, NameSet(order)) == 0
    ensures NeedsFirst(order + [job])
  {
    PendingZero(job.needs, NameSet(order));
    var longer := order + [job];
    forall i, n | 0 <= i < |longer| && n in longer[i].needs ensures n in NameSet(longer[..i]) {
      assert longer[..i] == order[..i];
      assert order[..|order|] == order;
    }
  }

  /** An exhausted queue means that nothing outside the result has all its needs in it. */
  lemma ExhaustedIsClosed(jobs: seq<Job>, jobMap: map<Name, Job>, inDegree: map<Name, int>, order: seq<Job>)
    requires DistinctNames(jobs) && jobMap.Keys == NameSet(jobs)
    requires forall n :: n in jobMap ==> jobMap[n] in jobs && jobMap[n].name == n
    requires Counted(jobMap, inDegree, NameSet(order)) && Queued(inDegree, order, [])
    ensures Closed(jobs, NameSet(order))
  {
    forall job | job in jobs && forall n :: n in job.needs ==> n in NameSet(order) ensures job.name in NameSet(order) {
      SameNameSameJob(jobs, job, jobMap[job.name]);
      PendingZero(job.needs, NameSet(order));
    }
  }

  ghost predicate KahnState(jobs: seq<Job>, jobMap: map<Name, Job>, inDegree: map<Name, int>,
                            result: seq<Job>, queue: seq<Name>) {
    && jobMap.Keys == inDegree.Keys == NameSet(jobs)
    && (forall n :: n in jobMap ==> jobMap[n] in jobs && jobMap[n].name == n)
    && Queued(inDegree, result, queue)
    && (forall job :: job in result ==> job in jobs)
    && (DistinctNames(jobs) ==> Counted(jobMap, inDegree, NameSet(result)) && NeedsFirst(result))
  }

  lemma KahnStep(jobs: seq<Job>, jobMap: map<Name, Job>, inDegree: map<Name, int>, result: seq<Job>, queue: seq<Name>,
                 inDegree': map<Name, int>, queue': seq<Name>)
    requires KahnState(jobs, jobMap, inDegree, result, queue) && queue != []
    requires inDegree'.Keys == inDegree.Keys && Queued(inDegree', result + [jobMap[queue[0]]], queue')
    requires forall n :: n in inDegree ==> inDegree'[n] == inDegree[n] - multiset(DependentsOf(jobs, queue[0]))[n]
    ensures KahnState(jobs, jobMap, inDegree', result + [jobMap[queue[0]]], queue')
    ensures NameSet(result + [jobMap[queue[0]]]) == NameSet(result) + {queue[0]} && queue[0] !in NameSet(result)
  {
    var name := queue[0];
    PopKeepsQueued(inDegree, result, queue, jobMap[name]);
    assert NameSet(result + [jobMap[name]]) == NameSet(result) + {name};
    if DistinctNames(jobs) {
      AppendNeedsFirst(result, jobMap[name]);
      FinishEverywhere(jobs, jobMap, inDegree, inDegree', NameSet(result), name);
    }
  }

  /** The result and the queue are one line, taken from the front up to the end of the result. */
  ghost predicate KahnLine(jobMap: map<Name, Job>, result: seq<Job>, queue: seq<Name>, levels: map<Name, nat>) {
    WaveLine(NeedsOf(jobMap), Names(result) + queue, |result|, levels)
  }

  ghost function NeedsOf(jobMap: map<Name, Job>): map<Name, seq<Name>> {
    map n | n in jobMap :: jobMap[n].needs
  }

  lemma KahnFirstLine(jobMap: map<Name, Job>, inDegree: map<Name, int>, queue: seq<Name>)
    returns (levels: map<Name, nat>)
    requires Distinct(queue) && forall q :: q in queue ==> q in jobMap && jobMap[q].needs == []
    ensures KahnLine(jobMap, [], queue, levels)
  {
    assert Names([]) + queue == queue;
    levels := FirstLine(NeedsOf(jobMap), queue);
  }

  lemma KahnNextLine(jobs: seq<Job>, jobMap: map<Name, Job>, inDegree: map<Name, int>, result: seq<Job>,
                     queue: seq<Name>, inDegree': map<Name, int>, queue': seq<Name>, levels: map<Name, nat>)
    returns (levels': map<Name, nat>)
    requires DistinctNames(jobs) && KahnState(jobs, jobMap, inDegree, result, queue) && queue != []
    requires KahnState(jobs, jobMap, inDegree', result + [jobMap[queue[0]]], queue') && queue[1..] <= queue'
    requires KahnLine(jobMap, result, queue, levels)
    ensures KahnLine(jobMap, result + [jobMap[queue[0]]], queue', levels')
  {
    hide *;
    var line, more := Names(result) + queue, queue'[|queue| - 1..];
    StateLine(jobs, jobMap, inDegree, result, queue);
    StateLine(jobs, jobMap, inDegree', result + [jobMap[queue[0]]], queue');
    LongerLine(jobMap, result, queue, queue');
    forall k | 0 <= k < |more| ensures Joins(NeedsOf(jobMap), line, |result|, more[k]) {
      QueuedJoins(jobs, jobMap, inDegree, result, queue, inDegree', queue', k);
      assert more[k] == queue'[|queue| - 1 + k];
    }
    assert |line| == |result| + |queue|;
    LineHolds(jobMap, result, queue, levels);
    levels' := NextLine(NeedsOf(jobMap), line, |result|, more, levels);
    LineHolds(jobMap, result + [jobMap[queue[0]]], queue', levels');
  }

  lemma LineHolds(jobMap: map<Name, Job>, result: seq<Job>, queue: seq<Name>, levels: map<Name, nat>)
    ensures KahnLine(jobMap, result, queue, levels)
      <==> WaveLine(NeedsOf(jobMap), Names(result) + queue, |result|, levels)
  { }

  lemma StateLine(jobs: seq<Job>, jobMap: map<Name, Job>, inDegree: map<Name, int>, result: seq<Job>, queue: seq<Name>)
    requires KahnState(jobs, jobMap, inDegree, result, queue)
    ensures Distinct(Names(result) + queue)
    ensures forall q :: q in queue ==> q in jobMap && jobMap[q].name == q
  { }

  lemma LongerLine(jobMap: map<Name, Job>, result: seq<Job>, queue: seq<Name>, queue': seq<Name>)
    requires queue != [] && queue[1..] <= queue' && queue[0] in jobMap && jobMap[queue[0]].name == queue[0]
    ensures Names(result + [jobMap[queue[0]]]) == Names(result) + [queue[0]]
    ensures Names(result + [jobMap[queue[0]]]) + queue' == Names(result) + queue + queue'[|queue| - 1..]
  {
    assert queue == [queue[0]] + queue[1..] && queue' == queue[1..] + queue'[|queue| - 1..];
    assert Names(result + [jobMap[queue[0]]]) == Names(result) + [queue[0]];
  }

  /** What is queued waited for the job just taken, and for nothing but jobs taken before it. */
  lemma QueuedJoins(jobs: seq<Job>, jobMap: map<Name, Job>, inDegree: map<Name, int>, result: seq<Job>,
                    queue: seq<Name>, inDegree': map<Name, int>, queue': seq<Name>, k: nat)
    requires DistinctNames(jobs) && KahnState(jobs, jobMap, inDegree, result, queue) && queue != []
    requires KahnState(jobs, jobMap, inDegree', result + [jobMap[queue[0]]], queue') && queue[1..] <= queue'
    requires |queue| - 1 + k < |queue'|
    ensures Joins(NeedsOf(jobMap), Names(result) + queue, |result|, queue'[|queue| - 1 + k])
  {
    hide *;
    StateLine(jobs, jobMap, inDegree, result, queue);
    var job, d := jobMap[queue[0]], queue'[|queue| - 1 + k];
    StateLine(jobs, jobMap, inDegree', result + [job], queue');
    JoinsLate(result, queue, job, queue', k);
    assert d in queue';
    NamesMembers(result);
    NameSetOf(result, job);
    Waiting(jobs, jobMap, inDegree, result, queue, d);
    Waiting(jobs, jobMap, inDegree', result + [job], queue', d);
    ZeroNow(jobMap[d].needs, NameSet(result), queue[0]);
    IsJoin(jobMap, result, queue, d);
  }

  lemma NameSetOf(result: seq<Job>, job: Job)
    ensures NameSet(result + [job]) == NameSet(result) + {job.name}
  { }

  /** Outside the result and the queue are the jobs with an unfinished need. */
  lemma Waiting(jobs: seq<Job>, jobMap: map<Name, Job>, inDegree: map<Name, int>, result: seq<Job>, queue: seq<Name>,
                d: Name)
    requires DistinctNames(jobs) && KahnState(jobs, jobMap, inDegree, result, queue) && d in jobMap
    ensures d in NameSet(result) || d in queue <==> Pending(jobMap[d].needs, NameSet(result)) == 0
  { }

  lemma IsJoin(jobMap: map<Name, Job>, result: seq<Job>, queue: seq<Name>, d: Name)
    requires queue != [] && d in jobMap && d !in Names(result) + queue && queue[0] in jobMap[d].needs
    requires forall n :: n in jobMap[d].needs ==> n in NameSet(result) || n == queue[0]
    ensures Joins(NeedsOf(jobMap), Names(result) + queue, |result|, d)
  {
    NamesMembers(result);
    assert (Names(result) + queue)[..|result| + 1] == Names(result) + [queue[0]];
  }

  lemma ZeroNow(needs: seq<Name>, done: set<Name>, name: Name)
    requires Pending(needs, done) != 0 && Pending(needs, done + {name}) == 0
    ensures name in needs && forall n :: n in needs ==> n in done || n == name
  {
    PendingZero(needs, done + {name});
    PendingZero(needs, done);
  }

  lemma JoinsLate(result: seq<Job>, queue: seq<Name>, job: Job, queue': seq<Name>, k: nat)
    requires queue != [] && queue[0] == job.name && queue[1..] <= queue' && |queue| - 1 + k < |queue'|
    requires Distinct(Names(result + [job]) + queue')
    ensures queue'[|queue| - 1 + k] !in Names(result) + queue
  {
    var line', at := Names(result + [job]) + queue', |result| + |queue| + k;
    var line := Names(result) + queue;
    assert line'[at] == queue'[|queue| - 1 + k];
    forall i | 0 <= i < |line| ensures line[i] != line'[at] {
      assert line'[i] == line[i];
    }
  }

  lemma LineInWaves(jobs: seq<Job>, jobMap: map<Name, Job>, inDegree: map<Name, int>, result: seq<Job>,
                    levels: map<Name, nat>)
    requires DistinctNames(jobs) && KahnState(jobs, jobMap, inDegree, result, [])
    requires KahnLine(jobMap, result, [], levels)
    ensures InWaves(result)
  {
    var line := Names(result);
    assert line + [] == line;
    forall i | 0 <= i < |result| ensures IsLevelled(levels, result[i].name, result[i].needs) {
      assert line[i] in jobMap;
      SameNameSameJob(jobs, result[i], jobMap[line[i]]);
    }
    assert WaveLevels(result, levels);
  }

  lemma KahnDone(jobs: seq<Job>, jobMap: map<Name, Job>, inDegree: map<Name, int>, result: seq<Job>)
    requires KahnState(jobs, jobMap, inDegree, result, [])
    ensures DistinctNames(result) && (DistinctNames(jobs) && InWaves(result) ==> IsSchedule(jobs, result))
  {
    NamesMembers(result);
    assert Names(result) + [] == Names(result);
    if DistinctNames(jobs) {
      ExhaustedIsClosed(jobs, jobMap, inDegree, result);
      forall done | Closed(jobs, done) ensures NameSet(result) <= done {
        OrderedInsideClosed(jobs, result, done);
      }
    }
  }

  /** Kahn's algorithm, for any job list; with distinct names the result is a schedule. */
  method ScheduleJobsInStage(jobs: seq<Job>) returns (result: seq<Job>)
    ensures DistinctNames(result) && forall job :: job in result ==> job in jobs
    ensures DistinctNames(jobs) ==> IsSchedule(jobs, result)
  {
    result := [];
    var jobMap, inDegree := IndexJobs(jobs);
    var dependents := CollectDependents(jobs);
    var queue := InitialQueue(inDegree);
    assert NameSet(result) == {};
    forall n | n in inDegree ensures inDegree[n] == Pending(jobMap[n].needs, {}) {
      PendingAll(jobMap[n].needs);
    }
    ghost var levels: map<Name, nat> := map[];
    if DistinctNames(jobs) {
      forall q | q in queue ensures jobMap[q].needs == [] {
        PendingZero(jobMap[q].needs, {});
      }
      levels := KahnFirstLine(jobMap, inDegree, queue);
    }
    while queue != []
      invariant KahnState(jobs, jobMap, inDegree, result, queue)
      invariant DistinctNames(jobs) ==> KahnLine(jobMap, result, queue, levels)
      decreases jobMap.Keys - NameSet(result)
    {
      var name := queue[0];
      PopKeepsQueued(inDegree, result, queue, jobMap[name]);
      DependentsAreJobs(jobs, name);
      var inDegree', queue' :=
        ReleaseDependents(inDegree, queue[1..], Slice(dependents, name), result + [jobMap[name]]);
      KahnStep(jobs, jobMap, inDegree, result, queue, inDegree', queue');
      if DistinctNames(jobs) {
        levels := KahnNextLine(jobs, jobMap, inDegree, result, queue, inDegree', queue', levels);
      }
      result, inDegree, queue := result + [jobMap[name]], inDegree', queue';
    }
    if DistinctNames(jobs) {
      LineInWaves(jobs, jobMap, inDegree, result, levels);
    }
    KahnDone(jobs, jobMap, inDegree, result);
  }

  method JobsForStage(stage: Name, p: Pipeline) returns (stageJobs: seq<Job>)
    ensures stageJobs == JobsForStageSpec(stage, p.jobs)
  {
    stageJobs := [];
    for i := 0 to |p.jobs|
      invariant stageJobs == JobsForStageSpec(stage, p.jobs[..i])
    {
      if p.jobs[i].stage == stage {
        stageJobs := stageJobs + [p.jobs[i]];
      }
      assert p.jobs[..i + 1][..i] == p.jobs[..i];
    }
    assert p.jobs[..|p.jobs|] == p.jobs;
  }

  function ExecutionPlans(order: seq<Job>): (plans: seq<JobExecutionPlan>)
    ensures |plans| == |order|
    ensures forall i :: 0 <= i < |order| ==>
      plans[i] == JobExecutionPlan(order[i].name, order[i].image, order[i].script)
  {
    seq(|order|, i requires 0 <= i < |order| => ToExecutionPlan(order[i]))
  }

  /** The static graph of a stage agrees with the jobs it was built from. */
  ghost predicate IsStagePlan(stageJobs: seq<Job>, order: seq<Job>, plan: StagePlan) {
    && plan.jobs == ExecutionPlans(order)
    && plan.jobByName.Keys == NameSet(order)
    && (forall job :: job in order ==> plan.jobByName[job.name] == JobExecutionPlan(job.name, job.image, job.script))
    && plan.needs.Keys == plan.inDegree.Keys == NameSet(stageJobs)
    && (forall n :: n in plan.needs ==> plan.inDegree[n] == |plan.needs[n]|)
    && (forall n :: Slice(plan.dependents, n) == DependentsOf(stageJobs, n))
    && (DistinctNames(stageJobs) ==>
          IsSchedule(stageJobs, order) && forall job :: job in stageJobs ==> plan.needs[job.name] == job.needs)
  }

  method IndexPlans(order: seq<Job>) returns (jobs: seq<JobExecutionPlan>, jobByName: map<Name, JobExecutionPlan>)
    requires DistinctNames(order)
    ensures jobs == ExecutionPlans(order) && jobByName.Keys == NameSet(order)
    ensures forall job :: job in order ==> jobByName[job.name] == JobExecutionPlan(job.name, job.image, job.script)
  {
    jobs, jobByName := [], map[];
    for i := 0 to |order|
      invariant jobs == ExecutionPlans(order[..i])
      invariant jobByName.Keys == NameSet(order[..i])
      invariant forall k :: 0 <= k < i ==>
        order[k].name in jobByName && jobByName[order[k].name] == ToExecutionPlan(order[k])
    {
      var jobPlan := ToExecutionPlan(order[i]);
      jobs := jobs + [jobPlan];
      jobByName := jobByName[order[i].name := jobPlan];
      assert order[..i + 1] == order[..i] + [order[i]];
    }
    assert order[..|order|] == order;
  }

  ghost predicate IsStagePlanOf(p: Pipeline, stage: Name, plan: StagePlan) {
    plan.name == stage && exists order :: IsStagePlan(JobsForStageSpec(stage, p.jobs), order, plan)
  }

  method BuildStagePlan(stage: Name, p: Pipeline) returns (plan: StagePlan)
    ensures IsStagePlanOf(p, stage, plan)
  {
    var stageJobs := JobsForStage(stage, p);
    var orderedJobs := ScheduleJobsInStage(stageJobs);
    var dependents := CollectDependents(stageJobs);
    var jobMap, inDegree := IndexJobs(stageJobs);
    var needs := map n | n in jobMap :: jobMap[n].needs;
    var jobs, jobByName := IndexPlans(orderedJobs);
    plan := StagePlan(stage, jobs, needs, dependents, inDegree, jobByName);
    if DistinctNames(stageJobs) {
      forall job | job in stageJobs ensures plan.needs[job.name] == job.needs {
        SameNameSameJob(stageJobs, job, jobMap[job.name]);
      }
    }
    assert IsStagePlan(stageJobs, orderedJobs, plan);
  }

  /** The plan lists the declared stages in order, each with a schedule of its jobs. */
  ghost predicate IsExecutionPlan(p: Pipeline, plan: ExecutionPlan, orders: seq<seq<Job>>) {
    && |plan.stages| == |p.stages| == |orders|
    && forall k :: 0 <= k < |p.stages| ==>
      && plan.stages[k] == StageExecutionPlan(p.stages[k], ExecutionPlans(orders[k]))
      && (DistinctNames(p.jobs) ==> IsSchedule(JobsForStageSpec(p.stages[k], p.jobs), orders[k]))
  }

  ghost predicate IsPlanOf(p: Pipeline, plan: ExecutionPlan) {
    exists orders :: IsExecutionPlan(p, plan, orders)
  }

  method GenerateExecutionPlan(p: Pipeline) returns (plan: ExecutionPlan)
    ensures IsPlanOf(p, plan)
  {
    var stages: seq<StageExecutionPlan> := [];
    ghost var orders: seq<seq<Job>> := [];
    for k := 0 to |p.stages|
      invariant |stages| == |orders| == k
      invariant forall m :: 0 <= m < k ==>
        && stages[m] == StageExecutionPlan(p.stages[m], ExecutionPlans(orders[m]))
        && (DistinctNames(p.jobs) ==> IsSchedule(JobsForStageSpec(p.stages[m], p.jobs), orders[m]))
    {
      var stageJobs := JobsForStage(p.stages[k], p);
      JobsForStageMembers(p.stages[k], p.jobs);
      var orderedJobs := ScheduleJobsInStage(stageJobs);
      var jobs: seq<JobExecutionPlan> := [];
      for i := 0 to |orderedJobs|
        invariant jobs == ExecutionPlans(orderedJobs[..i])
      {
        jobs := jobs + [ToExecutionPlan(orderedJobs[i])];
        assert orderedJobs[..i + 1][..i] == orderedJobs[..i];
      }
      assert orderedJobs[..|orderedJobs|] == orderedJobs;
      stages := stages + [StageExecutionPlan(p.stages[k], jobs)];
      orders := orders + [orderedJobs];
    }
    plan := ExecutionPlan(stages);
    assert IsExecutionPlan(p, plan, orders);
  }

  /* The two graph algorithms decide the same question. */

  /** A schedule misses no job exactly when the stage is schedulable. */
  lemma ScheduleIsTotal(jobs: seq<Job>, order: seq<Job>)
    requires DistinctNames(jobs) && IsSchedule(jobs, order)
    ensures |order| == |jobs| <==> Schedulable(jobs)
    ensures |order| == |jobs| <==> NameSet(order) == NameSet(jobs)
  {
    assert NameSet(order) <= NameSet(jobs);
    DistinctNamesCount(order);
    DistinctNamesCount(jobs);
    if |order| == |jobs| {
      SubsetOfSameSize(NameSet(order), NameSet(jobs));
    } else {
      assert NameSet(jobs) <= NameSet(order) ==> NameSet(jobs) == NameSet(order);
      assert Closed(jobs, NameSet(order));
    }
  }

  lemma {:induction false} SubsetOfSameSize(a: set<Name>, b: set<Name>)
    requires a <= b && |a| == |b|
    ensures a == b
  {
    if x :| x in b && x !in a {
      SubsetSize(a, b - {x});
      assert false;
    }
  }

  lemma {:induction false} SubsetSize(a: set<Name>, b: set<Name>)
    requires a <= b
    ensures |a| <= |b|
  {
    if x :| x in a {
      SubsetSize(a - {x}, b - {x});
    }
  }

  /** Each need of a job is another job of its stage, of smaller rank. */
  lemma NeededJob(jobs: seq<Job>, rank: map<Name, nat>, job: Job, n: Name) returns (other: Job)
    requires DistinctNames(jobs) && NeedsInStage(jobs) && IsRank(NeedsGraph(jobs), rank)
    requires job in jobs && n in job.needs
    ensures other in jobs && other.name == n && other.stage == job.stage
    ensures n in rank && job.name in rank && rank[n] < rank[job.name]
  {
    NeedsGraphAt(jobs, job);
    assert JobInStage(jobs, n, job.stage);
    other :| other in jobs && other.name == n && other.stage == job.stage;
  }

  lemma ClosedAt(jobs: seq<Job>, stage: Name, done: set<Name>, job: Job)
    requires Closed(JobsForStageSpec(stage, jobs), done)
    requires job in jobs && job.stage == stage && forall n :: n in job.needs ==> n in done
    ensures job.name in done
  {
    JobsForStageMembers(stage, jobs);
  }

  /** In a ranked graph, a closed set contains every job of the stage. */
  lemma {:induction false} RankedIsReached(jobs: seq<Job>, stage: Name, rank: map<Name, nat>, done: set<Name>, job: Job)
    requires DistinctNames(jobs) && NeedsInStage(jobs) && IsRank(NeedsGraph(jobs), rank)
    requires Closed(JobsForStageSpec(stage, jobs), done)
    requires job in jobs && job.stage == stage
    ensures job.name in done
    decreases if job.name in rank then rank[job.name] else 0
  {
    hide DistinctNames, NeedsInStage, IsRank, Closed, NeedsGraph;
    forall n | n in job.needs ensures n in done {
      var other := NeededJob(jobs, rank, job, n);
      RankedIsReached(jobs, stage, rank, done, other);
    }
    ClosedAt(jobs, stage, done, job);
  }

  /** A set of mutually waiting jobs keeps the stage of any of them from being schedulable. */
  lemma StuckIsNotSchedulable(jobs: seq<Job>, stuck: set<Name>, job: Job)
    requires DistinctNames(jobs) && Stuck(NeedsGraph(jobs), stuck)
    requires job in jobs && job.name in stuck
    ensures !Schedulable(JobsForStageSpec(job.stage, jobs))
  {
    JobsForStageMembers(job.stage, jobs);
    var stageJobs := JobsForStageSpec(job.stage, jobs);
    var free := NameSet(jobs) - stuck;
    forall other | other in stageJobs && forall n :: n in other.needs ==> n in free ensures other.name in free {
      NeedsGraphAt(jobs, other);
      assert other.name in stuck ==> WaitsFor(NeedsGraph(jobs), other.name, stuck);
    }
    assert Closed(stageJobs, free) && job.name in NameSet(stageJobs);
  }

  /** The needs graph of a pipeline has no cycle exactly when every stage can be scheduled completely. */
  lemma VerifierAndPlannerAgree(jobs: seq<Job>)
    requires DistinctNames(jobs) && NeedsInStage(jobs)
    ensures Acyclic(NeedsGraph(jobs)) <==> forall stage :: Schedulable(JobsForStageSpec(stage, jobs))
  {
    var g := NeedsGraph(jobs);
    if rank :| IsRank(g, rank) {
      forall stage, done | Closed(JobsForStageSpec(stage, jobs), done)
        ensures NameSet(JobsForStageSpec(stage, jobs)) <= done
      {
        JobsForStageMembers(stage, jobs);
        forall job | job in JobsForStageSpec(stage, jobs) ensures job.name in done {
          RankedIsReached(jobs, stage, rank, done, job);
        }
      }
    } else {
      NeedsGraphKeys(jobs);
      forall x, y | x in g && y in g[x] ensures y in g {
        var job :| job in jobs && job.name == x;
        NeedsGraphAt(jobs, job);
        assert JobInStage(jobs, y, job.stage);
      }
      var stuck := RankOrStuck(g, g.Keys, map[], 0);
      var x :| x in stuck;
      assert WaitsFor(g, x, stuck);
      var job :| job in jobs && job.name == x;
      StuckIsNotSchedulable(jobs, stuck, job);
    }
  }

  /** The outputs of the two algorithms agree: the cycle search finds nothing exactly when the plan misses no job. */
  lemma SearchAndPlanAgree(p: Pipeline, found: bool, plan: ExecutionPlan)
    requires DistinctNames(p.jobs) && NeedsInStage(p.jobs) && forall job :: job in p.jobs ==> job.stage in p.stages
    requires found <==> !Acyclic(NeedsGraph(p.jobs))
    requires IsPlanOf(p, plan)
    ensures |plan.stages| == |p.stages|
    ensures !found <==>
      forall k :: 0 <= k < |p.stages| ==> |plan.stages[k].jobs| == |JobsForStageSpec(p.stages[k], p.jobs)|
  {
    hide DistinctNames, NeedsInStage, Acyclic, Schedulable, IsSchedule, NeedsGraph, JobsForStageSpec;
    var orders :| IsExecutionPlan(p, plan, orders);
    VerifierAndPlannerAgree(p.jobs);
    forall k | 0 <= k < |p.stages|
      ensures |plan.stages[k].jobs| == |JobsForStageSpec(p.stages[k], p.jobs)| <==>
        Schedulable(JobsForStageSpec(p.stages[k], p.jobs))
    {
      JobsForStageMembers(p.stages[k], p.jobs);
      ScheduleIsTotal(JobsForStageSpec(p.stages[k], p.jobs), orders[k]);
    }
    forall stage | stage !in p.stages ensures Schedulable(JobsForStageSpec(stage, p.jobs)) {
      JobsForStageMembers(stage, p.jobs);
      NoJobsSchedulable(JobsForStageSpec(stage, p.jobs));
    }
  }

  lemma NoJobsSchedulable(jobs: seq<Job>)
    requires forall job :: job !in jobs
    ensures Schedulable(jobs)
  {
  }

  /** Every job of the pipeline appears, and everything that appears does so once, under its own stage, after its
      needs. */
  ghost predicate PlansEveryJobOnce(p: Pipeline, plan: ExecutionPlan) {
    && |plan.stages| == |p.stages|
    && (forall k :: 0 <= k < |p.stages| ==> plan.stages[k].name == p.stages[k])
    && (forall job :: job in p.jobs ==> exists k, i :: Planned(plan, k, i, job))
    && (forall k, i :: Position(plan, k, i) ==> PlannedAfterNeeds(p, plan, k, i))
    && (forall k, i, l, j | Position(plan, k, i) && Position(plan, l, j) && NameAt(plan, k, i) == NameAt(plan, l, j) ::
          k == l && i == j)
  }

  ghost predicate Position(plan: ExecutionPlan, k: int, i: int) {
    0 <= k < |plan.stages| && 0 <= i < |plan.stages[k].jobs|
  }

  ghost function NameAt(plan: ExecutionPlan, k: int, i: int): Name
    requires Position(plan, k, i)
  {
    plan.stages[k].jobs[i].name
  }

  ghost predicate PlannedAfterNeeds(p: Pipeline, plan: ExecutionPlan, k: int, i: int)
    requires Position(plan, k, i)
  {
    exists job :: job in p.jobs && Planned(plan, k, i, job) && NeedsBefore(plan.stages[k].jobs, i, job.needs)
  }

  ghost predicate Planned(plan: ExecutionPlan, k: int, i: int, job: Job) {
    && Position(plan, k, i) && plan.stages[k].name == job.stage
    && plan.stages[k].jobs[i] == JobExecutionPlan(job.name, job.image, job.script)
  }

  ghost predicate NeedsBefore(plans: seq<JobExecutionPlan>, i: int, needs: seq<Name>) {
    forall n :: n in needs ==> exists m :: 0 <= m < i < |plans| && plans[m].name == n
  }

  /** Verified implies fully planned. */
  lemma VerifiedIsFullyPlanned(p: Pipeline, plan: ExecutionPlan)
    requires WellFormed(p) && IsPlanOf(p, plan)
    ensures PlansEveryJobOnce(p, plan)
  {
    var orders :| IsExecutionPlan(p, plan, orders);
    forall job | job in p.jobs ensures exists k, i :: Planned(plan, k, i, job) {
      JobIsPlanned(p, plan, orders, job);
    }
    forall k, i | Position(plan, k, i) ensures PlannedAfterNeeds(p, plan, k, i) {
      JobsForStageMembers(p.stages[k], p.jobs);
      assert orders[k][i] in orders[k];
      OrderedPlan(orders[k], i);
      assert Planned(plan, k, i, orders[k][i]);
    }
    forall k, i, l, j | Position(plan, k, i) && Position(plan, l, j) && NameAt(plan, k, i) == NameAt(plan, l, j)
      ensures k == l && i == j
    {
      JobsForStageMembers(p.stages[k], p.jobs);
      JobsForStageMembers(p.stages[l], p.jobs);
      assert orders[k][i] in orders[k] && orders[l][j] in orders[l];
      SameNameSameJob(p.jobs, orders[k][i], orders[l][j]);
    }
  }

  lemma JobIsPlanned(p: Pipeline, plan: ExecutionPlan, orders: seq<seq<Job>>, job: Job)
    requires WellFormed(p) && IsExecutionPlan(p, plan, orders) && job in p.jobs
    ensures exists k, i :: Planned(plan, k, i, job)
  {
    var k :| 0 <= k < |p.stages| && p.stages[k] == job.stage;
    StageOrderComplete(p, p.stages[k], orders[k]);
    var i :| 0 <= i < |orders[k]| && orders[k][i] == job;
    assert Planned(plan, k, i, job);
  }

  /** The schedule of a verified stage contains every job of the stage. */
  lemma StageOrderComplete(p: Pipeline, stage: Name, order: seq<Job>)
    requires WellFormed(p) && IsSchedule(JobsForStageSpec(stage, p.jobs), order)
    ensures forall job :: job in order <==> job in p.jobs && job.stage == stage
    ensures NameSet(order) == NameSet(JobsForStageSpec(stage, p.jobs))
  {
    StageSchedulable(p, stage);
    JobsForStageMembers(stage, p.jobs);
    ScheduleComplete(JobsForStageSpec(stage, p.jobs), order);
  }

  lemma StageSchedulable(p: Pipeline, stage: Name)
    requires WellFormed(p)
    ensures Schedulable(JobsForStageSpec(stage, p.jobs))
  {
    VerifierAndPlannerAgree(p.jobs);
  }

  lemma ScheduleComplete(jobs: seq<Job>, order: seq<Job>)
    requires DistinctNames(jobs) && Schedulable(jobs) && IsSchedule(jobs, order)
    ensures NameSet(order) == NameSet(jobs) && forall job :: job in order <==> job in jobs
  {
    ScheduleIsTotal(jobs, order);
    SameNamesSameJobs(jobs, order);
  }

  lemma SameNamesSameJobs(jobs: seq<Job>, order: seq<Job>)
    requires DistinctNames(jobs) && NameSet(order) == NameSet(jobs)
    requires forall job :: job in order ==> job in jobs
    ensures forall job :: job in jobs ==> job in order
  {
    forall job | job in jobs ensures job in order {
      assert job.name in NameSet(order);
      var other :| other in order && other.name == job.name;
      SameNameSameJob(jobs, job, other);
    }
  }

  lemma OrderedPlan(order: seq<Job>, i: nat)
    requires NeedsFirst(order) && i < |order|
    ensures NeedsBefore(ExecutionPlans(order), i, order[i].needs)
  {
    var plans := ExecutionPlans(order);
    forall n | n in order[i].needs ensures exists m :: 0 <= m < i < |plans| && plans[m].name == n {
      var job :| job in order[..i] && job.name == n;
      var m :| 0 <= m < i && order[m] == job;
      assert plans[m].name == n;
    }
  }
}
