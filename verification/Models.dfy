/** The pipeline and plan records of internal/models, and the few sequence notions every module shares. */
module Models {

  type Name = string

  datatype Option<T> = None | Some(value: T)

  datatype Job = Job(name: Name, stage: Name, image: string, script: seq<string>, needs: seq<Name>, failures: bool)

  datatype Pipeline = Pipeline(name: Name, stages: seq<Name>, jobs: seq<Job>)

  datatype JobExecutionPlan = JobExecutionPlan(name: Name, image: string, script: seq<string>)

  datatype StageExecutionPlan = StageExecutionPlan(name: Name, jobs: seq<JobExecutionPlan>)

  datatype ExecutionPlan = ExecutionPlan(stages: seq<StageExecutionPlan>)

  /** The static dependency graph of one stage. */
  datatype StagePlan = StagePlan(
    name: Name,
    jobs: seq<JobExecutionPlan>,
    needs: map<Name, seq<Name>>,
    dependents: map<Name, seq<Name>>,
    inDegree: map<Name, int>,
    jobByName: map<Name, JobExecutionPlan>)

  function ToExecutionPlan(job: Job): JobExecutionPlan {
    JobExecutionPlan(job.name, job.image, job.script)
  }

  /** Reading a Go map of slices: a missing key is an empty slice. */
  function Slice<T>(m: map<Name, seq<T>>, key: Name): seq<T> {
    if key in m then m[key] else []
  }

  predicate Distinct<T(==)>(s: seq<T>) {
    forall i, j :: 0 <= i < j < |s| ==> s[i] != s[j]
  }

  predicate DistinctNames(jobs: seq<Job>) {
    forall i, j :: 0 <= i < j < |jobs| ==> jobs[i].name != jobs[j].name
  }

  function NameSet(jobs: seq<Job>): set<Name> {
    set job | job in jobs :: job.name
  }

  function JobsForStageSpec(stage: Name, jobs: seq<Job>): seq<Job> {
    if jobs == [] then [] else
    var last := jobs[|jobs| - 1];
    JobsForStageSpec(stage, jobs[..|jobs| - 1]) + if last.stage == stage then [last] else []
  }

  lemma {:induction false} JobsForStageMembers(stage: Name, jobs: seq<Job>)
    ensures forall job :: job in JobsForStageSpec(stage, jobs) <==> job in jobs && job.stage == stage
    ensures DistinctNames(jobs) ==> DistinctNames(JobsForStageSpec(stage, jobs))
  {
    if jobs != [] {
      var rest, last := jobs[..|jobs| - 1], jobs[|jobs| - 1];
      assert jobs == rest + [last];
      JobsForStageMembers(stage, rest);
      var kept := JobsForStageSpec(stage, rest);
      if DistinctNames(jobs) {
        assert forall i :: 0 <= i < |kept| ==> kept[i] in rest;
        assert forall i :: 0 <= i < |rest| ==> rest[i] == jobs[i];
      }
    }
  }

  lemma {:induction false} DistinctNamesCount(jobs: seq<Job>)
    requires DistinctNames(jobs)
    ensures |NameSet(jobs)| == |jobs|
  {
    if jobs != [] {
      var rest, last := jobs[..|jobs| - 1], jobs[|jobs| - 1];
      assert jobs == rest + [last];
      DistinctNamesCount(rest);
      assert last.name !in NameSet(rest) by {
        forall job | job in rest ensures job.name != last.name {
          var i :| 0 <= i < |rest| && rest[i] == job;
          assert jobs[i] == job;
        }
      }
      assert NameSet(jobs) == NameSet(rest) + {last.name};
    }
  }

  /** With distinct names, a name picks out one job. */
  lemma SameNameSameJob(jobs: seq<Job>, a: Job, b: Job)
    requires DistinctNames(jobs) && a in jobs && b in jobs && a.name == b.name
    ensures a == b
  {
    var i :| 0 <= i < |jobs| && jobs[i] == a;
    var j :| 0 <= j < |jobs| && jobs[j] == b;
    if i < j { assert false; } else if j < i { assert false; }
  }

  /* A Go map filled from a list: a repeated key keeps what was stored last. */

  ghost predicate IsLast<K(!new)>(jobs: seq<Job>, key: Job -> K, i: nat)
    requires i < |jobs|
  {
    forall k :: i < k < |jobs| ==> key(jobs[k]) != key(jobs[i])
  }

  ghost predicate LastWins<K(!new), V>(jobs: seq<Job>, key: Job -> K, value: Job -> V, m: map<K, V>) {
    forall i {:trigger IsLast(jobs, key, i)} :: 0 <= i < |jobs| && IsLast(jobs, key, i) ==>
      key(jobs[i]) in m && m[key(jobs[i])] == value(jobs[i])
  }

  lemma LastWinsStep<K(!new), V>(jobs: seq<Job>, key: Job -> K, value: Job -> V, m: map<K, V>, job: Job)
    requires LastWins(jobs, key, value, m)
    ensures LastWins(jobs + [job], key, value, m[key(job) := value(job)])
  {
    var longer := jobs + [job];
    forall i | 0 <= i < |jobs| && IsLast(longer, key, i) ensures IsLast(jobs, key, i) && key(job) != key(jobs[i]) {
      assert longer[|jobs|] == job;
      forall k | i < k < |jobs| ensures key(jobs[k]) != key(jobs[i]) { assert longer[k] == jobs[k]; }
    }
  }

  /* Order. */

  /** `s` consists of the entries of `whole` at these positions, which ascend. */
  ghost predicate Picks<T(!new)>(whole: seq<T>, at: seq<nat>, s: seq<T>) {
    && |at| == |s|
    && (forall i :: 0 <= i < |s| ==> at[i] < |whole| && whole[at[i]] == s[i])
    && (forall i, j :: 0 <= i < j < |at| ==> at[i] < at[j])
  }

  lemma PicksMore<T(!new)>(whole: seq<T>, at: seq<nat>, s: seq<T>, next: T, picked: bool) returns (at': seq<nat>)
    requires Picks(whole, at, s)
    ensures at' == at + (if picked then [|whole|] else [])
    ensures Picks(whole + [next], at', s + if picked then [next] else [])
  {
    at' := at + if picked then [|whole|] else [];
  }

  /** The jobs of a stage are the entries at exactly the positions where the stage is named, in order. */
  lemma {:induction false} JobsForStagePositions(stage: Name, jobs: seq<Job>) returns (at: seq<nat>)
    ensures Picks(jobs, at, JobsForStageSpec(stage, jobs))
    ensures forall i :: i in at <==> 0 <= i < |jobs| && jobs[i].stage == stage
  {
    if jobs == [] {
      at := [];
    } else {
      var rest, last := jobs[..|jobs| - 1], jobs[|jobs| - 1];
      assert jobs == rest + [last];
      var before := JobsForStagePositions(stage, rest);
      at := PicksMore(rest, before, JobsForStageSpec(stage, rest), last, last.stage == stage);
    }
  }
}
