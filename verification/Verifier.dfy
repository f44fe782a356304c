/** internal/common/verifier: the checks on a parsed pipeline, with the cycle search by depth-first traversal. */
module Verifier {
  import opened Models
  import opened Needs

  /** What has been left for good is ranked above everything it needs. */
  ghost predicate Ranked(g: Graph, rank: map<Name, nat>, clock: nat) {
    && (forall x :: x in rank ==> rank[x] < clock)
    && (forall x, y :: x in rank && y in Slice(g, x) ==> y in rank && rank[y] < rank[x])
  }

  lemma RankNext(g: Graph, rank: map<Name, nat>, clock: nat, job: Name)
    requires Ranked(g, rank, clock) && job !in rank
    requires forall y :: y in Slice(g, job) ==> y in rank
    ensures Ranked(g, rank[job := clock], clock + 1)
  {
  }

  lemma AllRanked(g: Graph, rank: map<Name, nat>, clock: nat)
    requires Ranked(g, rank, clock) && g.Keys <= rank.Keys
    ensures Acyclic(g)
  {
    forall x, y | x in g && y in g[x] ensures x in rank && y in rank && rank[y] < rank[x] {
      assert y in Slice(g, x);
    }
    assert IsRank(g, rank);
  }

  /** Each entry needs the next one, and no entry repeats. */
  ghost predicate IsChain(g: Graph, path: seq<Name>) {
    Distinct(path) && forall i :: 0 <= i < |path| - 1 ==> path[i + 1] in Slice(g, path[i])
  }

  lemma CycleOnPath(g: Graph, path: seq<Name>, start: nat)
    requires IsChain(g, path) && start < |path| && path[start] in Slice(g, path[|path| - 1])
    ensures IsCycle(g, path[start..])
  {
    var c := path[start..];
    forall i | 0 <= i < |c| - 1 ensures c[i + 1] in Slice(g, c[i]) {
      assert path[start + i + 1] in Slice(g, path[start + i]);
    }
  }

  /** The two maps that the recursive closure of checkNoCycles updates; a Go map[string]bool is the set of its true
      keys. */
  class CycleSearch {
    const graph: Graph
    ghost const universe: set<Name>  // all the names a traversal can meet
    var visited: set<Name>
    var recStack: set<Name>
    ghost var rank: map<Name, nat>  // finish order of the fully explored jobs
    ghost var clock: nat

    constructor (graph: Graph)
      ensures this.graph == graph && visited == {} && Explored() && recStack == {}
    {
      this.graph := graph;
      universe := graph.Keys + set x, y | x in graph && y in graph[x] :: y;
      visited, recStack := {}, {};
      rank, clock := map[], 0;
    }

    ghost predicate Explored()
      reads this
    {
      && graph.Keys <= universe
      && (forall x, y :: x in graph && y in graph[x] ==> y in universe)
      && recStack <= visited <= universe
      && rank.Keys == visited - recStack
      && Ranked(graph, rank, clock)
    }

    /** `path` is the chain of open calls. */
    ghost predicate OnPath(path: seq<Name>)
      reads this
    {
      recStack == (set x | x in path) && IsChain(graph, path)
    }

    /** Opens the call for `job`. */
    method Enter(job: Name, path: seq<Name>) returns (path': seq<Name>)
      requires Explored() && OnPath(path)
      requires job in universe && job !in visited
      requires path != [] ==> job in Slice(graph, path[|path| - 1])
      modifies this`visited, this`recStack
      ensures visited == old(visited) + {job} && recStack == old(recStack) + {job} && path' == path + [job]
      ensures Explored() && OnPath(path')
    {
      visited := visited + {job};
      recStack := recStack + {job};
      path' := path + [job];
    }

    /** Closes the call for `job` once all its needs are explored. */
    method Leave(job: Name)
      requires Explored() && job in recStack && forall y :: y in Slice(graph, job) ==> y in rank
      modifies this`recStack, this`rank, this`clock
      ensures recStack == old(recStack) - {job} && Explored()
    {
      recStack := recStack - {job};
      RankNext(graph, rank, clock, job);
      rank, clock := rank[job := clock], clock + 1;
    }

    method Dfs(job: Name, path: seq<Name>) returns (cycle: seq<Name>, found: bool)
      requires Explored() && OnPath(path)
      requires job in universe && job !in visited
      requires path != [] ==> job in Slice(graph, path[|path| - 1])
      modifies this
      ensures found ==> IsCycle(graph, cycle)
      ensures !found ==> Explored() && recStack == old(recStack) && old(visited) + {job} <= visited
      decreases universe - visited
    {
      var path' := Enter(job, path);
      var needs := Slice(graph, job);
      for k := 0 to |needs|
        invariant Explored() && OnPath(path') && old(visited) + {job} <= visited
        invariant forall m :: 0 <= m < k ==> needs[m] in rank
      {
        var neighbor := needs[k];
        if neighbor !in visited {
          assert job in graph && neighbor in graph[job];
          cycle, found := Dfs(neighbor, path');
          if found {
            return;
          }
        } else if neighbor in recStack {
          var cycleStart := FirstIndex(path', neighbor);
          CycleOnPath(graph, path', cycleStart);
          return path'[cycleStart..], true;
        }
      }
      Leave(job);
      return [], false;
    }
  }

  method FirstIndex(path: seq<Name>, x: Name) returns (start: nat)
    requires x in path
    ensures start < |path| && path[start] == x && x !in path[..start]
  {
    start := 0;
    for i := 0 to |path|
      invariant start == 0 && x !in path[..i]
    {
      if path[i] == x {
        return i;
      }
    }
  }

  /** The adjacency list; a repeated job name keeps its last needs list. */
  method BuildGraph(jobs: seq<Job>) returns (graph: Graph)
    ensures graph == NeedsGraph(jobs)
  {
    graph := map[];
    for i := 0 to |jobs|
      invariant graph == NeedsGraph(jobs[..i])
    {
      graph := graph[jobs[i].name := jobs[i].needs];
      assert jobs[..i + 1][..i] == jobs[..i];
    }
    assert jobs[..|jobs|] == jobs;
  }

  /** A reported list is a real cycle, and silence means a topological rank exists; the roots are taken in any order. */
  method CheckNoCycles(jobs: seq<Job>) returns (cycle: seq<Name>, found: bool)
    ensures found ==> IsCycle(NeedsGraph(jobs), cycle)
    ensures found <==> !Acyclic(NeedsGraph(jobs))
  {
    var graph := BuildGraph(jobs);
    var search := new CycleSearch(graph);
    var roots := graph.Keys;
    while roots != {}
      invariant roots <= graph.Keys && graph.Keys - roots <= search.visited
      invariant search.graph == graph && search.Explored() && search.recStack == {}
      decreases roots
    {
      var job :| job in roots;
      roots := roots - {job};
      if job !in search.visited {
        cycle, found := search.Dfs(job, []);
        if found {
          CycleExcludesRank(graph, cycle);
          return;
        }
      }
    }
    AllRanked(graph, search.rank, search.clock);
    return [], false;
  }

  /* The other checks. An error is the check that failed and the position it points at. */

  datatype CheckError =
    | Format(message: string)
    | NoStages
    | DuplicateStage(stage: nat)
    | NoJobs
    | DuplicateJob(job: nat)
    | UndefinedStage(job: nat)
    | EmptyStage(stage: nat)
    | UndefinedNeed(job: nat, need: Name)
    | CrossStageNeed(job: nat, need: Name)
    | Cycle(jobs: seq<Name>)

  /** The check that reports the error, in the order in which the checks are made. */
  function Rank(e: CheckError): nat {
    match e
    case Format(_) => 0
    case NoStages => 1
    case DuplicateStage(_) => 2
    case NoJobs => 3
    case DuplicateJob(_) => 4
    case UndefinedStage(_) => 5
    case EmptyStage(_) => 6
    case UndefinedNeed(_, _) => 7
    case CrossStageNeed(_, _) => 8
    case Cycle(_) => 9
  }

  /** The declaration it points at. */
  function At(e: CheckError): nat {
    match e
    case DuplicateStage(i) => i
    case DuplicateJob(i) => i
    case UndefinedStage(i) => i
    case EmptyStage(i) => i
    case UndefinedNeed(i, _) => i
    case CrossStageNeed(i, _) => i
    case _ => 0
  }

  /** Check by check, and declaration by declaration within a check. */
  ghost predicate InOrder(errors: seq<CheckError>) {
    forall a, b :: 0 <= a < b < |errors| ==>
      Rank(errors[a]) < Rank(errors[b]) || (Rank(errors[a]) == Rank(errors[b]) && At(errors[a]) <= At(errors[b]))
  }

  /** How often the error is listed. */
  function Times(errors: seq<CheckError>, e: CheckError): nat {
    multiset(errors)[e]
  }

  lemma TimesJoin(a: seq<CheckError>, b: seq<CheckError>, e: CheckError)
    ensures Times(a + b, e) == Times(a, e) + Times(b, e)
  {
  }

  lemma TimesMember(errors: seq<CheckError>, e: CheckError)
    ensures Times(errors, e) > 0 <==> e in errors
  {
  }

  /** Declaration by declaration, each once. */
  ghost predicate Ascending(errors: seq<CheckError>) {
    forall a, b :: 0 <= a < b < |errors| ==> At(errors[a]) < At(errors[b])
  }

  lemma AscendingAppend(errors: seq<CheckError>, e: CheckError)
    requires Ascending(errors) && forall other :: other in errors ==> At(other) < At(e)
    ensures Ascending(errors + [e])
  {
  }

  method CheckUniqueStageNames(stages: seq<Name>) returns (errors: seq<CheckError>)
    ensures forall e :: e in errors <==>
      e.DuplicateStage? && e.stage < |stages| && stages[e.stage] in stages[..e.stage]
    ensures Ascending(errors)
    ensures errors == [] <==> Distinct(stages)
  {
    errors := [];
    var seen: set<Name> := {};
    for i := 0 to |stages|
      invariant seen == set s | s in stages[..i]
      invariant forall e :: e in errors <==> e.DuplicateStage? && e.stage < i && stages[e.stage] in stages[..e.stage]
      invariant Ascending(errors)
    {
      if stages[i] in seen {
        AscendingAppend(errors, DuplicateStage(i));
        errors := errors + [DuplicateStage(i)];
      } else {
        seen := seen + {stages[i]};
      }
      assert stages[..i + 1] == stages[..i] + [stages[i]];
    }
    assert errors != [] ==> errors[0] in errors;
    if errors == [] {
      forall i, j | 0 <= i < j < |stages| ensures stages[i] != stages[j] {
        assert DuplicateStage(j) !in errors && stages[..j][i] == stages[i];
      }
    }
  }

  method CheckUniqueJobNames(jobs: seq<Job>) returns (errors: seq<CheckError>)
    ensures forall e :: e in errors <==>
      e.DuplicateJob? && e.job < |jobs| && jobs[e.job].name in NameSet(jobs[..e.job])
    ensures Ascending(errors)
    ensures errors == [] <==> DistinctNames(jobs)
  {
    errors := [];
    var seen: set<Name> := {};
    for i := 0 to |jobs|
      invariant seen == NameSet(jobs[..i])
      invariant forall e :: e in errors <==> e.DuplicateJob? && e.job < i && jobs[e.job].name in NameSet(jobs[..e.job])
      invariant Ascending(errors)
    {
      if jobs[i].name in seen {
        AscendingAppend(errors, DuplicateJob(i));
        errors := errors + [DuplicateJob(i)];
      } else {
        seen := seen + {jobs[i].name};
      }
      assert jobs[..i + 1] == jobs[..i] + [jobs[i]];
    }
    assert errors != [] ==> errors[0] in errors;
    if errors == [] {
      forall i, j | 0 <= i < j < |jobs| ensures jobs[i].name != jobs[j].name {
        assert DuplicateJob(j) !in errors && jobs[..j][i] in jobs[..j];
      }
    }
  }

  method CheckJobStagesExist(p: Pipeline) returns (errors: seq<CheckError>)
    ensures forall e :: e in errors <==> e.UndefinedStage? && e.job < |p.jobs| && p.jobs[e.job].stage !in p.stages
    ensures Ascending(errors)
    ensures errors == [] <==> forall job :: job in p.jobs ==> job.stage in p.stages
  {
    errors := [];
    var validStages := set s | s in p.stages;
    for i := 0 to |p.jobs|
      invariant forall e :: e in errors <==> e.UndefinedStage? && e.job < i && p.jobs[e.job].stage !in p.stages
      invariant Ascending(errors)
    {
      if p.jobs[i].stage !in validStages {
        AscendingAppend(errors, UndefinedStage(i));
        errors := errors + [UndefinedStage(i)];
      }
    }
    assert errors != [] ==> errors[0] in errors;
    assert forall i :: 0 <= i < |p.jobs| && p.jobs[i].stage !in p.stages ==> UndefinedStage(i) in errors;
  }

  ghost predicate HasJob(jobs: seq<Job>, stage: Name) {
    exists job :: job in jobs && job.stage == stage
  }

  method CountJobs(p: Pipeline) returns (jobsPerStage: map<Name, nat>)
    ensures forall s :: s in jobsPerStage <==> HasJob(p.jobs, s)
    ensures forall s :: s in jobsPerStage ==> jobsPerStage[s] > 0
  {
    jobsPerStage := map[];
    for i := 0 to |p.jobs|
      invariant forall s :: s in jobsPerStage <==> exists k :: 0 <= k < i && p.jobs[k].stage == s
      invariant forall s :: s in jobsPerStage ==> jobsPerStage[s] > 0
    {
      var s := p.jobs[i].stage;
      jobsPerStage := jobsPerStage[s := (if s in jobsPerStage then jobsPerStage[s] else 0) + 1];
    }
  }

  method CheckNoEmptyStages(p: Pipeline) returns (errors: seq<CheckError>)
    ensures forall e :: e in errors <==>
      e.EmptyStage? && e.stage < |p.stages| && !HasJob(p.jobs, p.stages[e.stage])
    ensures Ascending(errors)
    ensures errors == [] <==> forall s :: s in p.stages ==> HasJob(p.jobs, s)
  {
    var jobsPerStage := CountJobs(p);
    errors := [];
    for i := 0 to |p.stages|
      invariant forall e :: e in errors <==>
        e.EmptyStage? && e.stage < i && !HasJob(p.jobs, p.stages[e.stage])
      invariant Ascending(errors)
    {
      var count := if p.stages[i] in jobsPerStage then jobsPerStage[p.stages[i]] else 0;
      if count == 0 {
        AscendingAppend(errors, EmptyStage(i));
        errors := errors + [EmptyStage(i)];
      }
    }
    assert errors != [] ==> errors[0] in errors;
    assert forall i :: 0 <= i < |p.stages| && !HasJob(p.jobs, p.stages[i]) ==> EmptyStage(i) in errors;
  }

  /* The two checks on needs: one error for each listing of a bad need, job by job, as listed. */

  /** The entries of a needs list that satisfy `bad`. */
  function Keep(job: Job, needs: seq<Name>, bad: (Job, Name) -> bool): seq<Name> {
    if needs == [] then [] else
    var last := |needs| - 1;
    Keep(job, needs[..last], bad) + if bad(job, needs[last]) then [needs[last]] else []
  }

  /** The same number of times, in the same order, and no other entry. */
  lemma {:induction false} KeepMeaning(job: Job, needs: seq<Name>, bad: (Job, Name) -> bool) returns (at: seq<nat>)
    ensures Picks(needs, at, Keep(job, needs, bad))
    ensures forall n :: multiset(Keep(job, needs, bad))[n] == (if bad(job, n) then multiset(needs)[n] else 0)
  {
    if needs == [] {
      at := [];
    } else {
      var rest, last := needs[..|needs| - 1], needs[|needs| - 1];
      assert needs == rest + [last];
      var before := KeepMeaning(job, rest, bad);
      at := PicksMore(rest, before, Keep(job, rest, bad), last, bad(job, last));
    }
  }

  function NeedError(i: nat, need: Name, crossing: bool): CheckError {
    if crossing then CrossStageNeed(i, need) else UndefinedNeed(i, need)
  }

  function NeedErrors(i: nat, needs: seq<Name>, crossing: bool): (errors: seq<CheckError>)
    ensures |errors| == |needs| && forall k :: 0 <= k < |needs| ==> errors[k] == NeedError(i, needs[k], crossing)
  {
    seq(|needs|, k requires 0 <= k < |needs| => NeedError(i, needs[k], crossing))
  }

  function AllNeedErrors(jobs: seq<Job>, bad: (Job, Name) -> bool, crossing: bool): seq<CheckError> {
    if jobs == [] then [] else
    var last := |jobs| - 1;
    AllNeedErrors(jobs[..last], bad, crossing) + NeedErrors(last, Keep(jobs[last], jobs[last].needs, bad), crossing)
  }

  lemma {:induction false} NeedErrorsCount(i: nat, needs: seq<Name>, crossing: bool)
    ensures forall j, n :: Times(NeedErrors(i, needs, crossing), NeedError(j, n, crossing)) ==
                             (if j == i then multiset(needs)[n] else 0)
  {
    if needs != [] {
      var rest, last := needs[..|needs| - 1], needs[|needs| - 1];
      assert needs == rest + [last];
      NeedErrorsCount(i, rest, crossing);
      assert NeedErrors(i, needs, crossing) == NeedErrors(i, rest, crossing) + [NeedError(i, last, crossing)];
    }
  }

  /** One error of the kind for each listing of a bad need. */
  ghost predicate ListedAsOften(errors: seq<CheckError>, jobs: seq<Job>, bad: (Job, Name) -> bool, crossing: bool) {
    forall i: nat, n {:trigger NeedError(i, n, crossing)} :: Times(errors, NeedError(i, n, crossing)) ==
      (if i < |jobs| && bad(jobs[i], n) then multiset(jobs[i].needs)[n] else 0)
  }

  /** Only errors of the kind, in the order of the jobs. */
  ghost predicate InPlace(errors: seq<CheckError>, count: nat, crossing: bool) {
    && (forall e :: e in errors ==> e == NeedError(At(e), NeedOf(e), crossing) && At(e) < count)
    && (forall a, b :: 0 <= a < b < |errors| ==> At(errors[a]) <= At(errors[b]))
  }

  ghost predicate ListsBadNeeds(errors: seq<CheckError>, jobs: seq<Job>, bad: (Job, Name) -> bool, crossing: bool) {
    ListedAsOften(errors, jobs, bad, crossing) && InPlace(errors, |jobs|, crossing)
  }

  function NeedOf(e: CheckError): Name {
    match e
    case UndefinedNeed(_, need) => need
    case CrossStageNeed(_, need) => need
    case _ => ""
  }

  lemma {:induction false} AllNeedErrorsMeaning(jobs: seq<Job>, bad: (Job, Name) -> bool, crossing: bool)
    ensures ListsBadNeeds(AllNeedErrors(jobs, bad, crossing), jobs, bad, crossing)
  {
    if jobs != [] {
      var rest, last := jobs[..|jobs| - 1], jobs[|jobs| - 1];
      assert jobs == rest + [last];
      AllNeedErrorsMeaning(rest, bad, crossing);
      var kept := Keep(last, last.needs, bad);
      var at := KeepMeaning(last, last.needs, bad);
      NeedErrorsCount(|rest|, kept, crossing);
      MoreBadNeeds(AllNeedErrors(rest, bad, crossing), rest, last, kept, bad, crossing);
    }
  }

  lemma MoreBadNeeds(errors: seq<CheckError>, rest: seq<Job>, last: Job, kept: seq<Name>,
                     bad: (Job, Name) -> bool, crossing: bool)
    requires ListsBadNeeds(errors, rest, bad, crossing)
    requires forall n :: multiset(kept)[n] == (if bad(last, n) then multiset(last.needs)[n] else 0)
    requires forall j, n :: Times(NeedErrors(|rest|, kept, crossing), NeedError(j, n, crossing)) ==
                              (if j == |rest| then multiset(kept)[n] else 0)
    ensures ListsBadNeeds(errors + NeedErrors(|rest|, kept, crossing), rest + [last], bad, crossing)
  {
    hide ListedAsOften, InPlace, Times, NeedError;
    MoreInPlace(errors, kept, |rest|, crossing);
    MoreTimesAll(errors, rest, last, kept, bad, crossing);
  }

  lemma MoreTimesAll(errors: seq<CheckError>, rest: seq<Job>, last: Job, kept: seq<Name>,
                     bad: (Job, Name) -> bool, crossing: bool)
    requires ListedAsOften(errors, rest, bad, crossing)
    requires forall n :: multiset(kept)[n] == (if bad(last, n) then multiset(last.needs)[n] else 0)
    requires forall j, n :: Times(NeedErrors(|rest|, kept, crossing), NeedError(j, n, crossing)) ==
                              (if j == |rest| then multiset(kept)[n] else 0)
    ensures ListedAsOften(errors + NeedErrors(|rest|, kept, crossing), rest + [last], bad, crossing)
  {
    hide Times, NeedErrors, NeedError;
    forall i: nat, n ensures Times(errors + NeedErrors(|rest|, kept, crossing), NeedError(i, n, crossing)) ==
      (if i < |rest + [last]| && bad((rest + [last])[i], n) then multiset((rest + [last])[i].needs)[n] else 0)
    {
      MoreTimes(errors, rest, last, kept, bad, crossing, i, n);
    }
  }

  lemma MoreTimes(errors: seq<CheckError>, rest: seq<Job>, last: Job, kept: seq<Name>,
                  bad: (Job, Name) -> bool, crossing: bool, i: nat, n: Name)
    requires ListedAsOften(errors, rest, bad, crossing)
    requires multiset(kept)[n] == (if bad(last, n) then multiset(last.needs)[n] else 0)
    requires Times(NeedErrors(|rest|, kept, crossing), NeedError(i, n, crossing)) ==
               (if i == |rest| then multiset(kept)[n] else 0)
    ensures Times(errors + NeedErrors(|rest|, kept, crossing), NeedError(i, n, crossing)) ==
      if i < |rest + [last]| && bad((rest + [last])[i], n) then multiset((rest + [last])[i].needs)[n] else 0
  {
    TimesJoin(errors, NeedErrors(|rest|, kept, crossing), NeedError(i, n, crossing));
    hide Times, NeedErrors;
    if i < |rest| {
      assert (rest + [last])[i] == rest[i];
    } else if i == |rest| {
      assert (rest + [last])[i] == last;
    }
  }

  lemma MoreInPlace(errors: seq<CheckError>, kept: seq<Name>, i: nat, crossing: bool)
    requires InPlace(errors, i, crossing)
    ensures InPlace(errors + NeedErrors(i, kept, crossing), i + 1, crossing)
  {
    var all := errors + NeedErrors(i, kept, crossing);
    forall k | 0 <= k < |all| ensures all[k] == NeedError(At(all[k]), NeedOf(all[k]), crossing) && At(all[k]) <= i {
      assert k < |errors| ==> errors[k] in errors;
    }
    forall a, b | 0 <= a < b < |all| ensures At(all[a]) <= At(all[b]) {
      assert a < |errors| ==> errors[a] in errors;
    }
  }

  /** The need names no job. */
  function Undefined(jobs: seq<Job>): (Job, Name) -> bool {
    (job, n) => n !in NameSet(jobs)
  }

  method CheckNeedsReferences(jobs: seq<Job>) returns (errors: seq<CheckError>)
    ensures errors == AllNeedErrors(jobs, Undefined(jobs), false)
    ensures ListsBadNeeds(errors, jobs, Undefined(jobs), false)
  {
    errors := [];
    var jobNames := NameSet(jobs);
    ghost var bad := Undefined(jobs);
    for i := 0 to |jobs|
      invariant errors == AllNeedErrors(jobs[..i], bad, false)
    {
      ghost var before := errors;
      var needs := jobs[i].needs;
      for k := 0 to |needs|
        invariant errors == before + NeedErrors(i, Keep(jobs[i], needs[..k], bad), false)
      {
        assert needs[..k + 1][..k] == needs[..k];
        if needs[k] !in jobNames {
          errors := errors + [UndefinedNeed(i, needs[k])];
        }
      }
      assert needs[..|needs|] == needs && jobs[..i + 1][..i] == jobs[..i];
    }
    assert jobs[..|jobs|] == jobs;
    AllNeedErrorsMeaning(jobs, bad, false);
  }

  /** Each job name with the stage of its last declaration. */
  function StageOfName(jobs: seq<Job>): map<Name, Name> {
    if jobs == [] then map[] else
    var last := |jobs| - 1;
    StageOfName(jobs[..last])[jobs[last].name := jobs[last].stage]
  }

  ghost predicate CrossesStages(jobs: seq<Job>, job: Job, need: Name) {
    need in job.needs && need in StageOfName(jobs) && StageOfName(jobs)[need] != job.stage
  }

  ghost predicate GoodNeed(jobs: seq<Job>, job: Job, need: Name) {
    need in NameSet(jobs) && !CrossesStages(jobs, job, need)
  }

  /** The need names a job of another stage. */
  function Crossing(jobs: seq<Job>): (Job, Name) -> bool {
    var stages := StageOfName(jobs);
    (job: Job, n) => n in stages && stages[n] != job.stage
  }

  method IndexStages(jobs: seq<Job>) returns (jobToStage: map<Name, Name>)
    ensures jobToStage == StageOfName(jobs)
  {
    jobToStage := map[];
    for i := 0 to |jobs|
      invariant jobToStage == StageOfName(jobs[..i])
    {
      jobToStage := jobToStage[jobs[i].name := jobs[i].stage];
      assert jobs[..i + 1][..i] == jobs[..i];
    }
    assert jobs[..|jobs|] == jobs;
  }

  lemma {:induction false} StageOfNameLastWins(jobs: seq<Job>)
    ensures LastWins(jobs, (job: Job) => job.name, (job: Job) => job.stage, StageOfName(jobs))
    ensures StageOfName(jobs).Keys == NameSet(jobs)
  {
    if jobs != [] {
      var rest, last := jobs[..|jobs| - 1], jobs[|jobs| - 1];
      assert jobs == rest + [last];
      StageOfNameLastWins(rest);
      LastWinsStep(rest, (job: Job) => job.name, (job: Job) => job.stage, StageOfName(rest), last);
    }
  }

  method CheckNeedsStageConsistency(jobs: seq<Job>) returns (errors: seq<CheckError>)
    ensures errors == AllNeedErrors(jobs, Crossing(jobs), true)
    ensures ListsBadNeeds(errors, jobs, Crossing(jobs), true)
  {
    var jobToStage := IndexStages(jobs);
    errors := [];
    ghost var bad := Crossing(jobs);
    for i := 0 to |jobs|
      invariant errors == AllNeedErrors(jobs[..i], bad, true)
    {
      ghost var before := errors;
      var needs := jobs[i].needs;
      for k := 0 to |needs|
        invariant errors == before + NeedErrors(i, Keep(jobs[i], needs[..k], bad), true)
      {
        assert needs[..k + 1][..k] == needs[..k];
        if needs[k] in jobToStage && jobToStage[needs[k]] != jobs[i].stage {
          errors := errors + [CrossStageNeed(i, needs[k])];
        }
      }
      assert needs[..|needs|] == needs && jobs[..i + 1][..i] == jobs[..i];
    }
    assert jobs[..|jobs|] == jobs;
    AllNeedErrorsMeaning(jobs, bad, true);
  }

  /** What the planner and the scheduler rely on, said without the checks. */
  ghost predicate WellFormed(p: Pipeline) {
    && p.stages != [] && Distinct(p.stages)
    && p.jobs != [] && DistinctNames(p.jobs)
    && (forall job :: job in p.jobs ==> job.stage in p.stages)
    && (forall s :: s in p.stages ==> HasJob(p.jobs, s))
    && NeedsInStage(p.jobs)
    && Acyclic(NeedsGraph(p.jobs))
  }

  ghost predicate JobInStage(jobs: seq<Job>, name: Name, stage: Name) {
    exists job :: job in jobs && job.name == name && job.stage == stage
  }

  /** Every need names a job of the same stage. */
  ghost predicate NeedsInStage(jobs: seq<Job>) {
    forall job, need :: job in jobs && need in job.needs ==> JobInStage(jobs, need, job.stage)
  }

  lemma {:induction false} StageOfNameAt(jobs: seq<Job>, job: Job)
    requires DistinctNames(jobs) && job in jobs
    ensures job.name in StageOfName(jobs) && StageOfName(jobs)[job.name] == job.stage
  {
    var last := |jobs| - 1;
    assert jobs == jobs[..last] + [jobs[last]];
    if job != jobs[last] {
      StageOfNameAt(jobs[..last], job);
      SameNameOnlyIfSame(jobs, job);
    }
  }

  /** With distinct names, the two checks on needs together say that needs stay inside the stage. */
  lemma NeedsChecksMeanInStage(jobs: seq<Job>)
    requires DistinctNames(jobs)
    ensures NeedsInStage(jobs) <==>
      forall job, need :: job in jobs && need in job.needs ==> GoodNeed(jobs, job, need)
  {
    forall job, need | job in jobs && need in job.needs
      ensures JobInStage(jobs, need, job.stage) <==> GoodNeed(jobs, job, need)
    {
      forall other | other in jobs && other.name == need
        ensures need in StageOfName(jobs) && StageOfName(jobs)[need] == other.stage
      {
        StageOfNameAt(jobs, other);
      }
    }
    assert NeedsInStage(jobs) ==> forall job, need :: job in jobs && need in job.needs ==> GoodNeed(jobs, job, need);
  }

  function Formats(messages: seq<string>): (errors: seq<CheckError>)
    ensures |errors| == |messages| && forall i :: 0 <= i < |errors| ==> errors[i] == Format(messages[i])
  {
    seq(|messages|, i requires 0 <= i < |messages| => Format(messages[i]))
  }

  /** How often the error is due, the cycle and format errors aside. */
  ghost function Due(p: Pipeline, e: CheckError): nat {
    match e
    case UndefinedNeed(i, need) =>
      if i < |p.jobs| && need !in NameSet(p.jobs) then multiset(p.jobs[i].needs)[need] else 0
    case CrossStageNeed(i, need) =>
      if i < |p.jobs| && CrossesStages(p.jobs, p.jobs[i], need) then multiset(p.jobs[i].needs)[need] else 0
    case _ => if ShapeError(p, e) then 1 else 0
  }

  /** The checks on the parsed pipeline report exactly the errors that are due, as often as they are due, check by
      check and declaration by declaration, and one real cycle if there is any. */
  ghost predicate Reports(p: Pipeline, errors: seq<CheckError>) {
    && (errors == [] <==> WellFormed(p))
    && (forall e: CheckError :: !e.Format? && !e.Cycle? ==> Times(errors, e) == Due(p, e))
    && InOrder(errors)
    && (forall e :: e in errors && e.Cycle? ==> IsCycle(NeedsGraph(p.jobs), e.jobs))
    && (forall a :: 0 <= a < |errors| - 1 ==> !errors[a].Cycle?)
    && (!Acyclic(NeedsGraph(p.jobs)) <==> exists e :: e in errors && e.Cycle?)
    && (forall e :: e in errors ==> !e.Format?)
  }

  /**
   * Runs every check. The YAML type and format checks are inputs: `typeErrors` with the verdict whether one of them is
   * critical, and `formatErrors`.
   */
  method Verify(p: Pipeline, typeErrors: seq<string>, critical: bool, formatErrors: seq<string>)
    returns (errors: seq<CheckError>)
    ensures errors == [] <==> typeErrors == [] && formatErrors == [] && WellFormed(p)
    ensures typeErrors != [] && critical ==> errors == Formats(typeErrors)
    ensures typeErrors == [] || !critical ==>
      exists content :: Reports(p, content) && errors == Formats(typeErrors) + Formats(formatErrors) + content
  {
    errors := Formats(typeErrors);
    if |typeErrors| > 0 && critical {
      return;
    }
    var content := CheckContent(p);
    assert content == [] <==> WellFormed(p);
    hide Reports, WellFormed;
    errors := errors + Formats(formatErrors) + content;
  }

  /** Checks 1 to 8. */
  method CheckContent(p: Pipeline) returns (errors: seq<CheckError>)
    ensures Reports(p, errors)
  {
    var shape := CheckShape(p);
    var needs := CheckNeedsReferences(p.jobs);
    var crossing := CheckNeedsStageConsistency(p.jobs);
    var cycle, found := CheckNoCycles(p.jobs);
    ContentReported(p, shape, needs, crossing, cycle, found);
    errors := shape + needs + crossing + if found then [Cycle(cycle)] else [];
  }

  /** The lists of the checks, one after the other. */
  lemma ContentReported(p: Pipeline, shape: seq<CheckError>, needs: seq<CheckError>, crossing: seq<CheckError>,
                        cycle: seq<Name>, found: bool)
    requires ShapeReported(p, shape)
    requires ListsBadNeeds(needs, p.jobs, Undefined(p.jobs), false)
    requires ListsBadNeeds(crossing, p.jobs, Crossing(p.jobs), true)
    requires found ==> IsCycle(NeedsGraph(p.jobs), cycle)
    requires found <==> !Acyclic(NeedsGraph(p.jobs))
    ensures Reports(p, shape + needs + crossing + if found then [Cycle(cycle)] else [])
  {
    hide IsCycle, Acyclic, NeedsInStage, DistinctNames, ListsBadNeeds, Due, InOrder, Times;
    var last := if found then [Cycle(cycle)] else [];
    NeedsReported(p, needs, crossing);
    SingletonInOrder(last);
    OneAfterTheOther(shape, needs, crossing, last);
    forall e: CheckError | !e.Format? && !e.Cycle? ensures Times(shape + needs + crossing + last, e) == Due(p, e) {
      CountedOnce(p, shape, needs, crossing, last, e);
    }
    hide Rank;
    CycleIsLast(shape + needs + crossing, last);
    assert shape + needs + crossing + last == [] <==> WellFormed(p);
  }

  /** The only cycle error, if any, is the last one. */
  lemma CycleIsLast(others: seq<CheckError>, last: seq<CheckError>)
    requires |last| <= 1 && (forall e :: e in others ==> !e.Cycle? && !e.Format?) && forall e :: e in last ==> e.Cycle?
    ensures forall a :: 0 <= a < |others + last| - 1 ==> !(others + last)[a].Cycle?
    ensures forall e :: e in others + last && e.Cycle? ==> e in last
    ensures forall e :: e in others + last ==> !e.Format?
    ensures last != [] ==> last[0] in others + last && last[0].Cycle?
  {
    assert last != [] ==> last[0] in last;
  }

  lemma SingletonInOrder(errors: seq<CheckError>)
    requires |errors| <= 1
    ensures InOrder(errors)
  {
  }

  lemma OneAfterTheOther(shape: seq<CheckError>, needs: seq<CheckError>, crossing: seq<CheckError>,
                         last: seq<CheckError>)
    requires InOrder(shape) && InOrder(needs) && InOrder(crossing) && InOrder(last)
    requires (forall e :: e in shape ==> Rank(e) < 7) && (forall e :: e in needs ==> Rank(e) == 7)
    requires (forall e :: e in crossing ==> Rank(e) == 8) && (forall e :: e in last ==> Rank(e) == 9)
    ensures InOrder(shape + needs + crossing + last)
  {
    InOrderJoin(shape, needs);
    InOrderJoin(shape + needs, crossing);
    InOrderJoin(shape + needs + crossing, last);
  }

  lemma InOrderJoin(first: seq<CheckError>, second: seq<CheckError>)
    requires InOrder(first) && InOrder(second) && forall e, f :: e in first && f in second ==> Rank(e) < Rank(f)
    ensures InOrder(first + second)
  {
    var all := first + second;
    forall a, b | 0 <= a < b < |all|
      ensures Rank(all[a]) < Rank(all[b]) || (Rank(all[a]) == Rank(all[b]) && At(all[a]) <= At(all[b]))
    {
      if a < |first| <= b {
        assert all[a] in first && all[b] in second;
      }
    }
  }

  lemma CountedOnce(p: Pipeline, shape: seq<CheckError>, needs: seq<CheckError>, crossing: seq<CheckError>,
                    last: seq<CheckError>, e: CheckError)
    requires ShapeReported(p, shape) && !e.Format? && !e.Cycle?
    requires ListsBadNeeds(needs, p.jobs, Undefined(p.jobs), false)
    requires ListsBadNeeds(crossing, p.jobs, Crossing(p.jobs), true)
    requires last == [] || (|last| == 1 && last[0].Cycle?)
    ensures Times(shape + needs + crossing + last, e) == Due(p, e)
  {
    TimesMember(last, e);
    hide ListedAsOften, InPlace, InOrder, Rank, Times, ShapeError, Due, Undefined, Crossing;
    TimesJoin(shape, needs, e);
    TimesJoin(shape + needs, crossing, e);
    TimesJoin(shape + needs + crossing, last, e);
    NotInNeeds(p.jobs, needs, Undefined(p.jobs), false, e);
    NotInNeeds(p.jobs, crossing, Crossing(p.jobs), true, e);
    DueMeaning(p, e);
  }

  lemma DueMeaning(p: Pipeline, e: CheckError)
    ensures Due(p, e) ==
      (if ShapeError(p, e) then 1 else 0) +
      (if e == NeedError(At(e), NeedOf(e), false) && At(e) < |p.jobs| && Undefined(p.jobs)(p.jobs[At(e)], NeedOf(e))
       then multiset(p.jobs[At(e)].needs)[NeedOf(e)] else 0) +
      (if e == NeedError(At(e), NeedOf(e), true) && At(e) < |p.jobs| && Crossing(p.jobs)(p.jobs[At(e)], NeedOf(e))
       then multiset(p.jobs[At(e)].needs)[NeedOf(e)] else 0)
  {
    if e.CrossStageNeed? && e.job < |p.jobs| && e.need !in p.jobs[e.job].needs {
      assert multiset(p.jobs[e.job].needs)[e.need] == 0;
    }
  }

  /** What such a list says of any error. */
  lemma NotInNeeds(jobs: seq<Job>, errors: seq<CheckError>, bad: (Job, Name) -> bool, crossing: bool, e: CheckError)
    requires ListsBadNeeds(errors, jobs, bad, crossing)
    ensures Times(errors, e) ==
      if e == NeedError(At(e), NeedOf(e), crossing) && At(e) < |jobs| && bad(jobs[At(e)], NeedOf(e))
      then multiset(jobs[At(e)].needs)[NeedOf(e)] else 0
  {
    TimesMember(errors, e);
    hide Times;
    if e in errors {
      assert e == NeedError(At(e), NeedOf(e), crossing);
    }
  }

  /** With distinct names the two lists are empty exactly when all needs stay in the stage. */
  lemma NeedsReported(p: Pipeline, needs: seq<CheckError>, crossing: seq<CheckError>)
    requires ListsBadNeeds(needs, p.jobs, Undefined(p.jobs), false)
    requires ListsBadNeeds(crossing, p.jobs, Crossing(p.jobs), true)
    ensures DistinctNames(p.jobs) ==> (needs == [] && crossing == [] <==> NeedsInStage(p.jobs))
    ensures InOrder(needs) && InOrder(crossing)
    ensures (forall e :: e in needs ==> Rank(e) == 7) && (forall e :: e in crossing ==> Rank(e) == 8)
    ensures forall e :: e in needs + crossing ==> !e.Cycle? && !e.Format?
  {
    if DistinctNames(p.jobs) {
      NeedsChecksMeanInStage(p.jobs);
      NoNeedsErrors(p.jobs, needs, crossing);
    }
  }

  /** An empty error list says the same as the property its errors deny. */
  lemma NoNeedsErrors(jobs: seq<Job>, needs: seq<CheckError>, crossing: seq<CheckError>)
    requires ListsBadNeeds(needs, jobs, Undefined(jobs), false) && ListsBadNeeds(crossing, jobs, Crossing(jobs), true)
    ensures needs == [] && crossing == [] <==>
      forall job, need :: job in jobs && need in job.needs ==> GoodNeed(jobs, job, need)
  {
    if needs == [] && crossing == [] {
      forall job, need | job in jobs && need in job.needs
        ensures GoodNeed(jobs, job, need)
      {
        var i :| 0 <= i < |jobs| && jobs[i] == job;
        assert Times(needs, NeedError(i, need, false)) == 0 && Times(crossing, NeedError(i, need, true)) == 0;
        assert multiset(jobs[i].needs)[need] > 0;
      }
    } else if needs != [] {
      BadNeedExists(jobs, needs, Undefined(jobs), false);
    } else {
      BadNeedExists(jobs, crossing, Crossing(jobs), true);
    }
  }

  lemma BadNeedExists(jobs: seq<Job>, errors: seq<CheckError>, bad: (Job, Name) -> bool, crossing: bool)
    requires ListsBadNeeds(errors, jobs, bad, crossing) && errors != []
    ensures exists job, need :: job in jobs && need in job.needs && bad(job, need)
  {
    var e := errors[0];
    TimesMember(errors, e);
    assert e in errors;
    assert e == NeedError(At(e), NeedOf(e), crossing);
    var job := jobs[At(e)];
    assert NeedOf(e) in job.needs && bad(job, NeedOf(e)) && job in jobs;
  }

  /** The error about stages, job names or the assignment of jobs to stages is due. */
  ghost predicate ShapeError(p: Pipeline, e: CheckError) {
    match e
    case NoStages => p.stages == []
    case DuplicateStage(i) => i < |p.stages| && p.stages[i] in p.stages[..i]
    case NoJobs => p.jobs == []
    case DuplicateJob(i) => i < |p.jobs| && p.jobs[i].name in NameSet(p.jobs[..i])
    case UndefinedStage(i) => i < |p.jobs| && p.jobs[i].stage !in p.stages
    case EmptyStage(i) => i < |p.stages| && !HasJob(p.jobs, p.stages[i])
    case _ => false
  }

  /** The error is due, the cycle and format errors aside. */
  ghost predicate Denies(p: Pipeline, e: CheckError) {
    match e
    case UndefinedNeed(i, need) => i < |p.jobs| && need in p.jobs[i].needs && need !in NameSet(p.jobs)
    case CrossStageNeed(i, need) => i < |p.jobs| && CrossesStages(p.jobs, p.jobs[i], need)
    case _ => ShapeError(p, e)
  }

  ghost predicate ShapeReported(p: Pipeline, errors: seq<CheckError>) {
    && (errors == [] <==>
        && p.stages != [] && Distinct(p.stages)
        && p.jobs != [] && DistinctNames(p.jobs)
        && (forall job :: job in p.jobs ==> job.stage in p.stages)
        && (forall s :: s in p.stages ==> HasJob(p.jobs, s)))
    && (forall e :: Times(errors, e) == (if ShapeError(p, e) then 1 else 0))
    && (forall e :: e in errors ==> Rank(e) < 7 && !e.Cycle? && !e.Format?)
    && InOrder(errors)
  }

  /** Checks 1 to 6: stages, job names and the assignment of jobs to stages. */
  method CheckShape(p: Pipeline) returns (errors: seq<CheckError>)
    ensures ShapeReported(p, errors)
  {
    hide Distinct, DistinctNames, HasJob, Times, InOrder, At, Ascending, ShapeError;
    var duplicateStages := CheckUniqueStageNames(p.stages);
    var duplicateJobs := CheckUniqueJobNames(p.jobs);
    var undefined := CheckJobStagesExist(p);
    var empty := CheckNoEmptyStages(p);
    var noStages := if p.stages == [] then [NoStages] else [];
    var noJobs := if p.jobs == [] then [NoJobs] else [];
    errors := noStages + duplicateStages + noJobs + duplicateJobs + undefined + empty;
    ShapeInOrder(noStages, duplicateStages, noJobs, duplicateJobs, undefined, empty);
    ShapeTimes(p, noStages, duplicateStages, noJobs, duplicateJobs, undefined, empty);
    NoneOfSix(noStages, duplicateStages, noJobs, duplicateJobs, undefined, empty);
    RankKinds(errors);
  }

  lemma NoneOfSix(a: seq<CheckError>, b: seq<CheckError>, c: seq<CheckError>, d: seq<CheckError>,
                  e: seq<CheckError>, f: seq<CheckError>)
    ensures a + b + c + d + e + f == [] <==> a == [] && b == [] && c == [] && d == [] && e == [] && f == []
  {
    assert |a + b + c + d + e + f| == |a| + |b| + |c| + |d| + |e| + |f|;
  }

  lemma RankKinds(errors: seq<CheckError>)
    requires forall e :: e in errors ==> 1 <= Rank(e) < 7
    ensures forall e :: e in errors ==> !e.Cycle? && !e.Format?
  {
  }

  lemma ShapeTimes(p: Pipeline, noStages: seq<CheckError>, duplicateStages: seq<CheckError>, noJobs: seq<CheckError>,
                   duplicateJobs: seq<CheckError>, undefined: seq<CheckError>, empty: seq<CheckError>)
    requires noStages == (if p.stages == [] then [NoStages] else []) && noJobs == if p.jobs == [] then [NoJobs] else []
    requires Ascending(duplicateStages) && Ascending(duplicateJobs) && Ascending(undefined) && Ascending(empty)
    requires forall e :: e in duplicateStages <==>
      e.DuplicateStage? && e.stage < |p.stages| && p.stages[e.stage] in p.stages[..e.stage]
    requires forall e :: e in duplicateJobs <==>
      e.DuplicateJob? && e.job < |p.jobs| && p.jobs[e.job].name in NameSet(p.jobs[..e.job])
    requires forall e :: e in undefined <==>
      e.UndefinedStage? && e.job < |p.jobs| && p.jobs[e.job].stage !in p.stages
    requires forall e :: e in empty <==>
      e.EmptyStage? && e.stage < |p.stages| && !HasJob(p.jobs, p.stages[e.stage])
    ensures forall e :: Times(noStages + duplicateStages + noJobs + duplicateJobs + undefined + empty, e) ==
                          (if ShapeError(p, e) then 1 else 0)
  {
    hide HasJob, Times, At, ShapeError, Ascending;
    forall e ensures Times(noStages + duplicateStages + noJobs + duplicateJobs + undefined + empty, e) ==
                       (if ShapeError(p, e) then 1 else 0)
    {
      ShapeCounted(noStages, duplicateStages, noJobs, duplicateJobs, undefined, empty, e);
      ShapeErrorIs(p, e);
    }
  }

  /** The six kinds of shape errors. */
  lemma ShapeErrorIs(p: Pipeline, e: CheckError)
    ensures ShapeError(p, e) <==>
      || (e == NoStages && p.stages == [])
      || (e.DuplicateStage? && e.stage < |p.stages| && p.stages[e.stage] in p.stages[..e.stage])
      || (e == NoJobs && p.jobs == [])
      || (e.DuplicateJob? && e.job < |p.jobs| && p.jobs[e.job].name in NameSet(p.jobs[..e.job]))
      || (e.UndefinedStage? && e.job < |p.jobs| && p.jobs[e.job].stage !in p.stages)
      || (e.EmptyStage? && e.stage < |p.stages| && !HasJob(p.jobs, p.stages[e.stage]))
  {
  }

  lemma ShapeCounted(a: seq<CheckError>, b: seq<CheckError>, c: seq<CheckError>, d: seq<CheckError>,
                     e: seq<CheckError>, f: seq<CheckError>, x: CheckError)
    requires (a == [] || a == [NoStages]) && Ascending(b) && (c == [] || c == [NoJobs]) && Ascending(d)
    requires Ascending(e) && Ascending(f)
    ensures Times(a + b + c + d + e + f, x) ==
      (if x in a then 1 else 0) + (if x in b then 1 else 0) + (if x in c then 1 else 0) +
      (if x in d then 1 else 0) + (if x in e then 1 else 0) + (if x in f then 1 else 0)
  {
    TimesJoin(a, b, x);
    TimesJoin(a + b, c, x);
    TimesJoin(a + b + c, d, x);
    TimesJoin(a + b + c + d, e, x);
    TimesJoin(a + b + c + d + e, f, x);
    OnceIn(a, x);
    OnceIn(b, x);
    OnceIn(c, x);
    OnceIn(d, x);
    OnceIn(e, x);
    OnceIn(f, x);
  }

  lemma {:induction false} OnceIn(errors: seq<CheckError>, e: CheckError)
    requires Ascending(errors)
    ensures Times(errors, e) == if e in errors then 1 else 0
  {
    if errors != [] {
      var rest, last := errors[..|errors| - 1], errors[|errors| - 1];
      assert errors == rest + [last];
      OnceIn(rest, e);
      assert forall other :: other in rest ==> At(other) < At(last);
    }
  }

  ghost predicate InOrderUpTo(errors: seq<CheckError>, rank: nat) {
    InOrder(errors) && forall e :: e in errors ==> 1 <= Rank(e) <= rank
  }

  lemma NextCheck(errors: seq<CheckError>, rank: nat, more: seq<CheckError>)
    requires InOrderUpTo(errors, rank) && Ascending(more) && forall e :: e in more ==> Rank(e) == rank + 1
    ensures InOrderUpTo(errors + more, rank + 1)
  {
    assert InOrder(more) by {
      assert forall k :: 0 <= k < |more| ==> more[k] in more;
    }
    InOrderJoin(errors, more);
  }

  lemma ShapeInOrder(a: seq<CheckError>, b: seq<CheckError>, c: seq<CheckError>, d: seq<CheckError>,
                     e: seq<CheckError>, f: seq<CheckError>)
    requires (a == [] || a == [NoStages]) && Ascending(b) && (c == [] || c == [NoJobs]) && Ascending(d)
    requires Ascending(e) && Ascending(f)
    requires (forall x :: x in b ==> x.DuplicateStage?) && (forall x :: x in d ==> x.DuplicateJob?)
    requires (forall x :: x in e ==> x.UndefinedStage?) && (forall x :: x in f ==> x.EmptyStage?)
    ensures InOrder(a + b + c + d + e + f)
    ensures forall x :: x in a + b + c + d + e + f ==> 1 <= Rank(x) < 7
  {
    assert InOrderUpTo(a, 1);
    hide InOrderUpTo;
    NextCheck(a, 1, b);
    NextCheck(a + b, 2, c);
    NextCheck(a + b + c, 3, d);
    NextCheck(a + b + c + d, 4, e);
    NextCheck(a + b + c + d + e, 5, f);
    UpToMeaning(a + b + c + d + e + f, 6);
  }

  lemma UpToMeaning(errors: seq<CheckError>, rank: nat)
    requires InOrderUpTo(errors, rank)
    ensures InOrder(errors) && forall e :: e in errors ==> 1 <= Rank(e) <= rank
  {
  }
}
