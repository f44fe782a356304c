/** The stageState record of internal/services/orchestrator/service.go: incremental counters and flags of one stage. */
module Stage {
  import opened Models
  import opened Needs
  import opened Planner

  /** The three maps a stageState updates; a Go map[string]bool is the set of its true keys. */
  datatype StageView = StageView(remaining: map<Name, int>, queued: set<Name>, completed: set<Name>)

  function Initial(plan: StagePlan): StageView {
    StageView(plan.inDegree, {}, {})
  }

  function RemainingOf(v: StageView, job: Name): int {
    if job in v.remaining then v.remaining[job] else 0
  }

  predicate IsReady(v: StageView, job: Name) {
    RemainingOf(v, job) == 0 && job !in v.queued && job !in v.completed
  }

  /** getReadyJobs over the first jobs of the plan. */
  function ScanReady(v: StageView, jobs: seq<JobExecutionPlan>): (StageView, seq<Name>) {
    if jobs == [] then (v, []) else
    var last := |jobs| - 1;
    var (w, ready) := ScanReady(v, jobs[..last]);
    var job := jobs[last].name;
    if IsReady(w, job) then (w.(queued := w.queued + {job}), ready + [job]) else (w, ready)
  }

  /** The count-down loop of markJobSucceeded over the first dependents. */
  function Release(v: StageView, dependents: seq<Name>): (StageView, seq<Name>) {
    if dependents == [] then (v, []) else
    var last := |dependents| - 1;
    var (w, ready) := Release(v, dependents[..last]);
    var job := dependents[last];
    var w' := if RemainingOf(w, job) > 0 then w.(remaining := w.remaining[job := w.remaining[job] - 1]) else w;
    if IsReady(w', job) then (w'.(queued := w'.queued + {job}), ready + [job]) else (w', ready)
  }

  function MarkTerminal(v: StageView, job: Name): StageView {
    v.(completed := v.completed + {job})
  }

  function MarkSucceeded(plan: StagePlan, v: StageView, job: Name): (StageView, seq<Name>) {
    if job in v.completed then (v, []) else Release(MarkTerminal(v, job), Slice(plan.dependents, job))
  }

  predicate IsStageComplete(plan: StagePlan, v: StageView) {
    |v.completed| == |plan.jobByName|
  }

  /** The mutable record. Ready jobs are returned as the plan's own entries. */
  class StageState {
    const plan: StagePlan
    var remainingNeeds: map<Name, int>
    var queued: set<Name>
    var completed: set<Name>

    constructor (plan: StagePlan)
      ensures this.plan == plan && View() == Initial(plan)
    {
      this.plan := plan;
      remainingNeeds, queued, completed := plan.inDegree, {}, {};
    }

    ghost function View(): StageView
      reads this
    {
      StageView(remainingNeeds, queued, completed)
    }

    method GetReadyJobs() returns (ready: seq<JobExecutionPlan>, ghost names: seq<Name>)
      modifies this
      ensures (View(), names) == ScanReady(old(View()), plan.jobs)
      ensures |ready| == |names| && forall i :: 0 <= i < |ready| ==> ready[i].name == names[i] && ready[i] in plan.jobs
    {
      ready, names := [], [];
      for i := 0 to |plan.jobs|
        invariant (View(), names) == ScanReady(old(View()), plan.jobs[..i])
        invariant |ready| == |names| && forall k :: 0 <= k < |ready| ==>
          ready[k].name == names[k] && ready[k] in plan.jobs
      {
        var job := plan.jobs[i];
        assert plan.jobs[..i + 1][..i] == plan.jobs[..i];
        var remaining := if job.name in remainingNeeds then remainingNeeds[job.name] else 0;
        if remaining == 0 && job.name !in queued && job.name !in completed {
          queued := queued + {job.name};
          ready, names := ready + [job], names + [job.name];
        }
      }
      assert plan.jobs[..|plan.jobs|] == plan.jobs;
    }

    method MarkJobTerminal(job: Name)
      modifies this`completed
      ensures View() == MarkTerminal(old(View()), job)
    {
      completed := completed + {job};
    }

    method MarkJobSucceeded(job: Name) returns (newlyReady: seq<JobExecutionPlan>, ghost names: seq<Name>)
      modifies this
      ensures (View(), names) == MarkSucceeded(plan, old(View()), job)
      ensures |newlyReady| == |names| && forall i :: 0 <= i < |names| ==> newlyReady[i] == LookupPlan(plan, names[i])
      ensures forall i :: 0 <= i < |names| && names[i] in plan.jobByName ==> newlyReady[i] == plan.jobByName[names[i]]
    {
      newlyReady, names := [], [];
      if job in completed {
        return;
      }
      MarkJobTerminal(job);
      ghost var start := View();
      var deps := Slice(plan.dependents, job);
      for i := 0 to |deps|
        invariant (View(), names) == Release(start, deps[..i])
        invariant |newlyReady| == |names| && forall k :: 0 <= k < |names| ==>
          newlyReady[k] == LookupPlan(plan, names[k])
      {
        var dependent := deps[i];
        assert deps[..i + 1][..i] == deps[..i];
        if dependent in remainingNeeds && remainingNeeds[dependent] > 0 {
          remainingNeeds := remainingNeeds[dependent := remainingNeeds[dependent] - 1];
        }
        var remaining := if dependent in remainingNeeds then remainingNeeds[dependent] else 0;
        if remaining == 0 && dependent !in queued && dependent !in completed {
          queued := queued + {dependent};
          newlyReady, names := newlyReady + [LookupPlan(plan, dependent)], names + [dependent];
        }
      }
      assert deps[..|deps|] == deps;
    }

    /** Under a valid plan, whatever has been released: true exactly when every planned job is completed. */
    method StageComplete() returns (complete: bool)
      ensures complete == IsStageComplete(plan, View())
      ensures forall released :: ValidPlan(plan) && Refines(plan, View(), released) ==>
        (complete <==> completed == plan.jobByName.Keys)
    {
      forall released | ValidPlan(plan) && Refines(plan, View(), released)
        ensures IsStageComplete(plan, View()) <==> completed == plan.jobByName.Keys
      {
        CompleteMeansAll(plan, View(), released);
      }
      complete := |completed| == |plan.jobByName|;
    }
  }

  /** Reading JobByName: a missing key is the zero record. */
  function LookupPlan(plan: StagePlan, job: Name): JobExecutionPlan {
    if job in plan.jobByName then plan.jobByName[job] else JobExecutionPlan("", "", [])
  }

  /** The names that the entries of the given jobs carry. */
  function EntryNames(plan: StagePlan, names: seq<Name>): (entries: seq<Name>)
    ensures |entries| == |names| && forall i :: 0 <= i < |names| ==> entries[i] == LookupPlan(plan, names[i]).name
  {
    seq(|names|, i requires 0 <= i < |names| => LookupPlan(plan, names[i]).name)
  }

  /** Planned jobs have entries of their own name. */
  lemma EntriesAreNamed(plan: StagePlan, names: seq<Name>)
    requires ValidPlan(plan) && forall n :: n in names ==> n in plan.jobByName
    ensures EntryNames(plan, names) == names
  {
    forall i | 0 <= i < |names| ensures LookupPlan(plan, names[i]).name == names[i] {
      assert names[i] in names;
    }
  }

  /* What the counters mean. */

  ghost predicate HasName(jobs: seq<JobExecutionPlan>, n: Name) {
    exists i :: 0 <= i < |jobs| && jobs[i].name == n
  }

  ghost predicate DistinctPlans(jobs: seq<JobExecutionPlan>) {
    forall i, j :: 0 <= i < j < |jobs| ==> jobs[i].name != jobs[j].name
  }

  /** How often `d` is listed among the dependents of `n`. */
  ghost function Listed(plan: StagePlan, n: Name, d: Name): nat {
    multiset(Slice(plan.dependents, n))[d]
  }

  /** A job that waits for one that is not planned. */
  ghost predicate Unreachable(plan: StagePlan, n: Name) {
    n in plan.needs && exists m :: m in plan.needs[n] && m !in plan.jobByName
  }

  /** The graph facts that the planner establishes for a stage with distinct names in which some job can be
      scheduled. */
  ghost predicate ValidPlan(plan: StagePlan) {
    && plan.jobs != [] && DistinctPlans(plan.jobs)
    && plan.jobByName.Keys <= plan.needs.Keys == plan.inDegree.Keys
    && (forall n {:trigger HasName(plan.jobs, n)} :: HasName(plan.jobs, n) <==> n in plan.jobByName)
    && (forall n :: n in plan.jobByName ==> plan.jobByName[n].name == n)
    && (forall n {:trigger Unreachable(plan, n)} :: n in plan.needs && n !in plan.jobByName ==> Unreachable(plan, n))
    && (forall n :: n in plan.needs ==> plan.inDegree[n] == |plan.needs[n]|)
    && (forall n, d {:trigger Listed(plan, n, d)} ::
          Listed(plan, n, d) == if d in plan.needs then multiset(plan.needs[d])[n] else 0)
    && (forall i {:trigger NeedsEarlier(plan, i)} :: 0 <= i < |plan.jobs| ==> NeedsEarlier(plan, i))
  }

  /** The needs of the i-th planned job are names of earlier ones. */
  ghost predicate NeedsEarlier(plan: StagePlan, i: int)
    requires 0 <= i < |plan.jobs|
  {
    plan.jobs[i].name in plan.needs &&
    forall n :: n in plan.needs[plan.jobs[i].name] ==> HasName(plan.jobs[..i], n)
  }

  /** The jobs all of whose needs are in `done`. */
  ghost function Enabled(plan: StagePlan, done: set<Name>): set<Name> {
    set n | n in plan.needs && forall m :: m in plan.needs[n] ==> m in done
  }

  /** The simple definition of a started stage: counters and flags are determined by which jobs were released. */
  ghost predicate Refines(plan: StagePlan, v: StageView, released: set<Name>) {
    && v.remaining.Keys == plan.needs.Keys
    && (forall n :: n in plan.needs ==> v.remaining[n] == Pending(plan.needs[n], released))
    && v.queued == Enabled(plan, released)
    && released <= v.completed <= v.queued <= plan.jobByName.Keys
  }

  /** Only planned jobs are ever enabled. */
  lemma EnabledIsPlanned(plan: StagePlan, done: set<Name>)
    requires ValidPlan(plan) && done <= plan.jobByName.Keys
    ensures Enabled(plan, done) <= plan.jobByName.Keys
  {
    forall n | n in Enabled(plan, done) ensures n in plan.jobByName {
      assert n !in plan.jobByName ==> Unreachable(plan, n);
    }
  }

  lemma EnabledIsPendingZero(plan: StagePlan, done: set<Name>)
    ensures forall n :: n in Enabled(plan, done) <==> n in plan.needs && Pending(plan.needs[n], done) == 0
  {
    forall n | n in plan.needs ensures n in Enabled(plan, done) <==> Pending(plan.needs[n], done) == 0 {
      PendingZero(plan.needs[n], done);
    }
  }

  /** A scan marks and returns exactly the ready jobs of the plan, each once. */
  lemma {:induction false} ScanReadyMeaning(v: StageView, jobs: seq<JobExecutionPlan>)
    requires DistinctPlans(jobs)
    ensures var (w, ready) := ScanReady(v, jobs);
      && w == v.(queued := v.queued + set n | n in ready)
      && Distinct(ready)
      && forall n {:trigger n in ready} :: n in ready <==> IsReady(v, n) && HasName(jobs, n)
  {
    if jobs != [] {
      var last := |jobs| - 1;
      ScanReadyMeaning(v, jobs[..last]);
      var (w, ready) := ScanReady(v, jobs[..last]);
      var job := jobs[last].name;
      var (w', ready') := ScanReady(v, jobs);
      assert !HasName(jobs[..last], job);
      forall n ensures HasName(jobs, n) <==> HasName(jobs[..last], n) || n == job {
        if HasName(jobs[..last], n) {
          var i :| 0 <= i < last && jobs[..last][i].name == n;
          assert jobs[i].name == n;
        }
        if i :| 0 <= i < last && jobs[i].name == n {
          assert jobs[..last][i].name == n;
        }
      }
      assert w' == v.(queued := v.queued + set n | n in ready');
    }
  }

  function NamesOf(jobs: seq<JobExecutionPlan>): (names: seq<Name>)
    ensures |names| == |jobs| && forall i :: 0 <= i < |jobs| ==> names[i] == jobs[i].name
  {
    seq(|jobs|, i requires 0 <= i < |jobs| => jobs[i].name)
  }

  /** In the order of the plan. */
  lemma {:induction false} ScanReadyOrder(v: StageView, jobs: seq<JobExecutionPlan>) returns (at: seq<nat>)
    requires DistinctPlans(jobs)
    ensures Picks(NamesOf(jobs), at, ScanReady(v, jobs).1)
    ensures forall i :: i in at <==> 0 <= i < |jobs| && IsReady(v, jobs[i].name)
  {
    if jobs == [] {
      at := [];
    } else {
      var rest, last := jobs[..|jobs| - 1], jobs[|jobs| - 1];
      var before := ScanReadyOrder(v, rest);
      ScanReadyMeaning(v, rest);
      var (w, ready) := ScanReady(v, rest);
      assert !HasName(rest, last.name);
      at := PicksMore(NamesOf(rest), before, ready, last.name, IsReady(v, last.name));
      assert NamesOf(jobs) == NamesOf(rest) + [last.name];
    }
  }

  /** Taking the ready jobs of a fresh stage starts it with exactly the need-free jobs. */
  lemma StartStage(plan: StagePlan)
    requires ValidPlan(plan)
    ensures var (v, ready) := ScanReady(Initial(plan), plan.jobs);
      && Refines(plan, v, {}) && v.completed == {}
      && Distinct(ready) && (set n | n in ready) == Enabled(plan, {}) && ready != []
  {
    var (v, ready) := ScanReady(Initial(plan), plan.jobs);
    ScanReadyMeaning(Initial(plan), plan.jobs);
    forall n | n in plan.needs ensures plan.inDegree[n] == Pending(plan.needs[n], {}) {
      PendingAll(plan.needs[n]);
    }
    EnabledIsPendingZero(plan, {});
    EnabledIsPlanned(plan, {});
    forall n ensures n in ready <==> n in Enabled(plan, {}) {
      assert HasName(plan.jobs, n) <==> n in plan.jobByName;
    }
    assert NeedsEarlier(plan, 0);
    assert plan.jobs[0].name in Enabled(plan, {});
  }

  /** A started stage has no ready job left to take: a second scan changes nothing. */
  lemma RescanIsIdle(plan: StagePlan, v: StageView, released: set<Name>)
    requires ValidPlan(plan) && Refines(plan, v, released)
    ensures ScanReady(v, plan.jobs) == (v, [])
  {
    var (w, ready) := ScanReady(v, plan.jobs);
    assert ready != [] ==> ready[0] in ready;
    ScanReadyMeaning(v, plan.jobs);
    EnabledIsPendingZero(plan, released);
    forall n ensures n !in ready {
      assert HasName(plan.jobs, n) <==> n in plan.jobByName;
    }
    assert w == v;
  }

  /** The counters cover the entries to be counted down, and the queued jobs are those whose counter is zero. */
  ghost predicate Covers(v: StageView, deps: seq<Name>) {
    && v.queued <= v.remaining.Keys
    && (forall n :: n in v.remaining ==>
          v.remaining[n] >= multiset(deps)[n] && (n in v.queued <==> v.remaining[n] == 0))
    && (forall d :: d in deps ==> d in v.remaining)
  }

  /** The count-down loop, in terms of the counters it starts from. */
  lemma {:induction false} ReleaseMeaning(v: StageView, deps: seq<Name>)
    requires Covers(v, deps) && v.completed <= v.queued
    ensures var (w, ready) := Release(v, deps);
      && w.completed == v.completed && w.remaining.Keys == v.remaining.Keys
      && (forall n :: n in v.remaining ==> w.remaining[n] == v.remaining[n] - multiset(deps)[n])
      && Covers(w, [])
      && Distinct(ready) && w.queued == v.queued + (set n | n in ready) && forall n :: n in ready ==> n !in v.queued
  {
    if deps != [] {
      var last := |deps| - 1;
      assert deps == deps[..last] + [deps[last]];
      ReleaseMeaning(v, deps[..last]);
    }
  }

  /** The count-down loop, for any state whose counters are not negative: every counter falls by the number of its
      entries but not below zero. */
  lemma {:induction false} ReleaseCounts(v: StageView, deps: seq<Name>)
    requires forall n :: n in v.remaining ==> v.remaining[n] >= 0
    ensures var w := Release(v, deps).0;
      && w.remaining.Keys == v.remaining.Keys && w.completed == v.completed
      && (forall n :: n in v.remaining ==> w.remaining[n] == FloorMinus(v.remaining[n], multiset(deps)[n]))
  {
    if deps != [] {
      var rest, job := deps[..|deps| - 1], deps[|deps| - 1];
      assert deps == rest + [job];
      ReleaseCounts(v, rest);
    }
  }

  function FloorMinus(a: int, b: int): int {
    if a > b then a - b else 0
  }

  /** The entries that end at zero and were neither queued nor completed are released, once, in the order in which
      they are listed. */
  lemma {:induction false} ReleaseExact(v: StageView, deps: seq<Name>) returns (at: seq<nat>)
    requires forall n :: n in v.remaining ==> v.remaining[n] >= 0
    ensures var (w, ready) := Release(v, deps);
      && (forall n :: n in ready <==> n in deps && RemainingOf(w, n) == 0 && n !in v.queued && n !in v.completed)
      && w.queued == v.queued + (set n | n in ready) && Distinct(ready) && Picks(deps, at, ready)
  {
    if deps == [] {
      at := [];
    } else {
      var rest, job := deps[..|deps| - 1], deps[|deps| - 1];
      assert deps == rest + [job];
      ReleaseCounts(v, rest);
      var before := ReleaseExact(v, rest);
      var (w, ready) := Release(v, rest);
      hide Picks, FloorMinus;
      at := PicksMore(rest, before, ready, job, IsReady(CountedDown(w, job), job));
      OneMoreReleased(v, deps, rest, job);
    }
  }

  function CountedDown(w: StageView, job: Name): StageView {
    if RemainingOf(w, job) > 0 then w.(remaining := w.remaining[job := w.remaining[job] - 1]) else w
  }

  lemma OneMoreReleased(v: StageView, deps: seq<Name>, rest: seq<Name>, job: Name)
    requires deps == rest + [job] && forall n :: n in Release(v, rest).0.remaining ==>
      Release(v, rest).0.remaining[n] >= 0
    requires var (w, ready) := Release(v, rest);
      && (forall n :: n in ready <==> n in rest && RemainingOf(w, n) == 0 && n !in v.queued && n !in v.completed)
      && w.queued == v.queued + (set n | n in ready) && Distinct(ready) && w.completed == v.completed
    ensures var (w, ready) := Release(v, rest);
      Release(v, deps).1 == ready + if IsReady(CountedDown(w, job), job) then [job] else []
    ensures var (w, ready) := Release(v, deps);
      && (forall n :: n in ready <==> n in deps && RemainingOf(w, n) == 0 && n !in v.queued && n !in v.completed)
      && w.queued == v.queued + (set n | n in ready) && Distinct(ready)
  {
    assert deps[..|deps| - 1] == rest && deps[|deps| - 1] == job;
    var (w, ready) := Release(v, rest);
    assert Release(v, deps) ==
      if IsReady(CountedDown(w, job), job)
      then (CountedDown(w, job).(queued := w.queued + {job}), ready + [job]) else (CountedDown(w, job), ready);
    hide Release;
    assert forall n :: n in ready + [job] <==> n in ready || n == job;
  }

  /** The counters of the dependents of a job, before and after it is released. */
  lemma CountersOfDependents(plan: StagePlan, v: StageView, released: set<Name>, job: Name)
    requires ValidPlan(plan) && Refines(plan, v, released) && job !in released
    ensures Covers(v, Slice(plan.dependents, job))
    ensures forall n :: n in plan.needs ==>
      v.remaining[n] - multiset(Slice(plan.dependents, job))[n] == Pending(plan.needs[n], released + {job})
  {
    var deps := Slice(plan.dependents, job);
    EnabledIsPendingZero(plan, released);
    forall n | n in plan.needs ensures v.remaining[n] - multiset(deps)[n] == Pending(plan.needs[n], released + {job}) {
      PendingStep(plan.needs[n], released, job);
      assert Listed(plan, job, n) == multiset(deps)[n];
    }
    forall d | d in deps ensures d in plan.needs {
      assert Listed(plan, job, d) == multiset(deps)[d] && d in multiset(deps);
    }
  }

  /** Completing a job releases exactly the jobs that just became enabled, each once. */
  lemma SuccessRefines(plan: StagePlan, v: StageView, released: set<Name>, job: Name)
    requires ValidPlan(plan) && Refines(plan, v, released) && job in v.queued && job !in v.completed
    ensures var (w, ready) := MarkSucceeded(plan, v, job);
      && Refines(plan, w, released + {job}) && w.completed == v.completed + {job}
      && Distinct(ready) && (set n | n in ready) == w.queued - v.queued && v.queued <= w.queued
  {
    hide ValidPlan, Enabled;
    CountersOfDependents(plan, v, released, job);
    SuccessCounts(plan, v, released + {job}, job);
    hide MarkSucceeded;
    QueuedIsEnabled(plan, MarkSucceeded(plan, v, job).0, released + {job});
    EnabledIsPlanned(plan, released + {job});
  }

  lemma SuccessCounts(plan: StagePlan, v: StageView, released: set<Name>, job: Name)
    requires Covers(v, Slice(plan.dependents, job)) && v.completed <= v.queued
    requires job in v.queued && job !in v.completed && v.remaining.Keys == plan.needs.Keys
    requires forall n :: n in plan.needs ==>
      v.remaining[n] - multiset(Slice(plan.dependents, job))[n] == Pending(plan.needs[n], released)
    ensures var (w, ready) := MarkSucceeded(plan, v, job);
      && w.completed == v.completed + {job} && w.remaining.Keys == plan.needs.Keys && Covers(w, [])
      && (forall n :: n in plan.needs ==> w.remaining[n] == Pending(plan.needs[n], released))
      && Distinct(ready) && (set n | n in ready) == w.queued - v.queued && v.queued <= w.queued
  {
    hide Release;
    ReleaseMeaning(MarkTerminal(v, job), Slice(plan.dependents, job));
  }

  lemma QueuedIsEnabled(plan: StagePlan, v: StageView, done: set<Name>)
    requires v.remaining.Keys == plan.needs.Keys && Covers(v, [])
    requires forall n :: n in plan.needs ==> v.remaining[n] == Pending(plan.needs[n], done)
    ensures v.queued == Enabled(plan, done)
  {
    EnabledIsPendingZero(plan, done);
  }

  lemma TerminalRefines(plan: StagePlan, v: StageView, released: set<Name>, job: Name)
    requires Refines(plan, v, released) && job in v.queued
    ensures Refines(plan, MarkTerminal(v, job), released)
  {
  }

  lemma CompleteMeansAll(plan: StagePlan, v: StageView, released: set<Name>)
    requires ValidPlan(plan) && Refines(plan, v, released)
    ensures IsStageComplete(plan, v) <==> v.completed == plan.jobByName.Keys
  {
    assert |plan.jobByName| == |plan.jobByName.Keys|;
    if IsStageComplete(plan, v) {
      SubsetOfSameSize(v.completed, plan.jobByName.Keys);
    }
  }

  /** No planned job needs one that was completed without being released. */
  ghost predicate Unblocked(plan: StagePlan, v: StageView, released: set<Name>) {
    forall n, m :: n in plan.needs && n in plan.jobByName && m in plan.needs[n] && m in v.completed ==> m in released
  }

  /** Stage progress: an incomplete stage in which nothing is blocked has a queued, uncompleted job. */
  lemma StageProgress(plan: StagePlan, v: StageView, released: set<Name>)
    requires ValidPlan(plan) && Refines(plan, v, released) && Unblocked(plan, v, released) && !IsStageComplete(plan, v)
    ensures exists n :: n in v.queued && n !in v.completed
  {
    CompleteMeansAll(plan, v, released);
    var n :| n in plan.jobByName && n !in v.completed;
    assert HasName(plan.jobs, n);
    var i :| 0 <= i < |plan.jobs| && plan.jobs[i].name == n;
    FirstUncompleted(plan, v, released, i);
  }

  lemma {:induction false} FirstUncompleted(plan: StagePlan, v: StageView, released: set<Name>, i: nat)
    requires ValidPlan(plan) && Refines(plan, v, released) && Unblocked(plan, v, released)
    requires i < |plan.jobs| && plan.jobs[i].name !in v.completed
    ensures exists n :: n in v.queued && n !in v.completed
  {
    if m :| 0 <= m < i && plan.jobs[m].name !in v.completed {
      FirstUncompleted(plan, v, released, m);
    } else {
      assert NeedsEarlier(plan, i) && HasName(plan.jobs, plan.jobs[i].name);
      assert plan.jobs[i].name in Enabled(plan, released);
    }
  }

  /** Each fresh completion leaves strictly fewer jobs to complete, and a repeated one changes nothing. */
  lemma FreshCompletionShrinks(plan: StagePlan, v: StageView, released: set<Name>, job: Name)
    requires ValidPlan(plan) && Refines(plan, v, released) && job in v.queued
    ensures var (w, ready) := MarkSucceeded(plan, v, job);
      if job in v.completed then w == v && ready == []
      else |plan.jobByName.Keys - w.completed| < |plan.jobByName.Keys - v.completed|
  {
    if job !in v.completed {
      SuccessRefines(plan, v, released, job);
      var (w, ready) := MarkSucceeded(plan, v, job);
      assert plan.jobByName.Keys - w.completed == (plan.jobByName.Keys - v.completed) - {job};
    }
  }

  /** The planner's graph of a stage with distinct names, some of them scheduled, is one the stage state can run on. */
  lemma PlannedStageIsValid(stageJobs: seq<Job>, order: seq<Job>, plan: StagePlan)
    requires DistinctNames(stageJobs) && order != [] && IsStagePlan(stageJobs, order, plan)
    ensures ValidPlan(plan)
  {
    assert NameSet(order) <= NameSet(stageJobs);
    forall n ensures HasName(plan.jobs, n) <==> n in plan.jobByName {
      PlanNames(order, n);
    }
    forall n | n in plan.jobByName ensures plan.jobByName[n].name == n {
      var job :| job in order && job.name == n;
    }
    forall n, d ensures Listed(plan, n, d) == if d in plan.needs then multiset(plan.needs[d])[n] else 0 {
      DependentsListed(stageJobs, plan, n, d);
    }
    forall i | 0 <= i < |plan.jobs| ensures NeedsEarlier(plan, i) {
      assert order[i] in order;
      OrderNeedsEarlier(order, i);
    }
    forall n | n in plan.needs && n !in plan.jobByName ensures Unreachable(plan, n) {
      var job :| job in stageJobs && job.name == n;
      assert Closed(stageJobs, NameSet(order));
    }
  }

  lemma DependentsListed(stageJobs: seq<Job>, plan: StagePlan, n: Name, d: Name)
    requires DistinctNames(stageJobs) && plan.needs.Keys == NameSet(stageJobs)
    requires forall job :: job in stageJobs ==> plan.needs[job.name] == job.needs
    requires Slice(plan.dependents, n) == DependentsOf(stageJobs, n)
    ensures Listed(plan, n, d) == if d in plan.needs then multiset(plan.needs[d])[n] else 0
  {
    if d in plan.needs {
      var job :| job in stageJobs && job.name == d;
      DependentsCount(stageJobs, n, job);
    } else {
      DependentsOutside(stageJobs, n);
    }
  }

  lemma PlanNames(order: seq<Job>, n: Name)
    ensures HasName(ExecutionPlans(order), n) <==> n in NameSet(order)
  {
    if n in NameSet(order) {
      var job :| job in order && job.name == n;
      var i :| 0 <= i < |order| && order[i] == job;
      assert ExecutionPlans(order)[i].name == n;
    }
  }

  lemma OrderNeedsEarlier(order: seq<Job>, i: nat)
    requires NeedsFirst(order) && i < |order|
    ensures forall n :: n in order[i].needs ==> HasName(ExecutionPlans(order)[..i], n)
  {
    assert ExecutionPlans(order)[..i] == ExecutionPlans(order[..i]);
    forall n | n in order[i].needs ensures HasName(ExecutionPlans(order[..i]), n) {
      PlanNames(order[..i], n);
    }
  }
}
