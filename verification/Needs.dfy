/** What the `needs` lists mean, independently of the algorithms that walk them. */
module Needs {
  import opened Models

  /** How many entries of `needs`, counted with multiplicity, are not done yet. */
  function Pending(needs: seq<Name>, done: set<Name>): nat {
    if needs == [] then 0
    else (if needs[0] in done then 0 else 1) + Pending(needs[1..], done)
  }

  lemma {:induction false} PendingZero(needs: seq<Name>, done: set<Name>)
    ensures Pending(needs, done) == 0 <==> forall n :: n in needs ==> n in done
  {
    if needs != [] {
      assert needs == [needs[0]] + needs[1..];
      PendingZero(needs[1..], done);
    }
  }

  lemma {:induction false} PendingAll(needs: seq<Name>)
    ensures Pending(needs, {}) == |needs|
  {
    if needs != [] { PendingAll(needs[1..]); }
  }

  /** Finishing one more job discharges all of its occurrences at once. */
  lemma {:induction false} PendingStep(needs: seq<Name>, done: set<Name>, n: Name)
    requires n !in done
    ensures Pending(needs, done) == Pending(needs, done + {n}) + multiset(needs)[n]
  {
    if needs != [] {
      PendingStep(needs[1..], done, n);
      assert needs == [needs[0]] + needs[1..];
    }
  }

  /** One copy of `dependent` for each occurrence of `need`. */
  function Occurrences(needs: seq<Name>, need: Name, dependent: Name): seq<Name> {
    if needs == [] then [] else
    var last := |needs| - 1;
    Occurrences(needs[..last], need, dependent) + if needs[last] == need then [dependent] else []
  }

  /** The jobs that list `need`, once per listing, in declaration order. */
  function DependentsOf(jobs: seq<Job>, need: Name): seq<Name> {
    if jobs == [] then [] else
    var last := |jobs| - 1;
    DependentsOf(jobs[..last], need) + Occurrences(jobs[last].needs, need, jobs[last].name)
  }

  lemma {:induction false} OccurrencesCount(needs: seq<Name>, need: Name, dependent: Name)
    ensures forall d ::
      multiset(Occurrences(needs, need, dependent))[d] == if d == dependent then multiset(needs)[need] else 0
  {
    if needs != [] {
      var last := |needs| - 1;
      OccurrencesCount(needs[..last], need, dependent);
      assert needs == needs[..last] + [needs[last]];
    }
  }

  /** The dependents of `need` stand in the order of declaration of the jobs that list it. */
  lemma {:induction false} DependentsInOrder(jobs: seq<Job>, need: Name) returns (at: seq<nat>)
    ensures |at| == |DependentsOf(jobs, need)|
    ensures forall i :: 0 <= i < |at| ==>
      at[i] < |jobs| && need in jobs[at[i]].needs && jobs[at[i]].name == DependentsOf(jobs, need)[i]
    ensures forall i, j :: 0 <= i < j < |at| ==> at[i] <= at[j]
    ensures forall i :: multiset(at)[i] == if 0 <= i < |jobs| then multiset(jobs[i].needs)[need] else 0
  {
    if jobs == [] {
      at := [];
    } else {
      var last := |jobs| - 1;
      var job := jobs[last];
      assert jobs == jobs[..last] + [job];
      var before := DependentsInOrder(jobs[..last], need);
      var copies := Occurrences(job.needs, need, job.name);
      OccurrencesAlike(job.needs, need, job.name);
      at := before + Copies(last, |copies|);
      CopiesCount(last, |copies|);
      assert forall i :: 0 <= i < |copies| ==> copies[i] in copies;
      assert copies != [] ==> need in multiset(job.needs);
    }
  }

  lemma {:induction false} OccurrencesAlike(needs: seq<Name>, need: Name, dependent: Name)
    ensures |Occurrences(needs, need, dependent)| == multiset(needs)[need]
    ensures forall d :: d in Occurrences(needs, need, dependent) ==> d == dependent
  {
    if needs != [] {
      var rest, last := needs[..|needs| - 1], needs[|needs| - 1];
      OccurrencesAlike(rest, need, dependent);
      assert needs == rest + [last];
      assert multiset(needs) == multiset(rest) + multiset{last};
    }
  }

  function Copies(x: nat, n: nat): (copies: seq<nat>)
    ensures |copies| == n && forall i :: 0 <= i < n ==> copies[i] == x
  {
    if n == 0 then [] else Copies(x, n - 1) + [x]
  }

  lemma {:induction false} CopiesCount(x: nat, n: nat)
    ensures forall i :: multiset(Copies(x, n))[i] == if i == x then n else 0
  {
    if n > 0 {
      CopiesCount(x, n - 1);
    }
  }

  lemma {:induction false} DependentsOutside(jobs: seq<Job>, need: Name)
    ensures forall d :: d !in NameSet(jobs) ==> multiset(DependentsOf(jobs, need))[d] == 0
  {
    if jobs != [] {
      var last := |jobs| - 1;
      assert jobs == jobs[..last] + [jobs[last]];
      DependentsOutside(jobs[..last], need);
      OccurrencesCount(jobs[last].needs, need, jobs[last].name);
      assert jobs[last] in jobs;
      assert NameSet(jobs[..last]) <= NameSet(jobs);
    }
  }

  lemma {:induction false} DependentsAreJobs(jobs: seq<Job>, need: Name)
    ensures forall d :: d in DependentsOf(jobs, need) ==> d in NameSet(jobs)
  {
    DependentsOutside(jobs, need);
    forall d | d in DependentsOf(jobs, need) ensures d in NameSet(jobs) {
      assert d in multiset(DependentsOf(jobs, need));
    }
  }

  /** With distinct names, a job appears among the dependents of `need` once per listing of `need`. */
  lemma {:induction false} DependentsCount(jobs: seq<Job>, need: Name, job: Job)
    requires DistinctNames(jobs) && job in jobs
    ensures multiset(DependentsOf(jobs, need))[job.name] == multiset(job.needs)[need]
  {
    var last := |jobs| - 1;
    var rest := jobs[..last];
    assert jobs == rest + [jobs[last]];
    OccurrencesCount(jobs[last].needs, need, jobs[last].name);
    if job == jobs[last] {
      DependentsOutside(rest, need);
      forall other | other in rest ensures other.name != job.name {
        var i :| 0 <= i < |rest| && rest[i] == other;
        assert jobs[i] == other;
      }
    } else {
      DependentsCount(rest, need, job);
      var i :| 0 <= i < |rest| && rest[i] == job;
      assert jobs[i] == job;
    }
  }

  /** `done` is closed: a job whose needs are all in it is in it. */
  ghost predicate Closed(jobs: seq<Job>, done: set<Name>) {
    forall job :: job in jobs && (forall n :: n in job.needs ==> n in done) ==> job.name in done
  }

  /** Every job can be reached by repeatedly finishing jobs whose needs are finished. */
  ghost predicate Schedulable(jobs: seq<Job>) {
    forall done :: Closed(jobs, done) ==> NameSet(jobs) <= done
  }

  /** Every need listed by the i-th job is the name of an earlier job. */
  ghost predicate NeedsFirst(jobs: seq<Job>) {
    forall i, n :: 0 <= i < |jobs| && n in jobs[i].needs ==> n in NameSet(jobs[..i])
  }

  /** A job list in needs-first order sits inside every set that is closed for a larger job list. */
  lemma {:induction false} OrderedInsideClosed(jobs: seq<Job>, order: seq<Job>, done: set<Name>)
    requires NeedsFirst(order) && Closed(jobs, done)
    requires forall job :: job in order ==> job in jobs
    ensures NameSet(order) <= done
  {
    if order != [] {
      var last := |order| - 1;
      assert order == order[..last] + [order[last]];
      assert NeedsFirst(order[..last]) by {
        forall i, n | 0 <= i < last && n in order[..last][i].needs ensures n in NameSet(order[..last][..i]) {
          assert order[..last][..i] == order[..i];
        }
      }
      OrderedInsideClosed(jobs, order[..last], done);
      assert order[last] in order;
    }
  }

  /* Dependency graphs over all the jobs of a pipeline. */

  type Graph = map<Name, seq<Name>>

  function NeedsGraph(jobs: seq<Job>): Graph {
    if jobs == [] then map[] else
    var last := |jobs| - 1;
    NeedsGraph(jobs[..last])[jobs[last].name := jobs[last].needs]
  }

  lemma {:induction false} NeedsGraphKeys(jobs: seq<Job>)
    ensures NeedsGraph(jobs).Keys == NameSet(jobs)
  {
    if jobs != [] {
      var last := |jobs| - 1;
      assert jobs == jobs[..last] + [jobs[last]];
      NeedsGraphKeys(jobs[..last]);
    }
  }

  /** A repeated job name keeps the needs of its last declaration. */
  lemma {:induction false} NeedsGraphLastWins(jobs: seq<Job>)
    ensures LastWins(jobs, (job: Job) => job.name, (job: Job) => job.needs, NeedsGraph(jobs))
  {
    if jobs != [] {
      var rest, last := jobs[..|jobs| - 1], jobs[|jobs| - 1];
      assert jobs == rest + [last];
      NeedsGraphLastWins(rest);
      LastWinsStep(rest, (job: Job) => job.name, (job: Job) => job.needs, NeedsGraph(rest), last);
    }
  }

  lemma {:induction false} NeedsGraphAt(jobs: seq<Job>, job: Job)
    requires DistinctNames(jobs) && job in jobs
    ensures job.name in NeedsGraph(jobs) && NeedsGraph(jobs)[job.name] == job.needs
  {
    var last := |jobs| - 1;
    assert jobs == jobs[..last] + [jobs[last]];
    if job != jobs[last] {
      NeedsGraphAt(jobs[..last], job);
      SameNameOnlyIfSame(jobs, job);
    }
  }

  lemma SameNameOnlyIfSame(jobs: seq<Job>, job: Job)
    requires DistinctNames(jobs) && job in jobs
    ensures forall other :: other in jobs && other.name == job.name ==> other == job
  {
    forall other | other in jobs && other.name == job.name ensures other == job {
      SameNameSameJob(jobs, other, job);
    }
  }

  /** A simple cycle: each entry needs the next one and the last entry needs the first. */
  ghost predicate IsCycle(g: Graph, c: seq<Name>) {
    && c != []
    && Distinct(c)
    && (forall i :: 0 <= i < |c| - 1 ==> c[i + 1] in Slice(g, c[i]))
    && c[0] in Slice(g, c[|c| - 1])
  }

  /** Every need has a smaller rank than the job that lists it. */
  ghost predicate IsRank(g: Graph, rank: map<Name, nat>) {
    forall x, y :: x in g && y in g[x] ==> x in rank && y in rank && rank[y] < rank[x]
  }

  ghost predicate Acyclic(g: Graph) {
    exists rank :: IsRank(g, rank)
  }

  lemma {:induction false} RankFallsAlong(g: Graph, rank: map<Name, nat>, c: seq<Name>, i: nat)
    requires IsRank(g, rank) && IsCycle(g, c) && i < |c|
    ensures c[0] in rank && c[i] in rank && rank[c[i]] <= rank[c[0]]
  {
    if i == 0 {
      assert c[|c| - 1] in g;
    } else {
      RankFallsAlong(g, rank, c, i - 1);
      assert c[i - 1 + 1] in Slice(g, c[i - 1]);
    }
  }

  lemma CycleExcludesRank(g: Graph, c: seq<Name>)
    requires IsCycle(g, c)
    ensures !Acyclic(g)
  {
    if rank :| IsRank(g, rank) {
      RankFallsAlong(g, rank, c, |c| - 1);
      assert false;
    }
  }

  ghost predicate WaitsFor(g: Graph, x: Name, others: set<Name>) {
    x in g && exists y :: y in g[x] && y in others
  }

  /** Each job of `stuck` has a need in `stuck`. */
  ghost predicate Stuck(g: Graph, stuck: set<Name>) {
    forall x {:trigger WaitsFor(g, x, stuck)} :: x in stuck ==> WaitsFor(g, x, stuck)
  }

  /** `rank` orders the jobs outside `todo`, and only those. */
  ghost predicate RankedOutside(g: Graph, todo: set<Name>, rank: map<Name, nat>, bound: nat) {
    && rank.Keys == g.Keys - todo
    && (forall x :: x in rank ==> rank[x] < bound)
    && (forall x, y :: x in rank && y in g[x] ==> y in rank && rank[y] < rank[x])
  }

  /** Ranks can be extended until every remaining job waits for another remaining job. */
  lemma {:induction false} RankOrStuck(g: Graph, todo: set<Name>, rank: map<Name, nat>, bound: nat)
    returns (stuck: set<Name>)
    requires todo <= g.Keys && RankedOutside(g, todo, rank, bound)
    requires forall x, y :: x in g && y in g[x] ==> y in g
    ensures Stuck(g, stuck) && (stuck == {} ==> Acyclic(g))
    decreases todo
  {
    if todo == {} {
      assert IsRank(g, rank);
      return {};
    }
    if x :| x in todo && !WaitsFor(g, x, todo) {
      var rank' := rank[x := bound];
      assert rank'.Keys == g.Keys - (todo - {x});
      stuck := RankOrStuck(g, todo - {x}, rank', bound + 1);
    } else {
      stuck := todo;
    }
  }
}
