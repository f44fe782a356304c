/** What one finished callback does to rows, runtime and broker, said by the jobs, needs and faults alone. */
module Callbacks {
  import opened Models
  import opened Needs
  import opened Stage
  import opened Scheduler
  import opened SchedulerInvariant

  /* Publishing a list of jobs. */

  function Enqueues(stage: Name, names: seq<Name>): (events: seq<Event>)
    ensures |events| == |names| && forall i :: 0 <= i < |names| ==> events[i] == Enqueued(JobKey(stage, names[i]))
  {
    if names == [] then [] else [Enqueued(JobKey(stage, names[0]))] + Enqueues(stage, names[1..])
  }

  /** The run after these messages were confirmed. */
  function Sent(r: Run, keys: set<JobKey>, events: seq<Event>): Run {
    r.(sent := r.sent + keys, inflight := r.inflight + keys, log := r.log + events)
  }

  lemma SentTwice(r: Run, k1: set<JobKey>, e1: seq<Event>, k2: set<JobKey>, e2: seq<Event>)
    ensures Sent(Sent(r, k1, e1), k2, e2) == Sent(r, k1 + k2, e1 + e2)
    ensures Sent(r, {}, []) == r
  {
    assert r.log + e1 + e2 == r.log + (e1 + e2) && r.log + [] == r.log;
    assert r.sent + k1 + k2 == r.sent + (k1 + k2) && r.inflight + k1 + k2 == r.inflight + (k1 + k2);
    assert r.sent + {} == r.sent && r.inflight + {} == r.inflight;
  }

  /** With enough publishes succeeding, all jobs are sent, in order. */
  lemma {:induction false} EnqueueAllExact(r: Run, stage: Name, names: seq<Name>, sends: nat)
    requires |names| <= sends
    ensures EnqueueReady(r, stage, names, sends) == (Sent(r, KeysOf(stage, names), Enqueues(stage, names)), true)
    decreases names
  {
    if names == [] {
      assert KeysOf(stage, names) == {} && Enqueues(stage, names) == [];
      SentTwice(r, {}, [], {}, []);
    } else {
      EnqueueSplit(stage, names);
      hide KeysOf, Sent;
      var key := JobKey(stage, names[0]);
      EnqueueAllExact(SendOk(r, key), stage, names[1..], sends - 1);
      SendOkIsSent(r, key);
      SentTwice(r, {key}, [Enqueued(key)], KeysOf(stage, names[1..]), Enqueues(stage, names[1..]));
    }
  }

  lemma SendOkIsSent(r: Run, key: JobKey)
    ensures SendOk(r, key) == Sent(r, {key}, [Enqueued(key)])
  {
  }

  /** Otherwise the first `sends` jobs are sent, in order, the next one is tried, and that one and all after it are
      lost. */
  lemma {:induction false} EnqueueSomeExact(r: Run, stage: Name, names: seq<Name>, sends: nat)
    requires sends < |names|
    ensures EnqueueReady(r, stage, names, sends) ==
      (SendFail(Sent(r, KeysOf(stage, names[..sends]), Enqueues(stage, names[..sends])), JobKey(stage, names[sends]),
                KeysOf(stage, names[sends..])), false)
    decreases names
  {
    if sends == 0 {
      NoneSent(r, stage, names);
    } else {
      var some := names[..sends];
      var key := JobKey(stage, names[0]);
      Slices(names, sends);
      EnqueueSplit(stage, some);
      SendOkIsSent(r, key);
      hide KeysOf, Sent, SendFail, SendOk, Enqueues;
      EnqueueSomeExact(SendOk(r, key), stage, names[1..], sends - 1);
      SentTwice(r, {key}, [Enqueued(key)], KeysOf(stage, some[1..]), Enqueues(stage, some[1..]));
    }
  }

  lemma NoneSent(r: Run, stage: Name, names: seq<Name>)
    requires names != []
    ensures names[0..] == names
    ensures Sent(r, KeysOf(stage, names[..0]), Enqueues(stage, names[..0])) == r
  {
    assert KeysOf(stage, names[..0]) == {} && Enqueues(stage, names[..0]) == [];
    SentTwice(r, {}, [], {}, []);
  }

  lemma Slices(names: seq<Name>, n: nat)
    requires 0 < n < |names|
    ensures names[..n] != [] && names[..n][0] == names[0] && names[..n][1..] == names[1..][..n - 1]
    ensures names[1..][n - 1..] == names[n..] && names[1..][n - 1] == names[n]
  {
  }

  lemma EnqueueSplit(stage: Name, names: seq<Name>)
    requires names != []
    ensures {JobKey(stage, names[0])} + KeysOf(stage, names[1..]) == KeysOf(stage, names)
    ensures [Enqueued(JobKey(stage, names[0]))] + Enqueues(stage, names[1..]) == Enqueues(stage, names)
  {
    assert names == [names[0]] + names[1..];
  }

  /** What the callers look at. */
  lemma EnqueueVerdict(r: Run, stage: Name, names: seq<Name>, sends: nat)
    ensures var (r', ok) := EnqueueReady(r, stage, names, sends);
      && (ok <==> |names| <= sends)
      && r' == r.(sent := r'.sent, inflight := r'.inflight, log := r'.log, lost := r'.lost)
      && (ok ==> r'.lost == r.lost && r'.sent == r.sent + KeysOf(stage, names))
  {
    if |names| <= sends {
      EnqueueAllExact(r, stage, names, sends);
    } else {
      EnqueueSomeExact(r, stage, names, sends);
    }
  }

  /* Completing a job. */

  /** All other planned jobs of its stage are completed. */
  ghost predicate Completes(c: Config, r: Run, key: JobKey)
    requires key.stage in r.stages && key.stage in c.plans
  {
    forall n :: n in c.plans[key.stage].jobByName ==> n == key.job || n in r.stages[key.stage].completed
  }

  /** The planned jobs that were not queued and whose needs are all released once this job is. */
  ghost function ReleasedBy(c: Config, r: Run, key: JobKey): set<Name>
    requires key.stage in r.stages && key.stage in c.plans
  {
    if key.job in r.stages[key.stage].completed then {} else
    set n | n in c.plans[key.stage].needs && n !in r.stages[key.stage].queued &&
      forall m :: m in c.plans[key.stage].needs[n] ==>
        m == key.job || (m in r.stages[key.stage].completed && JobKey(key.stage, m) !in r.terminal)
  }

  /** The need-free jobs of a stage that was not started. */
  ghost function FreeJobs(c: Config, r: Run, t: Name): set<Name>
    requires t in c.plans
  {
    if Started(r, t) then {} else set n | n in c.plans[t].needs && c.plans[t].needs[n] == []
  }

  ghost function Keys(stage: Name, names: set<Name>): set<JobKey> {
    set n | n in names :: JobKey(stage, n)
  }

  lemma {:induction false} DistinctSize<T>(s: seq<T>)
    requires Distinct(s)
    ensures |set x | x in s| == |s|
  {
    if s != [] {
      DistinctSize(s[1..]);
      assert (set x | x in s) == {s[0]} + set x | x in s[1..];
    }
  }

  lemma KeysAndSize(stage: Name, ready: seq<Name>, names: set<Name>)
    requires Distinct(ready) && (set n | n in ready) == names
    ensures |ready| == |names| && KeysOf(stage, ready) == Keys(stage, names) && (names == {} ==> ready == [])
  {
    DistinctSize(ready);
    assert forall n :: n in ready <==> n in names;
    assert ready != [] ==> ready[0] in names;
  }

  lemma ReadyIsReleased(c: Config, r: Run, key: JobKey)
    requires InvWith(c, r, {}) && key in r.sent
    ensures key.stage in r.stages && key.stage in c.plans
    ensures var ready := MarkSucceeded(c.plans[key.stage], r.stages[key.stage], key.job).1;
      && |ready| == |ReleasedBy(c, r, key)| && KeysOf(key.stage, ready) == Keys(key.stage, ReleasedBy(c, r, key))
      && (Completes(c, r, key) ==> ready == [])
  {
    hide InvWith, ValidPlan;
    SentIsStarted(c, r, key);
    var plan, v, released := c.plans[key.stage], r.stages[key.stage], Released(r, key.stage);
    var (w, ready) := MarkSucceeded(plan, v, key.job);
    if key.job !in v.completed {
      hide MarkSucceeded;
      SuccessRefines(plan, v, released, key.job);
      NewlyEnabled(c, r, key);
      var names := w.queued - v.queued;
      assert names == ReleasedBy(c, r, key);
      hide ReleasedBy, Keys, KeysOf, Enabled, Pending;
      KeysAndSize(key.stage, ready, names);
      if Completes(c, r, key) {
        forall n ensures n !in names { AllQueued(c, r, key, w, n); }
        assert names == {};
      }
    }
  }

  lemma AllQueued(c: Config, r: Run, key: JobKey, w: StageView, n: Name)
    requires key.stage in r.stages && key.stage in c.plans
    requires Completes(c, r, key) && key.job in r.stages[key.stage].queued
    requires r.stages[key.stage].completed <= r.stages[key.stage].queued
    requires w.queued <= c.plans[key.stage].jobByName.Keys
    ensures n !in w.queued - r.stages[key.stage].queued
  {
  }

  lemma NewlyEnabled(c: Config, r: Run, key: JobKey)
    requires key.stage in r.stages && key.stage in c.plans && key.job !in r.stages[key.stage].completed
    ensures var v := r.stages[key.stage];
      Enabled(c.plans[key.stage], Released(r, key.stage) + {key.job}) - v.queued == ReleasedBy(c, r, key)
  {
  }

  lemma ScannedIsFree(c: Config, r: Run, i: nat)
    requires InvWith(c, r, {}) && i + 1 < |c.order| && Complete(c, r, c.order[i])
    ensures c.order[i + 1] in r.stages && c.order[i + 1] in c.plans
    ensures var t := c.order[i + 1];
      var (v, ready) := ScanReady(r.stages[t], c.plans[t].jobs);
      && |ready| == |FreeJobs(c, r, t)| && KeysOf(t, ready) == Keys(t, FreeJobs(c, r, t))
      && (IsStageComplete(c.plans[t], v) <==> Complete(c, r, t))
  {
    hide ValidPlan, LogOk, RowsOk, KeysOk, OrderOk;
    StartNextKeeps(c, r, i);
    var t := c.order[i + 1];
    var plan := c.plans[t];
    var (v, ready) := ScanReady(r.stages[t], plan.jobs);
    if r.stages[t] == Initial(plan) {
      hide ScanReady, StagesOk, Refines;
      StartStage(plan);
      var names := set n | n in ready;
      assert forall n :: n in ready <==> n in names;
      EnabledAtFirst(plan);
      DistinctSize(ready);
      CountedEmpty(plan, v);
    } else {
      RescanIsIdle(plan, r.stages[t], Released(r, t));
      RefinesIsStarted(plan, r.stages[t], Released(r, t));
      CompleteMeansAll(plan, r.stages[t], Released(r, t));
    }
  }

  lemma EnabledAtFirst(plan: StagePlan)
    ensures Enabled(plan, {}) == set n | n in plan.needs && plan.needs[n] == []
  {
    forall n | n in plan.needs && plan.needs[n] != [] ensures n !in Enabled(plan, {}) {
      assert plan.needs[n][0] in plan.needs[n];
    }
  }

  lemma CountedEmpty(plan: StagePlan, v: StageView)
    requires ValidPlan(plan) && v.completed == {}
    ensures !IsStageComplete(plan, v) && v.completed != plan.jobByName.Keys
  {
    assert HasName(plan.jobs, plan.jobs[0].name);
    assert plan.jobs[0].name in plan.jobByName.Keys;
  }

  /** Whether a handed-over stage can be followed: the run row is written, or the next stage is published and, if it is
      complete already, closed. */
  ghost predicate FollowsUp(c: Config, r: Run, i: nat, f: Faults)
    requires i < |c.order| && (i + 1 < |c.order| ==> c.order[i + 1] in c.plans)
  {
    if i + 1 == |c.order| then f.runWrite
    else |FreeJobs(c, r, c.order[i + 1])| <= f.nextSends && (Complete(c, r, c.order[i + 1]) ==> f.nextStageWrite)
  }

  /** The stage rows after the i-th stage was handed over with its own row written. */
  ghost function RowsAfter(c: Config, r: Run, i: nat, f: Faults): map<Name, Status>
    requires i < |c.order|
  {
    var rows := r.stageRows[c.order[i] := Success];
    if i + 1 < |c.order| && Complete(c, r, c.order[i + 1]) && f.nextStageWrite then rows[c.order[i + 1] := Success]
    else rows
  }

  /** What the next stage begins with. */
  ghost function NextKeys(c: Config, r: Run, i: nat): set<JobKey>
    requires i < |c.order| && (i + 1 < |c.order| ==> c.order[i + 1] in c.plans)
  {
    if i + 1 < |c.order| then Keys(c.order[i + 1], FreeJobs(c, r, c.order[i + 1])) else {}
  }

  lemma AdvanceLaw(c: Config, r: Run, i: nat, f: Faults)
    requires InvWith(c, r, {}) && r.live && i < |c.order| && Complete(c, r, c.order[i])
    ensures i + 1 < |c.order| ==> c.order[i + 1] in c.plans
    ensures var (r', ok) := Advance(c, r, c.order[i], f);
      && (ok <==> f.stageWrite && FollowsUp(c, r, i, f))
      && r'.jobRows == r.jobRows
      && r'.stageRows == (if f.stageWrite then RowsAfter(c, r, i, f) else r.stageRows)
      && (if f.stageWrite && f.runWrite && i + 1 == |c.order| then r'.runRow == Success && !r'.live
          else r'.runRow == r.runRow && r'.live)
      && (ok ==> r'.lost == r.lost && r'.sent == r.sent + NextKeys(c, r, i))
  {
    hide InvWith, ScanReady, EnqueueReady, IsStageComplete;
    var j := PositionOf(c, r, c.order[i]);
    NextStageAt(c.order, i);
    var r1 := r.(stageRows := r.stageRows[c.order[i] := Success]);
    if i + 1 < |c.order| {
      ScannedIsFree(c, r, i);
      var t := c.order[i + 1];
      var (v, ready) := ScanReady(r.stages[t], c.plans[t].jobs);
      EnqueueVerdict(r1.(stages := r1.stages[t := v]), t, ready, f.nextSends);
      CompleteHasNoFree(c, r, t);
    }
  }

  lemma CompleteHasNoFree(c: Config, r: Run, t: Name)
    requires InvWith(c, r, {}) && t in c.plans
    ensures Complete(c, r, t) ==> FreeJobs(c, r, t) == {}
  {
    if Complete(c, r, t) {
      hide StagesOk, KeysOk, LogOk, OrderOk, RowsOk;
      CompleteIsStarted(c, r, {}, t);
    }
  }

  lemma CompleteJobLaw(c: Config, r: Run, key: JobKey, i: nat, f: Faults)
    requires InvWith(c, r, {}) && r.live && key in r.sent && Good(c, r.log, key)
    requires i < |c.order| && c.order[i] == key.stage
    ensures key.stage in r.stages && key.stage in c.plans && (i + 1 < |c.order| ==> c.order[i + 1] in c.plans)
    ensures var (r', ok) := CompleteJob(c, r, key, f);
      && (ok <==> |ReleasedBy(c, r, key)| <= f.sends
                  && (Completes(c, r, key) ==> f.stageWrite && FollowsUp(c, r, i, f)))
      && r'.jobRows == r.jobRows
      && r'.stageRows == (if Completes(c, r, key) && f.stageWrite then RowsAfter(c, r, i, f) else r.stageRows)
      && (if Completes(c, r, key) && f.stageWrite && f.runWrite && i + 1 == |c.order|
          then r'.runRow == Success && !r'.live
          else r'.runRow == r.runRow && r'.live)
      && (ok ==> r'.lost == r.lost && r'.sent == r.sent + Keys(key.stage, ReleasedBy(c, r, key)) +
                   if Completes(c, r, key) then NextKeys(c, r, i) else {})
  {
    hide InvWith, MarkSucceeded, EnqueueReady, Advance, Good, IsStageComplete, ReleasedBy, FreeJobs, ValidPlan, Refines;
    SuccessKeeps(c, r, key);
    ReadyHasEntries(c, r, key);
    ReadyIsReleased(c, r, key);
    SuccessIsGrown(c, r, key);
    var s := key.stage;
    var (v, ready) := MarkSucceeded(c.plans[s], r.stages[s], key.job);
    var r1 := r.(stages := r.stages[s := v]);
    EnqueueVerdict(r1, s, ready, f.sends);
    EnqueueKeeps(c, r1, s, ready, f.sends);
    var (r2, sent) := EnqueueReady(r1, s, ready, f.sends);
    CompletedIsPlanned(c, r1, KeysOf(s, ready), s);
    GrownCompletes(c, r, key, v);
    OtherStagesSame(c, r, r2, key, i, f);
    if Completes(c, r, key) {
      AdvanceLaw(c, r2, i, f);
      assert r2.sent == r.sent && Keys(s, ReleasedBy(c, r, key)) == {};
    }
  }

  lemma CompletedIsPlanned(c: Config, r: Run, extra: set<JobKey>, s: Name)
    requires InvWith(c, r, extra) && s in c.plans
    ensures s in r.stages && r.stages[s].completed <= c.plans[s].jobByName.Keys
  {
    hide KeysOk, LogOk, OrderOk, RowsOk, ValidPlan;
  }

  lemma GrownCompletes(c: Config, r: Run, key: JobKey, v: StageView)
    requires key.stage in r.stages && key.stage in c.plans
    requires v.completed == r.stages[key.stage].completed + {key.job}
    requires v.completed <= c.plans[key.stage].jobByName.Keys
    ensures v.completed == c.plans[key.stage].jobByName.Keys <==> Completes(c, r, key)
  {
  }

  /** The following stage is judged as it was before the job was completed. */
  lemma OtherStagesSame(c: Config, r: Run, r': Run, key: JobKey, i: nat, f: Faults)
    requires InvWith(c, r, {}) && i < |c.order| && c.order[i] == key.stage && key.stage in r.stages
    requires key.stage in r'.stages && r'.stages == r.stages[key.stage := r'.stages[key.stage]]
    requires r'.stageRows == r.stageRows
    ensures i + 1 < |c.order| ==>
      c.order[i + 1] in c.plans && FreeJobs(c, r', c.order[i + 1]) == FreeJobs(c, r, c.order[i + 1])
    ensures (i + 1 < |c.order| ==> c.order[i + 1] in c.plans) && (FollowsUp(c, r', i, f) <==> FollowsUp(c, r, i, f))
    ensures RowsAfter(c, r', i, f) == RowsAfter(c, r, i, f)
    ensures (i + 1 < |c.order| ==> c.order[i + 1] in c.plans) && NextKeys(c, r', i) == NextKeys(c, r, i)
  {
    hide StagesOk, KeysOk, LogOk, OrderOk, RowsOk;
    if i + 1 < |c.order| {
      assert c.order[i + 1] in c.order && c.order[i + 1] != key.stage;
    }
  }

  /* Start dispatch, for any configuration. */

  ghost predicate HasStage(c: Config, r: Run, s: Name) {
    s in r.stages && s in c.plans
  }

  /** The stages from the i-th up to `end` that have a record and no planned job at all. */
  ghost function EmptyStages(c: Config, r: Run, i: nat, end: nat): set<Name>
    requires end <= |c.order|
  {
    set k | i <= k < end && HasStage(c, r, c.order[k]) && c.plans[c.order[k]].jobs == [] :: c.order[k]
  }

  /** Nothing is ready in the stage, and if it is empty its row can be written. */
  ghost predicate Passes(c: Config, r: Run, s: Name, stageWrite: bool) {
    HasStage(c, r, s) ==>
      ScanReady(r.stages[s], c.plans[s].jobs).1 == [] && (c.plans[s].jobs == [] ==> stageWrite)
  }

  /** What the scan comes to at `end`. */
  ghost predicate StopsAt(c: Config, r: Run, end: nat, stageWrite: bool, scan: Scan) {
    match scan
    case NoneReady => end == |c.order|
    case Ready(s, names) =>
      && end < |c.order| && s == c.order[end] && HasStage(c, r, s) && names != []
      && names == ScanReady(r.stages[s], c.plans[s].jobs).1
    case WriteFailed =>
      && end < |c.order| && HasStage(c, r, c.order[end]) && c.plans[c.order[end]].jobs == [] && !stageWrite
      && ScanReady(r.stages[c.order[end]], c.plans[c.order[end]].jobs).1 == []
  }

  ghost function ClosedEmpty(c: Config, r: Run, i: nat, end: nat): map<Name, Status>
    requires end <= |c.order|
  {
    map s | s in EmptyStages(c, r, i, end) :: Success
  }

  /** The scan stops at the first stage with a ready job, or at the first empty one whose row cannot be written; it
      closes the rows of the empty stages before that as success, and touches no other row. */
  lemma {:induction false} ScanStops(c: Config, r: Run, i: nat, stageWrite: bool) returns (end: nat)
    requires i <= |c.order| && Distinct(c.order)
    ensures i <= end <= |c.order|
    ensures forall k :: i <= k < end ==> Passes(c, r, c.order[k], stageWrite)
    ensures var (r', scan) := FindReadyStage(c, r, i, stageWrite);
      && r' == r.(stages := r'.stages, stageRows := r.stageRows + ClosedEmpty(c, r, i, end))
      && StopsAt(c, r, end, stageWrite, scan)
    decreases |c.order| - i
  {
    if i == |c.order| {
      end := i;
      NoneClosed(c, r, i);
    } else if !HasStage(c, r, c.order[i]) {
      end := ScanStops(c, r, i + 1, stageWrite);
      assert EmptyStages(c, r, i, end) == EmptyStages(c, r, i + 1, end);
    } else if !Passes(c, r, c.order[i], stageWrite) {
      hide ScanReady;
      end := i;
      NoneClosed(c, r, i);
    } else {
      var r2 := ScanOn(c, r, i, stageWrite);
      hide FindReadyStage, ScanReady, StopsAt, EmptyStages, ClosedEmpty, Distinct, HasStage;
      end := ScanStops(c, r2, i + 1, stageWrite);
      OneMoreScanned(c, r, r2, i, end);
      SameStop(c, r, r2, i, end, stageWrite, FindReadyStage(c, r, i, stageWrite).1);
      OneMoreClosed(c, r, r2, i, end);
    }
  }

  /** A stage with nothing ready is passed, and closed first if it is empty. */
  lemma ScanOn(c: Config, r: Run, i: nat, stageWrite: bool) returns (r2: Run)
    requires i < |c.order| && HasStage(c, r, c.order[i]) && Passes(c, r, c.order[i], stageWrite)
    ensures FindReadyStage(c, r, i, stageWrite) == FindReadyStage(c, r2, i + 1, stageWrite)
    ensures c.order[i] in r2.stages && r2.stages == r.stages[c.order[i] := r2.stages[c.order[i]]]
    ensures r2 == r.(stages := r2.stages, stageRows := r2.stageRows)
    ensures r2.stageRows == if c.plans[c.order[i]].jobs == [] then r.stageRows[c.order[i] := Success] else r.stageRows
  {
    hide ScanReady;
    var s := c.order[i];
    r2 := r.(stages := r.stages[s := ScanReady(r.stages[s], c.plans[s].jobs).0]);
    if c.plans[s].jobs == [] {
      r2 := r2.(stageRows := r.stageRows[s := Success]);
    }
  }

  lemma NoneClosed(c: Config, r: Run, i: nat)
    requires i <= |c.order|
    ensures r.stageRows + ClosedEmpty(c, r, i, i) == r.stageRows
  {
    assert EmptyStages(c, r, i, i) == {};
  }

  lemma OneMoreClosed(c: Config, r: Run, r2: Run, i: nat, end: nat)
    requires i < end <= |c.order| && HasStage(c, r, c.order[i])
    requires EmptyStages(c, r, i, end) ==
      EmptyStages(c, r2, i + 1, end) + if c.plans[c.order[i]].jobs == [] then {c.order[i]} else {}
    requires r2.stageRows == if c.plans[c.order[i]].jobs == [] then r.stageRows[c.order[i] := Success] else r.stageRows
    ensures r2.stageRows + ClosedEmpty(c, r2, i + 1, end) == r.stageRows + ClosedEmpty(c, r, i, end)
  {
    hide EmptyStages;
  }

  lemma SameStop(c: Config, r: Run, r2: Run, i: nat, end: nat, stageWrite: bool, scan: Scan)
    requires i < end <= |c.order|
    requires forall k :: i < k < |c.order| ==>
      (HasStage(c, r2, c.order[k]) <==> HasStage(c, r, c.order[k])) &&
      (HasStage(c, r, c.order[k]) ==> r2.stages[c.order[k]] == r.stages[c.order[k]])
    ensures StopsAt(c, r2, end, stageWrite, scan) ==> StopsAt(c, r, end, stageWrite, scan)
    ensures forall k :: i < k < end ==>
      (Passes(c, r2, c.order[k], stageWrite) <==> Passes(c, r, c.order[k], stageWrite))
  {
    hide ScanReady;
  }

  lemma OneMoreScanned(c: Config, r: Run, r2: Run, i: nat, end: nat)
    requires Distinct(c.order) && i < end <= |c.order| && HasStage(c, r, c.order[i])
    requires c.order[i] in r2.stages && r2.stages == r.stages[c.order[i] := r2.stages[c.order[i]]]
    ensures forall k :: i < k < |c.order| ==>
      (HasStage(c, r2, c.order[k]) <==> HasStage(c, r, c.order[k])) &&
      (HasStage(c, r, c.order[k]) ==> r2.stages[c.order[k]] == r.stages[c.order[k]])
    ensures EmptyStages(c, r, i, end) ==
      EmptyStages(c, r2, i + 1, end) + if c.plans[c.order[i]].jobs == [] then {c.order[i]} else {}
  {
  }
}
