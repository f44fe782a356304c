/** A stage is handed over only after a good report of one of its jobs, whatever was cut off. */
module Handovers {
  import opened Models
  import opened Stage
  import opened Scheduler
  import opened SchedulerInvariant
  import opened SchedulerTheorems

  ghost predicate SomeGood(c: Config, log: seq<Event>, s: Name) {
    exists n :: IsJob(c, JobKey(s, n)) && Good(c, log, JobKey(s, n))
  }

  ghost predicate EarlierGood(c: Config, log: seq<Event>, s: Name) {
    forall i, j :: 0 <= i < j < |c.order| && c.order[j] == s ==> SomeGood(c, log, c.order[i])
  }

  ghost predicate Handed(c: Config, r: Run) {
    && (forall key :: key in r.terminal ==> key !in c.allow)
    && (forall key :: key in r.sent ==> Enqueued(key) in r.log)
    && (forall i :: 0 < i < |c.order| && Started(r, c.order[i]) ==> SomeGood(c, r.log, c.order[i - 1]))
    && (r.runRow == Success && c.order != [] ==> SomeGood(c, r.log, c.order[|c.order| - 1]))
    && EnqueuesHanded(c, r.log)
  }

  /** At the moment a job is enqueued, every earlier stage has a job that is good. */
  ghost predicate EnqueuesHanded(c: Config, log: seq<Event>) {
    forall k :: 0 <= k < |log| && log[k].Enqueued? ==> EarlierGood(c, log[..k], log[k].key.stage)
  }

  lemma SomeGoodGrows(c: Config, log: seq<Event>, log': seq<Event>, s: Name)
    requires log <= log' && SomeGood(c, log, s)
    ensures SomeGood(c, log', s)
  {
    var n :| IsJob(c, JobKey(s, n)) && Good(c, log, JobKey(s, n));
    assert forall e :: e in log ==> e in log';
  }

  lemma EarlierGoodGrows(c: Config, log: seq<Event>, log': seq<Event>, s: Name)
    requires log <= log' && EarlierGood(c, log, s)
    ensures EarlierGood(c, log', s)
  {
    forall i, j | 0 <= i < j < |c.order| && c.order[j] == s ensures SomeGood(c, log', c.order[i]) {
      SomeGoodGrows(c, log, log', c.order[i]);
    }
  }

  lemma EnqueuesGrow(c: Config, log: seq<Event>, e: Event)
    requires EnqueuesHanded(c, log) && (e.Enqueued? ==> EarlierGood(c, log, e.key.stage))
    ensures EnqueuesHanded(c, log + [e])
  {
    hide EarlierGood;
    var log' := log + [e];
    forall k | 0 <= k < |log'| && log'[k].Enqueued? ensures EarlierGood(c, log'[..k], log'[k].key.stage) {
      assert log'[..k] == if k < |log| then log[..k] else log;
    }
  }

  /** One more event, with nothing started by it. */
  lemma HandedAppend(c: Config, r: Run, r': Run, e: Event)
    requires Handed(c, r) && r'.log == r.log + [e] && (e.Enqueued? ==> EarlierGood(c, r.log, e.key.stage))
    requires r'.stages == r.stages && r'.runRow == r.runRow && r'.terminal == r.terminal
    requires forall key :: key in r'.sent ==> key in r.sent || e == Enqueued(key)
    ensures Handed(c, r')
  {
    hide SomeGood, EnqueuesHanded;
    EnqueuesGrow(c, r.log, e);
    forall i | 0 < i < |c.order| && Started(r', c.order[i]) ensures SomeGood(c, r'.log, c.order[i - 1]) {
      assert Started(r, c.order[i]);
      SomeGoodGrows(c, r.log, r'.log, c.order[i - 1]);
    }
    if r'.runRow == Success && c.order != [] {
      SomeGoodGrows(c, r.log, r'.log, c.order[|c.order| - 1]);
    }
  }

  /** Nothing is logged or sent; a stage may be started if the one before it has a good job. */
  lemma HandedSameLog(c: Config, r: Run, r': Run)
    requires Handed(c, r) && r'.log == r.log && r'.sent == r.sent
    requires forall key :: key in r'.terminal ==> key in r.terminal || key !in c.allow
    requires forall i :: 0 < i < |c.order| && Started(r', c.order[i]) ==>
      Started(r, c.order[i]) || SomeGood(c, r.log, c.order[i - 1])
    requires r'.runRow == Success ==>
      r.runRow == Success || (c.order != [] && SomeGood(c, r.log, c.order[|c.order| - 1]))
    ensures Handed(c, r')
  {
    hide SomeGood, EnqueuesHanded;
  }

  lemma {:induction false} EnqueueHanded(c: Config, r: Run, stage: Name, names: seq<Name>, sends: nat)
    requires Handed(c, r) && EarlierGood(c, r.log, stage)
    ensures var r' := EnqueueReady(r, stage, names, sends).0; Handed(c, r') && r.log <= r'.log
    decreases names
  {
    hide Handed, EarlierGood;
    if names != [] {
      var key := JobKey(stage, names[0]);
      if sends == 0 {
        HandedAppend(c, r, SendFail(r, key, KeysOf(stage, names)), Enqueued(key));
      } else {
        var r1 := SendOk(r, key);
        HandedAppend(c, r, r1, Enqueued(key));
        EarlierGoodGrows(c, r.log, r1.log, stage);
        EnqueueHanded(c, r1, stage, names[1..], sends - 1);
      }
    }
  }

  /** In a started stage, all earlier ones have been handed over. */
  lemma StartedEarlierGood(c: Config, r: Run, s: Name)
    requires InvWith(c, r, {}) && Handed(c, r) && Started(r, s)
    ensures EarlierGood(c, r.log, s)
  {
    hide StagesOk, KeysOk, LogOk, OrderOk, RowsOk, ValidPlan, EnqueuesHanded, SomeGood;
    forall i, j | 0 <= i < j < |c.order| && c.order[j] == s ensures SomeGood(c, r.log, c.order[i]) {
      if i + 1 < j {
        EarlierComplete(c, r, {}, i + 1, j);
        CompleteIsStarted(c, r, {}, c.order[i + 1]);
      }
      assert Started(r, c.order[i + 1]);
    }
  }

  lemma NextEarlierGood(c: Config, log: seq<Event>, i: nat)
    requires Distinct(c.order) && i + 1 < |c.order|
    requires EarlierGood(c, log, c.order[i]) && SomeGood(c, log, c.order[i])
    ensures EarlierGood(c, log, c.order[i + 1])
  {
    hide SomeGood;
    forall h, j | 0 <= h < j < |c.order| && c.order[j] == c.order[i + 1] ensures SomeGood(c, log, c.order[h]) {
      assert j == i + 1;
    }
  }

  lemma AdvanceHanded(c: Config, r: Run, i: nat, f: Faults)
    requires Handed(c, r) && Distinct(c.order) && i < |c.order|
    requires EarlierGood(c, r.log, c.order[i]) && SomeGood(c, r.log, c.order[i])
    ensures Handed(c, Advance(c, r, c.order[i], f).0)
  {
    hide Handed, EarlierGood, SomeGood, ScanReady, EnqueueReady;
    NextStageAt(c.order, i);
    var r1 := r.(stageRows := r.stageRows[c.order[i] := Success]);
    HandedRows(c, r, r1);
    if i + 1 == |c.order| {
      HandedFinish(c, r1);
    } else {
      var t := c.order[i + 1];
      NextEarlierGood(c, r.log, i);
      if t in r1.stages && t in c.plans {
        var (v, ready) := ScanReady(r1.stages[t], c.plans[t].jobs);
        var r2 := r1.(stages := r1.stages[t := v]);
        HandedStart(c, r1, r2, i);
        EnqueueHanded(c, r2, t, ready, f.nextSends);
        var r3 := EnqueueReady(r2, t, ready, f.nextSends).0;
        HandedRows(c, r3, r3.(stageRows := r3.stageRows[t := Success]));
      }
    }
  }

  lemma HandedRows(c: Config, r: Run, r': Run)
    requires Handed(c, r) && r' == r.(stageRows := r'.stageRows)
    ensures Handed(c, r')
  {
    assert forall s :: Started(r', s) == Started(r, s);
    HandedSameLog(c, r, r');
  }

  lemma HandedFinish(c: Config, r: Run)
    requires Handed(c, r) && c.order != [] && SomeGood(c, r.log, c.order[|c.order| - 1])
    ensures Handed(c, r.(runRow := Success, live := false))
  {
    var r' := r.(runRow := Success, live := false);
    assert forall s :: Started(r', s) == Started(r, s);
    HandedSameLog(c, r, r');
  }

  lemma HandedStart(c: Config, r: Run, r': Run, i: nat)
    requires Handed(c, r) && Distinct(c.order) && i + 1 < |c.order| && SomeGood(c, r.log, c.order[i])
    requires c.order[i + 1] in r'.stages
    requires r' == r.(stages := r.stages[c.order[i + 1] := r'.stages[c.order[i + 1]]])
    ensures Handed(c, r')
  {
    hide SomeGood, EnqueuesHanded;
    assert forall s :: Started(r', s) ==> Started(r, s) || s == c.order[i + 1];
    HandedSameLog(c, r, r');
  }

  lemma CompleteJobHanded(c: Config, r: Run, key: JobKey, f: Faults)
    requires InvWith(c, r, {}) && Handed(c, r) && key in r.sent && Good(c, r.log, key)
    ensures key.stage in r.stages && key.stage in c.plans && Handed(c, CompleteJob(c, r, key, f).0)
  {
    hide InvWith, Handed, EarlierGood, MarkSucceeded, EnqueueReady, Advance, ValidPlan, Refines;
    SentIsStarted(c, r, key);
    StartedEarlierGood(c, r, key.stage);
    var (v, ready) := MarkSucceeded(c.plans[key.stage], r.stages[key.stage], key.job);
    var r1 := r.(stages := r.stages[key.stage := v]);
    HandedWithin(c, r, r1, key.stage);
    var names := EntryNames(c.plans[key.stage], ready);
    EnqueueHanded(c, r1, key.stage, names, f.sends);
    var r2 := EnqueueReady(r1, key.stage, names, f.sends).0;
    EarlierGoodGrows(c, r.log, r2.log, key.stage);
    assert key == JobKey(key.stage, key.job);
    assert SomeGood(c, r.log, key.stage);
    SomeGoodGrows(c, r.log, r2.log, key.stage);
    var i := PositionOf(c, r, key.stage);
    AdvanceHanded(c, r2, i, f);
  }

  /** A started stage changes. */
  lemma HandedWithin(c: Config, r: Run, r': Run, s: Name)
    requires Handed(c, r) && s in r.stages && Started(r, s) && s in r'.stages
    requires r'.stages == r.stages[s := r'.stages[s]] && r'.log == r.log && r'.sent == r.sent
    requires r'.runRow == r.runRow || r'.runRow == Failed
    requires forall key :: key in r'.terminal ==> key in r.terminal || key !in c.allow
    ensures Handed(c, r')
  {
    hide SomeGood, EnqueuesHanded;
    assert forall t :: Started(r', t) ==> Started(r, t);
    HandedSameLog(c, r, r');
  }

  lemma FailRunHanded(c: Config, r: Run, key: JobKey, f: Faults)
    requires InvWith(c, r, {}) && Handed(c, r) && key in r.sent && key !in c.allow
    ensures key.stage in r.stages && Handed(c, FailRun(r, key, f).0)
  {
    hide InvWith, Handed, ValidPlan, Refines;
    SentIsStarted(c, r, key);
    HandedWithin(c, r, FailRun(r, key, f).0, key.stage);
  }

  lemma CallbackHanded(c: Config, r: Run, key: JobKey, success: bool, f: Faults)
    requires InvWith(c, r, {}) && Handed(c, r) && key in r.sent
    ensures Handed(c, JobFinished(c, r, key, success, f).0)
  {
    hide InvWith, Handed, FailRun, CompleteJob;
    SentIsStarted(c, r, key);
    var rows := if key in r.jobRows then r.jobRows[key := JobStatus(success)] else r.jobRows;
    var r1 := r.(jobRows := rows, log := r.log + [Reported(key, success)]);
    if !Refused(c, key) && f.jobWrite && r.live {
      HandedAppend(c, r, r1, Reported(key, success));
      ReportedKeeps(c, r, r1, key, success);
      if !success && key !in c.allow {
        FailRunHanded(c, r1, key, f);
      } else {
        CompleteJobHanded(c, r1, key, f);
      }
    } else {
      HandedIgnores(c, r, JobFinished(c, r, key, success, f).0);
    }
  }

  /** The invariant does not look at the other fields. */
  lemma HandedIgnores(c: Config, r: Run, r': Run)
    requires Handed(c, r) && r'.stages == r.stages && r'.log == r.log && r'.sent == r.sent && r'.terminal == r.terminal
    requires r'.runRow == r.runRow || r'.runRow == Failed
    ensures Handed(c, r')
  {
    hide SomeGood, EnqueuesHanded;
    assert forall s :: Started(r', s) == Started(r, s);
    HandedSameLog(c, r, r');
  }

  lemma StartHanded(c: Config, r: Run, stageWrite: bool, runWrite: bool)
    requires Inv(c, r) && Handed(c, r) && r.dispatch.NotStarted?
    ensures Handed(c, Start(c, r, stageWrite, runWrite))
  {
    hide InvWith, Settled, Handed, ValidPlan, ScanReady, Refines;
    FirstIsFresh(c, r);
    var s := c.order[0];
    StartStage(c.plans[s]);
    var (v, ready) := ScanReady(r.stages[s], c.plans[s].jobs);
    var r' := r.(stages := r.stages[s := v], dispatch := Sending(s, ready));
    assert r' == Start(c, r, stageWrite, runWrite);
    OrderIsDistinct(c, r);
    HandedFirst(c, r, r');
  }

  lemma OrderIsDistinct(c: Config, r: Run)
    requires InvWith(c, r, {})
    ensures Distinct(c.order)
  {
  }

  lemma HandedFirst(c: Config, r: Run, r': Run)
    requires Handed(c, r) && Distinct(c.order) && c.order != [] && c.order[0] in r'.stages
    requires r' == r.(stages := r.stages[c.order[0] := r'.stages[c.order[0]]], dispatch := r'.dispatch)
    ensures Handed(c, r')
  {
    hide SomeGood, EnqueuesHanded;
    assert forall s :: s != c.order[0] ==> Started(r', s) == Started(r, s);
    HandedSameLog(c, r, r');
  }

  lemma SendHanded(c: Config, r: Run, sendOk: bool, runWrite: bool)
    requires InvWith(c, r, {}) && Handed(c, r) && r.dispatch.Sending? && r.dispatch.rest != []
    ensures Handed(c, Send(r, sendOk, runWrite))
  {
    hide StagesOk, KeysOk, LogOk, RowsOk, Handed, ValidPlan;
    var key := JobKey(r.dispatch.stage, r.dispatch.rest[0]);
    assert EarlierGood(c, r.log, c.order[0]);
    var r' := Send(r, sendOk, runWrite);
    var r1 := r.(log := r.log + [Enqueued(key)], sent := r'.sent);
    HandedAppend(c, r, r1, Enqueued(key));
    HandedIgnores(c, r1, r');
  }

  lemma StepHanded(c: Config, r: Run, step: Step)
    requires Inv(c, r) && Handed(c, r) && CanStep(r, step)
    ensures Handed(c, Apply(c, r, step))
  {
    hide InvWith, Settled, Handed, Start, Send, JobFinished;
    match step
    case StartDispatch(stageWrite, runWrite) => StartHanded(c, r, stageWrite, runWrite);
    case SendNext(sendOk, runWrite) => SendHanded(c, r, sendOk, runWrite);
    case Callback(key, success, f) =>
      CallbackHanded(c, r, key, success, f);
      HandedIgnores(c, JobFinished(c, r, key, success, f).0, Apply(c, r, step));
    case Ack(key) => HandedIgnores(c, r, Apply(c, r, step));
  }

  lemma InitHanded(c: Config)
    ensures Handed(c, Init(c))
  {
    assert forall s :: !Started(Init(c), s);
  }

  lemma {:induction false} HandedThroughout(c: Config, states: seq<Run>, steps: seq<Step>, i: nat)
    requires ValidConfig(c) && IsRun(c, states, steps) && i <= |steps|
    ensures Handed(c, states[i])
  {
    hide ValidConfig, Inv, Apply, CanStep, Handed, Init;
    if i == 0 {
      InitHanded(c);
    } else {
      HandedThroughout(c, states, steps, i - 1);
      InvariantThroughout(c, states, steps, i - 1);
      StepHanded(c, states[i - 1], steps[i - 1]);
    }
  }
}
