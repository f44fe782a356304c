/** The orchestrator's handling of one run, updating its runtime and its store rows in place. */
module Orchestrator {
  import opened Models
  import opened Strings
  import opened Stage
  import opened Scheduler

  class RunController {
    const config: Config
    const stageStates: map<Name, StageState>
    var live: bool                        // the entry of this run in the runtimes map
    var dispatch: Dispatch
    var runRow: Status
    var stageRows: map<Name, Status>
    var jobRows: map<JobKey, Status>
    var sent: set<JobKey>                 // job messages confirmed by the broker
    ghost var inflight: set<JobKey>
    ghost var accepted: set<JobKey>
    ghost var log: seq<Event>
    ghost var lost: set<JobKey>
    ghost var terminal: set<JobKey>
    ghost var dispatchFailed: bool

    /** Each planned stage has its own state record. */
    ghost predicate Valid() {
      && stageStates.Keys == config.plans.Keys
      && (forall s :: s in stageStates ==> stageStates[s].plan == config.plans[s])
      && (forall s, t :: s in stageStates && t in stageStates && s != t ==> stageStates[s] != stageStates[t])
    }

    ghost function StageViews(): map<Name, StageView>
      reads stageStates.Values
    {
      map s | s in stageStates :: stageStates[s].View()
    }

    ghost function View(): Run
      reads this, stageStates.Values
    {
      Run(live, dispatch, StageViews(), runRow, stageRows, jobRows,
          sent, inflight, accepted, log, lost, terminal, dispatchFailed)
    }

    /** initializePipelineRuntime for a new run. */
    constructor (config: Config, stageStates: map<Name, StageState>)
      requires stageStates.Keys == config.plans.Keys
      requires forall s :: s in stageStates ==>
        stageStates[s].plan == config.plans[s] && stageStates[s].View() == Initial(config.plans[s])
      requires forall s, t :: s in stageStates && t in stageStates && s != t ==> stageStates[s] != stageStates[t]
      ensures Valid() && this.config == config && View() == Init(config)
    {
      this.config, this.stageStates := config, stageStates;
      live, dispatch, runRow := true, NotStarted, Queued;
      stageRows := map s | s in config.plans :: Queued;
      jobRows := map s, n | s in config.plans && n in config.plans[s].jobByName :: JobKey(s, n) := Queued;
      sent, inflight, accepted, log, lost, terminal, dispatchFailed := {}, {}, {}, [], {}, {}, false;
    }

    /** enqueueJob, when the broker confirms the message. */
    method Publish(key: JobKey)
      modifies this`sent, this`inflight, this`log
      ensures View() == SendOk(old(View()), key)
    {
      sent, inflight, log := sent + {key}, inflight + {key}, log + [Enqueued(key)];
    }

    /** enqueueJob, when it returns an error and the caller gives up on `dropped`. */
    ghost method Drop(key: JobKey, dropped: set<JobKey>)
      modifies this`lost, this`log
      ensures View() == SendFail(old(View()), key, dropped)
    {
      lost, log := lost + dropped, log + [Enqueued(key)];
    }

    /** enqueueReadyJobs; the oracle `sends` says how many publishes succeed before one fails. */
    method EnqueueReadyJobs(stage: Name, jobs: seq<JobExecutionPlan>, sends: nat, ghost names: seq<Name>)
      returns (ok: bool)
      requires |names| == |jobs| && forall i :: 0 <= i < |jobs| ==> jobs[i].name == names[i]
      modifies this`sent, this`inflight, this`log, this`lost
      ensures (View(), ok) == EnqueueReady(old(View()), stage, names, sends)
    {
      hide SendOk, SendFail;
      var i := 0;
      while i < |jobs|
        invariant i <= |jobs| && i <= sends
        invariant EnqueueReady(old(View()), stage, names, sends) == EnqueueReady(View(), stage, names[i..], sends - i)
      {
        assert names[i..][0] == jobs[i].name && names[i..][1..] == names[i + 1..];
        if i == sends {
          Drop(JobKey(stage, jobs[i].name), KeysOf(stage, names[i..]));
          return false;
        }
        Publish(JobKey(stage, jobs[i].name));
        i := i + 1;
      }
      return true;
    }

    method NextStageName(current: Name) returns (next: Option<Name>)
      ensures next == NextStage(config.order, current)
    {
      var order := config.order;
      for i := 0 to |order|
        invariant NextStage(order, current) == NextStage(order[i..], current)
      {
        if order[i] == current && i + 1 < |order| {
          return Some(order[i + 1]);
        }
        assert |order[i..]| >= 2 ==> order[i..][1..] == order[i + 1..];
      }
      return None;
    }

    /** The state of one stage changed, and nothing else. */
    twostate lemma OneStageChanged(stage: Name)
      requires Valid() && stage in stageStates
      requires unchanged(this) && forall s :: s in stageStates && s != stage ==> unchanged(stageStates[s])
      ensures View() == old(View()).(stages := old(View()).stages[stage := stageStates[stage].View()])
    {
      assert StageViews() == old(StageViews())[stage := stageStates[stage].View()];
    }

    method TakeReady(stage: Name) returns (ready: seq<JobExecutionPlan>, ghost names: seq<Name>)
      requires Valid() && stage in stageStates
      modifies stageStates[stage]
      ensures var (v, expected) := ScanReady(old(View()).stages[stage], config.plans[stage].jobs);
        names == expected && View() == old(View()).(stages := old(View()).stages[stage := v])
      ensures |names| == |ready| && forall i :: 0 <= i < |ready| ==> ready[i].name == names[i]
    {
      ready, names := stageStates[stage].GetReadyJobs();
      OneStageChanged(stage);
    }

    method Succeed(stage: Name, job: Name) returns (ready: seq<JobExecutionPlan>, ghost names: seq<Name>)
      requires Valid() && stage in stageStates
      modifies stageStates[stage]
      ensures var (v, expected) := MarkSucceeded(config.plans[stage], old(View()).stages[stage], job);
        names == EntryNames(config.plans[stage], expected) &&
        View() == old(View()).(stages := old(View()).stages[stage := v])
      ensures |ready| == |names| && forall i :: 0 <= i < |names| ==> ready[i].name == names[i]
    {
      ghost var released;
      ready, released := stageStates[stage].MarkJobSucceeded(job);
      names := EntryNames(config.plans[stage], released);
      OneStageChanged(stage);
    }

    /** The row of a stage is closed. */
    method FinishStage(stage: Name, status: Status)
      modifies this`stageRows
      ensures View() == old(View()).(stageRows := old(View()).stageRows[stage := status])
    {
      stageRows := stageRows[stage := status];
    }

    /** The run row is closed and the runtime is deleted. */
    method FinishRun(status: Status)
      modifies this`runRow, this`live
      ensures View() == old(View()).(runRow := status, live := false)
    {
      runRow, live := status, false;
    }

    method MarkFailed(key: JobKey)
      requires Valid() && key.stage in stageStates
      modifies this`terminal, stageStates[key.stage]
      ensures var was := old(View());
        var v := was.stages[key.stage];
        View() == was.(stages := was.stages[key.stage := MarkTerminal(v, key.job)],
                       terminal := if key.job in v.completed then was.terminal else was.terminal + {key})
    {
      ghost var cutOff := if key.job in stageStates[key.stage].completed then terminal else terminal + {key};
      stageStates[key.stage].MarkJobTerminal(key.job);
      OneStageChanged(key.stage);
      SetTerminal(cutOff);
    }

    ghost method SetTerminal(cutOff: set<JobKey>)
      modifies this`terminal
      ensures View() == old(View()).(terminal := cutOff)
    {
      terminal := cutOff;
    }

    /** The failure branch of HandleJobFinished. */
    method FailPipeline(key: JobKey, f: Faults) returns (ok: bool)
      requires Valid() && key.stage in stageStates
      modifies this, stageStates[key.stage]
      ensures (View(), ok) == FailRun(old(View()), key, f)
    {
      MarkFailed(key);
      if !f.stageWrite {
        return false;
      }
      FinishStage(key.stage, Failed);
      if !f.runWrite {
        return false;
      }
      FinishRun(Failed);
      return true;
    }

    /** The end of HandleJobFinished, once the stage is complete. */
    method AdvanceStage(stage: Name, f: Faults) returns (ok: bool)
      requires Valid() && stage in stageStates
      modifies this, stageStates.Values
      ensures (View(), ok) == Advance(config, old(View()), stage, f)
    {
      hide ScanReady, EnqueueReady, NextStage;
      if !f.stageWrite {
        return false;
      }
      FinishStage(stage, Success);
      var next := NextStageName(stage);
      if next.None? {
        if !f.runWrite {
          return false;
        }
        FinishRun(Success);
        return true;
      }
      if next.value !in stageStates {
        return true;
      }
      ok := StartNextStage(next.value, f);
    }

    method StartNextStage(next: Name, f: Faults) returns (ok: bool)
      requires Valid() && next in stageStates
      modifies this, stageStates[next]
      ensures
        var (v, ready) := ScanReady(old(View()).stages[next], config.plans[next].jobs);
        var r1 := old(View()).(stages := old(View()).stages[next := v]);
        var (r2, sentAll) := EnqueueReady(r1, next, ready, f.nextSends);
        (View(), ok) ==
          if !sentAll then (r2, false)
          else if !IsStageComplete(config.plans[next], v) then (r2, true)
          else if !f.nextStageWrite then (r2, false)
          else (r2.(stageRows := r2.stageRows[next := Success]), true)
    {
      hide ScanReady, EnqueueReady;
      ghost var names;
      var readyJobs;
      readyJobs, names := TakeReady(next);
      ok := EnqueueReadyJobs(next, readyJobs, f.nextSends, names);
      if ok {
        var complete := stageStates[next].StageComplete();
        if complete {
          if !f.nextStageWrite {
            return false;
          }
          FinishStage(next, Success);
        }
      }
    }

    method FinishJob(key: JobKey, f: Faults) returns (ok: bool)
      requires Valid() && key.stage in stageStates
      modifies this, stageStates.Values
      ensures (View(), ok) == CompleteJob(config, old(View()), key, f)
    {
      hide MarkSucceeded, EnqueueReady, Advance;
      ghost var names;
      var newlyReady;
      newlyReady, names := Succeed(key.stage, key.job);
      var sentAll := EnqueueReadyJobs(key.stage, newlyReady, f.sends, names);
      if !sentAll {
        return false;
      }
      var complete := stageStates[key.stage].StageComplete();
      if !complete {
        return true;
      }
      ok := AdvanceStage(key.stage, f);
    }

    /** HandleJobFinished: the new state and the verdict are those of the transition function. */
    method HandleJobFinished(key: JobKey, success: bool, f: Faults) returns (ok: bool)
      requires Valid()
      modifies this, stageStates.Values
      ensures (View(), ok) == JobFinished(config, old(View()), key, success, f)
    {
      hide FailRun, CompleteJob;
      if Blank(config.pipeline) || Blank(key.stage) || Blank(key.job) {
        return false;
      }
      if !f.jobWrite {
        return false;
      }
      FinishJobRow(key, JobStatus(success));
      if !live || key.stage !in stageStates {
        return true;
      }
      Note(Reported(key, success));
      if !success && key !in config.allow {
        ok := FailPipeline(key, f);
      } else {
        ok := FinishJob(key, f);
      }
    }

    /** An UPDATE of a job row that does not exist changes nothing. */
    method FinishJobRow(key: JobKey, status: Status)
      modifies this`jobRows
      ensures var rows := old(View()).jobRows;
        View() == old(View()).(jobRows := if key in rows then rows[key := status] else rows)
    {
      if key in jobRows {
        jobRows := jobRows[key := status];
      }
    }

    ghost method Note(e: Event)
      modifies this`log
      ensures View() == old(View()).(log := old(View()).log + [e])
    {
      log := log + [e];
    }

    /** enqueueFirstReadyStageJobs, up to its first publish. */
    method StartDispatch(stageWrite: bool, runWrite: bool)
      requires Valid()
      modifies this, stageStates.Values
      ensures View() == Start(config, old(View()), stageWrite, runWrite)
    {
      hide ScanReady;
      var i := 0;
      while i < |config.order|
        invariant i <= |config.order|
        invariant FindReadyStage(config, old(View()), 0, stageWrite) == FindReadyStage(config, View(), i, stageWrite)
      {
        var stage := config.order[i];
        if stage in stageStates {
          ghost var names;
          var ready;
          ready, names := TakeReady(stage);
          if ready != [] {
            var rest := seq(|ready|, i requires 0 <= i < |ready| => ready[i].name);
            assert rest == names;
            SetDispatch(Sending(stage, rest));
            return;
          }
          if config.plans[stage].jobs == [] {
            if !stageWrite {
              GiveUpDispatch(runWrite);
              return;
            }
            FinishStage(stage, Success);
          }
        }
        i := i + 1;
      }
      SetDispatch(Finished);
    }

    method SetDispatch(d: Dispatch)
      modifies this`dispatch
      ensures View() == old(View()).(dispatch := d)
    {
      dispatch := d;
    }

    method GiveUpDispatch(runWrite: bool)
      modifies this`dispatch, this`dispatchFailed, this`live, this`runRow
      ensures View() == FailDispatch(old(View()), runWrite)
    {
      dispatch, dispatchFailed, live := Finished, true, false;
      if runWrite {
        runRow := Failed;
      }
    }

    /** One publish of start dispatch. */
    method SendNextJob(sendOk: bool, runWrite: bool)
      requires dispatch.Sending? && dispatch.rest != []
      modifies this
      ensures View() == Send(old(View()), sendOk, runWrite)
    {
      var stage, rest := dispatch.stage, dispatch.rest;
      var key := JobKey(stage, rest[0]);
      if sendOk {
        dispatch := if |rest| == 1 then Finished else Sending(stage, rest[1..]);
        Publish(key);
      } else {
        Drop(key, KeysOf(stage, rest));
        GiveUpDispatch(runWrite);
      }
    }
  }
}
