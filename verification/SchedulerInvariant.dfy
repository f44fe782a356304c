/** What every state of every run satisfies. */
module SchedulerInvariant {
  import opened Models
  import opened Stage
  import opened Scheduler

  ghost predicate ValidConfig(c: Config) {
    && c.order != [] && Distinct(c.order)
    && (forall s :: s in c.plans <==> s in c.order)
    && (forall s :: s in c.plans ==> ValidPlan(c.plans[s]))
  }

  /** The job is planned. */
  ghost predicate IsJob(c: Config, key: JobKey) {
    key.stage in c.plans && key.job in c.plans[key.stage].needs && key.job in c.plans[key.stage].jobByName
  }

  ghost predicate IsQueued(r: Run, key: JobKey) {
    key.stage in r.stages && key.job in r.stages[key.stage].queued
  }

  ghost predicate IsCompleted(r: Run, key: JobKey) {
    key.stage in r.stages && key.job in r.stages[key.stage].completed
  }

  /** The completed jobs of a stage that released their dependents. */
  ghost function Released(r: Run, s: Name): set<Name>
    requires s in r.stages
  {
    set n | n in r.stages[s].completed && JobKey(s, n) !in r.terminal
  }

  ghost predicate Started(r: Run, s: Name) {
    s in r.stages && r.stages[s].queued != {}
  }

  ghost predicate Complete(c: Config, r: Run, s: Name) {
    s in r.stages && s in c.plans && r.stages[s].completed == c.plans[s].jobByName.Keys
  }

  /** The job reported success, or a failure it is allowed. */
  ghost predicate Good(c: Config, log: seq<Event>, key: JobKey) {
    Reported(key, true) in log || (key in c.allow && Reported(key, false) in log)
  }

  /** A job was enqueued in order: its needs were good, and every job of every earlier stage was good or in
      `terminal`. */
  ghost predicate InOrder(c: Config, terminal: set<JobKey>, before: seq<Event>, key: JobKey) {
    && IsJob(c, key)
    && (forall n :: n in c.plans[key.stage].needs[key.job] ==> Good(c, before, JobKey(key.stage, n)))
    && (forall i, j, n :: 0 <= i < j < |c.order| && c.order[j] == key.stage && IsJob(c, JobKey(c.order[i], n)) ==>
          Good(c, before, JobKey(c.order[i], n)) || JobKey(c.order[i], n) in terminal)
  }

  /* The invariant; `extra` are the jobs that the callback being handled has marked queued and not yet published. */

  ghost predicate StagesOk(c: Config, r: Run) {
    && r.stages.Keys == c.plans.Keys
    && forall s :: s in c.plans ==>
      r.stages[s] == Initial(c.plans[s]) || Refines(c.plans[s], r.stages[s], Released(r, s))
  }

  ghost function Unsent(r: Run): set<JobKey> {
    if r.dispatch.Sending? then KeysOf(r.dispatch.stage, r.dispatch.rest) else {}
  }

  ghost predicate KeysOk(r: Run, extra: set<JobKey>) {
    && (forall key :: IsQueued(r, key) <==> key in r.sent || key in r.lost || key in Unsent(r) || key in extra)
    && r.sent !! r.lost && (r.sent + r.lost) !! (Unsent(r) + extra) && Unsent(r) !! extra
    && (r.dispatch.Sending? ==> r.dispatch.rest != [] && Distinct(r.dispatch.rest))
    && r.inflight <= r.sent && r.sent <= r.inflight + r.accepted
    && (forall key :: IsCompleted(r, key) ==> key in r.sent)
    && (forall key :: key in r.terminal ==> IsCompleted(r, key))
  }

  ghost predicate LogOk(c: Config, r: Run) {
    && (forall a, b :: 0 <= a < b < |r.log| && r.log[a].Enqueued? ==> r.log[a] != r.log[b])
    && (forall e :: e in r.log && e.Enqueued? ==> e.key in r.sent || e.key in r.lost)
    && (forall k :: 0 <= k < |r.log| && r.log[k].Enqueued? ==> InOrder(c, r.terminal, r.log[..k], r.log[k].key))
    && (forall key :: IsCompleted(r, key) ==> Good(c, r.log, key) || key in r.terminal)
  }

  ghost predicate OrderOk(c: Config, r: Run) {
    && c.order != []
    && (forall i :: 0 < i < |c.order| && Started(r, c.order[i]) ==> Complete(c, r, c.order[i - 1]))
    && (r.dispatch.NotStarted? <==> !Started(r, c.order[0]))
    && (r.dispatch.Sending? ==> r.dispatch.stage == c.order[0])
  }

  ghost predicate RowsOk(c: Config, r: Run) {
    && (r.live ==> r.runRow == Queued && !r.dispatchFailed)
    && (r.runRow == Success ==>
          r.dispatch.Finished? && forall key :: IsJob(c, key) ==> Good(c, r.log, key) || key in r.terminal)
    && (r.runRow == Failed ==> r.dispatchFailed || exists key :: key !in c.allow && Reported(key, false) in r.log)
  }

  ghost predicate InvWith(c: Config, r: Run, extra: set<JobKey>) {
    ValidConfig(c) && StagesOk(c, r) && KeysOk(r, extra) && LogOk(c, r) && OrderOk(c, r) && RowsOk(c, r)
  }

  /** A complete stage whose successor has not been started still has a report that was not accepted. */
  ghost predicate HandoverDue(c: Config, r: Run, s: Name) {
    Complete(c, r, s) && (NextStage(c.order, s).Some? ==> !Started(r, NextStage(c.order, s).value))
  }

  ghost predicate Unreported(r: Run, s: Name) {
    exists n :: JobKey(s, n) in r.sent && JobKey(s, n) !in r.accepted
  }

  /** Between callbacks: accepted reports are completed jobs, and no handover is forgotten. */
  ghost predicate Settled(c: Config, r: Run) {
    r.live ==>
      && (forall key :: key in r.accepted ==> IsCompleted(r, key))
      && (forall s {:trigger HandoverDue(c, r, s)} :: HandoverDue(c, r, s) ==> Unreported(r, s))
  }

  ghost predicate Inv(c: Config, r: Run) {
    InvWith(c, r, {}) && Settled(c, r)
  }

  lemma InitHolds(c: Config)
    requires ValidConfig(c)
    ensures Inv(c, Init(c))
  {
    hide ValidConfig, StagesOk, KeysOk, LogOk, OrderOk, RowsOk, Settled;
    InitParts(c);
    InitSettled(c);
  }

  lemma InitParts(c: Config)
    requires ValidConfig(c)
    ensures InvWith(c, Init(c), {})
  {
    hide ValidPlan;
    var r := Init(c);
    assert forall s :: s in c.plans ==> r.stages[s] == Initial(c.plans[s]);
    assert forall key :: !IsQueued(r, key) && !IsCompleted(r, key);
  }

  lemma InitSettled(c: Config)
    requires ValidConfig(c)
    ensures Settled(c, Init(c))
  {
    var r := Init(c);
    forall s ensures !HandoverDue(c, r, s) {
      if s in c.plans {
        assert HasName(c.plans[s].jobs, c.plans[s].jobs[0].name);
      }
    }
  }

  /* Publishing. */

  lemma QueuedInOrder(c: Config, r: Run, extra: set<JobKey>, key: JobKey)
    requires InvWith(c, r, extra) && IsQueued(r, key)
    ensures InOrder(c, r.terminal, r.log, key)
  {
    var s := key.stage;
    assert Refines(c.plans[s], r.stages[s], Released(r, s));
    forall n | n in c.plans[s].needs[key.job] ensures Good(c, r.log, JobKey(s, n)) {
      assert n in Released(r, s);
      assert IsCompleted(r, JobKey(s, n));
    }
    forall i, j, n | 0 <= i < j < |c.order| && c.order[j] == s && IsJob(c, JobKey(c.order[i], n))
      ensures Good(c, r.log, JobKey(c.order[i], n)) || JobKey(c.order[i], n) in r.terminal
    {
      EarlierComplete(c, r, extra, i, j);
      assert IsCompleted(r, JobKey(c.order[i], n));
    }
  }

  lemma {:induction false} EarlierComplete(c: Config, r: Run, extra: set<JobKey>, i: nat, j: nat)
    requires InvWith(c, r, extra) && i < j < |c.order| && Started(r, c.order[j])
    ensures Complete(c, r, c.order[i])
    decreases j
  {
    if i < j - 1 {
      CompleteIsStarted(c, r, extra, c.order[j - 1]);
      EarlierComplete(c, r, extra, i, j - 1);
    }
  }

  lemma CompleteIsStarted(c: Config, r: Run, extra: set<JobKey>, s: Name)
    requires InvWith(c, r, extra) && Complete(c, r, s)
    ensures Started(r, s)
  {
    assert HasName(c.plans[s].jobs, c.plans[s].jobs[0].name);
    assert c.plans[s].jobs[0].name in r.stages[s].completed;
  }

  /** Appending the event of an in-order enqueue that was not logged before. */
  lemma AppendEnqueued(c: Config, r: Run, key: JobKey, r': Run)
    requires LogOk(c, r) && InOrder(c, r.terminal, r.log, key) && key !in r.sent && key !in r.lost
    requires r'.log == r.log + [Enqueued(key)] && r'.terminal == r.terminal && r'.stages == r.stages
    requires r.sent <= r'.sent && r.lost <= r'.lost && key in r'.sent + r'.lost
    ensures LogOk(c, r')
  {
    forall k | 0 <= k < |r'.log| && r'.log[k].Enqueued? ensures InOrder(c, r'.terminal, r'.log[..k], r'.log[k].key) {
      assert r'.log[..k] == r.log[..k];
      assert r.log[..|r.log|] == r.log;
    }
    forall other | IsCompleted(r', other) ensures Good(c, r'.log, other) || other in r'.terminal {
      assert IsCompleted(r, other);
    }
  }

  lemma SendOkKeys(r: Run, extra: set<JobKey>, key: JobKey)
    requires KeysOk(r, extra) && key in extra
    ensures KeysOk(SendOk(r, key), extra - {key})
  {
    var r' := SendOk(r, key);
    assert Unsent(r') == Unsent(r);
    forall other
      ensures IsQueued(r', other) == IsQueued(r, other) && IsCompleted(r', other) == IsCompleted(r, other) { }
  }

  lemma SendFailKeys(r: Run, extra: set<JobKey>, key: JobKey)
    requires KeysOk(r, extra) && key in extra
    ensures KeysOk(SendFail(r, key, extra), {})
  {
    var r' := SendFail(r, key, extra);
    assert Unsent(r') == Unsent(r);
    forall other
      ensures IsQueued(r', other) == IsQueued(r, other) && IsCompleted(r', other) == IsCompleted(r, other) { }
  }

  lemma SameOrder(c: Config, r: Run, r': Run)
    requires OrderOk(c, r) && r'.stages == r.stages && r'.dispatch == r.dispatch
    ensures OrderOk(c, r')
  {
    forall s ensures Started(r', s) == Started(r, s) && Complete(c, r', s) == Complete(c, r, s) { }
  }

  lemma SendOkKeeps(c: Config, r: Run, extra: set<JobKey>, key: JobKey)
    requires InvWith(c, r, extra) && key in extra
    ensures InvWith(c, SendOk(r, key), extra - {key})
  {
    var r' := SendOk(r, key);
    SendOkKeys(r, extra, key);
    QueuedInOrder(c, r, extra, key);
    AppendEnqueued(c, r, key, r');
    SameStages(c, r, r');
    SameOrder(c, r, r');
    LongerLogKeepsRows(c, r, r');
  }

  lemma SendFailKeeps(c: Config, r: Run, extra: set<JobKey>, key: JobKey)
    requires InvWith(c, r, extra) && key in extra
    ensures InvWith(c, SendFail(r, key, extra), {})
  {
    var r' := SendFail(r, key, extra);
    SendFailKeys(r, extra, key);
    QueuedInOrder(c, r, extra, key);
    AppendEnqueued(c, r, key, r');
    SameStages(c, r, r');
    SameOrder(c, r, r');
    LongerLogKeepsRows(c, r, r');
  }

  lemma SameStages(c: Config, r: Run, r': Run)
    requires StagesOk(c, r) && r'.stages == r.stages && r'.terminal == r.terminal
    ensures StagesOk(c, r')
  {
    forall s | s in c.plans ensures Released(r', s) == Released(r, s) { }
  }

  lemma LongerLogKeepsRows(c: Config, r: Run, r': Run)
    requires RowsOk(c, r) && r'.runRow == r.runRow && r'.live == r.live && r'.dispatch == r.dispatch
    requires r'.dispatchFailed == r.dispatchFailed
    requires r.terminal <= r'.terminal && r.log <= r'.log
    ensures RowsOk(c, r')
  {
    assert forall e :: e in r.log ==> e in r'.log;
  }

  /** Publishing the jobs that were just marked, up to the first failure. */
  lemma {:induction false} EnqueueKeeps(c: Config, r: Run, stage: Name, names: seq<Name>, sends: nat)
    requires InvWith(c, r, KeysOf(stage, names)) && Distinct(names)
    ensures var (r', ok) := EnqueueReady(r, stage, names, sends);
      && InvWith(c, r', {}) && r'.stages == r.stages && r'.live == r.live
      && r'.accepted == r.accepted && r'.terminal == r.terminal
      && r.sent <= r'.sent && (ok ==> r'.lost == r.lost) && r'.dispatch == r.dispatch
    decreases names
  {
    hide InvWith;
    if names == [] {
      assert KeysOf(stage, names) == {};
    } else {
      var key := JobKey(stage, names[0]);
      assert key in KeysOf(stage, names);
      if sends == 0 {
        SendFailKeeps(c, r, KeysOf(stage, names), key);
      } else {
        SendOkKeeps(c, r, KeysOf(stage, names), key);
        assert KeysOf(stage, names) - {key} == KeysOf(stage, names[1..]) by {
          assert names == [names[0]] + names[1..];
        }
        EnqueueKeeps(c, SendOk(r, key), stage, names[1..], sends - 1);
      }
    }
  }

  /* Changing the state of one stage. */

  /** `r'` is `r` with a grown stage `s`: more queued or completed jobs, the new completions having been reported. */
  ghost predicate StageGrows(c: Config, r: Run, r': Run, s: Name) {
    && s in c.plans && s in r.stages && s in r'.stages
    && r' == r.(stages := r.stages[s := r'.stages[s]], terminal := r'.terminal)
    && r.stages[s].queued <= r'.stages[s].queued && r.stages[s].completed <= r'.stages[s].completed
    && Refines(c.plans[s], r'.stages[s], Released(r', s))
    && r.terminal <= r'.terminal
    && (forall key :: key in r'.terminal && key !in r.terminal ==> key.stage == s && IsCompleted(r', key))
    && (forall n :: n in r'.stages[s].completed && n !in r.stages[s].completed ==>
          JobKey(s, n) in r.sent && (Good(c, r.log, JobKey(s, n)) || JobKey(s, n) in r'.terminal))
  }

  /** The jobs of stage `s` that are queued in `r'` and not in `r`. */
  ghost function NewlyQueued(r: Run, r': Run, s: Name): set<JobKey>
    requires s in r.stages && s in r'.stages
  {
    set n | n in r'.stages[s].queued && n !in r.stages[s].queued :: JobKey(s, n)
  }

  lemma GrowStages(c: Config, r: Run, r': Run, s: Name)
    requires StagesOk(c, r) && StageGrows(c, r, r', s)
    ensures StagesOk(c, r')
  {
    forall t | t in c.plans && t != s ensures Released(r', t) == Released(r, t) && r'.stages[t] == r.stages[t] {
      forall n | n in r.stages[t].completed ensures JobKey(t, n) in r'.terminal <==> JobKey(t, n) in r.terminal { }
    }
  }

  lemma GrowKeys(c: Config, r: Run, r': Run, s: Name)
    requires KeysOk(r, {}) && StageGrows(c, r, r', s)
    ensures KeysOk(r', NewlyQueued(r, r', s))
  {
    assert Unsent(r') == Unsent(r);
    forall key ensures IsQueued(r', key) <==> IsQueued(r, key) || key in NewlyQueued(r, r', s) {
      assert key == JobKey(key.stage, key.job);
    }
    forall key | key in NewlyQueued(r, r', s) ensures !IsQueued(r, key) { }
    forall key | IsCompleted(r', key) ensures key in r'.sent {
      assert key == JobKey(key.stage, key.job);
      assert IsCompleted(r, key) || key.stage == s;
    }
    forall key | key in r'.terminal ensures IsCompleted(r', key) {
      assert key in r.terminal ==> IsCompleted(r, key);
    }
  }

  lemma GrowLog(c: Config, r: Run, r': Run, s: Name)
    requires LogOk(c, r) && StageGrows(c, r, r', s)
    ensures LogOk(c, r')
  {
    forall key | IsCompleted(r', key) ensures Good(c, r'.log, key) || key in r'.terminal {
      assert key == JobKey(key.stage, key.job);
      assert IsCompleted(r, key) || key.stage == s;
    }
    forall k | 0 <= k < |r'.log| && r'.log[k].Enqueued? ensures InOrder(c, r'.terminal, r'.log[..k], r'.log[k].key) {
      assert InOrder(c, r.terminal, r.log[..k], r.log[k].key);
    }
  }

  lemma GrowOrder(c: Config, r: Run, r': Run, s: Name)
    requires OrderOk(c, r) && StageGrows(c, r, r', s) && StagesOk(c, r) && Distinct(c.order)
    requires Started(r, s) || exists i :: 0 < i < |c.order| && c.order[i] == s && Complete(c, r, c.order[i - 1])
    ensures OrderOk(c, r')
  {
    forall t | Complete(c, r, t) ensures Complete(c, r', t) {
      assert t == s ==> r'.stages[s].completed <= r'.stages[s].queued <= c.plans[s].jobByName.Keys;
    }
    forall t | Started(r, t) ensures Started(r', t) { }
    forall t | Started(r', t) ensures t == s || Started(r, t) { }
    assert Started(r', c.order[0]) <==> Started(r, c.order[0]);
  }

  lemma StageGrowsKeeps(c: Config, r: Run, r': Run, s: Name)
    requires InvWith(c, r, {}) && StageGrows(c, r, r', s)
    requires Started(r, s) || exists i :: 0 < i < |c.order| && c.order[i] == s && Complete(c, r, c.order[i - 1])
    ensures InvWith(c, r', NewlyQueued(r, r', s))
  {
    hide StagesOk, KeysOk, LogOk, OrderOk, RowsOk;
    GrowStages(c, r, r', s);
    GrowKeys(c, r, r', s);
    GrowLog(c, r, r', s);
    GrowOrder(c, r, r', s);
    LongerLogKeepsRows(c, r, r');
  }

  /** A job whose message was sent is in a started stage. */
  lemma SentIsStarted(c: Config, r: Run, key: JobKey)
    requires InvWith(c, r, {}) && key in r.sent
    ensures IsQueued(r, key) && IsJob(c, key) && Started(r, key.stage)
    ensures Refines(c.plans[key.stage], r.stages[key.stage], Released(r, key.stage)) && ValidPlan(c.plans[key.stage])
    ensures !IsCompleted(r, key) ==> key !in r.terminal
  {
    assert IsQueued(r, key);
  }

  /** Handling a success or an allowed failure. */
  lemma SuccessKeeps(c: Config, r: Run, key: JobKey)
    requires InvWith(c, r, {}) && key in r.sent && Good(c, r.log, key)
    ensures key.stage in r.stages && key.stage in c.plans
    ensures var (v, ready) := MarkSucceeded(c.plans[key.stage], r.stages[key.stage], key.job);
      Distinct(ready) && InvWith(c, r.(stages := r.stages[key.stage := v]), KeysOf(key.stage, ready))
  {
    hide InvWith;
    SentIsStarted(c, r, key);
    SuccessGrows(c, r, key);
    var s := key.stage;
    var (v, ready) := MarkSucceeded(c.plans[s], r.stages[s], key.job);
    StageGrowsKeeps(c, r, r.(stages := r.stages[s := v]), s);
  }

  lemma SuccessGrows(c: Config, r: Run, key: JobKey)
    requires InvWith(c, r, {}) && key in r.sent && Good(c, r.log, key)
    ensures key.stage in r.stages && key.stage in c.plans
    ensures var (v, ready) := MarkSucceeded(c.plans[key.stage], r.stages[key.stage], key.job);
      var r' := r.(stages := r.stages[key.stage := v]);
      StageGrows(c, r, r', key.stage) && Distinct(ready) && NewlyQueued(r, r', key.stage) == KeysOf(key.stage, ready)
  {
    hide InvWith, ValidPlan, Refines;
    SentIsStarted(c, r, key);
    var s := key.stage;
    var (v, ready) := MarkSucceeded(c.plans[s], r.stages[s], key.job);
    if key.job in r.stages[s].completed {
      assert r.(stages := r.stages[s := v]) == r;
    } else {
      hide MarkSucceeded, StageGrows;
      SuccessRefines(c.plans[s], r.stages[s], Released(r, s), key.job);
      FreshGrows(c, r, key, v);
      SameKeys(r, r.(stages := r.stages[s := v]), s, ready);
    }
  }

  /** The jobs that become ready are planned, so they are published under their own names. */
  lemma ReadyHasEntries(c: Config, r: Run, key: JobKey)
    requires InvWith(c, r, {}) && key in r.sent
    ensures key.stage in r.stages && key.stage in c.plans
    ensures var ready := MarkSucceeded(c.plans[key.stage], r.stages[key.stage], key.job).1;
      EntryNames(c.plans[key.stage], ready) == ready
  {
    hide InvWith, ValidPlan;
    SentIsStarted(c, r, key);
    var plan, v := c.plans[key.stage], r.stages[key.stage];
    var (w, ready) := MarkSucceeded(plan, v, key.job);
    if key.job !in v.completed {
      hide MarkSucceeded;
      SuccessRefines(plan, v, Released(r, key.stage), key.job);
      var names := set n | n in ready;
      assert forall n :: n in ready ==> n in names;
    }
    EntriesAreNamed(plan, ready);
  }

  lemma FreshGrows(c: Config, r: Run, key: JobKey, v: StageView)
    requires key in r.sent && Good(c, r.log, key) && key.stage in r.stages && key.stage in c.plans
    requires key.job !in r.stages[key.stage].completed && key !in r.terminal
    requires Refines(c.plans[key.stage], v, Released(r, key.stage) + {key.job})
    requires v.completed == r.stages[key.stage].completed + {key.job} && r.stages[key.stage].queued <= v.queued
    ensures StageGrows(c, r, r.(stages := r.stages[key.stage := v]), key.stage)
  {
    hide Refines;
    var r' := r.(stages := r.stages[key.stage := v]);
    assert Released(r', key.stage) == Released(r, key.stage) + {key.job} by {
      assert key == JobKey(key.stage, key.job);
    }
  }

  lemma SameKeys(r: Run, r': Run, s: Name, ready: seq<Name>)
    requires s in r.stages && s in r'.stages
    requires (set n | n in ready) == r'.stages[s].queued - r.stages[s].queued
    ensures NewlyQueued(r, r', s) == KeysOf(s, ready)
  {
    var names := set n | n in ready;
    assert forall n :: n in ready <==> n in names;
  }

  /** Marking a disallowed failure. */
  lemma TerminalKeeps(c: Config, r: Run, key: JobKey)
    requires InvWith(c, r, {}) && key in r.sent
    ensures key.stage in r.stages
    ensures var v := r.stages[key.stage];
      InvWith(c, r.(stages := r.stages[key.stage := MarkTerminal(v, key.job)],
                    terminal := if key.job in v.completed then r.terminal else r.terminal + {key}), {})
  {
    hide InvWith, ValidPlan, Refines;
    SentIsStarted(c, r, key);
    var s := key.stage;
    var v := r.stages[s];
    var r' := r.(stages := r.stages[s := MarkTerminal(v, key.job)],
                 terminal := if key.job in v.completed then r.terminal else r.terminal + {key});
    assert Released(r', s) == Released(r, s) by {
      assert key == JobKey(s, key.job);
    }
    TerminalRefines(c.plans[s], v, Released(r, s), key.job);
    assert StageGrows(c, r, r', s);
    assert NewlyQueued(r, r', s) == {};
    StageGrowsKeeps(c, r, r', s);
  }

  lemma {:induction false} NextStageAt(order: seq<Name>, i: nat)
    requires Distinct(order) && i < |order|
    ensures NextStage(order, order[i]) == if i + 1 < |order| then Some(order[i + 1]) else None
  {
    if |order| >= 2 && i > 0 {
      NextStageAt(order[1..], i - 1);
    }
  }

  lemma RefinesIsStarted(plan: StagePlan, v: StageView, released: set<Name>)
    requires ValidPlan(plan) && Refines(plan, v, released)
    ensures v.queued != {}
  {
    assert NeedsEarlier(plan, 0);
    assert plan.jobs[0].name in Enabled(plan, released);
  }

  /** Starting the stage after a complete one, or finding it already started. */
  lemma StartNextKeeps(c: Config, r: Run, i: nat)
    requires InvWith(c, r, {}) && i + 1 < |c.order| && Complete(c, r, c.order[i])
    ensures c.order[i + 1] in r.stages && c.order[i + 1] in c.plans
    ensures
      var t := c.order[i + 1];
      var (v, ready) := ScanReady(r.stages[t], c.plans[t].jobs);
      var r' := r.(stages := r.stages[t := v]);
      && Distinct(ready) && InvWith(c, r', KeysOf(t, ready))
      && Started(r', t) && v.completed == r.stages[t].completed && r.stages[t].queued <= v.queued
  {
    hide ValidPlan, LogOk, RowsOk, KeysOk, OrderOk;
    var t := c.order[i + 1];
    var (v, ready) := ScanReady(r.stages[t], c.plans[t].jobs);
    var r' := r.(stages := r.stages[t := v]);
    if r.stages[t] == Initial(c.plans[t]) {
      hide ScanReady, InvWith, StagesOk, Refines;
      StartStage(c.plans[t]);
      assert Released(r', t) == {};
      assert StageGrows(c, r, r', t);
      SameKeys(r, r', t, ready);
      StageGrowsKeeps(c, r, r', t);
      RefinesIsStarted(c.plans[t], v, {});
    } else {
      RescanIsIdle(c.plans[t], r.stages[t], Released(r, t));
      RefinesIsStarted(c.plans[t], r.stages[t], Released(r, t));
      assert r' == r && KeysOf(t, ready) == {};
    }
  }

  /* Callbacks. */

  lemma ReportedKeeps(c: Config, r: Run, r': Run, key: JobKey, success: bool)
    requires InvWith(c, r, {})
    requires r' == r.(log := r.log + [Reported(key, success)], jobRows := r'.jobRows)
    ensures InvWith(c, r', {})
  {
    hide StagesOk, KeysOk, LogOk, OrderOk, RowsOk;
    SameStages(c, r, r');
    SameOrder(c, r, r');
    LongerLogKeepsRows(c, r, r');
    SameKeysOk(r, r');
    AppendReported(c, r, r', Reported(key, success));
  }

  lemma SameKeysOk(r: Run, r': Run)
    requires KeysOk(r, {}) && r'.stages == r.stages && r'.dispatch == r.dispatch && r'.terminal == r.terminal
    requires r'.sent == r.sent && r'.lost == r.lost && r'.inflight <= r.inflight && r.accepted <= r'.accepted
    requires r.inflight <= r'.inflight + r'.accepted
    ensures KeysOk(r', {})
  {
    forall key ensures IsQueued(r', key) == IsQueued(r, key) && IsCompleted(r', key) == IsCompleted(r, key) { }
    assert Unsent(r') == Unsent(r);
  }

  lemma AppendReported(c: Config, r: Run, r': Run, e: Event)
    requires LogOk(c, r) && e.Reported?
    requires r'.log == r.log + [e] && r'.terminal == r.terminal && r'.stages == r.stages && r'.sent == r.sent
    requires r'.lost == r.lost
    ensures LogOk(c, r')
  {
    forall k | 0 <= k < |r'.log| && r'.log[k].Enqueued? ensures InOrder(c, r'.terminal, r'.log[..k], r'.log[k].key) {
      assert r'.log[..k] == r.log[..k];
    }
    forall key | IsCompleted(r', key) ensures Good(c, r'.log, key) || key in r'.terminal {
      assert IsCompleted(r, key);
    }
  }

  /** What a callback for `key` may have changed, so that nothing is forgotten afterwards. */
  ghost predicate Moved(c: Config, r: Run, r': Run, key: JobKey, ok: bool) {
    && r'.accepted == r.accepted && r.sent <= r'.sent
    && (r'.live ==>
          && r.live
          && (forall other :: IsCompleted(r, other) ==> IsCompleted(r', other))
          && (forall s :: Started(r, s) ==> Started(r', s))
          && (ok ==> IsCompleted(r', key))
          && (forall s :: s != key.stage && Complete(c, r', s) ==> Complete(c, r, s))
          && (HandoverDue(c, r', key.stage) ==> !ok && (IsCompleted(r, key) ==> Complete(c, r, key.stage))))
  }

  ghost function Accept(r: Run, key: JobKey, ok: bool): Run {
    if ok then r.(accepted := r.accepted + {key}) else r
  }

  lemma MovedSettles(c: Config, r: Run, r': Run, key: JobKey, ok: bool)
    requires Settled(c, r) && key in r.sent && Moved(c, r, r', key, ok)
    ensures Settled(c, Accept(r', key, ok))
  {
    var a := Accept(r', key, ok);
    if a.live {
      forall other | other in a.accepted ensures IsCompleted(a, other) {
        assert (other == key && ok) || IsCompleted(r, other);
      }
      forall s | HandoverDue(c, a, s) ensures Unreported(a, s) {
        assert HandoverDue(c, r', s);
        if s != key.stage || IsCompleted(r, key) {
          assert HandoverDue(c, r, s);
          var n :| JobKey(s, n) in r.sent && JobKey(s, n) !in r.accepted;
          assert JobKey(s, n) in a.sent && JobKey(s, n) !in a.accepted;
        } else {
          assert key == JobKey(s, key.job);
          assert key in a.sent && key !in a.accepted;
        }
      }
    }
  }

  /** Row writes touch nothing the invariant speaks of, except the run row. */
  lemma StageRowKeeps(c: Config, r: Run, rows: map<Name, Status>)
    requires InvWith(c, r, {})
    ensures InvWith(c, r.(stageRows := rows), {})
  {
    var r' := r.(stageRows := rows);
    hide StagesOk, KeysOk, LogOk, OrderOk, RowsOk;
    SameStages(c, r, r');
    SameOrder(c, r, r');
    LongerLogKeepsRows(c, r, r');
    SameKeysOk(r, r');
    SameLogOk(c, r, r');
  }

  lemma SameLogOk(c: Config, r: Run, r': Run)
    requires LogOk(c, r) && r'.log == r.log && r'.terminal == r.terminal && r'.stages == r.stages && r'.sent == r.sent
    requires r'.lost == r.lost
    ensures LogOk(c, r')
  {
    forall key | IsCompleted(r', key) ensures Good(c, r'.log, key) || key in r'.terminal {
      assert IsCompleted(r, key);
    }
  }

  /** Ending the run: nothing changes but the run row and the runtime. */
  lemma EndKeeps(c: Config, r: Run, r': Run)
    requires InvWith(c, r, {}) && r' == r.(runRow := r'.runRow, live := false) && RowsOk(c, r')
    ensures InvWith(c, r', {})
  {
    hide StagesOk, KeysOk, LogOk, OrderOk, RowsOk;
    SameStages(c, r, r');
    SameOrder(c, r, r');
    SameKeysOk(r, r');
    SameLogOk(c, r, r');
  }

  lemma FailRunKeeps(c: Config, r: Run, key: JobKey, f: Faults)
    requires InvWith(c, r, {}) && key in r.sent && key !in c.allow && Reported(key, false) in r.log
    ensures key.stage in r.stages && InvWith(c, FailRun(r, key, f).0, {})
  {
    hide InvWith;
    TerminalKeeps(c, r, key);
    var s := key.stage;
    var v := r.stages[s];
    var r1 := r.(stages := r.stages[s := MarkTerminal(v, key.job)],
                 terminal := if key.job in v.completed then r.terminal else r.terminal + {key});
    StageRowKeeps(c, r1, r1.stageRows[s := Failed]);
    var r2 := r1.(stageRows := r1.stageRows[s := Failed]);
    EndKeeps(c, r2, r2.(runRow := Failed, live := false));
  }

  lemma FailRunMoves(c: Config, r: Run, key: JobKey, f: Faults)
    requires key.stage in r.stages && r.live
    ensures var (r', ok) := FailRun(r, key, f); Moved(c, r, r', key, ok)
  {
    var (r', ok) := FailRun(r, key, f);
    if key.job in r.stages[key.stage].completed {
      assert r.stages[key.stage].completed + {key.job} == r.stages[key.stage].completed;
    }
    assert r'.stages == r.stages[key.stage := MarkTerminal(r.stages[key.stage], key.job)];
    assert forall t :: t != key.stage ==> Complete(c, r', t) == Complete(c, r, t);
    assert forall t :: Started(r', t) == Started(r, t);
  }

  /** When the last stage is complete, every job is accounted for and start dispatch is over. */
  lemma AllAccountedFor(c: Config, r: Run)
    requires InvWith(c, r, {}) && c.order != [] && Complete(c, r, c.order[|c.order| - 1])
    ensures r.dispatch.Finished?
    ensures forall key :: IsJob(c, key) ==> Good(c, r.log, key) || key in r.terminal
  {
    hide InvWith;
    forall key | IsJob(c, key) ensures IsCompleted(r, key) && (Good(c, r.log, key) || key in r.terminal) {
      var _ := PositionOf(c, r, key.stage);
      AllComplete(c, r, key.stage);
      CompletedIsAccountedFor(c, r, key);
    }
    AllComplete(c, r, c.order[0]);
    if r.dispatch.NotStarted? {
      NotStartedIsEmpty(c, r);
      assert false;
    }
    if r.dispatch.Sending? {
      var key := UnsentIsIncomplete(c, r);
      assert false;
    }
  }

  lemma AllComplete(c: Config, r: Run, s: Name)
    requires InvWith(c, r, {}) && Complete(c, r, c.order[|c.order| - 1]) && s in c.order
    ensures Complete(c, r, s)
  {
    hide StagesOk, KeysOk, LogOk, OrderOk, RowsOk, ValidPlan;
    var last := |c.order| - 1;
    CompleteIsStarted(c, r, {}, c.order[last]);
    var i :| 0 <= i < |c.order| && c.order[i] == s;
    if i < last {
      EarlierComplete(c, r, {}, i, last);
    }
  }

  lemma CompletedIsAccountedFor(c: Config, r: Run, key: JobKey)
    requires InvWith(c, r, {}) && IsCompleted(r, key)
    ensures Good(c, r.log, key) || key in r.terminal
  {
  }

  lemma NotStartedIsEmpty(c: Config, r: Run)
    requires InvWith(c, r, {}) && r.dispatch.NotStarted?
    ensures !Complete(c, r, c.order[0])
  {
    if Complete(c, r, c.order[0]) {
      CompleteIsStarted(c, r, {}, c.order[0]);
      assert false;
    }
  }

  lemma UnsentIsIncomplete(c: Config, r: Run) returns (key: JobKey)
    requires InvWith(c, r, {}) && r.dispatch.Sending?
    ensures IsJob(c, key) && !IsCompleted(r, key)
  {
    key := JobKey(r.dispatch.stage, r.dispatch.rest[0]);
    assert key in Unsent(r);
    assert IsQueued(r, key);
  }

  /** Where an advance leaves the stages: untouched after an error before the scan, else with the next stage started. */
  ghost predicate Advanced(c: Config, r: Run, r': Run, s: Name, ok: bool) {
    && r'.accepted == r.accepted && r.sent <= r'.sent
    && (r'.live ==> r.live)
    && (r'.live && (ok || r'.stages != r.stages) ==> NextStarted(c, r, r', s))
  }

  ghost predicate NextStarted(c: Config, r: Run, r': Run, s: Name) {
    NextStage(c.order, s).Some? && NextStage(c.order, s).value != s && StartedFrom(r, r', NextStage(c.order, s).value)
  }

  ghost predicate StartedFrom(r: Run, r': Run, t: Name) {
    && t in r.stages && t in r'.stages && r'.stages == r.stages[t := r'.stages[t]]
    && Started(r', t) && r'.stages[t].completed == r.stages[t].completed && r.stages[t].queued <= r'.stages[t].queued
  }

  lemma AdvanceKeeps(c: Config, r: Run, s: Name, f: Faults)
    requires InvWith(c, r, {}) && r.live && Complete(c, r, s)
    ensures var (r', ok) := Advance(c, r, s, f); InvWith(c, r', {}) && Advanced(c, r, r', s, ok)
  {
    hide InvWith;
    var i := PositionOf(c, r, s);
    NextStageAt(c.order, i);
    StageRowKeeps(c, r, r.stageRows[s := Success]);
    var r1 := r.(stageRows := r.stageRows[s := Success]);
    assert Complete(c, r1, s);
    if i + 1 == |c.order| {
      FinishKeeps(c, r1);
    } else {
      AdvanceToNext(c, r1, i, f);
    }
  }

  lemma FinishKeeps(c: Config, r: Run)
    requires InvWith(c, r, {}) && c.order != [] && Complete(c, r, c.order[|c.order| - 1])
    ensures InvWith(c, r.(runRow := Success, live := false), {})
  {
    hide InvWith;
    AllAccountedFor(c, r);
    EndKeeps(c, r, r.(runRow := Success, live := false));
  }

  lemma PositionOf(c: Config, r: Run, s: Name) returns (i: nat)
    requires InvWith(c, r, {}) && s in c.plans
    ensures i < |c.order| && c.order[i] == s && Distinct(c.order) && c.plans.Keys == r.stages.Keys
  {
    i :| 0 <= i < |c.order| && c.order[i] == s;
  }

  lemma AdvanceToNext(c: Config, r: Run, i: nat, f: Faults)
    requires InvWith(c, r, {}) && r.live && i + 1 < |c.order| && Complete(c, r, c.order[i])
    requires NextStage(c.order, c.order[i]) == Some(c.order[i + 1]) && Distinct(c.order)
    ensures
      var t := c.order[i + 1];
      t in r.stages && t in c.plans
    ensures
      var t := c.order[i + 1];
      var (v, ready) := ScanReady(r.stages[t], c.plans[t].jobs);
      var (r2, ok) := EnqueueReady(r.(stages := r.stages[t := v]), t, ready, f.nextSends);
      && InvWith(c, r2, {}) && InvWith(c, r2.(stageRows := r2.stageRows[t := Success]), {})
      && r2.accepted == r.accepted && r.sent <= r2.sent && r2.live && StartedFrom(r, r2, t)
  {
    hide InvWith;
    StartNextKeeps(c, r, i);
    var t := c.order[i + 1];
    var (v, ready) := ScanReady(r.stages[t], c.plans[t].jobs);
    EnqueueKeeps(c, r.(stages := r.stages[t := v]), t, ready, f.nextSends);
    var (r2, ok) := EnqueueReady(r.(stages := r.stages[t := v]), t, ready, f.nextSends);
    StageRowKeeps(c, r2, r2.stageRows[t := Success]);
  }

  /** Only the stage of `key` has changed, and not at all if the job was completed before. */
  ghost predicate Grown(c: Config, r: Run, r': Run, key: JobKey) {
    && r'.accepted == r.accepted && r.sent <= r'.sent && r.live && r'.live
    && key.stage in r.stages && key.stage in r'.stages && r'.stages == r.stages[key.stage := r'.stages[key.stage]]
    && r'.stages[key.stage].completed == r.stages[key.stage].completed + {key.job}
    && r.stages[key.stage].queued <= r'.stages[key.stage].queued
    && (IsCompleted(r, key) ==> r'.stages == r.stages)
  }

  lemma GrownMoves(c: Config, r: Run, r': Run, key: JobKey, ok: bool)
    requires Grown(c, r, r', key) && (ok ==> !Complete(c, r', key.stage))
    ensures Moved(c, r, r', key, ok)
  {
    assert forall t :: t != key.stage ==> Complete(c, r', t) == Complete(c, r, t);
    assert forall t :: Started(r, t) ==> Started(r', t);
  }

  lemma GrownThenAdvanced(c: Config, r: Run, r1: Run, r': Run, key: JobKey, ok: bool)
    requires Grown(c, r, r1, key) && Advanced(c, r1, r', key.stage, ok)
    ensures Moved(c, r, r', key, ok)
  {
    GrownMoves(c, r, r1, key, false);
    if r'.live && (ok || r'.stages != r1.stages) {
      var t := NextStage(c.order, key.stage).value;
      assert forall u :: u != t && u in r1.stages ==> r'.stages[u] == r1.stages[u];
      assert forall u :: Complete(c, r', u) ==> Complete(c, r1, u);
      assert forall other :: IsCompleted(r', other) == IsCompleted(r1, other);
      assert forall u :: Started(r1, u) ==> Started(r', u);
      assert !HandoverDue(c, r', key.stage);
    } else if r'.live {
      assert forall u :: Complete(c, r', u) == Complete(c, r1, u) && Started(r', u) == Started(r1, u);
      assert forall other :: IsCompleted(r', other) == IsCompleted(r1, other);
    }
  }

  lemma SuccessIsGrown(c: Config, r: Run, key: JobKey)
    requires InvWith(c, r, {}) && key in r.sent && r.live
    ensures key.stage in r.stages && key.stage in c.plans
    ensures var v := MarkSucceeded(c.plans[key.stage], r.stages[key.stage], key.job).0;
      Grown(c, r, r.(stages := r.stages[key.stage := v]), key)
    ensures var v := MarkSucceeded(c.plans[key.stage], r.stages[key.stage], key.job).0;
      IsStageComplete(c.plans[key.stage], v) <==> v.completed == c.plans[key.stage].jobByName.Keys
  {
    hide InvWith, ValidPlan, Refines;
    SentIsStarted(c, r, key);
    var s := key.stage;
    var plan, v, released := c.plans[s], r.stages[s], Released(r, s);
    if key.job in v.completed {
      assert v.completed + {key.job} == v.completed;
      CompleteMeansAll(plan, v, released);
    } else {
      hide MarkSucceeded;
      SuccessRefines(plan, v, released, key.job);
      CompleteMeansAll(plan, MarkSucceeded(plan, v, key.job).0, released + {key.job});
    }
  }

  lemma CompleteJobKeeps(c: Config, r: Run, key: JobKey, f: Faults)
    requires InvWith(c, r, {}) && key in r.sent && r.live && Good(c, r.log, key)
    ensures key.stage in r.stages && key.stage in c.plans
    ensures var (r', ok) := CompleteJob(c, r, key, f); InvWith(c, r', {}) && Moved(c, r, r', key, ok)
  {
    hide InvWith, Moved, Grown, MarkSucceeded, IsStageComplete, Good;
    SuccessKeeps(c, r, key);
    SuccessIsGrown(c, r, key);
    ReadyHasEntries(c, r, key);
    var s := key.stage;
    var (v, ready) := MarkSucceeded(c.plans[s], r.stages[s], key.job);
    var r1 := r.(stages := r.stages[s := v]);
    EnqueueKeeps(c, r1, s, ready, f.sends);
    var (r2, ok) := EnqueueReady(r1, s, ready, f.sends);
    SentIsGrown(c, r, r1, r2, key);
    if ok && IsStageComplete(c.plans[s], v) {
      AdvanceKeeps(c, r2, s, f);
      var (r', ok') := Advance(c, r2, s, f);
      GrownThenAdvanced(c, r, r2, r', key, ok');
    } else {
      GrownMoves(c, r, r2, key, ok);
    }
  }

  lemma SentIsGrown(c: Config, r: Run, r1: Run, r2: Run, key: JobKey)
    requires Grown(c, r, r1, key) && r2.stages == r1.stages && r2.live == r1.live && r2.accepted == r1.accepted
    requires r1.sent <= r2.sent
    ensures Grown(c, r, r2, key)
  {
  }

  /** Every callback, whatever fails in it, keeps the invariant. */
  lemma CallbackKeeps(c: Config, r: Run, key: JobKey, success: bool, f: Faults)
    requires CanStep(r, Callback(key, success, f)) && Inv(c, r)
    ensures Inv(c, Apply(c, r, Callback(key, success, f)))
  {
    var (r', ok) := JobFinished(c, r, key, success, f);
    hide InvWith, Settled, Moved, FailRun, CompleteJob;
    JobFinishedKeeps(c, r, key, success, f);
    AcceptKeeps(c, r', key, ok);
  }

  lemma AcceptKeeps(c: Config, r: Run, key: JobKey, ok: bool)
    requires InvWith(c, r, {}) && key in r.sent
    ensures InvWith(c, Accept(r, key, ok), {})
  {
    var r' := Accept(r, key, ok);
    hide StagesOk, KeysOk, LogOk, OrderOk, RowsOk;
    SameStages(c, r, r');
    SameOrder(c, r, r');
    LongerLogKeepsRows(c, r, r');
    SameKeysOk(r, r');
    SameLogOk(c, r, r');
  }

  lemma JobFinishedKeeps(c: Config, r: Run, key: JobKey, success: bool, f: Faults)
    requires InvWith(c, r, {}) && Settled(c, r) && key in r.sent
    ensures var (r', ok) := JobFinished(c, r, key, success, f);
      InvWith(c, r', {}) && Settled(c, Accept(r', key, ok)) && key in r'.sent
  {
    hide InvWith, Settled, Moved, FailRun, CompleteJob;
    SentIsStarted(c, r, key);
    if f.jobWrite {
      var r0 := r.(jobRows := if key in r.jobRows then r.jobRows[key := JobStatus(success)] else r.jobRows);
      JobRowKeeps(c, r, r0);
      if r.live {
        var r1 := r0.(log := r0.log + [Reported(key, success)]);
        ReportedKeeps(c, r, r1, key, success);
        SameSettled(c, r, r1);
        if !success && key !in c.allow {
          FailRunKeeps(c, r1, key, f);
          FailRunMoves(c, r1, key, f);
          assert r1.stages == r.stages;
          var (r', ok) := FailRun(r1, key, f);
          MovedSettles(c, r1, r', key, ok);
          MovedKeepsSent(c, r1, r', key, ok);
        } else {
          CompleteJobKeeps(c, r1, key, f);
          var (r', ok) := CompleteJob(c, r1, key, f);
          MovedSettles(c, r1, r', key, ok);
          MovedKeepsSent(c, r1, r', key, ok);
        }
      } else {
        DeadIsSettled(c, Accept(r0, key, true));
      }
    }
  }

  lemma MovedKeepsSent(c: Config, r: Run, r': Run, key: JobKey, ok: bool)
    requires Moved(c, r, r', key, ok)
    ensures r.sent <= r'.sent
  {
  }

  lemma DeadIsSettled(c: Config, r: Run)
    requires !r.live
    ensures Settled(c, r)
  {
  }

  lemma JobRowKeeps(c: Config, r: Run, r': Run)
    requires InvWith(c, r, {}) && r' == r.(jobRows := r'.jobRows)
    ensures InvWith(c, r', {})
  {
    hide StagesOk, KeysOk, LogOk, OrderOk, RowsOk;
    SameStages(c, r, r');
    SameOrder(c, r, r');
    LongerLogKeepsRows(c, r, r');
    SameKeysOk(r, r');
    SameLogOk(c, r, r');
  }

  lemma SameSettled(c: Config, r: Run, r': Run)
    requires Settled(c, r) && r'.stages == r.stages && r'.live == r.live && r.sent <= r'.sent
    requires r'.accepted == r.accepted
    ensures Settled(c, r')
  {
    if r'.live {
      forall key | key in r'.accepted ensures IsCompleted(r', key) {
        assert IsCompleted(r, key);
      }
      forall s | HandoverDue(c, r', s) ensures Unreported(r', s) {
        assert HandoverDue(c, r, s);
        var n :| JobKey(s, n) in r.sent && JobKey(s, n) !in r.accepted;
        assert JobKey(s, n) in r'.sent;
      }
    }
  }

  /* Start dispatch and acknowledgements. */

  lemma StartKeeps(c: Config, r: Run, stageWrite: bool, runWrite: bool)
    requires Inv(c, r) && r.dispatch.NotStarted?
    ensures Inv(c, Start(c, r, stageWrite, runWrite))
  {
    hide InvWith, Settled, ValidPlan, ScanReady;
    FirstIsFresh(c, r);
    var s := c.order[0];
    StartStage(c.plans[s]);
    var (v, ready) := ScanReady(r.stages[s], c.plans[s].jobs);
    var r' := Start(c, r, stageWrite, runWrite);
    assert r' == r.(stages := r.stages[s := v], dispatch := Sending(s, ready));
    StartedKeeps(c, r, v, ready);
    StartedSettles(c, r, r');
  }

  lemma {:induction false} NothingStarted(c: Config, r: Run, s: Name)
    requires InvWith(c, r, {}) && r.dispatch.NotStarted? && s in c.plans
    ensures s in r.stages && r.stages[s] == Initial(c.plans[s]) && !Started(r, s)
  {
    var j :| 0 <= j < |c.order| && c.order[j] == s;
    if Started(r, s) {
      EarlierComplete(c, r, {}, 0, j);
      CompleteIsStarted(c, r, {}, c.order[0]);
      assert false;
    }
    if r.stages[s] != Initial(c.plans[s]) {
      RefinesIsStarted(c.plans[s], r.stages[s], Released(r, s));
      assert false;
    }
  }

  lemma FirstIsFresh(c: Config, r: Run)
    requires InvWith(c, r, {}) && r.dispatch.NotStarted?
    ensures c.order != [] && c.order[0] in c.plans && c.order[0] in r.stages && ValidPlan(c.plans[c.order[0]])
    ensures r.stages[c.order[0]] == Initial(c.plans[c.order[0]])
  {
    hide StagesOk, KeysOk, LogOk, OrderOk, RowsOk, ValidPlan;
    assert c.order[0] in c.order;
    NothingStarted(c, r, c.order[0]);
  }

  lemma StartedKeeps(c: Config, r: Run, v: StageView, ready: seq<Name>)
    requires InvWith(c, r, {}) && r.dispatch.NotStarted? && c.order != []
    requires c.order[0] in c.plans && c.order[0] in r.stages && r.stages[c.order[0]] == Initial(c.plans[c.order[0]])
    requires Refines(c.plans[c.order[0]], v, {}) && v.completed == {} && ready != [] && Distinct(ready)
    requires (set n | n in ready) == v.queued
    ensures InvWith(c, r.(stages := r.stages[c.order[0] := v], dispatch := Sending(c.order[0], ready)), {})
  {
    hide StagesOk, KeysOk, LogOk, OrderOk, RowsOk;
    var s := c.order[0];
    var r1 := r.(stages := r.stages[s := v]);
    var r' := r1.(dispatch := Sending(s, ready));
    assert Released(r1, s) == {};
    assert StageGrows(c, r, r1, s);
    GrowStages(c, r, r1, s);
    GrowKeys(c, r, r1, s);
    GrowLog(c, r, r1, s);
    SameKeys(r, r1, s, ready);
    SameStages(c, r1, r');
    SameLogOk(c, r1, r');
    HandToDispatch(r1, r', s, ready);
    assert ready[0] in v.queued by { assert ready[0] in (set n | n in ready); }
    FirstStartedOrder(c, r, r');
    NotStartedRows(c, r, r');
  }

  lemma HandToDispatch(r: Run, r': Run, s: Name, ready: seq<Name>)
    requires KeysOk(r, KeysOf(s, ready)) && r.dispatch.NotStarted? && ready != [] && Distinct(ready)
    requires r' == r.(dispatch := Sending(s, ready))
    ensures KeysOk(r', {})
  {
    forall key ensures IsQueued(r', key) == IsQueued(r, key) && IsCompleted(r', key) == IsCompleted(r, key) { }
  }

  lemma NotStartedRows(c: Config, r: Run, r': Run)
    requires RowsOk(c, r) && r.dispatch.NotStarted?
    requires r' == r.(stages := r'.stages, dispatch := r'.dispatch)
    ensures RowsOk(c, r')
  {
  }

  lemma FirstStartedOrder(c: Config, r: Run, r': Run)
    requires InvWith(c, r, {}) && r.dispatch.NotStarted? && r'.dispatch.Sending? && r'.dispatch.stage == c.order[0]
    requires c.order[0] in r'.stages && r'.stages == r.stages[c.order[0] := r'.stages[c.order[0]]]
    requires r'.stages[c.order[0]].queued != {}
    ensures OrderOk(c, r')
  {
    forall i | 0 < i < |c.order| ensures !Started(r', c.order[i]) {
      assert c.order[i] in c.order;
      NothingStarted(c, r, c.order[i]);
    }
  }

  lemma StartedSettles(c: Config, r: Run, r': Run)
    requires Inv(c, r) && r.dispatch.NotStarted? && c.order != [] && c.order[0] in r'.stages && c.order[0] in c.plans
    requires r' == r.(stages := r.stages[c.order[0] := r'.stages[c.order[0]]], dispatch := r'.dispatch)
    requires r'.stages[c.order[0]].completed == {}
    ensures Settled(c, r')
  {
    hide StagesOk, KeysOk, LogOk, OrderOk, RowsOk;
    forall key ensures !IsCompleted(r, key) {
      if key.stage in c.plans { NothingStarted(c, r, key.stage); } else { OnlyPlanned(c, r, key); }
    }
    forall s ensures !HandoverDue(c, r', s) {
      if s in c.plans {
        NothingStarted(c, r, s);
        assert HasName(c.plans[s].jobs, c.plans[s].jobs[0].name);
      }
    }
  }

  lemma OnlyPlanned(c: Config, r: Run, key: JobKey)
    requires InvWith(c, r, {}) && key.stage !in c.plans
    ensures !IsCompleted(r, key)
  {
  }

  lemma SendStepKeeps(c: Config, r: Run, sendOk: bool, runWrite: bool)
    requires Inv(c, r) && r.dispatch.Sending? && r.dispatch.rest != []
    ensures Inv(c, Send(r, sendOk, runWrite))
  {
    hide InvWith, Settled;
    var s, rest := r.dispatch.stage, r.dispatch.rest;
    var key := JobKey(s, rest[0]);
    var r' := Send(r, sendOk, runWrite);
    if sendOk {
      var r1 := r.(dispatch := if |rest| == 1 then Finished else Sending(s, rest[1..]));
      TakeFromDispatch(c, r, r1, {key});
      SendOkKeeps(c, r1, {key}, key);
      assert {key} - {key} == {};
      SameSettled(c, r, r');
    } else {
      var r1 := r.(dispatch := Finished);
      assert key in KeysOf(s, rest);
      TakeFromDispatch(c, r, r1, KeysOf(s, rest));
      SendFailKeeps(c, r1, KeysOf(s, rest), key);
      DispatchFailureKeeps(c, SendFail(r1, key, KeysOf(s, rest)), runWrite, r);
      DeadIsSettled(c, r');
    }
  }

  /** Start dispatch hands `taken` over: the next job, or all of them. */
  ghost predicate HandsOver(r: Run, r1: Run, taken: set<JobKey>)
    requires r.dispatch.Sending?
  {
    if r1.dispatch.Finished? then taken == Unsent(r)
    else
      && |r.dispatch.rest| > 1
      && r1.dispatch == Sending(r.dispatch.stage, r.dispatch.rest[1..])
      && taken == {JobKey(r.dispatch.stage, r.dispatch.rest[0])}
  }

  lemma TakeFromDispatch(c: Config, r: Run, r1: Run, taken: set<JobKey>)
    requires InvWith(c, r, {}) && r.dispatch.Sending? && r1 == r.(dispatch := r1.dispatch)
    requires HandsOver(r, r1, taken)
    ensures InvWith(c, r1, taken)
  {
    hide StagesOk, KeysOk, LogOk, OrderOk, RowsOk;
    SameStages(c, r, r1);
    SameLogOk(c, r, r1);
    TakeKeys(r, r1, taken);
    TakeOrder(c, r, r1);
    TakeRows(c, r, r1);
  }

  lemma TakeKeys(r: Run, r1: Run, taken: set<JobKey>)
    requires KeysOk(r, {}) && r.dispatch.Sending? && r1 == r.(dispatch := r1.dispatch)
    requires HandsOver(r, r1, taken)
    ensures KeysOk(r1, taken)
  {
    forall key ensures IsQueued(r1, key) == IsQueued(r, key) && IsCompleted(r1, key) == IsCompleted(r, key) { }
    var rest := r.dispatch.rest;
    assert rest == [rest[0]] + rest[1..];
    assert Unsent(r) == Unsent(r1) + taken && Unsent(r1) !! taken;
  }

  lemma TakeOrder(c: Config, r: Run, r1: Run)
    requires OrderOk(c, r) && r.dispatch.Sending? && r1 == r.(dispatch := r1.dispatch)
    requires r1.dispatch.Finished? || (r1.dispatch.Sending? && r1.dispatch.stage == r.dispatch.stage)
    ensures OrderOk(c, r1)
  {
    forall s ensures Started(r1, s) == Started(r, s) && Complete(c, r1, s) == Complete(c, r, s) { }
  }

  lemma TakeRows(c: Config, r: Run, r1: Run)
    requires RowsOk(c, r) && r.dispatch.Sending? && r1 == r.(dispatch := r1.dispatch)
    ensures RowsOk(c, r1)
  {
  }

  lemma DispatchFailureKeeps(c: Config, r: Run, runWrite: bool, before: Run)
    requires InvWith(c, r, {}) && r.dispatch.Finished? && r.runRow == before.runRow
    requires InvWith(c, before, {}) && before.dispatch.Sending?
    ensures InvWith(c, FailDispatch(r, runWrite), {})
  {
    var r' := FailDispatch(r, runWrite);
    assert before.runRow != Success;
    hide StagesOk, KeysOk, LogOk, OrderOk;
    SameStages(c, r, r');
    SameOrder(c, r, r');
    SameKeysOk(r, r');
    SameLogOk(c, r, r');
  }

  lemma AckKeeps(c: Config, r: Run, key: JobKey)
    requires Inv(c, r) && key in r.inflight && key in r.accepted
    ensures Inv(c, r.(inflight := r.inflight - {key}))
  {
    var r' := r.(inflight := r.inflight - {key});
    hide StagesOk, KeysOk, LogOk, OrderOk, RowsOk, Settled;
    SameStages(c, r, r');
    SameOrder(c, r, r');
    LongerLogKeepsRows(c, r, r');
    SameKeysOk(r, r');
    SameLogOk(c, r, r');
    SameSettled(c, r, r');
  }

  lemma StepKeeps(c: Config, r: Run, step: Step)
    requires Inv(c, r) && CanStep(r, step)
    ensures Inv(c, Apply(c, r, step))
  {
    hide Inv, Start, Send, JobFinished;
    match step
    case StartDispatch(stageWrite, runWrite) => StartKeeps(c, r, stageWrite, runWrite);
    case SendNext(sendOk, runWrite) => SendStepKeeps(c, r, sendOk, runWrite);
    case Callback(key, success, f) => CallbackKeeps(c, r, key, success, f);
    case Ack(key) => AckKeeps(c, r, key);
  }
}
