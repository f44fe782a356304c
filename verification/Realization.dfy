/**
 * The converse of EndToEnd: whatever the scheduler can go through, orchestrator, broker and workers together can. Two
 * workers per job stay behind with a finished execution each, one for either status, and never hear an answer.
 */
module Realization {
  import opened Models
  import opened Stage
  import opened Scheduler
  import opened SchedulerInvariant
  import opened SchedulerTheorems
  import opened SchedulerFaults
  import opened Progress
  import opened EndToEnd

  /* A message is sent once. */

  /** What is put in flight was not sent before. */
  ghost predicate SendsNew(r: Run, r': Run) {
    r.sent <= r'.sent && forall key :: key in r'.inflight && key !in r.inflight ==> key !in r.sent
  }

  lemma {:induction false} EnqueueSendsNew(r: Run, stage: Name, names: seq<Name>, sends: nat)
    requires KeysOf(stage, names) !! r.sent && Distinct(names)
    ensures SendsNew(r, EnqueueReady(r, stage, names, sends).0)
    decreases names
  {
    if names != [] && sends > 0 {
      var key := JobKey(stage, names[0]);
      assert key in KeysOf(stage, names);
      assert names == [names[0]] + names[1..];
      EnqueueSendsNew(SendOk(r, key), stage, names[1..], sends - 1);
    }
  }

  lemma ExtraIsUnsent(c: Config, r: Run, extra: set<JobKey>)
    requires InvWith(c, r, extra)
    ensures extra !! r.sent
  {
    hide StagesOk, LogOk, OrderOk, RowsOk;
  }

  lemma AdvanceSendsNew(c: Config, r: Run, s: Name, f: Faults)
    requires InvWith(c, r, {}) && Complete(c, r, s)
    ensures SendsNew(r, Advance(c, r, s, f).0)
  {
    hide InvWith, ScanReady, EnqueueReady;
    var i := PositionOf(c, r, s);
    NextStageAt(c.order, i);
    if i + 1 < |c.order| {
      StartNextKeeps(c, r, i);
      var t := c.order[i + 1];
      var (v, ready) := ScanReady(r.stages[t], c.plans[t].jobs);
      ExtraIsUnsent(c, r.(stages := r.stages[t := v]), KeysOf(t, ready));
      EnqueueSendsNew(r.(stageRows := r.stageRows[s := Success], stages := r.stages[t := v]), t, ready, f.nextSends);
    }
  }

  lemma CompleteJobSendsNew(c: Config, r: Run, key: JobKey, f: Faults)
    requires InvWith(c, r, {}) && key in r.sent && Good(c, r.log, key)
    ensures key.stage in r.stages && key.stage in c.plans && SendsNew(r, CompleteJob(c, r, key, f).0)
  {
    hide InvWith, MarkSucceeded, EnqueueReady, Advance, Good, IsStageComplete;
    SuccessKeeps(c, r, key);
    ReadyHasEntries(c, r, key);
    var s := key.stage;
    var (v, ready) := MarkSucceeded(c.plans[s], r.stages[s], key.job);
    var r1 := r.(stages := r.stages[s := v]);
    ExtraIsUnsent(c, r1, KeysOf(s, ready));
    EnqueueSendsNew(r1, s, ready, f.sends);
    EnqueueKeeps(c, r1, s, ready, f.sends);
    var r2 := EnqueueReady(r1, s, ready, f.sends).0;
    if IsStageComplete(c.plans[s], v) {
      CountedIsComplete(c, r2, s);
      AdvanceSendsNew(c, r2, s, f);
    }
  }

  lemma CallbackSendsNew(c: Config, r: Run, key: JobKey, success: bool, f: Faults)
    requires InvWith(c, r, {}) && key in r.sent
    ensures SendsNew(r, JobFinished(c, r, key, success, f).0)
  {
    hide InvWith, CompleteJob;
    var rows := if key in r.jobRows then r.jobRows[key := JobStatus(success)] else r.jobRows;
    var r1 := r.(jobRows := rows, log := r.log + [Reported(key, success)]);
    if r.live && (success || key in c.allow) {
      ReportedKeeps(c, r, r1, key, success);
      CompleteJobSendsNew(c, r1, key, f);
    }
  }

  lemma DispatchSendsNew(c: Config, r: Run, step: Step)
    requires InvWith(c, r, {}) && CanStep(r, step) && (step.StartDispatch? || step.SendNext?)
    ensures SendsNew(r, Apply(c, r, step))
  {
    hide StagesOk, LogOk, OrderOk, RowsOk, FindReadyStage;
    if step.StartDispatch? {
      StartFrame(c, r, 0, step.stageWrite);
    } else {
      assert JobKey(r.dispatch.stage, r.dispatch.rest[0]) in Unsent(r);
    }
  }

  /* Histories as they are built up. */

  ghost predicate Unfolds(c: Config, x: Whole, events: seq<Happening>, x': Whole)
    decreases events
  {
    if events == [] then x == x'
    else CanHappen(c, x, events[0]) && Unfolds(c, Happen(c, x, events[0]), events[1..], x')
  }

  lemma UnfoldsOne(c: Config, x: Whole, e: Happening)
    requires CanHappen(c, x, e)
    ensures Unfolds(c, x, [e], Happen(c, x, e))
  {
    hide CanHappen, Happen;
    assert [e][1..] == [];
  }

  lemma {:induction false} UnfoldsOn(c: Config, x: Whole, first: seq<Happening>, x1: Whole,
                                     second: seq<Happening>, x2: Whole)
    requires Unfolds(c, x, first, x1) && Unfolds(c, x1, second, x2)
    ensures Unfolds(c, x, first + second, x2)
    decreases first
  {
    hide CanHappen, Happen;
    if first == [] {
      assert first + second == second;
    } else {
      UnfoldsOn(c, Happen(c, x, first[0]), first[1..], x1, second, x2);
      assert (first + second)[1..] == first[1..] + second;
    }
  }

  lemma {:induction false} UnfoldsIsHistory(c: Config, x: Whole, events: seq<Happening>, x': Whole)
    returns (xs: seq<Whole>)
    requires Unfolds(c, x, events, x')
    ensures |xs| == |events| + 1 && xs[0] == x && xs[|events|] == x'
    ensures forall i {:trigger events[i]} :: 0 <= i < |events| ==>
      CanHappen(c, xs[i], events[i]) && xs[i + 1] == Happen(c, xs[i], events[i])
    decreases events
  {
    hide CanHappen, Happen;
    if events == [] {
      xs := [x];
    } else {
      var rest := UnfoldsIsHistory(c, Happen(c, x, events[0]), events[1..], x');
      xs := [x] + rest;
      forall i | 0 <= i < |events| ensures CanHappen(c, xs[i], events[i]) && xs[i + 1] == Happen(c, xs[i], events[i]) {
        if i > 0 {
          assert events[1..][i - 1] == events[i];
        }
      }
    }
  }

  /** Apart from acknowledgements, transport does not touch the run. */
  lemma MoveKeepsRun(c: Config, x: Whole, move: Delivery.Step)
    requires Sound(c, x) && CanHappen(c, x, Transport(move)) && !move.Ack?
    ensures Happen(c, x, Transport(move)) == x.(mq := Delivery.Apply(x.mq, move))
    ensures Sound(c, Happen(c, x, Transport(move)))
  {
    hide Inv, Delivery.TagsOk, Delivery.Honest;
    HappeningSound(c, x, Transport(move));
    Delivery.ConservedStep(x.mq, move);
    InFlightIsNotGone(x.mq, x.jobOf);
    InFlightIsNotGone(Delivery.Apply(x.mq, move), x.jobOf);
  }

  lemma {:induction false} FreshNumber(used: set<nat>) returns (n: nat)
    ensures forall k :: k in used ==> k < n
  {
    n := 0;
    if k :| k in used {
      var m := FreshNumber(used - {k});
      n := if m > k then m else k + 1;
      assert forall j :: j in used ==> j == k || j in used - {k};
    }
  }

  ghost predicate OneCopy(jobOf: map<nat, JobKey>) {
    forall a, b :: a in jobOf && b in jobOf && jobOf[a] == jobOf[b] ==> a == b
  }

  lemma {:induction false} FreshCopies(keys: set<JobKey>, used: set<nat>) returns (copies: map<nat, JobKey>)
    ensures copies.Keys !! used && copies.Values == keys && OneCopy(copies)
  {
    if key :| key in keys {
      var rest := FreshCopies(keys - {key}, used);
      var n := FreshNumber(used + rest.Keys);
      assert n !in used && n !in rest;
      copies := rest[n := key];
      assert copies.Values == keys by {
        assert copies[n] == key;
        forall k | k in rest.Values ensures k in copies.Values {
          var copy :| copy in rest && rest[copy] == k;
          assert copies[copy] == k;
        }
      }
      assert forall copy :: copy in rest ==> rest[copy] in rest.Values;
    } else {
      copies := map[];
    }
  }

  /* Workers for every occasion. */

  /** Worker `w` has executed the job with this status, and has not been heard. */
  ghost predicate Stands(x: Whole, w: nat, key: JobKey, success: bool) {
    && w in x.mq.consumers && x.mq.consumers[w].Executed? && x.mq.consumers[w].success == success
    && x.mq.consumers[w].copy in x.jobOf && x.jobOf[x.mq.consumers[w].copy] == key
  }

  ghost predicate HasStand(x: Whole, key: JobKey, success: bool) {
    exists w :: Stands(x, w, key, success)
  }

  /** The copy is in the queue. */
  ghost predicate Waits(x: Whole, copy: nat, key: JobKey) {
    copy in x.mq.ready && copy in x.jobOf && x.jobOf[copy] == key
  }

  ghost predicate IsWaiting(x: Whole, key: JobKey) {
    exists copy :: Waits(x, copy, key)
  }

  /** Worker `w` has heard that its report was accepted, and its delivery is still unacknowledged. */
  ghost predicate Holds(x: Whole, w: nat, key: JobKey) {
    && w in x.mq.consumers && x.mq.consumers[w].Reported?
    && x.mq.consumers[w].tag in x.mq.unacked && x.mq.unacked[x.mq.consumers[w].tag] == x.mq.consumers[w].copy
    && x.mq.consumers[w].copy in x.jobOf && x.jobOf[x.mq.consumers[w].copy] == key
  }

  ghost predicate IsHeld(x: Whole, key: JobKey) {
    exists w :: Holds(x, w, key)
  }

  ghost predicate Manned(x: Whole, keys: set<JobKey>) {
    forall key :: key in keys ==> HasStand(x, key, true) && HasStand(x, key, false)
  }

  /** A job in flight waits in the queue until its report is accepted, and is then held. */
  ghost predicate Placed(x: Whole, keys: set<JobKey>, accepted: set<JobKey>) {
    forall key :: key in keys ==> if key in accepted then IsHeld(x, key) else IsWaiting(x, key)
  }

  ghost predicate Staged(x: Whole) {
    && OneCopy(x.jobOf) && x.run.accepted <= x.run.sent
    && Manned(x, x.run.sent) && Placed(x, x.run.inflight, x.run.accepted)
  }

  /** Workers are added, and nothing else changes. */
  ghost predicate Joined(x: Whole, x': Whole) {
    && x'.run == x.run && x'.jobOf == x.jobOf && x'.mq.ready == x.mq.ready && x'.mq.unacked == x.mq.unacked
    && forall w :: w in x.mq.consumers ==> w in x'.mq.consumers && x'.mq.consumers[w] == x.mq.consumers[w]
  }

  lemma JoinedKeeps(x: Whole, x': Whole, keys: set<JobKey>, accepted: set<JobKey>)
    requires Joined(x, x')
    ensures forall key, success :: HasStand(x, key, success) ==> HasStand(x', key, success)
    ensures Placed(x, keys, accepted) ==> Placed(x', keys, accepted)
  {
    forall key, success | HasStand(x, key, success) ensures HasStand(x', key, success) {
      var w :| Stands(x, w, key, success);
      assert Stands(x', w, key, success);
    }
    forall key | IsHeld(x, key) ensures IsHeld(x', key) {
      var w :| Holds(x, w, key);
      assert Holds(x', w, key);
    }
    forall key | IsWaiting(x, key) ensures IsWaiting(x', key) {
      var copy :| Waits(x, copy, key);
      assert Waits(x', copy, key);
    }
  }

  lemma MoveOne(c: Config, x: Whole, move: Delivery.Step) returns (x': Whole)
    requires Sound(c, x) && CanHappen(c, x, Transport(move)) && !move.Ack?
    ensures Unfolds(c, x, [Transport(move)], x') && Sound(c, x') && x' == x.(mq := Delivery.Apply(x.mq, move))
  {
    hide Sound, CanHappen, Happen;
    MoveKeepsRun(c, x, move);
    x' := Happen(c, x, Transport(move));
    UnfoldsOne(c, x, Transport(move));
  }

  /** A free worker receives the copy and executes the job. */
  lemma Engage(c: Config, x: Whole, copy: nat, success: bool) returns (events: seq<Happening>, x': Whole, w: nat)
    requires Sound(c, x) && copy in x.mq.ready && copy in x.jobOf && !Refused(c, x.jobOf[copy])
    ensures Unfolds(c, x, events, x') && Sound(c, x') && w !in x.mq.consumers
    ensures x' == x.(mq := Engaged(x.mq, copy, success, w))
  {
    hide Sound, Unfolds, Refused;
    w := FreshNumber(x.mq.consumers.Keys);
    var m1, m2, m3 := Delivery.Deliver(w, copy), Delivery.StartedCallback(w, true), Delivery.Execute(w, true, success);
    var x1 := MoveOne(c, x, m1);
    var x2 := MoveOne(c, x1, m2);
    x' := MoveOne(c, x2, m3);
    events := [Transport(m1)] + [Transport(m2)] + [Transport(m3)];
    UnfoldsOn(c, x, [Transport(m1)], x1, [Transport(m2)], x2);
    UnfoldsOn(c, x, [Transport(m1)] + [Transport(m2)], x2, [Transport(m3)], x');
    EngagedMoves(x.mq, copy, success, w);
  }

  lemma EngagedMoves(mq: Delivery.System, copy: nat, success: bool, w: nat)
    requires w !in mq.consumers && copy in mq.ready
    ensures var mq1 := Delivery.Apply(mq, Delivery.Deliver(w, copy));
      var mq2 := Delivery.Apply(mq1, Delivery.StartedCallback(w, true));
      Delivery.Apply(mq2, Delivery.Execute(w, true, success)) == Engaged(mq, copy, success, w)
  {
  }

  function Engaged(mq: Delivery.System, copy: nat, success: bool, w: nat): Delivery.System {
    mq.(ready := mq.ready - {copy}, unacked := mq.unacked[mq.tags := copy], tags := mq.tags + 1,
        consumers := mq.consumers[w := Delivery.Executed(mq.tags, copy, success)],
        executed := mq.executed + {Delivery.Outcome(copy, success)})
  }

  /** The same, and then the broker gives the copy to somebody else. */
  lemma Prepare(c: Config, x: Whole, copy: nat, success: bool) returns (events: seq<Happening>, x': Whole)
    requires Sound(c, x) && copy in x.mq.ready && copy in x.jobOf && !Refused(c, x.jobOf[copy])
    ensures Unfolds(c, x, events, x') && Sound(c, x') && Joined(x, x') && HasStand(x', x.jobOf[copy], success)
  {
    hide Sound, Unfolds, Refused;
    var w, x1;
    events, x1, w := Engage(c, x, copy, success);
    var requeue := Delivery.Requeue(x.mq.tags);
    x' := MoveOne(c, x1, requeue);
    UnfoldsOn(c, x, events, x1, [Transport(requeue)], x');
    events := events + [Transport(requeue)];
    TagIsFresh(c, x);
    assert x'.mq.ready == x.mq.ready && x'.mq.unacked == x.mq.unacked;
    assert Stands(x', w, x.jobOf[copy], success);
  }

  lemma TagIsFresh(c: Config, x: Whole)
    requires Sound(c, x)
    ensures x.mq.tags !in x.mq.unacked
  {
  }

  /** Two workers for each of the given waiting jobs. */
  lemma {:induction false} Man(c: Config, x: Whole, keys: set<JobKey>) returns (events: seq<Happening>, x': Whole)
    requires Sound(c, x) && forall key :: key in keys ==> IsWaiting(x, key) && !Refused(c, key)
    ensures Unfolds(c, x, events, x') && Sound(c, x') && Joined(x, x') && Manned(x', keys)
    decreases keys
  {
    hide Sound, Refused, Unfolds;
    if key :| key in keys {
      var copy :| Waits(x, copy, key);
      var e1, x1 := Prepare(c, x, copy, true);
      var e2, x2 := Prepare(c, x1, copy, false);
      UnfoldsOn(c, x, e1, x1, e2, x2);
      JoinedKeeps(x1, x2, {}, {});
      forall other | other in keys ensures IsWaiting(x2, other) {
        var theirs :| Waits(x, theirs, other);
        assert Waits(x2, theirs, other);
      }
      events, x' := Man(c, x2, keys - {key});
      UnfoldsOn(c, x, e1 + e2, x2, events, x');
      JoinedKeeps(x2, x', {}, {});
      events := e1 + e2 + events;
    } else {
      NothingHappens(c, x);
      events, x' := [], x;
    }
  }

  lemma NothingHappens(c: Config, x: Whole)
    ensures Unfolds(c, x, [], x)
  {
  }

  /* One step after the other. */

  /** More is known of the copies and more of them wait; the workers are the same. */
  lemma PostedKeeps(y: Whole, x: Whole, keys: set<JobKey>, accepted: set<JobKey>)
    requires forall copy :: copy in y.jobOf ==> copy in x.jobOf && x.jobOf[copy] == y.jobOf[copy]
    requires y.mq.ready <= x.mq.ready && x.mq.unacked == y.mq.unacked && x.mq.consumers == y.mq.consumers
    ensures forall key, success :: HasStand(y, key, success) ==> HasStand(x, key, success)
    ensures Placed(y, keys, accepted) ==> Placed(x, keys, accepted)
  {
    forall key, success | HasStand(y, key, success) ensures HasStand(x, key, success) {
      var w :| Stands(y, w, key, success);
      assert Stands(x, w, key, success);
    }
    forall key | IsHeld(y, key) ensures IsHeld(x, key) {
      var w :| Holds(y, w, key);
      assert Holds(x, w, key);
    }
    forall key | IsWaiting(y, key) ensures IsWaiting(x, key) {
      var copy :| Waits(y, copy, key);
      assert Waits(x, copy, key);
    }
  }

  lemma OneCopyEach(a: map<nat, JobKey>, b: map<nat, JobKey>)
    requires OneCopy(a) && OneCopy(b) && a.Keys !! b.Keys && a.Values !! b.Values
    ensures OneCopy(a + b)
  {
    var m := a + b;
    forall i, j | i in m && j in m && m[i] == m[j] ensures i == j {
      assert i in a ==> a[i] in a.Values;
      assert j in a ==> a[j] in a.Values;
      assert i in b ==> b[i] in b.Values;
      assert j in b ==> b[j] in b.Values;
    }
  }

  /** What is known of the new run: the new messages are new, and reports are accepted of old ones only. */
  ghost predicate Continues(r: Run, r': Run) {
    SendsNew(r, r') && Flies(r, r') && r.inflight <= r.sent && r'.accepted <= r.sent
  }

  /** The new messages are posted and their workers put in place. */
  lemma Restage(c: Config, x: Whole, y: Whole, copies: map<nat, JobKey>) returns (events: seq<Happening>, x': Whole)
    requires Addressable(c) && OneCopy(x.jobOf) && x.jobOf.Values == x.run.sent && y.jobOf == x.jobOf
    requires Continues(x.run, y.run) && OneCopy(copies) && copies.Keys !! x.jobOf.Keys
    requires copies.Values == y.run.inflight - x.run.inflight
    requires Manned(y, x.run.sent) && Placed(y, x.run.inflight, y.run.accepted)
    requires Sound(c, Whole(y.run, Post(y.mq, copies.Keys), x.jobOf + copies))
    ensures Unfolds(c, Whole(y.run, Post(y.mq, copies.Keys), x.jobOf + copies), events, x')
    ensures Sound(c, x') && Staged(x') && x'.run == y.run
  {
    var x1 := Whole(y.run, Post(y.mq, copies.Keys), x.jobOf + copies);
    var keys := copies.Values;
    hide Sound, Unfolds, Addressable, HasStand, IsWaiting, IsHeld;
    OneCopyEach(x.jobOf, copies);
    PostedKeeps(y, x1, x.run.inflight, y.run.accepted);
    forall key | key in keys ensures IsWaiting(x1, key) && !Refused(c, key) {
      NewIsWaiting(x1, copies, key);
      InFlightIsAddressed(c, x1, key);
    }
    events, x' := Man(c, x1, keys);
    JoinedKeeps(x1, x', y.run.inflight, y.run.accepted);
    assert y.run.inflight <= x.run.inflight + keys && y.run.sent <= x.run.sent + keys;
  }

  lemma NewIsWaiting(x: Whole, copies: map<nat, JobKey>, key: JobKey)
    requires key in copies.Values && copies.Keys <= x.mq.ready
    requires forall copy :: copy in copies ==> copy in x.jobOf && x.jobOf[copy] == copies[copy]
    ensures IsWaiting(x, key)
  {
    var copy :| copy in copies && copies[copy] == key;
    assert Waits(x, copy, key);
  }

  lemma InFlightIsAddressed(c: Config, x: Whole, key: JobKey)
    requires Sound(c, x) && Addressable(c) && key in x.run.inflight
    ensures !Refused(c, key)
  {
    hide InvWith, Settled, Delivery.Inv, Coupled;
    FliesOnlySent(c, x.run);
    SentIsJob(c, x.run, key);
  }

  lemma CoupledNames(x: Whole)
    requires Coupled(x)
    ensures x.jobOf.Keys == x.mq.published && x.jobOf.Values == x.run.sent
  {
  }

  lemma RealizeDispatch(c: Config, x: Whole, step: Step) returns (events: seq<Happening>, x': Whole)
    requires Sound(c, x) && Staged(x) && Addressable(c) && CanStep(x.run, step)
    requires step.StartDispatch? || step.SendNext?
    ensures Unfolds(c, x, events, x') && Sound(c, x') && Staged(x') && x'.run == Apply(c, x.run, step)
  {
    hide InvWith, Settled, Apply, CanStep, Delivery.Inv, Coupled, Unfolds, Addressable, Manned, Placed, OneCopy;
    var run := Apply(c, x.run, step);
    CoupledNames(x);
    var copies := FreshCopies(run.inflight - x.run.inflight, x.mq.published);
    var e := Dispatch(step, copies);
    UnfoldsOne(c, x, e);
    HappeningSound(c, x, e);
    DispatchContinues(c, x.run, step);
    var y := x.(run := run);
    SameMqKeeps(x, y, x.run.sent, x.run.inflight, x.run.accepted);
    events, x' := Restage(c, x, y, copies);
    UnfoldsOn(c, x, [e], Happen(c, x, e), events, x');
    events := [e] + events;
  }

  /** Workers and copies do not depend on the run. */
  lemma SameMqKeeps(x: Whole, y: Whole, sent: set<JobKey>, inflight: set<JobKey>, accepted: set<JobKey>)
    requires y.mq == x.mq && y.jobOf == x.jobOf
    ensures Manned(x, sent) ==> Manned(y, sent)
    ensures Placed(x, inflight, accepted) ==> Placed(y, inflight, accepted)
  {
    PostedKeeps(x, y, inflight, accepted);
  }

  lemma DispatchContinues(c: Config, r: Run, step: Step)
    requires Inv(c, r) && CanStep(r, step) && (step.StartDispatch? || step.SendNext?) && r.accepted <= r.sent
    ensures Continues(r, Apply(c, r, step)) && Apply(c, r, step).accepted == r.accepted
  {
    hide InvWith, Settled, FindReadyStage;
    DispatchSendsNew(c, r, step);
    DispatchFlies(c, r, step);
    FliesOnlySent(c, r);
    if step.StartDispatch? {
      StartFrame(c, r, 0, step.stageWrite);
    }
  }

  /** The run after a callback. */
  ghost function Handled(c: Config, r: Run, key: JobKey, success: bool, f: Faults): Run {
    var (r1, ok) := JobFinished(c, r, key, success, f);
    Accept(r1, key, ok)
  }

  lemma HandledIsApplied(c: Config, r: Run, key: JobKey, success: bool, f: Faults)
    requires key in r.sent
    ensures CanStep(r, Callback(key, success, f))
    ensures Apply(c, r, Callback(key, success, f)) == Handled(c, r, key, success, f)
  {
    hide JobFinished;
  }

  lemma CallbackContinues(c: Config, r: Run, key: JobKey, success: bool, f: Faults)
    requires Inv(c, r) && key in r.sent && r.accepted <= r.sent
    ensures var r' := Handled(c, r, key, success, f);
      && Continues(r, r')
      && r'.accepted == r.accepted + if JobFinished(c, r, key, success, f).1 then {key} else {}
  {
    hide InvWith, Settled, JobFinished;
    CallbackSendsNew(c, r, key, success, f);
    CallbackFlies(c, r, key, success, f);
    HandledIsApplied(c, r, key, success, f);
    FliesOnlySent(c, r);
    CallbackAccepts(c, r, key, success, f);
  }

  lemma CallbackAccepts(c: Config, r: Run, key: JobKey, success: bool, f: Faults)
    ensures JobFinished(c, r, key, success, f).0.accepted == r.accepted
  {
    hide CompleteJob;
    var rows := if key in r.jobRows then r.jobRows[key := JobStatus(success)] else r.jobRows;
    var r1 := r.(jobRows := rows, log := r.log + [Reported(key, success)]);
    if r.live && key.stage in r.stages && key.stage in c.plans {
      CompleteJobAccepts(c, r1, key, f);
    }
  }

  lemma {:induction false} EnqueueAccepts(r: Run, stage: Name, names: seq<Name>, sends: nat)
    ensures EnqueueReady(r, stage, names, sends).0.accepted == r.accepted
    decreases names
  {
    if names != [] && sends > 0 {
      EnqueueAccepts(SendOk(r, JobKey(stage, names[0])), stage, names[1..], sends - 1);
    }
  }

  lemma CompleteJobAccepts(c: Config, r: Run, key: JobKey, f: Faults)
    requires key.stage in r.stages && key.stage in c.plans
    ensures CompleteJob(c, r, key, f).0.accepted == r.accepted
  {
    hide MarkSucceeded, ScanReady;
    var (v, ready) := MarkSucceeded(c.plans[key.stage], r.stages[key.stage], key.job);
    var names := EntryNames(c.plans[key.stage], ready);
    var r1 := r.(stages := r.stages[key.stage := v]);
    EnqueueAccepts(r1, key.stage, names, f.sends);
    var r2 := EnqueueReady(r1, key.stage, names, f.sends).0;
    var r3 := r2.(stageRows := r2.stageRows[key.stage := Success]);
    match NextStage(c.order, key.stage)
    case None =>
    case Some(next) =>
      if next in r3.stages && next in c.plans {
        var (w, more) := ScanReady(r3.stages[next], c.plans[next].jobs);
        EnqueueAccepts(r3.(stages := r3.stages[next := w]), next, more, f.nextSends);
      }
  }

  /** A callback whose answer is not heard: the worker stays as it is. */
  lemma RealizeUnheard(c: Config, x: Whole, key: JobKey, success: bool, f: Faults)
    returns (events: seq<Happening>, x': Whole)
    requires Sound(c, x) && Staged(x) && Addressable(c) && key in x.run.sent
    requires JobFinished(c, x.run, key, success, f).1 && key in x.run.inflight ==> key in x.run.accepted
    ensures Unfolds(c, x, events, x') && Sound(c, x') && Staged(x')
    ensures x'.run == Handled(c, x.run, key, success, f)
  {
    hide InvWith, Settled, Apply, CanStep, JobFinished, Delivery.Inv, Coupled, Unfolds, Addressable, Placed, OneCopy;
    hide Handled;
    HandledIsApplied(c, x.run, key, success, f);
    assert HasStand(x, key, success);
    var w :| Stands(x, w, key, success);
    hide Manned, HasStand;
    var run := Handled(c, x.run, key, success, f);
    CoupledNames(x);
    var copies := FreshCopies(run.inflight - x.run.inflight, x.mq.published);
    var e := Handle(w, f, false, false, copies);
    assert CallbackOf(x, w, f) == Callback(key, success, f);
    UnfoldsOne(c, x, e);
    HappeningSound(c, x, e);
    CallbackContinues(c, x.run, key, success, f);
    var y := x.(run := run);
    SameMqKeeps(x, y, x.run.sent, x.run.inflight, x.run.accepted);
    SamePlaces(y, x.run.inflight, x.run.accepted, run.accepted);
    events, x' := Restage(c, x, y, copies);
    UnfoldsOn(c, x, [e], Happen(c, x, e), events, x');
    events := [e] + events;
  }

  lemma SamePlaces(x: Whole, keys: set<JobKey>, accepted: set<JobKey>, accepted': set<JobKey>)
    requires Placed(x, keys, accepted) && forall key :: key in keys ==> (key in accepted <==> key in accepted')
    ensures Placed(x, keys, accepted')
  {
  }

  /** The broker and the worker after an accepted report that was heard. */
  function Heard(mq: Delivery.System, copy: nat, success: bool, w: nat): Delivery.System {
    var mq1 := Engaged(mq, copy, success, w);
    mq1.(consumers := mq1.consumers[w := Delivery.Reported(mq.tags, copy, success)],
         accepted := mq1.accepted + {Delivery.Outcome(copy, success)})
  }

  /** A callback whose answer is heard for the first time. */
  lemma RealizeHeard(c: Config, x: Whole, key: JobKey, success: bool, f: Faults)
    returns (events: seq<Happening>, x': Whole)
    requires Sound(c, x) && Staged(x) && Addressable(c) && key in x.run.sent
    requires JobFinished(c, x.run, key, success, f).1 && key in x.run.inflight && key !in x.run.accepted
    ensures Unfolds(c, x, events, x') && Sound(c, x') && Staged(x')
    ensures x'.run == Handled(c, x.run, key, success, f)
  {
    hide InvWith, Settled, Apply, CanStep, JobFinished, Delivery.Inv, Coupled, Unfolds, Addressable, Refused;
    hide Handled, Manned, Sound;
    HandledIsApplied(c, x.run, key, success, f);
    assert IsWaiting(x, key);
    var copy :| Waits(x, copy, key);
    InFlightIsAddressed(c, x, key);
    var first, x1, w := Engage(c, x, copy, success);
    var run := Handled(c, x.run, key, success, f);
    SoundNames(c, x);
    var copies := FreshCopies(run.inflight - x.run.inflight, x.mq.published);
    var e := Handle(w, f, true, false, copies);
    assert CallbackOf(x1, w, f) == Callback(key, success, f);
    HappeningSound(c, x1, e);
    UnfoldsOne(c, x1, e);
    UnfoldsOn(c, x, first, x1, [e], Happen(c, x1, e));
    var y := Whole(run, Heard(x.mq, copy, success, w), x.jobOf);
    assert Happen(c, x1, e) == Whole(run, Post(y.mq, copies.Keys), x.jobOf + copies);
    SoundContinues(c, x, key, success, f);
    TagIsFresh(c, x);
    HeardPlaces(x, y, key, copy, success, w);
    var rest;
    rest, x' := Restage(c, x, y, copies);
    UnfoldsOn(c, x, first + [e], Happen(c, x1, e), rest, x');
    events := first + [e] + rest;
  }

  lemma SoundNames(c: Config, x: Whole)
    requires Sound(c, x)
    ensures x.jobOf.Keys == x.mq.published && x.jobOf.Values == x.run.sent
  {
  }

  lemma SoundContinues(c: Config, x: Whole, key: JobKey, success: bool, f: Faults)
    requires Sound(c, x) && key in x.run.sent && x.run.accepted <= x.run.sent
    ensures var r' := Handled(c, x.run, key, success, f);
      && Continues(x.run, r')
      && r'.accepted == x.run.accepted + if JobFinished(c, x.run, key, success, f).1 then {key} else {}
  {
    hide Inv, JobFinished, Handled, Continues;
    CallbackContinues(c, x.run, key, success, f);
  }

  lemma HeardPlaces(x: Whole, y: Whole, key: JobKey, copy: nat, success: bool, w: nat)
    requires Staged(x) && Waits(x, copy, key) && w !in x.mq.consumers && x.mq.tags !in x.mq.unacked
    requires y.jobOf == x.jobOf && y.mq == Heard(x.mq, copy, success, w)
    ensures Manned(y, x.run.sent) && Placed(y, x.run.inflight, x.run.accepted + {key})
  {
    forall k, s | HasStand(x, k, s) ensures HasStand(y, k, s) {
      var v :| Stands(x, v, k, s);
      assert Stands(y, v, k, s);
    }
    assert Holds(y, w, key);
    forall k | k in x.run.inflight && k != key ensures if k in x.run.accepted then IsHeld(y, k) else IsWaiting(y, k) {
      if k in x.run.accepted {
        assert IsHeld(x, k);
        var v :| Holds(x, v, k);
        assert Holds(y, v, k);
      } else {
        assert IsWaiting(x, k);
        var other :| Waits(x, other, k);
        assert Waits(y, other, k);
      }
    }
  }

  /** The worker that was heard acknowledges. */
  lemma RealizeAck(c: Config, x: Whole, key: JobKey) returns (events: seq<Happening>, x': Whole)
    requires Sound(c, x) && Staged(x) && key in x.run.inflight && key in x.run.accepted
    ensures Unfolds(c, x, events, x') && Sound(c, x') && Staged(x')
    ensures x'.run == x.run.(inflight := x.run.inflight - {key})
  {
    hide Sound, Unfolds, Manned, CanHappen, Happen, Delivery.Apply;
    assert IsHeld(x, key);
    var w :| Holds(x, w, key);
    var e := Transport(Delivery.Ack(w, true));
    LetGo(c, x, w, key);
    x' := Happen(c, x, e);
    UnfoldsOne(c, x, e);
    events := [e];
    AckPlaces(x, x', w, key);
  }

  lemma LetGo(c: Config, x: Whole, w: nat, key: JobKey)
    requires Sound(c, x) && OneCopy(x.jobOf) && Holds(x, w, key) && key in x.run.inflight
    ensures CanHappen(c, x, Transport(Delivery.Ack(w, true)))
    ensures var x' := Happen(c, x, Transport(Delivery.Ack(w, true)));
      && Sound(c, x') && x'.mq == Delivery.Apply(x.mq, Delivery.Ack(w, true)) && x'.jobOf == x.jobOf
      && x'.run == x.run.(inflight := x.run.inflight - {key})
  {
    hide Inv, Delivery.TagsOk, Delivery.Honest, Delivery.Conserved, Coupled, OneCopy;
    var ack := Delivery.Ack(w, true);
    HappeningSound(c, x, Transport(ack));
    var acked := TransportAcks(c, x, ack);
    NoCopyLeft(x, w, key);
  }

  lemma NoCopyLeft(x: Whole, w: nat, key: JobKey)
    requires OneCopy(x.jobOf) && Holds(x, w, key) && Delivery.Conserved(x.mq)
    ensures key !in Delivery.InFlight(Delivery.Apply(x.mq, Delivery.Ack(w, true)), x.jobOf)
  {
    var mq := Delivery.Apply(x.mq, Delivery.Ack(w, true));
    var copy, tag := x.mq.consumers[w].copy, x.mq.consumers[w].tag;
    assert copy !in mq.unacked.Values;
    forall other | other in mq.ready + mq.unacked.Values && other in x.jobOf ensures x.jobOf[other] != key {
      assert x.jobOf[other] == key ==> other == copy;
    }
  }

  lemma AckPlaces(x: Whole, x': Whole, w: nat, key: JobKey)
    requires Staged(x) && Holds(x, w, key) && x'.mq == Delivery.Apply(x.mq, Delivery.Ack(w, true))
    requires x'.jobOf == x.jobOf && x'.run == x.run.(inflight := x.run.inflight - {key})
    ensures Staged(x')
  {
    forall k, s | HasStand(x, k, s) ensures HasStand(x', k, s) {
      var v :| Stands(x, v, k, s);
      assert Stands(x', v, k, s);
    }
    forall k | k in x'.run.inflight ensures if k in x'.run.accepted then IsHeld(x', k) else IsWaiting(x', k) {
      if k in x.run.accepted {
        assert IsHeld(x, k);
        var v :| Holds(x, v, k);
        assert Holds(x', v, k);
      } else {
        assert IsWaiting(x, k);
        var other :| Waits(x, other, k);
        assert Waits(x', other, k);
      }
    }
  }

  lemma RealizeStep(c: Config, x: Whole, step: Step) returns (events: seq<Happening>, x': Whole)
    requires Sound(c, x) && Staged(x) && Addressable(c) && CanStep(x.run, step)
    ensures Unfolds(c, x, events, x') && Sound(c, x') && Staged(x') && x'.run == Apply(c, x.run, step)
  {
    hide Sound, Staged, Addressable, Unfolds, JobFinished, Handled, Start, Send;
    match step
    case StartDispatch(_, _) => events, x' := RealizeDispatch(c, x, step);
    case SendNext(_, _) => events, x' := RealizeDispatch(c, x, step);
    case Callback(key, success, f) =>
      HandledIsApplied(c, x.run, key, success, f);
      if JobFinished(c, x.run, key, success, f).1 && key in x.run.inflight && key !in x.run.accepted {
        events, x' := RealizeHeard(c, x, key, success, f);
      } else {
        events, x' := RealizeUnheard(c, x, key, success, f);
      }
    case Ack(key) => events, x' := RealizeAck(c, x, key);
  }

  lemma {:induction false} Realize(c: Config, states: seq<Run>, steps: seq<Step>, i: nat)
    returns (events: seq<Happening>, x: Whole)
    requires ValidConfig(c) && Addressable(c) && IsRun(c, states, steps) && i <= |steps|
    ensures Unfolds(c, Whole(Init(c), Delivery.EMPTY, map[]), events, x)
    ensures Sound(c, x) && Staged(x) && x.run == states[i]
  {
    hide ValidConfig, Addressable, Apply, CanStep, Inv;
    if i == 0 {
      InitHolds(c);
      events, x := [], Whole(Init(c), Delivery.EMPTY, map[]);
    } else {
      hide Sound, Staged, Unfolds;
      var x1, more;
      events, x1 := Realize(c, states, steps, i - 1);
      more, x := RealizeStep(c, x1, steps[i - 1]);
      UnfoldsOn(c, Whole(Init(c), Delivery.EMPTY, map[]), events, x1, more, x);
      events := events + more;
    }
  }

  /** Without blank names, every run of the scheduler is the orchestrator's part of some history. */
  lemma EveryRunHappens(c: Config, states: seq<Run>, steps: seq<Step>) returns (xs: seq<Whole>, events: seq<Happening>)
    requires ValidConfig(c) && Addressable(c) && IsRun(c, states, steps)
    ensures IsHistory(c, xs, events) && xs[|events|].run == states[|steps|]
  {
    hide ValidConfig, Addressable, Apply, CanStep, Sound, Staged, Unfolds, CanHappen, Happen;
    var x;
    events, x := Realize(c, states, steps, |steps|);
    xs := UnfoldsIsHistory(c, Whole(Init(c), Delivery.EMPTY, map[]), events, x);
  }

  /** The run parts of histories are exactly the states of scheduler runs. */
  lemma HistoriesAreRuns(c: Config, r: Run)
    requires ValidConfig(c) && Addressable(c)
    ensures (exists xs: seq<Whole>, events :: IsHistory(c, xs, events) && xs[|events|].run == r) <==>
      exists states, steps :: IsRun(c, states, steps) && states[|steps|] == r
  {
    hide ValidConfig, Addressable, Apply, CanStep, CanHappen, Happen;
    if xs: seq<Whole>, events :| IsHistory(c, xs, events) && xs[|events|].run == r {
      var states, steps := IsSchedulerRun(c, xs, events, |events|);
    }
    if states, steps :| IsRun(c, states, steps) && states[|steps|] == r {
      var xs, events := EveryRunHappens(c, states, steps);
    }
  }
}
