/**
 * Orchestrator, broker and workers together: publishing puts a copy of a job message into the broker, and a worker's
 * report is the callback that the orchestrator handles. Every such run is a run of the scheduler, whose assumptions on
 * callbacks and acknowledgements thereby become facts.
 */
module EndToEnd {
  import opened Models
  import opened Scheduler
  import opened SchedulerInvariant
  import opened SchedulerTheorems
  import opened SchedulerFaults
  import Delivery

  /** `jobOf` says which job a published copy is for. */
  datatype Whole = Whole(run: Run, mq: Delivery.System, jobOf: map<nat, JobKey>)

  /** `copies` are the copies, at least one each, of the messages that the event puts in flight. */
  datatype Happening =
    | Dispatch(send: Step, copies: map<nat, JobKey>)
    | Handle(w: nat, faults: Faults, heard: bool, cancelled: bool, copies: map<nat, JobKey>)
    | Transport(move: Delivery.Step)

  function Post(mq: Delivery.System, copies: set<nat>): Delivery.System {
    mq.(ready := mq.ready + copies, published := mq.published + copies)
  }

  ghost predicate Posted(x: Whole, run: Run, copies: map<nat, JobKey>) {
    copies.Keys !! x.mq.published && copies.Values == run.inflight - x.run.inflight
  }

  /** The callback that the report of worker `w` is. */
  function CallbackOf(x: Whole, w: nat, f: Faults): Step
    requires w in x.mq.consumers && x.mq.consumers[w].Executed? && x.mq.consumers[w].copy in x.jobOf
  {
    Callback(x.jobOf[x.mq.consumers[w].copy], x.mq.consumers[w].success, f)
  }

  /** The started callback is refused for a blank name. */
  ghost predicate StartAdmitted(c: Config, x: Whole, w: nat) {
    w in x.mq.consumers && x.mq.consumers[w].copy in x.jobOf && !Refused(c, x.jobOf[x.mq.consumers[w].copy])
  }

  ghost predicate CanHappen(c: Config, x: Whole, e: Happening) {
    match e
    case Dispatch(step, copies) =>
      (step.StartDispatch? || step.SendNext?) && CanStep(x.run, step) && Posted(x, Apply(c, x.run, step), copies)
    case Handle(w, f, _, _, copies) =>
      && w in x.mq.consumers && x.mq.consumers[w].Executed? && x.mq.consumers[w].copy in x.jobOf
      && CanStep(x.run, CallbackOf(x, w, f)) && Posted(x, Apply(c, x.run, CallbackOf(x, w, f)), copies)
    case Transport(move) =>
      && !move.Publish? && !move.Report? && Delivery.CanStep(x.mq, move)
      && (move.StartedCallback? && move.ok ==> StartAdmitted(c, x, move.w))
  }

  /** A worker learns of an accepted report only if it hears the answer. */
  ghost function Happen(c: Config, x: Whole, e: Happening): Whole
    requires CanHappen(c, x, e)
  {
    match e
    case Dispatch(step, copies) => Whole(Apply(c, x.run, step), Post(x.mq, copies.Keys), x.jobOf + copies)
    case Handle(w, f, heard, cancelled, copies) =>
      var callback := CallbackOf(x, w, f);
      var ok := JobFinished(c, x.run, callback.key, callback.success, f).1;
      var mq := Delivery.Apply(x.mq, Delivery.Report(w, ok && heard, cancelled));
      Whole(Apply(c, x.run, callback), Post(mq, copies.Keys), x.jobOf + copies)
    case Transport(step) =>
      var mq := Delivery.Apply(x.mq, step);
      Whole(x.run.(inflight := Delivery.InFlight(mq, x.jobOf)), mq, x.jobOf)
  }

  ghost predicate IsHistory(c: Config, xs: seq<Whole>, events: seq<Happening>) {
    && |xs| == |events| + 1
    && xs[0] == Whole(Init(c), Delivery.EMPTY, map[])
    && forall i {:trigger events[i]} :: 0 <= i < |events| ==>
      CanHappen(c, xs[i], events[i]) && xs[i + 1] == Happen(c, xs[i], events[i])
  }

  /* What holds between the parts. */

  ghost predicate Coupled(x: Whole) {
    && x.jobOf.Keys == x.mq.published && x.jobOf.Values == x.run.sent
    && x.run.inflight == Delivery.InFlight(x.mq, x.jobOf)
    && (forall w :: w in x.mq.consumers ==> x.mq.consumers[w].copy in x.jobOf)
    && (forall o :: o in x.mq.accepted ==> o.copy in x.jobOf && x.jobOf[o.copy] in x.run.accepted)
  }

  /** A copy is in the queue or unacknowledged exactly when it is published and not gone. */
  lemma InFlightIsNotGone(mq: Delivery.System, jobOf: map<nat, JobKey>)
    requires Delivery.Conserved(mq) && jobOf.Keys == mq.published
    ensures Delivery.InFlight(mq, jobOf) == set copy | copy in mq.published && copy !in mq.gone :: jobOf[copy]
  {
    forall copy ensures copy in mq.ready + mq.unacked.Values <==> copy in mq.published && copy !in mq.gone {
      if copy in mq.unacked.Values {
        var tag :| tag in mq.unacked && mq.unacked[tag] == copy;
      }
    }
  }

  lemma PostKeeps(mq: Delivery.System, copies: set<nat>)
    requires Delivery.Inv(mq) && copies !! mq.published
    ensures Delivery.Inv(Post(mq, copies))
  {
    var mq' := Post(mq, copies);
    forall copy | copy in mq'.gone ensures Delivery.Settled(mq', copy) {
      assert Delivery.Settled(mq, copy);
      var success :| Delivery.Outcome(copy, success) in mq.accepted && Delivery.Outcome(copy, success) in mq.executed;
      assert Delivery.Outcome(copy, success) in mq'.accepted;
    }
    assert forall tag :: tag in mq.unacked ==> mq.unacked[tag] in mq.unacked.Values;
  }

  lemma PostInFlight(mq: Delivery.System, jobOf: map<nat, JobKey>, copies: map<nat, JobKey>)
    requires jobOf.Keys == mq.published && copies.Keys !! mq.published
    requires mq.ready + mq.unacked.Values <= mq.published
    ensures Delivery.InFlight(Post(mq, copies.Keys), jobOf + copies) == Delivery.InFlight(mq, jobOf) + copies.Values
  {
    var now := Delivery.InFlight(Post(mq, copies.Keys), jobOf + copies);
    forall key | key in Delivery.InFlight(mq, jobOf) ensures key in now {
      var copy :| copy in mq.ready + mq.unacked.Values && copy in jobOf && jobOf[copy] == key;
      assert (jobOf + copies)[copy] == key;
    }
    forall key | key in copies.Values ensures key in now {
      var copy :| copy in copies && copies[copy] == key;
      assert (jobOf + copies)[copy] == key;
    }
  }

  lemma ValuesOfUnion(a: map<nat, JobKey>, b: map<nat, JobKey>)
    requires a.Keys !! b.Keys
    ensures (a + b).Values == a.Values + b.Values
  {
    var m := a + b;
    forall key | key in a.Values ensures key in m.Values {
      var copy :| copy in a && a[copy] == key;
      assert m[copy] == key;
    }
    forall key | key in b.Values ensures key in m.Values {
      var copy :| copy in b && b[copy] == key;
      assert m[copy] == key;
    }
  }

  /** The same messages are sent and put in flight. */
  ghost predicate Flies(r: Run, r': Run) {
    && r.sent <= r'.sent && r.inflight <= r'.inflight && r.accepted <= r'.accepted
    && r'.inflight <= r.inflight + r'.sent && r'.sent <= r.sent + r'.inflight
  }

  /** The broker after a publish agrees with the run again. */
  lemma PostCouples(x: Whole, mq: Delivery.System, run: Run, copies: map<nat, JobKey>)
    requires Coupled(x) && x.run.inflight <= x.run.sent && Flies(x.run, run) && Posted(x, run, copies)
    requires mq.published == x.mq.published && mq.ready == x.mq.ready && mq.unacked == x.mq.unacked
    requires mq.ready + mq.unacked.Values <= mq.published
    requires forall w :: w in mq.consumers ==> mq.consumers[w].copy in x.jobOf
    requires forall o :: o in mq.accepted ==> o.copy in x.jobOf && x.jobOf[o.copy] in run.accepted
    ensures Coupled(Whole(run, Post(mq, copies.Keys), x.jobOf + copies))
  {
    ValuesOfUnion(x.jobOf, copies);
    PostInFlight(mq, x.jobOf, copies);
    assert x.jobOf.Values + copies.Values == run.sent;
  }

  lemma {:induction false} EnqueueFlies(r: Run, stage: Name, names: seq<Name>, sends: nat)
    ensures Flies(r, EnqueueReady(r, stage, names, sends).0)
    decreases names
  {
    if names != [] && sends > 0 {
      EnqueueFlies(SendOk(r, JobKey(stage, names[0])), stage, names[1..], sends - 1);
    }
  }

  lemma AdvanceFlies(c: Config, r: Run, stage: Name, f: Faults)
    ensures Flies(r, Advance(c, r, stage, f).0)
  {
    var r1 := r.(stageRows := r.stageRows[stage := Success]);
    match NextStage(c.order, stage)
    case None =>
    case Some(next) =>
      if next in r1.stages && next in c.plans {
        var (v, ready) := Stage.ScanReady(r1.stages[next], c.plans[next].jobs);
        EnqueueFlies(r1.(stages := r1.stages[next := v]), next, ready, f.nextSends);
      }
  }

  lemma CompleteJobFlies(c: Config, r: Run, key: JobKey, f: Faults)
    requires key.stage in r.stages && key.stage in c.plans
    ensures Flies(r, CompleteJob(c, r, key, f).0)
  {
    hide Advance, EnqueueReady;
    var (v, ready) := Stage.MarkSucceeded(c.plans[key.stage], r.stages[key.stage], key.job);
    var r1 := r.(stages := r.stages[key.stage := v]);
    var names := Stage.EntryNames(c.plans[key.stage], ready);
    EnqueueFlies(r1, key.stage, names, f.sends);
    AdvanceFlies(c, EnqueueReady(r1, key.stage, names, f.sends).0, key.stage, f);
  }

  lemma FailRunFlies(r: Run, key: JobKey, f: Faults)
    requires key.stage in r.stages
    ensures Flies(r, FailRun(r, key, f).0)
  {
  }

  lemma CallbackFlies(c: Config, r: Run, key: JobKey, success: bool, f: Faults)
    requires key in r.sent
    ensures Flies(r, Apply(c, r, Callback(key, success, f)))
  {
    hide CompleteJob, FailRun;
    var rows := if key in r.jobRows then r.jobRows[key := JobStatus(success)] else r.jobRows;
    var r1 := r.(jobRows := rows, log := r.log + [Reported(key, success)]);
    if r.live && key.stage in r.stages && key.stage in c.plans {
      CompleteJobFlies(c, r1, key, f);
      FailRunFlies(r1, key, f);
    }
  }

  lemma StartFlies(c: Config, r: Run, stageWrite: bool, runWrite: bool)
    ensures Flies(r, Start(c, r, stageWrite, runWrite))
  {
    hide FindReadyStage;
    StartFrame(c, r, 0, stageWrite);
  }

  lemma SendFlies(r: Run, sendOk: bool, runWrite: bool)
    requires r.dispatch.Sending? && r.dispatch.rest != []
    ensures Flies(r, Send(r, sendOk, runWrite))
  {
  }

  lemma DispatchFlies(c: Config, r: Run, step: Step)
    requires CanStep(r, step) && (step.StartDispatch? || step.SendNext?)
    ensures Flies(r, Apply(c, r, step))
  {
    hide Flies, Start, Send;
    match step
    case StartDispatch(stageWrite, runWrite) => StartFlies(c, r, stageWrite, runWrite);
    case SendNext(sendOk, runWrite) => SendFlies(r, sendOk, runWrite);
  }

  /* Every history is a run of the scheduler. */

  ghost predicate Sound(c: Config, x: Whole) {
    Inv(c, x.run) && Delivery.Inv(x.mq) && Coupled(x)
  }

  lemma FliesOnlySent(c: Config, r: Run)
    requires InvWith(c, r, {})
    ensures r.inflight <= r.sent
  {
  }

  lemma DispatchSound(c: Config, x: Whole, send: Step, copies: map<nat, JobKey>)
    requires Sound(c, x) && CanHappen(c, x, Dispatch(send, copies))
    ensures Sound(c, Happen(c, x, Dispatch(send, copies)))
  {
    hide InvWith, Settled, Apply, CanStep, Coupled;
    StepKeeps(c, x.run, send);
    DispatchFlies(c, x.run, send);
    FliesOnlySent(c, x.run);
    PostKeeps(x.mq, copies.Keys);
    CoupledFacts(x);
    PostCouples(x, x.mq, Apply(c, x.run, send), copies);
  }

  lemma CoupledFacts(x: Whole)
    requires Coupled(x)
    ensures forall w :: w in x.mq.consumers ==> x.mq.consumers[w].copy in x.jobOf
    ensures forall o :: o in x.mq.accepted ==> o.copy in x.jobOf && x.jobOf[o.copy] in x.run.accepted
  {
  }

  lemma HandleSound(c: Config, x: Whole, e: Happening)
    requires Sound(c, x) && e.Handle? && CanHappen(c, x, e)
    ensures Sound(c, Happen(c, x, e))
  {
    hide InvWith, Settled, JobFinished, Coupled, Delivery.Conserved, Delivery.TagsOk, Delivery.Honest;
    var callback := CallbackOf(x, e.w, e.faults);
    StepKeeps(c, x.run, callback);
    CallbackFlies(c, x.run, callback.key, callback.success, e.faults);
    FliesOnlySent(c, x.run);
    var ok := JobFinished(c, x.run, callback.key, callback.success, e.faults).1;
    var report := Delivery.Report(e.w, ok && e.heard, e.cancelled);
    var mq := Delivery.Apply(x.mq, report);
    Delivery.ConservedStep(x.mq, report);
    Delivery.TagsStep(x.mq, report);
    Delivery.HonestStep(x.mq, report);
    PostKeeps(mq, e.copies.Keys);
    CoupledFacts(x);
    InsidePublished(mq);
    PostCouples(x, mq, Apply(c, x.run, callback), e.copies);
  }

  lemma InsidePublished(mq: Delivery.System)
    requires Delivery.Conserved(mq)
    ensures mq.ready + mq.unacked.Values <= mq.published
  {
  }

  /** Transport leaves the run as it is, or is the scheduler's acknowledgement of a reported job. */
  lemma TransportAcks(c: Config, x: Whole, move: Delivery.Step) returns (acked: Option<JobKey>)
    requires Sound(c, x) && CanHappen(c, x, Transport(move))
    ensures var run := Happen(c, x, Transport(move)).run;
      match acked
      case None => run == x.run
      case Some(key) => CanStep(x.run, Ack(key)) && run == Apply(c, x.run, Ack(key))
  {
    hide InvWith, Settled, Delivery.TagsOk, Delivery.Conserved;
    var mq := Delivery.Apply(x.mq, move);
    Delivery.ConservedStep(x.mq, move);
    InFlightIsNotGone(x.mq, x.jobOf);
    InFlightIsNotGone(mq, x.jobOf);
    hide Delivery.InFlight;
    if Delivery.InFlight(mq, x.jobOf) == x.run.inflight {
      acked := None;
    } else {
      var key := LastCopy(x, move);
      acked := Some(key);
    }
  }

  /** At most one job leaves, and its report was accepted. */
  lemma LastCopy(x: Whole, move: Delivery.Step) returns (key: JobKey)
    requires Delivery.Inv(x.mq) && Coupled(x) && Delivery.CanStep(x.mq, move)
    requires Delivery.InFlight(Delivery.Apply(x.mq, move), x.jobOf) < x.run.inflight
    ensures key in x.run.inflight && key in x.run.accepted
    ensures Delivery.InFlight(Delivery.Apply(x.mq, move), x.jobOf) == x.run.inflight - {key}
  {
    hide Delivery.InFlight, Delivery.Inv, Delivery.Apply, Delivery.CanStep;
    var mq := Delivery.Apply(x.mq, move);
    key :| key in x.run.inflight && key !in Delivery.InFlight(mq, x.jobOf);
    var outcome := Delivery.OnlyReportedJobLeaves(x.mq, move, x.jobOf, key);
    forall other | other in x.run.inflight && other != key ensures other in Delivery.InFlight(mq, x.jobOf) {
      if other !in Delivery.InFlight(mq, x.jobOf) {
        var same := Delivery.OnlyReportedJobLeaves(x.mq, move, x.jobOf, other);
        assert false;
      }
    }
  }

  lemma TransportSound(c: Config, x: Whole, move: Delivery.Step)
    requires Sound(c, x) && CanHappen(c, x, Transport(move))
    ensures Sound(c, Happen(c, x, Transport(move)))
  {
    var acked := TransportAcks(c, x, move);
    hide InvWith, Settled, Apply, CanStep, Delivery.InFlight, Delivery.Conserved, Delivery.TagsOk, Delivery.Honest;
    if acked.Some? {
      StepKeeps(c, x.run, Ack(acked.value));
    }
    Delivery.ConservedStep(x.mq, move);
    Delivery.TagsStep(x.mq, move);
    Delivery.HonestStep(x.mq, move);
    TransportCouples(c, x, move);
  }

  lemma TransportCouples(c: Config, x: Whole, move: Delivery.Step)
    requires Coupled(x) && Delivery.Conserved(x.mq) && CanHappen(c, x, Transport(move))
    ensures Coupled(Happen(c, x, Transport(move)))
  {
    hide Delivery.InFlight;
    InsidePublished(x.mq);
  }

  lemma HappeningSound(c: Config, x: Whole, e: Happening)
    requires Sound(c, x) && CanHappen(c, x, e)
    ensures Sound(c, Happen(c, x, e))
  {
    hide Sound, CanHappen, Happen;
    match e
    case Dispatch(send, copies) => DispatchSound(c, x, send, copies);
    case Handle(_, _, _, _, _) => HandleSound(c, x, e);
    case Transport(move) => TransportSound(c, x, move);
  }

  lemma {:induction false} SoundThroughout(c: Config, xs: seq<Whole>, events: seq<Happening>, i: nat)
    requires ValidConfig(c) && IsHistory(c, xs, events) && i <= |events|
    ensures Sound(c, xs[i])
  {
    hide ValidConfig, Inv, CanHappen, Happen;
    if i == 0 {
      InitHolds(c);
    } else {
      hide Sound;
      SoundThroughout(c, xs, events, i - 1);
      HappeningSound(c, xs[i - 1], events[i - 1]);
    }
  }

  /** The scheduler's part of a history, with stuttering left out. */
  lemma {:induction false} IsSchedulerRun(c: Config, xs: seq<Whole>, events: seq<Happening>, i: nat)
    returns (states: seq<Run>, steps: seq<Step>)
    requires ValidConfig(c) && IsHistory(c, xs, events) && i <= |events|
    ensures IsRun(c, states, steps) && |states| == |steps| + 1 && states[|steps|] == xs[i].run
  {
    hide ValidConfig, Sound, CanHappen, Happen, IsRun, Init, Apply, CanStep;
    if i == 0 {
      EmptyRun(c);
      states, steps := [Init(c)], [];
    } else {
      states, steps := IsSchedulerRun(c, xs, events, i - 1);
      SoundThroughout(c, xs, events, i - 1);
      var step := StepOf(c, xs[i - 1], events[i - 1]);
      if step.Some? {
        states, steps := ExtendRun(c, states, steps, step.value);
      }
    }
  }

  lemma EmptyRun(c: Config)
    ensures IsRun(c, [Init(c)], [])
  {
  }

  lemma StepOf(c: Config, x: Whole, e: Happening) returns (step: Option<Step>)
    requires Sound(c, x) && CanHappen(c, x, e)
    ensures match step
      case None => Happen(c, x, e).run == x.run
      case Some(s) => CanStep(x.run, s) && Happen(c, x, e).run == Apply(c, x.run, s)
  {
    hide Sound, Apply, CanStep;
    match e
    case Dispatch(send, copies) => step := Some(send);
    case Handle(w, f, _, _, _) => step := Some(CallbackOf(x, w, f));
    case Transport(move) =>
      var acked := TransportAcks(c, x, move);
      step := if acked.Some? then Some(Ack(acked.value)) else None;
  }

  /** A report of a worker is always a callback that the scheduler admits: its message was sent. */
  lemma ReportsAreCallbacks(c: Config, xs: seq<Whole>, events: seq<Happening>, i: nat, w: nat, f: Faults)
    requires ValidConfig(c) && IsHistory(c, xs, events) && i <= |events|
    requires w in xs[i].mq.consumers && xs[i].mq.consumers[w].Executed?
    ensures xs[i].mq.consumers[w].copy in xs[i].jobOf && CanStep(xs[i].run, CallbackOf(xs[i], w, f))
  {
    hide ValidConfig, Inv, CanHappen, Happen, Delivery.Inv;
    SoundThroughout(c, xs, events, i);
  }

  /** No stuck run, in terms of the broker: a live run that can still be completed, with start dispatch over, has a
      copy in the queue or unacknowledged, of a message whose job has no accepted report. */
  lemma NoStuckHistory(c: Config, xs: seq<Whole>, events: seq<Happening>, i: nat) returns (copy: nat)
    requires ValidConfig(c) && IsHistory(c, xs, events) && i <= |events|
    requires xs[i].run.live && xs[i].run.dispatch.Finished? && Completable(c, xs[i].run)
    ensures copy in xs[i].mq.ready || copy in xs[i].mq.unacked.Values
    ensures copy in xs[i].jobOf && xs[i].jobOf[copy] in xs[i].run.sent && xs[i].jobOf[copy] !in xs[i].run.accepted
  {
    hide ValidConfig, InvWith, Settled, CanHappen, Happen, Completable, Delivery.Inv;
    SoundThroughout(c, xs, events, i);
    var x := xs[i];
    var key := OutstandingReport(c, x.run);
    StillInFlight(c, x.run, key);
    copy :| copy in x.mq.ready + x.mq.unacked.Values && copy in x.jobOf && x.jobOf[copy] == key;
  }
}
