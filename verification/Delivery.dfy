/**
 * Job messages between broker and workers: manual acknowledgement (basic.ack, section 1.8.3.13 of the AMQP 0-9-1
 * reference), the consume loop of internal/mq and the worker's report-until-accepted loop, with connections that fail
 * at any time.
 */
module Delivery {

  /* The worker, as the handler of one delivery. */

  const MAX_RETRY_DELAY := 30
  const DEFAULT_RETRY_DELAY := 1

  function NextDelay(delay: int): int {
    if delay >= MAX_RETRY_DELAY then delay
    else if 2 * delay > MAX_RETRY_DELAY then MAX_RETRY_DELAY else 2 * delay
  }

  /** The pause before the i-th repetition. */
  function Delay(initial: int, i: nat): int {
    if i == 0 then if initial <= 0 then DEFAULT_RETRY_DELAY else initial else NextDelay(Delay(initial, i - 1))
  }

  /** The pauses of `calls` refused callbacks, the first of them first. */
  function Delays(initial: int, calls: nat): seq<int> {
    seq(calls, i requires 0 <= i => Delay(initial, i))
  }

  lemma DelaysStep(initial: int, calls: nat)
    ensures Delays(initial, calls + 1) == Delays(initial, calls) + [Delay(initial, calls)]
    ensures Delay(initial, calls + 1) == NextDelay(Delay(initial, calls))
  {
  }

  /**
   * reportJobFinishedUntilSuccess: `accepts[k]` is the outcome of the k-th callback, and the pause after the last of
   * them is the first one that the context cuts short.
   */
  method ReportUntilSuccess(initial: int, accepts: seq<bool>) returns (ok: bool, calls: nat, delays: seq<int>)
    requires accepts != []
    ensures 0 < calls <= |accepts| && ok == accepts[calls - 1] && (!ok ==> calls == |accepts|)
    ensures forall k :: 0 <= k < calls - 1 ==> !accepts[k]
    ensures delays == Delays(initial, if ok then calls - 1 else calls)
  {
    var retryDelay := if initial <= 0 then DEFAULT_RETRY_DELAY else initial;
    assert retryDelay == Delay(initial, 0);
    assert Delays(initial, 0) == [];
    hide Delay, Delays, NextDelay;
    calls, delays, ok := 0, [], false;
    while !ok && calls < |accepts|
      invariant calls <= |accepts| && (ok ==> 0 < calls && accepts[calls - 1])
      invariant forall k :: 0 <= k < (if ok then calls - 1 else calls) ==> !accepts[k]
      invariant delays == Delays(initial, if ok then calls - 1 else calls)
      invariant !ok ==> retryDelay == Delay(initial, calls)
      decreases |accepts| - calls
    {
      ok := accepts[calls];
      if !ok {
        delays := delays + [retryDelay];
        DelaysStep(initial, calls);
        retryDelay := BackOff(retryDelay);
      }
      calls := calls + 1;
    }
  }

  /** A positive pause grows, until it has reached thirty seconds. */
  method BackOff(delay: int) returns (next: int)
    ensures next == NextDelay(delay)
    ensures 0 < delay < MAX_RETRY_DELAY ==> delay < next <= MAX_RETRY_DELAY
    ensures delay >= MAX_RETRY_DELAY ==> next == delay
  {
    next := delay;
    if next < MAX_RETRY_DELAY {
      next := 2 * next;
      if next > MAX_RETRY_DELAY {
        next := MAX_RETRY_DELAY;
      }
    }
  }

  /** The pauses never shrink, and never exceed the larger of the start value and thirty seconds. */
  lemma {:induction false} DelaysGrowToCap(initial: int, i: nat)
    ensures 0 < Delay(initial, i) <= Delay(initial, i + 1)
    ensures Delay(initial, i) <= if initial > MAX_RETRY_DELAY then initial else MAX_RETRY_DELAY
  {
    if i > 0 {
      DelaysGrowToCap(initial, i - 1);
    }
  }

  function Power(n: nat): nat {
    if n == 0 then 1 else 2 * Power(n - 1)
  }

  ghost function Doubled(initial: int, i: nat): int {
    initial * Power(i)
  }

  lemma DoubledStep(initial: int, i: nat)
    ensures Doubled(initial, 0) == initial && Doubled(initial, i + 1) == 2 * Doubled(initial, i)
  {
    var power := Power(i);
    assert initial * (2 * power) == 2 * (initial * power);
  }

  /** Closed form: doubled from the start value and cut off at thirty seconds; a larger start value is kept, and one
      that is not positive counts as one second. */
  lemma {:induction false} DelayIs(initial: int, i: nat)
    ensures initial > MAX_RETRY_DELAY ==> Delay(initial, i) == initial
    ensures 0 < initial <= MAX_RETRY_DELAY ==>
      Delay(initial, i) == if Doubled(initial, i) < MAX_RETRY_DELAY then Doubled(initial, i) else MAX_RETRY_DELAY
    ensures initial <= 0 ==> Delay(initial, i) == Delay(1, i)
  {
    hide Doubled;
    DoubledStep(initial, if i > 0 then i - 1 else 0);
    if i > 0 {
      DelayIs(initial, i - 1);
    }
  }

  /**
   * handleJobMessage: nil, and with it the acknowledgement, only once the status of the execution was accepted.
   * `accepts` are the outcomes of the finished callbacks until the context is cancelled.
   */
  method HandleJobMessage(started: bool, docker: bool, execution: bool, accepts: seq<bool>)
    returns (handled: bool, reported: seq<bool>)
    requires accepts != []
    ensures handled <==> started && docker && true in accepts
    ensures forall status :: status in reported ==> status == execution
    ensures reported == [] <==> !started || !docker
    ensures |reported| <= |accepts| && forall k :: 0 <= k < |reported| - 1 ==> !accepts[k]
    ensures handled ==> reported != [] && accepts[|reported| - 1]
    ensures started && docker && !handled ==> |reported| == |accepts|
  {
    reported := [];
    if !started || !docker {
      return false, reported;
    }
    var calls, delays;
    handled, calls, delays := ReportUntilSuccess(DEFAULT_RETRY_DELAY, accepts);
    reported := seq(calls, _ => execution);
  }

  /* Broker and workers together. */

  /** Where a consumer is with the delivery `tag` of message `copy`. */
  datatype Phase =
    | Received(tag: nat, copy: nat)
    | Started(tag: nat, copy: nat)
    | Executed(tag: nat, copy: nat, success: bool)
    | Reported(tag: nat, copy: nat, success: bool)   // the handler returned nil
    | Failing(tag: nat, copy: nat)                   // the handler returned an error

  /** A status, for one published copy of a job message. */
  datatype Outcome = Outcome(copy: nat, success: bool)

  datatype System = System(
    ready: set<nat>,                 // copies waiting in the queue
    unacked: map<nat, nat>,          // delivery tag to copy
    tags: nat,                       // delivery tags used so far
    consumers: map<nat, Phase>,      // the consumers that are handling a delivery
    // history
    published: set<nat>,
    executed: set<Outcome>,          // how executions ended
    accepted: set<Outcome>,          // the finished callbacks that returned without error
    gone: set<nat>)                  // copies the broker has forgotten

  const EMPTY := System({}, map[], 0, map[], {}, {}, {}, {})

  datatype Step =
    | Publish(copy: nat)
    | Deliver(w: nat, copy: nat)
    | StartedCallback(w: nat, ok: bool)                  // decoding and the job-started callback
    | Execute(w: nat, docker: bool, success: bool)
    | Report(w: nat, ok: bool, cancelled: bool)          // one round of the report loop
    | Ack(w: nat, arrived: bool)                         // an ack can get lost with its channel
    | Nack(w: nat, arrived: bool)
    | Requeue(tag: nat)                                  // the broker gives up on a delivery whose channel is gone
    | Crash(w: nat)                                      // the consumer stops or reconnects

  predicate CanStep(s: System, step: Step) {
    match step
    case Publish(copy) => copy !in s.published
    case Deliver(w, copy) => w !in s.consumers && copy in s.ready
    case StartedCallback(w, _) => w in s.consumers && s.consumers[w].Received?
    case Execute(w, _, _) => w in s.consumers && s.consumers[w].Started?
    case Report(w, _, _) => w in s.consumers && s.consumers[w].Executed?
    case Ack(w, _) => w in s.consumers && s.consumers[w].Reported?
    case Nack(w, _) => w in s.consumers && s.consumers[w].Failing?
    case Requeue(tag) => tag in s.unacked
    case Crash(w) => w in s.consumers
  }

  function Apply(s: System, step: Step): System
    requires CanStep(s, step)
  {
    match step
    case Publish(copy) => s.(ready := s.ready + {copy}, published := s.published + {copy})
    case Deliver(w, copy) =>
      s.(ready := s.ready - {copy}, unacked := s.unacked[s.tags := copy], tags := s.tags + 1,
         consumers := s.consumers[w := Received(s.tags, copy)])
    case StartedCallback(w, ok) =>
      var c := s.consumers[w];
      s.(consumers := s.consumers[w := if ok then Started(c.tag, c.copy) else Failing(c.tag, c.copy)])
    case Execute(w, docker, success) =>
      var c := s.consumers[w];
      if !docker then s.(consumers := s.consumers[w := Failing(c.tag, c.copy)]) else
      s.(consumers := s.consumers[w := Executed(c.tag, c.copy, success)],
         executed := s.executed + {Outcome(c.copy, success)})
    case Report(w, ok, cancelled) =>
      var c := s.consumers[w];
      if ok then
        s.(consumers := s.consumers[w := Reported(c.tag, c.copy, c.success)],
           accepted := s.accepted + {Outcome(c.copy, c.success)})
      else if cancelled then s.(consumers := s.consumers[w := Failing(c.tag, c.copy)])
      else s
    case Ack(w, arrived) =>
      var c := s.consumers[w];
      var s1 := s.(consumers := s.consumers - {w});
      if arrived && c.tag in s.unacked then s1.(unacked := s.unacked - {c.tag}, gone := s.gone + {c.copy}) else s1
    case Nack(w, arrived) =>
      var c := s.consumers[w];
      var s1 := s.(consumers := s.consumers - {w});
      if !arrived || c.tag !in s.unacked then s1 else
      s1.(unacked := s.unacked - {c.tag}, ready := s.ready + {s.unacked[c.tag]})
    case Requeue(tag) => s.(unacked := s.unacked - {tag}, ready := s.ready + {s.unacked[tag]})
    case Crash(w) => s.(consumers := s.consumers - {w})
  }

  ghost predicate IsRun(states: seq<System>, steps: seq<Step>) {
    && |states| == |steps| + 1
    && states[0] == EMPTY
    && forall i {:trigger steps[i]} :: 0 <= i < |steps| ==>
      CanStep(states[i], steps[i]) && states[i + 1] == Apply(states[i], steps[i])
  }

  /** Every published copy is in exactly one place: the queue, one unacknowledged delivery, or gone. */
  ghost predicate Conserved(s: System) {
    && s.published == s.ready + s.unacked.Values + s.gone
    && s.ready !! s.gone
    && (forall tag :: tag in s.unacked ==> s.unacked[tag] !in s.ready && s.unacked[tag] !in s.gone)
    && (forall a, b :: a in s.unacked && b in s.unacked && a != b ==> s.unacked[a] != s.unacked[b])
  }

  ghost predicate TagsOk(s: System) {
    && (forall tag :: tag in s.unacked ==> tag < s.tags)
    && (forall w :: w in s.consumers ==> s.consumers[w].tag < s.tags)
    && (forall w :: w in s.consumers && s.consumers[w].tag in s.unacked ==>
      s.unacked[s.consumers[w].tag] == s.consumers[w].copy)
  }

  ghost predicate Honest(s: System) {
    && s.accepted <= s.executed
    && (forall w :: w in s.consumers && s.consumers[w].Executed? ==>
      Outcome(s.consumers[w].copy, s.consumers[w].success) in s.executed)
    && (forall w :: w in s.consumers && s.consumers[w].Reported? ==>
      Outcome(s.consumers[w].copy, s.consumers[w].success) in s.accepted)
    && (forall copy :: copy in s.gone ==> Settled(s, copy))
  }

  /** A finished callback for the copy was accepted, and it carried the status of an execution of that copy. */
  ghost predicate Settled(s: System, copy: nat) {
    exists success :: Outcome(copy, success) in s.accepted && Outcome(copy, success) in s.executed
  }

  ghost predicate Inv(s: System) {
    Conserved(s) && TagsOk(s) && Honest(s)
  }

  lemma ConservedStep(s: System, step: Step)
    requires Conserved(s) && TagsOk(s) && CanStep(s, step)
    ensures Conserved(Apply(s, step))
  {
    var s' := Apply(s, step);
    match step
    case Deliver(w, copy) =>
      assert copy in s'.unacked.Values by { assert s'.unacked[s.tags] == copy; }
      ValuesAdded(s.unacked, s.tags, copy);
    case Ack(w, arrived) =>
      var tag := s.consumers[w].tag;
      if tag in s.unacked { ValuesRemoved(s.unacked, tag); }
    case Nack(w, arrived) =>
      var tag := s.consumers[w].tag;
      if tag in s.unacked { ValuesRemoved(s.unacked, tag); }
    case Requeue(tag) => ValuesRemoved(s.unacked, tag);
    case _ =>
  }

  /** A nack that arrives on a live tag puts the copy back in the queue; a lost one, or one on a dead tag, leaves the
      broker as it was. */
  lemma NackRequeues(s: System, w: nat, arrived: bool)
    requires CanStep(s, Nack(w, arrived))
    ensures var c, s' := s.consumers[w], Apply(s, Nack(w, arrived));
      && s' == s.(consumers := s.consumers - {w}, ready := s'.ready, unacked := s'.unacked)
      && (arrived && c.tag in s.unacked ==>
        s'.ready == s.ready + {s.unacked[c.tag]} && s'.unacked == s.unacked - {c.tag})
      && (!arrived || c.tag !in s.unacked ==> s'.ready == s.ready && s'.unacked == s.unacked)
  {
  }

  /** An acknowledgement that arrives on a live tag makes the copy leave; otherwise the broker stays as it was. */
  lemma AckForgets(s: System, w: nat, arrived: bool)
    requires CanStep(s, Ack(w, arrived))
    ensures var c, s' := s.consumers[w], Apply(s, Ack(w, arrived));
      && s' == s.(consumers := s.consumers - {w}, gone := s'.gone, unacked := s'.unacked)
      && (arrived && c.tag in s.unacked ==> s'.gone == s.gone + {c.copy} && s'.unacked == s.unacked - {c.tag})
      && (!arrived || c.tag !in s.unacked ==> s'.gone == s.gone && s'.unacked == s.unacked)
  {
  }

  /** A consumer that stops leaves its delivery unacknowledged, until the broker gives it to somebody else. */
  lemma CrashKeepsDelivery(s: System, w: nat, tag: nat)
    ensures CanStep(s, Crash(w)) ==> Apply(s, Crash(w)) == s.(consumers := s.consumers - {w})
    ensures CanStep(s, Requeue(tag)) ==>
      Apply(s, Requeue(tag)) == s.(ready := s.ready + {s.unacked[tag]}, unacked := s.unacked - {tag})
  {
  }

  /* The steps of a consumer are those of the handler. */

  /** What a consumer does with a delivery when the outcomes are as in HandleJobMessage. */
  function HandlerSteps(w: nat, started: bool, docker: bool, execution: bool, reports: seq<Step>): seq<Step> {
    if !started then [StartedCallback(w, false)]
    else if !docker then [StartedCallback(w, true), Execute(w, false, execution)]
    else [StartedCallback(w, true), Execute(w, true, execution)] + reports
  }

  /** Refused reports, and then one that is accepted or the last before the context ends. */
  ghost predicate IsReporting(w: nat, accepts: seq<bool>, reports: seq<Step>) {
    && 0 < |reports| <= |accepts|
    && (forall k :: 0 <= k < |reports| ==> reports[k] == Report(w, accepts[k], k == |accepts| - 1))
    && (forall k :: 0 <= k < |reports| - 1 ==> !accepts[k])
    && (accepts[|reports| - 1] || |reports| == |accepts|)
  }

  ghost predicate Runs(s: System, steps: seq<Step>, s': System)
    decreases steps
  {
    if steps == [] then s == s' else CanStep(s, steps[0]) && Runs(Apply(s, steps[0]), steps[1..], s')
  }

  /** Where the consumer is after the handler has returned, and what was accepted on the way. */
  ghost predicate Returned(s: System, s': System, w: nat, execution: bool, executed: bool, handled: bool) {
    w in s.consumers && w in s'.consumers &&
    var tag, copy := s.consumers[w].tag, s.consumers[w].copy;
    && s'.consumers[w] == (if handled then Reported(tag, copy, execution) else Failing(tag, copy))
    && s'.executed == s.executed + (if executed then {Outcome(copy, execution)} else {})
    && s'.accepted == s.accepted + (if handled then {Outcome(copy, execution)} else {})
    && s'.ready == s.ready && s'.unacked == s.unacked && s'.gone == s.gone && s'.published == s.published
  }

  lemma {:induction false} ReportingReturns(s: System, w: nat, execution: bool, accepts: seq<bool>, reports: seq<Step>)
    returns (s': System)
    requires w in s.consumers && s.consumers[w].Executed? && s.consumers[w].success == execution
    requires IsReporting(w, accepts, reports)
    ensures Runs(s, reports, s') && Returned(s, s', w, execution, false, accepts[|reports| - 1])
    decreases reports
  {
    var s1 := Apply(s, reports[0]);
    if |reports| == 1 {
      s' := s1;
      assert reports[1..] == [];
    } else {
      assert s1 == s;
      s' := ReportingReturns(s, w, execution, accepts[1..], reports[1..]);
    }
  }

  /** The handler started on a delivery comes back as the method says: acknowledging exactly if a report was
      accepted. */
  lemma HandlerReturns(s: System, w: nat, started: bool, docker: bool, execution: bool, accepts: seq<bool>,
                       reports: seq<Step>)
    returns (s': System)
    requires w in s.consumers && s.consumers[w].Received? && IsReporting(w, accepts, reports)
    ensures Runs(s, HandlerSteps(w, started, docker, execution, reports), s')
    ensures Returned(s, s', w, execution, started && docker, started && docker && true in accepts)
  {
    var s1 := Apply(s, StartedCallback(w, started));
    if !started {
      s' := s1;
      assert HandlerSteps(w, started, docker, execution, reports)[1..] == [];
    } else {
      var s2 := Apply(s1, Execute(w, docker, execution));
      if !docker {
        s' := s2;
        var steps := HandlerSteps(w, started, docker, execution, reports);
        assert steps[1..] == [Execute(w, false, execution)] && steps[1..][1..] == [];
      } else {
        s' := ReportingReturns(s2, w, execution, accepts, reports);
        var steps := HandlerSteps(w, started, docker, execution, reports);
        assert steps[1..] == [Execute(w, true, execution)] + reports && steps[1..][1..] == reports;
        AcceptedIsLast(w, accepts, reports);
      }
    }
  }

  lemma AcceptedIsLast(w: nat, accepts: seq<bool>, reports: seq<Step>)
    requires IsReporting(w, accepts, reports)
    ensures accepts[|reports| - 1] <==> true in accepts
  {
    if true in accepts {
      var k :| 0 <= k < |accepts| && accepts[k];
      assert k >= |reports| - 1;
    }
  }

  lemma ValuesAdded(m: map<nat, nat>, tag: nat, copy: nat)
    requires tag !in m
    ensures m[tag := copy].Values == m.Values + {copy}
  {
    var m' := m[tag := copy];
    forall v | v in m.Values ensures v in m'.Values {
      var t :| t in m && m[t] == v;
      assert m'[t] == v;
    }
    assert m'[tag] == copy;
  }

  lemma ValuesRemoved(m: map<nat, nat>, tag: nat)
    requires tag in m && forall a, b :: a in m && b in m && a != b ==> m[a] != m[b]
    ensures (m - {tag}).Values == m.Values - {m[tag]}
  {
    var m' := m - {tag};
    forall v | v in m.Values && v != m[tag] ensures v in m'.Values {
      var t :| t in m && m[t] == v;
      assert m'[t] == v;
    }
  }

  lemma TagsStep(s: System, step: Step)
    requires TagsOk(s) && CanStep(s, step)
    ensures TagsOk(Apply(s, step))
  {
  }

  lemma HonestStep(s: System, step: Step)
    requires Honest(s) && CanStep(s, step)
    ensures Honest(Apply(s, step))
  {
    var s' := Apply(s, step);
    forall copy | copy in s'.gone ensures Settled(s', copy) {
      if copy in s.gone {
        var success :| Outcome(copy, success) in s.accepted && Outcome(copy, success) in s.executed;
        assert Outcome(copy, success) in s'.accepted;
      } else {
        assert Outcome(copy, s.consumers[step.w].success) in s'.accepted;
      }
    }
  }

  lemma {:induction false} InvariantThroughout(states: seq<System>, steps: seq<Step>, i: nat)
    requires IsRun(states, steps) && i <= |steps|
    ensures Inv(states[i])
  {
    if i > 0 {
      hide Apply, CanStep, Conserved, TagsOk, Honest;
      InvariantThroughout(states, steps, i - 1);
      ConservedStep(states[i - 1], steps[i - 1]);
      TagsStep(states[i - 1], steps[i - 1]);
      HonestStep(states[i - 1], steps[i - 1]);
    }
  }

  /** Delivery conservation: a published copy is in the queue or unacknowledged until a callback with the status of its
      execution has been accepted. */
  lemma LeavesOnlyAfterAcceptedReport(states: seq<System>, steps: seq<Step>, i: nat, copy: nat)
    requires IsRun(states, steps) && i <= |steps| && copy in states[i].published
    ensures copy in states[i].ready || copy in states[i].unacked.Values || Settled(states[i], copy)
    ensures copy in states[i].gone ==> Settled(states[i], copy)
  {
    hide Apply, CanStep;
    InvariantThroughout(states, steps, i);
  }

  /** It never comes back, and it is never in two places. */
  lemma {:induction false} GoneForGood(states: seq<System>, steps: seq<Step>, i: nat, j: nat, copy: nat)
    requires IsRun(states, steps) && i <= j <= |steps| && copy in states[i].gone
    ensures copy in states[j].gone && copy !in states[j].ready && copy !in states[j].unacked.Values
    decreases j
  {
    InvariantThroughout(states, steps, j);
    if i < j {
      GoneForGood(states, steps, i, j - 1, copy);
      var step := steps[j - 1];
      assert copy in Apply(states[j - 1], step).gone;
    }
  }

  /** The jobs with a copy in the queue or unacknowledged, when `jobOf` says which job a copy is for. */
  ghost function InFlight<K>(s: System, jobOf: map<nat, K>): set<K> {
    set copy | copy in s.ready + s.unacked.Values && copy in jobOf :: jobOf[copy]
  }

  /** A job stops being in flight only in a step that acknowledges a copy of it whose report had been accepted
      before. */
  lemma OnlyReportedJobLeaves<K>(s: System, step: Step, jobOf: map<nat, K>, job: K) returns (outcome: Outcome)
    requires Inv(s) && CanStep(s, step) && job in InFlight(s, jobOf) && job !in InFlight(Apply(s, step), jobOf)
    ensures step.Ack? && outcome.copy == s.consumers[step.w].copy && outcome in s.accepted && outcome in s.executed
    ensures outcome.copy in jobOf && jobOf[outcome.copy] == job
  {
    ConservedStep(s, step);
    var s' := Apply(s, step);
    var copy :| copy in s.ready + s.unacked.Values && copy in jobOf && jobOf[copy] == job;
    assert copy !in s'.ready + s'.unacked.Values && copy in s'.published;
    assert copy in s'.gone && copy !in s.gone;
    outcome := Outcome(copy, s.consumers[step.w].success);
  }

  /** The same in every state of every run. */
  lemma OnlyReportedJobsLeave<K>(states: seq<System>, steps: seq<Step>, i: nat, jobOf: map<nat, K>, job: K)
    returns (outcome: Outcome)
    requires IsRun(states, steps) && i < |steps|
    requires job in InFlight(states[i], jobOf) && job !in InFlight(states[i + 1], jobOf)
    ensures steps[i].Ack? && outcome in states[i].accepted && outcome in states[i].executed
    ensures outcome.copy in jobOf && jobOf[outcome.copy] == job
  {
    hide Apply, CanStep, Inv, InFlight;
    InvariantThroughout(states, steps, i);
    outcome := OnlyReportedJobLeaves(states[i], steps[i], jobOf, job);
  }
}
