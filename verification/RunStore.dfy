/**
 * Run allocation in internal/store/write.go: create transactions and status updates interleave freely, under the lock
 * on the sequence row and the unique indexes of the migrations.
 */
module RunStore {
  import Models

  type Pipeline = string

  datatype RunId = RunId(pipeline: Pipeline, no: nat)

  /** A pipeline_runs row; `active` is status in (queued, running), and the empty request key is NULL. */
  datatype Row = Row(active: bool, key: string)

  type Table = map<RunId, Row>

  datatype Input = Input(pipeline: Pipeline, key: string, active: bool)

  /** How far a CreateRunOrGetActive call is; from Bumped on it holds the lock on the sequence row. */
  datatype Phase = Begun | Missed | Bumped(next: nat) | Inserted(next: nat) | Duplicate(next: nat)

  /** `view` is the committed table that the transaction's reads see. */
  datatype Tx = Tx(input: Input, view: Table, phase: Phase)

  datatype Result = New(no: nat) | Existing(no: nat) | Error

  datatype Store = Store(
    runs: Table,
    sequences: map<Pipeline, nat>,      // next_run_no
    txs: map<nat, Tx>,
    results: map<nat, Result>,
    committed: seq<RunId>)              // history of the rows created

  const EMPTY := Store(map[], map[], map[], map[], [])

  datatype Step =
    | Begin(t: nat, input: Input)
    | Refresh(t: nat)                   // reads of the transaction see newer commits, as the isolation level allows
    | SelectFound(t: nat, no: nat)
    | SelectMissed(t: nat)              // no row, or no request key to look for
    | Bump(t: nat)
    | Insert(t: nat)
    | Commit(t: nat)
    | ReselectFound(t: nat, no: nat)
    | ReselectMissed(t: nat)
    | Abort(t: nat)                     // any other error, and the rollback
    | Update(id: RunId, active: bool)

  function Next(s: Store, p: Pipeline): nat {
    if p in s.sequences then s.sequences[p] else 1
  }

  /** The row blocks another active row with the same pipeline and request key. */
  predicate Blocks(runs: Table, id: RunId, p: Pipeline, key: string) {
    id in runs && id.pipeline == p && runs[id].active && runs[id].key == key && key != ""
  }

  ghost predicate Conflict(s: Store, input: Input, no: nat) {
    || RunId(input.pipeline, no) in s.runs
    || (input.active && exists id :: Blocks(s.runs, id, input.pipeline, input.key))
  }

  predicate HoldsLock(tx: Tx, p: Pipeline) {
    tx.input.pipeline == p && (tx.phase.Bumped? || tx.phase.Inserted? || tx.phase.Duplicate?)
  }

  predicate HasInserted(tx: Tx, p: Pipeline) {
    tx.phase.Inserted? && tx.input.active && tx.input.pipeline == p
  }

  /** The oldest active run for the request, as the two SELECT statements order it. */
  ghost predicate OldestActive(view: Table, input: Input, no: nat) {
    && Blocks(view, RunId(input.pipeline, no), input.pipeline, input.key)
    && forall id :: Blocks(view, id, input.pipeline, input.key) ==> no <= id.no
  }

  /** The lookup finds nothing. */
  ghost predicate Misses(view: Table, input: Input) {
    forall no :: !OldestActive(view, input, no)
  }

  ghost predicate CanStep(s: Store, step: Step) {
    match step
    case Begin(t, _) => t !in s.txs && t !in s.results
    case Refresh(t) => t in s.txs
    case SelectFound(t, no) => t in s.txs && s.txs[t].phase.Begun? && OldestActive(s.txs[t].view, s.txs[t].input, no)
    case SelectMissed(t) => t in s.txs && s.txs[t].phase.Begun? && Misses(s.txs[t].view, s.txs[t].input)
    case Bump(t) =>
      && t in s.txs && s.txs[t].phase.Missed?
      && forall u :: u in s.txs ==> !HoldsLock(s.txs[u], s.txs[t].input.pipeline)
    case Insert(t) => t in s.txs && s.txs[t].phase.Bumped? && s.txs[t].phase.next > 1
    case Commit(t) => t in s.txs && s.txs[t].phase.Inserted? && s.txs[t].phase.next > 0
    case ReselectFound(t, no) =>
      t in s.txs && s.txs[t].phase.Duplicate? && OldestActive(s.txs[t].view, s.txs[t].input, no)
    case ReselectMissed(t) => t in s.txs && s.txs[t].phase.Duplicate? && Misses(s.txs[t].view, s.txs[t].input)
    case Abort(t) => t in s.txs
    case Update(id, active) =>
      // the unique index, over committed rows and the rows that open transactions have inserted
      && id in s.runs
      && (active && !s.runs[id].active && s.runs[id].key != "" ==>
            && (forall other :: !Blocks(s.runs, other, id.pipeline, s.runs[id].key))
            && (forall u :: u in s.txs && HasInserted(s.txs[u], id.pipeline) ==> s.txs[u].input.key != s.runs[id].key))
  }

  ghost function Return(s: Store, t: nat, result: Result): Store {
    s.(txs := s.txs - {t}, results := s.results[t := result])
  }

  ghost function Apply(s: Store, step: Step): Store
    requires CanStep(s, step)
  {
    match step
    case Begin(t, input) => s.(txs := s.txs[t := Tx(input, s.runs, Begun)])
    case Refresh(t) => s.(txs := s.txs[t := s.txs[t].(view := s.runs)])
    case SelectFound(t, no) => Return(s, t, Existing(no))
    case SelectMissed(t) => s.(txs := s.txs[t := s.txs[t].(phase := Missed)])
    case Bump(t) => s.(txs := s.txs[t := s.txs[t].(phase := Bumped(Next(s, s.txs[t].input.pipeline) + 1))])
    case Insert(t) =>
      var tx := s.txs[t];
      if !Conflict(s, tx.input, tx.phase.next - 1) then s.(txs := s.txs[t := tx.(phase := Inserted(tx.phase.next))])
      else if tx.input.key != "" then s.(txs := s.txs[t := tx.(phase := Duplicate(tx.phase.next))])
      else Return(s, t, Error)
    case Commit(t) =>
      var tx := s.txs[t];
      var id := RunId(tx.input.pipeline, tx.phase.next - 1);
      Return(s, t, New(id.no)).(
        runs := s.runs[id := Row(tx.input.active, tx.input.key)],
        sequences := s.sequences[id.pipeline := tx.phase.next],
        committed := s.committed + [id])
    case ReselectFound(t, no) =>
      Return(s, t, Existing(no)).(sequences := s.sequences[s.txs[t].input.pipeline := s.txs[t].phase.next])
    case ReselectMissed(t) => Return(s, t, Error)
    case Abort(t) => Return(s, t, Error)
    case Update(id, active) => s.(runs := s.runs[id := s.runs[id].(active := active)])
  }

  ghost predicate IsRun(states: seq<Store>, steps: seq<Step>) {
    && |states| == |steps| + 1
    && states[0] == EMPTY
    && forall i {:trigger steps[i]} :: 0 <= i < |steps| ==>
      CanStep(states[i], steps[i]) && states[i + 1] == Apply(states[i], steps[i])
  }

  /* The invariant. */

  ghost predicate NumbersOk(s: Store) {
    && (forall id :: id in s.runs ==> 1 <= id.no < Next(s, id.pipeline))
    && (forall id :: id in s.committed ==> id.no < Next(s, id.pipeline))
    && (forall i, j :: 0 <= i < j < |s.committed| && s.committed[i].pipeline == s.committed[j].pipeline ==>
          s.committed[i].no < s.committed[j].no)
    && (forall p :: Next(s, p) >= 1)
  }

  /** Only one open transaction has taken a number of a pipeline, and it is the next one. */
  ghost predicate LocksOk(s: Store) {
    && (forall t, p :: t in s.txs && HoldsLock(s.txs[t], p) ==> s.txs[t].phase.next == Next(s, p) + 1)
    && (forall t, u, p :: t in s.txs && u in s.txs && HoldsLock(s.txs[t], p) && HoldsLock(s.txs[u], p) ==> t == u)
  }

  ghost predicate UniqueOk(s: Store) {
    && (forall a, b, p, key :: Blocks(s.runs, a, p, key) && Blocks(s.runs, b, p, key) ==> a == b)
    && (forall t, id :: t in s.txs && s.txs[t].phase.Inserted? && s.txs[t].input.active ==>
          !Blocks(s.runs, id, s.txs[t].input.pipeline, s.txs[t].input.key))
  }

  ghost predicate Inv(s: Store) {
    NumbersOk(s) && LocksOk(s) && UniqueOk(s)
  }

  /** Numbers after the sequence of one pipeline moved up, by the commit of a row or by a gap. */
  lemma NumbersGrow(s: Store, s': Store, p: Pipeline, created: seq<RunId>)
    requires NumbersOk(s) && s'.sequences == s.sequences[p := Next(s, p) + 1] && s'.committed == s.committed + created
    requires created == [] || created == [RunId(p, Next(s, p))]
    requires forall id :: id in s'.runs ==> id in s.runs || id in created
    ensures NumbersOk(s')
  {
    assert forall q :: Next(s', q) == if q == p then Next(s, p) + 1 else Next(s, q);
    assert created != [] ==> created[0] in created;
    forall i | 0 <= i < |s.committed| ensures s'.committed[i] == s.committed[i] && s.committed[i] in s.committed { }
  }

  lemma NumbersStep(s: Store, step: Step)
    requires NumbersOk(s) && LocksOk(s) && CanStep(s, step)
    ensures NumbersOk(Apply(s, step))
  {
    hide NumbersOk, OldestActive;
    var s' := Apply(s, step);
    match step
    case Commit(t) =>
      var p := s.txs[t].input.pipeline;
      assert HoldsLock(s.txs[t], p);
      NumbersGrow(s, s', p, [RunId(p, Next(s, p))]);
    case ReselectFound(t, no) =>
      var p := s.txs[t].input.pipeline;
      assert HoldsLock(s.txs[t], p);
      NumbersGrow(s, s', p, []);
    case _ => SameNumbers(s, s');
  }

  lemma SameNumbers(s: Store, s': Store)
    requires NumbersOk(s) && s'.sequences == s.sequences && s'.committed == s.committed && s'.runs.Keys == s.runs.Keys
    ensures NumbersOk(s')
  {
    assert forall p :: Next(s', p) == Next(s, p);
  }

  lemma LocksStep(s: Store, step: Step)
    requires LocksOk(s) && CanStep(s, step)
    ensures LocksOk(Apply(s, step))
  {
    hide LocksOk, OldestActive, Conflict;
    var s' := Apply(s, step);
    match step
    case Commit(t) => LockReleased(s, s', t);
    case ReselectFound(t, no) => LockReleased(s, s', t);
    case Bump(t) => LockTaken(s, s', t);
    case Begin(t, input) => LockKept(s, s', t);
    case Update(id, active) => LockKept(s, s', 0);
    case _ => LockKept(s, s', step.t);
  }

  lemma LockTaken(s: Store, s': Store, t: nat)
    requires LocksOk(s) && t in s.txs && s'.sequences == s.sequences
    requires s'.txs == s.txs[t := s.txs[t].(phase := Bumped(Next(s, s.txs[t].input.pipeline) + 1))]
    requires forall u :: u in s.txs ==> !HoldsLock(s.txs[u], s.txs[t].input.pipeline)
    ensures LocksOk(s')
  {
    assert forall p :: Next(s', p) == Next(s, p);
  }

  lemma LockReleased(s: Store, s': Store, t: nat)
    requires LocksOk(s) && t in s.txs && HoldsLock(s.txs[t], s.txs[t].input.pipeline) && s'.txs == s.txs - {t}
    requires s'.sequences == s.sequences[s.txs[t].input.pipeline := s.txs[t].phase.next]
    ensures LocksOk(s')
  {
    assert forall p :: p != s.txs[t].input.pipeline ==> Next(s', p) == Next(s, p);
  }

  /** Other steps of `t` end the transaction, or leave it with the lock and the number it had. */
  lemma LockKept(s: Store, s': Store, t: nat)
    requires LocksOk(s) && s'.sequences == s.sequences
    requires forall u :: u in s'.txs && u != t ==> u in s.txs && s'.txs[u] == s.txs[u]
    requires forall p :: t in s'.txs && HoldsLock(s'.txs[t], p) ==>
      t in s.txs && HoldsLock(s.txs[t], p) && s'.txs[t].phase.next == s.txs[t].phase.next
    ensures LocksOk(s')
  {
    assert forall p :: Next(s', p) == Next(s, p);
  }

  lemma UniqueStep(s: Store, step: Step)
    requires Inv(s) && CanStep(s, step)
    ensures UniqueOk(Apply(s, step))
  {
    var s' := Apply(s, step);
    match step
    case Commit(t) => UniqueCommit(s, t);
    case Update(id, active) => UniqueUpdate(s, id, active);
    case _ =>
  }

  lemma UniqueCommit(s: Store, t: nat)
    requires Inv(s) && CanStep(s, Commit(t))
    ensures UniqueOk(Apply(s, Commit(t)))
  {
    var s', tx := Apply(s, Commit(t)), s.txs[t];
    var input := tx.input;
    var id := RunId(input.pipeline, tx.phase.next - 1);
    assert HoldsLock(tx, input.pipeline);
    forall a, p, key | Blocks(s'.runs, a, p, key)
      ensures if a == id then p == input.pipeline && key == input.key && input.active else Blocks(s.runs, a, p, key)
    { }
    forall u | u in s'.txs && s'.txs[u].phase.Inserted?
      ensures u in s.txs && s.txs[u].input.pipeline != input.pipeline
    {
      assert HoldsLock(s.txs[u], s.txs[u].input.pipeline);
    }
  }

  lemma UniqueUpdate(s: Store, id: RunId, active: bool)
    requires UniqueOk(s) && CanStep(s, Update(id, active))
    ensures UniqueOk(Apply(s, Update(id, active)))
  {
    var s' := Apply(s, Update(id, active));
    forall a, p, key | Blocks(s'.runs, a, p, key)
      ensures Blocks(s.runs, a, p, key) ||
        (a == id && active && p == id.pipeline && key == s.runs[id].key && !s.runs[id].active)
    { }
  }

  lemma {:induction false} InvariantThroughout(states: seq<Store>, steps: seq<Step>, i: nat)
    requires IsRun(states, steps) && i <= |steps|
    ensures Inv(states[i])
  {
    if i > 0 {
      hide Apply, CanStep, NumbersOk, LocksOk, UniqueOk;
      InvariantThroughout(states, steps, i - 1);
      NumbersStep(states[i - 1], steps[i - 1]);
      LocksStep(states[i - 1], steps[i - 1]);
      UniqueStep(states[i - 1], steps[i - 1]);
    }
  }

  /** Over every interleaving: numbers stay below next_run_no, are committed in increasing order, and no two active
      rows of a pipeline share a request key. */
  lemma AllocationIsSound(states: seq<Store>, steps: seq<Step>, i: nat)
    requires IsRun(states, steps) && i <= |steps|
    ensures var s := states[i];
      && (forall id :: id in s.runs ==> 1 <= id.no < Next(s, id.pipeline))
      && (forall a, b :: 0 <= a < b < |s.committed| && s.committed[a].pipeline == s.committed[b].pipeline ==>
            s.committed[a].no < s.committed[b].no)
      && (forall a, b, p, key :: Blocks(s.runs, a, p, key) && Blocks(s.runs, b, p, key) ==> a == b)
  {
    hide Apply, CanStep;
    InvariantThroughout(states, steps, i);
  }

  /** The step commits a bump of the sequence of `p`: with a new row, or with the answer that names an active one. */
  ghost predicate TakesNumber(s: Store, step: Step, p: Pipeline) {
    (step.Commit? || step.ReselectFound?) && step.t in s.txs && s.txs[step.t].input.pipeline == p
  }

  /** The numbers of `p` that the first `i` steps have taken. */
  ghost function Taken(states: seq<Store>, steps: seq<Step>, i: nat, p: Pipeline): nat
    requires i <= |steps| < |states|
  {
    if i == 0 then 0 else Taken(states, steps, i - 1, p) + if TakesNumber(states[i - 1], steps[i - 1], p) then 1 else 0
  }

  lemma NextStep(s: Store, step: Step, p: Pipeline)
    requires LocksOk(s) && CanStep(s, step)
    ensures Next(Apply(s, step), p) == Next(s, p) + if TakesNumber(s, step, p) then 1 else 0
  {
    hide OldestActive, Conflict, Misses;
    if step.Commit? || step.ReselectFound? {
      assert HoldsLock(s.txs[step.t], s.txs[step.t].input.pipeline);
    }
  }

  /** Over every interleaving: next_run_no counts the committed bumps, those of deduplicated calls included. */
  lemma {:induction false} NextCounts(states: seq<Store>, steps: seq<Step>, i: nat, p: Pipeline)
    requires IsRun(states, steps) && i <= |steps|
    ensures Next(states[i], p) == 1 + Taken(states, steps, i, p)
  {
    hide Apply, CanStep, NumbersOk, UniqueOk;
    if i > 0 {
      NextCounts(states, steps, i - 1, p);
      InvariantThroughout(states, steps, i - 1);
      NextStep(states[i - 1], steps[i - 1], p);
    }
  }

  /** A new run gets the number after those taken before it, and its row; nothing else is created. */
  lemma NewRunIsNext(states: seq<Store>, steps: seq<Step>, i: nat, t: nat)
    requires IsRun(states, steps) && i < |steps| && steps[i] == Commit(t)
    ensures t in states[i].txs
    ensures var input := states[i].txs[t].input;
      var no := 1 + Taken(states, steps, i, input.pipeline);
      && t in states[i + 1].results && states[i + 1].results[t] == New(no)
      && states[i + 1].runs == states[i].runs[RunId(input.pipeline, no) := Row(input.active, input.key)]
      && RunId(input.pipeline, no) !in states[i].runs
  {
    hide CanStep, Apply, Inv;
    assert CanStep(states[i], steps[i]) && states[i + 1] == Apply(states[i], steps[i]);
    InvariantThroughout(states, steps, i);
    CommitCreates(states[i], t);
    NextCounts(states, steps, i, states[i].txs[t].input.pipeline);
  }

  lemma CommitCreates(s: Store, t: nat)
    requires Inv(s) && CanStep(s, Commit(t))
    ensures t in s.txs
    ensures var input := s.txs[t].input;
      var no, s' := Next(s, input.pipeline), Apply(s, Commit(t));
      && t in s'.results && s'.results[t] == New(no)
      && s'.runs == s.runs[RunId(input.pipeline, no) := Row(input.active, input.key)]
      && RunId(input.pipeline, no) !in s.runs
  {
    hide OldestActive, Conflict, Misses, UniqueOk;
    assert HoldsLock(s.txs[t], s.txs[t].input.pipeline);
  }

  /** Rows appear by commits alone, and are changed by updates alone. */
  lemma OnlyCommitsCreate(s: Store, step: Step)
    requires CanStep(s, step) && !step.Commit?
    ensures var s' := Apply(s, step);
      s'.runs == if step.Update? then s.runs[step.id := s.runs[step.id].(active := step.active)] else s.runs
  {
  }

  /** How calls end: a found active run is returned; an insert without conflict goes on to commit; one with a
      conflict looks again if there is a request key and is an error otherwise; a second miss and every other failure
      are errors. */
  lemma CallsEnd(s: Store, step: Step)
    requires CanStep(s, step)
    ensures step.SelectFound? || step.ReselectFound? ==>
      Apply(s, step).results == s.results[step.t := Existing(step.no)]
    ensures step.ReselectMissed? || step.Abort? ==> Apply(s, step).results == s.results[step.t := Error]
    ensures step.SelectFound? || step.ReselectFound? || step.ReselectMissed? || step.Abort? ==>
      Apply(s, step).txs == s.txs - {step.t}
    ensures step.SelectFound? || step.ReselectMissed? || step.Abort? ==> Apply(s, step).sequences == s.sequences
    ensures step.Insert? ==>
      var tx, s' := s.txs[step.t], Apply(s, step);
      if !Conflict(s, tx.input, tx.phase.next - 1)
      then s' == s.(txs := s.txs[step.t := tx.(phase := Inserted(tx.phase.next))])
      else if tx.input.key != "" then s' == s.(txs := s.txs[step.t := tx.(phase := Duplicate(tx.phase.next))])
      else s' == s.(txs := s.txs - {step.t}, results := s.results[step.t := Error])
  {
    hide OldestActive, Conflict, Misses;
  }

  /** The view of an open transaction is a table that was committed while it was open. */
  lemma {:induction false} ViewWasCommitted(states: seq<Store>, steps: seq<Step>, i: nat, t: nat) returns (k: nat)
    requires IsRun(states, steps) && i <= |steps| && t in states[i].txs
    ensures 0 < k <= i && states[k].runs == states[i].txs[t].view && forall m :: k <= m <= i ==> t in states[m].txs
  {
    hide CanStep, Apply;
    var s := states[i - 1];
    if t in s.txs && s.txs[t].view == states[i].txs[t].view {
      k := ViewWasCommitted(states, steps, i - 1, t);
    } else {
      k := i;
      NewView(s, steps[i - 1], t);
    }
  }

  lemma NewView(s: Store, step: Step, t: nat)
    requires CanStep(s, step) && t in Apply(s, step).txs && (t in s.txs ==> s.txs[t].view != Apply(s, step).txs[t].view)
    ensures Apply(s, step).txs[t].view == Apply(s, step).runs
  {
    hide Misses, OldestActive, Conflict;
  }

  /** A call that returns a number without error names a row it has just created for its request, or the oldest one
      that was active, for that request, in a table committed while the call was running. */
  lemma ReturnsNewOrActive(states: seq<Store>, steps: seq<Step>, i: nat, t: nat) returns (k: nat)
    requires IsRun(states, steps) && i < |steps| && t !in states[i].results && t in states[i + 1].results
    requires !states[i + 1].results[t].Error?
    ensures t in states[i].txs
    ensures var input := states[i].txs[t].input;
      match states[i + 1].results[t]
      case New(no) =>
        var id := RunId(input.pipeline, no);
        id !in states[i].runs && id in states[i + 1].runs && states[i + 1].runs[id] == Row(input.active, input.key)
      case Existing(no) =>
        && 0 < k <= i && (forall m :: k <= m <= i ==> t in states[m].txs)
        && OldestActive(states[k].runs, input, no)
      case Error => true
  {
    InvariantThroughout(states, steps, i);
    var s, step := states[i], steps[i];
    assert t in s.txs && !step.Update?;
    k := ViewWasCommitted(states, steps, i, t);
    if step.Commit? {
      assert HoldsLock(s.txs[t], s.txs[t].input.pipeline);
    }
  }

  /** If the reads from the first lookup on see one snapshot, the lookup after a duplicate key repeats one that found
      nothing. */
  lemma {:induction false} SnapshotReselectMisses(states: seq<Store>, steps: seq<Step>, i: nat, t: nat)
    requires IsRun(states, steps) && i <= |steps| && t in states[i].txs && !states[i].txs[t].phase.Begun?
    requires forall m, k :: 0 <= m < k < i && steps[m] == SelectMissed(t) ==> steps[k] != Refresh(t)
    ensures Misses(states[i].txs[t].view, states[i].txs[t].input)
    ensures exists m :: 0 <= m < i && steps[m] == SelectMissed(t)
  {
    hide Misses, CanStep, Apply;
    LookedUp(states[i - 1], steps[i - 1], t);
    if steps[i - 1] != SelectMissed(t) {
      SnapshotReselectMisses(states, steps, i - 1, t);
    }
  }

  /** A transaction past its first lookup has just missed, or was past it before with the same view, unless
      refreshed. */
  lemma LookedUp(s: Store, step: Step, t: nat)
    requires CanStep(s, step) && t in Apply(s, step).txs && !Apply(s, step).txs[t].phase.Begun?
    ensures t in s.txs && s.txs[t].input == Apply(s, step).txs[t].input
    ensures step == Refresh(t) || s.txs[t].view == Apply(s, step).txs[t].view
    ensures if step == SelectMissed(t) then Misses(s.txs[t].view, s.txs[t].input) else !s.txs[t].phase.Begun?
  {
    hide Misses, OldestActive, Conflict;
  }

  /** That lookup is reached: two requests with one key both look before either has inserted. */
  lemma DuplicateUnderSnapshot(p: Pipeline, key: string) returns (states: seq<Store>, steps: seq<Step>)
    requires key != ""
    ensures IsRun(states, steps) && |states| == |steps| + 1 && forall k :: 0 <= k < |steps| ==> !steps[k].Refresh?
    ensures 2 in states[|steps|].txs && states[|steps|].txs[2].phase.Duplicate?
    ensures states[|steps|].txs[2].input == Input(p, key, true)
  {
    steps := seq(9, i requires 0 <= i => TwoRequests(p, key, i));
    states := seq(10, i requires 0 <= i => TwoRequestsAt(p, key, i));
    hide CanStep, Apply, TwoRequests;
    forall i | 0 <= i < 9 ensures CanStep(states[i], steps[i]) && states[i + 1] == Apply(states[i], steps[i]) {
      TwoRequestsStep(p, key, i);
    }
    forall i | 0 <= i < 9 ensures !steps[i].Refresh? { TwoRequestsReadOnce(p, key, i); }
  }

  function TwoRequests(p: Pipeline, key: string, i: nat): Step {
    match i
    case 0 => Begin(1, Input(p, key, true))
    case 1 => Begin(2, Input(p, key, true))
    case 2 => SelectMissed(1)
    case 3 => SelectMissed(2)
    case 4 => Bump(1)
    case 5 => Insert(1)
    case 6 => Commit(1)
    case 7 => Bump(2)
    case _ => Insert(2)
  }

  function TwoRequestsAt(p: Pipeline, key: string, i: nat): Store {
    var tx := Tx(Input(p, key, true), map[], Begun);
    var row := map[RunId(p, 1) := Row(true, key)];
    match i
    case 0 => EMPTY
    case 1 => EMPTY.(txs := map[1 := tx])
    case 2 => EMPTY.(txs := map[1 := tx, 2 := tx])
    case 3 => EMPTY.(txs := map[1 := tx.(phase := Missed), 2 := tx])
    case 4 => EMPTY.(txs := map[1 := tx.(phase := Missed), 2 := tx.(phase := Missed)])
    case 5 => EMPTY.(txs := map[1 := tx.(phase := Bumped(2)), 2 := tx.(phase := Missed)])
    case 6 => EMPTY.(txs := map[1 := tx.(phase := Inserted(2)), 2 := tx.(phase := Missed)])
    case 7 => Store(row, map[p := 2], map[2 := tx.(phase := Missed)], map[1 := New(1)], [RunId(p, 1)])
    case 8 => Store(row, map[p := 2], map[2 := tx.(phase := Bumped(3))], map[1 := New(1)], [RunId(p, 1)])
    case _ => Store(row, map[p := 2], map[2 := tx.(phase := Duplicate(3))], map[1 := New(1)], [RunId(p, 1)])
  }

  lemma TwoRequestsStep(p: Pipeline, key: string, i: nat)
    requires key != "" && i < 9
    ensures CanStep(TwoRequestsAt(p, key, i), TwoRequests(p, key, i))
    ensures Apply(TwoRequestsAt(p, key, i), TwoRequests(p, key, i)) == TwoRequestsAt(p, key, i + 1)
  {
    if i < 5 {
      BothLook(p, key, i);
    } else {
      OneInserts(p, key, i);
    }
  }

  lemma BothLook(p: Pipeline, key: string, i: nat)
    requires i < 5
    ensures CanStep(TwoRequestsAt(p, key, i), TwoRequests(p, key, i))
    ensures Apply(TwoRequestsAt(p, key, i), TwoRequests(p, key, i)) == TwoRequestsAt(p, key, i + 1)
  {
    assert Apply(TwoRequestsAt(p, key, i), TwoRequests(p, key, i)).txs == TwoRequestsAt(p, key, i + 1).txs;
  }

  lemma OneInserts(p: Pipeline, key: string, i: nat)
    requires key != "" && 5 <= i < 9
    ensures CanStep(TwoRequestsAt(p, key, i), TwoRequests(p, key, i))
    ensures Apply(TwoRequestsAt(p, key, i), TwoRequests(p, key, i)) == TwoRequestsAt(p, key, i + 1)
  {
    var s, s' := TwoRequestsAt(p, key, i), TwoRequestsAt(p, key, i + 1);
    assert i == 8 ==> Blocks(s.runs, RunId(p, 1), p, key);
    assert Apply(s, TwoRequests(p, key, i)).txs == s'.txs;
    assert i == 6 ==> Apply(s, TwoRequests(p, key, i)).runs == s'.runs;
  }

  lemma TwoRequestsReadOnce(p: Pipeline, key: string, i: nat)
    ensures !TwoRequests(p, key, i).Refresh?
  {
  }

  /** A conflict always means an active row for the request, never a clash of run numbers. */
  lemma ConflictIsActiveRow(states: seq<Store>, steps: seq<Step>, i: nat, t: nat) returns (id: RunId)
    requires IsRun(states, steps) && i < |steps| && steps[i] == Insert(t)
    requires t in states[i].txs && Conflict(states[i], states[i].txs[t].input, states[i].txs[t].phase.next - 1)
    ensures var input := states[i].txs[t].input;
      && RunId(input.pipeline, states[i].txs[t].phase.next - 1) !in states[i].runs
      && input.active && Blocks(states[i].runs, id, input.pipeline, input.key)
      && forall other :: Blocks(states[i].runs, other, input.pipeline, input.key) ==> other == id
  {
    InvariantThroughout(states, steps, i);
    var s, tx := states[i], states[i].txs[t];
    assert HoldsLock(tx, tx.input.pipeline);
    id :| Blocks(s.runs, id, tx.input.pipeline, tx.input.key);
  }

  /** The status that the last update of a row among the given steps has set. */
  ghost function LastUpdate(steps: seq<Step>, id: RunId): Models.Option<bool> {
    if steps == [] then Models.None else
    var last := steps[|steps| - 1];
    if last.Update? && last.id == id then Models.Some(last.active) else LastUpdate(steps[..|steps| - 1], id)
  }

  ghost predicate IsOfRequest(runs: Table, id: RunId, input: Input) {
    id in runs && id.pipeline == input.pipeline && runs[id].key == input.key
  }

  /** From the conflict on, the call keeps other requests of the pipeline from adding a row. */
  ghost predicate Waiting(states: seq<Store>, steps: seq<Step>, i: nat, k: nat, t: nat) {
    && IsRun(states, steps) && i < k <= |steps| && steps[i] == Insert(t)
    && forall m :: i < m <= k ==> t in states[m].txs && states[m].txs[t].phase.Duplicate?
  }

  /** So its rows are those of the moment of the conflict, except for their status. */
  lemma {:induction false} RowsWhileWaiting(states: seq<Store>, steps: seq<Step>, i: nat, k: nat, t: nat, id: RunId)
    requires Waiting(states, steps, i, k, t) && t in states[i].txs && id.pipeline == states[i].txs[t].input.pipeline
    ensures states[k].txs[t].input == states[i].txs[t].input
    ensures id in states[k].runs <==> id in states[i].runs
    ensures id in states[i].runs ==>
      states[k].runs[id] == match LastUpdate(steps[i + 1..k], id)
        case None => states[i].runs[id]
        case Some(active) => states[i].runs[id].(active := active)
  {
    hide CanStep, Apply, LocksOk, NumbersOk, UniqueOk;
    if k == i + 1 {
      ConflictKeepsRows(states[i], steps[i], t);
    } else {
      RowsWhileWaiting(states, steps, i, k - 1, t, id);
      LastUpdateStep(steps[i + 1..k - 1], steps[k - 1], id);
      assert steps[i + 1..k] == steps[i + 1..k - 1] + [steps[k - 1]];
      InvariantThroughout(states, steps, k - 1);
      RowsStep(states[k - 1], steps[k - 1], t, id);
    }
  }

  lemma LastUpdateStep(steps: seq<Step>, step: Step, id: RunId)
    ensures LastUpdate(steps + [step], id) ==
      if step.Update? && step.id == id then Models.Some(step.active) else LastUpdate(steps, id)
  {
    assert (steps + [step])[..|steps|] == steps;
  }

  lemma ConflictKeepsRows(s: Store, step: Step, t: nat)
    requires CanStep(s, step) && step == Insert(t) && t in Apply(s, step).txs
    ensures Apply(s, step).runs == s.runs && Apply(s, step).txs[t].input == s.txs[t].input
  {
  }

  lemma RowsStep(s: Store, step: Step, t: nat, id: RunId)
    requires LocksOk(s) && CanStep(s, step) && t in s.txs && s.txs[t].phase.Duplicate?
    requires id.pipeline == s.txs[t].input.pipeline && t in Apply(s, step).txs
    ensures var s' := Apply(s, step);
      && s'.txs[t].input == s.txs[t].input
      && (id in s'.runs <==> id in s.runs)
      && (id in s.runs ==>
        s'.runs[id] == if step.Update? && step.id == id then s.runs[id].(active := step.active) else s.runs[id])
  {
    hide Misses, OldestActive, Conflict;
    assert HoldsLock(s.txs[t], id.pipeline);
    if step.Commit? {
      assert HoldsLock(s.txs[step.t], s.txs[step.t].input.pipeline);
    }
  }

  /** A lookup in a table committed since the conflict misses exactly when the row it collided with was made inactive
      and no other row of the request was made active. */
  lemma RereadMissesIff(states: seq<Store>, steps: seq<Step>, i: nat, k: nat, t: nat, id: RunId)
    requires Waiting(states, steps, i, k, t) && t in states[i].txs
    requires Blocks(states[i].runs, id, states[i].txs[t].input.pipeline, states[i].txs[t].input.key)
    ensures var input := states[i].txs[t].input;
      Misses(states[k].runs, input) <==>
        && LastUpdate(steps[i + 1..k], id) == Models.Some(false)
        && forall other :: other != id && IsOfRequest(states[i].runs, other, input) ==>
          LastUpdate(steps[i + 1..k], other) != Models.Some(true)
  {
    hide CanStep, Apply, LastUpdate;
    var input, between := states[i].txs[t].input, steps[i + 1..k];
    InvariantOver(states, steps, i, k, t);
    forall other: RunId | other.pipeline == input.pipeline
      ensures Blocks(states[k].runs, other, input.pipeline, input.key) <==>
        && IsOfRequest(states[i].runs, other, input)
        && (if other == id then LastUpdate(between, id) != Models.Some(false)
          else LastUpdate(between, other) == Models.Some(true))
    {
      RowsWhileWaiting(states, steps, i, k, t, other);
      assert other != id ==> !Blocks(states[i].runs, other, input.pipeline, input.key);
    }
    if other :| Blocks(states[k].runs, other, input.pipeline, input.key) {
      assert OldestActive(states[k].runs, input, other.no);
    }
  }

  lemma InvariantOver(states: seq<Store>, steps: seq<Step>, i: nat, k: nat, t: nat)
    requires Waiting(states, steps, i, k, t)
    ensures k < |states| && UniqueOk(states[i]) && UniqueOk(states[k])
  {
    InvariantThroughout(states, steps, i);
    InvariantThroughout(states, steps, k);
  }

  lemma {:induction false} LastUpdateMeaning(steps: seq<Step>, id: RunId)
    ensures LastUpdate(steps, id).None? <==> forall m :: 0 <= m < |steps| && steps[m].Update? ==> steps[m].id != id
    ensures (forall m :: 0 <= m < |steps| && steps[m].Update? ==> !steps[m].active) ==>
      LastUpdate(steps, id) != Models.Some(true)
  {
    if steps != [] {
      LastUpdateMeaning(steps[..|steps| - 1], id);
    }
  }

  /** Where runs are only ever finished, as the orchestrator does: exactly when that row was finished in between. */
  lemma RereadMissesIffFinished(states: seq<Store>, steps: seq<Step>, i: nat, k: nat, t: nat, id: RunId)
    requires Waiting(states, steps, i, k, t) && t in states[i].txs
    requires Blocks(states[i].runs, id, states[i].txs[t].input.pipeline, states[i].txs[t].input.key)
    requires forall m :: i < m < k && steps[m].Update? ==> !steps[m].active
    ensures Misses(states[k].runs, states[i].txs[t].input) <==>
      exists m :: i < m < k && steps[m] == Update(id, false)
  {
    hide CanStep, Apply, Misses, LastUpdate;
    RereadMissesIff(states, steps, i, k, t, id);
    var between := steps[i + 1..k];
    forall other ensures LastUpdate(between, other) != Models.Some(true) { LastUpdateMeaning(between, other); }
    LastUpdateMeaning(between, id);
    if m :| 0 <= m < |between| && between[m].Update? && between[m].id == id {
      assert steps[i + 1 + m] == Update(id, false);
      assert LastUpdate(between, id) == Models.Some(false) by {
        match LastUpdate(between, id)
        case None =>
        case Some(active) => if active { assert false; }
      }
    } else {
      assert forall m :: i < m < k ==> steps[m] == between[m - i - 1];
    }
  }
}
