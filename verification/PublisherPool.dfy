/**
 * The publisher manager of internal/services/orchestrator/publisher.go as a state machine over the steps its callers
 * interleave: each atomic operation and each lock section is one step.
 */
module PublisherPool {
  import opened Models

  /** A publisherSet; its position in `Pool.sets` is its identity. */
  datatype PublisherSet = PublisherSet(gen: nat, retired: bool, refs: int, closes: nat)

  /** Where a caller is. */
  datatype Caller =
    | Holding(id: nat)                   // acquired the set and has not released it
    | Decremented(id: nat, left: int)    // in releaseSet, after the decrement that returned `left`
    | WantsLock(id: nat)                 // in releaseSet, after seeing zero and retired
    | Draining(ids: seq<nat>)            // in Close, after the lock section, with these sets to close

  /** `callers` holds the callers that are inside an operation or hold a set; all others are idle. */
  datatype Pool = Pool(sets: seq<PublisherSet>, current: Option<nat>, stale: map<nat, nat>, callers: map<nat, Caller>)

  datatype Step =
    | Acquire(t: nat)
    | Rebuild(t: nat, dialled: bool)     // rebuildIfCurrent by a holder of the failed set
    | Decrement(t: nat)                  // the atomic decrement of releaseSet
    | Load(t: nat)                       // its test of the result and the retired flag
    | LockedRelease(t: nat)              // its lock section
    | Shutdown(t: nat, order: seq<nat>)  // the lock section of Close; `order` is how the map is ranged over
    | CloseNext(t: nat)                  // Close closes the next set it took out

  const INITIAL := Pool([PublisherSet(0, false, 0, 0)], Some(0), map[], map[])

  /** The stale map after Close has retired the current set. */
  function StaleAtShutdown(p: Pool): map<nat, nat>
    requires p.current.Some? ==> p.current.value < |p.sets|
  {
    if p.current.Some? then p.stale[p.sets[p.current.value].gen := p.current.value] else p.stale
  }

  ghost predicate CanStep(p: Pool, step: Step) {
    match step
    case Acquire(t) => t !in p.callers && (p.current.Some? ==> p.current.value < |p.sets|)
    case Rebuild(t, _) => t in p.callers && p.callers[t].Holding? && p.callers[t].id < |p.sets|
    case Decrement(t) => t in p.callers && p.callers[t].Holding? && p.callers[t].id < |p.sets|
    case Load(t) => t in p.callers && p.callers[t].Decremented? && p.callers[t].id < |p.sets|
    case LockedRelease(t) => t in p.callers && p.callers[t].WantsLock? && p.callers[t].id < |p.sets|
    case Shutdown(t, order) =>
      && t !in p.callers && (p.current.Some? ==> p.current.value < |p.sets|)
      && (forall i, j :: 0 <= i < j < |order| ==> order[i] != order[j])
      && (forall g :: g in StaleAtShutdown(p) ==> StaleAtShutdown(p)[g] < |p.sets|)
      && (forall id :: id in order <==>
            exists g :: g in StaleAtShutdown(p) && StaleAtShutdown(p)[g] == id && p.sets[id].refs == 0)
    case CloseNext(t) =>
      && t in p.callers && p.callers[t].Draining?
      && (p.callers[t].ids != [] ==> p.callers[t].ids[0] < |p.sets|)
  }

  ghost function Apply(p: Pool, step: Step): Pool
    requires CanStep(p, step)
  {
    match step
    case Acquire(t) =>
      if p.current.None? then p else
      var id := p.current.value;
      p.(sets := p.sets[id := p.sets[id].(refs := p.sets[id].refs + 1)], callers := p.callers[t := Holding(id)])
    case Rebuild(t, dialled) =>
      var id := p.callers[t].id;
      if p.current != Some(id) || !dialled then p else
      p.(sets := p.sets[id := p.sets[id].(retired := true)] + [PublisherSet(p.sets[id].gen + 1, false, 0, 0)],
         stale := p.stale[p.sets[id].gen := id], current := Some(|p.sets|))
    case Decrement(t) =>
      var id := p.callers[t].id;
      var left := p.sets[id].refs - 1;
      p.(sets := p.sets[id := p.sets[id].(refs := left)], callers := p.callers[t := Decremented(id, left)])
    case Load(t) =>
      var c := p.callers[t];
      if c.left == 0 && p.sets[c.id].retired then p.(callers := p.callers[t := WantsLock(c.id)])
      else p.(callers := p.callers - {t})
    case LockedRelease(t) =>
      var id := p.callers[t].id;
      var p1 := p.(callers := p.callers - {t});
      if p.sets[id].retired && p.sets[id].refs == 0 then
        p1.(stale := p.stale - {p.sets[id].gen}, sets := p.sets[id := p.sets[id].(closes := p.sets[id].closes + 1)])
      else p1
    case Shutdown(t, order) =>
      var id := if p.current.Some? then p.current.value else 0;
      var sets := if p.current.Some? then p.sets[id := p.sets[id].(retired := true)] else p.sets;
      var stale := StaleAtShutdown(p);
      Pool(sets, None, map g | g in stale && p.sets[stale[g]].refs != 0 :: stale[g], p.callers[t := Draining(order)])
    case CloseNext(t) =>
      var ids := p.callers[t].ids;
      if ids == [] then p.(callers := p.callers - {t}) else
      p.(sets := p.sets[ids[0] := p.sets[ids[0]].(closes := p.sets[ids[0]].closes + 1)],
         callers := p.callers[t := Draining(ids[1..])])
  }

  ghost predicate IsRun(states: seq<Pool>, steps: seq<Step>) {
    && |states| == |steps| + 1
    && states[0] == INITIAL
    && forall i {:trigger steps[i]} :: 0 <= i < |steps| ==>
      CanStep(states[i], steps[i]) && states[i + 1] == Apply(states[i], steps[i])
  }

  /* The invariant. */

  ghost function Holders(p: Pool, id: nat): set<nat> {
    set t | t in p.callers && p.callers[t] == Holding(id)
  }

  /** The releaser `t` has seen the set fall to zero and will look at it again. */
  ghost predicate Minds(p: Pool, t: nat, id: nat) {
    t in p.callers && (p.callers[t] == Decremented(id, 0) || p.callers[t] == WantsLock(id))
  }

  /** The Close running in `t` has taken the set out and will close it. */
  ghost predicate Drains(p: Pool, t: nat, id: nat) {
    t in p.callers && p.callers[t].Draining? && id in p.callers[t].ids
  }

  ghost predicate Watched(p: Pool, id: nat) {
    exists t :: Minds(p, t, id)
  }

  ghost predicate Taken(p: Pool, id: nat) {
    exists t :: Drains(p, t, id)
  }

  /** Generations number the sets, and only the newest one can be current. */
  ghost predicate Numbered(p: Pool) {
    && (forall id :: 0 <= id < |p.sets| ==> p.sets[id].gen == id)
    && (p.current.Some? ==> p.current.value == |p.sets| - 1)
    && (forall id :: 0 <= id < |p.sets| ==> (p.sets[id].retired <==> p.current != Some(id)))
    && (forall g :: g in p.stale ==> p.stale[g] == g && g < |p.sets| && p.sets[g].retired)
  }

  ghost predicate Counted(p: Pool) {
    && (forall id {:trigger Holders(p, id)} :: 0 <= id < |p.sets| ==> p.sets[id].refs == |Holders(p, id)|)
    && (forall t :: t in p.callers ==>
          match p.callers[t]
          case Holding(id) => id < |p.sets|
          case Decremented(id, _) => id < |p.sets|
          case WantsLock(id) => id < |p.sets|
          case Draining(ids) => forall id :: id in ids ==>
            id < |p.sets| && p.sets[id].retired && p.sets[id].refs == 0 && id !in p.stale)
  }

  /** What becomes of one set. */
  ghost predicate Cared(p: Pool, id: nat)
    requires id < |p.sets|
  {
    var s := p.sets[id];
    && (s.closes > 0 ==> s.retired && s.refs == 0 && id !in p.stale)
    && (s.retired && s.refs != 0 ==> id in p.stale)
    && (id in p.stale && s.refs == 0 ==> Watched(p, id))
    && (s.retired && s.refs == 0 && s.closes == 0 ==> Watched(p, id) || Taken(p, id))
  }

  ghost predicate Inv(p: Pool) {
    Numbered(p) && Counted(p) && forall id {:trigger Cared(p, id)} :: 0 <= id < |p.sets| ==> Cared(p, id)
  }

  ghost predicate OthersStay(p: Pool, p': Pool, t: nat) {
    forall u :: u != t ==> (u in p.callers <==> u in p'.callers) && (u in p.callers ==> p.callers[u] == p'.callers[u])
  }

  /** A step of `t` that touches no set but `id` keeps the care for the others, if `t` still cares for those it did. */
  lemma KeepCare(p: Pool, p': Pool, t: nat, id: nat)
    requires Inv(p) && |p.sets| <= |p'.sets| && OthersStay(p, p', t)
    requires forall k :: 0 <= k < |p.sets| && k != id ==> p'.sets[k] == p.sets[k] && (k in p'.stale <==> k in p.stale)
    requires forall k :: k != id && Minds(p, t, k) ==> Minds(p', t, k)
    requires forall k :: k != id && Drains(p, t, k) ==> Drains(p', t, k)
    ensures forall k {:trigger Cared(p', k)} :: 0 <= k < |p.sets| && k != id ==> Cared(p', k)
  {
    forall k | 0 <= k < |p.sets| && k != id ensures Cared(p', k) {
      assert Cared(p, k);
      KeepWatch(p, p', t, k);
    }
  }

  lemma KeepWatch(p: Pool, p': Pool, t: nat, k: nat)
    requires OthersStay(p, p', t) && (Minds(p, t, k) ==> Minds(p', t, k)) && (Drains(p, t, k) ==> Drains(p', t, k))
    ensures Watched(p, k) ==> Watched(p', k)
    ensures Taken(p, k) ==> Taken(p', k)
  {
    if Watched(p, k) {
      var u :| Minds(p, u, k);
      assert Minds(p', u, k);
    }
    if Taken(p, k) {
      var u :| Drains(p, u, k);
      assert Drains(p', u, k);
    }
  }

  ghost function HeldBy(p: Pool, t: nat, id: nat): int {
    if t in p.callers && p.callers[t] == Holding(id) then 1 else 0
  }

  lemma HolderCount(p: Pool, p': Pool, t: nat, id: nat)
    requires OthersStay(p, p', t)
    ensures |Holders(p', id)| - HeldBy(p', t, id) == |Holders(p, id)| - HeldBy(p, t, id)
  {
    OneLess(Holders(p, id), t);
    OneLess(Holders(p', id), t);
    assert Holders(p', id) - {t} == Holders(p, id) - {t};
  }

  lemma OneLess(s: set<nat>, t: nat)
    ensures |s - {t}| == |s| - if t in s then 1 else 0
  {
    assert t !in s ==> s - {t} == s;
  }

  /** The reference counts after `t` started or stopped holding `id`, or neither. */
  lemma KeepCounts(p: Pool, p': Pool, t: nat)
    requires Counted(p) && |p.sets| <= |p'.sets| && OthersStay(p, p', t)
    requires forall k :: 0 <= k < |p.sets| ==> p'.sets[k].refs - HeldBy(p', t, k) == p.sets[k].refs - HeldBy(p, t, k)
    ensures forall k {:trigger Holders(p', k)} :: 0 <= k < |p.sets| ==> p'.sets[k].refs == |Holders(p', k)|
  {
    forall k | 0 <= k < |p.sets| ensures p'.sets[k].refs == |Holders(p', k)| {
      assert p.sets[k].refs == |Holders(p, k)|;
      HolderCount(p, p', t, k);
    }
  }

  lemma AcquireKeeps(p: Pool, t: nat)
    requires Inv(p) && CanStep(p, Acquire(t))
    ensures Inv(Apply(p, Acquire(t)))
  {
    var p' := Apply(p, Acquire(t));
    if p.current.Some? {
      var id := p.current.value;
      KeepCounts(p, p', t);
      KeepCare(p, p', t, id);
      assert Cared(p, id);
    }
  }

  lemma DecrementKeeps(p: Pool, t: nat)
    requires Inv(p) && CanStep(p, Decrement(t))
    ensures Inv(Apply(p, Decrement(t)))
  {
    var p' := Apply(p, Decrement(t));
    var id := p.callers[t].id;
    KeepCounts(p, p', t);
    KeepCare(p, p', t, id);
    KeepWatch(p, p', t, id);
    assert Cared(p, id);
    assert p'.sets[id].refs == 0 ==> Minds(p', t, id);
    HeldIsReferenced(p, t);
  }

  lemma HeldIsReferenced(p: Pool, t: nat)
    requires Counted(p) && t in p.callers && p.callers[t].Holding?
    ensures p.callers[t].id < |p.sets| && p.sets[p.callers[t].id].refs > 0
  {
    var id := p.callers[t].id;
    assert p.sets[id].refs == |Holders(p, id)|;
    assert t in Holders(p, id);
  }

  lemma RebuildKeeps(p: Pool, t: nat, dialled: bool)
    requires Inv(p) && CanStep(p, Rebuild(t, dialled))
    ensures Inv(Apply(p, Rebuild(t, dialled)))
  {
    var p' := Apply(p, Rebuild(t, dialled));
    var id := p.callers[t].id;
    if p.current == Some(id) && dialled {
      KeepCounts(p, p', t);
      assert Holders(p', |p.sets|) == {};
      KeepCare(p, p', t, id);
      assert Cared(p, id);
      HeldIsReferenced(p, t);
      forall k | 0 <= k < |p'.sets| ensures Cared(p', k) {
        if k == |p.sets| { assert k !in p'.stale; }
      }
    }
  }

  lemma LoadKeeps(p: Pool, t: nat)
    requires Inv(p) && CanStep(p, Load(t))
    ensures Inv(Apply(p, Load(t)))
  {
    var p' := Apply(p, Load(t));
    var id := p.callers[t].id;
    KeepCounts(p, p', t);
    KeepCare(p, p', t, id);
    assert Cared(p, id);
    if p.callers[t].left == 0 && p.sets[id].retired {
      assert Minds(p', t, id);
      KeepWatch(p, p', t, id);
    } else if p.sets[id].retired {
      assert !Minds(p, t, id);
      KeepWatch(p, p', t, id);
    }
  }

  lemma LockedReleaseKeeps(p: Pool, t: nat)
    requires Inv(p) && CanStep(p, LockedRelease(t))
    ensures Inv(Apply(p, LockedRelease(t)))
  {
    var p' := Apply(p, LockedRelease(t));
    var id := p.callers[t].id;
    KeepCounts(p, p', t);
    KeepCare(p, p', t, id);
    assert Cared(p, id);
  }

  lemma CloseNextKeeps(p: Pool, t: nat)
    requires Inv(p) && CanStep(p, CloseNext(t))
    ensures Inv(Apply(p, CloseNext(t)))
  {
    var p' := Apply(p, CloseNext(t));
    var ids := p.callers[t].ids;
    KeepCounts(p, p', t);
    if ids == [] {
      KeepCare(p, p', t, |p.sets|);
    } else {
      CloseFirstKeeps(p, p', t);
    }
  }

  lemma CloseFirstKeeps(p: Pool, p': Pool, t: nat)
    requires Inv(p) && CanStep(p, CloseNext(t)) && p.callers[t].ids != [] && p' == Apply(p, CloseNext(t))
    ensures forall id {:trigger Cared(p', id)} :: 0 <= id < |p'.sets| ==> Cared(p', id)
  {
    var ids := p.callers[t].ids;
    assert ids == [ids[0]] + ids[1..];
    KeepCare(p, p', t, ids[0]);
    assert Cared(p, ids[0]);
  }

  lemma ShutdownKeeps(p: Pool, t: nat, order: seq<nat>)
    requires Inv(p) && CanStep(p, Shutdown(t, order))
    ensures Inv(Apply(p, Shutdown(t, order)))
  {
    var p' := Apply(p, Shutdown(t, order));
    ShutdownCounts(p, t, order);
    forall id | 0 <= id < |p'.sets| ensures Cared(p', id) {
      assert Cared(p, id);
      KeepWatch(p, p', t, id);
      assert id in order <==> id in StaleAtShutdown(p) && p.sets[id].refs == 0;
      assert id in order ==> Drains(p', t, id);
    }
  }

  lemma ShutdownCounts(p: Pool, t: nat, order: seq<nat>)
    requires Inv(p) && CanStep(p, Shutdown(t, order))
    ensures Counted(Apply(p, Shutdown(t, order)))
  {
    var p' := Apply(p, Shutdown(t, order));
    KeepCounts(p, p', t);
    forall id | id in order ensures id < |p.sets| && p'.sets[id].retired && p'.sets[id].refs == 0 && id !in p'.stale {
      var g :| g in StaleAtShutdown(p) && StaleAtShutdown(p)[g] == id && p.sets[id].refs == 0;
    }
  }

  lemma StepKeeps(p: Pool, step: Step)
    requires Inv(p) && CanStep(p, step)
    ensures Inv(Apply(p, step))
  {
    hide Inv, Apply, CanStep;
    match step
    case Acquire(t) => AcquireKeeps(p, t);
    case Rebuild(t, dialled) => RebuildKeeps(p, t, dialled);
    case Decrement(t) => DecrementKeeps(p, t);
    case Load(t) => LoadKeeps(p, t);
    case LockedRelease(t) => LockedReleaseKeeps(p, t);
    case Shutdown(t, order) => ShutdownKeeps(p, t, order);
    case CloseNext(t) => CloseNextKeeps(p, t);
  }

  lemma {:induction false} InvariantThroughout(states: seq<Pool>, steps: seq<Step>, i: nat)
    requires IsRun(states, steps) && i <= |steps|
    ensures Inv(states[i])
  {
    if i == 0 {
      assert Holders(INITIAL, 0) == {};
    } else {
      hide Inv, Apply, CanStep;
      InvariantThroughout(states, steps, i - 1);
      StepKeeps(states[i - 1], steps[i - 1]);
    }
  }

  /** A set that has been closed has no caller that acquired it and has not released it. */
  lemma NeverClosedWhileHeld(states: seq<Pool>, steps: seq<Step>, i: nat, t: nat)
    requires IsRun(states, steps) && i <= |steps|
    requires t in states[i].callers && states[i].callers[t].Holding?
    ensures states[i].callers[t].id < |states[i].sets| && states[i].sets[states[i].callers[t].id].closes == 0
  {
    hide Apply, CanStep;
    var p := states[i];
    InvariantThroughout(states, steps, i);
    HeldIsReferenced(p, t);
    assert Cared(p, p.callers[t].id);
  }

  /** No leak: when no release or Close is midway, `stale` is exactly the retired sets still referenced, and every other
      retired set has been closed. */
  lemma NothingLeaks(states: seq<Pool>, steps: seq<Step>, i: nat, id: nat)
    requires IsRun(states, steps) && i <= |steps| && id < |states[i].sets|
    requires forall t :: t in states[i].callers ==> states[i].callers[t].Holding?
    ensures var p := states[i];
      && (id in p.stale.Values <==> p.sets[id].retired && p.sets[id].refs > 0)
      && (p.sets[id].retired && p.sets[id].refs == 0 ==> p.sets[id].closes > 0)
  {
    hide Apply, CanStep;
    var p := states[i];
    InvariantThroughout(states, steps, i);
    assert Cared(p, id);
    assert p.sets[id].refs == |Holders(p, id)|;
    assert id in p.stale ==> p.stale[id] == id;
  }

  /** Generations never repeat, so deleting by generation removes that set or nothing. */
  lemma LateDeleteIsHarmless(states: seq<Pool>, steps: seq<Step>, i: nat, t: nat)
    requires IsRun(states, steps) && i < |steps| && steps[i] == LockedRelease(t)
    ensures t in states[i].callers && states[i].callers[t].WantsLock?
    ensures forall id :: id in states[i].stale.Values && id !in states[i + 1].stale.Values ==>
      id == states[i].callers[t].id
    ensures forall a, b :: 0 <= a < b < |states[i].sets| ==> states[i].sets[a].gen != states[i].sets[b].gen
  {
    InvariantThroughout(states, steps, i);
    var p := states[i];
    var p' := states[i + 1];
    forall id | id in p.stale.Values && id != p.callers[t].id ensures id in p'.stale.Values {
      assert id in p.stale && p.stale[id] == id;
      assert p'.stale[id] == id;
    }
  }

  /* What is current. */

  /** The rebuilds that replaced the current set, among the first `i` steps: they dialled, and their caller held it. */
  ghost predicate Replaces(p: Pool, step: Step) {
    && step.Rebuild? && step.dialled && step.t in p.callers && p.callers[step.t].Holding?
    && p.current == Some(p.callers[step.t].id)
  }

  ghost function Replacements(states: seq<Pool>, steps: seq<Step>, i: nat): nat
    requires i <= |steps| < |states|
  {
    if i == 0 then 0 else Replacements(states, steps, i - 1) + if Replaces(states[i - 1], steps[i - 1]) then 1 else 0
  }

  lemma CurrentStep(p: Pool, step: Step)
    requires Numbered(p) && CanStep(p, step)
    ensures var p' := Apply(p, step);
      && |p'.sets| == |p.sets| + (if Replaces(p, step) then 1 else 0)
      && p'.current == (if step.Shutdown? then None else if Replaces(p, step) then Some(|p.sets|) else p.current)
  {
  }

  /** In every interleaving: there is a current set until Close is called, it is the newest one, and there are as
      many sets as there were replacements, and the first. */
  lemma {:induction false} CurrentLaw(states: seq<Pool>, steps: seq<Step>, i: nat)
    requires IsRun(states, steps) && i <= |steps|
    ensures |states[i].sets| == 1 + Replacements(states, steps, i)
    ensures states[i].current == Some(Replacements(states, steps, i))
      <==> forall k :: 0 <= k < i ==> !steps[k].Shutdown?
    ensures states[i].current.None? <==> exists k :: 0 <= k < i && steps[k].Shutdown?
  {
    hide Apply, CanStep, Counted, Cared;
    if i > 0 {
      CurrentLaw(states, steps, i - 1);
      InvariantThroughout(states, steps, i - 1);
      CurrentStep(states[i - 1], steps[i - 1]);
    }
  }

  /** A rebuild whose dial fails, or by a holder of a set that is not current any more, changes nothing. */
  lemma IdleRebuild(p: Pool, t: nat, dialled: bool)
    requires CanStep(p, Rebuild(t, dialled)) && (!dialled || p.current != Some(p.callers[t].id))
    ensures Apply(p, Rebuild(t, dialled)) == p
  {
  }

  /** Any other one retires the current set, keeps it in `stale` and appends an unused one of the next generation. */
  lemma RebuildReplaces(p: Pool, t: nat)
    requires CanStep(p, Rebuild(t, true)) && p.current == Some(p.callers[t].id)
    ensures var id, p' := p.callers[t].id, Apply(p, Rebuild(t, true));
      && p'.sets[..|p.sets|] == p.sets[id := p.sets[id].(retired := true)]
      && p'.sets[|p.sets|..] == [PublisherSet(p.sets[id].gen + 1, false, 0, 0)]
      && p'.stale == p.stale[p.sets[id].gen := id] && p'.current == Some(|p.sets|) && p'.callers == p.callers
  {
  }

  /** An acquire gets the current set, and one more reference is counted; without one it gets nothing. */
  lemma AcquireHolds(p: Pool, t: nat)
    requires CanStep(p, Acquire(t))
    ensures var p' := Apply(p, Acquire(t));
      match p.current
      case None => p' == p
      case Some(id) =>
        && p'.callers == p.callers[t := Holding(id)] && p'.sets[id].refs == p.sets[id].refs + 1
        && p' == p.(callers := p'.callers, sets := p.sets[id := p.sets[id].(refs := p'.sets[id].refs)])
  {
  }

  /** A release goes for the lock exactly when its own decrement gave zero and the set is retired at the load, and
      under the lock it closes the set exactly when it is still retired and unreferenced. */
  lemma ReleaseDecides(p: Pool, t: nat)
    ensures CanStep(p, Decrement(t)) ==>
      var id, p' := p.callers[t].id, Apply(p, Decrement(t));
      && p'.callers == p.callers[t := Decremented(id, p.sets[id].refs - 1)]
      && p' == p.(callers := p'.callers, sets := p.sets[id := p.sets[id].(refs := p.sets[id].refs - 1)])
    ensures CanStep(p, Load(t)) ==>
      var id, left, p' := p.callers[t].id, p.callers[t].left, Apply(p, Load(t));
      && p' == p.(callers := p'.callers)
      && p'.callers == if left == 0 && p.sets[id].retired then p.callers[t := WantsLock(id)] else p.callers - {t}
    ensures CanStep(p, LockedRelease(t)) ==>
      var id, p' := p.callers[t].id, Apply(p, LockedRelease(t));
      var closing := p.sets[id].retired && p.sets[id].refs == 0;
      && p'.callers == p.callers - {t} && p'.current == p.current
      && p'.sets == (if closing then p.sets[id := p.sets[id].(closes := p.sets[id].closes + 1)] else p.sets)
      && p'.stale == if closing then p.stale - {p.sets[id].gen} else p.stale
  {
  }

  /** Close retires the current set, leaves the referenced ones in `stale`, and closes exactly the others, one by
      one. */
  lemma ShutdownDrains(p: Pool, t: nat, order: seq<nat>)
    requires Inv(p) && CanStep(p, Shutdown(t, order))
    ensures var p' := Apply(p, Shutdown(t, order));
      && p'.current == None && p'.callers == p.callers[t := Draining(order)] && |p'.sets| == |p.sets|
      && (forall id :: 0 <= id < |p.sets| ==>
            p'.sets[id] == if p.current == Some(id) then p.sets[id].(retired := true) else p.sets[id])
      && (forall id :: id in p'.stale <==> (id in p.stale || p.current == Some(id)) && p.sets[id].refs != 0)
      && (forall id :: id in order <==> (id in p.stale || p.current == Some(id)) && p.sets[id].refs == 0)
  {
    var stale := StaleAtShutdown(p);
    assert forall g :: g in stale ==> stale[g] == g;
    assert forall id :: id in stale <==> id in p.stale || p.current == Some(id);
  }

  lemma CloseNextCloses(p: Pool, t: nat)
    requires CanStep(p, CloseNext(t))
    ensures var ids, p' := p.callers[t].ids, Apply(p, CloseNext(t));
      if ids == [] then p' == p.(callers := p.callers - {t})
      else p' == p.(callers := p.callers[t := Draining(ids[1..])],
                    sets := p.sets[ids[0] := p.sets[ids[0]].(closes := p.sets[ids[0]].closes + 1)])
  {
  }

  /* How often a set is closed. */

  /** The set has been retired, nobody holds it, and it is no longer kept in `stale`. */
  ghost predicate Out(p: Pool, id: nat) {
    id < |p.sets| && p.sets[id].retired && p.sets[id].refs == 0 && id !in p.stale
  }

  ghost function Minders(p: Pool, id: nat): set<nat> {
    set t | t in p.callers && Minds(p, t, id)
  }

  ghost function Drainers(p: Pool, id: nat): set<nat> {
    set t | t in p.callers && Drains(p, t, id)
  }

  /** The closes done, and those still to come. */
  ghost function Total(p: Pool, id: nat): int
    requires id < |p.sets|
  {
    p.sets[id].closes + |Minders(p, id)| + |Drainers(p, id)|
  }

  ghost function Share(p: Pool, t: nat, id: nat): int {
    (if Minds(p, t, id) then 1 else 0) + if Drains(p, t, id) then 1 else 0
  }

  /** No Close has a set twice on its list. */
  ghost predicate Orderly(p: Pool) {
    forall t :: t in p.callers && p.callers[t].Draining? ==> Distinct(p.callers[t].ids)
  }

  lemma OrderlyStep(p: Pool, step: Step)
    requires Orderly(p) && CanStep(p, step)
    ensures Orderly(Apply(p, step))
  {
  }

  lemma {:induction false} OrderlyThroughout(states: seq<Pool>, steps: seq<Step>, i: nat)
    requires IsRun(states, steps) && i <= |steps|
    ensures Orderly(states[i])
  {
    if i > 0 {
      hide Apply, CanStep;
      OrderlyThroughout(states, steps, i - 1);
      OrderlyStep(states[i - 1], steps[i - 1]);
    }
  }

  lemma TotalChange(p: Pool, p': Pool, t: nat, id: nat)
    requires OthersStay(p, p', t) && id < |p.sets| && id < |p'.sets|
    ensures Total(p', id) - p'.sets[id].closes - Share(p', t, id) == Total(p, id) - p.sets[id].closes - Share(p, t, id)
  {
    hide Minders, Drainers;
    MindersChange(p, p', t, id);
    DrainersChange(p, p', t, id);
  }

  lemma MindersChange(p: Pool, p': Pool, t: nat, id: nat)
    requires OthersStay(p, p', t)
    ensures |Minders(p', id)| - (if Minds(p', t, id) then 1 else 0) ==
      |Minders(p, id)| - if Minds(p, t, id) then 1 else 0
  {
    assert forall u :: Minds(p, u, id) <==> u in Minders(p, id);
    assert forall u :: Minds(p', u, id) <==> u in Minders(p', id);
    assert forall u :: u != t ==> (Minds(p, u, id) <==> Minds(p', u, id));
    hide Minds, Minders;
    OneLess(Minders(p, id), t);
    OneLess(Minders(p', id), t);
    assert Minders(p, id) - {t} == Minders(p', id) - {t};
  }

  lemma DrainersChange(p: Pool, p': Pool, t: nat, id: nat)
    requires OthersStay(p, p', t)
    ensures |Drainers(p', id)| - (if Drains(p', t, id) then 1 else 0) ==
      |Drainers(p, id)| - if Drains(p, t, id) then 1 else 0
  {
    assert forall u :: Drains(p, u, id) <==> u in Drainers(p, id);
    assert forall u :: Drains(p', u, id) <==> u in Drainers(p', id);
    assert forall u :: u != t ==> (Drains(p, u, id) <==> Drains(p', u, id));
    hide Drains, Drainers;
    OneLess(Drainers(p, id), t);
    OneLess(Drainers(p', id), t);
    assert Drainers(p, id) - {t} == Drainers(p', id) - {t};
  }

  /** A set that is out stays out, and its total stays the same. */
  lemma OutStep(p: Pool, step: Step, id: nat)
    requires Inv(p) && Orderly(p) && CanStep(p, step) && Out(p, id)
    ensures Out(Apply(p, step), id) && Total(Apply(p, step), id) == Total(p, id)
  {
    hide Total, Orderly;
    StaysOut(p, step, id);
    OneCaller(p, step);
    TotalChange(p, Apply(p, step), step.t, id);
    ShareAndCloses(p, step, id);
  }

  lemma OneCaller(p: Pool, step: Step)
    requires CanStep(p, step)
    ensures OthersStay(p, Apply(p, step), step.t)
  {
  }

  lemma StaysOut(p: Pool, step: Step, id: nat)
    requires Inv(p) && CanStep(p, step) && Out(p, id)
    ensures Out(Apply(p, step), id)
  {
    if step.Decrement? {
      HeldIsReferenced(p, step.t);
    }
  }

  /** A caller that closes the set was counted for it before, and is no longer; no other step counts for it. */
  lemma ShareAndCloses(p: Pool, step: Step, id: nat)
    requires Inv(p) && Orderly(p) && CanStep(p, step) && Out(p, id) && id < |Apply(p, step).sets|
    ensures Apply(p, step).sets[id].closes + Share(Apply(p, step), step.t, id) ==
      p.sets[id].closes + Share(p, step.t, id)
  {
    var p' := Apply(p, step);
    match step
    case Decrement(t) => HeldIsReferenced(p, t);
    case CloseNext(t) =>
      var ids := p.callers[t].ids;
      if ids != [] {
        assert ids == [ids[0]] + ids[1..];
      }
    case _ =>
  }

  /** A set leaves by being closed once, or by being put on the list of one Close. */
  lemma FirstOut(p: Pool, step: Step, id: nat)
    requires Inv(p) && CanStep(p, step) && !Out(p, id) && Out(Apply(p, step), id)
    ensures Total(Apply(p, step), id) == 1 + |Minders(Apply(p, step), id)|
  {
    var p' := Apply(p, step);
    NoneYet(p, step, id);
    match step
    case LockedRelease(t) =>
      assert Drainers(p', id) == {} by { assert forall u :: Drains(p', u, id) ==> Drains(p, u, id); }
    case Shutdown(t, order) =>
      assert id in order;
      assert Drainers(p', id) == {t} by { assert forall u :: Drains(p', u, id) ==> u == t || Drains(p, u, id); }
    case _ =>
  }

  lemma NoneYet(p: Pool, step: Step, id: nat)
    requires Inv(p) && CanStep(p, step) && !Out(p, id) && Out(Apply(p, step), id)
    ensures id < |p.sets| && p.sets[id].closes == 0 && (step.LockedRelease? || step.Shutdown?)
    ensures forall u :: !Drains(p, u, id)
  {
    assert id < |p.sets|;
    assert Cared(p, id);
    if step.Decrement? {
      HeldIsReferenced(p, step.t);
    }
  }

  lemma {:induction false} TotalIsFixed(states: seq<Pool>, steps: seq<Step>, i: nat, j: nat, id: nat)
    requires IsRun(states, steps) && i <= j <= |steps| && Out(states[i], id)
    ensures Out(states[j], id) && Total(states[j], id) == Total(states[i], id)
    decreases j
  {
    hide Apply, CanStep, Inv, Out, Total, Orderly;
    if i < j {
      TotalIsFixed(states, steps, i, j - 1, id);
      InvariantThroughout(states, steps, j - 1);
      OrderlyThroughout(states, steps, j - 1);
      OutStep(states[j - 1], steps[j - 1], id);
    }
  }

  /** Once no call is midway with it, a set has been closed once for leaving, and once more for each release that had
      seen zero before it left and had not looked again. So it is closed exactly once if and only if there was none. */
  lemma HowOftenClosed(states: seq<Pool>, steps: seq<Step>, i: nat, j: nat, id: nat)
    requires IsRun(states, steps) && i < j <= |steps| && !Out(states[i], id) && Out(states[i + 1], id)
    requires forall t :: !Minds(states[j], t, id) && !Drains(states[j], t, id)
    ensures id < |states[j].sets| && states[j].sets[id].closes == 1 + |Minders(states[i + 1], id)|
    ensures states[j].sets[id].closes == 1 <==> !Watched(states[i + 1], id)
  {
    hide Apply, CanStep, Inv;
    InvariantThroughout(states, steps, i);
    FirstOut(states[i], steps[i], id);
    TotalIsFixed(states, steps, i + 1, j, id);
    assert Minders(states[j], id) == {} && Drainers(states[j], id) == {};
    WatchedHasMinder(states[i + 1], id);
  }

  lemma WatchedHasMinder(p: Pool, id: nat)
    ensures Watched(p, id) <==> |Minders(p, id)| > 0
  {
    if t :| Minds(p, t, id) {
      assert t in Minders(p, id);
    } else {
      assert Minders(p, id) == {};
    }
  }

  /** Every set that has been closed left in some step. */
  lemma {:induction false} ClosedHasLeft(states: seq<Pool>, steps: seq<Step>, j: nat, id: nat) returns (i: nat)
    requires IsRun(states, steps) && j <= |steps| && id < |states[j].sets| && states[j].sets[id].closes > 0
    ensures i < j && !Out(states[i], id) && Out(states[i + 1], id)
  {
    hide Apply, CanStep;
    InvariantThroughout(states, steps, j);
    assert Cared(states[j], id);
    i := LeftBefore(states, steps, j, id);
  }

  lemma {:induction false} LeftBefore(states: seq<Pool>, steps: seq<Step>, j: nat, id: nat) returns (i: nat)
    requires IsRun(states, steps) && j <= |steps| && Out(states[j], id)
    ensures i < j && !Out(states[i], id) && Out(states[i + 1], id)
  {
    hide Apply, CanStep;
    if j > 0 && Out(states[j - 1], id) {
      i := LeftBefore(states, steps, j - 1, id);
    } else {
      i := j - 1;
    }
  }

  /* Both ways of being closed twice. First: a releaser that saw zero before the set was retired. */

  function TwiceStep(i: nat): Step {
    match i
    case 0 => Acquire(1)
    case 1 => Decrement(1)
    case 2 => Acquire(2)
    case 3 => Rebuild(2, true)
    case 4 => Decrement(2)
    case 5 => Load(2)
    case 6 => LockedRelease(2)
    case 7 => Load(1)
    case _ => LockedRelease(1)
  }

  function TwiceState(i: nat): Pool {
    var next := PublisherSet(1, false, 0, 0);
    match i
    case 0 => INITIAL
    case 1 => Pool([PublisherSet(0, false, 1, 0)], Some(0), map[], map[1 := Holding(0)])
    case 2 => Pool([PublisherSet(0, false, 0, 0)], Some(0), map[], map[1 := Decremented(0, 0)])
    case 3 => Pool([PublisherSet(0, false, 1, 0)], Some(0), map[], map[1 := Decremented(0, 0), 2 := Holding(0)])
    case 4 => Pool([PublisherSet(0, true, 1, 0), next], Some(1), map[0 := 0],
                   map[1 := Decremented(0, 0), 2 := Holding(0)])
    case 5 => Pool([PublisherSet(0, true, 0, 0), next], Some(1), map[0 := 0],
                   map[1 := Decremented(0, 0), 2 := Decremented(0, 0)])
    case 6 => Pool([PublisherSet(0, true, 0, 0), next], Some(1), map[0 := 0],
                   map[1 := Decremented(0, 0), 2 := WantsLock(0)])
    case 7 => Pool([PublisherSet(0, true, 0, 1), next], Some(1), map[], map[1 := Decremented(0, 0)])
    case 8 => Pool([PublisherSet(0, true, 0, 1), next], Some(1), map[], map[1 := WantsLock(0)])
    case _ => Pool([PublisherSet(0, true, 0, 2), next], Some(1), map[], map[])
  }

  lemma TwiceStepOk(i: nat)
    requires i < 9
    ensures CanStep(TwiceState(i), TwiceStep(i)) && Apply(TwiceState(i), TwiceStep(i)) == TwiceState(i + 1)
  {
    var p, p' := TwiceState(i), TwiceState(i + 1);
    assert Apply(p, TwiceStep(i)).sets == p'.sets;
    assert Apply(p, TwiceStep(i)).stale == p'.stale;
    assert Apply(p, TwiceStep(i)).callers == p'.callers;
  }

  lemma ClosedTwice() returns (states: seq<Pool>, steps: seq<Step>)
    ensures IsRun(states, steps) && |states| == 10 && |states[9].sets| > 0 && states[9].sets[0].closes == 2
  {
    states, steps := seq(10, i requires i >= 0 => TwiceState(i)), seq(9, i requires i >= 0 => TwiceStep(i));
    assert states[9] == TwiceState(9);
    hide CanStep, Apply, TwiceStep;
    forall i | 0 <= i < |steps| ensures CanStep(states[i], steps[i]) && states[i + 1] == Apply(states[i], steps[i]) {
      TwiceStepOk(i);
    }
  }

  /* Second: a releaser that saw zero after, and was overtaken by Close. */

  function OvertakenStep(i: nat): Step {
    match i
    case 0 => Acquire(2)
    case 1 => Rebuild(2, true)
    case 2 => Decrement(2)
    case 3 => Load(2)
    case 4 => Shutdown(3, [0, 1])
    case 5 => CloseNext(3)
    case _ => LockedRelease(2)
  }

  function OvertakenState(i: nat): Pool {
    var next := PublisherSet(1, false, 0, 0);
    var last := PublisherSet(1, true, 0, 0);
    match i
    case 0 => INITIAL
    case 1 => Pool([PublisherSet(0, false, 1, 0)], Some(0), map[], map[2 := Holding(0)])
    case 2 => Pool([PublisherSet(0, true, 1, 0), next], Some(1), map[0 := 0], map[2 := Holding(0)])
    case 3 => Pool([PublisherSet(0, true, 0, 0), next], Some(1), map[0 := 0], map[2 := Decremented(0, 0)])
    case 4 => Pool([PublisherSet(0, true, 0, 0), next], Some(1), map[0 := 0], map[2 := WantsLock(0)])
    case 5 => Pool([PublisherSet(0, true, 0, 0), last], None, map[], map[2 := WantsLock(0), 3 := Draining([0, 1])])
    case 6 => Pool([PublisherSet(0, true, 0, 1), last], None, map[], map[2 := WantsLock(0), 3 := Draining([1])])
    case _ => Pool([PublisherSet(0, true, 0, 2), last], None, map[], map[3 := Draining([1])])
  }

  lemma OvertakenStepOk(i: nat)
    requires i < 7
    ensures CanStep(OvertakenState(i), OvertakenStep(i))
    ensures Apply(OvertakenState(i), OvertakenStep(i)) == OvertakenState(i + 1)
  {
    if i == 4 {
      OvertakenShutdown();
    } else {
      var p, p' := OvertakenState(i), OvertakenState(i + 1);
      assert Apply(p, OvertakenStep(i)).sets == p'.sets;
      assert Apply(p, OvertakenStep(i)).stale == p'.stale;
      assert Apply(p, OvertakenStep(i)).callers == p'.callers;
    }
  }

  lemma OvertakenShutdown()
    ensures CanStep(OvertakenState(4), Shutdown(3, [0, 1]))
    ensures Apply(OvertakenState(4), Shutdown(3, [0, 1])) == OvertakenState(5)
  {
    var p := OvertakenState(4);
    ShutdownTakesBoth(p);
    hide CanStep;
    var stale := StaleAtShutdown(p);
    assert (map g | g in stale && p.sets[stale[g]].refs != 0 :: stale[g]) == map[];
  }

  lemma ShutdownTakesBoth(p: Pool)
    requires |p.sets| == 2 && p.sets[0].refs == 0 && p.sets[1].refs == 0 && 3 !in p.callers
    requires p.current == Some(1) && p.sets[1].gen == 1 && p.stale == map[0 := 0]
    ensures StaleAtShutdown(p) == map[0 := 0, 1 := 1] && CanStep(p, Shutdown(3, [0, 1]))
  {
    var stale := StaleAtShutdown(p);
    assert stale == map[0 := 0, 1 := 1];
    assert stale[0] == 0 && stale[1] == 1;
  }

  lemma ClosedTwiceByClose() returns (states: seq<Pool>, steps: seq<Step>)
    ensures IsRun(states, steps) && |states| == 8 && |states[7].sets| > 0 && states[7].sets[0].closes == 2
  {
    states, steps := seq(8, i requires i >= 0 => OvertakenState(i)), seq(7, i requires i >= 0 => OvertakenStep(i));
    assert states[7] == OvertakenState(7);
    hide CanStep, Apply, OvertakenStep;
    forall i | 0 <= i < |steps| ensures CanStep(states[i], steps[i]) && states[i + 1] == Apply(states[i], steps[i]) {
      OvertakenStepOk(i);
    }
  }
}
