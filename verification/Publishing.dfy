/**
 * Publishing one job message: the retry loop of RabbitClient.Publish inside the retry loop of enqueueJob. What the
 * broker, the connection and the clock do is given by oracles that are asked in order.
 */
module Publishing {

  const MAX_ATTEMPTS := 3  // both maxPublishAttempts constants

  datatype Reconnect = Reopened | ConnectionGone | ReopenFailed

  /** The outcome of one publishOnce call and of the reconnect and the pause that would follow it. */
  datatype Attempt = Attempt(confirmed: bool, reconnect: Reconnect, slept: bool)

  /** What Publish returns: errors.Is(err, ErrConnectionClosed) is all its caller looks at. */
  datatype Result = Delivered | ConnectionClosed | OtherError

  /** RabbitClient.Publish from the given attempt on; `n` publishOnce calls were made before it. Returns the calls
      made so far. */
  function PublishFrom(env: nat -> Attempt, n: nat, attempt: nat): (Result, nat)
    decreases MAX_ATTEMPTS - attempt
  {
    var a := env(n);
    if a.confirmed then (Delivered, n + 1)
    else if attempt >= MAX_ATTEMPTS then (OtherError, n + 1)
    else if a.reconnect.ConnectionGone? then (ConnectionClosed, n + 1)
    else if !a.slept then (OtherError, n + 1)
    else PublishFrom(env, n + 1, attempt + 1)
  }

  method Publish(env: nat -> Attempt, n: nat) returns (result: Result, calls: nat)
    ensures (result, calls) == PublishFrom(env, n, 1)
  {
    calls := n;
    var attempt := 1;
    while attempt <= MAX_ATTEMPTS
      invariant 1 <= attempt <= MAX_ATTEMPTS
      invariant PublishFrom(env, n, 1) == PublishFrom(env, calls, attempt)
      decreases MAX_ATTEMPTS - attempt
    {
      var a := env(calls);
      calls := calls + 1;
      if a.confirmed {
        return Delivered, calls;
      }
      if attempt == MAX_ATTEMPTS {
        break;
      }
      if a.reconnect.ConnectionGone? {
        return ConnectionClosed, calls;
      }
      if !a.slept {
        return OtherError, calls;
      }
      attempt := attempt + 1;
    }
    return OtherError, calls;
  }

  /** What enqueueJob does to the publisher manager, in order. */
  datatype Action = Acquired(id: nat) | Rebuilt(id: nat, ok: bool) | Released(id: nat)

  datatype Acquisition = NoSet | Set(id: nat)

  datatype Enqueue = Enqueue(result: Result, calls: nat, actions: seq<Action>)

  /** Oracles for enqueueJob: the current set and the rebuild outcome at each of its attempts. */
  datatype Manager = Manager(acquire: nat -> Acquisition, rebuild: nat -> bool)

  /** enqueueJob from the given attempt on; a nil current set and a failed rebuild are errors of their own. */
  function EnqueueFrom(env: nat -> Attempt, m: Manager, n: nat, attempt: nat): Enqueue
    decreases MAX_ATTEMPTS - attempt
  {
    match m.acquire(attempt)
    case NoSet => Enqueue(OtherError, n, [])
    case Set(id) =>
      var (result, calls) := PublishFrom(env, n, 1);
      if !result.ConnectionClosed? then Enqueue(result, calls, [Acquired(id), Released(id)]) else
      var ok := m.rebuild(attempt);
      var here := [Acquired(id), Rebuilt(id, ok), Released(id)];
      if !ok then Enqueue(OtherError, calls, here)
      else if attempt >= MAX_ATTEMPTS then Enqueue(ConnectionClosed, calls, here)
      else
        var rest := EnqueueFrom(env, m, calls, attempt + 1);
        rest.(actions := here + rest.actions)
  }

  /** What went before an enqueueJob that is `rest` from here on. */
  ghost function After(actions: seq<Action>, rest: Enqueue): Enqueue {
    rest.(actions := actions + rest.actions)
  }

  /** One round of the loop of enqueueJob; `again` if it ends in `continue`. */
  method EnqueueRound(env: nat -> Attempt, m: Manager, n: nat, attempt: nat)
    returns (again: bool, result: Result, calls: nat, actions: seq<Action>)
    requires 1 <= attempt <= MAX_ATTEMPTS
    ensures EnqueueFrom(env, m, n, attempt) ==
      if again && attempt < MAX_ATTEMPTS then After(actions, EnqueueFrom(env, m, calls, attempt + 1))
      else Enqueue(result, calls, actions)
  {
    hide PublishFrom;
    var set' := m.acquire(attempt);
    if set'.NoSet? {
      return false, OtherError, n, [];
    }
    result, calls := Publish(env, n);
    if !result.ConnectionClosed? {
      return false, result, calls, [Acquired(set'.id), Released(set'.id)];
    }
    again := m.rebuild(attempt);
    actions := [Acquired(set'.id), Rebuilt(set'.id, again), Released(set'.id)];
    if !again {
      result := OtherError;
    }
  }

  lemma AfterBoth(first: seq<Action>, second: seq<Action>, rest: Enqueue)
    ensures After(first, After(second, rest)) == After(first + second, rest)
  {
    assert first + (second + rest.actions) == (first + second) + rest.actions;
  }

  /** enqueueJob; `actions` is the trace of what it does to the manager. */
  method EnqueueJob(env: nat -> Attempt, m: Manager) returns (result: Result, calls: nat, actions: seq<Action>)
    ensures Enqueue(result, calls, actions) == EnqueueFrom(env, m, 0, 1)
  {
    hide EnqueueFrom;
    calls, actions, result := 0, [], OtherError;
    var attempt, again := 1, true;
    while again && attempt <= MAX_ATTEMPTS
      invariant 1 <= attempt <= MAX_ATTEMPTS + 1
      invariant EnqueueFrom(env, m, 0, 1) ==
        if again && attempt <= MAX_ATTEMPTS then After(actions, EnqueueFrom(env, m, calls, attempt))
        else Enqueue(result, calls, actions)
      decreases MAX_ATTEMPTS + 1 - attempt
    {
      var done;
      again, result, calls, done := EnqueueRound(env, m, calls, attempt);
      AfterBoth(actions, done, EnqueueFrom(env, m, calls, attempt + 1));
      actions, attempt := actions + done, attempt + 1;
    }
  }

  /** One Publish makes one to three calls; giving up on a closed connection costs at most two; success means that
      the last call was confirmed and no earlier one was. */
  lemma {:induction false} PublishBound(env: nat -> Attempt, n: nat, attempt: nat)
    requires 1 <= attempt <= MAX_ATTEMPTS
    ensures var (result, calls) := PublishFrom(env, n, attempt);
      && n < calls <= n + MAX_ATTEMPTS + 1 - attempt
      && (result.ConnectionClosed? ==> calls <= n + MAX_ATTEMPTS - attempt)
      && (result.Delivered? <==> env(calls - 1).confirmed)
      && forall k :: n <= k < calls - 1 ==> !env(k).confirmed
    decreases MAX_ATTEMPTS - attempt
  {
    var a := env(n);
    if !a.confirmed && attempt < MAX_ATTEMPTS && !a.reconnect.ConnectionGone? && a.slept {
      PublishBound(env, n + 1, attempt + 1);
    }
  }

  /** The calls left to the attempts from `attempt` on: two for each but the last, three for the last. */
  function Budget(attempt: nat): nat
    requires 1 <= attempt <= MAX_ATTEMPTS
  {
    2 * (MAX_ATTEMPTS - attempt) + 3
  }

  /** Every Acquired is followed by the Released of the same set before anything else is acquired, with at most a
      rebuild of that set, by its holder, in between. */
  ghost predicate Balanced(actions: seq<Action>) {
    actions == [] ||
    (&& actions[0].Acquired?
     && (var rest := if |actions| > 1 && actions[1].Rebuilt? then 2 else 1;
         && rest < |actions| && actions[rest] == Released(actions[0].id)
         && (rest == 2 ==> actions[1].id == actions[0].id)
         && Balanced(actions[rest + 1..])))
  }

  lemma {:induction false} EnqueueBoundFrom(env: nat -> Attempt, m: Manager, n: nat, attempt: nat)
    requires 1 <= attempt <= MAX_ATTEMPTS
    ensures var e := EnqueueFrom(env, m, n, attempt);
      && n <= e.calls <= n + Budget(attempt)
      && (e.result.Delivered? ==> e.calls > n)
      && (e.calls > n ==> (e.result.Delivered? <==> env(e.calls - 1).confirmed))
      && (forall k :: n <= k < e.calls - 1 ==> !env(k).confirmed)
      && Balanced(e.actions)
    decreases MAX_ATTEMPTS - attempt
  {
    hide PublishFrom;
    PublishBound(env, n, 1);
    if m.acquire(attempt).Set? {
      var (result, calls) := PublishFrom(env, n, 1);
      if result.ConnectionClosed? && m.rebuild(attempt) && attempt < MAX_ATTEMPTS {
        EnqueueBoundFrom(env, m, calls, attempt + 1);
        var id := m.acquire(attempt).id;
        var here := [Acquired(id), Rebuilt(id, true), Released(id)];
        var rest := EnqueueFrom(env, m, calls, attempt + 1);
        assert (here + rest.actions)[3..] == rest.actions;
      }
    }
  }

  /** One enqueueJob makes at most seven publishOnce calls, returns nil exactly when the last of them was confirmed,
      never publishes after a confirmation, and releases each set it acquired exactly once. */
  lemma EnqueueBound(env: nat -> Attempt, m: Manager)
    ensures var e := EnqueueFrom(env, m, 0, 1);
      && e.calls <= 7
      && (e.result.Delivered? <==> e.calls > 0 && env(e.calls - 1).confirmed)
      && (forall k :: 0 <= k < e.calls - 1 ==> !env(k).confirmed)
      && Balanced(e.actions)
  {
    EnqueueBoundFrom(env, m, 0, 1);
  }

  /** Seven calls are reached: the connection is lost after two attempts, twice, and the third set uses all three. */
  lemma SevenIsReached()
    ensures exists env, m :: EnqueueFrom(env, m, 0, 1).calls == 7
  {
    var env: nat -> Attempt := n => Attempt(false, if n == 1 || n == 3 then ConnectionGone else Reopened, true);
    var m := Manager(_ => Set(0), _ => true);
    assert PublishFrom(env, 0, 1) == PublishFrom(env, 1, 2) == (ConnectionClosed, 2);
    assert PublishFrom(env, 2, 1) == PublishFrom(env, 3, 2) == (ConnectionClosed, 4);
    assert PublishFrom(env, 4, 1) == PublishFrom(env, 5, 2) == PublishFrom(env, 6, 3) == (OtherError, 7);
    assert EnqueueFrom(env, m, 4, 3).calls == 7;
    assert EnqueueFrom(env, m, 2, 2).calls == 7;
    assert EnqueueFrom(env, m, 0, 1).calls == 7;
  }

  /* When another attempt is made. */

  /** Neither confirmed, nor told that the connection is gone, nor cut short in the pause. */
  predicate GoesOn(a: Attempt) {
    !a.confirmed && !a.reconnect.ConnectionGone? && a.slept
  }

  /** The calls of one Publish, exactly: another one follows each that goes on, up to the third, and the last one
      decides. */
  lemma {:induction false} PublishStops(env: nat -> Attempt, n: nat, attempt: nat)
    requires 1 <= attempt <= MAX_ATTEMPTS
    ensures var (result, calls) := PublishFrom(env, n, attempt);
      && n < calls <= n + 4 - attempt
      && (forall k :: n <= k < calls - 1 ==> GoesOn(env(k)))
      && (GoesOn(env(calls - 1)) ==> calls == n + 4 - attempt)
      && result == if env(calls - 1).confirmed then Delivered
                   else if calls < n + 4 - attempt && env(calls - 1).reconnect.ConnectionGone? then ConnectionClosed
                   else OtherError
    decreases MAX_ATTEMPTS - attempt
  {
    if GoesOn(env(n)) && attempt < MAX_ATTEMPTS {
      PublishStops(env, n + 1, attempt + 1);
    }
  }

  /** One round of enqueueJob: what was acquired, what the Publish made of it, and whether the rebuild succeeded. */
  datatype Round = Round(id: nat, result: Result, calls: nat, rebuilt: bool)

  function RoundActions(r: Round): seq<Action> {
    if r.result.ConnectionClosed? then [Acquired(r.id), Rebuilt(r.id, r.rebuilt), Released(r.id)]
    else [Acquired(r.id), Released(r.id)]
  }

  function AllActions(rounds: seq<Round>): seq<Action> {
    if rounds == [] then [] else RoundActions(rounds[0]) + AllActions(rounds[1..])
  }

  /** The j-th round is what the oracles say for its attempt, with the calls counted on from those before. */
  ghost predicate IsRound(env: nat -> Attempt, m: Manager, n: nat, attempt: nat, rounds: seq<Round>, j: nat)
    requires j < |rounds|
  {
    && m.acquire(attempt + j) == Set(rounds[j].id) && rounds[j].rebuilt == m.rebuild(attempt + j)
    && PublishFrom(env, if j == 0 then n else rounds[j - 1].calls, 1) == (rounds[j].result, rounds[j].calls)
  }

  /** A closed connection and a successful rebuild. */
  predicate RoundGoesOn(r: Round) {
    r.result.ConnectionClosed? && r.rebuilt
  }

  /** The rounds of enqueueJob, exactly: another one follows each that goes on, up to the third, unless there is no
      set. */
  lemma {:induction false} EnqueueStops(env: nat -> Attempt, m: Manager, n: nat, attempt: nat)
    returns (rounds: seq<Round>)
    requires 1 <= attempt <= MAX_ATTEMPTS
    ensures |rounds| <= 4 - attempt
    ensures forall j :: 0 <= j < |rounds| ==> IsRound(env, m, n, attempt, rounds, j)
    ensures forall j :: 0 <= j < |rounds| - 1 ==> RoundGoesOn(rounds[j])
    ensures |rounds| < 4 - attempt && (rounds == [] || RoundGoesOn(rounds[|rounds| - 1])) ==>
      m.acquire(attempt + |rounds|).NoSet?
    ensures var last := if rounds == [] then n else rounds[|rounds| - 1].calls;
      EnqueueFrom(env, m, n, attempt) ==
        Enqueue(if rounds == [] then OtherError
                else if !rounds[|rounds| - 1].result.ConnectionClosed? then rounds[|rounds| - 1].result
                else if !rounds[|rounds| - 1].rebuilt || |rounds| < 4 - attempt then OtherError
                else ConnectionClosed, last, AllActions(rounds))
    decreases MAX_ATTEMPTS - attempt
  {
    hide PublishFrom;
    if m.acquire(attempt).NoSet? {
      rounds := [];
    } else {
      var (result, calls) := PublishFrom(env, n, 1);
      var round := Round(m.acquire(attempt).id, result, calls, m.rebuild(attempt));
      if RoundGoesOn(round) && attempt < MAX_ATTEMPTS {
        var more := EnqueueStops(env, m, calls, attempt + 1);
        rounds := [round] + more;
        assert rounds[1..] == more;
        forall j | 0 <= j < |rounds| ensures IsRound(env, m, n, attempt, rounds, j) {
          if j > 0 {
            assert IsRound(env, m, calls, attempt + 1, more, j - 1);
            assert attempt + 1 + (j - 1) == attempt + j;
          }
        }
      } else {
        rounds := [round];
        assert rounds[1..] == [] && RoundActions(round) + [] == RoundActions(round);
      }
    }
  }
}
