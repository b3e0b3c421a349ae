/** The leased-queue protocol over every interleaving of workers: who may finish
    a job, and how many unexpired leases it can have. */
module LeaseProtocol {
  import opened LeasedQueue

  datatype Grant = Grant(id: string, until: int)

  /** The queue with the history of the tokens handed out. The clock is the
      latest time any worker has read; no order of the readings is assumed. */
  datatype State = State(
    jobs: Jobs,
    clock: int,
    issued: map<string, Grant>,
    finished: set<string>,
    newest: map<string, string>)

  datatype Action =
    | Enqueue(job: Job)
    | Reserve(id: string, now: int, token: string, until: int)
    | Recover(id: string, now: int)
    | Release(id: string, token: string, availableAt: int, error: string)
    | Complete(id: string, token: string)
    | Fail(id: string, token: string, failedAt: int, error: string)
    | Retry(id: string, availableAt: int)
    | Forget(id: string)

  const INITIAL := State(map[], ZERO_TIME, map[], {}, map[])

  predicate Enabled(s: State, a: Action) {
    match a
    case Enqueue(job) => job.id !in s.jobs
    case Reserve(id, now, token, until) =>
      id in s.jobs && Eligible(s.jobs[id], now) && token != NO_TOKEN && token !in s.issued
    case Recover(id, now) => id in s.jobs && s.jobs[id].token != NO_TOKEN && s.jobs[id].reservedUntil <= now
    case Release(id, token, _, _) => Holds(s.jobs, id, token)
    case Complete(id, token) => Holds(s.jobs, id, token)
    case Fail(id, token, _, _) => Holds(s.jobs, id, token)
    case Retry(id, _) => IsFailed(s.jobs, id)
    case Forget(id) => IsFailed(s.jobs, id)
  }

  function Later(a: int, b: int): int {
    if a < b then b else a
  }

  function Next(s: State, a: Action): State
    requires Enabled(s, a)
  {
    match a
    case Enqueue(job) => s.(jobs := Enqueued(s.jobs, job))
    case Reserve(id, now, token, until) =>
      s.(jobs := Reserved(s.jobs, id, token, until), clock := Later(s.clock, now),
         issued := s.issued[token := Grant(id, until)], newest := s.newest[id := token])
    case Recover(id, now) => s.(jobs := Recovered(s.jobs, id), clock := Later(s.clock, now))
    case Release(id, token, at, error) => s.(jobs := Released(s.jobs, id, at, error), finished := s.finished + {token})
    case Complete(id, token) => s.(jobs := s.jobs - {id}, finished := s.finished + {token})
    case Fail(id, token, at, error) => s.(jobs := Failed(s.jobs, id, at, error), finished := s.finished + {token})
    case Retry(id, at) => s.(jobs := Retried(s.jobs, id, at))
    case Forget(id) => s.(jobs := s.jobs - {id})
  }

  /** The token of a record is the newest of its job and still unfinished. */
  ghost predicate HoldersKnown(s: State) {
    && (forall id | id in s.jobs && s.jobs[id].token != NO_TOKEN ::
          && s.jobs[id].failedAt == ZERO_TIME
          && s.jobs[id].token in s.issued && s.issued[s.jobs[id].token] == Grant(id, s.jobs[id].reservedUntil)
          && s.jobs[id].token !in s.finished
          && id in s.newest && s.newest[id] == s.jobs[id].token)
    && (forall id | id in s.jobs && s.jobs[id].token == NO_TOKEN :: s.jobs[id].reservedUntil == ZERO_TIME)
  }

  /** An unfinished token is still the holder, or its lease has run out. */
  ghost predicate TokensAccounted(s: State) {
    && (forall t | t in s.issued && t !in s.finished ::
          Holds(s.jobs, s.issued[t].id, t) || s.issued[t].until <= s.clock)
    && s.finished <= s.issued.Keys
    && NO_TOKEN !in s.issued
  }

  ghost predicate Inv(s: State) {
    Keyed(s.jobs) && HoldersKnown(s) && TokensAccounted(s)
  }

  lemma InitialInv()
    ensures Inv(INITIAL)
  {
  }

  lemma NextKeepsHolders(s: State, a: Action)
    requires Inv(s) && Enabled(s, a)
    ensures Keyed(Next(s, a).jobs) && HoldersKnown(Next(s, a))
  {
    var n := Next(s, a);
    forall id | id in n.jobs
      ensures n.jobs[id].job.id == id
      ensures n.jobs[id].token == NO_TOKEN ==> n.jobs[id].reservedUntil == ZERO_TIME
      ensures n.jobs[id].token != NO_TOKEN ==> n.jobs[id].failedAt == ZERO_TIME
    {
    }
  }

  lemma NextKeepsTokens(s: State, a: Action)
    requires Inv(s) && Enabled(s, a)
    ensures TokensAccounted(Next(s, a))
  {
  }

  lemma NextKeepsInv(s: State, a: Action)
    requires Inv(s) && Enabled(s, a)
    ensures Inv(Next(s, a))
  {
    NextKeepsHolders(s, a);
    NextKeepsTokens(s, a);
  }

  // ---- What the invariant means ----

  /** A lease that was granted, not given back, and not yet expired. */
  ghost predicate Unexpired(s: State, id: string, token: string) {
    token in s.issued && s.issued[token].id == id && token !in s.finished && s.clock < s.issued[token].until
  }

  lemma OneUnexpiredLease(s: State, id: string, a: string, b: string)
    requires Inv(s) && Unexpired(s, id, a) && Unexpired(s, id, b)
    ensures a == b && Holds(s.jobs, id, a)
  {
  }

  /** The token an action gives back. */
  function Finishes(a: Action): string {
    match a
    case Release(_, token, _, _) => token
    case Complete(_, token) => token
    case Fail(_, token, _, _) => token
    case _ => NO_TOKEN
  }

  lemma OnlyTheNewestFinishes(s: State, a: Action)
    requires Inv(s) && Enabled(s, a) && Finishes(a) != NO_TOKEN
    ensures a.id in s.newest && s.newest[a.id] == Finishes(a)
    ensures Finishes(a) in s.issued && s.issued[Finishes(a)].id == a.id
    ensures Finishes(a) !in s.finished && Finishes(a) in Next(s, a).finished
  {
  }

  // ---- Every run ----

  predicate Runs(s: State, actions: seq<Action>)
    decreases |actions|
  {
    actions == [] || (Enabled(s, actions[0]) && Runs(Next(s, actions[0]), actions[1..]))
  }

  function After(s: State, actions: seq<Action>): State
    requires Runs(s, actions)
    decreases |actions|
  {
    if actions == [] then s else After(Next(s, actions[0]), actions[1..])
  }

  lemma {:induction false} RunKeepsInv(s: State, actions: seq<Action>)
    requires Inv(s) && Runs(s, actions)
    ensures Inv(After(s, actions)) && s.clock <= After(s, actions).clock && s.finished <= After(s, actions).finished
    ensures s.issued.Keys <= After(s, actions).issued.Keys
    decreases |actions|
  {
    if actions != [] {
      NextKeepsInv(s, actions[0]);
      RunKeepsInv(Next(s, actions[0]), actions[1..]);
    }
  }

  lemma {:induction false} FinishedStays(s: State, actions: seq<Action>, i: nat, token: string)
    requires Inv(s) && Runs(s, actions) && i < |actions| && token in s.finished && token != NO_TOKEN
    ensures Finishes(actions[i]) != token
    decreases |actions|
  {
    if i == 0 {
      if Finishes(actions[0]) == token {
        OnlyTheNewestFinishes(s, actions[0]);
      }
    } else {
      NextKeepsInv(s, actions[0]);
      FinishedStays(Next(s, actions[0]), actions[1..], i - 1, token);
    }
  }

  /** No token is given back twice, whatever the workers do in between. */
  lemma {:induction false} EachTokenFinishesOnce(s: State, actions: seq<Action>, i: nat, j: nat)
    requires Inv(s) && Runs(s, actions) && i < j < |actions| && Finishes(actions[i]) != NO_TOKEN
    ensures Finishes(actions[j]) != Finishes(actions[i])
    decreases |actions|
  {
    NextKeepsInv(s, actions[0]);
    if i == 0 {
      OnlyTheNewestFinishes(s, actions[0]);
      FinishedStays(Next(s, actions[0]), actions[1..], j - 1, Finishes(actions[0]));
    } else {
      EachTokenFinishesOnce(Next(s, actions[0]), actions[1..], i - 1, j - 1);
    }
  }

  lemma {:induction false} RunsOn(s: State, actions: seq<Action>, more: seq<Action>)
    requires Runs(s, actions) && Runs(After(s, actions), more)
    ensures Runs(s, actions + more) && After(s, actions + more) == After(After(s, actions), more)
    decreases |actions|
  {
    if actions == [] {
      assert actions + more == more;
    } else {
      RunsOn(Next(s, actions[0]), actions[1..], more);
      assert (actions + more)[1..] == actions[1..] + more;
    }
  }

  lemma RunsOneMore(s: State, actions: seq<Action>, a: Action)
    requires Runs(s, actions) && Enabled(After(s, actions), a)
    ensures Runs(s, actions + [a]) && After(s, actions + [a]) == Next(After(s, actions), a)
  {
    assert [a][1..] == [];
    RunsOn(s, actions, [a]);
  }

  /** In every reachable state a job has at most one unexpired lease, and only
      the newest token of a job can give it back, once. */
  lemma LeaseSafety(actions: seq<Action>, id: string, a: string, b: string, last: Action)
    requires Runs(INITIAL, actions)
    ensures var s := After(INITIAL, actions);
            && (Unexpired(s, id, a) && Unexpired(s, id, b) ==> a == b)
            && (Enabled(s, last) && Finishes(last) != NO_TOKEN ==>
                  last.id in s.newest && s.newest[last.id] == Finishes(last) && Finishes(last) !in s.finished)
  {
    InitialInv();
    RunKeepsInv(INITIAL, actions);
    var s := After(INITIAL, actions);
    if Unexpired(s, id, a) && Unexpired(s, id, b) {
      OneUnexpiredLease(s, id, a, b);
    }
    if Enabled(s, last) && Finishes(last) != NO_TOKEN {
      OnlyTheNewestFinishes(s, last);
    }
  }
}
