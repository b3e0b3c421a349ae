/** The SQL job store: Reserve selects a row and then updates it under a
    condition, so the row may change in between. */
module SqlJobStores {
  import opened Wrappers
  import opened LeasedQueue
  import opened LeaseProtocol
  import opened FileJobLog

  /** The WHERE clause of the reserving UPDATE. */
  predicate Reservable(rows: Jobs, id: string, attempts: int, now: int) {
    id in rows && rows[id].job.attempts == attempts && Eligible(rows[id], now)
  }

  /** What a statement does to the table. */
  function Statement(rows: Jobs, a: Action): Jobs {
    if a.Enqueue? then Enqueued(rows, a.job)
    else if a.id !in rows then rows
    else
      match a
      case Reserve(id, now, token, until) => Reserved(rows, id, token, until)
      case Recover(id, now) => Recovered(rows, id)
      case Release(id, token, at, error) => Released(rows, id, at, error)
      case Complete(id, token) => rows - {id}
      case Fail(id, token, at, error) => Failed(rows, id, at, error)
      case Retry(id, at) => Retried(rows, id, at)
      case Forget(id) => rows - {id}
      case Enqueue(_) => rows
  }

  function Statements(rows: Jobs, actions: seq<Action>): Jobs
    decreases |actions|
  {
    if actions == [] then rows else Statements(Statement(rows, actions[0]), actions[1..])
  }

  lemma {:induction false} StatementsFollow(s: State, actions: seq<Action>)
    requires Runs(s, actions)
    ensures Statements(s.jobs, actions) == After(s, actions).jobs
    decreases |actions|
  {
    if actions != [] {
      StatementsFollow(Next(s, actions[0]), actions[1..]);
    }
  }

  // ---- The other workers between two statements ----

  function Target(a: Action): string {
    if a.Enqueue? then a.job.id else a.id
  }

  /** The same handler and payload; attempts and time may have moved on. */
  predicate SameWork(a: Job, b: Job) {
    a == b.(attempts := a.attempts, availableAt := a.availableAt)
  }

  /** A row nobody worked on is as it was. */
  lemma {:induction false} UntouchedRowStays(s: State, actions: seq<Action>, id: string)
    requires Runs(s, actions) && id in s.jobs && forall a | a in actions :: Target(a) != id
    ensures id in After(s, actions).jobs && After(s, actions).jobs[id] == s.jobs[id]
    decreases |actions|
  {
    if actions != [] {
      assert Target(actions[0]) != id;
      UntouchedRowStays(Next(s, actions[0]), actions[1..], id);
    }
  }

  /** The job that was last enqueued under the id, if any was. */
  function LastEnqueued(actions: seq<Action>, id: string): Option<Job> {
    if actions == [] then None
    else
      var later := LastEnqueued(actions[1..], id);
      if later.Some? then later
      else if actions[0].Enqueue? && actions[0].job.id == id then Some(actions[0].job)
      else None
  }

  /** What a row is to do: what was last enqueued under its id, or what it said
      before when nothing was. */
  lemma {:induction false} WorkAfter(s: State, actions: seq<Action>, id: string)
    requires Runs(s, actions) && id in After(s, actions).jobs
    ensures var last := LastEnqueued(actions, id);
            if last.Some? then SameWork(last.value, After(s, actions).jobs[id].job)
            else id in s.jobs && SameWork(s.jobs[id].job, After(s, actions).jobs[id].job)
    decreases |actions|
  {
    if actions != [] {
      WorkAfter(Next(s, actions[0]), actions[1..], id);
    }
  }

  /** How often the row was reserved. */
  function Reservations(actions: seq<Action>, id: string): nat {
    if actions == [] then 0
    else (if actions[0].Reserve? && actions[0].id == id then 1 else 0) + Reservations(actions[1..], id)
  }

  /** The attempts start again. */
  predicate Restarts(a: Action, id: string) {
    (a.Enqueue? || a.Retry?) && Target(a) == id
  }

  /** Until they start again, the attempts of a row count its reservations. */
  lemma {:induction false} AttemptsCount(s: State, actions: seq<Action>, id: string)
    requires Runs(s, actions) && id in After(s, actions).jobs && forall a | a in actions :: !Restarts(a, id)
    ensures id in s.jobs
    ensures After(s, actions).jobs[id].job.attempts == s.jobs[id].job.attempts + Reservations(actions, id)
    decreases |actions|
  {
    if actions != [] {
      assert !Restarts(actions[0], id);
      AttemptsCount(Next(s, actions[0]), actions[1..], id);
    }
  }

  /** When another worker reserved the row after the select, the update does
      nothing, whatever else happened, unless the attempts started again. */
  lemma TakenRowIsNotReserved(s: State, actions: seq<Action>, id: string, now: int)
    requires Runs(s, actions) && id in s.jobs && forall a | a in actions :: !Restarts(a, id)
    requires Reservations(actions, id) > 0
    ensures !Reservable(After(s, actions).jobs, id, s.jobs[id].job.attempts, now)
  {
    if id in After(s, actions).jobs {
      AttemptsCount(s, actions, id);
    }
  }

  /** One turn of the retry loop: what the others do before the select and
      before the update, and the fresh token of the update. */
  datatype Round = Round(earlier: seq<Action>, token: string, between: seq<Action>)

  ghost predicate Possible(s: State, rounds: seq<Round>)
    decreases |rounds|
  {
    rounds == []
    || (&& Runs(s, rounds[0].earlier) && Runs(After(s, rounds[0].earlier), rounds[0].between)
        && rounds[0].token != NO_TOKEN && rounds[0].token !in Turned(s, rounds[0]).issued
        && Possible(Turned(s, rounds[0]), rounds[1..]))
  }

  ghost function Turned(s: State, r: Round): State
    requires Runs(s, r.earlier) && Runs(After(s, r.earlier), r.between)
  {
    After(After(s, r.earlier), r.between)
  }

  /** What the rounds leave when none of their updates had an effect. */
  ghost function Played(s: State, rounds: seq<Round>): State
    requires Possible(s, rounds)
    decreases |rounds|
  {
    if rounds == [] then s else Played(Turned(s, rounds[0]), rounds[1..])
  }

  /** The reservation is a step of the lease protocol on an eligible job, and
      what it gives to do is what the row says exactly when nothing else was
      enqueued under the id after the select. */
  ghost predicate IsReservation(r: Reservation, before: State, after: State, now: int, since: seq<Action>) {
    var a := Action.Reserve(r.job.id, now, r.token, r.reservedUntil);
    var last := LastEnqueued(since, r.job.id);
    && Inv(before) && Enabled(before, a) && after == Next(before, a)
    && r.job.attempts == after.jobs[r.job.id].job.attempts
    && (SameWork(r.job, after.jobs[r.job.id].job) <==> last.None? || SameWork(r.job, last.value))
  }

  class SqlJobStore {
    var rows: Jobs
    /** The rows with the tokens handed out so far by every worker. */
    ghost var history: State

    ghost predicate Valid()
      reads this
    {
      rows == history.jobs && Inv(history)
    }

    const options: Options

    constructor (o: Options)
      ensures Valid() && rows == map[] && history == INITIAL && options == o
    {
      rows, history, options := map[], INITIAL, o;
    }

    /** SELECT, INSERT and, when the insert is refused for its key, SELECT again;
        the others run before the insert and before the last select. */
    method Enqueue(job: Job, meanwhile: seq<Action>, afterwards: seq<Action>) returns (r: Result<(), StoreError>)
      requires Valid() && Runs(history, meanwhile) && Runs(After(history, meanwhile), afterwards)
      modifies this
      ensures Valid()
      ensures r.Ok? <==> && ValidStoredJob(options, job) && job.id !in old(rows)
                         && Enabled(After(old(history), meanwhile), Action.Enqueue(job))
      ensures r.Ok? ==> history == Next(After(old(history), meanwhile), Action.Enqueue(job))
      ensures r.Err? ==> unchanged(this) || history == After(After(old(history), meanwhile), afterwards)
      ensures r.Err? ==> r.error == Conflict || (r.error == OperationFailed && job.id !in rows)
    {
      if !ValidStoredJob(options, job) { return Err(Conflict); }
      if job.id in rows { return Err(Conflict); }
      OthersRun(meanwhile);
      if job.id !in rows {
        NextKeepsInv(history, Action.Enqueue(job));
        history := Next(history, Action.Enqueue(job));
        rows := Statement(rows, Action.Enqueue(job));
        return Ok(());
      }
      OthersRun(afterwards);
      r := if job.id in rows then Err(Conflict) else Err(OperationFailed);
    }

    /** SELECT ... ORDER BY available_at, enqueued_at, id LIMIT 1. */
    method ReadyJob(now: int) returns (job: Option<Job>)
      requires Valid()
      ensures job.None? <==> NoneEligible(rows, now)
      ensures job.Some? ==> IsFirst(rows, now, job.value.id) && rows[job.value.id].job == job.value
    {
      var first := PickFirst(rows, now);
      job := if first.None? then None else Some(rows[first.value].job);
    }

    /** UPDATE ... WHERE id and attempts match and the row is still eligible. */
    method UpdateReserve(id: string, attempts: int, now: int, token: string, until: int) returns (affected: nat)
      requires Valid() && token != NO_TOKEN && token !in history.issued
      modifies this
      ensures Valid()
      ensures affected == if Reservable(old(rows), id, attempts, now) then 1 else 0
      ensures affected == 1 ==>
                && Enabled(old(history), Action.Reserve(id, now, token, until))
                && history == Next(old(history), Action.Reserve(id, now, token, until))
      ensures affected == 0 ==> unchanged(this)
    {
      affected := 0;
      if Reservable(rows, id, attempts, now) {
        ghost var a := Action.Reserve(id, now, token, until);
        NextKeepsInv(history, a);
        history := Next(history, a);
        rows := Statement(rows, Action.Reserve(id, now, token, until));
        affected := 1;
      }
    }

    method OthersRun(actions: seq<Action>)
      requires Valid() && Runs(history, actions)
      modifies this
      ensures Valid() && history == After(old(history), actions)
    {
      RunKeepsInv(history, actions);
      StatementsFollow(history, actions);
      history := After(history, actions);
      rows := Statements(rows, actions);
    }

    /** One select and one update, with the others running in between. Nothing
        comes of it only when one of them worked on the selected row. */
    method TryReserve(now: int, until: int, token: string, actions: seq<Action>)
      returns (r: Option<Result<Reservation, StoreError>>, ghost before: State)
      requires Valid() && Runs(history, actions)
      requires token != NO_TOKEN && token !in After(history, actions).issued
      modifies this
      ensures Valid()
      ensures r.Some? && r.value.Ok? ==>
                && before == After(old(history), actions)
                && r.value.value.token == token && r.value.value.reservedUntil == until
                && IsReservation(r.value.value, before, history, now, actions)
                && IsFirst(old(rows), now, r.value.value.job.id)
      ensures r.Some? && r.value.Err? ==> r.value.error == Empty && unchanged(this) && NoneEligible(rows, now)
      ensures r.None? ==> history == After(old(history), actions)
      ensures r.None? ==> exists a | a in actions :: IsFirst(old(rows), now, Target(a))
    {
      before := history;
      var job := ReadyJob(now);
      if job.None? { return Some(Err(Empty)), before; }
      ghost var selected := history;
      OthersRun(actions);
      before := history;
      var affected := UpdateReserve(job.value.id, job.value.attempts, now, token, until);
      if affected == 0 {
        if forall a | a in actions :: Target(a) != job.value.id {
          UntouchedRowStays(selected, actions, job.value.id);
        }
        return None, before;
      }
      WorkAfter(selected, actions, job.value.id);
      r := Some(Ok(Reservation(job.value.(attempts := job.value.attempts + 1), token, until)));
    }

    /** The retry loop, for as many rounds as the context allows. */
    method Reserve(now: int, lease: int, rounds: seq<Round>)
      returns (r: Result<Reservation, StoreError>, ghost before: State, ghost last: int)
      requires Valid() && Possible(history, rounds)
      modifies this
      ensures Valid()
      ensures r.Ok? ==> 0 <= last < |rounds| && lease > 0
                        && r.value.token == rounds[last].token && r.value.reservedUntil == now + lease
                        && IsReservation(r.value, before, history, now, rounds[last].between)
      ensures r == Err(ReservationInvalid) <==> now == ZERO_TIME || lease <= 0
      ensures r.Err? ==> r.error in {ReservationInvalid, Empty, Cancelled}
      ensures r == Err(ReservationInvalid) ==> unchanged(this)
      ensures r == Err(Empty) ==> NoneEligible(rows, now)
      ensures r == Err(Cancelled) ==> history == Played(old(history), rounds)
                                      && forall i | 0 <= i < |rounds| :: rounds[i].between != []
    {
      hide Inv, IsReservation, NoneEligible, IsFirst, Runs, After;
      before, last := history, 0;
      if now == ZERO_TIME || lease <= 0 { return Err(ReservationInvalid), before, last; }
      var i := 0;
      while i < |rounds|
        invariant 0 <= i <= |rounds| && Valid()
        invariant Possible(history, rounds[i..]) && Played(history, rounds[i..]) == Played(old(history), rounds)
        invariant forall k | 0 <= k < i :: rounds[k].between != []
      {
        assert rounds[i..][0] == rounds[i] && rounds[i..][1..] == rounds[i + 1..];
        OthersRun(rounds[i].earlier);
        var attempt;
        attempt, before := TryReserve(now, now + lease, rounds[i].token, rounds[i].between);
        if attempt.Some? { return attempt.value, before, i; }
        i := i + 1;
      }
      r := Err(Cancelled);
    }

    /** UPDATE or DELETE ... WHERE id and reservation_token match. */
    method FinishReservation(a: Action) returns (r: Result<(), StoreError>)
      requires Valid() && (a.Release? || a.Complete? || a.Fail?)
      modifies this
      ensures Valid()
      ensures r.Ok? <==> a.id != "" && Holds(old(rows), a.id, a.token)
      ensures r.Ok? ==> history == Next(old(history), a)
      ensures r.Err? ==> unchanged(this)
    {
      if a.id == "" || a.token == NO_TOKEN || a.id !in rows || rows[a.id].token != a.token {
        return Err(ReservationInvalid);
      }
      NextKeepsInv(history, a);
      history := Next(history, a);
      rows := Statement(rows, a);
      r := Ok(());
    }

    /** RetryFailed and ForgetFailed: UPDATE or DELETE ... WHERE failed_at IS NOT NULL. */
    method ChangeFailed(a: Action) returns (r: Result<(), StoreError>)
      requires Valid() && (a.Retry? || a.Forget?)
      modifies this
      ensures Valid()
      ensures r.Ok? <==> a.id != "" && (a.Retry? ==> a.availableAt != ZERO_TIME) && IsFailed(old(rows), a.id)
      ensures r.Ok? ==> history == Next(old(history), a)
      ensures r.Err? ==> unchanged(this) && r.error == Conflict
    {
      if a.id == "" || (a.Retry? && a.availableAt == ZERO_TIME) { return Err(Conflict); }
      if a.id !in rows || rows[a.id].failedAt == ZERO_TIME { return Err(Conflict); }
      NextKeepsInv(history, a);
      history := Next(history, a);
      rows := Statement(rows, a);
      r := Ok(());
    }
  }

  /** What WHERE failed_at IS NOT NULL leaves to change: RetryFailed also clears
      the reservation columns, which a failed row does not use. */
  lemma FailedRowIsFree(s: State, id: string)
    requires Inv(s) && IsFailed(s.jobs, id)
    ensures s.jobs[id].token == NO_TOKEN && s.jobs[id].reservedUntil == ZERO_TIME
    ensures Retried(Recovered(s.jobs, id), id, s.jobs[id].job.availableAt) ==
              Retried(s.jobs, id, s.jobs[id].job.availableAt)
  {
  }

  /** A reservation that nobody disturbs takes the first eligible job. */
  lemma QuietReservation(s: State, now: int, id: string)
    requires Inv(s) && IsFirst(s.jobs, now, id)
    ensures Reservable(s.jobs, id, s.jobs[id].job.attempts, now)
  {
  }

  /** Another worker can take the selected row before the update, which then
      has no effect, whatever time it reads. */
  lemma OthersTakeSelectedRow(s: State, now: int, id: string, other: string, until: int, token: string, later: int)
    requires Inv(s) && IsFirst(s.jobs, now, id)
    requires other != NO_TOKEN && other !in s.issued && token != other && token !in s.issued
    ensures var actions := [Action.Reserve(id, now, other, until)];
            && Runs(s, actions) && token !in After(s, actions).issued
            && !Reservable(After(s, actions).jobs, id, s.jobs[id].job.attempts, later)
  {
    var a := Action.Reserve(id, now, other, until);
    assert [a][0] == a && [a][1..] == [];
    assert After(s, [a]) == Next(s, a);
  }

  /** A row that was completed and enqueued again with other work between select
      and update is reserved, while the caller gets the old work. */
  lemma EnqueuedAgainIsStale(now: int, holder: string, token: string, until: int, was: Job, job: Job)
    requires holder != NO_TOKEN && token != NO_TOKEN && token != holder && now < until
    requires was.id == job.id && was.attempts == job.attempts && was.availableAt <= now && job.availableAt <= now
    requires !SameWork(was, job)
    ensures Runs(INITIAL, [Action.Enqueue(was)])
    ensures var s := After(INITIAL, [Action.Enqueue(was)]);
            var actions := [Action.Reserve(was.id, now, holder, until), Action.Complete(was.id, holder),
                Action.Enqueue(job)];
            && IsFirst(s.jobs, now, was.id) && s.jobs[was.id].job == was
            && Runs(s, actions) && token !in After(s, actions).issued
            && Reservable(After(s, actions).jobs, was.id, was.attempts, now)
            && !SameWork(s.jobs[was.id].job, After(s, actions).jobs[was.id].job)
  {
    var a := Action.Enqueue(was);
    assert [a][1..] == [];
    var s := Next(INITIAL, a);
    assert After(INITIAL, [a]) == s;
    var b, c, d := Action.Reserve(was.id, now, holder, until), Action.Complete(was.id, holder), Action.Enqueue(job);
    var s1 := Next(s, b);
    var s2 := Next(s1, c);
    assert [b, c, d][1..] == [c, d] && [c, d][1..] == [d] && [d][1..] == [];
    assert Runs(s2, [d]) && Runs(s1, [c, d]) && Runs(s, [b, c, d]);
    assert After(s, [b, c, d]) == After(s1, [c, d]) == After(s2, [d]) == Next(s2, d);
  }
}
