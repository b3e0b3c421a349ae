/** The Redis job store over the five structures: every script call is a run of
    the leased-queue protocol. */
module RedisJobStores {
  import opened Wrappers
  import opened FileJobLog
  import opened LeasedQueue
  import opened LeaseProtocol
  import opened ReadyMembers
  import opened RedisStructures
  import opened RedisScripts

  // ---- A reserve script is a run of recoveries and one reservation ----

  function Recoveries(ids: seq<string>, now: int): seq<Action> {
    if ids == [] then [] else Recoveries(ids[..|ids| - 1], now) + [Action.Recover(ids[|ids| - 1], now)]
  }

  ghost predicate AllExpired(jobs: Jobs, ids: seq<string>, now: int) {
    && (forall i | 0 <= i < |ids| ::
        && ids[i] in jobs && jobs[ids[i]].token != NO_TOKEN
        && jobs[ids[i]].reservedUntil <= now)
    && (forall i, j | 0 <= i < j < |ids| :: ids[i] != ids[j])
  }

  lemma {:induction false} RecoveriesRun(s: State, ids: seq<string>, now: int)
    requires AllExpired(s.jobs, ids, now)
    ensures Runs(s, Recoveries(ids, now))
    ensures var after := After(s, Recoveries(ids, now));
            after.jobs == RecoveredAll(s.jobs, ids) && after.issued == s.issued
    decreases |ids|
  {
    if ids != [] {
      var rest, last := ids[..|ids| - 1], ids[|ids| - 1];
      RecoveriesRun(s, rest, now);
      RecoveredAllAt(s.jobs, rest);
      RunsOneMore(s, Recoveries(rest, now), Action.Recover(last, now));
    }
  }

  lemma RangeIsExpired(db: Structures, now: int, expired: seq<string>)
    requires Agree(db) && IsRange(db.reserved, now, RECOVERY_BATCH, expired)
    ensures AllExpired(Queue(db), expired, now)
  {
    forall i | 0 <= i < |expired|
      ensures expired[i] in Queue(db) && Queue(db)[expired[i]].token != NO_TOKEN
              && Queue(db)[expired[i]].reservedUntil <= now
    {
      RecoverySteps(db, expired[i]);
    }
  }

  function ReserveActions(expired: seq<string>, id: string, now: int, token: string, until: int): seq<Action> {
    Recoveries(expired, now) + [Action.Reserve(id, now, token, until)]
  }

  /** The effect of a granting reserve script, as steps of the protocol. */
  lemma ReserveIsRun(s: State, expired: seq<string>, id: string, now: int, token: string, until: int)
    requires AllExpired(s.jobs, expired, now) && id in s.jobs && Eligible(s.jobs[id], now)
    requires token != NO_TOKEN && token !in s.issued
    ensures var actions := ReserveActions(expired, id, now, token, until);
            && Runs(s, actions) && id in RecoveredAll(s.jobs, expired)
            && After(s, actions).jobs == Reserved(RecoveredAll(s.jobs, expired), id, token, until)
            && After(s, actions).issued.Keys == s.issued.Keys + {token}
  {
    RecoveriesRun(s, expired, now);
    RecoveredAllAt(s.jobs, expired);
    RunsOneMore(s, Recoveries(expired, now), Action.Reserve(id, now, token, until));
  }

  // ---- Every script call is a step of the protocol ----

  /** The structures stand for the queue of a reachable protocol state. */
  ghost predicate Linked(db: Structures, s: State) {
    Agree(db) && Queue(db) == s.jobs && Inv(s)
  }

  /** When a script other than reserve replies 1. */
  predicate Takes(db: Structures, a: Action) {
    match a
    case Enqueue(job) => ExactTime(job.enqueuedAt) && job.attempts >= 0 && job.id !in db.records
        && job.id !in db.payloads
    case Release(id, token, _, _) => token != NO_TOKEN && id in db.records && db.records[id].token == token
    case Complete(id, token) => token != NO_TOKEN && id in db.records && db.records[id].token == token
    case Fail(id, token, at, _) =>
      token != NO_TOKEN && at != ZERO_TIME && id in db.records && db.records[id].token == token
    case Retry(id, _) => id in db.records && db.records[id].failedAt != ZERO_TIME
    case Forget(id) => id in db.records && db.records[id].failedAt != ZERO_TIME
    case _ => false
  }

  function Scripted(db: Structures, a: Action): Structures
    requires Takes(db, a)
  {
    match a
    case Enqueue(job) => AfterEnqueue(db, job)
    case Release(id, _, at, error) => AfterRelease(db, id, at, error)
    case Complete(id, _) => AfterDelete(db, id)
    case Fail(id, _, at, error) => AfterFail(db, id, at, error)
    case Retry(id, at) => AfterRetry(db, id, at)
    case Forget(id) => AfterDelete(db, id)
  }

  lemma ScriptedQueue(db: Structures, a: Action)
    requires Agree(db) && Takes(db, a)
    ensures Agree(Scripted(db, a))
    ensures Queue(Scripted(db, a)) ==
            match a
            case Enqueue(job) => Enqueued(Queue(db), job)
            case Release(id, _, at, error) => Released(Queue(db), id, at, error)
            case Complete(id, _) => Queue(db) - {id}
            case Fail(id, _, at, error) => Failed(Queue(db), id, at, error)
            case Retry(id, at) => Retried(Queue(db), id, at)
            case Forget(id) => Queue(db) - {id}
  {
    match a
    case Enqueue(job) => EnqueueAgrees(db, job);
    case Release(id, _, at, error) => ReleaseAgrees(db, id, at, error);
    case Complete(id, _) => DeleteAgrees(db, id);
    case Fail(id, _, at, error) => FailAgrees(db, id, at, error);
    case Retry(id, at) => RetryAgrees(db, id, at);
    case Forget(id) => DeleteAgrees(db, id);
  }

  /** A script accepts a change exactly when the protocol enables it. */
  lemma TakesIsEnabled(db: Structures, s: State, a: Action)
    requires db.records.Keys == db.payloads.Keys && Queue(db) == s.jobs && !a.Reserve? && !a.Recover?
    requires a.Enqueue? ==> ExactTime(a.job.enqueuedAt) && a.job.attempts >= 0
    requires a.Fail? ==> a.failedAt != ZERO_TIME
    ensures Takes(db, a) <==> Enabled(s, a)
  {
  }

  lemma ScriptLinks(db: Structures, s: State, a: Action)
    requires Linked(db, s) && Takes(db, a)
    ensures Enabled(s, a) && Linked(Scripted(db, a), Next(s, a))
  {
    TakesIsEnabled(db, s, a);
    ScriptedQueue(db, a);
    NextKeepsInv(s, a);
  }

  lemma ReserveLinks(db: Structures, s: State, now: int, token: string, until: int, expired: seq<string>, reply: Reply,
                     after: Structures)
    requires Linked(db, s) && token != NO_TOKEN && token !in s.issued
    requires ReserveMeets(db, now, token, until, expired, reply, after) && reply.Granted?
    ensures var actions := ReserveActions(expired, reply.metadata.id, now, token, until);
            && Runs(s, actions) && Linked(after, After(s, actions))
            && After(s, actions).issued.Keys == s.issued.Keys + {token}
  {
    RangeIsExpired(db, now, expired);
    ReserveIsRun(s, expired, reply.metadata.id, now, token, until);
    RunKeepsInv(s, ReserveActions(expired, reply.metadata.id, now, token, until));
  }

  // ---- Every sequence of script calls ----

  datatype Call =
    | Change(a: Action)
    | Reserving(now: int, token: string, until: int, expired: seq<string>, reply: Reply, after: Structures)

  /** A change the script takes, or whatever the reserve script can answer for a
      token that was not used before. */
  ghost predicate Possible(db: Structures, used: set<string>, c: Call) {
    match c
    case Change(a) => Takes(db, a)
    case Reserving(now, token, until, expired, reply, after) =>
      && token != NO_TOKEN && token !in used && now <= until
      && ScriptAnswers(db, now, token, until, expired, reply, after)
  }

  function Called(db: Structures, c: Call): Structures
    requires c.Change? ==> Takes(db, c.a)
  {
    match c
    case Change(a) => Scripted(db, a)
    case Reserving(_, _, _, _, _, after) => after
  }

  /** The protocol actions one call stands for. */
  function ActionsOf(c: Call): seq<Action> {
    match c
    case Change(a) => [a]
    case Reserving(now, token, until, expired, reply, _) =>
      if reply.Granted? then ReserveActions(expired, reply.metadata.id, now, token, until) else []
  }

  function TokensOf(c: Call): set<string> {
    if c.Reserving? && c.reply.Granted? then {c.token} else {}
  }

  lemma NothingLinks(db: Structures, now: int, token: string, until: int, expired: seq<string>, reply: Reply,
                     after: Structures)
    requires Agree(db) && ReserveMeets(db, now, token, until, expired, reply, after)
    ensures reply.Granted? || (reply.Nothing? && after == db)
  {
  }

  lemma ChangeLinks(db: Structures, s: State, a: Action)
    requires Linked(db, s) && Takes(db, a)
    ensures Runs(s, [a]) && Linked(Scripted(db, a), After(s, [a])) && After(s, [a]).issued == s.issued
  {
    ScriptLinks(db, s, a);
    OneStep(s, a);
    hide Linked, Scripted, Runs, After;
  }

  lemma OneStep(s: State, a: Action)
    requires Enabled(s, a)
    ensures Runs(s, [a]) && After(s, [a]) == Next(s, a)
  {
    assert [a][1..] == [];
  }

  /** One call is a run of the protocol, keeps the structures in agreement, and a
      reserve call is never answered with an error or asked to try again. */
  lemma CallLinks(db: Structures, s: State, c: Call)
    requires Linked(db, s) && Possible(db, s.issued.Keys, c)
    ensures Runs(s, ActionsOf(c)) && Linked(Called(db, c), After(s, ActionsOf(c)))
    ensures After(s, ActionsOf(c)).issued.Keys == s.issued.Keys + TokensOf(c)
    ensures c.Reserving? ==> c.reply.Granted? || c.reply.Nothing?
  {
    hide Agree, ScriptAnswers, ReserveMeets, Takes, Scripted, ReserveActions;
    match c
    case Change(a) => ChangeLinks(db, s, a);
    case Reserving(now, token, until, expired, reply, after) =>
      AnswersMeet(db, now, token, until, expired, reply, after);
      NothingLinks(db, now, token, until, expired, reply, after);
      if reply.Granted? {
        ReserveLinks(db, s, now, token, until, expired, reply, after);
      }
  }

  ghost predicate AllPossible(db: Structures, used: set<string>, calls: seq<Call>)
    decreases |calls|
  {
    calls == []
    || (Possible(db, used, calls[0]) && AllPossible(Called(db, calls[0]), used + TokensOf(calls[0]), calls[1..]))
  }

  ghost function AllCalled(db: Structures, used: set<string>, calls: seq<Call>): Structures
    requires AllPossible(db, used, calls)
    decreases |calls|
  {
    if calls == [] then db else AllCalled(Called(db, calls[0]), used + TokensOf(calls[0]), calls[1..])
  }

  function AllActions(calls: seq<Call>): seq<Action> {
    if calls == [] then [] else ActionsOf(calls[0]) + AllActions(calls[1..])
  }

  /** The structures agree and stand for the state, and no reserve call was
      answered with an error or retry. */
  ghost predicate Answered(db: Structures, s: State, calls: seq<Call>) {
    && Linked(db, s)
    && forall c | c in calls && c.Reserving? :: c.reply.Granted? || c.reply.Nothing?
  }

  /** Whatever is called, with whatever the script can answer, is a run of the
      protocol, and the structures stand for its state. */
  lemma {:induction false} CallsStayLinked(db: Structures, s: State, calls: seq<Call>)
    requires Linked(db, s) && AllPossible(db, s.issued.Keys, calls)
    ensures Runs(s, AllActions(calls))
    ensures Answered(AllCalled(db, s.issued.Keys, calls), After(s, AllActions(calls)), calls)
    decreases |calls|
  {
    if calls != [] {
      var c, rest := calls[0], calls[1..];
      CallLinks(db, s, c);
      assert calls == [c] + rest;
      hide Possible, Linked, Called, ActionsOf, TokensOf, Runs;
      CallsStayLinked(Called(db, c), After(s, ActionsOf(c)), rest);
      RunsOn(s, ActionsOf(c), AllActions(rest));
    }
  }

  /** So from empty structures every sequence of calls leads to structures that
      agree with a reachable state of the protocol, which has its lease safety. */
  lemma ReachableIsLinked(calls: seq<Call>, id: string, a: string, b: string)
    requires AllPossible(EMPTY, {}, calls)
    ensures Runs(INITIAL, AllActions(calls))
    ensures var db, s := AllCalled(EMPTY, {}, calls), After(INITIAL, AllActions(calls));
            Agree(db) && Queue(db) == s.jobs && (Unexpired(s, id, a) && Unexpired(s, id, b) ==> a == b)
  {
    assert INITIAL.issued.Keys == {};
    InitialInv();
    CallsStayLinked(EMPTY, INITIAL, calls);
    hide Linked, AllPossible, AllCalled, AllActions, Runs;
    var s := After(INITIAL, AllActions(calls));
    if Unexpired(s, id, a) && Unexpired(s, id, b) {
      OneUnexpiredLease(s, id, a, b);
    }
  }

  /** What a reservation handed out means for the queue: the job was free to be
      taken, its record says what the caller got, and of the others only expired
      reservations are cleared. */
  ghost predicate HandsOut(was: Jobs, jobs: Jobs, now: int, r: Reservation) {
    var id := r.job.id;
    && id in was && Eligible(was[id], now)
    && jobs.Keys == was.Keys
    && jobs[id].job == r.job == was[id].job.(attempts := was[id].job.attempts + 1)
    && jobs[id].token == r.token && jobs[id].reservedUntil == r.reservedUntil
    && jobs[id].failedAt == ZERO_TIME && jobs[id].lastError == was[id].lastError
    && forall other | other in was && other != id && jobs[other] != was[other] ::
         && was[other].token != NO_TOKEN && was[other].reservedUntil <= now
         && jobs[other] == was[other].(token := NO_TOKEN, reservedUntil := ZERO_TIME)
  }

  lemma LeaseHandsOut(was: Jobs, expired: seq<string>, now: int, id: string, token: string, until: int)
    requires AllExpired(was, expired, now) && id in was && was[id].job.id == id && Eligible(was[id], now)
    requires id in RecoveredAll(was, expired)
    ensures var jobs := Reserved(RecoveredAll(was, expired), id, token, until);
            HandsOut(was, jobs, now, Reservation(jobs[id].job, token, until))
  {
    RecoveredAllAt(was, expired);
    hide RecoveredAll;
  }

  lemma GrantHandsOut(was: Structures, now: int, token: string, until: int, expired: seq<string>, m: Metadata,
                      payload: string, db: Structures)
    requires Agree(was) && ReserveMeets(was, now, token, until, expired, Granted(m, payload), db)
    ensures HandsOut(Queue(was), Queue(db), now, Reservation(RecordOf(m, payload).job, token, until))
    ensures WithinBatch(was, now) ==> IsFirst(Queue(was), now, m.id)
  {
    RangeIsExpired(was, now, expired);
    AgreeKeyed(was);
    hide Agree, IsRange, AllExpired, RecoveredAll, Queue, IsFirst, WithinBatch, Eligible;
    LeaseHandsOut(Queue(was), expired, now, m.id, token, until);
  }

  lemma AgreeKeyed(db: Structures)
    requires Agree(db)
    ensures Keyed(Queue(db))
  {
    forall id | id in Queue(db)
      ensures Queue(db)[id].job.id == id
    {
      assert RedisStructures.Sound(db.records[id]) && Filed(db, db.records[id]);
    }
  }

  lemma NothingIsEmpty(was: Structures, now: int, token: string, until: int, expired: seq<string>, reply: Reply,
                       db: Structures)
    requires ReserveMeets(was, now, token, until, expired, reply, db)
    ensures reply.Granted? || reply.Nothing?
    ensures reply.Nothing? <==> NoneEligible(Queue(was), now)
    ensures reply.Nothing? ==> db == was
  {
  }

  class RedisJobStore {
    const options: Options
    var records: map<string, Metadata>
    var payloads: map<string, string>
    var ready: SortedSet
    var reserved: SortedSet
    var failed: SortedSet

    function Db(): Structures
      reads this
    {
      Structures(records, payloads, ready, reserved, failed)
    }

    constructor (options: Options)
      ensures Db() == EMPTY && this.options == options
    {
      this.options := options;
      records, payloads, ready, reserved, failed := map[], map[], map[], map[], map[];
    }

    // ---- The scripts ----

    method EnqueueScript(job: Job) returns (reply: int)
      requires ExactTime(job.enqueuedAt)
      modifies `records, `payloads, `ready
      ensures reply == if job.id in old(records) || job.id in old(payloads) then 0 else 1
      ensures Db() == if reply == 1 then AfterEnqueue(old(Db()), job) else old(Db())
    {
      if job.id in records || job.id in payloads { return 0; }
      var m := Metadata(job.id, job.handler, job.availableAt, job.enqueuedAt, job.attempts,
                        ReadyMember(job.enqueuedAt, job.id), NO_TOKEN, ZERO_TIME, ZERO_TIME, "");
      records := records[job.id := m];
      payloads := payloads[job.id := job.payload];
      ready := ready[m.readyMember := m.availableAt];
      reply := 1;
    }

    method RecoverOne(id: string, now: int) returns (ok: bool)
      modifies `records, `ready, `reserved
      ensures Turn(ok, Db()) == RecoverOnce(old(Db()), id, now)
    {
      if id !in records {
        reserved := reserved - {id};
        return true;
      }
      var m := records[id];
      if m.failedAt != ZERO_TIME { return false; }
      if m.token == NO_TOKEN {
        reserved := reserved - {id};
      } else if m.reservedUntil <= now {
        m := m.(token := NO_TOKEN, reservedUntil := ZERO_TIME);
        records := records[id := m];
        reserved := reserved - {id};
        ready := ready[m.readyMember := m.availableAt];
      }
      ok := true;
    }

    method RecoverExpired(now: int) returns (ok: bool, expired: seq<string>)
      modifies `records, `ready, `reserved
      ensures IsRange(old(reserved), now, RECOVERY_BATCH, expired)
      ensures Turn(ok, Db()) == RecoverTurns(old(Db()), expired, now)
    {
      expired := RangeByScore(reserved, now, RECOVERY_BATCH);
      var i := 0;
      assert expired[0..] == expired;
      while i < |expired|
        invariant i <= |expired|
        invariant RecoverTurns(Db(), expired[i..], now) == RecoverTurns(old(Db()), expired, now)
      {
        assert expired[i..][1..] == expired[i + 1..];
        var one := RecoverOne(expired[i], now);
        if !one { return false, expired; }
        i := i + 1;
      }
      ok := true;
    }

    /** The lowest ready member, checked and leased. */
    method LeaseCandidate(now: int, token: string, until: int, full: bool) returns (reply: Reply, ghost lowest: string)
      modifies `records, `ready, `reserved
      ensures CandidateTurn(old(Db()), now, token, until, full, lowest, reply, Db())
    {
      lowest := "";
      if ready == map[] { return if full then RetryReply else Nothing, lowest; }
      var member := PickLeast(ready, ready.Keys);
      lowest := member;
      if ready[member] > now { return if full then RetryReply else Nothing, lowest; }
      if !CandidateSound(Db(), member) { return CorruptReply, lowest; }
      var id := member[17..];
      var m := records[id];
      m := m.(attempts := m.attempts + 1, token := token, reservedUntil := until);
      records := records[id := m];
      ready := ready - {member};
      reserved := reserved[id := until];
      reply := Granted(m, payloads[id]);
    }

    method ReserveScript(now: int, token: string, until: int) returns (reply: Reply, ghost expired: seq<string>)
      requires token != NO_TOKEN && now <= until
      modifies `records, `ready, `reserved
      ensures ScriptAnswers(old(Db()), now, token, until, expired, reply, Db())
      ensures Agree(old(Db())) ==> ReserveMeets(old(Db()), now, token, until, expired, reply, Db())
    {
      hide Agree, ReserveMeets, RecoverTurns, CandidateTurn, IsRange;
      ghost var was := Db();
      var ok, batch := RecoverExpired(now);
      expired := batch;
      if ok {
        ghost var lowest;
        reply, lowest := LeaseCandidate(now, token, until, |batch| == RECOVERY_BATCH);
      } else {
        reply := CorruptReply;
      }
      if Agree(was) { AnswersMeet(was, now, token, until, batch, reply, Db()); }
    }

    method ReleaseScript(id: string, token: string, availableAt: int, error: string) returns (reply: int)
      modifies `records, `reserved, `ready
      ensures reply == if id in old(records) && old(records)[id].token == token then 1 else 0
      ensures Db() == if reply == 1 then AfterRelease(old(Db()), id, availableAt, error) else old(Db())
    {
      if id !in records { return 0; }
      var m := records[id];
      if m.token != token { return 0; }
      m := m.(availableAt := availableAt, token := NO_TOKEN, reservedUntil := ZERO_TIME, lastError := error);
      records := records[id := m];
      reserved := reserved - {id};
      ready := ready[m.readyMember := availableAt];
      reply := 1;
    }

    method CompleteScript(id: string, token: string) returns (reply: int)
      modifies `records, `payloads, `ready, `reserved, `failed
      ensures reply == if id in old(records) && old(records)[id].token == token then 1 else 0
      ensures Db() == if reply == 1 then AfterDelete(old(Db()), id) else old(Db())
    {
      if id !in records || records[id].token != token { return 0; }
      Delete(id);
      reply := 1;
    }

    method Delete(id: string)
      requires id in records
      modifies `records, `payloads, `ready, `reserved, `failed
      ensures Db() == AfterDelete(old(Db()), id)
    {
      var m := records[id];
      records := records - {id};
      payloads := payloads - {id};
      ready := ready - {m.readyMember};
      reserved := reserved - {id};
      failed := failed - {id};
    }

    method FailScript(id: string, token: string, failedAt: int, error: string) returns (reply: int)
      modifies `records, `ready, `reserved, `failed
      ensures reply == if id in old(records) && old(records)[id].token == token then 1 else 0
      ensures Db() == if reply == 1 then AfterFail(old(Db()), id, failedAt, error) else old(Db())
    {
      if id !in records { return 0; }
      var m := records[id];
      if m.token != token { return 0; }
      m := m.(token := NO_TOKEN, reservedUntil := ZERO_TIME, failedAt := failedAt, lastError := error);
      records := records[id := m];
      ready := ready - {m.readyMember};
      reserved := reserved - {id};
      failed := failed[id := failedAt];
      reply := 1;
    }

    method RetryFailedScript(id: string, availableAt: int) returns (reply: int)
      modifies `records, `ready, `failed
      ensures reply == if id in old(records) && old(records)[id].failedAt != ZERO_TIME then 1 else 0
      ensures Db() == if reply == 1 then AfterRetry(old(Db()), id, availableAt) else old(Db())
    {
      if id !in records { return 0; }
      var m := records[id];
      if m.failedAt == ZERO_TIME { return 0; }
      m := m.(attempts := 0, availableAt := availableAt, token := NO_TOKEN, reservedUntil := ZERO_TIME,
              failedAt := ZERO_TIME, lastError := "");
      records := records[id := m];
      failed := failed - {id};
      ready := ready[m.readyMember := availableAt];
      reply := 1;
    }

    method ForgetFailedScript(id: string) returns (reply: int)
      modifies `records, `payloads, `ready, `reserved, `failed
      ensures reply == if id in old(records) && old(records)[id].failedAt != ZERO_TIME then 1 else 0
      ensures Db() == if reply == 1 then AfterDelete(old(Db()), id) else old(Db())
    {
      if id !in records || records[id].failedAt == ZERO_TIME { return 0; }
      Delete(id);
      reply := 1;
    }

    // ---- The operations ----

    method Enqueue(cancelled: bool, job: Job) returns (r: Result<(), StoreError>)
      modifies this
      ensures r.Ok? <==> && !cancelled && ValidStoredJob(options, job) && ExactTime(job.availableAt)
                         && ExactTime(job.enqueuedAt) && Takes(old(Db()), Action.Enqueue(job))
      ensures Db() == if r.Ok? then Scripted(old(Db()), Action.Enqueue(job)) else old(Db())
      ensures r.Err? ==> r.error == if cancelled then Cancelled else Conflict
    {
      if cancelled { return Err(Cancelled); }
      if !ValidStoredJob(options, job) { return Err(Conflict); }
      if !ExactTime(job.availableAt) || !ExactTime(job.enqueuedAt) { return Err(Conflict); }
      var reply := EnqueueScript(job);
      r := if reply == 0 then Err(Conflict) else Ok(());
    }

    /** One round of the reserve loop, which is all there is: ReserveMeets rules
        the retry and error replies out. */
    method Reserve(cancelled: bool, now: int, lease: int, token: string)
      returns (r: Result<Reservation, StoreError>, ghost expired: seq<string>, ghost granted: Reply)
      requires token != NO_TOKEN
      modifies this
      ensures r == Err(Cancelled) <==> cancelled
      ensures r == Err(ReservationInvalid) <==>
                !cancelled && (now == ZERO_TIME || lease <= 0 || !ExactTime(now) || !ExactTime(now + lease))
      ensures r == Err(Cancelled) || r == Err(ReservationInvalid) ==> Db() == old(Db())
      ensures r.Ok? ==> r.value.token == token && r.value.reservedUntil == now + lease
      ensures Agree(old(Db())) && r != Err(Cancelled) && r != Err(ReservationInvalid) ==>
                && (r.Ok? ==>
                      && HandsOut(Queue(old(Db())), Queue(Db()), now, r.value)
                      && (WithinBatch(old(Db()), now) ==> IsFirst(Queue(old(Db())), now, r.value.job.id)))
                && (r.Err? <==> NoneEligible(Queue(old(Db())), now))
                && (r.Err? ==> r == Err(Empty) && Db() == old(Db()))
                && ReserveMeets(old(Db()), now, token, now + lease, expired, granted, Db())
    {
      hide Agree, ReserveMeets, ScriptAnswers, HandsOut, NoneEligible, IsFirst, WithinBatch, Queue, ExactTime;
      ghost var was := Db();
      expired, granted := [], Nothing;
      if cancelled { return Err(Cancelled), expired, granted; }
      if now == ZERO_TIME || lease <= 0 { return Err(ReservationInvalid), expired, granted; }
      var until := now + lease;
      if !ExactTime(now) || !ExactTime(until) { return Err(ReservationInvalid), expired, granted; }
      var reply;
      reply, expired := ReserveScript(now, token, until);
      granted := reply;
      if Agree(was) { NothingIsEmpty(was, now, token, until, expired, reply, Db()); }
      match reply
      case Granted(m, payload) =>
        r := Ok(Reservation(RecordOf(m, payload).job, token, until));
        if Agree(was) { GrantHandsOut(was, now, token, until, expired, m, payload, Db()); }
      case Nothing => r := Err(Empty);
      case _ => r := Err(OperationFailed);
    }

    method Release(cancelled: bool, id: string, token: string, availableAt: int, lastError: string)
      returns (r: Result<(), StoreError>)
      modifies this
      ensures var a := Action.Release(id, token, availableAt, NormalizeError(options.codec, lastError));
              && (r.Ok? <==>
                  && availableAt != ZERO_TIME && ExactTime(availableAt) && id != "" && !cancelled
                  && Takes(old(Db()), a))
              && Db() == if r.Ok? then Scripted(old(Db()), a) else old(Db())
    {
      if availableAt == ZERO_TIME { return Err(ReservationInvalid); }
      if id == "" || token == NO_TOKEN { return Err(ReservationInvalid); }
      if cancelled { return Err(Cancelled); }
      if !ExactTime(availableAt) { return Err(ReservationInvalid); }
      var reply := ReleaseScript(id, token, availableAt, NormalizeError(options.codec, lastError));
      r := if reply == 0 then Err(ReservationInvalid) else Ok(());
    }

    method Complete(cancelled: bool, id: string, token: string) returns (r: Result<(), StoreError>)
      modifies this
      ensures r.Ok? <==> id != "" && !cancelled && Takes(old(Db()), Action.Complete(id, token))
      ensures Db() == if r.Ok? then Scripted(old(Db()), Action.Complete(id, token)) else old(Db())
    {
      if id == "" || token == NO_TOKEN { return Err(ReservationInvalid); }
      if cancelled { return Err(Cancelled); }
      var reply := CompleteScript(id, token);
      r := if reply == 0 then Err(ReservationInvalid) else Ok(());
    }

    method Fail(cancelled: bool, id: string, token: string, now: int, lastError: string)
      returns (r: Result<(), StoreError>)
      modifies this
      ensures var a := Action.Fail(id, token, now, NormalizeError(options.codec, lastError));
              && (r.Ok? <==> id != "" && !cancelled && ExactTime(now) && Takes(old(Db()), a))
              && Db() == if r.Ok? then Scripted(old(Db()), a) else old(Db())
    {
      if id == "" || token == NO_TOKEN { return Err(ReservationInvalid); }
      if cancelled { return Err(Cancelled); }
      if !ExactTime(now) { return Err(OperationFailed); }
      var reply := FailScript(id, token, now, NormalizeError(options.codec, lastError));
      r := if reply == 0 then Err(ReservationInvalid) else Ok(());
    }

    method RetryFailed(cancelled: bool, id: string, availableAt: int) returns (r: Result<(), StoreError>)
      modifies this
      ensures var a := Action.Retry(id, availableAt);
              && (r.Ok? <==> id != "" && ExactTime(availableAt) && !cancelled && Takes(old(Db()), a))
              && Db() == if r.Ok? then Scripted(old(Db()), a) else old(Db())
    {
      if id == "" || availableAt == ZERO_TIME { return Err(Conflict); }
      if cancelled { return Err(Cancelled); }
      if !ExactTime(availableAt) { return Err(Conflict); }
      var reply := RetryFailedScript(id, availableAt);
      r := if reply == 0 then Err(Conflict) else Ok(());
    }

    method ForgetFailed(cancelled: bool, id: string) returns (r: Result<(), StoreError>)
      modifies this
      ensures r.Ok? <==> id != "" && !cancelled && Takes(old(Db()), Action.Forget(id))
      ensures Db() == if r.Ok? then Scripted(old(Db()), Action.Forget(id)) else old(Db())
    {
      if id == "" { return Err(Conflict); }
      if cancelled { return Err(Cancelled); }
      var reply := ForgetFailedScript(id);
      r := if reply == 0 then Err(Conflict) else Ok(());
    }
  }
}
