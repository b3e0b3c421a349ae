/** The Lua scripts of the Redis job store, each one atomic step on the server,
    proved against the queue they must implement. */
module RedisScripts {
  import opened Text
  import opened LeasedQueue
  import opened ReadyMembers
  import opened RedisStructures

  // ---- What a server that agrees with its queue offers ----

  /** No reservation is left that has expired by now. */
  ghost predicate NoneExpired(db: Structures, now: int) {
    forall id | id in db.reserved :: db.reserved[id] > now
  }

  ghost predicate IsCandidate(db: Structures, now: int, member: string) {
    Least(db.ready, db.ready.Keys, member) && db.ready[member] <= now
  }

  lemma CandidateRecord(db: Structures, member: string)
    requires Agree(db) && member in db.ready
    ensures |member| >= 17 && member[17..] in db.records && member[17..] in db.payloads
    ensures var m := db.records[member[17..]];
            m.id == member[17..] && m.readyMember == member && IsReady(m) && m.attempts >= 0
    ensures db.records[member[17..]].availableAt == db.ready[member]
  {
    assert Filed(db, db.records[member[17..]]);
  }

  /** The lowest score and member belong to the first of the ready jobs. */
  lemma CandidateIsBefore(db: Structures, now: int, member: string, other: string)
    requires Agree(db) && Least(db.ready, db.ready.Keys, member)
    requires |member| >= 17 && other in db.records && other != member[17..] && IsReady(db.records[other])
    requires member[17..] in Queue(db) && other in Queue(db)
    ensures Before(Queue(db)[member[17..]].job, Queue(db)[other].job)
  {
    CandidateRecord(db, member);
    var a, b := db.records[member[17..]], db.records[other];
    assert Sound(a) && Sound(b) && Filed(db, b);
    MemberTail(b);
    assert ScoreBefore(db.ready, member, b.readyMember);
    MemberOrder(a.enqueuedAt, a.id, b.enqueuedAt, b.id);
  }

  lemma NothingReady(db: Structures, now: int)
    requires Agree(db) && NoneExpired(db, now)
    requires forall member | member in db.ready :: db.ready[member] > now
    ensures NoneEligible(Queue(db), now)
  {
    forall id | id in Queue(db)
      ensures !Eligible(Queue(db)[id], now)
    {
      assert Filed(db, db.records[id]);
    }
  }

  // ---- Recovering expired reservations ----

  lemma RecoverySteps(db: Structures, id: string)
    requires Agree(db) && id in db.reserved
    ensures id in db.records && id in db.payloads
    ensures var m := db.records[id];
            m.token != NO_TOKEN && m.failedAt == ZERO_TIME && m.reservedUntil == db.reserved[id]
                && m.availableAt <= m.reservedUntil
  {
    assert Sound(db.records[id]) && Filed(db, db.records[id]);
  }

  lemma RecoveredMore(jobs: Jobs, ids: seq<string>, i: nat)
    requires i < |ids| && ids[i] in RecoveredAll(jobs, ids[..i])
    ensures RecoveredAll(jobs, ids[..i + 1]) == Recovered(RecoveredAll(jobs, ids[..i]), ids[i])
  {
    assert ids[..i + 1][..i] == ids[..i];
  }

  ghost predicate WithinBatch(db: Structures, now: int) {
    |set id | id in db.reserved && db.reserved[id] <= now| <= RECOVERY_BATCH
  }

  lemma {:induction false} DistinctSize(ids: seq<string>)
    requires forall i, j | 0 <= i < j < |ids| :: ids[i] != ids[j]
    ensures |set id | id in ids| == |ids|
  {
    if ids != [] {
      DistinctSize(ids[1..]);
      assert (set id | id in ids) == {ids[0]} + (set id | id in ids[1..]);
    }
  }

  lemma {:induction false} FullSubset<T>(part: set<T>, whole: set<T>)
    requires part <= whole && |whole| <= |part|
    ensures part == whole
  {
    if part != {} {
      var x :| x in part;
      FullSubset(part - {x}, whole - {x});
    }
  }

  /** A batch holds every expired reservation when they are no more than its size. */
  lemma BatchIsWhole(db: Structures, now: int, expired: seq<string>)
    requires WithinBatch(db, now) && IsRange(db.reserved, now, RECOVERY_BATCH, expired)
    ensures forall id | id in db.reserved && db.reserved[id] <= now :: id in expired
  {
    if |expired| == RECOVERY_BATCH {
      var part := set id | id in expired;
      var whole := set id | id in db.reserved && db.reserved[id] <= now;
      DistinctSize(expired);
      FullSubset(part, whole);
      forall id | id in db.reserved && db.reserved[id] <= now
        ensures id in expired
      {
        assert id in whole && id in part;
      }
    }
  }

  // ---- The job handed out is the one a full scan and sort would choose ----

  ghost predicate RecoveredTo(was: Structures, expired: seq<string>, now: int, db: Structures) {
    && Agree(was) && Agree(db) && IsRange(was.reserved, now, RECOVERY_BATCH, expired)
    && Queue(db) == RecoveredAll(Queue(was), expired) && (expired == [] ==> db == was)
  }

  lemma ExpiredAreReserved(was: Structures, now: int, id: string)
    requires Agree(was) && id in Queue(was) && was.records[id].token != NO_TOKEN && Eligible(Queue(was)[id], now)
    ensures id in was.reserved && was.reserved[id] <= now
  {
    assert Filed(was, was.records[id]);
  }

  lemma StillEligible(was: Structures, expired: seq<string>, now: int, db: Structures, id: string)
    requires RecoveredTo(was, expired, now, db) && id in Queue(db)
    ensures id in Queue(was) && Queue(db)[id].job == Queue(was)[id].job
    ensures Eligible(Queue(db)[id], now) ==> Eligible(Queue(was)[id], now)
  {
    RecoveredAllAt(Queue(was), expired);
    if id in expired {
      RecoverySteps(was, id);
    }
  }

  /** After a batch that held them all, every eligible job is ready. */
  lemma EligibleIsReady(was: Structures, expired: seq<string>, now: int, db: Structures, id: string)
    requires RecoveredTo(was, expired, now, db) && WithinBatch(was, now)
    requires id in Queue(was) && Eligible(Queue(was)[id], now)
    ensures id in Queue(db) && id in db.records && IsReady(db.records[id])
  {
    RecoveredAllAt(Queue(was), expired);
    BatchIsWhole(was, now, expired);
    assert id in Queue(db) && id in db.records;
    if was.records[id].token != NO_TOKEN {
      ExpiredAreReserved(was, now, id);
      assert Queue(db)[id] == Recovered(Queue(was), id)[id];
    } else {
      assert Queue(db)[id].token == NO_TOKEN && Queue(db)[id].failedAt == ZERO_TIME;
    }
  }

  lemma CandidateIsEligible(was: Structures, expired: seq<string>, now: int, db: Structures, member: string)
    requires RecoveredTo(was, expired, now, db) && IsCandidate(db, now, member)
    ensures |member| >= 17 && member[17..] in Queue(was) && Eligible(Queue(was)[member[17..]], now)
  {
    CandidateRecord(db, member);
    StillEligible(was, expired, now, db, member[17..]);
  }

  lemma CandidateIsFirst(was: Structures, expired: seq<string>, now: int, db: Structures, member: string)
    requires RecoveredTo(was, expired, now, db) && IsCandidate(db, now, member) && WithinBatch(was, now)
    ensures |member| >= 17 && IsFirst(Queue(was), now, member[17..])
  {
    CandidateIsEligible(was, expired, now, db, member);
    var id := member[17..];
    CandidateRecord(db, member);
    StillEligible(was, expired, now, db, id);
    forall other | other in Queue(was) && other != id && Eligible(Queue(was)[other], now)
      ensures Before(Queue(was)[id].job, Queue(was)[other].job)
    {
      EligibleIsReady(was, expired, now, db, other);
      StillEligible(was, expired, now, db, other);
      CandidateIsBefore(db, now, member, other);
    }
  }

  /** A recovered job is ready and due, so a recovery never ends without a candidate. */
  lemma RecoveredIsDue(was: Structures, expired: seq<string>, now: int, db: Structures)
    requires RecoveredTo(was, expired, now, db) && expired != []
    ensures exists member | member in db.ready :: db.ready[member] <= now
  {
    var id := expired[0];
    RecoveredAllAt(Queue(was), expired);
    RecoverySteps(was, id);
    assert id in Queue(db) && Queue(db)[id] == Recovered(Queue(was), id)[id];
    assert Filed(db, db.records[id]);
    assert db.ready[db.records[id].readyMember] <= now;
  }

  lemma NothingIsExact(was: Structures, expired: seq<string>, now: int, db: Structures)
    requires RecoveredTo(was, expired, now, db) && forall member | member in db.ready :: db.ready[member] > now
    ensures db == was && expired == [] && NoneEligible(Queue(was), now)
  {
    if expired != [] {
      RecoveredIsDue(was, expired, now, db);
    }
    NothingReady(was, now);
  }

  // ---- The reserve script's recovery loop ----

  ghost predicate Recovering(was: Structures, expired: seq<string>, now: int, i: nat, db: Structures) {
    && i <= |expired|
    && Agree(db) && Queue(db) == RecoveredAll(Queue(was), expired[..i]) && (i == 0 ==> db == was)
    && Pending(db.reserved, expired, now, i)
  }

  ghost predicate Pending(reserved: SortedSet, expired: seq<string>, now: int, i: nat) {
    forall j | i <= j < |expired| :: expired[j] in reserved && reserved[expired[j]] <= now
  }

  lemma PendingShrinks(reserved: SortedSet, expired: seq<string>, now: int, i: nat)
    requires i < |expired| && Pending(reserved, expired, now, i)
    requires forall j | i < j < |expired| :: expired[i] != expired[j]
    ensures Pending(reserved - {expired[i]}, expired, now, i + 1)
  {
  }

  lemma RecoverNext(was: Structures, expired: seq<string>, now: int, i: nat, db: Structures)
    requires Recovering(was, expired, now, i, db) && i < |expired| && Distinct(expired)
    ensures expired[i] in db.records
    ensures Recovering(was, expired, now, i + 1, AfterRecover(db, expired[i]))
  {
    RecoverAgrees(db, expired[i]);
    RecoveredMore(Queue(was), expired, i);
    PendingShrinks(db.reserved, expired, now, i);
  }

  predicate CandidateSound(db: Structures, member: string) {
    && |member| >= 17 && member[17..] in db.records && member[17..] in db.payloads
    && var m := db.records[member[17..]];
    m.id == member[17..] && m.readyMember == member && IsReady(m) && m.attempts >= 0
  }

  /** What the reserve script promises on structures that agree with their queue. */
  ghost predicate ReserveMeets(was: Structures, now: int, token: string, until: int, expired: seq<string>,
                               reply: Reply, db: Structures)
  {
    && Agree(db)
    && match reply
       case Granted(m, payload) =>
         && IsRange(was.reserved, now, RECOVERY_BATCH, expired)
         && m.id in Queue(was) && Eligible(Queue(was)[m.id], now)
         && (WithinBatch(was, now) ==> IsFirst(Queue(was), now, m.id))
         && m.id in RecoveredAll(Queue(was), expired)
         && Queue(db) == Reserved(RecoveredAll(Queue(was), expired), m.id, token, until)
         && m.id in Queue(db) && Queue(db)[m.id] == RecordOf(m, payload)
       case Nothing => NoneEligible(Queue(was), now) && db == was
       case RetryReply => false
       case CorruptReply => false
  }

  lemma GrantMeets(was: Structures, expired: seq<string>, now: int, db: Structures, member: string, token: string,
                   until: int)
    requires RecoveredTo(was, expired, now, db) && IsCandidate(db, now, member) && token != NO_TOKEN && now <= until
    ensures CandidateSound(db, member)
    ensures var id := member[17..]; var after := AfterLease(db, id, token, until);
            ReserveMeets(was, now, token, until, expired, Granted(after.records[id], db.payloads[id]), after)
  {
    var id := member[17..];
    CandidateRecord(db, member);
    CandidateIsEligible(was, expired, now, db, member);
    if WithinBatch(was, now) {
      CandidateIsFirst(was, expired, now, db, member);
    }
    LeaseAgrees(db, id, token, until);
    assert Filed(db, db.records[id]);
    LeaseQueue(db, db.records[id], token, until);
  }

  // ---- What the two halves of the reserve script do to any structures ----

  datatype Turn = Turn(ok: bool, db: Structures)

  /** One turn of the loop over the expired reservations. */
  function RecoverOnce(db: Structures, id: string, now: int): Turn {
    if id !in db.records then Turn(true, db.(reserved := db.reserved - {id}))
    else if db.records[id].failedAt != ZERO_TIME then Turn(false, db)
    else if db.records[id].token == NO_TOKEN then Turn(true, db.(reserved := db.reserved - {id}))
    else Turn(true, if db.records[id].reservedUntil <= now then AfterRecover(db, id) else db)
  }

  function RecoverTurns(db: Structures, ids: seq<string>, now: int): Turn
    decreases |ids|
  {
    if ids == [] then Turn(true, db)
    else
      var turn := RecoverOnce(db, ids[0], now);
      if turn.ok then RecoverTurns(turn.db, ids[1..], now) else turn
  }

  lemma OnceRecovers(db: Structures, id: string, now: int)
    requires Agree(db) && id in db.reserved && db.reserved[id] <= now
    ensures id in db.records && RecoverOnce(db, id, now) == Turn(true, AfterRecover(db, id))
  {
    RecoverySteps(db, id);
  }

  /** What every turn keeps, the loop keeps. */
  lemma {:induction false} TurnsKeep(inv: (nat, Structures) -> bool, ids: seq<string>, now: int, i: nat, db: Structures)
    requires forall k: nat, x | k < |ids| && inv(k, x) ::
               RecoverOnce(x, ids[k], now).ok && inv(k + 1, RecoverOnce(x, ids[k], now).db)
    requires i <= |ids| && inv(i, db)
    ensures RecoverTurns(db, ids[i..], now).ok && inv(|ids|, RecoverTurns(db, ids[i..], now).db)
    decreases |ids| - i
  {
    if i < |ids| {
      assert ids[i..][1..] == ids[i + 1..];
      TurnsKeep(inv, ids, now, i + 1, RecoverOnce(db, ids[i], now).db);
    }
  }

  lemma TurnRecovers(was: Structures, expired: seq<string>, now: int, i: nat, db: Structures)
    requires Recovering(was, expired, now, i, db) && i < |expired| && Distinct(expired)
    ensures RecoverOnce(db, expired[i], now).ok
    ensures Recovering(was, expired, now, i + 1, RecoverOnce(db, expired[i], now).db)
  {
    OnceRecovers(db, expired[i], now);
    RecoverNext(was, expired, now, i, db);
  }

  lemma RecoveringNone(was: Structures, expired: seq<string>, now: int)
    requires Agree(was) && IsRange(was.reserved, now, RECOVERY_BATCH, expired)
    ensures Recovering(was, expired, now, 0, was)
  {
    assert expired[..0] == [];
  }

  lemma RecoveringAll(was: Structures, expired: seq<string>, now: int, db: Structures)
    requires Agree(was) && IsRange(was.reserved, now, RECOVERY_BATCH, expired)
    requires Recovering(was, expired, now, |expired|, db)
    ensures RecoveredTo(was, expired, now, db)
  {
    assert expired[..|expired|] == expired;
  }

  lemma BatchTurns(was: Structures, expired: seq<string>, now: int)
    requires Recovering(was, expired, now, 0, was) && Distinct(expired)
    ensures RecoverTurns(was, expired, now).ok
    ensures Recovering(was, expired, now, |expired|, RecoverTurns(was, expired, now).db)
  {
    var inv := (k: nat, db: Structures) => Recovering(was, expired, now, k, db);
    forall k: nat, x | k < |expired| && inv(k, x)
      ensures RecoverOnce(x, expired[k], now).ok && inv(k + 1, RecoverOnce(x, expired[k], now).db)
    {
      TurnRecovers(was, expired, now, k, x);
    }
    assert expired[0..] == expired;
    TurnsKeep(inv, expired, now, 0, was);
  }

  /** On agreeing structures the loop recovers every member of the batch. */
  lemma BatchRecovers(was: Structures, expired: seq<string>, now: int)
    requires Agree(was) && IsRange(was.reserved, now, RECOVERY_BATCH, expired)
    ensures RecoverTurns(was, expired, now).ok && RecoveredTo(was, expired, now, RecoverTurns(was, expired, now).db)
  {
    RecoveringNone(was, expired, now);
    BatchTurns(was, expired, now);
    RecoveringAll(was, expired, now, RecoverTurns(was, expired, now).db);
  }

  /** The candidate is leased, refused as corrupt, or there is none that is due. */
  ghost predicate CandidateTurn(db: Structures, now: int, token: string, until: int, full: bool, member: string,
                                reply: Reply, after: Structures)
  {
    match reply
    case Granted(m, payload) =>
      && IsCandidate(db, now, member) && CandidateSound(db, member)
      && after == AfterLease(db, member[17..], token, until)
      && m == after.records[member[17..]] && payload == db.payloads[member[17..]]
    case CorruptReply => IsCandidate(db, now, member) && !CandidateSound(db, member) && after == db
    case _ =>
      && (forall other | other in db.ready :: db.ready[other] > now)
      && after == db && reply == if full then RetryReply else Nothing
  }

  lemma TurnMeets(was: Structures, expired: seq<string>, now: int, token: string, until: int, member: string,
                  db: Structures, reply: Reply, after: Structures)
    requires RecoveredTo(was, expired, now, db) && token != NO_TOKEN && now <= until
    requires CandidateTurn(db, now, token, until, |expired| == RECOVERY_BATCH, member, reply, after)
    ensures ReserveMeets(was, now, token, until, expired, reply, after)
  {
    if reply.Granted? || reply.CorruptReply? {
      GrantMeets(was, expired, now, db, member, token, until);
    } else {
      NothingIsExact(was, expired, now, db);
    }
  }

  ghost predicate CandidateAnswers(db: Structures, now: int, token: string, until: int, full: bool, reply: Reply,
                                   after: Structures)
  {
    exists member :: CandidateTurn(db, now, token, until, full, member, reply, after)
  }

  /** What the whole script does, on any structures: it recovers a batch of the
      expired reservations and then leases the lowest ready member. */
  ghost predicate ScriptAnswers(db: Structures, now: int, token: string, until: int, expired: seq<string>,
                                reply: Reply, after: Structures)
  {
    && IsRange(db.reserved, now, RECOVERY_BATCH, expired)
    && var t := RecoverTurns(db, expired, now);
    if t.ok then CandidateAnswers(t.db, now, token, until, |expired| == RECOVERY_BATCH, reply, after)
    else reply == CorruptReply && after == t.db
  }

  lemma AnswersMeet(db: Structures, now: int, token: string, until: int, expired: seq<string>, reply: Reply,
                    after: Structures)
    requires Agree(db) && ScriptAnswers(db, now, token, until, expired, reply, after)
    requires token != NO_TOKEN && now <= until
    ensures ReserveMeets(db, now, token, until, expired, reply, after)
  {
    BatchRecovers(db, expired, now);
    var t := RecoverTurns(db, expired, now);
    var member :| CandidateTurn(t.db, now, token, until, |expired| == RECOVERY_BATCH, member, reply, after);
    TurnMeets(db, expired, now, token, until, member, t.db, reply, after);
  }
}
