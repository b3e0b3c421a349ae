/** The Redis job store: five structures that each script changes in one atomic
    step, kept in agreement with the queue of LeasedQueue. */
module RedisStructures {
  import opened Text
  import opened LeasedQueue
  import opened ReadyMembers

  /** A sorted set: members with their scores. */
  type SortedSet = map<string, int>

  const RECOVERY_BATCH := 128

  predicate ScoreBefore(z: SortedSet, a: string, b: string)
    requires a in z && b in z
  {
    z[a] < z[b] || (z[a] == z[b] && Less(a, b))
  }

  ghost predicate Least(z: SortedSet, among: set<string>, m: string)
    requires among <= z.Keys
  {
    m in among && forall other | other in among && other != m :: ScoreBefore(z, m, other)
  }

  method PickLeast(z: SortedSet, among: set<string>) returns (m: string)
    requires among <= z.Keys && among != {}
    ensures Least(z, among, m)
  {
    m :| m in among;
    var rest := among - {m};
    while rest != {}
      invariant rest <= among && m in among && m !in rest
      invariant forall other | other in among && other !in rest && other != m :: ScoreBefore(z, m, other)
      decreases rest
    {
      var next :| next in rest;
      rest := rest - {next};
      LessTotal(next, m);
      if ScoreBefore(z, next, m) {
        forall other | other in among && other !in rest && other != next
          ensures ScoreBefore(z, next, other)
        {
          if other != m && z[next] == z[m] == z[other] {
            LessTransitive(next, m, other);
          }
        }
        m := next;
      }
    }
  }

  /** ZRANGEBYSCORE -inf maximum LIMIT 0 limit: lowest first, no more than limit. */
  ghost predicate IsRange(z: SortedSet, maximum: int, limit: nat, members: seq<string>) {
    && |members| <= limit
    && (forall i | 0 <= i < |members| :: members[i] in z && z[members[i]] <= maximum)
    && (forall i, j | 0 <= i < j < |members| :: members[i] != members[j])
    && (|members| < limit ==> forall m | m in z && z[m] <= maximum :: m in members)
    && (forall i, m | 0 <= i < |members| && m in z && z[m] <= maximum && m !in members :: ScoreBefore(z, members[i], m))
  }

  method RangeByScore(z: SortedSet, maximum: int, limit: nat) returns (members: seq<string>)
    ensures IsRange(z, maximum, limit, members)
  {
    members := [];
    var rest := set m | m in z && z[m] <= maximum;
    while |members| < limit && rest != {}
      invariant |members| <= limit && rest <= z.Keys
      invariant forall m | m in rest :: z[m] <= maximum && m !in members
      invariant forall i | 0 <= i < |members| :: members[i] in z && z[members[i]] <= maximum
      invariant forall i, j | 0 <= i < j < |members| :: members[i] != members[j]
      invariant forall m | m in z && z[m] <= maximum :: m in members || m in rest
      invariant forall i, m | 0 <= i < |members| && m in rest :: ScoreBefore(z, members[i], m)
      decreases rest
    {
      var m := PickLeast(z, rest);
      rest := rest - {m};
      members := members + [m];
    }
  }

  /** The JSON metadata; zero and the empty string stand for ''. */
  datatype Metadata = Metadata(
    id: string, handler: string, availableAt: int, enqueuedAt: int, attempts: int, readyMember: string,
    token: string, reservedUntil: int, failedAt: int, lastError: string)

  datatype Reply = Granted(metadata: Metadata, payload: string) | Nothing | RetryReply | CorruptReply

  predicate IsReady(m: Metadata) {
    m.token == NO_TOKEN && m.failedAt == ZERO_TIME
  }

  /** Expired jobs put back one after the other. */
  function RecoveredAll(jobs: Jobs, ids: seq<string>): Jobs {
    if ids == [] then jobs
    else
      var before := RecoveredAll(jobs, ids[..|ids| - 1]);
      var id := ids[|ids| - 1];
      if id in before then Recovered(before, id) else before
  }

  lemma {:induction false} RecoveredAllAt(jobs: Jobs, ids: seq<string>)
    ensures RecoveredAll(jobs, ids).Keys == jobs.Keys
    ensures forall id | id in jobs ::
              RecoveredAll(jobs, ids)[id] == if id in ids then Recovered(jobs, id)[id] else jobs[id]
  {
    if ids != [] {
      RecoveredAllAt(jobs, ids[..|ids| - 1]);
    }
  }

  /** The records and payloads hashes and the ready, reserved and failed sets. */
  datatype Structures = Structures(
    records: map<string, Metadata>,
    payloads: map<string, string>,
    ready: SortedSet,
    reserved: SortedSet,
    failed: SortedSet)

  const EMPTY := Structures(map[], map[], map[], map[], map[])

  /** What the scripts keep about one job's metadata. */
  ghost predicate Sound(m: Metadata) {
    && ExactTime(m.enqueuedAt) && m.readyMember == ReadyMember(m.enqueuedAt, m.id) && m.attempts >= 0
    && (m.token == NO_TOKEN ==> m.reservedUntil == ZERO_TIME)
    && (m.token != NO_TOKEN ==> m.failedAt == ZERO_TIME && m.availableAt <= m.reservedUntil)
  }

  /** The job sits in exactly the set its metadata names, under its time. */
  ghost predicate Filed(db: Structures, m: Metadata) {
    && (if IsReady(m) then m.readyMember in db.ready && db.ready[m.readyMember] == m.availableAt
        else m.readyMember !in db.ready)
    && (if m.token != NO_TOKEN then m.id in db.reserved && db.reserved[m.id] == m.reservedUntil
        else m.id !in db.reserved)
    && (if m.failedAt != ZERO_TIME then m.id in db.failed && db.failed[m.id] == m.failedAt else m.id !in db.failed)
  }

  ghost predicate Agree(db: Structures) {
    db.records.Keys == db.payloads.Keys && AllFiled(db) && MembersKnown(db)
  }

  function RecordOf(m: Metadata, payload: string): Record {
    Record(Job(m.id, m.handler, payload, m.availableAt, m.enqueuedAt, m.attempts),
           m.token, m.reservedUntil, m.failedAt, m.lastError)
  }

  /** The queue the five structures stand for. */
  function Queue(db: Structures): Jobs {
    map id | id in db.records && id in db.payloads :: RecordOf(db.records[id], db.payloads[id])
  }

  function With(z: SortedSet, member: string, present: bool, score: int): SortedSet {
    if present then z[member := score] else z - {member}
  }

  /** Storing new metadata and moving the job to the set it names. */
  function Put(db: Structures, m: Metadata, payload: string): Structures {
    Structures(
      db.records[m.id := m], db.payloads[m.id := payload],
      With(db.ready, m.readyMember, IsReady(m), m.availableAt),
      With(db.reserved, m.id, m.token != NO_TOKEN, m.reservedUntil),
      With(db.failed, m.id, m.failedAt != ZERO_TIME, m.failedAt))
  }

  function Drop(db: Structures, m: Metadata): Structures {
    Structures(db.records - {m.id}, db.payloads - {m.id}, db.ready - {m.readyMember}, db.reserved - {m.id},
               db.failed - {m.id})
  }

  lemma MemberTail(m: Metadata)
    requires Sound(m)
    ensures |m.readyMember| >= 17 && m.readyMember[17..] == m.id
  {
    MemberId(m.enqueuedAt, m.id);
  }

  ghost predicate SameElsewhere(after: SortedSet, before: SortedSet, member: string) {
    forall other | other != member ::
      (other in after <==> other in before) && (other in after ==> after[other] == before[other])
  }

  lemma WithElsewhere(z: SortedSet, member: string, present: bool, score: int)
    ensures SameElsewhere(With(z, member, present, score), z, member)
    ensures SameElsewhere(z - {member}, z, member)
  {
  }

  lemma Absent(z: SortedSet, member: string)
    requires member !in z
    ensures z - {member} == z
  {
  }

  lemma Unchanged(payloads: map<string, string>, id: string)
    requires id in payloads
    ensures payloads[id := payloads[id]] == payloads
  {
  }

  /** Another job's entries are untouched when one job moves. */
  lemma OthersStay(db: Structures, after: Structures, m: Metadata, other: Metadata)
    requires Sound(m) && Sound(other) && m.id != other.id && Filed(db, other)
    requires SameElsewhere(after.ready, db.ready, m.readyMember)
    requires SameElsewhere(after.reserved, db.reserved, m.id) && SameElsewhere(after.failed, db.failed, m.id)
    ensures Filed(after, other)
  {
    MemberTail(m);
    MemberTail(other);
  }

  lemma MoveElsewhere(db: Structures, m: Metadata, payload: string)
    ensures var after := Put(db, m, payload);
            && SameElsewhere(after.ready, db.ready, m.readyMember)
            && SameElsewhere(after.reserved, db.reserved, m.id) && SameElsewhere(after.failed, db.failed, m.id)
    ensures var after := Drop(db, m);
            && SameElsewhere(after.ready, db.ready, m.readyMember)
            && SameElsewhere(after.reserved, db.reserved, m.id) && SameElsewhere(after.failed, db.failed, m.id)
  {
    WithElsewhere(db.ready, m.readyMember, IsReady(m), m.availableAt);
    WithElsewhere(db.reserved, m.id, m.token != NO_TOKEN, m.reservedUntil);
    WithElsewhere(db.failed, m.id, m.failedAt != ZERO_TIME, m.failedAt);
  }

  ghost predicate AllFiled(db: Structures) {
    forall id | id in db.records :: db.records[id].id == id && Sound(db.records[id]) && Filed(db, db.records[id])
  }

  ghost predicate MembersKnown(db: Structures) {
    && (forall member | member in db.ready ::
          |member| >= 17 && member[17..] in db.records && db.records[member[17..]].readyMember == member)
    && db.reserved.Keys <= db.records.Keys && db.failed.Keys <= db.records.Keys
  }

  lemma PutFiles(db: Structures, m: Metadata, payload: string)
    requires AllFiled(db) && Sound(m)
    ensures AllFiled(Put(db, m, payload))
  {
    var after := Put(db, m, payload);
    forall id | id in after.records
      ensures after.records[id].id == id && Sound(after.records[id]) && Filed(after, after.records[id])
    {
      if id != m.id {
        MoveElsewhere(db, m, payload);
        OthersStay(db, after, m, db.records[id]);
      }
    }
  }

  lemma PutMembers(db: Structures, m: Metadata, payload: string)
    requires MembersKnown(db) && Sound(m) && (m.id in db.records ==> db.records[m.id].readyMember == m.readyMember)
    ensures MembersKnown(Put(db, m, payload))
  {
    MemberTail(m);
  }

  lemma PutAgrees(db: Structures, m: Metadata, payload: string)
    requires Agree(db) && Sound(m) && (m.id in db.records ==> db.records[m.id].readyMember == m.readyMember)
    ensures Agree(Put(db, m, payload))
    ensures Queue(Put(db, m, payload)) == Queue(db)[m.id := RecordOf(m, payload)]
  {
    PutFiles(db, m, payload);
    PutMembers(db, m, payload);
    PutQueue(db, m, payload);
  }

  lemma PutQueue(db: Structures, m: Metadata, payload: string)
    requires db.records.Keys == db.payloads.Keys
    ensures Queue(Put(db, m, payload)) == Queue(db)[m.id := RecordOf(m, payload)]
  {
  }

  lemma DropFiles(db: Structures, m: Metadata)
    requires AllFiled(db) && Sound(m)
    ensures AllFiled(Drop(db, m))
  {
    var after := Drop(db, m);
    forall id | id in after.records
      ensures after.records[id].id == id && Sound(after.records[id]) && Filed(after, after.records[id])
    {
      MoveElsewhere(db, m, "");
      OthersStay(db, after, m, db.records[id]);
    }
  }

  lemma DropMembers(db: Structures, m: Metadata)
    requires MembersKnown(db) && Sound(m) && m.id in db.records && db.records[m.id] == m
    ensures MembersKnown(Drop(db, m))
  {
    MemberTail(m);
  }

  lemma DropQueue(db: Structures, m: Metadata)
    requires db.records.Keys == db.payloads.Keys
    ensures Queue(Drop(db, m)) == Queue(db) - {m.id}
  {
  }

  lemma DropAgrees(db: Structures, m: Metadata)
    requires Agree(db) && m.id in db.records && db.records[m.id] == m
    ensures Agree(Drop(db, m)) && Queue(Drop(db, m)) == Queue(db) - {m.id}
  {
    DropFiles(db, m);
    DropMembers(db, m);
    DropQueue(db, m);
  }

  // ---- What each script does to the structures ----

  function AfterEnqueue(db: Structures, job: Job): Structures
    requires ExactTime(job.enqueuedAt)
  {
    var m := Metadata(job.id, job.handler, job.availableAt, job.enqueuedAt, job.attempts,
                      ReadyMember(job.enqueuedAt, job.id), NO_TOKEN, ZERO_TIME, ZERO_TIME, "");
    db.(records := db.records[job.id := m], payloads := db.payloads[job.id := job.payload],
        ready := db.ready[m.readyMember := job.availableAt])
  }

  function AfterRelease(db: Structures, id: string, availableAt: int, error: string): Structures
    requires id in db.records
  {
    var m := db.records[id].(availableAt := availableAt, token := NO_TOKEN, reservedUntil := ZERO_TIME,
        lastError := error);
    db.(records := db.records[id := m], reserved := db.reserved - {id}, ready := db.ready[m.readyMember := availableAt])
  }

  /** Complete and forget delete every trace of the job. */
  function AfterDelete(db: Structures, id: string): Structures
    requires id in db.records
  {
    Structures(db.records - {id}, db.payloads - {id}, db.ready - {db.records[id].readyMember}, db.reserved - {id},
               db.failed - {id})
  }

  function AfterFail(db: Structures, id: string, failedAt: int, error: string): Structures
    requires id in db.records
  {
    var m := db.records[id].(token := NO_TOKEN, reservedUntil := ZERO_TIME, failedAt := failedAt, lastError := error);
    db.(records := db.records[id := m], ready := db.ready - {m.readyMember}, reserved := db.reserved - {id},
        failed := db.failed[id := failedAt])
  }

  function AfterRetry(db: Structures, id: string, availableAt: int): Structures
    requires id in db.records
  {
    var m := db.records[id].(attempts := 0, availableAt := availableAt, token := NO_TOKEN, reservedUntil := ZERO_TIME,
                             failedAt := ZERO_TIME, lastError := "");
    db.(records := db.records[id := m], failed := db.failed - {id}, ready := db.ready[m.readyMember := availableAt])
  }

  function AfterRecover(db: Structures, id: string): Structures
    requires id in db.records
  {
    var m := db.records[id].(token := NO_TOKEN, reservedUntil := ZERO_TIME);
    db.(records := db.records[id := m], reserved := db.reserved - {id},
        ready := db.ready[m.readyMember := m.availableAt])
  }

  function AfterLease(db: Structures, id: string, token: string, until: int): Structures
    requires id in db.records
  {
    var m := db.records[id];
    var leased := m.(attempts := m.attempts + 1, token := token, reservedUntil := until);
    db.(records := db.records[id := leased], ready := db.ready - {m.readyMember}, reserved := db.reserved[id := until])
  }

  lemma EnqueueAgrees(db: Structures, job: Job)
    requires Agree(db) && job.id !in db.records && ExactTime(job.enqueuedAt) && job.attempts >= 0
    ensures Agree(AfterEnqueue(db, job)) && Queue(AfterEnqueue(db, job)) == Enqueued(Queue(db), job)
  {
    var m := AfterEnqueue(db, job).records[job.id];
    PutAgrees(db, m, job.payload);
    Absent(db.reserved, job.id);
    Absent(db.failed, job.id);
    assert AfterEnqueue(db, job) == Put(db, m, job.payload);
  }

  lemma ReleaseAgrees(db: Structures, id: string, availableAt: int, error: string)
    requires Agree(db) && id in db.records && db.records[id].token != NO_TOKEN
    ensures Agree(AfterRelease(db, id, availableAt, error))
    ensures Queue(AfterRelease(db, id, availableAt, error)) == Released(Queue(db), id, availableAt, error)
  {
    var m := AfterRelease(db, id, availableAt, error).records[id];
    PutAgrees(db, m, db.payloads[id]);
    Absent(db.failed, id);
    Unchanged(db.payloads, id);
    assert AfterRelease(db, id, availableAt, error) == Put(db, m, db.payloads[id]);
  }

  lemma DeleteAgrees(db: Structures, id: string)
    requires Agree(db) && id in db.records
    ensures Agree(AfterDelete(db, id)) && Queue(AfterDelete(db, id)) == Queue(db) - {id}
  {
    DropAgrees(db, db.records[id]);
  }

  lemma FailAgrees(db: Structures, id: string, failedAt: int, error: string)
    requires Agree(db) && id in db.records && db.records[id].token != NO_TOKEN && failedAt != ZERO_TIME
    ensures Agree(AfterFail(db, id, failedAt, error))
    ensures Queue(AfterFail(db, id, failedAt, error)) == Failed(Queue(db), id, failedAt, error)
  {
    var m := AfterFail(db, id, failedAt, error).records[id];
    PutAgrees(db, m, db.payloads[id]);
    Unchanged(db.payloads, id);
    assert AfterFail(db, id, failedAt, error) == Put(db, m, db.payloads[id]);
  }

  lemma RetryAgrees(db: Structures, id: string, availableAt: int)
    requires Agree(db) && id in db.records && db.records[id].failedAt != ZERO_TIME
    ensures Agree(AfterRetry(db, id, availableAt))
    ensures Queue(AfterRetry(db, id, availableAt)) == Retried(Queue(db), id, availableAt)
  {
    var m := AfterRetry(db, id, availableAt).records[id];
    PutAgrees(db, m, db.payloads[id]);
    Absent(db.reserved, id);
    Unchanged(db.payloads, id);
    assert AfterRetry(db, id, availableAt) == Put(db, m, db.payloads[id]);
  }

  lemma RecoverAgrees(db: Structures, id: string)
    requires Agree(db) && id in db.reserved
    ensures Agree(AfterRecover(db, id)) && Queue(AfterRecover(db, id)) == Recovered(Queue(db), id)
  {
    var m := AfterRecover(db, id).records[id];
    PutAgrees(db, m, db.payloads[id]);
    Absent(db.failed, id);
    Unchanged(db.payloads, id);
    assert AfterRecover(db, id) == Put(db, m, db.payloads[id]);
  }

  lemma LeaseIsPut(db: Structures, id: string, m: Metadata)
    requires id in db.records && id in db.payloads && id !in db.failed
    requires m == db.records[id].(attempts := db.records[id].attempts + 1, token := m.token,
              reservedUntil := m.reservedUntil)
    requires m.id == id && m.token != NO_TOKEN && m.failedAt == ZERO_TIME
    ensures AfterLease(db, id, m.token, m.reservedUntil) == Put(db, m, db.payloads[id])
  {
    Absent(db.failed, id);
    Unchanged(db.payloads, id);
  }

  lemma ReservedRecord(jobs: Jobs, id: string, token: string, until: int, r: Record)
    requires id in jobs && jobs[id] == r
    ensures Reserved(jobs, id, token, until) ==
            jobs[id := r.(job := r.job.(attempts := r.job.attempts + 1), token := token, reservedUntil := until)]
  {
  }

  lemma LeaseQueue(db: Structures, was: Metadata, token: string, until: int)
    requires db.records.Keys == db.payloads.Keys && was.id in db.records && db.records[was.id] == was
    requires was.id !in db.failed && token != NO_TOKEN && was.failedAt == ZERO_TIME
    ensures Queue(AfterLease(db, was.id, token, until)) == Reserved(Queue(db), was.id, token, until)
  {
    var m := was.(attempts := was.attempts + 1, token := token, reservedUntil := until);
    LeaseIsPut(db, was.id, m);
    PutQueue(db, m, db.payloads[was.id]);
    ReservedRecord(Queue(db), was.id, token, until, RecordOf(was, db.payloads[was.id]));
  }

  lemma LeaseAgrees(db: Structures, id: string, token: string, until: int)
    requires Agree(db) && id in db.records && IsReady(db.records[id])
    requires token != NO_TOKEN && db.records[id].availableAt <= until
    ensures Agree(AfterLease(db, id, token, until))
  {
    var m := AfterLease(db, id, token, until).records[id];
    PutAgrees(db, m, db.payloads[id]);
    Absent(db.failed, id);
    Unchanged(db.payloads, id);
    assert AfterLease(db, id, token, until) == Put(db, m, db.payloads[id]);
  }
}
