/** The queue of stored jobs that the file, SQL and Redis stores all implement:
    records, eligibility, the reservation order and the effect of each operation. */
module LeasedQueue {
  import opened Wrappers
  import opened Text

  /** Zero stands for Go's zero time, the empty string for no token. */
  const ZERO_TIME := 0
  const NO_TOKEN := ""

  datatype Job = Job(
    id: string, handler: string, payload: string, availableAt: int, enqueuedAt: int, attempts: int)

  datatype Record = Record(job: Job, token: string, reservedUntil: int, failedAt: int, lastError: string)

  type Jobs = map<string, Record>

  datatype StoreError =
    | Cancelled | Closed | Full | Conflict | Empty | ReservationInvalid | OperationFailed | Corrupt

  datatype Reservation = Reservation(job: Job, token: string, reservedUntil: int)

  predicate Eligible(r: Record, now: int) {
    && r.failedAt == ZERO_TIME
    && r.job.availableAt <= now
    && (r.token == NO_TOKEN || r.reservedUntil <= now)
  }

  /** The order of sort.Slice in Reserve and of the SQL query. */
  predicate Before(a: Job, b: Job) {
    if a.availableAt != b.availableAt then a.availableAt < b.availableAt
    else if a.enqueuedAt != b.enqueuedAt then a.enqueuedAt < b.enqueuedAt
    else Less(a.id, b.id)
  }

  lemma BeforeTransitive(a: Job, b: Job, c: Job)
    requires Before(a, b) && Before(b, c)
    ensures Before(a, c)
  {
    if Less(a.id, b.id) && Less(b.id, c.id) {
      LessTransitive(a.id, b.id, c.id);
    }
  }

  lemma BeforeTotal(a: Job, b: Job)
    ensures Before(a, b) || Before(b, a) || a.id == b.id
    ensures !(Before(a, b) && Before(b, a))
  {
    LessTotal(a.id, b.id);
  }

  /** The job that sorting every eligible record would put first. */
  ghost predicate IsFirst(jobs: Jobs, now: int, id: string) {
    && id in jobs && Eligible(jobs[id], now)
    && forall other | other in jobs && other != id && Eligible(jobs[other], now) ::
        Before(jobs[id].job, jobs[other].job)
  }

  ghost predicate NoneEligible(jobs: Jobs, now: int) {
    forall id | id in jobs :: !Eligible(jobs[id], now)
  }

  /** Records sit under their own id. */
  ghost predicate Keyed(jobs: Jobs) {
    forall id | id in jobs :: jobs[id].job.id == id
  }

  // ---- The operations ----

  function Enqueued(jobs: Jobs, job: Job): Jobs {
    jobs[job.id := Record(job, NO_TOKEN, ZERO_TIME, ZERO_TIME, "")]
  }

  function Reserved(jobs: Jobs, id: string, token: string, until: int): Jobs
    requires id in jobs
  {
    var r := jobs[id];
    jobs[id := r.(job := r.job.(attempts := r.job.attempts + 1), token := token, reservedUntil := until)]
  }

  function Released(jobs: Jobs, id: string, availableAt: int, lastError: string): Jobs
    requires id in jobs
  {
    var r := jobs[id];
    jobs[id := r.(job := r.job.(availableAt := availableAt), token := NO_TOKEN, reservedUntil := ZERO_TIME,
                  lastError := lastError)]
  }

  function Failed(jobs: Jobs, id: string, failedAt: int, lastError: string): Jobs
    requires id in jobs
  {
    jobs[id := jobs[id].(token := NO_TOKEN, reservedUntil := ZERO_TIME, failedAt := failedAt, lastError := lastError)]
  }

  function Retried(jobs: Jobs, id: string, availableAt: int): Jobs
    requires id in jobs
  {
    var r := jobs[id];
    jobs[id := r.(job := r.job.(attempts := 0, availableAt := availableAt), failedAt := ZERO_TIME, lastError := "")]
  }

  /** Redis puts an expired job back among the ready ones before it reserves. */
  function Recovered(jobs: Jobs, id: string): Jobs
    requires id in jobs
  {
    jobs[id := jobs[id].(token := NO_TOKEN, reservedUntil := ZERO_TIME)]
  }

  /** A record that a token may release, complete or fail. */
  predicate Holds(jobs: Jobs, id: string, token: string) {
    id in jobs && token != NO_TOKEN && jobs[id].token == token
  }

  predicate IsFailed(jobs: Jobs, id: string) {
    id in jobs && jobs[id].failedAt != ZERO_TIME
  }

  // ---- What the operations mean for who gets the job and when ----

  /** The same work under the same id: only its time and its count may differ. */
  predicate SameJob(a: Job, b: Job) {
    a.id == b.id && a.handler == b.handler && a.payload == b.payload && a.enqueuedAt == b.enqueuedAt
  }

  /** Nothing is said of any other job. */
  ghost predicate OthersStay(was: Jobs, jobs: Jobs, id: string) {
    forall other | other != id ::
      (other in jobs <==> other in was) && (other in was ==> jobs[other] == was[other])
  }

  /** The job can be reserved exactly from this time on. */
  ghost predicate FreeFrom(jobs: Jobs, id: string, from: int) {
    id in jobs && forall t :: Eligible(jobs[id], t) <==> from <= t
  }

  ghost predicate NeverFree(jobs: Jobs, id: string) {
    id in jobs && forall t :: !Eligible(jobs[id], t)
  }

  /** A new job waits for its time, and nobody holds it. */
  lemma EnqueuedMeans(jobs: Jobs, job: Job)
    ensures var after := Enqueued(jobs, job);
            && FreeFrom(after, job.id, job.availableAt) && after[job.id].job == job
            && OthersStay(jobs, after, job.id) && !IsFailed(after, job.id)
            && forall token :: !Holds(after, job.id, token)
  {
  }

  /** A reserved job is nobody else's until the lease ends, and then anybody's. */
  lemma ReservedMeans(jobs: Jobs, id: string, now: int, token: string, until: int)
    requires id in jobs && Eligible(jobs[id], now) && now < until && token != NO_TOKEN
    ensures var after := Reserved(jobs, id, token, until);
            && FreeFrom(after, id, until) && OthersStay(jobs, after, id)
            && SameJob(after[id].job, jobs[id].job) && after[id].job.attempts == jobs[id].job.attempts + 1
            && after[id].job.availableAt == jobs[id].job.availableAt && after[id].lastError == jobs[id].lastError
            && forall other :: Holds(after, id, other) <==> other == token
  {
  }

  /** A released job waits for its new time and remembers the error. */
  lemma ReleasedMeans(jobs: Jobs, id: string, token: string, at: int, lastError: string)
    requires Holds(jobs, id, token) && jobs[id].failedAt == ZERO_TIME
    ensures var after := Released(jobs, id, at, lastError);
            && FreeFrom(after, id, at) && OthersStay(jobs, after, id)
            && SameJob(after[id].job, jobs[id].job) && after[id].job.attempts == jobs[id].job.attempts
            && after[id].lastError == lastError && after[id].reservedUntil == ZERO_TIME
            && forall other :: !Holds(after, id, other)
  {
  }

  /** A failed job stays away from the workers, and says why and since when. */
  lemma FailedMeans(jobs: Jobs, id: string, token: string, at: int, lastError: string)
    requires Holds(jobs, id, token) && at != ZERO_TIME
    ensures var after := Failed(jobs, id, at, lastError);
            && NeverFree(after, id) && IsFailed(after, id) && OthersStay(jobs, after, id)
            && after[id].job == jobs[id].job && after[id].failedAt == at && after[id].lastError == lastError
            && after[id].reservedUntil == ZERO_TIME && forall other :: !Holds(after, id, other)
  {
  }

  /** A failed job that is retried has all its attempts again: the next reservation
      is its first. */
  lemma RetriedMeans(jobs: Jobs, id: string, at: int, token: string, until: int)
    requires IsFailed(jobs, id) && jobs[id].token == NO_TOKEN
    ensures var after := Retried(jobs, id, at);
            && FreeFrom(after, id, at) && OthersStay(jobs, after, id) && SameJob(after[id].job, jobs[id].job)
            && after[id].lastError == "" && (forall other :: !Holds(after, id, other))
            && Reserved(after, id, token, until)[id].job.attempts == 1
  {
  }

  /** Recovering an expired reservation changes nothing for those who could take it. */
  lemma RecoveredMeans(jobs: Jobs, id: string, now: int)
    requires id in jobs && jobs[id].token != NO_TOKEN && jobs[id].reservedUntil <= now
    ensures var after := Recovered(jobs, id);
            && OthersStay(jobs, after, id) && after[id] == jobs[id].(token := NO_TOKEN, reservedUntil := ZERO_TIME)
            && (forall t | t >= now :: Eligible(after[id], t) <==> Eligible(jobs[id], t))
            && forall other :: !Holds(after, id, other)
  {
  }

  // ---- Choosing the job to reserve ----

  /** Ranges over the records in any order and keeps the earliest eligible one. */
  method PickFirst(jobs: Jobs, now: int) returns (first: Option<string>)
    requires Keyed(jobs)
    ensures first.None? <==> NoneEligible(jobs, now)
    ensures first.Some? ==> IsFirst(jobs, now, first.value)
  {
    first := None;
    var remaining := jobs.Keys;
    while remaining != {}
      invariant remaining <= jobs.Keys
      invariant first.None? ==> forall id | id in jobs && id !in remaining :: !Eligible(jobs[id], now)
      invariant first.Some? ==>
                  && first.value in jobs && first.value !in remaining && Eligible(jobs[first.value], now)
                  && forall id | id in jobs && id !in remaining && id != first.value && Eligible(jobs[id], now)
                       :: Before(jobs[first.value].job, jobs[id].job)
      decreases remaining
    {
      var id :| id in remaining;
      remaining := remaining - {id};
      if Eligible(jobs[id], now) {
        if first.None? {
          first := Some(id);
        } else {
          BeforeTotal(jobs[id].job, jobs[first.value].job);
          if Before(jobs[id].job, jobs[first.value].job) {
            forall other | other in jobs && other !in remaining && other != id && Eligible(jobs[other], now)
              ensures Before(jobs[id].job, jobs[other].job)
            {
              if other != first.value {
                BeforeTransitive(jobs[id].job, jobs[first.value].job, jobs[other].job);
              }
            }
            first := Some(id);
          }
        }
      }
    }
  }

  lemma FirstUnique(jobs: Jobs, now: int, a: string, b: string)
    requires Keyed(jobs) && IsFirst(jobs, now, a) && IsFirst(jobs, now, b)
    ensures a == b
  {
    BeforeTotal(jobs[a].job, jobs[b].job);
  }
}
