/** One reservation in the hands of a persistent worker: start the handler or
    not, and give the reservation back. */
module PersistentExecution {
  import opened Wrappers
  import opened LeasedQueue
  import opened FileJobLog
  import opened FileJobRuns
  import opened FileJobStores
  import opened PersistentWorkers

  /** A registered handler: its attempt limit, its back-off and whether it can
      decode a payload. */
  datatype Handler = Handler(maxAttempts: nat, retryBackoff: int, decodes: string -> bool)

  type Handlers = map<string, Handler>

  /** The store can end this reservation: the token holds a job that has not
      failed, and the end can be written. */
  ghost predicate CanFinish(store: FileJobStore, jobs: Jobs, r: Reservation)
    reads store`closed
  {
    && Holds(jobs, r.job.id, r.token) && jobs[r.job.id].failedAt == ZERO_TIME && r.job.id != "" && !store.closed
    && forall e | IsEnd(e, r) :: store.options.codec.encode(e).Some?
  }

  predicate IsEnd(e: Event, r: Reservation) {
    (e.ReleaseEvent? || e.CompleteEvent? || e.FailEvent?) && e.id == r.job.id && e.token == r.token
  }

  /** The job waits for its next attempt, from this time on, and says why. */
  ghost predicate Waits(was: Jobs, jobs: Jobs, id: string, from: int, error: string) {
    && id in was && FreeFrom(jobs, id, from) && !IsFailed(jobs, id) && jobs[id].lastError == error
    && SameJob(jobs[id].job, was[id].job) && jobs[id].job.attempts == was[id].job.attempts
  }

  /** The job has failed, and says when and why. */
  ghost predicate HasFailed(was: Jobs, jobs: Jobs, id: string, at: int, error: string) {
    && id in was && NeverFree(jobs, id) && IsFailed(jobs, id) && jobs[id].failedAt == at
    && jobs[id].lastError == error && jobs[id].job == was[id].job
  }

  /** Nobody holds the job any more, and no other job is touched. */
  ghost predicate Ended(was: Jobs, jobs: Jobs, id: string) {
    OthersStay(was, jobs, id) && forall token :: !Holds(jobs, id, token)
  }

  /** The handler starts when it is registered, within its limit and able to read
      the payload. Its error, if it has one, and the message of a failure are what
      the store is told. */
  method ExecutePersistent(store: FileJobStore, handlers: Handlers, r: Reservation, error: Option<string>,
                           message: string, now: int)
    returns (started: bool)
    requires store.Valid() && forall name | name in handlers :: now + handlers[name].retryBackoff != ZERO_TIME
    modifies store
    ensures store.Valid() && store.closed == old(store.closed)
    ensures started <==> && r.job.handler in handlers
                         && r.job.attempts <= handlers[r.job.handler].maxAttempts
                         && handlers[r.job.handler].decodes(r.job.payload)
    ensures forall w: Workers | HasPending(w, r) && r.job.handler in handlers
                                && handlers[r.job.handler].decodes(r.job.payload) ::
              started <==> CanMove(w, handlers[r.job.handler].maxAttempts, Start(r.token))
    ensures !Holds(old(store.jobs), r.job.id, r.token) ==> store.jobs == old(store.jobs)
    ensures old(CanFinish(store, store.jobs, r)) && now != ZERO_TIME ==>
              var was, jobs, id, codec := old(store.jobs), store.jobs, r.job.id, store.options.codec;
              && Ended(was, jobs, id)
              && (id !in jobs <==> started && error.None?)
              && (id in jobs && !IsFailed(jobs, id) <==>
                    started && error.Some? && r.job.attempts < handlers[r.job.handler].maxAttempts)
              && (id in jobs && !IsFailed(jobs, id) ==>
                    Waits(was, jobs, id, now + handlers[r.job.handler].retryBackoff,
                          NormalizeError(codec, error.value)))
              && (IsFailed(jobs, id) ==> HasFailed(was, jobs, id, now, NormalizeError(codec, message)))
  {
    hide NormalizeError, ValidCodec, Appended, Live, Log, Replay, Keyed, AllLease, Eligible;
    if r.job.handler !in handlers {
      FailReservation(store, r, now, message);
      return false;
    }
    var handler := handlers[r.job.handler];
    if r.job.attempts > handler.maxAttempts {
      FailReservation(store, r, now, message);
      return false;
    }
    if !handler.decodes(r.job.payload) {
      FailReservation(store, r, now, message);
      return false;
    }
    started := true;
    if error.None? {
      CompleteReservation(store, r);
    } else if r.job.attempts < handler.maxAttempts {
      ReleaseReservation(store, r, now + handler.retryBackoff, error.value);
    } else {
      FailReservation(store, r, now, message);
    }
  }

  /** The worker holds the reservation and has not started it. */
  predicate HasPending(w: Workers, r: Reservation) {
    r.token in w.pending && r.token in w.taken && w.taken[r.token].attempts == r.job.attempts
  }

  method CompleteReservation(store: FileJobStore, r: Reservation)
    requires store.Valid()
    modifies store
    ensures store.Valid() && store.closed == old(store.closed)
    ensures !Holds(old(store.jobs), r.job.id, r.token) ==> store.jobs == old(store.jobs)
    ensures old(CanFinish(store, store.jobs, r)) ==>
              Ended(old(store.jobs), store.jobs, r.job.id) && r.job.id !in store.jobs
  {
    assert IsEnd(CompleteEvent(r.job.id, r.token), r);
    var _ := store.Complete(false, r.job.id, r.token);
  }

  method ReleaseReservation(store: FileJobStore, r: Reservation, availableAt: int, message: string)
    requires store.Valid() && availableAt != ZERO_TIME
    modifies store
    ensures store.Valid() && store.closed == old(store.closed)
    ensures !Holds(old(store.jobs), r.job.id, r.token) ==> store.jobs == old(store.jobs)
    ensures old(CanFinish(store, store.jobs, r)) ==>
              && Ended(old(store.jobs), store.jobs, r.job.id)
              && Waits(old(store.jobs), store.jobs, r.job.id, availableAt,
                       NormalizeError(store.options.codec, message))
  {
    var error := NormalizeError(store.options.codec, message);
    assert IsEnd(ReleaseEvent(r.job.id, r.token, availableAt, error), r);
    ghost var was := store.jobs;
    var _ := store.Release(false, r.job.id, r.token, availableAt, message);
    hide NormalizeError;
    if Holds(was, r.job.id, r.token) && was[r.job.id].failedAt == ZERO_TIME {
      ReleasedMeans(was, r.job.id, r.token, availableAt, error);
    }
  }

  method FailReservation(store: FileJobStore, r: Reservation, now: int, message: string)
    requires store.Valid()
    modifies store
    ensures store.Valid() && store.closed == old(store.closed)
    ensures !Holds(old(store.jobs), r.job.id, r.token) ==> store.jobs == old(store.jobs)
    ensures old(CanFinish(store, store.jobs, r)) && now != ZERO_TIME ==>
              && Ended(old(store.jobs), store.jobs, r.job.id)
              && HasFailed(old(store.jobs), store.jobs, r.job.id, now, NormalizeError(store.options.codec, message))
  {
    var error := NormalizeError(store.options.codec, message);
    assert IsEnd(FailEvent(r.job.id, r.token, now, error), r);
    ghost var was := store.jobs;
    var _ := store.Fail(false, r.job.id, r.token, now, message);
    hide NormalizeError;
    if Holds(was, r.job.id, r.token) && now != ZERO_TIME {
      FailedMeans(was, r.job.id, r.token, now, error);
    }
  }
}
