/** The file job store as the object it is: every operation updates the map and
    appends to the log, and keeps the log able to rebuild the map. */
module FileJobStores {
  import opened Wrappers
  import opened LeasedQueue
  import opened LeaseProtocol
  import opened FileJobLog
  import opened FileJobRuns

  class FileJobStore {
    const options: Options
    var file: seq<Byte>
    var jobs: Jobs
    var closed: bool

    /** The file, the map and the tokens handed out at the last start, and what
        was appended since, each event with the time it was made. */
    ghost const base: seq<Byte>
    ghost const baseJobs: Jobs
    ghost const used: set<string>
    ghost var events: seq<Event>
    ghost var times: seq<int>

    ghost predicate Valid()
      reads this
    {
      && ValidCodec(options.codec)
      && WholeLines(base) && Replay(options, base, map[]) == Some(baseJobs)
      && Appended(options, baseJobs, events)
      && file == Log(options.codec, base, events)
      && jobs == Live(baseJobs, events)
      && Keyed(jobs)
      && AllLease(baseJobs, used, events, times)
    }

    constructor (options: Options, bytes: seq<Byte>, replayed: Jobs, ghost used: set<string>)
      requires ValidCodec(options.codec) && WholeLines(bytes) && Replay(options, bytes, map[]) == Some(replayed)
      ensures Valid() && jobs == replayed && file == bytes && !closed
      ensures this.options == options && base == bytes && baseJobs == replayed && events == []
      ensures this.used == used && times == []
    {
      this.options := options;
      file, jobs, closed := bytes, replayed, false;
      base, baseJobs, events, this.used, times := bytes, replayed, [], used, [];
      ReplayIsSound(options, bytes, map[]);
    }

    /** Closing and opening again gives the live map, but for the form of texts
        written since the last start, exactly when every event since then can be
        reloaded. */
    lemma Reopens()
      requires Valid()
      ensures Replay(options, file, map[]) ==
              if AllReloadable(options, events) then
                Some(Reloaded(options.codec, jobs, EnqueuedIn(events), ErrorSetIn(events)))
              else None
    {
      ReplayRebuilds(options, base, baseJobs, events);
    }

    /** The tokens handed out so far. */
    ghost function Issued(): set<string>
      reads this
    {
      used + Tokens(events)
    }

    /** Since the last start the store has made a run of the lease protocol, from
        any state that stands for the map and the tokens it started with: so a job
        has at most one unexpired lease. When the log can be reloaded, the reloaded
        map with the same tokens is such a state for the next start. */
    lemma IsLawful(s: State, id: string, a: string, b: string)
      requires Valid() && Inv(s) && s.jobs == baseJobs && s.issued.Keys == used
      ensures IsRun(s, events, Actions(events, times))
      ensures var n := After(s, Actions(events, times));
              && n.jobs == jobs && n.issued.Keys == Issued() && Inv(n)
              && (Unexpired(n, id, a) && Unexpired(n, id, b) ==> a == b && Holds(jobs, id, a))
              && Inv(Restarted(options, s, events, times))
              && (AllReloadable(options, events) ==>
                    Replay(options, file, map[]) == Some(Restarted(options, s, events, times).jobs))
    {
      LogIsRun(options, s, events, times);
      RunKeepsInv(s, Actions(events, times));
      var n := After(s, Actions(events, times));
      if Unexpired(n, id, a) && Unexpired(n, id, b) {
        OneUnexpiredLease(n, id, a, b);
      }
      RestartKeepsInv(options, s, events, times);
      Reopens();
    }

    /** The time is what Reserve read; the other events have none. */
    method Append(e: Event, ghost now: int) returns (ok: bool)
      requires Valid() && Accepts(options, jobs, e) && Keyed(Effect(jobs, e)) && Leases(jobs, Issued(), e, now)
      modifies this
      ensures unchanged(`closed)
      ensures ok <==> options.codec.encode(e).Some?
      ensures !ok ==> Valid() && unchanged(this)
      ensures ok ==> file == old(file) + Line(options.codec, e) && jobs == old(jobs)
                     && events == old(events) + [e] && times == old(times) + [now]
      ensures ok ==> Appended(options, baseJobs, events) && Live(baseJobs, events) == Effect(jobs, e)
                     && file == Log(options.codec, base, events) && AllLease(baseJobs, used, events, times)
    {
      var encoded := options.codec.encode(e);
      if encoded.None? {
        return false;
      }
      AppendOne(options, base, baseJobs, events, e);
      LeaseOne(baseJobs, used, events, times, e, now);
      file := file + (encoded.value + [NEWLINE]);
      events, times := events + [e], times + [now];
      ok := true;
      hide AllLease, Leases, ValidCodec, Accepts, Appended, Live, Log, Effect, Keyed, Replay;
    }

    method Enqueue(cancelled: bool, job: Job) returns (r: Result<(), StoreError>)
      requires Valid()
      modifies this
      ensures Valid() && closed == old(closed)
      ensures r.Ok? <==>
                && ValidStoredJob(options, job) && !cancelled && !closed && |old(jobs)| < options.maxJobs
                && job.id !in old(jobs) && options.codec.encode(EnqueueEvent(job)).Some?
      ensures r.Ok? ==> jobs == Enqueued(old(jobs), job) && events == old(events) + [EnqueueEvent(job)]
      ensures r.Err? ==> unchanged(this)
    {
      if !ValidStoredJob(options, job) { return Err(Conflict); }
      if cancelled { return Err(Cancelled); }
      if closed { return Err(Closed); }
      if |jobs| >= options.maxJobs { return Err(Full); }
      if job.id in jobs { return Err(Conflict); }
      var ok := Append(EnqueueEvent(job), 0);
      if !ok { return Err(OperationFailed); }
      jobs := jobs[job.id := Record(job, NO_TOKEN, ZERO_TIME, ZERO_TIME, "")];
      r := Ok(());
    }

    /** The token is the fresh random identifier the operation draws. */
    method Reserve(cancelled: bool, now: int, lease: int, token: string) returns (r: Result<Reservation, StoreError>)
      requires Valid() && ValidJobIdentifier(token) && token !in Issued()
      modifies this
      ensures Valid() && closed == old(closed)
      ensures r.Ok? ==>
                && lease > 0 && IsFirst(old(jobs), now, r.value.job.id)
                && jobs == Reserved(old(jobs), r.value.job.id, token, now + lease)
                && r.value == Reservation(jobs[r.value.job.id].job, token, now + lease)
                && events == old(events) + [ReserveEvent(r.value.job.id, token, now + lease, r.value.job.attempts)]
                && times == old(times) + [now]
      ensures r.Err? ==> unchanged(this)
      ensures r == Err(ReservationInvalid) <==> now == ZERO_TIME || lease <= 0
      ensures now != ZERO_TIME && lease > 0 ==>
                && (r == Err(Cancelled) <==> cancelled)
                && (r == Err(Closed) <==> !cancelled && closed)
                && (r == Err(Empty) <==> !cancelled && !closed && NoneEligible(old(jobs), now))
      ensures r.Err? ==> r.error in {ReservationInvalid, Cancelled, Closed, Empty, OperationFailed}
      ensures r == Err(OperationFailed) ==>
                exists id | id in jobs :: IsFirst(jobs, now, id)
                  && options.codec.encode(ReserveEvent(id, token, now + lease, jobs[id].job.attempts + 1)).None?
    {
      hide ValidJobIdentifier, ValidCodec, Appended, Live, Log, Replay, AllLease;
      if now == ZERO_TIME || lease <= 0 { return Err(ReservationInvalid); }
      if cancelled { return Err(Cancelled); }
      if closed { return Err(Closed); }
      var first := PickFirst(jobs, now);
      if first.None? { return Err(Empty); }
      r := Lease(first.value, now, token, now + lease);
    }

    method Lease(id: string, ghost now: int, token: string, until: int) returns (r: Result<Reservation, StoreError>)
      requires Valid() && id in jobs && Eligible(jobs[id], now) && ValidJobIdentifier(token) && token !in Issued()
      modifies this
      ensures Valid() && closed == old(closed)
      ensures r.Err? ==> unchanged(this) && r.error == OperationFailed
      ensures r.Err? ==> options.codec.encode(ReserveEvent(id, token, until, jobs[id].job.attempts + 1)).None?
      ensures r.Ok? ==>
                && jobs == Reserved(old(jobs), id, token, until)
                && r.value == Reservation(jobs[id].job, token, until) && r.value.job.id == id
                && events == old(events) + [ReserveEvent(id, token, until, r.value.job.attempts)]
                && times == old(times) + [now]
    {
      hide ValidJobIdentifier, ValidCodec, Appended, Live, Log, Replay, AllLease;
      var record := jobs[id];
      record := record.(job := record.job.(attempts := record.job.attempts + 1), token := token,
          reservedUntil := until);
      var ok := Append(ReserveEvent(id, token, until, record.job.attempts), now);
      if !ok { return Err(OperationFailed); }
      jobs := jobs[id := record];
      r := Ok(Reservation(record.job, record.token, record.reservedUntil));
    }

    /** The store would take this end of a reservation. */
    predicate Finishable(jobs: Jobs, e: Event)
      requires e.ReleaseEvent? || e.CompleteEvent? || e.FailEvent?
      reads this`closed
    {
      Holds(jobs, e.id, e.token) && e.id != "" && !closed && options.codec.encode(e).Some?
    }

    /** Release, Complete and Fail end a reservation by its token, nothing else. */
    method FinishReservation(cancelled: bool, id: string, token: string, e: Event) returns (r: Result<(), StoreError>)
      requires Valid()
      requires e == CompleteEvent(id, token)
            || (e.ReleaseEvent? && e.id == id && e.token == token && e.availableAt != ZERO_TIME)
            || (e.FailEvent? && e.id == id && e.token == token)
      modifies this
      ensures Valid() && closed == old(closed)
      ensures r.Ok? <==> !cancelled && Finishable(old(jobs), e)
      ensures r.Ok? ==> jobs == Effect(old(jobs), e) && events == old(events) + [e]
      ensures r.Err? ==> unchanged(this)
    {
      if id == "" || token == NO_TOKEN { return Err(ReservationInvalid); }
      if cancelled { return Err(Cancelled); }
      if closed { return Err(Closed); }
      if id !in jobs || jobs[id].token != token { return Err(ReservationInvalid); }
      var ok := Append(e, 0);
      if !ok { return Err(OperationFailed); }
      jobs := Effect(jobs, e);
      r := Ok(());
    }

    method Release(cancelled: bool, id: string, token: string, availableAt: int, lastError: string)
      returns (r: Result<(), StoreError>)
      requires Valid()
      modifies this
      ensures Valid() && closed == old(closed)
      ensures var e := ReleaseEvent(id, token, availableAt, NormalizeError(options.codec, lastError));
              r.Ok? <==> availableAt != ZERO_TIME && !cancelled && Finishable(old(jobs), e)
      ensures r.Ok? ==> jobs == Released(old(jobs), id, availableAt, NormalizeError(options.codec, lastError))
      ensures r.Err? ==> unchanged(this)
    {
      if availableAt == ZERO_TIME { return Err(ReservationInvalid); }
      r := FinishReservation(cancelled, id, token,
                             ReleaseEvent(id, token, availableAt, NormalizeError(options.codec, lastError)));
    }

    method Complete(cancelled: bool, id: string, token: string) returns (r: Result<(), StoreError>)
      requires Valid()
      modifies this
      ensures Valid() && closed == old(closed)
      ensures r.Ok? <==> !cancelled && Finishable(old(jobs), CompleteEvent(id, token))
      ensures r.Ok? ==> jobs == old(jobs) - {id}
      ensures r.Err? ==> unchanged(this)
    {
      r := FinishReservation(cancelled, id, token, CompleteEvent(id, token));
    }

    method Fail(cancelled: bool, id: string, token: string, failedAt: int, lastError: string)
      returns (r: Result<(), StoreError>)
      requires Valid()
      modifies this
      ensures Valid() && closed == old(closed)
      ensures var e := FailEvent(id, token, failedAt, NormalizeError(options.codec, lastError));
              r.Ok? <==> !cancelled && Finishable(old(jobs), e)
      ensures r.Ok? ==> jobs == Failed(old(jobs), id, failedAt, NormalizeError(options.codec, lastError))
      ensures r.Err? ==> unchanged(this)
    {
      r := FinishReservation(cancelled, id, token,
                             FailEvent(id, token, failedAt, NormalizeError(options.codec, lastError)));
    }

    method RetryFailed(cancelled: bool, id: string, availableAt: int) returns (r: Result<(), StoreError>)
      requires Valid()
      modifies this
      ensures Valid() && closed == old(closed)
      ensures r.Ok? <==> && id != "" && availableAt != ZERO_TIME && !cancelled && !closed && IsFailed(old(jobs), id)
                         && options.codec.encode(RetryEvent(id, availableAt)).Some?
      ensures r.Ok? ==> jobs == Retried(old(jobs), id, availableAt)
      ensures r.Err? ==> unchanged(this)
    {
      if id == "" || availableAt == ZERO_TIME { return Err(Conflict); }
      if cancelled { return Err(Cancelled); }
      if closed { return Err(Closed); }
      if id !in jobs || jobs[id].failedAt == ZERO_TIME { return Err(Conflict); }
      var ok := Append(RetryEvent(id, availableAt), 0);
      if !ok { return Err(OperationFailed); }
      var record := jobs[id];
      jobs := jobs[id := record.(job := record.job.(attempts := 0, availableAt := availableAt),
                                 failedAt := ZERO_TIME, lastError := "")];
      r := Ok(());
    }

    method ForgetFailed(cancelled: bool, id: string) returns (r: Result<(), StoreError>)
      requires Valid()
      modifies this
      ensures Valid() && closed == old(closed)
      ensures r.Ok? <==> && id != "" && !cancelled && !closed && IsFailed(old(jobs), id)
                         && options.codec.encode(ForgetEvent(id)).Some?
      ensures r.Ok? ==> jobs == old(jobs) - {id}
      ensures r.Err? ==> unchanged(this)
    {
      if id == "" { return Err(Conflict); }
      if cancelled { return Err(Cancelled); }
      if closed { return Err(Closed); }
      if id !in jobs || jobs[id].failedAt == ZERO_TIME { return Err(Conflict); }
      var ok := Append(ForgetEvent(id), 0);
      if !ok { return Err(OperationFailed); }
      jobs := jobs - {id};
      r := Ok(());
    }

    method Close()
      requires Valid()
      modifies this`closed
      ensures Valid() && closed
    {
      closed := true;
    }
  }

  // ---- Starting from the bytes on disk ----

  lemma NewlineFound(bytes: seq<Byte>, from: nat, to: nat)
    requires from <= to <= |bytes| && NEWLINE !in bytes[from..to] && (to < |bytes| ==> bytes[to] == NEWLINE)
    ensures NewlineAt(bytes[from..]) == to - from
  {
    var rest := bytes[from..];
    if to < |bytes| {
      FirstLine(bytes[from..to], bytes[to + 1..]);
      assert rest == bytes[from..to] + [NEWLINE] + bytes[to + 1..];
    } else {
      assert rest == bytes[from..to];
    }
  }

  /** bufio.Reader.ReadBytes: the index of the next newline, or the end. */
  method ReadLine(bytes: seq<Byte>, from: nat) returns (to: nat)
    requires from <= |bytes|
    ensures from <= to <= |bytes| && NewlineAt(bytes[from..]) == to - from
    ensures to < |bytes| ==> bytes[to] == NEWLINE
  {
    to := from;
    while to < |bytes| && bytes[to] != NEWLINE
      invariant from <= to <= |bytes| && NEWLINE !in bytes[from..to]
    {
      assert bytes[from..to + 1] == bytes[from..to] + [bytes[to]];
      to := to + 1;
    }
    NewlineFound(bytes, from, to);
  }

  lemma OneLineMore(o: Options, before: seq<Byte>, line: seq<Byte>, jobs: Jobs)
    requires NEWLINE !in line && WholeLines(before) && Replay(o, before, map[]) == Some(jobs)
    ensures WholeLines(before + (line + [NEWLINE]))
    ensures Replay(o, before + (line + [NEWLINE]), map[]) == ReplayLine(o, line, jobs)
  {
    ReplayAppend(o, before, line + [NEWLINE], map[]);
    ReplayOneLine(o, line, jobs);
  }

  lemma BadLine(o: Options, before: seq<Byte>, rest: seq<Byte>)
    requires WholeLines(before) && Replay(o, before, map[]).None?
    ensures Replay(o, before + rest, map[]).None?
  {
    ReplayAppend(o, before, rest, map[]);
  }

  /** The first bytes are whole lines and replay to the jobs. */
  ghost predicate Reading(o: Options, before: seq<Byte>, jobs: Jobs) {
    WholeLines(before) && Replay(o, before, map[]) == Some(jobs)
  }

  lemma ReadOneMore(o: Options, before: seq<Byte>, line: seq<Byte>, jobs: Jobs)
    requires NEWLINE !in line && Reading(o, before, jobs) && ReplayLine(o, line, jobs).Some?
    ensures Reading(o, before + (line + [NEWLINE]), ReplayLine(o, line, jobs).value)
  {
    OneLineMore(o, before, line, jobs);
  }

  lemma StopReading(o: Options, before: seq<Byte>, line: seq<Byte>, jobs: Jobs, rest: seq<Byte>)
    requires NEWLINE !in line && Reading(o, before, jobs) && ReplayLine(o, line, jobs).None?
    ensures Replay(o, before + (line + [NEWLINE]) + rest, map[]).None?
  {
    OneLineMore(o, before, line, jobs);
    BadLine(o, before + (line + [NEWLINE]), rest);
  }

  /** The next line of the bytes, without its newline, and whether it has one. */
  lemma LineAhead(bytes: seq<Byte>, from: nat, to: nat)
    requires from <= to <= |bytes| && NewlineAt(bytes[from..]) == to - from
    ensures NEWLINE !in bytes[from..to]
    ensures to < |bytes| ==>
              && bytes[..to + 1] == bytes[..from] + (bytes[from..to] + [NEWLINE])
              && bytes == bytes[..from] + (bytes[from..to] + [NEWLINE]) + bytes[to + 1..]
    ensures to == |bytes| ==> bytes == bytes[..from] + bytes[from..to] && bytes[from..] == bytes[from..to]
  {
    assert bytes[from..][..to - from] == bytes[from..to];
    if to < |bytes| {
      assert bytes[to] == bytes[from..][to - from];
    }
  }

  /** Reads the log line by line, stops at a corrupt one and gives the length
      of the whole lines. */
  method ReplayFile(o: Options, bytes: seq<Byte>) returns (r: Option<(Jobs, nat)>)
    ensures r.None? ==> Replay(o, bytes, map[]).None?
    ensures r.Some? ==> r.value.1 <= |bytes| && NEWLINE !in bytes[r.value.1..]
                        && Reading(o, bytes[..r.value.1], r.value.0)
  {
    var jobs: Jobs := map[];
    var validBytes := 0;
    var to := ReadLine(bytes, 0);
    while to < |bytes|
      invariant validBytes <= to <= |bytes| && NewlineAt(bytes[validBytes..]) == to - validBytes
      invariant Reading(o, bytes[..validBytes], jobs)
      decreases |bytes| - to
    {
      var next := ReplayLine(o, bytes[validBytes..to], jobs);
      LineAhead(bytes, validBytes, to);
      if next.None? {
        StopReading(o, bytes[..validBytes], bytes[validBytes..to], jobs, bytes[to + 1..]);
        return None;
      }
      ReadOneMore(o, bytes[..validBytes], bytes[validBytes..to], jobs);
      jobs := next.value;
      validBytes := to + 1;
      to := ReadLine(bytes, validBytes);
    }
    LineAhead(bytes, validBytes, to);
    r := Some((jobs, validBytes));
  }

  /** Opening replays the log and cuts an incomplete last line off the file. */
  method OpenFileJobStore(o: Options, bytes: seq<Byte>, ghost used: set<string>) returns (r: Option<FileJobStore>)
    requires ValidCodec(o.codec)
    ensures r.None? <==> Replay(o, bytes, map[]).None?
    ensures r.Some? ==> fresh(r.value) && r.value.Valid() && r.value.options == o && r.value.Issued() == used
    ensures r.Some? ==> Replay(o, bytes, map[]) == Some(r.value.jobs)
    ensures r.Some? ==> r.value.file <= bytes && NEWLINE !in bytes[|r.value.file|..]
  {
    var replayed := ReplayFile(o, bytes);
    if replayed.None? {
      return None;
    }
    var (jobs, validBytes) := replayed.value;
    assert bytes == bytes[..validBytes] + bytes[validBytes..];
    PartIgnored(o, bytes[..validBytes], bytes[validBytes..]);
    var store := new FileJobStore(o, bytes[..validBytes], jobs, used);
    r := Some(store);
  }
}
