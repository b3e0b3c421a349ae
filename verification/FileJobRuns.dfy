/** The file job store as a run of the lease protocol, over any number of
    restarts. */
module FileJobRuns {
  import opened Wrappers
  import opened LeasedQueue
  import opened LeaseProtocol
  import opened FileJobLog

  /** The step of the protocol an event stands for, at the time it was made. */
  function ActionOf(e: Event, now: int): Action {
    match e
    case EnqueueEvent(job) => Action.Enqueue(job)
    case ReserveEvent(id, token, until, _) => Action.Reserve(id, now, token, until)
    case ReleaseEvent(id, token, at, error) => Action.Release(id, token, at, error)
    case CompleteEvent(id, token) => Action.Complete(id, token)
    case FailEvent(id, token, at, error) => Action.Fail(id, token, at, error)
    case RetryEvent(id, at) => Action.Retry(id, at)
    case ForgetEvent(id) => Action.Forget(id)
  }

  /** What Reserve adds to the guard of the log: it leases an eligible job, and
      its token is new. */
  predicate Leases(jobs: Jobs, used: set<string>, e: Event, now: int) {
    e.ReserveEvent? ==> e.id in jobs && Eligible(jobs[e.id], now) && e.token !in used
  }

  lemma EventIsStep(o: Options, s: State, e: Event, now: int)
    requires Accepts(o, s.jobs, e) && Leases(s.jobs, s.issued.Keys, e, now)
    ensures Enabled(s, ActionOf(e, now)) && Next(s, ActionOf(e, now)).jobs == Effect(s.jobs, e)
    ensures Next(s, ActionOf(e, now)).issued.Keys == s.issued.Keys + TokenOf(e)
  {
    match e
    case EnqueueEvent(job) =>
    case ReserveEvent(id, token, until, attempts) =>
    case ReleaseEvent(id, token, at, error) =>
    case CompleteEvent(id, token) =>
    case FailEvent(id, token, at, error) =>
    case RetryEvent(id, at) =>
    case ForgetEvent(id) =>
  }

  function TokenOf(e: Event): set<string> {
    if e.ReserveEvent? then {e.token} else {}
  }

  function Tokens(events: seq<Event>): set<string> {
    if events == [] then {} else Tokens(events[..|events| - 1]) + TokenOf(events[|events| - 1])
  }

  function Actions(events: seq<Event>, times: seq<int>): seq<Action>
    requires |times| == |events|
  {
    seq(|events|, i requires 0 <= i < |events| => ActionOf(events[i], times[i]))
  }

  /** Every event was made at its time as Reserve makes them, on a store that
      started with these jobs and tokens. */
  ghost predicate AllLease(jobs: Jobs, used: set<string>, events: seq<Event>, times: seq<int>) {
    && |times| == |events|
    && forall i | 0 <= i < |events| ::
         Leases(Live(jobs, events[..i]), used + Tokens(events[..i]), events[i], times[i])
  }

  lemma LeaseOne(jobs: Jobs, used: set<string>, events: seq<Event>, times: seq<int>, e: Event, now: int)
    requires AllLease(jobs, used, events, times) && Leases(Live(jobs, events), used + Tokens(events), e, now)
    ensures AllLease(jobs, used, events + [e], times + [now])
  {
    hide Leases, Live, Tokens;
    var more, later := events + [e], times + [now];
    assert more[..|events|] == events;
    assert forall i | 0 <= i < |events| ::
        more[..i] == events[..i] && more[i] == events[i] && later[i] == times[i];
  }

  lemma BeforeLeases(jobs: Jobs, used: set<string>, events: seq<Event>, times: seq<int>)
    requires events != [] && AllLease(jobs, used, events, times)
    ensures var n := |events| - 1;
            && AllLease(jobs, used, events[..n], times[..n])
            && Leases(Live(jobs, events[..n]), used + Tokens(events[..n]), events[n], times[n])
  {
    var n := |events| - 1;
    hide Leases, Live, Tokens;
    assert forall i | 0 <= i < n ::
        events[..n][..i] == events[..i] && events[..n][i] == events[i] && times[..n][i] == times[i];
  }

  /** The actions run from the state, and lead to the map the events lead to. */
  ghost predicate IsRun(s: State, events: seq<Event>, actions: seq<Action>) {
    && Runs(s, actions)
    && After(s, actions).jobs == Live(s.jobs, events)
    && After(s, actions).issued.Keys == s.issued.Keys + Tokens(events)
  }

  lemma RunOneMore(o: Options, s: State, events: seq<Event>, actions: seq<Action>, e: Event, now: int)
    requires IsRun(s, events, actions) && Accepts(o, Live(s.jobs, events), e)
    requires Leases(Live(s.jobs, events), s.issued.Keys + Tokens(events), e, now)
    ensures IsRun(s, events + [e], actions + [ActionOf(e, now)])
  {
    EventIsStep(o, After(s, actions), e, now);
    RunsOneMore(s, actions, ActionOf(e, now));
    assert (events + [e])[..|events|] == events;
    hide Accepts, Leases, Effect, Next, Enabled, ActionOf, Runs;
  }

  lemma NoRun(s: State, times: seq<int>)
    requires times == []
    ensures IsRun(s, [], Actions([], times))
  {
    assert Actions([], times) == [];
  }

  lemma TimesMatch(jobs: Jobs, used: set<string>, events: seq<Event>, times: seq<int>)
    requires AllLease(jobs, used, events, times)
    ensures |times| == |events|
  {
  }

  lemma LogOneMore(o: Options, s: State, events: seq<Event>, times: seq<int>)
    requires |times| == |events| > 0
    requires Appended(o, s.jobs, events) && AllLease(s.jobs, s.issued.Keys, events, times)
    requires IsRun(s, events[..|events| - 1], Actions(events[..|events| - 1], times[..|events| - 1]))
    ensures IsRun(s, events, Actions(events, times))
  {
    hide *;
    var n := |events| - 1;
    Last(o, s.jobs, events);
    BeforeLeases(s.jobs, s.issued.Keys, events, times);
    RunOneMore(o, s, events[..n], Actions(events[..n], times[..n]), events[n], times[n]);
    assert events[..n] + [events[n]] == events;
    ActionsLast(events, times);
  }

  /** Everything a store appended since it started is a run of the lease protocol,
      and its map is the queue of that run. */
  lemma {:induction false} LogIsRun(o: Options, s: State, events: seq<Event>, times: seq<int>)
    requires Appended(o, s.jobs, events) && AllLease(s.jobs, s.issued.Keys, events, times)
    ensures |times| == |events| && IsRun(s, events, Actions(events, times))
    decreases |events|
  {
    hide *;
    TimesMatch(s.jobs, s.issued.Keys, events, times);
    if events == [] {
      NoRun(s, times);
    } else {
      var n := |events| - 1;
      Last(o, s.jobs, events);
      BeforeLeases(s.jobs, s.issued.Keys, events, times);
      LogIsRun(o, s, events[..n], times[..n]);
      LogOneMore(o, s, events, times);
    }
  }

  lemma ActionsLast(events: seq<Event>, times: seq<int>)
    requires |times| == |events| > 0
    ensures var n := |events| - 1;
            Actions(events, times) == Actions(events[..n], times[..n]) + [ActionOf(events[n], times[n])]
  {
    hide ActionOf;
  }

  // ---- Over restarts ----

  /** The state after a restart: the texts as the log gives them back, everything
      else as it was. */
  ghost function Restarted(o: Options, s: State, events: seq<Event>, times: seq<int>): State
    requires Appended(o, s.jobs, events) && AllLease(s.jobs, s.issued.Keys, events, times)
  {
    LogIsRun(o, s, events, times);
    After(s, Actions(events, times)).(jobs := Reload(o.codec, s.jobs, events))
  }

  lemma ReloadedKeepsInv(c: Codec, s: State, enqueued: set<string>, worded: set<string>)
    requires Inv(s)
    ensures Inv(s.(jobs := Reloaded(c, s.jobs, enqueued, worded)))
  {
  }

  lemma RestartKeepsInv(o: Options, s: State, events: seq<Event>, times: seq<int>)
    requires Inv(s) && Appended(o, s.jobs, events) && AllLease(s.jobs, s.issued.Keys, events, times)
    ensures Inv(Restarted(o, s, events, times))
  {
    LogIsRun(o, s, events, times);
    RunKeepsInv(s, Actions(events, times));
    ReloadedKeepsInv(o.codec, After(s, Actions(events, times)), EnqueuedIn(events), ErrorSetIn(events));
  }

  /** What a store appends between one start and the next, as far as the log kept
      it: after a crash, the events that are whole. */
  datatype Session = Session(events: seq<Event>, times: seq<int>)

  ghost predicate Possible(o: Options, s: State, x: Session) {
    && Appended(o, s.jobs, x.events) && AllLease(s.jobs, s.issued.Keys, x.events, x.times)
    && AllReloadable(o, x.events)
  }

  ghost predicate AllPossible(o: Options, s: State, sessions: seq<Session>)
    decreases |sessions|
  {
    sessions == []
    || (Possible(o, s, sessions[0])
        && AllPossible(o, Restarted(o, s, sessions[0].events, sessions[0].times), sessions[1..]))
  }

  ghost function AfterAll(o: Options, s: State, sessions: seq<Session>): State
    requires AllPossible(o, s, sessions)
    decreases |sessions|
  {
    if sessions == [] then s
    else AfterAll(o, Restarted(o, s, sessions[0].events, sessions[0].times), sessions[1..])
  }

  function Written(c: Codec, file: seq<Byte>, sessions: seq<Session>): seq<Byte>
    decreases |sessions|
  {
    if sessions == [] then file else Written(c, Log(c, file, sessions[0].events), sessions[1..])
  }

  /** Over any number of sessions the file replays to the map of a lawful state. */
  lemma {:induction false} SessionsAreLawful(o: Options, file: seq<Byte>, s: State, sessions: seq<Session>)
    requires ValidCodec(o.codec) && WholeLines(file) && Replay(o, file, map[]) == Some(s.jobs) && Inv(s)
    requires AllPossible(o, s, sessions)
    ensures Inv(AfterAll(o, s, sessions)) && WholeLines(Written(o.codec, file, sessions))
    ensures Replay(o, Written(o.codec, file, sessions), map[]) == Some(AfterAll(o, s, sessions).jobs)
    decreases |sessions|
  {
    if sessions != [] {
      var events, times := sessions[0].events, sessions[0].times;
      LogIsWholeLines(o.codec, file, events);
      ReplayRebuilds(o, file, s.jobs, events);
      RestartKeepsInv(o, s, events, times);
      hide Inv, Replay, WholeLines, ValidCodec, Log, Appended, AllLease, Reload, AllReloadable;
      SessionsAreLawful(o, Log(o.codec, file, events), Restarted(o, s, events, times), sessions[1..]);
    }
  }

  /** So a job of the file store has at most one unexpired lease, and its holder
      has it, at every moment of every session of a store that began empty. */
  lemma FileLeaseSafety(o: Options, sessions: seq<Session>, events: seq<Event>, times: seq<int>, id: string, a: string,
                        b: string)
    requires ValidCodec(o.codec) && AllPossible(o, INITIAL, sessions)
    requires var s := AfterAll(o, INITIAL, sessions);
             Appended(o, s.jobs, events) && AllLease(s.jobs, s.issued.Keys, events, times)
    ensures var s := AfterAll(o, INITIAL, sessions);
            && Replay(o, Written(o.codec, [], sessions), map[]) == Some(s.jobs)
            && IsRun(s, events, Actions(events, times))
            && var n := After(s, Actions(events, times));
               Unexpired(n, id, a) && Unexpired(n, id, b) ==> a == b && Holds(n.jobs, id, a)
  {
    InitialInv();
    SessionsAreLawful(o, [], INITIAL, sessions);
    var s := AfterAll(o, INITIAL, sessions);
    LogIsRun(o, s, events, times);
    RunKeepsInv(s, Actions(events, times));
    var n := After(s, Actions(events, times));
    if Unexpired(n, id, a) && Unexpired(n, id, b) {
      OneUnexpiredLease(n, id, a, b);
    }
  }
}
