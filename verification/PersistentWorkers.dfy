/** Workers over a durable store: how often a job's handler can start between an
    enqueue or a retry and the next retry. */
module PersistentWorkers {
  import opened Text
  import opened Totals
  import opened LeasedQueue
  import opened LeaseProtocol

  /** A reservation as its worker holds it: the attempt number it carries, and
      how many enqueues and retries the job had seen. */
  datatype Taken = Taken(id: string, attempts: int, epoch: nat)

  datatype Workers = Workers(
    queue: State,
    /** Every reservation made so far, by token. */
    taken: map<string, Taken>,
    /** Reserved, and the handler not started yet. */
    pending: set<string>,
    /** Handlers started so far. */
    started: set<string>,
    epoch: map<string, nat>,
    /** Started since the job's last enqueue or retry. */
    since: map<string, set<string>>,
    /** Pending at the job's last enqueue or retry. */
    stale: map<string, set<string>>)

  datatype Move =
    | Store(action: Action)
    | Start(token: string)
    | Die(token: string)

  const NOBODY := Workers(INITIAL, map[], {}, {}, map[], map[], map[])

  /** Dispatch enqueues with no attempts; a handler starts only within its limit. */
  predicate CanMove(w: Workers, limit: nat, m: Move) {
    match m
    case Store(a) => Enabled(w.queue, a) && (a.Enqueue? ==> a.job.attempts == 0)
    case Start(token) => token in w.pending && token in w.taken && w.taken[token].attempts <= limit
    case Die(token) => token in w.pending
  }

  function PendingOf(w: Workers, id: string): set<string> {
    set t | t in w.pending && t in w.taken && w.taken[t].id == id
  }

  function NewEpoch(w: Workers, id: string): Workers {
    w.(epoch := w.epoch[id := if id in w.epoch then w.epoch[id] + 1 else 1],
       since := w.since[id := {}],
       stale := w.stale[id := PendingOf(w, id)])
  }

  /** The workers' side of a store operation that led to the given queue. */
  function AfterStore(w: Workers, queue: State, a: Action): Workers
    requires a.Reserve? ==> a.id in queue.jobs
  {
    var next := w.(queue := queue);
    match a
    case Enqueue(job) => NewEpoch(next, job.id)
    case Retry(id, _) => NewEpoch(next, id)
    case Reserve(id, _, token, _) =>
      var epoch := if id in w.epoch then w.epoch[id] else 0;
      next.(taken := w.taken[token := Taken(id, queue.jobs[id].job.attempts, epoch)], pending := w.pending + {token})
    case _ => next
  }

  function Moved(w: Workers, limit: nat, m: Move): Workers
    requires CanMove(w, limit, m)
  {
    match m
    case Store(a) => AfterStore(w, Next(w.queue, a), a)
    case Start(token) =>
      var id := w.taken[token].id;
      w.(pending := w.pending - {token}, started := w.started + {token},
         since := if id in w.since then w.since[id := w.since[id] + {token}] else w.since)
    case Die(token) => w.(pending := w.pending - {token})
  }

  // ---- The invariant ----

  type Takens = map<string, Taken>

  /** The reservations of one epoch carry different attempt numbers. */
  ghost predicate AttemptsDiffer(taken: Takens) {
    forall s, t | s in taken && t in taken && s != t && taken[s].id == taken[t].id
        && taken[s].epoch == taken[t].epoch ::
      taken[s].attempts != taken[t].attempts
  }

  /** None is above the job's count, nor from an epoch yet to come. */
  ghost predicate AttemptsBounded(taken: Takens, epoch: map<string, nat>, jobs: Jobs) {
    forall t | t in taken ::
      var k := taken[t];
      && k.id in epoch && k.epoch <= epoch[k.id] && 1 <= k.attempts
      && (k.id in jobs && k.epoch == epoch[k.id] ==> k.attempts <= jobs[k.id].job.attempts)
  }

  ghost predicate CountsKnown(epoch: map<string, nat>, jobs: Jobs) {
    forall id | id in jobs :: id in epoch && jobs[id].job.attempts >= 0
  }

  ghost predicate StartsKnown(w: Workers, limit: nat) {
    && w.pending <= w.taken.Keys <= w.queue.issued.Keys && w.started <= w.taken.Keys && w.pending !! w.started
    && (forall t | t in w.started :: w.taken[t].attempts <= limit)
  }

  /** What is pending, or started since the last enqueue or retry, was reserved
      after it or was already pending then. */
  ghost predicate PendingKnown(w: Workers) {
    forall t | t in w.pending && t in w.taken && w.taken[t].id in w.epoch && w.taken[t].id in w.stale ::
      w.taken[t].epoch == w.epoch[w.taken[t].id] || t in w.stale[w.taken[t].id]
  }

  ghost predicate SinceKnown(w: Workers) {
    && w.since.Keys == w.stale.Keys == w.epoch.Keys
    && (forall id, t | id in w.since && t in w.since[id] ::
          && t in w.started && t in w.taken && w.taken[t].id == id
          && (w.taken[t].epoch == w.epoch[id] || t in w.stale[id]))
  }

  ghost predicate TakensInv(w: Workers) {
    && AttemptsDiffer(w.taken) && AttemptsBounded(w.taken, w.epoch, w.queue.jobs) && CountsKnown(w.epoch, w.queue.jobs)
  }

  ghost predicate WorkersInv(w: Workers, limit: nat) {
    Inv(w.queue) && MovesInv(w, limit)
  }

  /** What an operation does to the attempt counts and the tokens. */
  ghost predicate CountsStep(before: State, a: Action, after: State) {
    && before.issued.Keys <= after.issued.Keys
    && (a.Reserve? ==>
          a.id in before.jobs && a.id in after.jobs && a.token !in before.issued && a.token in after.issued
          && after.jobs[a.id].job.attempts == before.jobs[a.id].job.attempts + 1)
    && (a.Enqueue? ==> a.job.attempts == 0)
    && (forall id | id in after.jobs ::
          if (a.Enqueue? && id == a.job.id) || (a.Retry? && id == a.id) then after.jobs[id].job.attempts == 0
          else id in before.jobs
               && (!(a.Reserve? && id == a.id) ==> after.jobs[id].job.attempts == before.jobs[id].job.attempts))
  }

  lemma NextCounts(s: State, a: Action)
    requires Enabled(s, a) && (a.Enqueue? ==> a.job.attempts == 0)
    ensures CountsStep(s, a, Next(s, a))
  {
  }

  ghost predicate MovesInv(w: Workers, limit: nat) {
    TakensInv(w) && StartsKnown(w, limit) && PendingKnown(w) && SinceKnown(w)
  }

  lemma NewEpochKeepsTakens(w: Workers, queue: State, a: Action, id: string)
    requires TakensInv(w) && CountsStep(w.queue, a, queue)
    requires (a.Enqueue? && id == a.job.id) || (a.Retry? && id == a.id)
    ensures TakensInv(NewEpoch(w.(queue := queue), id))
  {
  }

  lemma NewEpochKeepsRest(w: Workers, limit: nat, queue: State, a: Action, id: string)
    requires MovesInv(w, limit) && CountsStep(w.queue, a, queue)
    ensures var n := NewEpoch(w.(queue := queue), id);
            StartsKnown(n, limit) && PendingKnown(n) && SinceKnown(n)
  {
  }

  lemma TakeKeepsAttempts(w: Workers, queue: State, a: Action)
    requires TakensInv(w) && CountsStep(w.queue, a, queue) && a.Reserve? && a.token !in w.taken
    ensures TakensInv(AfterStore(w, queue, a))
  {
  }

  lemma TakeKeepsRest(w: Workers, limit: nat, queue: State, a: Action)
    requires MovesInv(w, limit) && CountsStep(w.queue, a, queue) && a.Reserve?
    ensures var n := AfterStore(w, queue, a);
            StartsKnown(n, limit) && PendingKnown(n) && SinceKnown(n)
  {
  }

  lemma QuietStoreKeepsRest(w: Workers, limit: nat, queue: State)
    requires StartsKnown(w, limit) && PendingKnown(w) && SinceKnown(w) && w.queue.issued.Keys <= queue.issued.Keys
    ensures var n := w.(queue := queue);
            StartsKnown(n, limit) && PendingKnown(n) && SinceKnown(n)
  {
  }

  lemma QuietStoreKeeps(w: Workers, limit: nat, queue: State, a: Action)
    requires MovesInv(w, limit) && CountsStep(w.queue, a, queue) && !a.Reserve? && !a.Enqueue? && !a.Retry?
    ensures MovesInv(w.(queue := queue), limit)
  {
    QuietStoreKeepsTakens(w.taken, w.epoch, w.queue, queue, a);
    QuietStoreKeepsRest(w, limit, queue);
  }

  lemma QuietStoreKeepsTakens(taken: Takens, epoch: map<string, nat>, before: State, after: State, a: Action)
    requires AttemptsBounded(taken, epoch, before.jobs) && CountsKnown(epoch, before.jobs)
    requires CountsStep(before, a, after) && !a.Reserve? && !a.Enqueue? && !a.Retry?
    ensures AttemptsBounded(taken, epoch, after.jobs) && CountsKnown(epoch, after.jobs)
  {
    assert forall id | id in after.jobs ::
        id in before.jobs && after.jobs[id].job.attempts == before.jobs[id].job.attempts;
  }

  lemma StoreKeeps(w: Workers, limit: nat, queue: State, a: Action)
    requires MovesInv(w, limit) && CountsStep(w.queue, a, queue)
    ensures MovesInv(AfterStore(w, queue, a), limit)
  {
    match a
    case Enqueue(job) =>
      NewEpochKeepsTakens(w, queue, a, job.id);
      NewEpochKeepsRest(w, limit, queue, a, job.id);
    case Retry(id, _) =>
      NewEpochKeepsTakens(w, queue, a, id);
      NewEpochKeepsRest(w, limit, queue, a, id);
    case Reserve(_, _, token, _) =>
      TakeKeepsAttempts(w, queue, a);
      TakeKeepsRest(w, limit, queue, a);
    case _ => QuietStoreKeeps(w, limit, queue, a);
  }

  lemma StartKeeps(w: Workers, limit: nat, m: Move)
    requires MovesInv(w, limit) && CanMove(w, limit, m) && !m.Store?
    ensures MovesInv(Moved(w, limit, m), limit)
  {
    var n := Moved(w, limit, m);
    assert n.taken == w.taken && n.epoch == w.epoch && n.queue == w.queue && n.stale == w.stale;
    assert StartsKnown(n, limit) && PendingKnown(n);
    assert SinceKnown(n);
  }

  lemma MoveKeepsInv(w: Workers, limit: nat, m: Move)
    requires WorkersInv(w, limit) && CanMove(w, limit, m)
    ensures WorkersInv(Moved(w, limit, m), limit)
  {
    if m.Store? {
      NextKeepsInv(w.queue, m.action);
      NextCounts(w.queue, m.action);
      StoreKeeps(w, limit, Next(w.queue, m.action), m.action);
    } else {
      StartKeeps(w, limit, m);
    }
  }

  predicate CanPlay(w: Workers, limit: nat, moves: seq<Move>)
    decreases |moves|
  {
    moves == [] || (CanMove(w, limit, moves[0]) && CanPlay(Moved(w, limit, moves[0]), limit, moves[1..]))
  }

  function Played(w: Workers, limit: nat, moves: seq<Move>): Workers
    requires CanPlay(w, limit, moves)
    decreases |moves|
  {
    if moves == [] then w else Played(Moved(w, limit, moves[0]), limit, moves[1..])
  }

  lemma {:induction false} PlayKeepsInv(w: Workers, limit: nat, moves: seq<Move>)
    requires WorkersInv(w, limit) && CanPlay(w, limit, moves)
    ensures WorkersInv(Played(w, limit, moves), limit)
    decreases |moves|
  {
    if moves != [] {
      MoveKeepsInv(w, limit, moves[0]);
      PlayKeepsInv(Moved(w, limit, moves[0]), limit, moves[1..]);
    }
  }

  // ---- Counting ----

  /** Tokens with different attempt numbers between 1 and n are at most n. */
  lemma {:induction false} DistinctAttempts(taken: map<string, Taken>, tokens: set<string>, n: nat)
    requires tokens <= taken.Keys
    requires forall t | t in tokens :: 1 <= taken[t].attempts <= n
    requires forall s, t | s in tokens && t in tokens && s != t :: taken[s].attempts != taken[t].attempts
    ensures |tokens| <= n
    decreases n
  {
    if tokens != {} {
      var highest := set t | t in tokens && taken[t].attempts == n;
      DistinctAttempts(taken, tokens - highest, n - 1);
      if t :| t in highest {
        assert highest == {t};
      }
    }
  }

  ghost function StartedIn(w: Workers, id: string, epoch: nat): set<string> {
    set t | t in w.started && t in w.taken && w.taken[t].id == id && w.taken[t].epoch == epoch
  }

  lemma EpochBound(w: Workers, limit: nat, id: string, epoch: nat)
    requires TakensInv(w) && StartsKnown(w, limit)
    ensures |StartedIn(w, id, epoch)| <= limit
  {
    DistinctAttempts(w.taken, StartedIn(w, id, epoch), limit);
  }

  /** The reservations among the tokens that are still within the limit. */
  ghost function WithinLimit(taken: Takens, limit: nat, tokens: set<string>): set<string> {
    set t | t in tokens && t in taken && taken[t].attempts <= limit
  }

  lemma SinceBound(w: Workers, limit: nat, id: string)
    requires TakensInv(w) && StartsKnown(w, limit) && SinceKnown(w) && id in w.since
    ensures |w.since[id]| <= limit + |WithinLimit(w.taken, limit, w.stale[id])|
  {
    var current, stalled := StartedIn(w, id, w.epoch[id]), WithinLimit(w.taken, limit, w.stale[id]);
    EpochBound(w, limit, id, w.epoch[id]);
    SinceIsKnown(w, limit, id);
    hide *;
    SubsetSize(w.since[id], current + stalled);
    assert |current + stalled| <= |current| + |stalled|;
  }

  lemma SinceIsKnown(w: Workers, limit: nat, id: string)
    requires StartsKnown(w, limit) && SinceKnown(w) && id in w.since
    ensures w.since[id] <= StartedIn(w, id, w.epoch[id]) + WithinLimit(w.taken, limit, w.stale[id])
  {
  }

  /** Of the reservations made between an enqueue or retry and the next retry,
      at most MaxAttempts ever start the handler. */
  lemma StartsPerEpoch(limit: nat, moves: seq<Move>, id: string, epoch: nat)
    requires CanPlay(NOBODY, limit, moves)
    ensures |StartedIn(Played(NOBODY, limit, moves), id, epoch)| <= limit
  {
    NobodyInv(limit);
    PlayKeepsInv(NOBODY, limit, moves);
    EpochBound(Played(NOBODY, limit, moves), limit, id, epoch);
  }

  /** In every run the handler starts since the last enqueue or retry exceed
      MaxAttempts at most by the reservations that were pending then and could
      still start. */
  lemma StartsSinceRetry(limit: nat, moves: seq<Move>, id: string)
    requires CanPlay(NOBODY, limit, moves) && id in Played(NOBODY, limit, moves).since
    ensures id in Played(NOBODY, limit, moves).stale
    ensures var w := Played(NOBODY, limit, moves);
            |w.since[id]| <= limit + |WithinLimit(w.taken, limit, w.stale[id])|
  {
    NobodyInv(limit);
    PlayKeepsInv(NOBODY, limit, moves);
    SinceBound(Played(NOBODY, limit, moves), limit, id);
  }

  lemma NobodyInv(limit: nat)
    ensures WorkersInv(NOBODY, limit)
  {
    InitialInv();
  }

  lemma OneMoreMove(w: Workers, limit: nat, m: Move, rest: seq<Move>)
    requires CanMove(w, limit, m) && CanPlay(Moved(w, limit, m), limit, rest)
    ensures CanPlay(w, limit, [m] + rest)
    ensures Played(w, limit, [m] + rest) == Played(Moved(w, limit, m), limit, rest)
  {
    assert ([m] + rest)[1..] == rest;
  }

  lemma {:induction false} PlayedOn(w: Workers, limit: nat, moves: seq<Move>, more: seq<Move>)
    requires CanPlay(w, limit, moves) && CanPlay(Played(w, limit, moves), limit, more)
    ensures CanPlay(w, limit, moves + more)
    ensures Played(w, limit, moves + more) == Played(Played(w, limit, moves), limit, more)
    decreases |moves|
  {
    if moves == [] {
      assert moves + more == more;
    } else {
      hide CanMove, Moved;
      var rest := moves[1..] + more;
      PlayedOn(Moved(w, limit, moves[0]), limit, moves[1..], more);
      OneMoreMove(w, limit, moves[0], rest);
      assert moves + more == [moves[0]] + rest;
    }
  }

  // ---- The bound is reached ----

  /** The job was enqueued or retried by the last move that concerned it. */
  ghost predicate JustReset(w: Workers, id: string) {
    && id in w.queue.jobs && w.queue.jobs[id].job.attempts == 0
    && w.queue.jobs[id].token == NO_TOKEN && w.queue.jobs[id].failedAt == ZERO_TIME
    && id in w.since && w.since[id] == {} && id in w.stale && w.stale[id] == PendingOf(w, id)
  }

  predicate Resets(m: Move, id: string) {
    m.Store? && ((m.action.Enqueue? && m.action.job.id == id) || (m.action.Retry? && m.action.id == id))
  }

  lemma ResetIsJust(w: Workers, limit: nat, m: Move, id: string)
    requires WorkersInv(w, limit) && CanMove(w, limit, m) && Resets(m, id)
    ensures JustReset(Moved(w, limit, m), id)
    ensures Moved(w, limit, m).taken == w.taken && PendingOf(Moved(w, limit, m), id) == PendingOf(w, id)
  {
  }

  ghost predicate NoReset(moves: seq<Move>, id: string) {
    forall m | m in moves :: !Resets(m, id)
  }

  /** The stalled workers start, one after the other. */
  lemma {:induction false} StalledStart(w: Workers, limit: nat, id: string, tokens: set<string>)
    returns (moves: seq<Move>, n: Workers)
    requires tokens <= WithinLimit(w.taken, limit, PendingOf(w, id)) && id in w.since
    ensures CanPlay(w, limit, moves) && n == Played(w, limit, moves) && NoReset(moves, id)
    ensures n.queue == w.queue && id in n.since && n.since[id] == w.since[id] + tokens
    decreases tokens
  {
    if tokens == {} {
      return [], w;
    }
    var t :| t in tokens;
    var one := Moved(w, limit, Start(t));
    var rest;
    rest, n := StalledStart(one, limit, id, tokens - {t});
    OneMoreMove(w, limit, Start(t), rest);
    moves := [Start(t)] + rest;
  }

  ghost predicate NewTokens(w: Workers, tokens: seq<string>) {
    && (forall i | 0 <= i < |tokens| :: tokens[i] != NO_TOKEN && tokens[i] !in w.queue.issued)
    && (forall i, j | 0 <= i < j < |tokens| :: tokens[i] != tokens[j])
  }

  /** A worker reserves the job and starts the handler; its lease then runs out. */
  lemma OneRound(w: Workers, limit: nat, id: string, token: string, now: int) returns (n: Workers)
    requires id in w.queue.jobs && Eligible(w.queue.jobs[id], now) && id in w.since
    requires w.queue.jobs[id].job.attempts < limit && token != NO_TOKEN && token !in w.queue.issued
    ensures var moves := [Store(Action.Reserve(id, now, token, now + 1)), Start(token)];
            CanPlay(w, limit, moves) && n == Played(w, limit, moves)
    ensures id in n.queue.jobs && Eligible(n.queue.jobs[id], now + 1) && id in n.since
    ensures n.queue.jobs[id].job.attempts == w.queue.jobs[id].job.attempts + 1
    ensures n.since[id] == w.since[id] + {token} && n.queue.issued.Keys == w.queue.issued.Keys + {token}
  {
    var m1, m2 := Store(Action.Reserve(id, now, token, now + 1)), Start(token);
    var one := Moved(w, limit, m1);
    n := Moved(one, limit, m2);
    OneMoreMove(one, limit, m2, []);
    OneMoreMove(w, limit, m1, [m2]);
    assert [m1] + [m2] == [m1, m2] && [m2] + [] == [m2];
  }

  lemma {:induction false} Rounds(w: Workers, limit: nat, id: string, tokens: seq<string>, now: int)
    returns (moves: seq<Move>, n: Workers)
    requires id in w.queue.jobs && Eligible(w.queue.jobs[id], now) && id in w.since
    requires w.queue.jobs[id].job.attempts + |tokens| <= limit && NewTokens(w, tokens)
    ensures CanPlay(w, limit, moves) && n == Played(w, limit, moves) && NoReset(moves, id)
    ensures id in n.since && n.since[id] == w.since[id] + (set t | t in tokens)
    decreases |tokens|
  {
    if tokens == [] {
      return [], w;
    }
    var one := OneRound(w, limit, id, tokens[0], now);
    var round := [Store(Action.Reserve(id, now, tokens[0], now + 1)), Start(tokens[0])];
    hide Moved, CanMove;
    var rest;
    rest, n := Rounds(one, limit, id, tokens[1..], now + 1);
    PlayedOn(w, limit, round, rest);
    moves := round + rest;
    assert (set t | t in tokens) == {tokens[0]} + (set t | t in tokens[1..]);
  }

  lemma {:induction false} DistinctCount(tokens: seq<string>)
    requires forall i, j | 0 <= i < j < |tokens| :: tokens[i] != tokens[j]
    ensures |set t | t in tokens| == |tokens|
  {
    if tokens != [] {
      DistinctCount(tokens[1..]);
      assert (set t | t in tokens) == {tokens[0]} + (set t | t in tokens[1..]);
    }
  }

  /** Right after a reset, every reservation that is pending and within the limit
      can be followed by MaxAttempts more starts. */
  lemma BoundIsReached(w: Workers, limit: nat, id: string) returns (moves: seq<Move>)
    requires WorkersInv(w, limit) && JustReset(w, id)
    ensures CanPlay(w, limit, moves) && NoReset(moves, id) && id in Played(w, limit, moves).since
    ensures |Played(w, limit, moves).since[id]| == limit + |WithinLimit(w.taken, limit, w.stale[id])|
  {
    var stalled := WithinLimit(w.taken, limit, w.stale[id]);
    var tokens := UnusedTexts(w.queue.issued.Keys, limit);
    var first, mid := StalledStart(w, limit, id, stalled);
    var second, n := Rounds(mid, limit, id, tokens, mid.queue.jobs[id].job.availableAt);
    PlayedOn(w, limit, first, second);
    DistinctCount(tokens);
    assert stalled !! (set t | t in tokens);
    moves := first + second;
  }

  /** Nobody changes what a reservation carries. */
  ghost predicate Remembers(before: Takens, after: Takens) {
    forall t | t in before :: t in after && after[t] == before[t]
  }

  lemma MoveRemembers(w: Workers, limit: nat, m: Move, id: string)
    requires w.taken.Keys <= w.queue.issued.Keys && id in w.since && id in w.stale
    requires CanMove(w, limit, m) && !Resets(m, id)
    ensures var n := Moved(w, limit, m);
            Remembers(w.taken, n.taken) && id in n.since && id in n.stale && n.stale[id] == w.stale[id]
  {
    match m
    case Start(token) =>
    case Die(token) =>
    case Store(a) =>
      match a
      case Enqueue(job) =>
      case Retry(other, at) =>
      case Reserve(other, now, token, until) => assert token !in w.taken;
      case _ =>
  }

  lemma {:induction false} PlayRemembers(w: Workers, limit: nat, moves: seq<Move>, id: string)
    requires WorkersInv(w, limit) && CanPlay(w, limit, moves) && NoReset(moves, id) && id in w.since
    ensures var n := Played(w, limit, moves);
            && WorkersInv(n, limit) && Remembers(w.taken, n.taken)
            && id in n.since && id in n.stale && n.stale[id] == w.stale[id]
    decreases |moves|
  {
    if moves != [] {
      assert moves[0] in moves && forall m | m in moves[1..] :: m in moves;
      MoveKeepsInv(w, limit, moves[0]);
      assert w.taken.Keys <= w.queue.issued.Keys && id in w.stale;
      MoveRemembers(w, limit, moves[0], id);
      hide WorkersInv, Moved, CanMove;
      PlayRemembers(Moved(w, limit, moves[0]), limit, moves[1..], id);
    }
  }

  /** However it goes on without another reset, the handler starts at most
      MaxAttempts times. */
  ghost predicate StaysWithin(w: Workers, limit: nat, moves: seq<Move>, id: string) {
    CanPlay(w, limit, moves) && NoReset(moves, id) ==>
      id in Played(w, limit, moves).since && |Played(w, limit, moves).since[id]| <= limit
  }

  lemma LimitRemembered(before: Takens, after: Takens, limit: nat, tokens: set<string>)
    requires Remembers(before, after) && tokens <= before.Keys
    ensures WithinLimit(after, limit, tokens) == WithinLimit(before, limit, tokens)
  {
  }

  lemma NoneStalledIsWithin(w: Workers, limit: nat, moves: seq<Move>, id: string)
    requires WorkersInv(w, limit) && JustReset(w, id) && WithinLimit(w.taken, limit, PendingOf(w, id)) == {}
    ensures StaysWithin(w, limit, moves, id)
  {
    if CanPlay(w, limit, moves) && NoReset(moves, id) {
      PlayRemembers(w, limit, moves, id);
      SinceBound(Played(w, limit, moves), limit, id);
      LimitRemembered(w.taken, Played(w, limit, moves).taken, limit, PendingOf(w, id));
    }
  }

  lemma ResetExact(w: Workers, limit: nat, id: string)
    requires WorkersInv(w, limit) && JustReset(w, id)
    ensures (forall more :: StaysWithin(w, limit, more, id)) <==> WithinLimit(w.taken, limit, PendingOf(w, id)) == {}
  {
    if WithinLimit(w.taken, limit, PendingOf(w, id)) == {} {
      forall more
        ensures StaysWithin(w, limit, more, id)
      {
        NoneStalledIsWithin(w, limit, more, id);
      }
    } else {
      var more := BoundIsReached(w, limit, id);
      assert !StaysWithin(w, limit, more, id);
    }
  }

  /** After an enqueue or a retry MaxAttempts bounds the starts, whatever happens
      until the next one, exactly when no reservation within the limit was pending
      at that moment. */
  lemma MaxAttemptsExact(limit: nat, moves: seq<Move>, reset: Move, id: string)
    requires CanPlay(NOBODY, limit, moves) && CanMove(Played(NOBODY, limit, moves), limit, reset) && Resets(reset, id)
    ensures var w := Played(NOBODY, limit, moves);
            var n := Moved(w, limit, reset);
            (forall more :: StaysWithin(n, limit, more, id)) <==> WithinLimit(w.taken, limit, PendingOf(w, id)) == {}
  {
    hide *;
    NobodyInv(limit);
    PlayKeepsInv(NOBODY, limit, moves);
    var w := Played(NOBODY, limit, moves);
    ResetIsJust(w, limit, reset, id);
    MoveKeepsInv(w, limit, reset);
    ResetExact(Moved(w, limit, reset), limit, id);
  }

  /** Two workers hold a reservation of the same one-attempt job. */
  lemma ReservedTwice(job: Job) returns (moves: seq<Move>, w: Workers)
    requires job.attempts == 0 && job.availableAt == 1 && job.id != ""
    ensures CanPlay(NOBODY, 1, moves) && Played(NOBODY, 1, moves) == w
    ensures w.pending == {"a", "b"} && w.taken == map["a" := Taken(job.id, 1, 1), "b" := Taken(job.id, 2, 1)]
    ensures w.queue.jobs == map[job.id := Record(job.(attempts := 2), "b", 3, ZERO_TIME, "")]
  {
    var id := job.id;
    var m1, m2, m3 := Store(Enqueue(job)), Store(Reserve(id, 1, "a", 2)), Store(Reserve(id, 2, "b", 3));
    var w1 := Moved(NOBODY, 1, m1);
    var w2 := Moved(w1, 1, m2);
    w := Moved(w2, 1, m3);
    OneMoreMove(w2, 1, m3, []);
    OneMoreMove(w1, 1, m2, [m3] + []);
    OneMoreMove(NOBODY, 1, m1, [m2] + ([m3] + []));
    moves := [m1] + ([m2] + ([m3] + []));
  }

  /** The smallest run in which it does not: one attempt is allowed, the second
      worker gave up and the job is about to be retried, while the first has not
      started yet. */
  lemma StalledWorkerStartsAgain(job: Job) returns (moves: seq<Move>)
    requires job.attempts == 0 && job.availableAt == 1 && job.id != ""
    ensures CanPlay(NOBODY, 1, moves) && CanMove(Played(NOBODY, 1, moves), 1, Store(Retry(job.id, 4)))
    ensures var w := Played(NOBODY, 1, moves); WithinLimit(w.taken, 1, PendingOf(w, job.id)) == {"a"}
  {
    var before, w := ReservedTwice(job);
    var m := Store(Fail(job.id, "b", 3, "exceeded 1 attempt(s)"));
    OneMoreMove(w, 1, m, []);
    PlayedOn(NOBODY, 1, before, [m] + []);
    moves := before + ([m] + []);
  }
}
