/** The file job store: an append-only log of events, the replay that rebuilds
    the job map from it, and what a crash in mid-write leaves behind. */
module FileJobLog {
  import opened Wrappers
  import opened Text
  import opened LeasedQueue

  newtype Byte = b: int | 0 <= b < 256

  const NEWLINE: Byte := 10
  const EVENT_OVERHEAD := 64 * 1024
  const MAX_ERROR_BYTES := 4 * 1024
  const MAX_HANDLER_BYTES := 1024
  const JOB_IDENTIFIER_LENGTH := 64

  datatype Event =
    | EnqueueEvent(job: Job)
    | ReserveEvent(id: string, token: string, reservedUntil: int, attempts: int)
    | ReleaseEvent(id: string, token: string, availableAt: int, error: string)
    | CompleteEvent(id: string, token: string)
    | FailEvent(id: string, token: string, failedAt: int, error: string)
    | RetryEvent(id: string, availableAt: int)
    | ForgetEvent(id: string)

  /** JSON text, taken as given: marshalling may fail, compacts and escapes the
      raw payload, and repairs invalid UTF-8 in the text fields. Decoding keeps
      the raw payload as it stands in the line. */
  datatype Codec = Codec(
    encode: Event -> Option<seq<Byte>>,
    decode: seq<Byte> -> Option<Event>,
    compact: string -> string,
    repair: string -> string,
    validJson: string -> bool,
    validUtf8: string -> bool)

  datatype Options = Options(maxJobs: nat, maxPayloadBytes: nat, codec: Codec)

  /** What decoding gives back for an encoded event. */
  function Normal(c: Codec, e: Event): Event {
    match e
    case EnqueueEvent(job) => EnqueueEvent(NormalJob(c, job))
    case ReleaseEvent(id, token, at, error) => ReleaseEvent(id, token, at, c.repair(error))
    case FailEvent(id, token, at, error) => FailEvent(id, token, at, c.repair(error))
    case _ => e
  }

  function NormalJob(c: Codec, job: Job): Job {
    job.(handler := c.repair(job.handler), payload := c.compact(job.payload))
  }

  /** The identifiers of an event are valid UTF-8. */
  predicate PlainIds(c: Codec, e: Event) {
    match e
    case EnqueueEvent(job) => c.validUtf8(job.id)
    case ReserveEvent(id, token, _, _) => c.validUtf8(id) && c.validUtf8(token)
    case ReleaseEvent(id, token, _, _) => c.validUtf8(id) && c.validUtf8(token)
    case CompleteEvent(id, token) => c.validUtf8(id) && c.validUtf8(token)
    case FailEvent(id, token, _, _) => c.validUtf8(id) && c.validUtf8(token)
    case RetryEvent(id, _) => c.validUtf8(id)
    case ForgetEvent(id) => c.validUtf8(id)
  }

  /** JSON text holds no raw newline. */
  ghost predicate CleanLines(c: Codec) {
    forall e | c.encode(e).Some? :: NEWLINE !in c.encode(e).value
  }

  /** The facts about JSON the log relies on. */
  ghost predicate ValidCodec(c: Codec) {
    && CleanLines(c)
    && (forall e | c.encode(e).Some? && PlainIds(c, e) :: c.decode(c.encode(e).value) == Some(Normal(c, e)))
    && (forall l | c.decode(l).Some? :: PlainIds(c, c.decode(l).value))
    && (forall t :: c.repair(t) == t <==> c.validUtf8(t))
    && (forall id | ValidJobIdentifier(id) :: c.validUtf8(id))
    && c.validUtf8("")
  }

  // ---- Validation ----

  predicate ValidJobIdentifier(id: string) {
    |id| == JOB_IDENTIFIER_LENGTH && forall c | c in id :: '0' <= c <= '9' || 'a' <= c <= 'f'
  }

  predicate Blank(text: string) {
    forall c | c in text :: IsSpace(c)
  }

  predicate ValidStoredJob(o: Options, job: Job) {
    && ValidJobIdentifier(job.id)
    && !Blank(job.handler) && |job.handler| <= MAX_HANDLER_BYTES
    && 0 < |job.payload| <= o.maxPayloadBytes && o.codec.validJson(job.payload)
    && job.availableAt != ZERO_TIME && job.enqueuedAt != ZERO_TIME
    && job.attempts >= 0
  }

  const HEX_DIGITS := "0123456789abcdef"

  /** An identifier is 64 digits of lower-case hexadecimal. */
  lemma IdentifierIsHex(id: string)
    ensures ValidJobIdentifier(id) <==> |id| == 64 && forall c | c in id :: c in HEX_DIGITS
  {
    assert forall i | 0 <= i < 10 :: HEX_DIGITS[i] as int == '0' as int + i;
    assert forall i | 10 <= i < 16 :: HEX_DIGITS[i] as int == 'a' as int + i - 10;
    forall c
      ensures ('0' <= c <= '9' || 'a' <= c <= 'f') <==> c in HEX_DIGITS
    {
      if '0' <= c <= '9' {
        assert c == HEX_DIGITS[c as int - '0' as int];
      } else if 'a' <= c <= 'f' {
        assert c == HEX_DIGITS[c as int - 'a' as int + 10];
      }
    }
  }

  /** What a valid job may be changed to: any other JSON payload within the limit,
      any other handler of up to 1024 bytes that is not blank, any attempts and any
      real times. */
  lemma StoredJobLimits(o: Options, job: Job, handler: string, payload: string, availableAt: int, enqueuedAt: int,
      attempts: int)
    requires ValidStoredJob(o, job)
    ensures ValidStoredJob(o, job.(handler := handler)) <==>
            |handler| <= 1024 && exists c :: c in handler && !IsSpace(c)
    ensures ValidStoredJob(o, job.(payload := payload)) <==>
            payload != "" && |payload| <= o.maxPayloadBytes && o.codec.validJson(payload)
    ensures ValidStoredJob(o, job.(availableAt := availableAt)) <==> availableAt != ZERO_TIME
    ensures ValidStoredJob(o, job.(enqueuedAt := enqueuedAt)) <==> enqueuedAt != ZERO_TIME
    ensures ValidStoredJob(o, job.(attempts := attempts)) <==> attempts >= 0
  {
  }

  function DropInvalidTail(c: Codec, text: string): (r: string)
    ensures |r| <= |text|
  {
    if text == "" || c.validUtf8(text) then text else DropInvalidTail(c, text[..|text| - 1])
  }

  function NormalizeError(c: Codec, text: string): (r: string)
    ensures |r| <= MAX_ERROR_BYTES
  {
    if |text| <= MAX_ERROR_BYTES then text else DropInvalidTail(c, text[..MAX_ERROR_BYTES])
  }

  lemma {:induction false} DropsToLongest(c: Codec, text: string)
    requires c.validUtf8("")
    ensures var kept := DropInvalidTail(c, text);
            && kept <= text && c.validUtf8(kept)
            && forall n | |kept| < n <= |text| :: !c.validUtf8(text[..n])
    decreases |text|
  {
    if text != "" && !c.validUtf8(text) {
      var shorter := text[..|text| - 1];
      DropsToLongest(c, shorter);
      forall n | |DropInvalidTail(c, text)| < n <= |text|
        ensures !c.validUtf8(text[..n])
      {
        assert n < |text| ==> shorter[..n] == text[..n];
        assert text[..|text|] == text;
      }
    } else {
      assert text[..|text|] == text;
    }
  }

  /** The error that is stored: a short text as it is, of a longer one the longest
      beginning that fits and is valid UTF-8. */
  lemma StoredError(c: Codec, text: string)
    requires c.validUtf8("")
    ensures var stored := NormalizeError(c, text);
            && (|text| <= MAX_ERROR_BYTES ==> stored == text)
            && (|text| > MAX_ERROR_BYTES ==>
                  && stored <= text && c.validUtf8(stored)
                  && forall n | |stored| < n <= MAX_ERROR_BYTES :: !c.validUtf8(text[..n]))
  {
    if |text| > MAX_ERROR_BYTES {
      var cut := text[..MAX_ERROR_BYTES];
      DropsToLongest(c, cut);
      assert forall n | 0 <= n <= MAX_ERROR_BYTES :: cut[..n] == text[..n];
    }
  }

  // ---- Events on a running store and during replay ----

  /** The guard under which a running store appends the event. */
  predicate Accepts(o: Options, jobs: Jobs, e: Event) {
    match e
    case EnqueueEvent(job) => ValidStoredJob(o, job) && job.id !in jobs
    case ReserveEvent(id, token, until, attempts) =>
      id in jobs && jobs[id].failedAt == ZERO_TIME && ValidJobIdentifier(token) && attempts == jobs[id].job.attempts + 1
    case ReleaseEvent(id, token, at, error) => Holds(jobs, id, token) && at != ZERO_TIME
    case CompleteEvent(id, token) => Holds(jobs, id, token)
    case FailEvent(id, token, at, error) => Holds(jobs, id, token)
    case RetryEvent(id, at) => IsFailed(jobs, id) && at != ZERO_TIME
    case ForgetEvent(id) => IsFailed(jobs, id)
  }

  /** The effect of an event on the map. */
  function Effect(jobs: Jobs, e: Event): Jobs {
    match e
    case EnqueueEvent(job) => Enqueued(jobs, job)
    case ReserveEvent(id, token, until, attempts) => if id in jobs then Reserved(jobs, id, token, until) else jobs
    case ReleaseEvent(id, token, at, error) => if id in jobs then Released(jobs, id, at, error) else jobs
    case CompleteEvent(id, token) => jobs - {id}
    case FailEvent(id, token, at, error) => if id in jobs then Failed(jobs, id, at, error) else jobs
    case RetryEvent(id, at) => if id in jobs then Retried(jobs, id, at) else jobs
    case ForgetEvent(id) => jobs - {id}
  }

  /** applyEvent: what replay checks, and what it stores. */
  function ApplyEvent(o: Options, jobs: Jobs, e: Event): Option<Jobs> {
    var ok := match e
      case EnqueueEvent(job) => ValidStoredJob(o, job) && job.id !in jobs
      case ReserveEvent(id, token, until, attempts) =>
        id in jobs && token != NO_TOKEN && until != ZERO_TIME && attempts == jobs[id].job.attempts + 1
      case ReleaseEvent(id, token, at, error) => Holds(jobs, id, token) && at != ZERO_TIME
      case CompleteEvent(id, token) => Holds(jobs, id, token)
      case FailEvent(id, token, at, error) => Holds(jobs, id, token) && at != ZERO_TIME
      case RetryEvent(id, at) => IsFailed(jobs, id) && at != ZERO_TIME
      case ForgetEvent(id) => IsFailed(jobs, id);
    if ok then Some(Effect(jobs, e)) else None
  }

  /** Replay applies only what a running store could have appended, but that it takes
      any token, and a reservation of a failed job. */
  lemma AppliedIsAccepted(o: Options, jobs: Jobs, e: Event)
    requires ApplyEvent(o, jobs, e).Some?
    requires e.ReserveEvent? ==> ValidJobIdentifier(e.token) && !IsFailed(jobs, e.id)
    ensures Accepts(o, jobs, e) && ApplyEvent(o, jobs, e) == Some(Effect(jobs, e))
    ensures e.ReserveEvent? ==> e.reservedUntil != ZERO_TIME && e.attempts == jobs[e.id].job.attempts + 1
    ensures e.FailEvent? ==> e.failedAt != ZERO_TIME
  {
  }

  /** Everything a caller must check for an event to survive a reload. */
  predicate Reloadable(o: Options, e: Event) {
    && o.codec.encode(e).Some?
    && |o.codec.encode(e).value| + 1 <= o.maxPayloadBytes + EVENT_OVERHEAD
    && match e
       case EnqueueEvent(job) => ValidStoredJob(o, NormalJob(o.codec, job))
       case ReserveEvent(_, _, until, _) => until != ZERO_TIME
       case FailEvent(_, _, at, _) => at != ZERO_TIME
       case _ => true
  }

  // ---- The log ----

  /** The bytes one append writes; nothing when the event cannot be encoded. */
  function Line(c: Codec, e: Event): (line: seq<Byte>) {
    if c.encode(e).None? then [] else c.encode(e).value + [NEWLINE]
  }

  /** The file after the events were appended to it one by one. */
  function Log(c: Codec, base: seq<Byte>, events: seq<Event>): seq<Byte> {
    if events == [] then base
    else Log(c, base, events[..|events| - 1]) + Line(c, events[|events| - 1])
  }

  /** The map of a store that started from jobs and appended the events. */
  function Live(jobs: Jobs, events: seq<Event>): Jobs {
    if events == [] then jobs else Effect(Live(jobs, events[..|events| - 1]), events[|events| - 1])
  }

  ghost predicate Appended(o: Options, jobs: Jobs, events: seq<Event>) {
    forall i | 0 <= i < |events| ::
      o.codec.encode(events[i]).Some? && Accepts(o, Live(jobs, events[..i]), events[i])
  }

  lemma AppendOne(o: Options, base: seq<Byte>, jobs: Jobs, events: seq<Event>, e: Event)
    requires Appended(o, jobs, events) && o.codec.encode(e).Some? && Accepts(o, Live(jobs, events), e)
    ensures Appended(o, jobs, events + [e])
    ensures Live(jobs, events + [e]) == Effect(Live(jobs, events), e)
    ensures Log(o.codec, base, events + [e]) == Log(o.codec, base, events) + Line(o.codec, e)
  {
    var more := events + [e];
    assert more[..|events|] == events;
    forall i | 0 <= i < |more|
      ensures o.codec.encode(more[i]).Some? && Accepts(o, Live(jobs, more[..i]), more[i])
    {
      if i < |events| {
        assert more[..i] == events[..i];
      }
    }
  }

  ghost predicate AllReloadable(o: Options, events: seq<Event>) {
    forall i | 0 <= i < |events| :: Reloadable(o, events[i])
  }

  // ---- Replay ----

  function NewlineAt(bytes: seq<Byte>): (i: nat)
    ensures i <= |bytes| && NEWLINE !in bytes[..i]
    ensures i < |bytes| ==> bytes[i] == NEWLINE
  {
    if bytes == [] || bytes[0] == NEWLINE then 0
    else
      var rest := NewlineAt(bytes[1..]);
      assert bytes[..1 + rest] == [bytes[0]] + bytes[1..][..rest];
      1 + rest
  }

  function ReplayLine(o: Options, line: seq<Byte>, jobs: Jobs): Option<Jobs> {
    if |line| + 1 > o.maxPayloadBytes + EVENT_OVERHEAD then None
    else
      var event := o.codec.decode(line);
      if event.None? then None else ApplyEvent(o, jobs, event.value)
  }

  /** With its newline a line may be the payload limit and 64 KiB long; a longer one
      is refused whatever it says, and of another only what it says decides. */
  lemma LineLimit(o: Options, line: seq<Byte>, jobs: Jobs)
    ensures |line| + 1 > o.maxPayloadBytes + 65_536 ==> ReplayLine(o, line, jobs).None?
    ensures |line| + 1 <= o.maxPayloadBytes + 65_536 ==>
              ReplayLine(o, line, jobs) ==
              if o.codec.decode(line).None? then None else ApplyEvent(o, jobs, o.codec.decode(line).value)
  {
  }

  /** The map that reading the bytes gives, or none when they are corrupt; an
      incomplete last line is ignored. */
  function Replay(o: Options, bytes: seq<Byte>, jobs: Jobs): Option<Jobs>
    decreases |bytes|
  {
    var i := NewlineAt(bytes);
    if i == |bytes| then Some(jobs)
    else
      var next := ReplayLine(o, bytes[..i], jobs);
      if next.None? then None else Replay(o, bytes[i + 1..], next.value)
  }

  predicate WholeLines(bytes: seq<Byte>) {
    bytes == [] || bytes[|bytes| - 1] == NEWLINE
  }

  lemma {:induction false} FirstLine(line: seq<Byte>, rest: seq<Byte>)
    requires NEWLINE !in line
    ensures NewlineAt(line + [NEWLINE] + rest) == |line|
  {
    if line != [] {
      assert (line + [NEWLINE] + rest)[1..] == line[1..] + [NEWLINE] + rest;
      FirstLine(line[1..], rest);
    }
  }

  lemma {:induction false} LineEnds(bytes: seq<Byte>)
    requires bytes != [] && WholeLines(bytes)
    ensures NewlineAt(bytes) < |bytes|
  {
    if bytes[0] != NEWLINE {
      LineEnds(bytes[1..]);
    }
  }

  /** Whole lines first, then the rest. */
  lemma {:induction false} ReplayAppend(o: Options, bytes: seq<Byte>, more: seq<Byte>, jobs: Jobs)
    requires WholeLines(bytes)
    ensures Replay(o, bytes + more, jobs) ==
            if Replay(o, bytes, jobs).None? then None else Replay(o, more, Replay(o, bytes, jobs).value)
    decreases |bytes|
  {
    if bytes == [] {
      assert bytes + more == more;
    } else {
      LineEnds(bytes);
      var i := NewlineAt(bytes);
      var line, rest := bytes[..i], bytes[i + 1..];
      assert bytes + more == line + [NEWLINE] + (rest + more);
      FirstLine(line, rest + more);
      assert (bytes + more)[..i] == line && (bytes + more)[i + 1..] == rest + more;
      var next := ReplayLine(o, line, jobs);
      if next.Some? {
        ReplayAppend(o, rest, more, next.value);
      }
    }
  }

  lemma ReplayOneLine(o: Options, line: seq<Byte>, jobs: Jobs)
    requires NEWLINE !in line
    ensures Replay(o, line + [NEWLINE], jobs) == ReplayLine(o, line, jobs)
  {
    var bytes := line + [NEWLINE];
    FirstLine(line, []);
    assert line + [NEWLINE] + [] == bytes;
    assert bytes[..|line|] == line && bytes[|line| + 1..] == [];
  }

  lemma {:induction false} LogIsWholeLines(c: Codec, base: seq<Byte>, events: seq<Event>)
    requires WholeLines(base)
    ensures WholeLines(Log(c, base, events))
  {
    if events != [] {
      LogIsWholeLines(c, base, events[..|events| - 1]);
    }
  }

  // ---- Identifiers stay valid UTF-8 ----

  ghost predicate PlainJobs(c: Codec, jobs: Jobs) {
    forall id | id in jobs :: c.validUtf8(id) && c.validUtf8(jobs[id].token)
  }

  /** What a store has, whether from a log or from its own operations: records
      under their own ids, and identifiers that JSON does not change. */
  ghost predicate Sound(c: Codec, jobs: Jobs) {
    Keyed(jobs) && PlainJobs(c, jobs)
  }

  lemma EffectKeepsSound(c: Codec, jobs: Jobs, e: Event)
    requires ValidCodec(c) && Sound(c, jobs) && PlainIds(c, e)
    ensures Sound(c, Effect(jobs, e))
  {
    match e
    case EnqueueEvent(job) =>
    case ReserveEvent(id, token, until, attempts) =>
    case ReleaseEvent(id, token, at, error) =>
    case CompleteEvent(id, token) =>
    case FailEvent(id, token, at, error) =>
    case RetryEvent(id, at) =>
    case ForgetEvent(id) =>
  }

  lemma AcceptedIsPlain(o: Options, jobs: Jobs, e: Event)
    requires ValidCodec(o.codec) && PlainJobs(o.codec, jobs) && Accepts(o, jobs, e)
    ensures PlainIds(o.codec, e)
  {
  }

  lemma {:induction false} ReplayIsSound(o: Options, bytes: seq<Byte>, jobs: Jobs)
    requires ValidCodec(o.codec) && Sound(o.codec, jobs) && Replay(o, bytes, jobs).Some?
    ensures Sound(o.codec, Replay(o, bytes, jobs).value)
    decreases |bytes|
  {
    var i := NewlineAt(bytes);
    if i < |bytes| {
      EffectKeepsSound(o.codec, jobs, o.codec.decode(bytes[..i]).value);
      ReplayIsSound(o, bytes[i + 1..], ReplayLine(o, bytes[..i], jobs).value);
    }
  }

  lemma {:induction false} LiveIsSound(o: Options, jobs: Jobs, events: seq<Event>)
    requires ValidCodec(o.codec) && Sound(o.codec, jobs) && Appended(o, jobs, events)
    ensures Sound(o.codec, Live(jobs, events))
  {
    if events != [] {
      var n := |events| - 1;
      Last(o, jobs, events);
      LiveIsSound(o, jobs, events[..n]);
      AcceptedIsPlain(o, Live(jobs, events[..n]), events[n]);
      EffectKeepsSound(o.codec, Live(jobs, events[..n]), events[n]);
    }
  }

  // ---- What a reload gives back ----

  /** The job whose handler and payload the event writes. */
  function Enqueues(e: Event): set<string> {
    if e.EnqueueEvent? then {e.job.id} else {}
  }

  /** The job whose last error the event writes. */
  function SetsError(e: Event): set<string> {
    if e.ReleaseEvent? || e.FailEvent? || e.RetryEvent? then {e.id} else Enqueues(e)
  }

  function EnqueuedIn(events: seq<Event>): set<string> {
    if events == [] then {} else EnqueuedIn(events[..|events| - 1]) + Enqueues(events[|events| - 1])
  }

  function ErrorSetIn(events: seq<Event>): set<string> {
    if events == [] then {} else ErrorSetIn(events[..|events| - 1]) + SetsError(events[|events| - 1])
  }

  /** A record with the texts that were written since in the form JSON gives
      them back; older texts come back as they are. */
  function Retold(c: Codec, r: Record, enqueued: bool, worded: bool): Record {
    r.(job := if enqueued then NormalJob(c, r.job) else r.job,
       lastError := if worded then c.repair(r.lastError) else r.lastError)
  }

  function Reloaded(c: Codec, jobs: Jobs, enqueued: set<string>, worded: set<string>): Jobs {
    map id | id in jobs :: Retold(c, jobs[id], id in enqueued, id in worded)
  }

  lemma ReloadedUpdate(c: Codec, jobs: Jobs, enqueued: set<string>, worded: set<string>, e: Event, id: string,
      r: Record)
    requires Enqueues(e) <= {id} && SetsError(e) <= {id}
    ensures Reloaded(c, jobs[id := r], enqueued + Enqueues(e), worded + SetsError(e)) ==
            Reloaded(c, jobs, enqueued, worded)[
              id := Retold(c, r, id in enqueued + Enqueues(e), id in worded + SetsError(e))]
    ensures Reloaded(c, jobs - {id}, enqueued + Enqueues(e), worded + SetsError(e)) ==
            Reloaded(c, jobs, enqueued, worded) - {id}
  {
    hide Retold;
  }

  /** Reloading commutes with every operation. */
  lemma ReloadedEffect(c: Codec, jobs: Jobs, enqueued: set<string>, worded: set<string>, e: Event)
    requires ValidCodec(c)
    ensures Reloaded(c, Effect(jobs, e), enqueued + Enqueues(e), worded + SetsError(e)) ==
            Effect(Reloaded(c, jobs, enqueued, worded), Normal(c, e))
  {
    assert c.repair("") == "";
    hide ValidCodec;
    match e
    case EnqueueEvent(job) =>
      ReloadedUpdate(c, jobs, enqueued, worded, e, job.id, Record(job, NO_TOKEN, ZERO_TIME, ZERO_TIME, ""));
    case ReserveEvent(id, token, until, attempts) =>
      if id in jobs { ReloadedUpdate(c, jobs, enqueued, worded, e, id, Effect(jobs, e)[id]); }
    case ReleaseEvent(id, token, at, error) =>
      if id in jobs { ReloadedUpdate(c, jobs, enqueued, worded, e, id, Effect(jobs, e)[id]); }
    case CompleteEvent(id, token) =>
      ReloadedUpdate(c, jobs, enqueued, worded, e, id, Record(Job("", "", "", 0, 0, 0), "", 0, 0, ""));
    case FailEvent(id, token, at, error) =>
      if id in jobs { ReloadedUpdate(c, jobs, enqueued, worded, e, id, Effect(jobs, e)[id]); }
    case RetryEvent(id, at) =>
      if id in jobs { ReloadedUpdate(c, jobs, enqueued, worded, e, id, Effect(jobs, e)[id]); }
    case ForgetEvent(id) =>
      ReloadedUpdate(c, jobs, enqueued, worded, e, id, Record(Job("", "", "", 0, 0, 0), "", 0, 0, ""));
  }

  /** On the reloaded map, replay accepts the event exactly when the running
      store did and the event survives a reload. */
  lemma ReplayEvent(o: Options, jobs: Jobs, enqueued: set<string>, worded: set<string>, e: Event)
    requires ValidCodec(o.codec) && PlainJobs(o.codec, jobs) && o.codec.encode(e).Some? && Accepts(o, jobs, e)
    ensures ReplayLine(o, o.codec.encode(e).value, Reloaded(o.codec, jobs, enqueued, worded)) ==
            if Reloadable(o, e) then Some(Effect(Reloaded(o.codec, jobs, enqueued, worded), Normal(o.codec, e)))
            else None
  {
    AcceptedIsPlain(o, jobs, e);
    hide Effect;
    match e
    case EnqueueEvent(job) =>
    case ReserveEvent(id, token, until, attempts) =>
    case ReleaseEvent(id, token, at, error) =>
    case CompleteEvent(id, token) =>
    case FailEvent(id, token, at, error) =>
    case RetryEvent(id, at) =>
    case ForgetEvent(id) =>
  }

  lemma ReplayStep(o: Options, bytes: seq<Byte>, jobs: Jobs, enqueued: set<string>, worded: set<string>, e: Event)
    requires ValidCodec(o.codec) && PlainJobs(o.codec, jobs) && o.codec.encode(e).Some? && Accepts(o, jobs, e)
    requires WholeLines(bytes)
    requires Replay(o, bytes, map[]).None? || Replay(o, bytes, map[]) == Some(Reloaded(o.codec, jobs, enqueued, worded))
    ensures Replay(o, bytes + Line(o.codec, e), map[]) ==
            if Replay(o, bytes, map[]).Some? && Reloadable(o, e) then
              Some(Reloaded(o.codec, Effect(jobs, e), enqueued + Enqueues(e), worded + SetsError(e)))
            else None
  {
    ReplayAppend(o, bytes, Line(o.codec, e), map[]);
    ReplayOneLine(o, o.codec.encode(e).value, Reloaded(o.codec, jobs, enqueued, worded));
    ReplayEvent(o, jobs, enqueued, worded, e);
    ReloadedEffect(o.codec, jobs, enqueued, worded, e);
    hide Reloaded, Replay, Effect, Accepts, Reloadable, ReplayLine;
  }

  lemma Last(o: Options, jobs: Jobs, events: seq<Event>)
    requires events != []
    ensures var n := |events| - 1;
            && (Appended(o, jobs, events) ==>
                  Appended(o, jobs, events[..n]) && o.codec.encode(events[n]).Some?
                  && Accepts(o, Live(jobs, events[..n]), events[n]))
            && (AllReloadable(o, events) <==> AllReloadable(o, events[..n]) && Reloadable(o, events[n]))
  {
    var n := |events| - 1;
    assert forall i | 0 <= i < n :: events[..n][..i] == events[..i] && events[..n][i] == events[i];
  }

  /** The live map as a reload gives it back. */
  function Reload(c: Codec, baseJobs: Jobs, events: seq<Event>): Jobs {
    Reloaded(c, Live(baseJobs, events), EnqueuedIn(events), ErrorSetIn(events))
  }

  /** Replaying a log is accepted exactly when each event survives a reload, and
      then rebuilds the live map; only texts written since the base can come back
      changed, in the form JSON gives them. */
  lemma {:induction false} ReplayRebuilds(o: Options, base: seq<Byte>, baseJobs: Jobs, events: seq<Event>)
    requires ValidCodec(o.codec) && WholeLines(base) && Replay(o, base, map[]) == Some(baseJobs)
    requires Appended(o, baseJobs, events)
    ensures Replay(o, Log(o.codec, base, events), map[]) ==
            if AllReloadable(o, events) then Some(Reload(o.codec, baseJobs, events)) else None
  {
    if events == [] {
      assert Reload(o.codec, baseJobs, []) == baseJobs;
    } else {
      var n := |events| - 1;
      Last(o, baseJobs, events);
      ReplayRebuilds(o, base, baseJobs, events[..n]);
      LogIsWholeLines(o.codec, base, events[..n]);
      ReplayIsSound(o, base, map[]);
      LiveIsSound(o, baseJobs, events[..n]);
      ReplayStep(o, Log(o.codec, base, events[..n]), Live(baseJobs, events[..n]),
                 EnqueuedIn(events[..n]), ErrorSetIn(events[..n]), events[n]);
      hide Replay, Effect, Reloaded, Enqueues, SetsError, Reloadable, Appended, ValidCodec, WholeLines, Accepts;
    }
  }

  /** The texts written since the base are already as JSON gives them back:
      valid UTF-8, and a payload that is compacted and escaped. */
  predicate Unchanged(c: Codec, r: Record, enqueued: bool, worded: bool) {
    && (enqueued ==> c.validUtf8(r.job.handler) && c.compact(r.job.payload) == r.job.payload)
    && (worded ==> c.validUtf8(r.lastError))
  }

  lemma ReloadedSame(c: Codec, jobs: Jobs, enqueued: set<string>, worded: set<string>)
    requires ValidCodec(c)
    ensures Reloaded(c, jobs, enqueued, worded) == jobs <==>
            forall id | id in jobs :: Unchanged(c, jobs[id], id in enqueued, id in worded)
  {
    var after := Reloaded(c, jobs, enqueued, worded);
    if after == jobs {
      forall id | id in jobs
        ensures Unchanged(c, jobs[id], id in enqueued, id in worded)
      {
        assert after[id] == jobs[id];
      }
    }
  }

  /** The reload is exact if and only if each event survives it and the texts
      written since the base are unchanged by it. */
  lemma ReloadExact(o: Options, base: seq<Byte>, baseJobs: Jobs, events: seq<Event>)
    requires ValidCodec(o.codec) && WholeLines(base) && Replay(o, base, map[]) == Some(baseJobs)
    requires Appended(o, baseJobs, events)
    ensures Replay(o, Log(o.codec, base, events), map[]) == Some(Live(baseJobs, events)) <==>
            && AllReloadable(o, events)
            && forall id | id in Live(baseJobs, events) ::
                 Unchanged(o.codec, Live(baseJobs, events)[id], id in EnqueuedIn(events), id in ErrorSetIn(events))
  {
    ReplayRebuilds(o, base, baseJobs, events);
    ReloadedSame(o.codec, Live(baseJobs, events), EnqueuedIn(events), ErrorSetIn(events));
  }

  /** A payload that JSON encoding lengthens past the limit is accepted by the
      running store, and makes the next start refuse the whole log. */
  lemma LengthenedPayloadIsRefused(o: Options, job: Job)
    requires ValidCodec(o.codec) && ValidStoredJob(o, job) && o.codec.encode(EnqueueEvent(job)).Some?
    requires |o.codec.compact(job.payload)| > o.maxPayloadBytes
    ensures Accepts(o, map[], EnqueueEvent(job))
    ensures Replay(o, Log(o.codec, [], [EnqueueEvent(job)]), map[]) == None
  {
    var e := EnqueueEvent(job);
    assert Log(o.codec, [], [e]) == [] + Line(o.codec, e) by {
      assert [e][..0] == [];
    }
    assert Reloaded(o.codec, map[], {}, {}) == map[];
    ReplayStep(o, [], map[], {}, {}, e);
  }

  // ---- Torn writes ----

  lemma PartIgnored(o: Options, bytes: seq<Byte>, part: seq<Byte>)
    requires WholeLines(bytes) && NEWLINE !in part
    ensures Replay(o, bytes + part, map[]) == Replay(o, bytes, map[])
  {
    ReplayAppend(o, bytes, part, map[]);
    assert NewlineAt(part) == |part|;
  }

  /** How many whole events lie inside the first cut bytes of the log. */
  function WholeEvents(c: Codec, base: seq<Byte>, events: seq<Event>, cut: nat): (k: nat)
    ensures k <= |events|
  {
    if events == [] || |Log(c, base, events)| <= cut then |events|
    else WholeEvents(c, base, events[..|events| - 1], cut)
  }

  /** When the last event is not whole, the earlier ones decide. */
  lemma LastIsTorn(c: Codec, base: seq<Byte>, events: seq<Event>, cut: nat)
    requires events != [] && cut < |Log(c, base, events)|
    ensures var before := events[..|events| - 1]; var k := WholeEvents(c, base, before, cut);
            WholeEvents(c, base, events, cut) == k && events[..k] == before[..k]
  {
  }

  /** They are the longest run that fits. */
  lemma {:induction false} WholeEventsLongest(c: Codec, base: seq<Byte>, events: seq<Event>, cut: nat)
    requires |base| <= cut
    ensures var k := WholeEvents(c, base, events, cut);
            && |Log(c, base, events[..k])| <= cut
            && (k < |events| ==> cut < |Log(c, base, events[..k + 1])|)
  {
    if events == [] || |Log(c, base, events)| <= cut {
      assert events[..|events|] == events;
    } else {
      LastIsTorn(c, base, events, cut);
      hide Log, WholeEvents;
      var before := events[..|events| - 1];
      WholeEventsLongest(c, base, before, cut);
      var k := WholeEvents(c, base, before, cut);
      if k < |before| {
        assert before[..k + 1] == events[..k + 1];
      } else {
        assert events[..k + 1] == events;
      }
    }
  }

  /** A cut inside the last event leaves the earlier ones and a part of a line. */
  lemma TornLast(o: Options, base: seq<Byte>, before: seq<Event>, last: Event, cut: nat)
    requires CleanLines(o.codec) && WholeLines(base)
    requires var whole := Log(o.codec, base, before);
             |whole| <= cut < |whole| + |Line(o.codec, last)|
    ensures Replay(o, (Log(o.codec, base, before) + Line(o.codec, last))[..cut], map[]) ==
            Replay(o, Log(o.codec, base, before), map[])
  {
    var whole := Log(o.codec, base, before);
    var part := Line(o.codec, last)[..cut - |whole|];
    assert (whole + Line(o.codec, last))[..cut] == whole + part;
    LogIsWholeLines(o.codec, base, before);
    PartIgnored(o, whole, part);
  }

  lemma LogLast(c: Codec, base: seq<Byte>, events: seq<Event>)
    requires events != []
    ensures Log(c, base, events) == Log(c, base, events[..|events| - 1]) + Line(c, events[|events| - 1])
  {
  }

  lemma AllWhole(c: Codec, base: seq<Byte>, events: seq<Event>, cut: nat)
    requires |Log(c, base, events)| <= cut
    ensures WholeEvents(c, base, events, cut) == |events| && events[..|events|] == events
  {
  }

  /** Whatever prefix of the bytes a crash leaves, it replays like the longest
      run of whole events inside it: at most the event being written is lost. */
  lemma {:induction false} TornWrite(o: Options, base: seq<Byte>, events: seq<Event>, cut: nat)
    requires CleanLines(o.codec) && WholeLines(base)
    requires |base| <= cut <= |Log(o.codec, base, events)|
    ensures Replay(o, Log(o.codec, base, events)[..cut], map[]) ==
            Replay(o, Log(o.codec, base, events[..WholeEvents(o.codec, base, events, cut)]), map[])
    decreases |events|
  {
    var bytes := Log(o.codec, base, events);
    if cut == |bytes| {
      AllWhole(o.codec, base, events, cut);
      hide Log, WholeEvents, Replay;
      assert bytes[..cut] == bytes;
    } else {
      assert events != [];
      var before, last := events[..|events| - 1], events[|events| - 1];
      var whole := Log(o.codec, base, before);
      LogLast(o.codec, base, events);
      LastIsTorn(o.codec, base, events, cut);
      hide Log, WholeEvents, Replay, CleanLines, WholeLines;
      if cut < |whole| {
        TornWrite(o, base, before, cut);
        assert bytes[..cut] == whole[..cut];
      } else {
        TornLast(o, base, before, last, cut);
        AllWhole(o.codec, base, before, cut);
      }
    }
  }
}
