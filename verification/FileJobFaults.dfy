/** Appends that fail while the process keeps running: a write that stops part of
    the way, and a whole write that is reported as failed because the sync was.
    The store answers with an error, leaves its map alone and goes on appending. */
module FileJobFaults {
  import opened Wrappers
  import opened LeasedQueue
  import opened LeaseProtocol
  import opened FileJobLog

  // ---- Writes that stop part of the way ----

  /** An append and how many bytes of its line reached the file. */
  datatype Write = Write(event: Event, written: nat)

  predicate Whole(c: Codec, w: Write) {
    w.written == |Line(c, w.event)|
  }

  predicate Torn(c: Codec, w: Write) {
    0 < w.written < |Line(c, w.event)|
  }

  function Piece(c: Codec, w: Write): seq<Byte> {
    if w.written < |Line(c, w.event)| then Line(c, w.event)[..w.written] else Line(c, w.event)
  }

  /** The events whose append succeeded. */
  function Kept(c: Codec, writes: seq<Write>): seq<Event> {
    if writes == [] then []
    else
      var n := |writes| - 1;
      if Whole(c, writes[n]) then Kept(c, writes[..n]) + [writes[n].event] else Kept(c, writes[..n])
  }

  /** Each append was one the running store made, on the map it had then. */
  ghost predicate Made(o: Options, jobs: Jobs, writes: seq<Write>) {
    writes == [] ||
    var n := |writes| - 1;
    && Made(o, jobs, writes[..n])
    && Makes(o, Live(jobs, Kept(o.codec, writes[..n])), writes[n])
  }

  ghost predicate Makes(o: Options, jobs: Jobs, w: Write) {
    o.codec.encode(w.event).Some? && w.written <= |Line(o.codec, w.event)| && Accepts(o, jobs, w.event)
  }

  function File(c: Codec, base: seq<Byte>, writes: seq<Write>): seq<Byte> {
    if writes == [] then base else File(c, base, writes[..|writes| - 1]) + Piece(c, writes[|writes| - 1])
  }

  predicate AnyTorn(c: Codec, writes: seq<Write>) {
    exists i | 0 <= i < |writes| :: Torn(c, writes[i])
  }

  /** A successful append stands somewhere after a torn one. */
  predicate Joins(c: Codec, writes: seq<Write>) {
    exists i, j | 0 <= i < j < |writes| :: Torn(c, writes[i]) && Whole(c, writes[j])
  }

  /** The pieces since the last newline. */
  function Pieces(c: Codec, writes: seq<Write>): seq<seq<Byte>> {
    if writes == [] then []
    else
      var n := |writes| - 1;
      if Whole(c, writes[n]) then []
      else if writes[n].written == 0 then Pieces(c, writes[..n])
      else Pieces(c, writes[..n]) + [Piece(c, writes[n])]
  }

  function Flat(parts: seq<seq<Byte>>): seq<Byte> {
    if parts == [] then [] else Flat(parts[..|parts| - 1]) + parts[|parts| - 1]
  }

  /** The start of some encoded event, perhaps all of it. */
  ghost predicate Starts(c: Codec, part: seq<Byte>) {
    part != [] && exists e :: c.encode(e).Some? && part <= c.encode(e).value
  }

  /** Two or more starts of JSON objects in one line are no JSON object, and
      nothing is encoded as no text. */
  ghost predicate PiecesDoNotDecode(c: Codec) {
    && (forall parts: seq<seq<Byte>> | |parts| > 1 && (forall p | p in parts :: Starts(c, p)) ::
          c.decode(Flat(parts)).None?)
    && (forall e | c.encode(e).Some? :: c.encode(e).value != [])
  }

  lemma FlatLast(parts: seq<seq<Byte>>, last: seq<Byte>)
    ensures Flat(parts + [last]) == Flat(parts) + last
  {
    assert (parts + [last])[..|parts|] == parts;
  }

  /** What one more append adds. */
  lemma OneMore(o: Options, base: seq<Byte>, jobs: Jobs, before: seq<Write>, w: Write)
    ensures var c, writes := o.codec, before + [w];
            && Kept(c, writes) == (if Whole(c, w) then Kept(c, before) + [w.event] else Kept(c, before))
            && File(c, base, writes) == File(c, base, before) + Piece(c, w)
            && Pieces(c, writes) ==
               (if Whole(c, w) then []
                else if w.written == 0 then Pieces(c, before)
                else Pieces(c, before) + [Piece(c, w)])
            && (Made(o, jobs, writes) <==> Made(o, jobs, before) && Makes(o, Live(jobs, Kept(c, before)), w))
  {
    hide Makes, Piece, Whole, Live;
    var writes := before + [w];
    assert writes[..|writes| - 1] == before && writes[|writes| - 1] == w;
  }

  lemma JoinsSome(c: Codec, writes: seq<Write>)
    requires Joins(c, writes)
    ensures writes != []
  {
  }

  /** When a successful append stands after a torn one, from the last append on. */
  lemma JoinsLast(c: Codec, before: seq<Write>, w: Write)
    ensures Joins(c, before + [w]) <==> Joins(c, before) || (AnyTorn(c, before) && Whole(c, w))
    ensures AnyTorn(c, before + [w]) <==> AnyTorn(c, before) || Torn(c, w)
  {
    hide Torn, Whole;
    var writes, n := before + [w], |before|;
    assert forall i | 0 <= i < n :: writes[i] == before[i];
    assert writes[n] == w;
    if AnyTorn(c, before) {
      var i :| 0 <= i < n && Torn(c, before[i]);
      assert Torn(c, writes[i]);
    }
    if Joins(c, before) {
      var i, j :| 0 <= i < j < n && Torn(c, before[i]) && Whole(c, before[j]);
      assert Torn(c, writes[i]) && Whole(c, writes[j]);
    }
    if Joins(c, writes) {
      var i, j :| 0 <= i < j <= n && Torn(c, writes[i]) && Whole(c, writes[j]);
      assert Torn(c, before[i]);
      if j < n {
        assert Whole(c, before[j]);
      }
    }
  }

  lemma TornPiece(c: Codec, w: Write)
    requires CleanLines(c) && c.encode(w.event).Some? && Torn(c, w)
    ensures Starts(c, Piece(c, w)) && NEWLINE !in Piece(c, w)
  {
    assert Piece(c, w) <= c.encode(w.event).value;
  }

  /** The pieces after the last newline are starts of events, and there are some
      exactly when an append was torn, as long as none was joined. */
  lemma {:induction false} PiecesStart(o: Options, jobs: Jobs, writes: seq<Write>)
    requires CleanLines(o.codec) && Made(o, jobs, writes)
    ensures forall p | p in Pieces(o.codec, writes) :: Starts(o.codec, p)
    ensures NEWLINE !in Flat(Pieces(o.codec, writes))
    ensures !Joins(o.codec, writes) ==> (AnyTorn(o.codec, writes) <==> Pieces(o.codec, writes) != [])
  {
    if writes == [] { return; }
    hide Made, Joins, AnyTorn, Pieces, Kept, Live, Accepts, Flat, CleanLines;
    var c, n := o.codec, |writes| - 1;
    var before, w := writes[..n], writes[n];
    assert writes == before + [w];
    JoinsLast(c, before, w);
    OneMore(o, [], jobs, before, w);
    PiecesStart(o, jobs, before);
    if Torn(c, w) {
      FlatLast(Pieces(c, before), Piece(c, w));
      TornPiece(c, w);
    }
  }

  /** One more append on a file that is a log and pieces. */
  lemma FileNext(c: Codec, base: seq<Byte>, kept: seq<Event>, parts: seq<seq<Byte>>, w: Write)
    requires w.written <= |Line(c, w.event)|
    ensures Whole(c, w) ==>
              Log(c, base, kept) + Flat([]) + Piece(c, w) == Log(c, base, kept + [w.event]) + Flat([])
    ensures Log(c, base, kept) + Flat(parts) + Piece(c, w) == Log(c, base, kept) + Flat(parts + [Piece(c, w)])
    ensures w.written == 0 ==> Log(c, base, kept) + Flat(parts) + Piece(c, w) == Log(c, base, kept) + Flat(parts)
    ensures w.written == |Line(c, w.event)| || w.written == 0 || Torn(c, w)
  {
    FlatLast(parts, Piece(c, w));
    assert (kept + [w.event])[..|kept|] == kept;
  }

  /** Without a joined line the file is the log of the successful appends and then
      pieces of one line. */
  lemma {:induction false} FileIsLog(o: Options, base: seq<Byte>, jobs: Jobs, writes: seq<Write>)
    requires CleanLines(o.codec) && Made(o, jobs, writes) && !Joins(o.codec, writes)
    ensures File(o.codec, base, writes) ==
            Log(o.codec, base, Kept(o.codec, writes)) + Flat(Pieces(o.codec, writes))
  {
    hide Made, Joins, AnyTorn, Live, Accepts, CleanLines, Starts;
    if writes == [] { return; }
    hide Pieces, Kept, File, Log, Flat;
    var c, n := o.codec, |writes| - 1;
    var before, w := writes[..n], writes[n];
    assert writes == before + [w];
    JoinsLast(c, before, w);
    OneMore(o, base, jobs, before, w);
    FileIsLog(o, base, jobs, before);
    PiecesStart(o, jobs, before);
    FileNext(c, base, Kept(c, before), Pieces(c, before), w);
  }

  /** The successful appends are a history of the store without the failed ones. */
  lemma {:induction false} KeptIsAppended(o: Options, jobs: Jobs, writes: seq<Write>)
    requires Made(o, jobs, writes)
    ensures Appended(o, jobs, Kept(o.codec, writes))
  {
    hide Made, Live, Log, Accepts;
    if writes == [] { return; }
    hide Kept, Appended;
    var n := |writes| - 1;
    var before, w := writes[..n], writes[n];
    assert writes == before + [w];
    OneMore(o, [], jobs, before, w);
    KeptIsAppended(o, jobs, before);
    if Whole(o.codec, w) {
      AppendOne(o, [], jobs, Kept(o.codec, before), w.event);
    }
  }

  /** A line that begins with pieces of failed appends is refused. */
  lemma JoinedLine(o: Options, log: seq<Byte>, parts: seq<seq<Byte>>, e: Event, more: seq<Byte>)
    requires CleanLines(o.codec) && PiecesDoNotDecode(o.codec) && WholeLines(log)
    requires parts != [] && (forall p | p in parts :: Starts(o.codec, p)) && NEWLINE !in Flat(parts)
    requires o.codec.encode(e).Some?
    ensures Replay(o, log + Flat(parts) + Line(o.codec, e) + more, map[]).None?
  {
    var encoded := o.codec.encode(e).value;
    var line := Flat(parts) + encoded;
    FlatLast(parts, encoded);
    assert Starts(o.codec, encoded);
    assert o.codec.decode(line).None?;
    hide Starts, Flat, PiecesDoNotDecode, CleanLines;
    assert log + Flat(parts) + Line(o.codec, e) + more == log + (line + [NEWLINE] + more);
    ReplayAppend(o, log, line + [NEWLINE] + more, map[]);
    FirstLine(line, more);
    assert (line + [NEWLINE] + more)[..|line|] == line;
  }

  /** Once a successful append stands after a torn one, no later append helps. */
  lemma {:induction false} JoinedIsRefused(o: Options, base: seq<Byte>, jobs: Jobs, writes: seq<Write>, more: seq<Byte>)
    requires CleanLines(o.codec) && PiecesDoNotDecode(o.codec) && WholeLines(base)
    requires Made(o, jobs, writes) && Joins(o.codec, writes)
    ensures Replay(o, File(o.codec, base, writes) + more, map[]).None?
    decreases |writes|
  {
    hide Made, Joins, AnyTorn, Pieces, Kept, File, Live, Accepts, CleanLines, PiecesDoNotDecode, Log, Flat,
         Starts, Replay, WholeLines;
    JoinsSome(o.codec, writes);
    var c, n := o.codec, |writes| - 1;
    var before, w := writes[..n], writes[n];
    assert writes == before + [w];
    JoinsLast(c, before, w);
    OneMore(o, base, jobs, before, w);
    assert File(c, base, writes) + more == File(c, base, before) + (Piece(c, w) + more);
    if Joins(c, before) {
      JoinedIsRefused(o, base, jobs, before, Piece(c, w) + more);
    } else {
      FileIsLog(o, base, jobs, before);
      PiecesStart(o, jobs, before);
      LogIsWholeLines(c, base, Kept(c, before));
      JoinedLine(o, Log(c, base, Kept(c, before)), Pieces(c, before), w.event, more);
    }
  }

  /** With writes that stop part of the way, the log replays if and only if no
      append succeeded after a torn one and the successful events survive a reload;
      it then gives the map the store had. */
  lemma TornAppends(o: Options, base: seq<Byte>, baseJobs: Jobs, writes: seq<Write>)
    requires ValidCodec(o.codec) && PiecesDoNotDecode(o.codec)
    requires WholeLines(base) && Replay(o, base, map[]) == Some(baseJobs)
    requires Made(o, baseJobs, writes)
    ensures Replay(o, File(o.codec, base, writes), map[]) ==
            if !Joins(o.codec, writes) && AllReloadable(o, Kept(o.codec, writes)) then
              Some(Reload(o.codec, baseJobs, Kept(o.codec, writes)))
            else None
  {
    var c := o.codec;
    if Joins(c, writes) {
      JoinedIsRefused(o, base, baseJobs, writes, []);
      assert File(c, base, writes) + [] == File(c, base, writes);
    } else {
      FileIsLog(o, base, baseJobs, writes);
      PiecesStart(o, baseJobs, writes);
      KeptIsAppended(o, baseJobs, writes);
      hide Made, Joins, AnyTorn, Accepts, Replay, Flat, Appended;
      LogIsWholeLines(c, base, Kept(c, writes));
      PartIgnored(o, Log(c, base, Kept(c, writes)), Flat(Pieces(c, writes)));
      ReplayRebuilds(o, base, baseJobs, Kept(c, writes));
    }
  }

  // ---- Whole writes whose sync failed ----

  function Subject(e: Event): string {
    if e.EnqueueEvent? then e.job.id else e.id
  }

  /** The one kind of event about a job that replay takes after the failed one: a
      reservation after a release or a failure. */
  predicate Continues(e: Event, f: Event) {
    f.ReserveEvent? && (e.ReleaseEvent? || e.FailEvent?)
  }

  predicate Others(events: seq<Event>, id: string) {
    forall e | e in events :: Subject(e) != id
  }

  /** The maps are the same but for one job. */
  ghost predicate SameBut(a: Jobs, b: Jobs, id: string) {
    forall other | other != id :: SameAt(a, b, other)
  }

  predicate SameAt(a: Jobs, b: Jobs, id: string) {
    (id in a <==> id in b) && (id in a ==> a[id] == b[id])
  }

  lemma OthersAgree(o: Options, a: Jobs, b: Jobs, id: string, e: Event)
    requires SameBut(a, b, id) && Subject(e) != id
    ensures Accepts(o, a, e) <==> Accepts(o, b, e)
    ensures SameBut(Effect(a, e), Effect(b, e), id)
    ensures SameAt(a, Effect(a, e), id) && SameAt(b, Effect(b, e), id)
  {
    assert SameAt(a, b, Subject(e));
    forall other | other != id
      ensures SameAt(Effect(a, e), Effect(b, e), other)
    {
      assert SameAt(a, b, other);
    }
  }

  lemma ReachesOne(jobs: Jobs, e: Event)
    ensures SameBut(jobs, Effect(jobs, e), Subject(e))
  {
  }

  lemma SameTwice(a: Jobs, b: Jobs, d: Jobs, id: string)
    requires SameAt(a, b, id) && SameAt(b, d, id)
    ensures SameAt(a, d, id)
  {
  }

  lemma LiveLast(jobs: Jobs, events: seq<Event>, e: Event)
    ensures Live(jobs, events + [e]) == Effect(Live(jobs, events), e)
  {
    assert (events + [e])[..|events|] == events;
  }

  /** The events the store appended, with the one in between that it thinks failed. */
  function Actual(events: seq<Event>, e: Event, between: seq<Event>): seq<Event> {
    events + [e] + between
  }

  /** What the file holds is a history of a store that the failed event did reach:
      it differs from the running one in that job only. */
  lemma {:induction false} ActualIsAppended(o: Options, jobs: Jobs, events: seq<Event>, e: Event, between: seq<Event>)
    requires Appended(o, jobs, events + between) && Others(between, Subject(e))
    requires o.codec.encode(e).Some? && Accepts(o, Live(jobs, events), e)
    ensures Appended(o, jobs, Actual(events, e, between))
    ensures SameBut(Live(jobs, events + between), Live(jobs, Actual(events, e, between)), Subject(e))
    ensures SameAt(Live(jobs, events), Live(jobs, events + between), Subject(e))
    ensures SameAt(Effect(Live(jobs, events), e), Live(jobs, Actual(events, e, between)), Subject(e))
    decreases |between|
  {
    hide Appended, Accepts, Effect, Subject, Live, Log;
    if between == [] {
      assert events + between == events && Actual(events, e, between) == events + [e];
      AppendOne(o, [], jobs, events, e);
      ReachesOne(Live(jobs, events), e);
      return;
    }
    var n := |between| - 1;
    var before, last := between[..n], between[n];
    assert events + between == (events + before) + [last];
    assert (events + between)[..|events + before|] == events + before;
    assert Actual(events, e, between) == Actual(events, e, before) + [last];
    hide SameBut, SameAt, Actual;
    Last(o, jobs, events + between);
    LiveLast(jobs, events + before, last);
    ActualIsAppended(o, jobs, events, e, before);
    var a, b := Live(jobs, events + before), Live(jobs, Actual(events, e, before));
    OthersAgree(o, a, b, Subject(e), last);
    SameTwice(Live(jobs, events), a, Effect(a, last), Subject(e));
    SameTwice(Effect(Live(jobs, events), e), b, Effect(b, last), Subject(e));
    AppendOne(o, [], jobs, Actual(events, e, before), last);
  }

  /** An operation that was answered with an error takes effect at the next start. */
  lemma UnsyncedTakesEffect(o: Options, base: seq<Byte>, baseJobs: Jobs, events: seq<Event>, e: Event,
      between: seq<Event>)
    requires ValidCodec(o.codec) && WholeLines(base) && Replay(o, base, map[]) == Some(baseJobs)
    requires Appended(o, baseJobs, events + between) && Others(between, Subject(e))
    requires o.codec.encode(e).Some? && Accepts(o, Live(baseJobs, events), e)
    ensures var actual := Actual(events, e, between);
            && Replay(o, Log(o.codec, base, actual), map[]) ==
               (if AllReloadable(o, actual) then Some(Reload(o.codec, baseJobs, actual)) else None)
            && SameBut(Live(baseJobs, events + between), Live(baseJobs, actual), Subject(e))
            && (Subject(e) in Live(baseJobs, actual) <==> !e.CompleteEvent? && !e.ForgetEvent?)
  {
    ActualIsAppended(o, baseJobs, events, e, between);
    ReplayRebuilds(o, base, baseJobs, Actual(events, e, between));
  }

  /** Which next event about the job replay applies. */
  lemma AppliesNext(o: Options, was: Jobs, jobs: Jobs, actual: Jobs, e: Event, f: Event)
    requires Subject(e) == Subject(f) && Accepts(o, was, e) && Accepts(o, jobs, f)
    requires Subject(e) in was && was[Subject(e)].token != NO_TOKEN ==> was[Subject(e)].failedAt == ZERO_TIME
    requires e.ReserveEvent? ==> !Holds(was, e.id, e.token)
    requires SameAt(was, jobs, Subject(e)) && SameAt(Effect(was, e), actual, Subject(e))
    ensures forall enqueued, worded ::
      ApplyEvent(o, Reloaded(o.codec, actual, enqueued, worded), Normal(o.codec, f)).Some? <==>
      Continues(e, f) && f.reservedUntil != ZERO_TIME
  {
  }

  lemma FreeOrUnfailed(s: State, e: Event)
    requires Inv(s) && (e.ReserveEvent? ==> e.token !in s.issued)
    ensures Subject(e) in s.jobs && s.jobs[Subject(e)].token != NO_TOKEN ==>
              s.jobs[Subject(e)].failedAt == ZERO_TIME
    ensures e.ReserveEvent? ==> !Holds(s.jobs, e.id, e.token)
  {
  }

  lemma LastReloadable(o: Options, events: seq<Event>, f: Event)
    ensures AllReloadable(o, events + [f]) <==> AllReloadable(o, events) && Reloadable(o, f)
  {
    assert forall i | 0 <= i < |events| :: (events + [f])[i] == events[i];
    assert (events + [f])[|events|] == f;
  }

  lemma LogNext(c: Codec, base: seq<Byte>, events: seq<Event>, e: Event)
    ensures Log(c, base, events + [e]) == Log(c, base, events) + Line(c, e)
  {
    assert (events + [e])[..|events|] == events;
  }

  lemma RefusedLine(o: Options, line: seq<Byte>, jobs: Jobs, more: seq<Byte>)
    requires NEWLINE !in line && ReplayLine(o, line, jobs).None?
    ensures Replay(o, line + [NEWLINE] + more, jobs).None?
  {
    FirstLine(line, more);
    assert (line + [NEWLINE] + more)[..|line|] == line;
  }

  lemma AppliedLine(o: Options, line: seq<Byte>, jobs: Jobs)
    requires NEWLINE !in line
    ensures Replay(o, line + [NEWLINE] + [], jobs) == ReplayLine(o, line, jobs)
  {
    assert line + [NEWLINE] + [] == line + [NEWLINE];
    ReplayOneLine(o, line, jobs);
  }

  /** One more event after a log: replay takes it when it applies and fits, and
      one that does not ends every replay. */
  lemma OneMoreEvent(o: Options, base: seq<Byte>, events: seq<Event>, f: Event, more: seq<Byte>)
    requires ValidCodec(o.codec) && WholeLines(base) && o.codec.encode(f).Some? && PlainIds(o.codec, f)
    ensures var jobs := Replay(o, Log(o.codec, base, events), map[]);
            var taken := jobs.Some? && ApplyEvent(o, jobs.value, Normal(o.codec, f)).Some?
                         && |o.codec.encode(f).value| + 1 <= o.maxPayloadBytes + EVENT_OVERHEAD;
            && (!taken ==> Replay(o, Log(o.codec, base, events + [f]) + more, map[]).None?)
            && (taken ==> Replay(o, Log(o.codec, base, events + [f]) + [], map[]).Some?)
  {
    hide Log, ApplyEvent, Replay, PlainIds, Normal, WholeLines;
    var c, log := o.codec, Log(o.codec, base, events);
    var line := c.encode(f).value;
    assert NEWLINE !in line && c.decode(line) == Some(Normal(c, f));
    hide ValidCodec, CleanLines;
    LogNext(c, base, events, f);
    LogIsWholeLines(c, base, events);
    assert log + Line(c, f) + more == log + (line + [NEWLINE] + more);
    assert log + Line(c, f) + [] == log + (line + [NEWLINE] + []);
    ReplayAppend(o, log, line + [NEWLINE] + more, map[]);
    ReplayAppend(o, log, line + [NEWLINE] + [], map[]);
    if Replay(o, log, map[]).Some? {
      var jobs := Replay(o, log, map[]).value;
      AppliedLine(o, line, jobs);
      if ReplayLine(o, line, jobs).None? {
        RefusedLine(o, line, jobs, more);
      }
    }
  }

  lemma AppendedIsPlain(o: Options, base: seq<Byte>, jobs: Jobs, events: seq<Event>, f: Event)
    requires ValidCodec(o.codec) && Replay(o, base, map[]) == Some(jobs)
    requires Appended(o, jobs, events) && Accepts(o, Live(jobs, events), f)
    ensures PlainIds(o.codec, f)
  {
    ReplayIsSound(o, base, map[]);
    LiveIsSound(o, jobs, events);
    AcceptedIsPlain(o, Live(jobs, events), f);
  }

  /** After an operation that was answered with an error though its event reached
      the log, and whatever was appended about other jobs, the log with the next
      event about the job can be read if and only if that event reserves it after a
      release or a failure: repeating the operation makes the log unreadable for
      good. The store was in a state of the lease protocol, and drew a token that
      was new to it. */
  lemma NextAboutJob(o: Options, base: seq<Byte>, baseJobs: Jobs, events: seq<Event>, s: State, e: Event,
      between: seq<Event>, f: Event, more: seq<Byte>)
    requires Inv(s) && s.jobs == Live(baseJobs, events) && (e.ReserveEvent? ==> e.token !in s.issued)
    requires ValidCodec(o.codec) && WholeLines(base) && Replay(o, base, map[]) == Some(baseJobs)
    requires Appended(o, baseJobs, events + between + [f]) && Others(between, Subject(e))
    requires o.codec.encode(e).Some? && Accepts(o, Live(baseJobs, events), e) && Subject(e) == Subject(f)
    ensures var log := Log(o.codec, base, Actual(events, e, between) + [f]);
            && (Replay(o, log, map[]).Some? <==>
                  AllReloadable(o, Actual(events, e, between) + [f]) && Continues(e, f))
            && (Replay(o, log, map[]).None? ==> Replay(o, log + more, map[]).None?)
  {
    hide Accepts, Log, Live, Appended, Effect, SameBut, SameAt, Replay, Subject, Others, Reloaded,
         Actual, WholeLines, ApplyEvent, ValidCodec, AllReloadable, PlainIds, Holds, Inv, HoldersKnown;
    FreeOrUnfailed(s, e);
    var jobs, actual := Live(baseJobs, events + between), Actual(events, e, between);
    var all := events + between + [f];
    assert all[..|all| - 1] == events + between;
    assert (actual + [f])[..|actual|] == actual;
    Last(o, baseJobs, all);
    LastReloadable(o, actual, f);
    UnsyncedTakesEffect(o, base, baseJobs, events, e, between);
    ActualIsAppended(o, baseJobs, events, e, between);
    AppliesNext(o, Live(baseJobs, events), jobs, Live(baseJobs, actual), e, f);
    AppendedIsPlain(o, base, baseJobs, events + between, f);
    OneMoreEvent(o, base, actual, f, more);
    OneMoreEvent(o, base, actual, f, []);
    var log := Log(o.codec, base, actual + [f]);
    assert log + [] == log;
  }
}
