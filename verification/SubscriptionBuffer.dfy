/** The replay buffer behind a subscription: cursors, eviction, and readers that
    follow cursors while others publish. */
module SubscriptionBuffers {
  import opened Wrappers
  import opened Text

  const MAX_UINT64 := 0xffff_ffff_ffff_ffff

  // ---- Cursors ----

  function Cursor(epoch: string, sequence: nat): string {
    epoch + ":" + Decimal(sequence)
  }

  /** strconv.ParseUint, base ten, 64 bits. */
  function ParseUint(s: string): Option<nat> {
    if s == "" || !AllDigits(s) || DigitsValue(s) > MAX_UINT64 then None else Some(DigitsValue(s))
  }

  /** strings.Cut: what comes before and after the first separator. */
  function Cut(s: string, sep: char): Option<(string, string)> {
    if s == "" then None
    else if s[0] == sep then Some(("", s[1..]))
    else
      match Cut(s[1..], sep)
      case None => None
      case Some(parts) => Some(([s[0]] + parts.0, parts.1))
  }

  datatype Position = Malformed | Foreign | At(sequence: nat)

  function ParseCursor(epoch: string, text: string): Position {
    match Cut(text, ':')
    case None => Malformed
    case Some(parts) =>
      match ParseUint(parts.1)
      case None => Malformed
      case Some(n) =>
        if Decimal(n) != parts.1 then Malformed else if parts.0 != epoch then Foreign else At(n)
  }

  lemma {:induction false} CutJoins(a: string, sep: char, b: string)
    requires sep !in a
    ensures Cut(a + [sep] + b, sep) == Some((a, b))
  {
    if a == "" {
      assert (a + [sep] + b)[1..] == b;
    } else {
      assert (a + [sep] + b)[1..] == a[1..] + [sep] + b;
      CutJoins(a[1..], sep, b);
      assert a == [a[0]] + a[1..];
    }
  }

  lemma {:induction false} CutParts(s: string, sep: char)
    requires Cut(s, sep).Some?
    ensures s == Cut(s, sep).value.0 + [sep] + Cut(s, sep).value.1
    ensures sep !in Cut(s, sep).value.0
  {
    if s[0] != sep {
      CutParts(s[1..], sep);
    }
    assert s == [s[0]] + s[1..];
  }

  /** A cursor reads back as its position, and nothing else reads as it. */
  lemma CursorRoundTrip(epoch: string, sequence: nat, text: string)
    requires ':' !in epoch && sequence <= MAX_UINT64
    ensures ParseCursor(epoch, text) == At(sequence) <==> text == Cursor(epoch, sequence)
  {
    CutJoins(epoch, ':', Decimal(sequence));
    DecimalValue(sequence);
    if ParseCursor(epoch, text) == At(sequence) {
      CutParts(text, ':');
    }
  }

  /** The text is the cursor of some buffer, behind its n-th event. */
  ghost predicate IsCursor(text: string, epoch: string, n: nat) {
    ':' !in epoch && n <= MAX_UINT64 && text == Cursor(epoch, n)
  }

  /** Every text is no cursor at all, or that of one buffer and one event. */
  lemma WhoseCursor(epoch: string, text: string)
    requires ':' !in epoch
    ensures ParseCursor(epoch, text).Malformed? <==> forall e, n: nat :: !IsCursor(text, e, n)
    ensures ParseCursor(epoch, text).Foreign? <==> exists e, n: nat :: e != epoch && IsCursor(text, e, n)
    ensures forall n: nat :: ParseCursor(epoch, text) == At(n) <==> IsCursor(text, epoch, n)
  {
    forall e, n: nat | ':' !in e && n <= MAX_UINT64
      ensures ParseCursor(e, text) == At(n) <==> IsCursor(text, e, n)
    {
      CursorRoundTrip(e, n, text);
    }
    if !ParseCursor(epoch, text).Malformed? {
      CutParts(text, ':');
      var e, n := Cut(text, ':').value.0, ParseUint(Cut(text, ':').value.1).value;
      assert ParseCursor(e, text) == At(n);
      assert IsCursor(text, e, n);
      forall other, m: nat | IsCursor(text, other, m)
        ensures other == e && m == n
      {
        assert ParseCursor(other, text) == At(m);
      }
    }
  }

  // ---- What a reader may see, from the whole published history ----

  datatype Look<T> = Item(sequence: nat, value: T) | Invalid | Expired | EndOfStream | Wait

  /** The number of the oldest event that is still retained. */
  function Oldest(published: nat, capacity: nat): nat {
    if published <= capacity then 1 else published - capacity + 1
  }

  /** The event after a position, if it is retained; None is the empty cursor,
      which starts at the oldest retained event. */
  function LookAfter<T>(published: seq<T>, capacity: nat, closed: bool, after: Option<nat>): Look<T>
    requires capacity >= 1
  {
    var oldest := Oldest(|published|, capacity);
    if after.Some? && after.value > |published| then Invalid
    else if after.Some? && after.value + 1 < oldest then Expired
    else
      var wanted := if after.Some? then after.value + 1 else oldest;
      if wanted <= |published| then Item(wanted, published[wanted - 1])
      else if closed then EndOfStream
      else Wait
  }

  // ---- The buffer ----

  datatype Record<T> = Record(sequence: nat, value: T)

  datatype BufferError = EncodingFailed | TooLarge | BufferClosed | Exhausted

  datatype NextResult<T> =
    | Event(cursor: string, value: T)
    | CursorInvalid
    | CursorExpired
    | Ended
    | MustWait

  /** What Next answers for a look at the history. */
  function Answer<T>(epoch: string, look: Look<T>): NextResult<T> {
    match look
    case Item(sequence, value) => Event(Cursor(epoch, sequence), value)
    case Invalid => CursorInvalid
    case Expired => CursorExpired
    case EndOfStream => Ended
    case Wait => MustWait
  }

  class SubscriptionBuffer<T> {
    const epoch: string
    const capacity: nat
    const maxEventBytes: nat
    var sequence: nat
    var records: seq<Record<T>>
    var closed: bool
    /** Every value ever published. */
    ghost var published: seq<T>

    /** The records are the last values, numbered without a gap. */
    ghost predicate Valid()
      reads this
    {
      && capacity >= 1 && ':' !in epoch
      && sequence == |published| <= MAX_UINT64
      && |records| == sequence + 1 - Oldest(sequence, capacity)
      && forall i | 0 <= i < |records| ::
           var n := Oldest(sequence, capacity) + i;
           records[i].sequence == n && records[i].value == published[n - 1]
    }

    constructor (epoch: string, capacity: nat, maxEventBytes: nat)
      requires capacity >= 1 && ':' !in epoch
      ensures Valid() && published == [] && !closed
      ensures this.epoch == epoch && this.capacity == capacity && this.maxEventBytes == maxEventBytes
    {
      this.epoch, this.capacity, this.maxEventBytes := epoch, capacity, maxEventBytes;
      sequence, records, closed, published := 0, [], false, [];
    }

    /** The value as encoded, with its length, or no encoding. */
    method Publish(value: Option<T>, bytes: nat) returns (r: Result<string, BufferError>)
      requires Valid()
      modifies this
      ensures Valid() && closed == old(closed)
      ensures r.Ok? <==> value.Some? && bytes <= maxEventBytes && !closed && |old(published)| < MAX_UINT64
      ensures r.Ok? ==> published == old(published) + [value.value] && r.value == Cursor(epoch, |published|)
      ensures r.Err? ==> published == old(published) && records == old(records) && sequence == old(sequence)
    {
      if value.None? { return Err(EncodingFailed); }
      if bytes > maxEventBytes { return Err(TooLarge); }
      if closed { return Err(BufferClosed); }
      if sequence == MAX_UINT64 { return Err(Exhausted); }
      sequence := sequence + 1;
      if |records| == capacity {
        records := records[1..] + [Record(sequence, value.value)];
      } else {
        records := records + [Record(sequence, value.value)];
      }
      published := published + [value.value];
      r := Ok(Cursor(epoch, sequence));
    }

    method CurrentCursor() returns (cursor: string)
      requires Valid()
      ensures cursor == Cursor(epoch, |published|)
    {
      cursor := Cursor(epoch, sequence);
    }

    /** One pass of Next under the lock. */
    method NextAfter(after: Option<nat>) returns (r: NextResult<T>)
      requires Valid()
      ensures r == Answer(epoch, LookAfter(published, capacity, closed, after))
    {
      if after.Some? && (after.value > sequence || (records != [] && after.value < records[0].sequence - 1)) {
        return if after.value > sequence then CursorInvalid else CursorExpired;
      }
      for i := 0 to |records|
        invariant after.Some? ==> forall k | 0 <= k < i :: records[k].sequence <= after.value
        invariant after.None? ==> i == 0
      {
        if after.None? || records[i].sequence > after.value {
          assert i > 0 ==> records[i - 1].sequence + 1 == records[i].sequence;
          return Event(Cursor(epoch, records[i].sequence), records[i].value);
        }
      }
      r := if closed then Ended else MustWait;
    }

    /** Next up to the point where it would wait. */
    method Next(after: string) returns (r: NextResult<T>)
      requires Valid()
      ensures r == MustWait || r == Ended ==>
                (after == "" && published == []) || IsCursor(after, epoch, |published|)
      ensures r == MustWait ==> !closed
      ensures r == Ended ==> closed
      ensures r.Event? ==>
                exists n | 0 <= n < |published| :: r == Event(Cursor(epoch, n + 1), published[n])
                  && if after == "" then n == (if |published| <= capacity then 0 else |published| - capacity)
                     else IsCursor(after, epoch, n)
      ensures r.CursorInvalid? <==> && after != ""
                                    && ((forall e, n: nat :: !IsCursor(after, e, n))
                                        || exists n: nat :: n > |published| && IsCursor(after, epoch, n))
      ensures r.CursorExpired? <==> && after != ""
                                    && ((exists e, n: nat :: e != epoch && IsCursor(after, e, n))
                                        || exists n: nat :: n + capacity < |published| && IsCursor(after, epoch, n))
      ensures after == "" ==> r == Answer(epoch, LookAfter(published, capacity, closed, None))
      ensures forall n: nat | IsCursor(after, epoch, n) ::
                r == Answer(epoch, LookAfter(published, capacity, closed, Some(n)))
    {
      WhoseCursor(epoch, after);
      hide IsCursor, ParseCursor, Cursor;
      if after == "" {
        r := NextAfter(None);
        return;
      }
      match ParseCursor(epoch, after)
      case Malformed => r := CursorInvalid;
      case Foreign => r := CursorExpired;
      case At(n) => r := NextAfter(Some(n));
    }

    method Close()
      requires Valid()
      modifies this`closed
      ensures Valid() && closed
    {
      closed := true;
    }
  }

  // ---- The reading loop, while others publish ----

  const MAX_CURSOR_BYTES := 4096

  datatype Ending = Drained | Lost | Refused | Interrupted

  datatype Other<T> = Publishes(value: T) | Closes

  /** One read of the loop: what the others do before it, whether a read that has
      to wait times out, whether the stream's context has ended when it returns,
      and whether the frame can be sent. */
  datatype Round<T> = Round(others: seq<Other<T>>, timesOut: bool, contextDone: bool, sendFails: bool)

  method OthersAct<T>(buffer: SubscriptionBuffer<T>, others: seq<Other<T>>)
    requires buffer.Valid()
    modifies buffer
    ensures buffer.Valid() && old(buffer.published) <= buffer.published
  {
    for i := 0 to |others|
      invariant buffer.Valid() && old(buffer.published) <= buffer.published
    {
      match others[i]
      case Publishes(value) => var _ := buffer.Publish(Some(value), 0);
      case Closes => buffer.Close();
    }
  }

  ghost predicate IsPosition(epoch: string, text: string, n: nat) {
    n <= MAX_UINT64 && text == Cursor(epoch, n)
  }

  /** The empty cursor, or one behind an event of this buffer. */
  ghost predicate IsReadable(epoch: string, text: string) {
    text == "" || exists n: nat :: IsPosition(epoch, text, n)
  }

  ghost predicate ShortCursors(epoch: string) {
    forall n: nat | n <= MAX_UINT64 :: |Cursor(epoch, n)| <= MAX_CURSOR_BYTES
  }

  /** The frames sent are the events after the start, one by one, each with its
      cursor. */
  ghost predicate SentFrom<T>(epoch: string, published: seq<T>, start: nat, sent: seq<(string, T)>) {
    && (sent != [] ==> start + |sent| <= |published|)
    && forall i | 0 <= i < |sent| :: sent[i] == (Cursor(epoch, start + i + 1), published[start + i])
  }

  /** Each heartbeat repeats the cursor of the frame before it. */
  ghost predicate Repeats<T>(heartbeats: seq<(nat, string)>, after: string, sent: seq<(string, T)>) {
    forall h | h in heartbeats :: h.0 <= |sent| && h.1 == if h.0 == 0 then after else sent[h.0 - 1].0
  }

  /** Where the loop reads: at the given cursor, or behind the last frame. */
  ghost predicate Reading<T>(epoch: string, after: string, start: nat, sent: seq<(string, T)>, cursor: string) {
    && (sent == [] ==> cursor == after && forall n: nat | IsPosition(epoch, after, n) :: n == start)
    && (sent != [] ==>
          IsReadable(epoch, after) && IsPosition(epoch, cursor, start + |sent|) && cursor == sent[|sent| - 1].0)
  }

  lemma OnePosition(epoch: string, text: string, m: nat, n: nat)
    requires ':' !in epoch && IsPosition(epoch, text, m) && IsPosition(epoch, text, n)
    ensures m == n && text != ""
  {
    CursorRoundTrip(epoch, m, text);
    CursorRoundTrip(epoch, n, text);
  }

  ghost method StartOf(epoch: string, after: string) returns (start: nat)
    requires ':' !in epoch
    ensures forall n: nat | IsPosition(epoch, after, n) :: n == start
    ensures after == "" ==> start == 0
  {
    start := 0;
    if n: nat :| IsPosition(epoch, after, n) {
      start := n;
    }
    forall n: nat | IsPosition(epoch, after, n)
      ensures n == start
    {
      OnePosition(epoch, after, start, n);
    }
  }

  lemma FirstAnswer<T>(epoch: string, published: seq<T>, capacity: nat, closed: bool, r: NextResult<T>)
    requires capacity >= 1 && r == Answer(epoch, LookAfter(published, capacity, closed, None))
    ensures var n := Oldest(|published|, capacity) - 1;
            r.Event? ==> n < |published| && r == Event(Cursor(epoch, n + 1), published[n])
    ensures r.Ended? ==> closed && published == []
    ensures !r.CursorExpired? && !r.CursorInvalid?
  {
  }

  lemma NextAnswer<T>(epoch: string, published: seq<T>, capacity: nat, closed: bool, n: nat, r: NextResult<T>)
    requires capacity >= 1 && r == Answer(epoch, LookAfter(published, capacity, closed, Some(n)))
    ensures r.Event? ==> n < |published| && r == Event(Cursor(epoch, n + 1), published[n])
    ensures r.Ended? ==> closed && n == |published|
    ensures r.CursorExpired? ==> n + 1 < Oldest(|published|, capacity)
    ensures r.CursorInvalid? ==> n > |published|
  {
  }

  /** What one read gives a reader that has seen the events from its start on. */
  ghost predicate ReadGives<T>(epoch: string, published: seq<T>, capacity: nat, closed: bool, after: string, start: nat,
                               seen: nat, r: NextResult<T>)
  {
    match r
    case Event(cursor, value) =>
      IsReadable(epoch, after) && start + seen < |published|
      && cursor == Cursor(epoch, start + seen + 1) && value == published[start + seen]
    case Ended => IsReadable(epoch, after) && closed && start + seen == |published|
    case CursorExpired => IsReadable(epoch, after) ==> start + seen + 1 < Oldest(|published|, capacity)
    case CursorInvalid => seen == 0 && after != "" && forall n: nat | IsPosition(epoch, after, n) :: n > |published|
    case MustWait => IsReadable(epoch, after)
  }

  /** One read, with the number the reader counts from: the empty cursor starts at
      the oldest event that is retained. */
  method ReadNext<T>(buffer: SubscriptionBuffer<T>, after: string, ghost start: nat, sent: seq<(string, T)>,
      cursor: string)
    returns (r: NextResult<T>, ghost from: nat)
    requires buffer.Valid() && Reading(buffer.epoch, after, start, sent, cursor)
    requires SentFrom(buffer.epoch, buffer.published, start, sent) && (after == "" && sent == [] ==> start == 0)
    ensures from == start || (after == "" && sent == [] && r.Event?)
    ensures ReadGives(buffer.epoch, buffer.published, buffer.capacity, buffer.closed, after, from, |sent|, r)
  {
    hide LookAfter, Answer, Cursor;
    r := buffer.Next(cursor);
    from := start;
    if cursor == "" {
      if sent != [] { OnePosition(buffer.epoch, cursor, start + |sent|, start + |sent|); }
      FirstAnswer(buffer.epoch, buffer.published, buffer.capacity, buffer.closed, r);
      if r.Event? { from := Oldest(|buffer.published|, buffer.capacity) - 1; }
    } else if n: nat :| IsPosition(buffer.epoch, cursor, n) {
      NextAnswer(buffer.epoch, buffer.published, buffer.capacity, buffer.closed, n, r);
      if sent != [] { OnePosition(buffer.epoch, cursor, n, start + |sent|); }
    } else {
      forall n: nat | n <= MAX_UINT64
        ensures cursor != Cursor(buffer.epoch, n)
      {
        assert !IsPosition(buffer.epoch, cursor, n);
      }
    }
  }

  /** What the subscriber got: the events after its cursor, one by one, and
      heartbeats in between. */
  ghost predicate Delivered<T>(epoch: string, published: seq<T>, after: string, start: nat, sent: seq<(string, T)>,
                               heartbeats: seq<(nat, string)>)
  {
    && SentFrom(epoch, published, start, sent) && Repeats(heartbeats, after, sent)
    && (forall n: nat | IsPosition(epoch, after, n) :: n == start)
    && (sent != [] || heartbeats != [] ==> IsReadable(epoch, after))
  }

  /** Why it ended: everything was seen, the next event was evicted, or the cursor
      was never one to read from. */
  ghost predicate EndsAs<T>(epoch: string, published: seq<T>, capacity: nat, closed: bool, after: string, start: nat,
                            sent: seq<(string, T)>, ending: Ending)
  {
    match ending
    case Drained => IsReadable(epoch, after) && closed && start + |sent| == |published|
    case Lost => IsReadable(epoch, after) ==> start + |sent| + 1 < Oldest(|published|, capacity)
    case Refused =>
      sent == []
      && (|after| > MAX_CURSOR_BYTES || forall n: nat | IsPosition(epoch, after, n) :: n > |published|)
    case Interrupted => true
  }

  lemma MorePublished<T>(epoch: string, before: seq<T>, published: seq<T>, after: string, start: nat,
                         sent: seq<(string, T)>, heartbeats: seq<(nat, string)>)
    requires Delivered(epoch, before, after, start, sent, heartbeats) && before <= published
    ensures Delivered(epoch, published, after, start, sent, heartbeats)
  {
  }

  lemma HeartbeatDelivered<T>(epoch: string, published: seq<T>, after: string, start: nat, sent: seq<(string, T)>,
                              heartbeats: seq<(nat, string)>, cursor: string)
    requires Delivered(epoch, published, after, start, sent, heartbeats) && Reading(epoch, after, start, sent, cursor)
    requires IsReadable(epoch, after)
    ensures Delivered(epoch, published, after, start, sent, heartbeats + [(|sent|, cursor)])
  {
  }

  /** A cursor the buffer gives out is never the one that was read from. */
  lemma CursorMoves<T>(epoch: string, after: string, start: nat, sent: seq<(string, T)>, cursor: string, from: nat,
                       next: string)
    requires ':' !in epoch && Reading(epoch, after, start, sent, cursor) && IsPosition(epoch, next, from + |sent| + 1)
    requires from == start || (after == "" && sent == [])
    ensures next != cursor && next != ""
  {
    OnePosition(epoch, next, from + |sent| + 1, from + |sent| + 1);
    if next == cursor && sent != [] {
      OnePosition(epoch, cursor, start + |sent|, from + |sent| + 1);
    }
  }

  lemma EventDelivered<T>(epoch: string, published: seq<T>, after: string, start: nat, sent: seq<(string, T)>,
                          heartbeats: seq<(nat, string)>, cursor: string, from: nat, next: string)
    requires ':' !in epoch && |published| <= MAX_UINT64
    requires Delivered(epoch, published, after, start, sent, heartbeats) && Reading(epoch, after, start, sent, cursor)
    requires from == start || (after == "" && sent == [])
    requires IsReadable(epoch, after) && from + |sent| < |published| && next == Cursor(epoch, from + |sent| + 1)
    ensures var more := sent + [(next, published[from + |sent|])];
            Delivered(epoch, published, after, from, more, heartbeats) && Reading(epoch, after, from, more, next)
    ensures next != cursor && next != ""
  {
    hide Cursor;
    CursorMoves(epoch, after, start, sent, cursor, from, next);
    if after == "" {
      forall n: nat
        ensures !IsPosition(epoch, after, n)
      {
        if IsPosition(epoch, after, n) {
          OnePosition(epoch, after, n, n);
        }
      }
    }
  }

  /** The read of one round, and what it leads to. */
  method ReadOnce<T>(buffer: SubscriptionBuffer<T>, after: string, ghost start: nat, sent: seq<(string, T)>,
                     ghost heartbeats: seq<(nat, string)>, cursor: string)
    returns (r: NextResult<T>, ghost from: nat)
    requires buffer.Valid() && ShortCursors(buffer.epoch) && (after == "" && sent == [] ==> start == 0)
    requires Delivered(buffer.epoch, buffer.published, after, start, sent, heartbeats)
    requires Reading(buffer.epoch, after, start, sent, cursor)
    ensures r.MustWait? ==> IsReadable(buffer.epoch, after)
    ensures r.Event? ==>
              && r.cursor != "" && r.cursor != cursor && |r.cursor| <= MAX_CURSOR_BYTES
              && Delivered(buffer.epoch, buffer.published, after, from, sent + [(r.cursor, r.value)], heartbeats)
              && Reading(buffer.epoch, after, from, sent + [(r.cursor, r.value)], r.cursor)
    ensures !r.Event? && !r.MustWait? ==>
              var ending := if r.Ended? then Drained else if r.CursorExpired? then Lost else Refused;
              EndsAs(buffer.epoch, buffer.published, buffer.capacity, buffer.closed, after, start, sent, ending)
  {
    hide Oldest, Cursor, IsPosition, IsReadable;
    r, from := ReadNext(buffer, after, start, sent, cursor);
    if r.Event? {
      EventDelivered(buffer.epoch, buffer.published, after, start, sent, heartbeats, cursor, from, r.cursor);
    }
  }

  /** The reading loop of a subscription: others publish and close between the
      reads, a read that times out sends a heartbeat, and each event is sent with
      its cursor, which is read from next. */
  method ProduceSubscription<T>(buffer: SubscriptionBuffer<T>, after: string, rounds: seq<Round<T>>)
    returns (sent: seq<(string, T)>, heartbeats: seq<(nat, string)>, ending: Option<Ending>, ghost start: nat)
    requires buffer.Valid() && ShortCursors(buffer.epoch)
    modifies buffer
    ensures buffer.Valid() && old(buffer.published) <= buffer.published
    ensures Delivered(buffer.epoch, buffer.published, after, start, sent, heartbeats)
    ensures ending.Some? ==>
              EndsAs(buffer.epoch, buffer.published, buffer.capacity, buffer.closed, after, start, sent, ending.value)
    ensures ending == Some(Interrupted) ==> exists k | 0 <= k < |rounds| :: rounds[k].contextDone || rounds[k].sendFails
  {
    sent, heartbeats, ending := [], [], None;
    start := StartOf(buffer.epoch, after);
    if |after| > MAX_CURSOR_BYTES { return sent, heartbeats, Some(Refused), start; }
    var cursor := after;
    for i := 0 to |rounds|
      invariant buffer.Valid() && old(buffer.published) <= buffer.published && ending.None?
      invariant Delivered(buffer.epoch, buffer.published, after, start, sent, heartbeats)
      invariant Reading(buffer.epoch, after, start, sent, cursor) && (after == "" && sent == [] ==> start == 0)
    {
      hide Oldest, Cursor, IsPosition, IsReadable, Delivered, Reading;
      ghost var before := buffer.published;
      OthersAct(buffer, rounds[i].others);
      MorePublished(buffer.epoch, before, buffer.published, after, start, sent, heartbeats);
      var next, from := ReadOnce(buffer, after, start, sent, heartbeats, cursor);
      if rounds[i].contextDone { return sent, heartbeats, Some(Interrupted), start; }
      match next
      case Ended => return sent, heartbeats, Some(Drained), start;
      case CursorInvalid => return sent, heartbeats, Some(Refused), start;
      case CursorExpired => return sent, heartbeats, Some(Lost), start;
      case MustWait =>
        if rounds[i].timesOut {
          if rounds[i].sendFails { return sent, heartbeats, Some(Interrupted), start; }
          HeartbeatDelivered(buffer.epoch, buffer.published, after, start, sent, heartbeats, cursor);
          heartbeats := heartbeats + [(|sent|, cursor)];
        }
      case Event(advanced, value) =>
        if advanced == "" || advanced == cursor || |advanced| > MAX_CURSOR_BYTES {
          return sent, heartbeats, Some(Refused), start;
        }
        if rounds[i].sendFails { return sent, heartbeats, Some(Interrupted), start; }
        start, sent, cursor := from, sent + [(advanced, value)], advanced;
    }
  }

  // ---- A reader that follows its cursor ----

  datatype Frame<T> = DataFrame(sequence: nat, value: T) | Heartbeat(cursor: Option<nat>)

  /** The buffer with one subscription reading it. The reader counts from the
      position after which it read its first event. */
  datatype Follow<T> = Follow(
    published: seq<T>, closed: bool, cursor: Option<nat>, start: nat, frames: seq<Frame<T>>, ending: Option<Ending>)

  datatype Action<T> = Publish(value: T) | CloseBuffer | Read

  predicate CanAct<T>(f: Follow<T>, a: Action<T>) {
    match a
    case Publish(_) => !f.closed && |f.published| < MAX_UINT64
    case CloseBuffer => true
    case Read => f.ending.None?
  }

  /** ProduceSubscription: data frames advance the cursor, a read that times out
      repeats it, and every other answer ends the subscription. */
  function Act<T>(f: Follow<T>, capacity: nat, a: Action<T>): Follow<T>
    requires capacity >= 1 && CanAct(f, a)
  {
    match a
    case Publish(value) => f.(published := f.published + [value])
    case CloseBuffer => f.(closed := true)
    case Read =>
      match LookAfter(f.published, capacity, f.closed, f.cursor)
      case Item(sequence, value) =>
        f.(cursor := Some(sequence), start := if f.cursor.Some? then f.start else sequence - 1,
           frames := f.frames + [DataFrame(sequence, value)])
      case Wait => f.(frames := f.frames + [Heartbeat(f.cursor)])
      case EndOfStream => f.(ending := Some(Drained))
      case Expired => f.(ending := Some(Lost))
      case Invalid => f.(ending := Some(Refused))
  }

  function DataOf<T>(frames: seq<Frame<T>>): seq<Frame<T>> {
    if frames == [] then []
    else
      var last := frames[|frames| - 1];
      DataOf(frames[..|frames| - 1]) + if last.DataFrame? then [last] else []
  }

  lemma DataOfAppend<T>(frames: seq<Frame<T>>, frame: Frame<T>)
    ensures DataOf(frames + [frame]) == DataOf(frames) + if frame.DataFrame? then [frame] else []
  {
    assert (frames + [frame])[..|frames|] == frames;
  }

  /** The data frames are the events after the start, one by one. */
  ghost predicate Consecutive<T>(published: seq<T>, start: nat, data: seq<Frame<T>>) {
    && start + |data| <= |published|
    && forall i | 0 <= i < |data| :: data[i] == DataFrame(start + i + 1, published[start + i])
  }

  lemma OneMoreFrame<T>(published: seq<T>, start: nat, data: seq<Frame<T>>)
    requires (data == [] || Consecutive(published, start, data)) && start + |data| < |published|
    ensures Consecutive(published, start, data + [DataFrame(start + |data| + 1, published[start + |data|])])
  {
  }

  /** And the cursor is at the last of them. */
  ghost predicate Following<T>(f: Follow<T>) {
    var data := DataOf(f.frames);
    && (f.cursor.None? ==> data == [])
    && (f.cursor.Some? ==> f.cursor.value == f.start + |data|)
    && (data != [] ==> Consecutive(f.published, f.start, data))
    && (f.ending == Some(Drained) ==>
          f.closed && (if f.cursor.Some? then f.cursor.value == |f.published| else f.published == []))
  }

  lemma ItemKeepsFollowing<T>(f: Follow<T>, capacity: nat)
    requires capacity >= 1 && Following(f) && CanAct(f, Action.Read)
    requires LookAfter(f.published, capacity, f.closed, f.cursor).Item?
    ensures Following(Act(f, capacity, Action.Read))
  {
    var look := LookAfter(f.published, capacity, f.closed, f.cursor);
    var n := Act(f, capacity, Action.Read);
    var data := DataOf(f.frames);
    DataOfAppend(f.frames, DataFrame(look.sequence, look.value));
    OneMoreFrame(f.published, n.start, data);
    hide DataOf, Consecutive;
  }

  lemma HeartbeatKeepsFollowing<T>(f: Follow<T>)
    requires Following(f)
    ensures Following(f.(frames := f.frames + [Heartbeat(f.cursor)]))
  {
    DataOfAppend(f.frames, Heartbeat(f.cursor));
    hide DataOf;
  }

  lemma EndingKeepsFollowing<T>(f: Follow<T>, ending: Ending)
    requires Following(f)
    requires ending.Drained? ==>
               f.closed && (if f.cursor.Some? then f.cursor.value == |f.published| else f.published == [])
    ensures Following(f.(ending := Some(ending)))
  {
    hide DataOf;
  }

  lemma QuietReadKeepsFollowing<T>(f: Follow<T>, capacity: nat)
    requires capacity >= 1 && Following(f) && CanAct(f, Action.Read)
    requires !LookAfter(f.published, capacity, f.closed, f.cursor).Item?
    ensures Following(Act(f, capacity, Action.Read))
  {
    hide Following;
    match LookAfter(f.published, capacity, f.closed, f.cursor)
    case Wait => HeartbeatKeepsFollowing(f);
    case EndOfStream => EndingKeepsFollowing(f, Drained);
    case Expired => EndingKeepsFollowing(f, Lost);
    case Invalid => EndingKeepsFollowing(f, Refused);
  }

  lemma PublishKeepsFollowing<T>(f: Follow<T>, capacity: nat, value: T)
    requires capacity >= 1 && Following(f) && CanAct(f, Action.Publish(value))
    ensures Following(Act(f, capacity, Action.Publish(value)))
  {
    hide DataOf;
  }

  lemma ActKeepsFollowing<T>(f: Follow<T>, capacity: nat, a: Action<T>)
    requires capacity >= 1 && Following(f) && CanAct(f, a)
    ensures Following(Act(f, capacity, a))
  {
    match a
    case Publish(value) => PublishKeepsFollowing(f, capacity, value);
    case CloseBuffer =>
    case Read =>
      if LookAfter(f.published, capacity, f.closed, f.cursor).Item? {
        ItemKeepsFollowing(f, capacity);
      } else {
        QuietReadKeepsFollowing(f, capacity);
      }
  }

  predicate Acts<T>(f: Follow<T>, capacity: nat, actions: seq<Action<T>>)
    requires capacity >= 1
    decreases |actions|
  {
    actions == [] || (CanAct(f, actions[0]) && Acts(Act(f, capacity, actions[0]), capacity, actions[1..]))
  }

  function AfterAll<T>(f: Follow<T>, capacity: nat, actions: seq<Action<T>>): Follow<T>
    requires capacity >= 1 && Acts(f, capacity, actions)
    decreases |actions|
  {
    if actions == [] then f else AfterAll(Act(f, capacity, actions[0]), capacity, actions[1..])
  }

  lemma {:induction false} RunKeepsFollowing<T>(f: Follow<T>, capacity: nat, actions: seq<Action<T>>)
    requires capacity >= 1 && Following(f) && Acts(f, capacity, actions)
    ensures Following(AfterAll(f, capacity, actions))
    decreases |actions|
  {
    if actions != [] {
      ActKeepsFollowing(f, capacity, actions[0]);
      RunKeepsFollowing(Act(f, capacity, actions[0]), capacity, actions[1..]);
    }
  }

  function Subscribe<T>(published: seq<T>, cursor: Option<nat>): Follow<T> {
    Follow(published, false, cursor, if cursor.Some? then cursor.value else 0, [], None)
  }

  lemma {:induction false} StartStays<T>(f: Follow<T>, capacity: nat, actions: seq<Action<T>>)
    requires capacity >= 1 && Acts(f, capacity, actions) && f.cursor.Some?
    ensures AfterAll(f, capacity, actions).start == f.start
    decreases |actions|
  {
    if actions != [] {
      StartStays(Act(f, capacity, actions[0]), capacity, actions[1..]);
    }
  }

  /** Under any publishing, closing and eviction, a reader sees the events after
      its cursor one by one, without a gap or a repeat, and when it reaches the
      end of the stream it has seen them all. */
  lemma ReaderSeesEveryEvent<T>(published: seq<T>, cursor: Option<nat>, capacity: nat, actions: seq<Action<T>>)
    requires capacity >= 1 && Acts(Subscribe(published, cursor), capacity, actions)
    ensures var f := AfterAll(Subscribe(published, cursor), capacity, actions); var data := DataOf(f.frames);
            && (forall i | 0 <= i < |data| ::
                  f.start + i < |f.published| && data[i] == DataFrame(f.start + i + 1, f.published[f.start + i]))
            && (f.ending == Some(Drained) && f.cursor.Some? ==> f.start + |data| == |f.published|)
            && (f.ending == Some(Drained) && f.cursor.None? ==> f.published == [])
            && (cursor.Some? ==> f.start == cursor.value)
  {
    RunKeepsFollowing(Subscribe(published, cursor), capacity, actions);
    if cursor.Some? {
      StartStays(Subscribe(published, cursor), capacity, actions);
    }
  }

  /** A reader is cut off as expired exactly when the event after its cursor is
      no longer retained, and as invalid exactly when its cursor is ahead. */
  lemma CutOffExactly<T>(published: seq<T>, capacity: nat, closed: bool, after: nat)
    requires capacity >= 1
    ensures LookAfter(published, capacity, closed, Some(after)).Expired? <==> after + capacity < |published|
    ensures LookAfter(published, capacity, closed, Some(after)).Invalid? <==> after > |published|
    ensures LookAfter(published, capacity, closed, Some(after)).Item? <==> after < |published| <= after + capacity
    ensures LookAfter(published, capacity, closed, Some(after)).EndOfStream? <==> after == |published| && closed
  {
  }

  /** A reader that is never more than the capacity behind is never cut off. */
  lemma KeepingUp<T>(f: Follow<T>, capacity: nat)
    requires capacity >= 1 && Following(f) && f.ending.None? && f.cursor.Some? && DataOf(f.frames) != []
    requires |f.published| <= f.cursor.value + capacity
    ensures Act(f, capacity, Action.Read).ending.None? || Act(f, capacity, Action.Read).ending == Some(Drained)
  {
  }
}
