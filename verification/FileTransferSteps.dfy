/** Resumable transfers as a state machine: each critical section and each file
    operation of an upload, a download or a removal is one step. */
module FileTransferSteps {
  import opened Totals

  type Bytes = seq<int>
  /** SHA-256, taken as an opaque function. */
  type Hash = Bytes -> string
  type Id = string

  datatype Entry = Entry(
    size: nat, checksum: string, expiresAt: int, offset: nat, upload: bool, complete: bool, busy: bool)

  /** Where an append is: copying, or about to release the entry. */
  datatype AppendStage = Copying | Releasing(remove: bool)

  datatype Append = Append(id: Id, offset: nat, size: nat, checksum: string, data: Bytes, stage: AppendStage)

  datatype Store = Store(
    entries: map<Id, Entry>,
    /** The files that still have a name. */
    files: map<Id, Bytes>,
    closed: bool,
    appends: map<nat, Append>,
    downloads: map<nat, Id>,
    /** Every id handed out, every id whose entry was removed, the bytes each
        upload accepted, and the transfers given away for good. */
    used: set<Id>,
    gone: set<Id>,
    accepted: map<Id, Bytes>,
    consumed: seq<Id>)

  const NEW_STORE := Store(map[], map[], false, map[], map[], {}, {}, map[], [])

  datatype Step =
    | BeginUpload(id: Id, size: nat, checksum: string, expiresAt: int)
    | Stage(id: Id, content: Bytes, expiresAt: int)
    | StartAppend(op: nat, id: Id, offset: nat, now: int)
    | Copy(op: nat, chunk: Bytes)
    | FailOpen(op: nat)
    | EndCopy(op: nat, ioError: bool)
    | Release(op: nat, expiresAt: int)
    | Expire(id: Id, now: int)
    | Discard(id: Id)
    | Prune(id: Id, now: int)
    | Take(id: Id, now: int)
    | OpenDownload(op: nat, id: Id, offset: nat, now: int)
    | FinishDownload(op: nat, consume: bool)
    | Close
    | RemoveAll

  function EmptyHash(h: Hash): string {
    h([])
  }

  /** The entry and its file are removed; operations on it stay in flight. */
  function Removed(s: Store, id: Id): Store {
    s.(entries := s.entries - {id}, files := s.files - {id}, gone := s.gone + {id})
  }

  /** The copy is refused afterwards when it is too long, could not be stored, or
      completes a file with another checksum. */
  predicate Refused(h: Hash, s: Store, a: Append, ioError: bool) {
    || a.offset + |a.data| > a.size
    || ioError
    || (a.offset + |a.data| == a.size && !(a.id in s.files && h(s.files[a.id]) == a.checksum))
  }

  predicate CanStep(h: Hash, s: Store, t: Step) {
    match t
    case BeginUpload(id, size, checksum, _) => id !in s.used && !s.closed && (size == 0 ==> checksum == EmptyHash(h))
    case Stage(id, _, _) => id !in s.used && !s.closed
    case StartAppend(op, id, offset, now) =>
      && op !in s.appends && !s.closed && id in s.entries && s.entries[id].upload && now < s.entries[id].expiresAt
      && !s.entries[id].busy && offset == s.entries[id].offset && !s.entries[id].complete
    case Copy(op, chunk) =>
      && op in s.appends && s.appends[op].stage.Copying?
      && s.appends[op].offset + |s.appends[op].data| + |chunk| <= s.appends[op].size + 1
    case FailOpen(op) => op in s.appends && s.appends[op].stage.Copying? && s.appends[op].data == []
    case EndCopy(op, _) => op in s.appends && s.appends[op].stage.Copying?
    case Release(op, _) => op in s.appends && s.appends[op].stage.Releasing?
    case Expire(id, now) => id in s.entries && s.entries[id].expiresAt <= now
    case Discard(id) => id in s.entries
    case Prune(id, now) => id in s.entries && !s.entries[id].busy && s.entries[id].expiresAt <= now
    case Take(id, _) => !s.closed && id in s.entries && s.entries[id].complete && !s.entries[id].busy
    case OpenDownload(op, id, offset, now) =>
      && op !in s.downloads && !s.closed && id in s.entries && !s.entries[id].upload && s.entries[id].complete
      && now < s.entries[id].expiresAt && !s.entries[id].busy && offset <= s.entries[id].size
    case FinishDownload(op, _) => op in s.downloads
    case Close => !s.closed
    case RemoveAll => s.closed && s.appends == map[] && s.downloads == map[]
  }

  function Next(h: Hash, s: Store, t: Step): Store
    requires CanStep(h, s, t)
  {
    match t
    case BeginUpload(id, size, checksum, expiresAt) =>
      s.(entries := s.entries[id := Entry(size, checksum, expiresAt, 0, true, size == 0, false)],
         files := s.files[id := []], used := s.used + {id}, accepted := s.accepted[id := []])
    case Stage(id, content, expiresAt) =>
      s.(entries := s.entries[id := Entry(|content|, h(content), expiresAt, |content|, false, true, false)],
         files := s.files[id := content], used := s.used + {id}, accepted := s.accepted[id := content])
    case StartAppend(op, id, offset, _) =>
      var e := s.entries[id];
      s.(entries := s.entries[id := e.(busy := true)],
         appends := s.appends[op := Append(id, e.offset, e.size, e.checksum, [], Copying)])
    case Copy(op, chunk) =>
      var a := s.appends[op];
      s.(appends := s.appends[op := a.(data := a.data + chunk)],
         files := if a.id in s.files then s.files[a.id := s.files[a.id] + chunk] else s.files)
    case FailOpen(op) => s.(appends := s.appends[op := s.appends[op].(stage := Releasing(false))])
    case EndCopy(op, ioError) =>
      s.(appends := s.appends[op := s.appends[op].(stage := Releasing(Refused(h, s, s.appends[op], ioError)))])
    case Release(op, expiresAt) =>
      var a := s.appends[op];
      var done := s.(appends := s.appends - {op});
      if a.stage.remove then Removed(done, a.id)
      else if a.id !in s.entries then done
      else
        var e := s.entries[a.id];
        var offset := a.offset + |a.data|;
        done.(entries := s.entries[a.id := e.(offset := offset, complete := offset == e.size, busy := false,
                                              expiresAt := expiresAt)],
              accepted := s.accepted[a.id := (if a.id in s.accepted then s.accepted[a.id] else []) + a.data])
    case Expire(id, _) => Removed(s, id)
    case Discard(id) => Removed(s, id)
    case Prune(id, _) => Removed(s, id)
    case Take(id, now) =>
      var left := s.(entries := s.entries - {id}, gone := s.gone + {id});
      if s.entries[id].expiresAt <= now then left.(files := s.files - {id}) else left.(consumed := s.consumed + [id])
    case OpenDownload(op, id, _, _) =>
      s.(entries := s.entries[id := s.entries[id].(busy := true)], downloads := s.downloads[op := id])
    case FinishDownload(op, consume) =>
      var id := s.downloads[op];
      var done := s.(downloads := s.downloads - {op});
      if consume then Removed(done, id).(consumed := s.consumed + [id])
      else if id in s.entries then done.(entries := s.entries[id := s.entries[id].(busy := false)])
      else done
    case Close => s.(closed := true)
    case RemoveAll => s.(entries := map[], files := s.files - s.entries.Keys, gone := s.gone + s.entries.Keys)
  }

  predicate Goes(h: Hash, s: Store, t: Step, n: Store) {
    CanStep(h, s, t) && n == Next(h, s, t)
  }

  // ---- What every step keeps ----

  /** An entry that nothing is working on, or a complete one: its file holds the
      accepted bytes. */
  ghost predicate EntrySound(h: Hash, s: Store, id: Id, e: Entry) {
    && e.offset <= e.size && (e.complete <==> e.offset == e.size)
    && id in s.accepted && |s.accepted[id]| == e.offset
    && ((!e.busy || e.complete) ==> id in s.files && s.files[id] == s.accepted[id])
    && (e.complete ==> h(s.accepted[id]) == e.checksum)
    && (!e.upload ==> e.complete)
  }

  ghost predicate EntriesSound(h: Hash, s: Store) {
    forall id | id in s.entries :: EntrySound(h, s, id, s.entries[id])
  }

  /** A live entry with an append in flight is busy with it and its file is the
      accepted bytes with the copied ones. */
  ghost predicate AppendSound(h: Hash, s: Store, a: Append) {
    a.id in s.entries ==>
      var e := s.entries[a.id];
      && e.upload && e.busy && !e.complete && a.offset == e.offset && a.size == e.size && a.checksum == e.checksum
      && a.id in s.accepted && a.id in s.files && s.files[a.id] == s.accepted[a.id] + a.data
      && (a.stage == Releasing(false) ==>
            a.offset + |a.data| <= a.size && (a.offset + |a.data| == a.size ==> h(s.files[a.id]) == a.checksum))
  }

  ghost predicate AppendsSound(h: Hash, s: Store) {
    && (forall op | op in s.appends :: AppendSound(h, s, s.appends[op]))
    && (forall a, b | a in s.appends && b in s.appends && s.appends[a].id == s.appends[b].id
        && s.appends[a].id in s.entries :: a == b)
  }

  type Downloads = map<nat, Id>

  /** A live entry with a download in flight is busy, and no transfer is being
      downloaded twice. */
  ghost predicate DownloadsSound(downloads: Downloads, entries: map<Id, Entry>) {
    && (forall op | op in downloads && downloads[op] in entries ::
        entries[downloads[op]].busy && !entries[downloads[op]].upload)
    && (forall a, b | a in downloads && b in downloads && downloads[a] == downloads[b] :: a == b)
  }

  /** What was removed stays away. */
  ghost predicate GoneSound(s: Store) {
    && (forall id | id in s.entries :: id in s.used && id !in s.gone)
    && s.gone <= s.used
    && (forall op | op in s.appends :: s.appends[op].id in s.used)
    && (forall op | op in s.downloads :: s.downloads[op] in s.used)
  }

  /** Nothing is given away twice. */
  ghost predicate ConsumedOnce(consumed: seq<Id>, gone: set<Id>, downloads: Downloads) {
    && (forall id | id in consumed :: id in gone)
    && (forall op | op in downloads :: downloads[op] !in consumed)
    && (forall i, j | 0 <= i < j < |consumed| :: consumed[i] != consumed[j])
  }

  ghost predicate Inv(h: Hash, s: Store) {
    && EntriesSound(h, s) && AppendsSound(h, s) && DownloadsSound(s.downloads, s.entries) && GoneSound(s)
    && ConsumedOnce(s.consumed, s.gone, s.downloads)
  }

  predicate Creates(t: Step) { t.BeginUpload? || t.Stage? }

  predicate Appends(t: Step) { t.StartAppend? || t.Copy? || t.FailOpen? || t.EndCopy? || t.Release? }

  predicate Downloading(t: Step) { t.Take? || t.OpenDownload? || t.FinishDownload? }

  predicate Removes(t: Step) { t.Expire? || t.Discard? || t.Prune? || t.Close? || t.RemoveAll? }

  lemma EveryStep(t: Step)
    ensures Creates(t) || Appends(t) || Downloading(t) || Removes(t)
  {
  }

  // ---- Removed for good, and given away once ----

  lemma CreateKeepsGone(h: Hash, s: Store, t: Step)
    requires GoneSound(s) && CanStep(h, s, t) && Creates(t)
    ensures GoneSound(Next(h, s, t))
  {
  }

  lemma CopyKeepsGone(h: Hash, s: Store, t: Step)
    requires GoneSound(s) && CanStep(h, s, t) && Appends(t) && !t.Release?
    ensures GoneSound(Next(h, s, t))
  {
    match t
    case StartAppend(_, _, _, _) =>
    case Copy(_, _) =>
    case FailOpen(_) =>
    case EndCopy(_, _) =>
  }

  lemma ReleaseKeepsGone(h: Hash, s: Store, t: Step)
    requires GoneSound(s) && CanStep(h, s, t) && t.Release?
    ensures GoneSound(Next(h, s, t))
  {
  }

  lemma AppendKeepsGone(h: Hash, s: Store, t: Step)
    requires GoneSound(s) && CanStep(h, s, t) && Appends(t)
    ensures GoneSound(Next(h, s, t))
  {
    hide GoneSound, CanStep, Next;
    if t.Release? {
      ReleaseKeepsGone(h, s, t);
    } else {
      CopyKeepsGone(h, s, t);
    }
  }

  lemma TakeKeepsGone(h: Hash, s: Store, t: Step)
    requires GoneSound(s) && CanStep(h, s, t) && t.Take?
    ensures GoneSound(Next(h, s, t))
  {
  }

  lemma OpenKeepsGone(h: Hash, s: Store, t: Step)
    requires GoneSound(s) && CanStep(h, s, t) && t.OpenDownload?
    ensures GoneSound(Next(h, s, t))
  {
  }

  lemma FinishKeepsGone(h: Hash, s: Store, t: Step)
    requires GoneSound(s) && CanStep(h, s, t) && t.FinishDownload?
    ensures GoneSound(Next(h, s, t))
  {
    var id := s.downloads[t.op];
    RemovedKeepsGone(s, s.downloads - {t.op}, id);
    if !t.consume {
      assert Next(h, s, t).gone == s.gone && Next(h, s, t).used == s.used && Next(h, s, t).appends == s.appends;
    } else {
      hide GoneSound;
      assert Next(h, s, t) == Removed(s.(downloads := s.downloads - {t.op}), id).(consumed := s.consumed + [id]);
      GoneIgnoresConsumed(Removed(s.(downloads := s.downloads - {t.op}), id), s.consumed + [id]);
    }
  }

  lemma RemovedKeepsGone(s: Store, rest: Downloads, id: Id)
    requires GoneSound(s) && id in s.used && forall op | op in rest :: op in s.downloads && rest[op] == s.downloads[op]
    ensures GoneSound(Removed(s.(downloads := rest), id))
  {
  }

  lemma GoneIgnoresConsumed(s: Store, consumed: seq<Id>)
    requires GoneSound(s)
    ensures GoneSound(s.(consumed := consumed))
  {
  }

  lemma DownloadKeepsGone(h: Hash, s: Store, t: Step)
    requires GoneSound(s) && CanStep(h, s, t) && Downloading(t)
    ensures GoneSound(Next(h, s, t))
  {
    hide GoneSound, CanStep, Next;
    if t.Take? {
      TakeKeepsGone(h, s, t);
    } else if t.OpenDownload? {
      OpenKeepsGone(h, s, t);
    } else {
      FinishKeepsGone(h, s, t);
    }
  }

  lemma RemoveKeepsGone(h: Hash, s: Store, t: Step)
    requires GoneSound(s) && CanStep(h, s, t) && Removes(t)
    ensures GoneSound(Next(h, s, t))
  {
  }

  lemma OneMoreConsumed(consumed: seq<Id>, gone: set<Id>, downloads: Downloads, rest: Downloads, id: Id)
    requires ConsumedOnce(consumed, gone, downloads) && id !in consumed
    requires forall op | op in rest :: op in downloads && rest[op] == downloads[op] && rest[op] != id
    ensures ConsumedOnce(consumed + [id], gone + {id}, rest)
  {
  }

  lemma FewerDownloads(consumed: seq<Id>, gone: set<Id>, downloads: Downloads, rest: Downloads, more: set<Id>)
    requires ConsumedOnce(consumed, gone, downloads)
    requires forall op | op in rest :: op in downloads && rest[op] == downloads[op]
    ensures ConsumedOnce(consumed, gone + more, rest)
  {
  }

  lemma TakeKeepsConsumed(h: Hash, s: Store, id: Id, now: int)
    requires GoneSound(s) && ConsumedOnce(s.consumed, s.gone, s.downloads) && DownloadsSound(s.downloads, s.entries)
    requires CanStep(h, s, Take(id, now))
    ensures var n := Next(h, s, Take(id, now)); ConsumedOnce(n.consumed, n.gone, n.downloads)
  {
    assert forall op | op in s.downloads :: s.downloads[op] != id;
    assert id !in s.consumed;
    OneMoreConsumed(s.consumed, s.gone, s.downloads, s.downloads, id);
    FewerDownloads(s.consumed, s.gone, s.downloads, s.downloads, {id});
    hide ConsumedOnce;
  }

  lemma FinishKeepsConsumed(h: Hash, s: Store, op: nat, consume: bool)
    requires ConsumedOnce(s.consumed, s.gone, s.downloads) && DownloadsSound(s.downloads, s.entries)
    requires CanStep(h, s, FinishDownload(op, consume))
    ensures var n := Next(h, s, FinishDownload(op, consume)); ConsumedOnce(n.consumed, n.gone, n.downloads)
  {
    var id := s.downloads[op];
    OneMoreConsumed(s.consumed, s.gone, s.downloads, s.downloads - {op}, id);
    FewerDownloads(s.consumed, s.gone, s.downloads, s.downloads - {op}, {});
    assert s.gone + {} == s.gone;
    hide ConsumedOnce;
  }

  lemma DownloadKeepsConsumed(h: Hash, s: Store, t: Step)
    requires GoneSound(s) && ConsumedOnce(s.consumed, s.gone, s.downloads) && DownloadsSound(s.downloads, s.entries)
    requires CanStep(h, s, t) && Downloading(t)
    ensures var n := Next(h, s, t); ConsumedOnce(n.consumed, n.gone, n.downloads)
  {
    if t.Take? {
      TakeKeepsConsumed(h, s, t.id, t.now);
    } else if t.FinishDownload? {
      FinishKeepsConsumed(h, s, t.op, t.consume);
    } else {
      assert s.entries[t.id].complete;
    }
  }

  lemma OtherKeepsConsumed(h: Hash, s: Store, t: Step)
    requires ConsumedOnce(s.consumed, s.gone, s.downloads) && CanStep(h, s, t) && !Downloading(t)
    ensures var n := Next(h, s, t); ConsumedOnce(n.consumed, n.gone, n.downloads)
  {
    var n := Next(h, s, t);
    NothingConsumed(h, s, t);
    forall id | id in s.consumed
      ensures id in n.gone
    {
      NextRemembers(h, s, t, id);
    }
    hide Next, CanStep;
  }

  lemma NothingConsumed(h: Hash, s: Store, t: Step)
    requires CanStep(h, s, t) && !Downloading(t)
    ensures Next(h, s, t).consumed == s.consumed && Next(h, s, t).downloads == s.downloads
  {
    match t
    case BeginUpload(_, _, _, _) =>
    case Stage(_, _, _) =>
    case StartAppend(_, _, _, _) =>
    case Copy(_, _) =>
    case FailOpen(_) =>
    case EndCopy(_, _) =>
    case Release(_, _) =>
    case Expire(_, _) =>
    case Discard(_) =>
    case Prune(_, _) =>
    case Close =>
    case RemoveAll =>
  }

  lemma OpenOne(downloads: Downloads, entries: map<Id, Entry>, op: nat, id: Id)
    requires DownloadsSound(downloads, entries) && op !in downloads && id in entries && !entries[id].busy
              && !entries[id].upload
    ensures DownloadsSound(downloads[op := id], entries[id := entries[id].(busy := true)])
  {
  }

  lemma FinishOne(downloads: Downloads, entries: map<Id, Entry>, op: nat)
    requires DownloadsSound(downloads, entries) && op in downloads
    ensures DownloadsSound(downloads - {op}, entries) && DownloadsSound(downloads - {op}, entries - {downloads[op]})
    ensures downloads[op] in entries ==>
              DownloadsSound(downloads - {op}, entries[downloads[op] := entries[downloads[op]].(busy := false)])
  {
  }

  lemma DownloadKeepsDownloads(h: Hash, s: Store, t: Step)
    requires DownloadsSound(s.downloads, s.entries) && CanStep(h, s, t) && Downloading(t)
    ensures DownloadsSound(Next(h, s, t).downloads, Next(h, s, t).entries)
  {
    if t.OpenDownload? {
      OpenOne(s.downloads, s.entries, t.op, t.id);
      hide DownloadsSound;
    } else if t.FinishDownload? {
      FinishOne(s.downloads, s.entries, t.op);
      hide DownloadsSound;
    }
  }

  lemma CreateKeepsDownloads(h: Hash, s: Store, t: Step)
    requires DownloadsSound(s.downloads, s.entries) && GoneSound(s) && CanStep(h, s, t) && Creates(t)
    ensures DownloadsSound(Next(h, s, t).downloads, Next(h, s, t).entries)
  {
  }

  lemma AppendKeepsDownloads(h: Hash, s: Store, t: Step)
    requires DownloadsSound(s.downloads, s.entries) && AppendsSound(h, s) && CanStep(h, s, t) && Appends(t)
    ensures DownloadsSound(Next(h, s, t).downloads, Next(h, s, t).entries)
  {
  }

  lemma RemoveKeepsDownloads(h: Hash, s: Store, t: Step)
    requires DownloadsSound(s.downloads, s.entries) && CanStep(h, s, t) && Removes(t)
    ensures DownloadsSound(Next(h, s, t).downloads, Next(h, s, t).entries)
  {
  }

  // ---- Files against entries ----

  ghost predicate SameBut<T(!new)>(m: map<Id, T>, n: map<Id, T>, id: Id) {
    forall other | other != id :: (other in n <==> other in m) && (other in n ==> n[other] == m[other])
  }

  ghost predicate TouchesOnly(s: Store, n: Store, id: Id) {
    SameBut(s.entries, n.entries, id) && SameBut(s.files, n.files, id) && SameBut(s.accepted, n.accepted, id)
  }

  lemma CreateTouches(h: Hash, s: Store, t: Step)
    requires CanStep(h, s, t) && Creates(t)
    ensures TouchesOnly(s, Next(h, s, t), t.id)
  {
  }

  lemma RemoveTouches(h: Hash, s: Store, t: Step)
    requires CanStep(h, s, t) && (t.Expire? || t.Discard? || t.Prune?)
    ensures TouchesOnly(s, Next(h, s, t), t.id)
  {
  }

  lemma DownloadTouches(h: Hash, s: Store, t: Step)
    requires CanStep(h, s, t) && (t.Take? || t.OpenDownload?)
    ensures TouchesOnly(s, Next(h, s, t), t.id)
  {
  }

  lemma RemovedTouches(s: Store, id: Id)
    ensures TouchesOnly(s, Removed(s, id), id)
  {
  }

  lemma FinishTouches(h: Hash, s: Store, t: Step)
    requires CanStep(h, s, t) && t.FinishDownload?
    ensures TouchesOnly(s, Next(h, s, t), s.downloads[t.op])
  {
    var id, n := s.downloads[t.op], Next(h, s, t);
    if t.consume {
      RemovedTouches(s, id);
      assert n.entries == Removed(s, id).entries && n.files == Removed(s, id).files && n.accepted == s.accepted;
      hide SameBut;
    }
  }

  lemma StartTouches(h: Hash, s: Store, t: Step)
    requires CanStep(h, s, t) && t.StartAppend?
    ensures TouchesOnly(s, Next(h, s, t), t.id)
  {
  }

  lemma AppendTouches(h: Hash, s: Store, t: Step)
    requires CanStep(h, s, t) && (t.Copy? || t.FailOpen? || t.EndCopy?)
    ensures TouchesOnly(s, Next(h, s, t), s.appends[t.op].id)
  {
  }

  lemma ReleaseTouches(h: Hash, s: Store, t: Step)
    requires CanStep(h, s, t) && t.Release?
    ensures TouchesOnly(s, Next(h, s, t), s.appends[t.op].id)
  {
  }

  lemma OneEntryChanged(h: Hash, s: Store, n: Store, id: Id)
    requires EntriesSound(h, s) && TouchesOnly(s, n, id) && (id in n.entries ==> EntrySound(h, n, id, n.entries[id]))
    ensures EntriesSound(h, n)
  {
    forall other | other in n.entries
      ensures EntrySound(h, n, other, n.entries[other])
    {
      if other != id {
        assert EntrySound(h, s, other, s.entries[other]);
      }
    }
  }

  /** The appends of the touched transfer, when it is still there. */
  lemma OneAppendChanged(h: Hash, s: Store, n: Store, id: Id)
    requires AppendsSound(h, s) && TouchesOnly(s, n, id)
    requires forall op | op in n.appends && n.appends[op].id != id :: op in s.appends && n.appends[op] == s.appends[op]
    requires id in n.entries ==> forall op | op in n.appends && n.appends[op].id == id ::
              AppendSound(h, n, n.appends[op])
    requires id in n.entries ==> forall a, b | a in n.appends && b in n.appends
              && n.appends[a].id == id == n.appends[b].id :: a == b
    ensures AppendsSound(h, n)
  {
    forall op | op in n.appends
      ensures AppendSound(h, n, n.appends[op])
    {
      if n.appends[op].id != id {
        assert AppendSound(h, s, s.appends[op]);
      }
    }
    forall a, b | a in n.appends && b in n.appends && n.appends[a].id == n.appends[b].id && n.appends[a].id in n.entries
      ensures a == b
    {
      if n.appends[a].id != id {
        assert s.appends[a].id in s.entries;
      }
    }
  }

  /** Nothing is appended to an entry that is not busy. */
  lemma IdleHasNoAppend(h: Hash, s: Store, id: Id)
    requires AppendsSound(h, s) && id in s.entries && (!s.entries[id].busy || !s.entries[id].upload)
    ensures forall op | op in s.appends :: s.appends[op].id != id
  {
    forall op | op in s.appends
      ensures s.appends[op].id != id
    {
      assert AppendSound(h, s, s.appends[op]);
    }
  }

  lemma CreateKeepsFiles(h: Hash, s: Store, t: Step)
    requires Inv(h, s) && CanStep(h, s, t) && Creates(t)
    ensures EntriesSound(h, Next(h, s, t)) && AppendsSound(h, Next(h, s, t))
  {
    CreateTouches(h, s, t);
    hide EntriesSound, AppendsSound;
    OneEntryChanged(h, s, Next(h, s, t), t.id);
    OneAppendChanged(h, s, Next(h, s, t), t.id);
  }

  lemma RemoveKeepsFiles(h: Hash, s: Store, t: Step)
    requires Inv(h, s) && CanStep(h, s, t) && (t.Expire? || t.Discard? || t.Prune?)
    ensures EntriesSound(h, Next(h, s, t)) && AppendsSound(h, Next(h, s, t))
  {
    RemoveTouches(h, s, t);
    hide EntriesSound, AppendsSound;
    OneEntryChanged(h, s, Next(h, s, t), t.id);
    OneAppendChanged(h, s, Next(h, s, t), t.id);
  }

  lemma CloseKeepsFiles(h: Hash, s: Store, t: Step)
    requires Inv(h, s) && CanStep(h, s, t) && (t.Close? || t.RemoveAll?)
    ensures EntriesSound(h, Next(h, s, t)) && AppendsSound(h, Next(h, s, t))
  {
    var n := Next(h, s, t);
    if t.Close? {
      forall id | id in n.entries
        ensures EntrySound(h, n, id, n.entries[id])
      {
        assert EntrySound(h, s, id, s.entries[id]);
      }
      forall op | op in n.appends
        ensures AppendSound(h, n, n.appends[op])
      {
        assert AppendSound(h, s, s.appends[op]);
      }
    }
  }

  lemma TakeKeepsFiles(h: Hash, s: Store, id: Id, now: int)
    requires Inv(h, s) && CanStep(h, s, Take(id, now))
    ensures EntriesSound(h, Next(h, s, Take(id, now))) && AppendsSound(h, Next(h, s, Take(id, now)))
  {
    DownloadTouches(h, s, Take(id, now));
    hide EntriesSound, AppendsSound;
    OneEntryChanged(h, s, Next(h, s, Take(id, now)), id);
    OneAppendChanged(h, s, Next(h, s, Take(id, now)), id);
  }

  lemma OpenKeepsFiles(h: Hash, s: Store, t: Step)
    requires Inv(h, s) && CanStep(h, s, t) && t.OpenDownload?
    ensures EntriesSound(h, Next(h, s, t)) && AppendsSound(h, Next(h, s, t))
  {
    DownloadTouches(h, s, t);
    assert EntrySound(h, s, t.id, s.entries[t.id]);
    IdleHasNoAppend(h, s, t.id);
    hide EntriesSound, AppendsSound;
    OneEntryChanged(h, s, Next(h, s, t), t.id);
    OneAppendChanged(h, s, Next(h, s, t), t.id);
  }

  lemma FinishKeepsFiles(h: Hash, s: Store, t: Step)
    requires Inv(h, s) && CanStep(h, s, t) && t.FinishDownload?
    ensures EntriesSound(h, Next(h, s, t)) && AppendsSound(h, Next(h, s, t))
  {
    FinishTouches(h, s, t);
    var id := s.downloads[t.op];
    if id in s.entries {
      assert EntrySound(h, s, id, s.entries[id]);
      IdleHasNoAppend(h, s, id);
    }
    hide EntriesSound, AppendsSound;
    OneEntryChanged(h, s, Next(h, s, t), id);
    OneAppendChanged(h, s, Next(h, s, t), id);
  }

  lemma StartKeepsFiles(h: Hash, s: Store, t: Step)
    requires Inv(h, s) && CanStep(h, s, t) && t.StartAppend?
    ensures EntriesSound(h, Next(h, s, t)) && AppendsSound(h, Next(h, s, t))
  {
    StartTouches(h, s, t);
    assert EntrySound(h, s, t.id, s.entries[t.id]);
    IdleHasNoAppend(h, s, t.id);
    hide EntriesSound, AppendsSound;
    OneEntryChanged(h, s, Next(h, s, t), t.id);
    OneAppendChanged(h, s, Next(h, s, t), t.id);
  }

  /** What is known of an append and its entry before it goes on. */
  lemma AppendFacts(h: Hash, s: Store, op: nat)
    requires Inv(h, s) && op in s.appends
    ensures AppendSound(h, s, s.appends[op])
    ensures s.appends[op].id in s.entries ==> EntrySound(h, s, s.appends[op].id, s.entries[s.appends[op].id])
    ensures s.appends[op].id in s.entries ==> forall b | b in s.appends && s.appends[b].id == s.appends[op].id ::
              b == op
  {
  }

  lemma CopyKeepsEntries(h: Hash, s: Store, t: Step)
    requires Inv(h, s) && CanStep(h, s, t) && (t.Copy? || t.FailOpen? || t.EndCopy?)
    ensures EntriesSound(h, Next(h, s, t))
  {
    AppendTouches(h, s, t);
    AppendFacts(h, s, t.op);
    hide EntriesSound, AppendsSound;
    OneEntryChanged(h, s, Next(h, s, t), s.appends[t.op].id);
  }

  lemma ChunkIsSound(h: Hash, s: Store, t: Step)
    requires CanStep(h, s, t) && t.Copy? && AppendSound(h, s, s.appends[t.op])
    ensures AppendSound(h, Next(h, s, t), Next(h, s, t).appends[t.op])
    ensures Next(h, s, t).appends == s.appends[t.op := Next(h, s, t).appends[t.op]]
    ensures Next(h, s, t).appends[t.op].id == s.appends[t.op].id && Next(h, s, t).entries == s.entries
  {
  }

  lemma ChunkKeepsAppends(h: Hash, s: Store, t: Step)
    requires Inv(h, s) && CanStep(h, s, t) && t.Copy?
    ensures AppendsSound(h, Next(h, s, t))
  {
    AppendTouches(h, s, t);
    AppendFacts(h, s, t.op);
    ChunkIsSound(h, s, t);
    var n := Next(h, s, t);
    hide Next, EntriesSound, AppendsSound, AppendSound, TouchesOnly;
    OneAppendChanged(h, s, n, s.appends[t.op].id);
  }

  lemma StageKeepsAppends(h: Hash, s: Store, t: Step)
    requires Inv(h, s) && CanStep(h, s, t) && (t.FailOpen? || t.EndCopy?)
    ensures AppendsSound(h, Next(h, s, t))
  {
    AppendTouches(h, s, t);
    AppendFacts(h, s, t.op);
    hide EntriesSound, AppendsSound, TouchesOnly;
    OneAppendChanged(h, s, Next(h, s, t), s.appends[t.op].id);
  }

  lemma ReleaseKeepsFiles(h: Hash, s: Store, t: Step)
    requires Inv(h, s) && CanStep(h, s, t) && t.Release?
    ensures EntriesSound(h, Next(h, s, t)) && AppendsSound(h, Next(h, s, t))
  {
    ReleaseTouches(h, s, t);
    AppendFacts(h, s, t.op);
    hide EntriesSound, AppendsSound;
    OneEntryChanged(h, s, Next(h, s, t), s.appends[t.op].id);
    OneAppendChanged(h, s, Next(h, s, t), s.appends[t.op].id);
  }

  lemma NextKeepsFiles(h: Hash, s: Store, t: Step)
    requires Inv(h, s) && CanStep(h, s, t)
    ensures EntriesSound(h, Next(h, s, t)) && AppendsSound(h, Next(h, s, t))
  {
    hide Inv, CanStep, Next, EntriesSound, AppendsSound;
    match t
    case BeginUpload(_, _, _, _) => CreateKeepsFiles(h, s, t);
    case Stage(_, _, _) => CreateKeepsFiles(h, s, t);
    case StartAppend(_, _, _, _) => StartKeepsFiles(h, s, t);
    case Copy(_, _) =>
      CopyKeepsEntries(h, s, t);
      ChunkKeepsAppends(h, s, t);
    case FailOpen(_) =>
      CopyKeepsEntries(h, s, t);
      StageKeepsAppends(h, s, t);
    case EndCopy(_, _) =>
      CopyKeepsEntries(h, s, t);
      StageKeepsAppends(h, s, t);
    case Release(_, _) => ReleaseKeepsFiles(h, s, t);
    case Expire(_, _) => RemoveKeepsFiles(h, s, t);
    case Discard(_) => RemoveKeepsFiles(h, s, t);
    case Prune(_, _) => RemoveKeepsFiles(h, s, t);
    case Take(id, now) => TakeKeepsFiles(h, s, id, now);
    case OpenDownload(_, _, _, _) => OpenKeepsFiles(h, s, t);
    case FinishDownload(_, _) => FinishKeepsFiles(h, s, t);
    case Close => CloseKeepsFiles(h, s, t);
    case RemoveAll => CloseKeepsFiles(h, s, t);
  }

  lemma InvParts(h: Hash, s: Store)
    requires Inv(h, s)
    ensures EntriesSound(h, s) && AppendsSound(h, s) && DownloadsSound(s.downloads, s.entries) && GoneSound(s)
    ensures ConsumedOnce(s.consumed, s.gone, s.downloads)
  {
  }

  lemma NextKeepsInv(h: Hash, s: Store, t: Step)
    requires Inv(h, s) && CanStep(h, s, t)
    ensures Inv(h, Next(h, s, t))
  {
    InvParts(h, s);
    hide CanStep, Next, EntriesSound, AppendsSound, DownloadsSound, GoneSound, ConsumedOnce;
    NextKeepsFiles(h, s, t);
    EveryStep(t);
    if Creates(t) {
      CreateKeepsGone(h, s, t);
      OtherKeepsConsumed(h, s, t);
      CreateKeepsDownloads(h, s, t);
    } else if Appends(t) {
      AppendKeepsGone(h, s, t);
      OtherKeepsConsumed(h, s, t);
      AppendKeepsDownloads(h, s, t);
    } else if Downloading(t) {
      DownloadKeepsGone(h, s, t);
      DownloadKeepsConsumed(h, s, t);
      DownloadKeepsDownloads(h, s, t);
    } else {
      RemoveKeepsGone(h, s, t);
      OtherKeepsConsumed(h, s, t);
      RemoveKeepsDownloads(h, s, t);
    }
  }

  // ---- What the invariant says of one transfer ----

  /** The file of an entry nothing works on holds the accepted bytes, as many as
      its offset says, with the checksum once it is complete. */
  ghost predicate Intact(h: Hash, s: Store, id: Id) {
    && id in s.entries && id in s.accepted && id in s.files
    && s.files[id] == s.accepted[id] && |s.files[id]| == s.entries[id].offset
    && (s.entries[id].complete ==> |s.files[id]| == s.entries[id].size && h(s.files[id]) == s.entries[id].checksum)
  }

  lemma IdleIsIntact(h: Hash, s: Store, id: Id)
    requires Inv(h, s) && id in s.entries && (!s.entries[id].busy || s.entries[id].complete)
    ensures Intact(h, s, id)
  {
    assert EntrySound(h, s, id, s.entries[id]);
  }

  /** A live entry's file is what it accepted, followed by what its append copied. */
  lemma AppendExtends(h: Hash, s: Store, op: nat)
    requires Inv(h, s) && op in s.appends && s.appends[op].id in s.entries
    ensures var id := s.appends[op].id;
            id in s.files && id in s.accepted && s.files[id] == s.accepted[id] + s.appends[op].data
  {
    assert AppendSound(h, s, s.appends[op]);
  }

  lemma NotYetConsumed(h: Hash, s: Store, op: nat)
    requires Inv(h, s) && op in s.downloads
    ensures s.downloads[op] !in s.consumed
  {
  }

  // ---- Every run ----

  predicate Runs(h: Hash, s: Store, steps: seq<Step>)
    decreases |steps|
  {
    steps == [] || (CanStep(h, s, steps[0]) && Runs(h, Next(h, s, steps[0]), steps[1..]))
  }

  function After(h: Hash, s: Store, steps: seq<Step>): Store
    requires Runs(h, s, steps)
    decreases |steps|
  {
    if steps == [] then s else After(h, Next(h, s, steps[0]), steps[1..])
  }

  lemma CreateRemembers(h: Hash, s: Store, t: Step, id: Id)
    requires CanStep(h, s, t) && Creates(t) && id in s.gone
    ensures id in Next(h, s, t).gone
  {
  }

  lemma AppendRemembers(h: Hash, s: Store, t: Step, id: Id)
    requires CanStep(h, s, t) && Appends(t) && id in s.gone
    ensures id in Next(h, s, t).gone
  {
  }

  lemma DownloadRemembers(h: Hash, s: Store, t: Step, id: Id)
    requires CanStep(h, s, t) && Downloading(t) && id in s.gone
    ensures id in Next(h, s, t).gone
  {
    match t
    case Take(_, _) =>
    case OpenDownload(_, _, _, _) =>
    case FinishDownload(_, _) =>
  }

  lemma RemoveRemembers(h: Hash, s: Store, t: Step, id: Id)
    requires CanStep(h, s, t) && Removes(t) && id in s.gone
    ensures id in Next(h, s, t).gone
  {
  }

  lemma NextRemembers(h: Hash, s: Store, t: Step, id: Id)
    requires CanStep(h, s, t) && id in s.gone
    ensures id in Next(h, s, t).gone
  {
    EveryStep(t);
    hide CanStep, Next;
    if Creates(t) {
      CreateRemembers(h, s, t, id);
    } else if Appends(t) {
      AppendRemembers(h, s, t, id);
    } else if Downloading(t) {
      DownloadRemembers(h, s, t, id);
    } else {
      RemoveRemembers(h, s, t, id);
    }
  }

  lemma {:induction false} GoneForGood(h: Hash, s: Store, steps: seq<Step>, id: Id)
    requires Runs(h, s, steps) && id in s.gone
    ensures id in After(h, s, steps).gone
    decreases |steps|
  {
    if steps != [] {
      hide CanStep, Next;
      NextRemembers(h, s, steps[0], id);
      GoneForGood(h, Next(h, s, steps[0]), steps[1..], id);
    }
  }

  lemma {:induction false} RunKeepsInv(h: Hash, s: Store, steps: seq<Step>)
    requires Inv(h, s) && Runs(h, s, steps)
    ensures Inv(h, After(h, s, steps))
    decreases |steps|
  {
    if steps != [] {
      hide Inv, CanStep, Next;
      NextKeepsInv(h, s, steps[0]);
      RunKeepsInv(h, Next(h, s, steps[0]), steps[1..]);
    }
  }

  /** In every reachable state an idle upload's file is exactly the accepted
      bytes, a complete transfer has its declared size and checksum, and every
      transfer was given away at most once. */
  lemma TransfersAreSound(h: Hash, steps: seq<Step>, id: Id)
    requires Runs(h, NEW_STORE, steps)
    ensures var s := After(h, NEW_STORE, steps);
            && (id in s.entries && !s.entries[id].busy ==>
                  id in s.files && id in s.accepted && s.files[id] == s.accepted[id]
                      && |s.files[id]| == s.entries[id].offset)
            && (id in s.entries && s.entries[id].complete ==>
                  id in s.files && |s.files[id]| == s.entries[id].size && h(s.files[id]) == s.entries[id].checksum)
            && (forall i, j | 0 <= i < j < |s.consumed| :: s.consumed[i] != s.consumed[j])
  {
    assert Inv(h, NEW_STORE);
    RunKeepsInv(h, NEW_STORE, steps);
    var s := After(h, NEW_STORE, steps);
    if id in s.entries {
      assert EntrySound(h, s, id, s.entries[id]);
    }
  }

  /** A removed entry is never brought back, whatever is still in flight. */
  lemma RemovedStaysAway(h: Hash, s: Store, steps: seq<Step>, id: Id)
    requires Inv(h, s) && Runs(h, s, steps) && id in s.gone
    ensures id !in After(h, s, steps).entries
  {
    RunKeepsInv(h, s, steps);
    GoneForGood(h, s, steps, id);
  }

  // ---- Close comes to an end ----

  /** Every file with a name belongs to an entry or was given away. */
  ghost predicate FilesAccounted(s: Store) {
    forall id | id in s.files :: id in s.entries || id in s.consumed
  }

  lemma AppendKeepsAccounted(h: Hash, s: Store, t: Step)
    requires FilesAccounted(s) && CanStep(h, s, t) && (Creates(t) || Appends(t))
    ensures FilesAccounted(Next(h, s, t))
  {
  }

  lemma RemoveKeepsAccounted(h: Hash, s: Store, t: Step)
    requires FilesAccounted(s) && CanStep(h, s, t) && (Downloading(t) || Removes(t))
    ensures FilesAccounted(Next(h, s, t))
  {
  }

  lemma NextKeepsAccounted(h: Hash, s: Store, t: Step)
    requires FilesAccounted(s) && CanStep(h, s, t)
    ensures FilesAccounted(Next(h, s, t))
  {
    EveryStep(t);
    hide FilesAccounted, CanStep, Next;
    if Creates(t) || Appends(t) {
      AppendKeepsAccounted(h, s, t);
    } else {
      RemoveKeepsAccounted(h, s, t);
    }
  }

  /** An append still copies up to one byte more than the size, then is judged and
      releases the entry. */
  function AppendSteps(a: Append): nat {
    if a.stage.Releasing? then 1
    else 2 + if a.offset + |a.data| <= a.size then a.size + 1 - a.offset - |a.data| else 0
  }

  /** How many steps that change something a closed store can take, at most. */
  ghost function StepsLeft(s: Store): nat {
    Total(s.appends, AppendSteps) + |s.downloads| + |s.entries|
  }

  lemma OneLess<K, V>(m: map<K, V>, key: K)
    ensures |m - {key}| == |m| - if key in m then 1 else 0
  {
    assert (m - {key}).Keys == m.Keys - {key};
  }

  lemma SameSize<K, V>(m: map<K, V>, key: K, value: V)
    requires key in m
    ensures |m[key := value]| == |m|
  {
    assert m[key := value].Keys == m.Keys;
  }

  lemma EmptyCopy(h: Hash, s: Store, op: nat)
    requires CanStep(h, s, Copy(op, []))
    ensures Next(h, s, Copy(op, [])) == s
  {
    var a := s.appends[op];
    assert a.data + [] == a.data && s.appends[op := a] == s.appends;
    if a.id in s.files {
      assert s.files[a.id] + [] == s.files[a.id] && s.files[a.id := s.files[a.id]] == s.files;
    }
  }

  /** Only the append itself changes, and comes closer to its end. */
  lemma CopyMoves(h: Hash, s: Store, t: Step)
    requires CanStep(h, s, t) && (t.Copy? || t.FailOpen? || t.EndCopy?) && (t.Copy? ==> t.chunk != [])
    ensures var n := Next(h, s, t);
            && t.op in n.appends && n.appends == s.appends[t.op := n.appends[t.op]]
            && n.downloads == s.downloads && n.entries == s.entries && n.closed == s.closed
            && AppendSteps(n.appends[t.op]) < AppendSteps(s.appends[t.op])
  {
  }

  lemma CopyProgress(h: Hash, s: Store, t: Step)
    requires CanStep(h, s, t) && (t.Copy? || t.FailOpen? || t.EndCopy?)
    ensures Next(h, s, t).closed == s.closed
    ensures Next(h, s, t) == s || StepsLeft(Next(h, s, t)) < StepsLeft(s)
  {
    if t.Copy? && t.chunk == [] {
      EmptyCopy(h, s, t.op);
    } else {
      CopyMoves(h, s, t);
      hide CanStep, Next, Total, AppendSteps;
      TotalUpdate(s.appends, AppendSteps, t.op, Next(h, s, t).appends[t.op]);
    }
  }

  /** The append ends, and its entry is kept, removed or gone already. */
  lemma ReleaseMoves(h: Hash, s: Store, op: nat, expiresAt: int)
    requires CanStep(h, s, Release(op, expiresAt))
    ensures var n := Next(h, s, Release(op, expiresAt));
            && n.appends == s.appends - {op} && n.downloads == s.downloads && n.closed == s.closed
            && n.entries.Keys <= s.entries.Keys
  {
    var id, n := s.appends[op].id, Next(h, s, Release(op, expiresAt));
    if id in n.entries {
      assert n.entries == s.entries[id := n.entries[id]];
    }
  }

  lemma FewerEntries(some: map<Id, Entry>, all: map<Id, Entry>)
    requires some.Keys <= all.Keys
    ensures |some| <= |all|
  {
    assert all.Keys == some.Keys + (all.Keys - some.Keys);
  }

  lemma ReleaseProgress(h: Hash, s: Store, t: Step)
    requires CanStep(h, s, t) && t.Release?
    ensures Next(h, s, t).closed == s.closed && StepsLeft(Next(h, s, t)) < StepsLeft(s)
  {
    ReleaseMoves(h, s, t.op, t.expiresAt);
    TotalWithout(s.appends, AppendSteps, t.op);
    FewerEntries(Next(h, s, t).entries, s.entries);
    hide Next, Total;
  }

  lemma RemoveProgress(h: Hash, s: Store, t: Step)
    requires CanStep(h, s, t) && (t.Expire? || t.Discard? || t.Prune?)
    ensures Next(h, s, t).closed == s.closed && StepsLeft(Next(h, s, t)) < StepsLeft(s)
  {
    OneLess(s.entries, t.id);
  }

  lemma FinishProgress(h: Hash, s: Store, t: Step)
    requires CanStep(h, s, t) && t.FinishDownload?
    ensures Next(h, s, t).closed == s.closed && StepsLeft(Next(h, s, t)) < StepsLeft(s)
  {
    var id := s.downloads[t.op];
    OneLess(s.downloads, t.op);
    OneLess(s.entries, id);
    if id in s.entries && !t.consume {
      SameSize(s.entries, id, s.entries[id].(busy := false));
    }
  }

  lemma RemoveAllProgress(h: Hash, s: Store)
    requires CanStep(h, s, RemoveAll)
    ensures Next(h, s, RemoveAll).closed && Next(h, s, RemoveAll).entries == map[]
    ensures if s.entries == map[] then Next(h, s, RemoveAll) == s
            else Next(h, s, RemoveAll) != s && StepsLeft(Next(h, s, RemoveAll)) < StepsLeft(s)
  {
    var n := Next(h, s, RemoveAll);
    if s.entries == map[] {
      assert n.files == s.files && n.gone == s.gone;
    } else {
      assert |s.entries| > 0;
    }
  }

  /** Every step of a closed store changes nothing or brings the end closer. */
  lemma CloseProgress(h: Hash, s: Store, t: Step)
    requires s.closed && CanStep(h, s, t)
    ensures Next(h, s, t).closed
    ensures Next(h, s, t) == s || StepsLeft(Next(h, s, t)) < StepsLeft(s)
  {
    assert !t.BeginUpload? && !t.Stage? && !t.StartAppend? && !t.Take? && !t.OpenDownload? && !t.Close?;
    hide CanStep, Next, StepsLeft;
    match t
    case Release(_, _) => ReleaseProgress(h, s, t);
    case FinishDownload(_, _) => FinishProgress(h, s, t);
    case RemoveAll => RemoveAllProgress(h, s);
    case Expire(_, _) => RemoveProgress(h, s, t);
    case Discard(_) => RemoveProgress(h, s, t);
    case Prune(_, _) => RemoveProgress(h, s, t);
    case _ => CopyProgress(h, s, t);
  }

  predicate Finished(s: Store) {
    s.appends == map[] && s.downloads == map[] && s.entries == map[]
  }

  predicate Quiet(h: Hash, s: Store, t: Step) {
    CanStep(h, s, t) ==> Next(h, s, t) == s
  }

  /** Until nothing is left, some operation in progress can go on, or Close
      empties the store. */
  lemma CloseIsNotStuck(h: Hash, s: Store) returns (t: Step)
    requires s.closed && !Finished(s)
    ensures !Quiet(h, s, t)
  {
    if op :| op in s.appends {
      t := if s.appends[op].stage.Copying? then EndCopy(op, true) else Release(op, 0);
      if t.Release? {
        ReleaseProgress(h, s, t);
      } else {
        assert Next(h, s, t).appends[op] != s.appends[op];
      }
    } else if op :| op in s.downloads {
      t := FinishDownload(op, false);
      FinishProgress(h, s, t);
    } else {
      t := RemoveAll;
      RemoveAllProgress(h, s);
    }
  }

  lemma FinishedIsQuiet(h: Hash, s: Store, t: Step)
    requires s.closed && Finished(s)
    ensures Quiet(h, s, t)
  {
    if t.RemoveAll? && CanStep(h, s, t) {
      RemoveAllProgress(h, s);
    }
  }

  /** How many of the steps change something. */
  ghost function Changes(h: Hash, s: Store, steps: seq<Step>): nat
    requires Runs(h, s, steps)
    decreases |steps|
  {
    if steps == [] then 0
    else
      var n := Next(h, s, steps[0]);
      (if n == s then 0 else 1) + Changes(h, n, steps[1..])
  }

  /** In every run a closed store changes at most so often, and when nothing can
      change any more, every operation has ended, no entry is left, and no file
      but those that were given away. */
  lemma {:induction false} CloseEnds(h: Hash, s: Store, steps: seq<Step>)
    requires s.closed && FilesAccounted(s) && Runs(h, s, steps)
    ensures Changes(h, s, steps) <= StepsLeft(s)
    ensures (forall t :: Quiet(h, After(h, s, steps), t)) <==> Finished(After(h, s, steps))
    ensures Finished(After(h, s, steps)) ==>
              forall id | id in After(h, s, steps).files :: id in After(h, s, steps).consumed
    decreases |steps|
  {
    if steps == [] {
      if Finished(s) {
        forall t
          ensures Quiet(h, s, t)
        {
          FinishedIsQuiet(h, s, t);
        }
      } else {
        var t := CloseIsNotStuck(h, s);
      }
    } else {
      CloseProgress(h, s, steps[0]);
      NextKeepsAccounted(h, s, steps[0]);
      hide CanStep, Next, StepsLeft, FilesAccounted, Quiet, Finished;
      CloseEnds(h, Next(h, s, steps[0]), steps[1..]);
    }
  }

  /** And every reachable store accounts for its files. */
  lemma {:induction false} RunKeepsAccounted(h: Hash, s: Store, steps: seq<Step>)
    requires FilesAccounted(s) && Runs(h, s, steps)
    ensures FilesAccounted(After(h, s, steps))
    decreases |steps|
  {
    if steps != [] {
      hide FilesAccounted, CanStep, Next;
      NextKeepsAccounted(h, s, steps[0]);
      RunKeepsAccounted(h, Next(h, s, steps[0]), steps[1..]);
    }
  }
}
