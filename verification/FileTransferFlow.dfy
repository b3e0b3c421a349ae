/** What a client of the transfer store can do next: after every step that lets
    go of a transfer the next one can begin, and while one works on it no other can. */
module FileTransferFlows {
  import opened FileTransferSteps

  /** No other append, download or take can begin on the transfer. */
  ghost predicate Claimed(h: Hash, s: Store, id: Id) {
    && (forall op, offset, now :: !CanStep(h, s, StartAppend(op, id, offset, now)))
    && (forall op, offset, now :: !CanStep(h, s, OpenDownload(op, id, offset, now)))
    && (forall now :: !CanStep(h, s, Take(id, now)))
  }

  /** An upload can be appended to at exactly one offset, until it expires. */
  ghost predicate Appendable(h: Hash, s: Store, id: Id, offset: nat, expiresAt: int) {
    forall op, at: nat, now | op !in s.appends :: CanStep(h, s, StartAppend(op, id, at, now)) <==>
                                                  at == offset && now < expiresAt
  }

  /** A download can be opened at every offset, until it expires. */
  ghost predicate Openable(h: Hash, s: Store, id: Id, size: nat, expiresAt: int) {
    forall op, at: nat, now | op !in s.downloads :: CanStep(h, s, OpenDownload(op, id, at, now)) <==>
                                                    at <= size && now < expiresAt
  }

  lemma BegunUpload(h: Hash, s: Store, id: Id, size: nat, checksum: string, expiresAt: int)
    requires CanStep(h, s, BeginUpload(id, size, checksum, expiresAt)) && size > 0
    ensures var n := Next(h, s, BeginUpload(id, size, checksum, expiresAt));
            && Appendable(h, n, id, 0, expiresAt) && n.files[id] == [] && n.accepted[id] == []
            && forall now :: !CanStep(h, n, Take(id, now))
  {
  }

  /** A running append has the upload for itself. */
  lemma StartedAppend(h: Hash, s: Store, op: nat, id: Id, offset: nat, now: int)
    requires Inv(h, s) && CanStep(h, s, StartAppend(op, id, offset, now))
    ensures var n := Next(h, s, StartAppend(op, id, offset, now));
            && Claimed(h, n, id) && CanStep(h, n, Copy(op, [])) && n.entries[id].offset == offset
  {
  }

  /** When it lets go of an upload that is still there, the upload goes on behind
      the new bytes, or is complete and can be taken; a file that could not be
      opened changes nothing but the time. */
  lemma ReleasedAppend(h: Hash, s: Store, op: nat, expiresAt: int)
    requires Inv(h, s) && CanStep(h, s, Release(op, expiresAt)) && !s.closed
    requires !s.appends[op].stage.remove && s.appends[op].id in s.entries
    ensures var a := s.appends[op]; var n := Next(h, s, Release(op, expiresAt));
            var offset := a.offset + |a.data|;
            && a.id in n.entries && op !in n.appends
            && (offset < a.size ==> Appendable(h, n, a.id, offset, expiresAt))
            && (offset == a.size ==> forall now :: CanStep(h, n, Take(a.id, now)))
  {
    assert AppendSound(h, s, s.appends[op]);
  }

  /** One byte too many can be copied, no more, and is refused. */
  lemma OverlongAppend(h: Hash, s: Store, op: nat, chunk: Bytes, ioError: bool)
    requires op in s.appends && s.appends[op].stage.Copying?
    ensures var length := s.appends[op].offset + |s.appends[op].data| + |chunk|;
            && (CanStep(h, s, Copy(op, chunk)) <==> length <= s.appends[op].size + 1)
            && (length == s.appends[op].size + 1 ==>
                  && var n := Next(h, s, Copy(op, chunk));
                  CanStep(h, n, EndCopy(op, ioError)) && Next(h, n, EndCopy(op, ioError)).appends[op].stage.Releasing?
                  && Next(h, n, EndCopy(op, ioError)).appends[op].stage.remove)
  {
  }

  lemma FailedOpen(h: Hash, s: Store, op: nat, expiresAt: int)
    requires Inv(h, s) && CanStep(h, s, FailOpen(op)) && s.appends[op].id in s.entries
    ensures var id := s.appends[op].id; var failed := Next(h, s, FailOpen(op));
            && CanStep(h, failed, Release(op, expiresAt))
            && var n := Next(h, failed, Release(op, expiresAt));
            id in n.entries && n.entries[id] == s.entries[id].(busy := false, expiresAt := expiresAt)
  {
    assert AppendSound(h, s, s.appends[op]);
  }

  /** A staged file is a download from the start, whole and not an upload. */
  lemma StagedDownload(h: Hash, s: Store, id: Id, content: Bytes, expiresAt: int)
    requires CanStep(h, s, Stage(id, content, expiresAt))
    ensures var n := Next(h, s, Stage(id, content, expiresAt));
            && Openable(h, n, id, |content|, expiresAt) && n.files[id] == content
            && forall op, at, now :: !CanStep(h, n, StartAppend(op, id, at, now))
  {
  }

  lemma OpenedDownload(h: Hash, s: Store, op: nat, id: Id, offset: nat, now: int)
    requires CanStep(h, s, OpenDownload(op, id, offset, now))
    ensures var n := Next(h, s, OpenDownload(op, id, offset, now));
            && Claimed(h, n, id) && n.files == s.files
            && forall consume :: CanStep(h, n, FinishDownload(op, consume)) && n.downloads[op] == id
  {
  }

  /** A download that is closed can be opened again; one that is committed is gone. */
  lemma FinishedDownload(h: Hash, s: Store, op: nat)
    requires Inv(h, s) && CanStep(h, s, FinishDownload(op, false)) && s.downloads[op] in s.entries && !s.closed
    ensures var id := s.downloads[op]; var n := Next(h, s, FinishDownload(op, false));
            id in n.entries && Openable(h, n, id, n.entries[id].size, n.entries[id].expiresAt)
    ensures var id := s.downloads[op]; var n := Next(h, s, FinishDownload(op, true));
            id !in n.entries && id in n.gone && id !in n.files && id in n.consumed
  {
  }

  /** Taking a transfer in time gives its file away; too late, the file goes. */
  lemma Taken(h: Hash, s: Store, id: Id, now: int)
    requires Inv(h, s) && CanStep(h, s, Take(id, now))
    ensures var n := Next(h, s, Take(id, now));
            && id !in n.entries && id in n.gone
            && (now < s.entries[id].expiresAt ==> n.files == s.files && n.consumed == s.consumed + [id])
            && (now >= s.entries[id].expiresAt ==> n.files == s.files - {id} && n.consumed == s.consumed)
  {
  }

  predicate Begins(t: Step) {
    t.BeginUpload? || t.Stage? || t.StartAppend? || t.Take? || t.OpenDownload?
  }

  /** Closing stops every new operation, and in the end removes what is left. */
  lemma ClosedBeginsNothing(h: Hash, s: Store, t: Step)
    requires CanStep(h, s, Close) && Begins(t)
    ensures !CanStep(h, Next(h, s, Close), t)
  {
  }

  lemma RemovedAll(h: Hash, s: Store)
    requires Inv(h, s) && CanStep(h, s, RemoveAll)
    ensures var n := Next(h, s, RemoveAll);
            n.entries == map[] && s.entries.Keys <= n.gone && n.files.Keys == s.files.Keys - s.entries.Keys
  {
  }
}
