/** The file transfer store: its entries and files, and one method for each
    critical section, with the errors in the order the source checks them. */
module FileTransferStores {
  import opened Wrappers
  import opened FileTransferSteps

  datatype TransferError =
    | InvalidTransfer | TooLarge | StoreClosed | NotFound | Expired | Incomplete | TransferBusy | WrongOffset | Checksum

  datatype Status = Status(size: nat, offset: nat, complete: bool)

  function StatusOf(e: Entry): Status {
    Status(e.size, e.offset, e.complete)
  }

  class FileTransferStore {
    const h: Hash
    const maxBytes: nat
    var entries: map<Id, Entry>
    var files: map<Id, Bytes>
    var closed: bool
    /** The operations that hold no lock at the moment, as the callers keep them. */
    var appends: map<nat, Append>
    var downloads: map<nat, Id>
    ghost var used: set<Id>
    ghost var gone: set<Id>
    ghost var accepted: map<Id, Bytes>
    ghost var consumed: seq<Id>

    ghost function View(): Store
      reads this
    {
      Store(entries, files, closed, appends, downloads, used, gone, accepted, consumed)
    }

    ghost predicate Valid()
      reads this
    {
      Inv(h, View())
    }

    constructor (h: Hash, maxBytes: nat)
      ensures View() == NEW_STORE && Valid() && this.h == h && this.maxBytes == maxBytes
    {
      this.h, this.maxBytes := h, maxBytes;
      entries, files, closed, appends, downloads := map[], map[], false, map[], map[];
      used, gone, accepted, consumed := {}, {}, map[], [];
    }

    /** The id is fresh and random; the file is created empty. */
    method BeginUpload(id: Id, validMetadata: bool, size: int, checksum: string, expiresAt: int)
      returns (r: Result<Status, TransferError>)
      requires Valid() && id !in used
      modifies this
      ensures Valid() && (r.Ok? ==> Intact(h, View(), id))
      ensures r.Ok? <==> validMetadata && 0 <= size <= maxBytes && !closed && (size == 0 ==> checksum == EmptyHash(h))
      ensures r.Ok? ==> Goes(h, old(View()), Step.BeginUpload(id, size, checksum, expiresAt), View())
                        && r.value == Status(size, 0, size == 0)
      ensures r.Ok? ==> entries == old(entries)[id := Entry(size, checksum, expiresAt, 0, true, size == 0, false)]
      ensures r.Err? ==> View() == old(View())
      ensures r.Err? ==> r.error == if !validMetadata || size < 0 then InvalidTransfer
                                    else if size > maxBytes then TooLarge
                                    else if closed then StoreClosed else Checksum
    {
      if !validMetadata || size < 0 { return Err(InvalidTransfer); }
      if size > maxBytes { return Err(TooLarge); }
      if closed { return Err(StoreClosed); }
      var entry := Entry(size, checksum, expiresAt, 0, true, size == 0, false);
      if entry.complete && checksum != EmptyHash(h) { return Err(Checksum); }
      NextKeepsInv(h, View(), Step.BeginUpload(id, size, checksum, expiresAt));
      IdleIsIntact(h, Next(h, View(), Step.BeginUpload(id, size, checksum, expiresAt)), id);
      hide Inv;
      files := files[id := []];
      entries := entries[id := entry];
      used := used + {id};
      accepted := accepted[id := []];
      r := Ok(StatusOf(entry));
    }

    /** The first critical section of AppendUpload. An expired entry goes even
        while another append works on it. */
    method StartAppend(op: nat, id: Id, offset: nat, now: int) returns (r: Result<Status, TransferError>, started: bool)
      requires Valid() && op !in appends
      modifies this
      ensures Valid()
      ensures started ==> Goes(h, old(View()), Step.StartAppend(op, id, offset, now), View())
      ensures r == Err(Expired) ==> Goes(h, old(View()), Step.Expire(id, now), View())
      ensures !started && r != Err(Expired) ==> View() == old(View())
      ensures started <==> && !closed && id in old(entries) && old(entries)[id].upload
                           && now < old(entries)[id].expiresAt && !old(entries)[id].busy
                           && offset == old(entries)[id].offset && !old(entries)[id].complete
      ensures r.Ok? ==>
                && id in old(entries) && r.value == StatusOf(old(entries)[id])
                && (started || old(entries)[id].complete)
      ensures r.Err? ==>
                r.error == if closed then StoreClosed
                           else if id !in old(entries) || !old(entries)[id].upload then NotFound
                           else if old(entries)[id].expiresAt <= now then Expired
                           else if old(entries)[id].busy then TransferBusy else WrongOffset
    {
      hide Inv;
      started := false;
      if closed { return Err(StoreClosed), false; }
      if id !in entries || !entries[id].upload { return Err(NotFound), false; }
      var entry := entries[id];
      if entry.expiresAt <= now {
        NextKeepsInv(h, View(), Step.Expire(id, now));
        RemoveEntry(id);
        return Err(Expired), false;
      }
      if entry.busy { return Err(TransferBusy), false; }
      if offset != entry.offset { return Err(WrongOffset), false; }
      if entry.complete { return Ok(StatusOf(entry)), false; }
      NextKeepsInv(h, View(), Step.StartAppend(op, id, offset, now));
      entries := entries[id := entry.(busy := true)];
      appends := appends[op := Append(id, entry.offset, entry.size, entry.checksum, [], Copying)];
      r, started := Ok(StatusOf(entry)), true;
    }

    method RemoveEntry(id: Id)
      modifies `entries, `files, `gone
      ensures View() == Removed(old(View()), id)
    {
      entries := entries - {id};
      files := files - {id};
      gone := gone + {id};
    }

    /** io.Copy into the open file, which may have lost its name meanwhile. */
    method CopyChunk(op: nat, chunk: Bytes)
      requires Valid() && CanStep(h, View(), Copy(op, chunk))
      modifies `appends, `files
      ensures Valid() && Goes(h, old(View()), Copy(op, chunk), View())
      ensures var id := old(appends)[op].id;
              && files.Keys == old(files.Keys)
              && (id in entries ==> id in files && id in accepted && files[id] == accepted[id] + appends[op].data)
    {
      hide Inv;
      NextKeepsInv(h, View(), Copy(op, chunk));
      if appends[op].id in entries { AppendExtends(h, Next(h, View(), Copy(op, chunk)), op); }
      var a := appends[op];
      if a.id in files {
        files := files[a.id := files[a.id] + chunk];
      }
      appends := appends[op := a.(data := a.data + chunk)];
    }

    /** What AppendUpload decides without the lock: too long, not stored, or the
        completed file read back with another checksum. */
    method EndCopy(op: nat, ioError: bool) returns (error: Option<TransferError>)
      requires Valid() && CanStep(h, View(), Step.EndCopy(op, ioError))
      modifies `appends
      ensures Valid()
      ensures error.None? ==> var a := old(appends)[op];
                && a.offset + |a.data| <= a.size
                && (a.offset + |a.data| == a.size ==> a.id in files && h(files[a.id]) == a.checksum)
      ensures Goes(h, old(View()), Step.EndCopy(op, ioError), View())
      ensures error.Some? <==> appends[op].stage == Releasing(true)
    {
      hide Inv;
      NextKeepsInv(h, View(), Step.EndCopy(op, ioError));
      var a := appends[op];
      var end := a.offset + |a.data|;
      error := None;
      if end > a.size {
        error := Some(TooLarge);
      } else if ioError {
        error := Some(InvalidTransfer);
      } else if end == a.size {
        if a.id !in files {
          error := Some(NotFound);
        } else if h(files[a.id]) != a.checksum {
          error := Some(Checksum);
        }
      }
      appends := appends[op := a.(stage := Releasing(error.Some?))];
    }

    /** releaseUpload: does nothing to an entry that was removed meanwhile. */
    method ReleaseUpload(op: nat, expiresAt: int)
      requires Valid() && CanStep(h, View(), Step.Release(op, expiresAt))
      modifies this
      ensures Valid() && Goes(h, old(View()), Step.Release(op, expiresAt), View())
      ensures var a := old(appends)[op];
              && (a.id in entries <==> a.id in old(entries) && !a.stage.remove)
              && (a.id in entries ==>
                    && Intact(h, View(), a.id) && !entries[a.id].busy && files == old(files)
                    && entries[a.id].expiresAt == expiresAt && entries[a.id].offset == a.offset + |a.data|
                    && a.id in old(accepted) && accepted[a.id] == old(accepted)[a.id] + a.data)
    {
      hide Inv;
      ghost var next := Next(h, View(), Step.Release(op, expiresAt));
      NextKeepsInv(h, View(), Step.Release(op, expiresAt));
      if appends[op].id in next.entries {
        IdleIsIntact(h, next, appends[op].id);
        AppendExtends(h, View(), op);
      }
      var a := appends[op];
      var offset := a.offset + |a.data|;
      appends := appends - {op};
      if a.stage.remove {
        RemoveEntry(a.id);
      } else if a.id in entries {
        var entry := entries[a.id];
        entries := entries[a.id := entry.(offset := offset, complete := offset == entry.size, busy := false,
                                          expiresAt := expiresAt)];
        accepted := accepted[a.id := (if a.id in accepted then accepted[a.id] else []) + a.data];
      }
    }

    method UploadStatus(id: Id, now: int) returns (r: Result<Status, TransferError>)
      requires Valid()
      modifies this
      ensures Valid()
      ensures r == Err(Expired) ==> Goes(h, old(View()), Step.Expire(id, now), View())
      ensures r != Err(Expired) ==> View() == old(View())
      ensures r.Ok? ==>
                && id in entries && entries[id].upload && now < entries[id].expiresAt
                && r.value == StatusOf(entries[id])
      ensures r.Err? ==> r.error == if closed then StoreClosed
                                    else if id in old(entries) && old(entries)[id].upload then Expired else NotFound
    {
      if closed { return Err(StoreClosed); }
      if id in entries && !entries[id].upload { return Err(NotFound); }
      if id !in entries { return Err(NotFound); }
      hide Inv;
      if entries[id].expiresAt <= now {
        NextKeepsInv(h, View(), Step.Expire(id, now));
        RemoveEntry(id);
        return Err(Expired);
      }
      r := Ok(StatusOf(entries[id]));
    }

    /** An expired transfer is removed too, but not given away. */
    method TakeTransfer(id: Id, now: int) returns (r: Result<Bytes, TransferError>)
      requires Valid()
      modifies this
      ensures Valid()
      ensures CanStep(h, old(View()), Step.Take(id, now)) ==> Goes(h, old(View()), Step.Take(id, now), View())
      ensures !CanStep(h, old(View()), Step.Take(id, now)) ==> View() == old(View()) && r.Err?
      ensures r.Ok? ==> old(accepted).Keys >= {id} && r.value == old(accepted)[id]
                        && |r.value| == old(entries)[id].size && h(r.value) == old(entries)[id].checksum
      ensures r.Ok? <==> && !closed && id in old(entries) && old(entries)[id].complete && !old(entries)[id].busy
                         && now < old(entries)[id].expiresAt
      ensures r.Err? ==>
                r.error == if closed then StoreClosed
                           else if id !in old(entries) then NotFound
                           else if !old(entries)[id].complete then Incomplete
                           else if old(entries)[id].busy then TransferBusy else Expired
    {
      hide Inv;
      if closed { return Err(StoreClosed); }
      if id in entries && !entries[id].complete { return Err(Incomplete); }
      if id in entries && entries[id].busy { return Err(TransferBusy); }
      if id !in entries { return Err(NotFound); }
      var entry := entries[id];
      IdleIsIntact(h, View(), id);
      r := Ok(files[id]);
      GiveAway(id, now);
      if entry.expiresAt <= now { return Err(Expired); }
    }

    method GiveAway(id: Id, now: int)
      requires Valid() && CanStep(h, View(), Step.Take(id, now))
      modifies `entries, `files, `gone, `consumed
      ensures Valid() && Goes(h, old(View()), Step.Take(id, now), View())
    {
      hide Inv;
      NextKeepsInv(h, View(), Step.Take(id, now));
      var expired := entries[id].expiresAt <= now;
      entries := entries - {id};
      gone := gone + {id};
      if expired {
        files := files - {id};
      } else {
        consumed := consumed + [id];
      }
    }

    method OpenDownload(op: nat, id: Id, offset: nat, now: int) returns (r: Result<Status, TransferError>)
      requires Valid() && op !in downloads
      modifies this
      ensures Valid() && (r.Ok? ==> Intact(h, View(), id))
      ensures r.Ok? <==> && !closed && id in old(entries) && !old(entries)[id].upload && old(entries)[id].complete
                         && now < old(entries)[id].expiresAt && !old(entries)[id].busy
                         && offset <= old(entries)[id].size
      ensures r.Ok? ==> CanStep(h, old(View()), Step.OpenDownload(op, id, offset, now))
                        && Goes(h, old(View()), Step.OpenDownload(op, id, offset, now), View())
      ensures r == Err(Expired) ==> Goes(h, old(View()), Step.Expire(id, now), View())
      ensures r.Err? && r.error != Expired ==> View() == old(View())
      ensures r.Err? ==>
                r.error == if closed then StoreClosed
                           else if id !in old(entries) || old(entries)[id].upload || !old(entries)[id].complete
                             then NotFound
                           else if old(entries)[id].expiresAt <= now then Expired
                           else if old(entries)[id].busy then TransferBusy else WrongOffset
    {
      if closed { return Err(StoreClosed); }
      if id !in entries || entries[id].upload || !entries[id].complete { return Err(NotFound); }
      hide Inv, Intact;
      var entry := entries[id];
      if entry.expiresAt <= now {
        NextKeepsInv(h, View(), Step.Expire(id, now));
        RemoveEntry(id);
        return Err(Expired);
      }
      if entry.busy { return Err(TransferBusy); }
      if offset > entry.size { return Err(WrongOffset); }
      Claim(op, id, offset, now);
      r := Ok(StatusOf(entry));
    }

    method Claim(op: nat, id: Id, offset: nat, now: int)
      requires Valid() && CanStep(h, View(), Step.OpenDownload(op, id, offset, now))
      modifies `entries, `downloads
      ensures Valid() && Goes(h, old(View()), Step.OpenDownload(op, id, offset, now), View()) && Intact(h, View(), id)
    {
      hide Inv, Intact;
      NextKeepsInv(h, View(), Step.OpenDownload(op, id, offset, now));
      IdleIsIntact(h, Next(h, View(), Step.OpenDownload(op, id, offset, now)), id);
      entries := entries[id := entries[id].(busy := true)];
      downloads := downloads[op := id];
    }

    /** Closing a download, or committing it, which gives the transfer away. */
    method FinishDownload(op: nat, consume: bool)
      requires Valid() && CanStep(h, View(), Step.FinishDownload(op, consume))
      modifies this
      ensures Valid() && Goes(h, old(View()), Step.FinishDownload(op, consume), View())
      ensures var id := old(downloads)[op];
              && id !in old(consumed) && consumed == (if consume then old(consumed) + [id] else old(consumed))
              && (id in entries <==> id in old(entries) && !consume)
              && (id in entries ==> Intact(h, View(), id) && !entries[id].busy && files == old(files))
              && (consume ==> id !in files)
    {
      hide Inv;
      ghost var next := Next(h, View(), Step.FinishDownload(op, consume));
      NextKeepsInv(h, View(), Step.FinishDownload(op, consume));
      NotYetConsumed(h, View(), op);
      if downloads[op] in next.entries { IdleIsIntact(h, next, downloads[op]); }
      var id := downloads[op];
      downloads := downloads - {op};
      if consume {
        RemoveEntry(id);
        consumed := consumed + [id];
      } else if id in entries {
        entries := entries[id := entries[id].(busy := false)];
      }
    }

    method RemoveIdle(id: Id, now: int)
      requires Valid() && CanStep(h, View(), Step.Prune(id, now))
      modifies `entries, `files, `gone
      ensures Valid() && View() == Removed(old(View()), id)
    {
      NextKeepsInv(h, View(), Step.Prune(id, now));
      hide Inv;
      RemoveEntry(id);
    }

    /** Removes every expired entry that nothing works on. */
    method PruneExpired(now: int)
      requires Valid()
      modifies `entries, `files, `gone
      ensures Valid()
      ensures forall id :: id in entries <==>
                && id in old(entries)
                && (old(entries)[id].busy || now < old(entries)[id].expiresAt)
      ensures forall id | id in entries :: entries[id] == old(entries)[id]
      ensures files.Keys == old(files.Keys) - (old(entries.Keys) - entries.Keys)
      ensures forall id | id in files :: files[id] == old(files)[id]
      ensures gone == old(gone) + (old(entries.Keys) - entries.Keys)
    {
      hide Inv;
      var rest := entries.Keys;
      while rest != {}
        invariant Valid() && rest <= entries.Keys
        invariant forall id :: id in entries <==>
                                 && id in old(entries)
                                 && (id in rest || old(entries)[id].busy || now < old(entries)[id].expiresAt)
        invariant forall id | id in entries :: entries[id] == old(entries)[id]
        invariant files.Keys == old(files.Keys) - (old(entries.Keys) - entries.Keys)
        invariant forall id | id in files :: files[id] == old(files)[id]
        invariant gone == old(gone) + (old(entries.Keys) - entries.Keys)
        decreases rest
      {
        var id :| id in rest;
        rest := rest - {id};
        if !entries[id].busy && entries[id].expiresAt <= now {
          RemoveIdle(id, now);
        }
      }
    }
  }
}
