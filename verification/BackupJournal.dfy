/** `BackupJournal` of `cogni_flow/production.py`: prepare, mark, roll back and
    recover, each as its own sequence of disk steps. */
module BackupJournal {
  import opened Basics
  import opened Disk
  import opened Journal

  class BackupJournal {
    const fs: FileSystem
    const limits: Limits

    constructor (fs: FileSystem, limits: Limits)
      ensures this.fs == fs && this.limits == limits
    {
      this.fs, this.limits := fs, limits;
    }

    /** The disk carries a journal that can be read. */
    ghost predicate Ready()
      reads this, fs
    {
      fs.Valid() && Backed(fs.View(), limits)
    }

    /** `_load_record`: checks the backup and the target before it trusts the metadata. */
    method LoadRecord(id: Id) returns (ok: bool, record: Record)
      requires fs.Valid()
      ensures ok ==> id in fs.meta && record == fs.meta[id] && record.path in fs.live
      ensures ok ==> id in fs.backups && |fs.backups[id]| <= limits.maxBackupBytes
      ensures fs.reliable && !ok ==>
        !(id in fs.meta && fs.meta[id].path in fs.live && id in fs.backups && |fs.backups[id]| <= limits.maxBackupBytes)
      ensures fs.reliable && Backed(fs.View(), limits) && id in fs.meta ==> ok
    {
      record := Record("", Sha256([]), Sha256([]), Aborted, 0);
      var fault := fs.Fault();
      if fault || id !in fs.meta { return false, record; }
      record := fs.meta[id];
      if record.path !in fs.live { return false, record; }
      if id !in fs.backups || |fs.backups[id]| > limits.maxBackupBytes { return false, record; }
      ok := true;
    }

    /** `mark`: a prepared record gets a terminal status, once. */
    method Mark(id: Id, status: Status) returns (ok: bool)
      requires Ready() && status != Prepared
      modifies fs
      ensures Ready() && old(fs.trace) <= fs.trace && Kept(old(fs.trace), fs.trace, limits)
      ensures old(!IsPrepared(fs.View(), id)) ==> fs.trace == old(fs.trace) && fs.View() == old(fs.View())
      ensures old(IsPrepared(fs.View(), id)) ==>
        Grew(old(fs.trace), fs.trace, old(fs.View()), old(fs.View().(meta := fs.meta[id := fs.meta[id].(status := status)])))
      ensures fs.live == old(fs.live) && fs.backups == old(fs.backups)
      ensures ok ==> fs.temps == old(fs.temps) && fs.strays == old(fs.strays)
      ensures fs.meta == old(fs.meta) ||
        (old(IsPrepared(fs.View(), id)) && fs.meta == old(fs.meta[id := fs.meta[id].(status := status)]))
      ensures ok ==> id in fs.meta && fs.meta[id].status == status
      ensures ok && old(IsPrepared(fs.View(), id)) ==> fs.meta == old(fs.meta[id := fs.meta[id].(status := status)])
      ensures fs.reliable && old(IsPrepared(fs.View(), id)) ==> ok
    {
      hide Backed;
      hide Grew;
      hide Kept;
      var current;
      ok, current := LoadRecord(id);
      Nothing(fs.trace, limits);
      if !ok {
        GrewNothing(fs.trace, fs.View(), id, status);
        return;
      }
      if current.status != Prepared { return current.status == status; }
      ok := Close(id, status);
    }

    /** The record of an open promotion is rewritten. */
    method Close(id: Id, status: Status) returns (ok: bool)
      requires Ready() && status != Prepared && IsPrepared(fs.View(), id)
      modifies fs
      ensures Ready() && old(fs.trace) <= fs.trace && Kept(old(fs.trace), fs.trace, limits)
      ensures Grew(old(fs.trace), fs.trace, old(fs.View()), old(fs.View().(meta := fs.meta[id := fs.meta[id].(status := status)])))
      ensures fs.live == old(fs.live) && fs.backups == old(fs.backups)
      ensures ok ==> fs.temps == old(fs.temps) && fs.strays == old(fs.strays)
      ensures fs.meta == old(fs.meta) || fs.meta == old(fs.meta[id := fs.meta[id].(status := status)])
      ensures ok ==> fs.meta == old(fs.meta[id := fs.meta[id].(status := status)])
      ensures fs.reliable ==> ok
    {
      ghost var a, before := fs.View(), fs.trace;
      CloseIsBacked(a, limits, id, status);
      hide Backed;
      ok := fs.ReplaceMeta(id, fs.meta[id].(status := status));
      GrowKept(before, fs.trace, a, a.(meta := a.meta[id := a.meta[id].(status := status)]), limits);
      hide Kept;
      Last(before, fs.trace, limits);
    }

    /** Replaces the file of an open record by its before or after bytes. */
    method WriteTarget(id: Id, payload: Bytes) returns (ok: bool)
      requires Ready() && IsPrepared(fs.View(), id)
      requires Sha256(payload) == fs.meta[id].before || Sha256(payload) == fs.meta[id].after
      modifies fs
      ensures Ready() && Kept(old(fs.trace), fs.trace, limits) && Quiet(old(fs.trace), fs.trace, limits)
      ensures fs.meta == old(fs.meta) && fs.backups == old(fs.backups)
      ensures ok ==> fs.temps == old(fs.temps) && fs.strays == old(fs.strays)
      ensures fs.live == old(fs.live) || fs.live == old(fs.live[fs.meta[id].path := payload])
      ensures ok ==> fs.live == old(fs.live[fs.meta[id].path := payload])
      ensures fs.reliable ==> ok
    {
      ghost var d0, t0 := fs.View(), fs.trace;
      ok := fs.ReplaceLive(fs.meta[id].path, payload);
      ghost var d1 := d0.(live := d0.live[d0.meta[id].path := payload]);
      assert Backed(d1, limits);
      GrowKept(t0, fs.trace, d0, d1, limits);
      if Sound(d0, limits) { ReplaceStep(d0, limits, id, payload); }
      GrowCrashable(t0, fs.trace, d0, d1, limits);
      Last(t0, fs.trace, limits);
    }

    /** `mark` of a file that is at its backup, if its record is still open. */
    method MarkRestored(id: Id, status: Status) returns (ok: bool)
      requires Ready() && status != Prepared
      requires IsPrepared(fs.View(), id) ==> fs.live[fs.meta[id].path] == fs.backups[id]
      modifies fs
      ensures Ready() && Kept(old(fs.trace), fs.trace, limits) && Quiet(old(fs.trace), fs.trace, limits)
      ensures fs.live == old(fs.live) && fs.backups == old(fs.backups)
      ensures ok ==> fs.temps == old(fs.temps) && fs.strays == old(fs.strays)
      ensures fs.meta == old(fs.meta) || (old(IsPrepared(fs.View(), id)) && fs.meta == old(fs.meta[id := fs.meta[id].(status := status)]))
      ensures ok ==> id in fs.meta && fs.meta[id].status == status
      ensures ok && old(IsPrepared(fs.View(), id)) ==> fs.meta == old(fs.meta[id := fs.meta[id].(status := status)])
      ensures fs.reliable && old(IsPrepared(fs.View(), id)) ==> ok
    {
      ghost var d0, t0 := fs.View(), fs.trace;
      Nothing(t0, limits);
      ok := Mark(id, status);
      if IsPrepared(d0, id) {
        if Sound(d0, limits) { CloseRestored(d0, limits, id, status); }
        GrowCrashable(t0, fs.trace, d0, d0.(meta := d0.meta[id := d0.meta[id].(status := status)]), limits);
      }
    }

    /** `mark` with status "committed": from here on recovery keeps the candidate. */
    method Commit(id: Id) returns (ok: bool)
      requires Ready() && IsPrepared(fs.View(), id)
      modifies fs
      ensures Ready() && Kept(old(fs.trace), fs.trace, limits)
      ensures Crashable(old(fs.trace), fs.trace, limits, old(Settled(fs.View())[fs.meta[id].path := fs.live[fs.meta[id].path]]))
      ensures fs.live == old(fs.live) && fs.backups == old(fs.backups)
      ensures ok ==> fs.temps == old(fs.temps) && fs.strays == old(fs.strays)
      ensures fs.meta == old(fs.meta) || fs.meta == old(fs.meta[id := fs.meta[id].(status := Committed)])
      ensures ok ==> fs.meta == old(fs.meta[id := fs.meta[id].(status := Committed)])
      ensures fs.reliable ==> ok
    {
      ghost var d0, t0 := fs.View(), fs.trace;
      ok := Mark(id, Committed);
      ghost var d1 := d0.(meta := d0.meta[id := d0.meta[id].(status := Committed)]);
      if Sound(d0, limits) { CloseStep(d0, limits, id, Committed); }
      GrowCrashable(t0, fs.trace, d0, d1, limits);
    }

    /** `rollback`: puts the backup back if the live file is still the candidate. */
    method Rollback(id: Id, status: Status) returns (ok: bool)
      requires Ready() && status != Prepared
      modifies fs
      ensures Ready() && Kept(old(fs.trace), fs.trace, limits) && Quiet(old(fs.trace), fs.trace, limits)
      ensures fs.backups == old(fs.backups)
      ensures ok ==> fs.temps == old(fs.temps) && fs.strays == old(fs.strays)
      ensures fs.meta == old(fs.meta) || (old(IsPrepared(fs.View(), id)) && fs.meta == old(fs.meta[id := fs.meta[id].(status := status)]))
      ensures fs.live == old(fs.live) || (old(IsPrepared(fs.View(), id)) && fs.live == old(fs.live[fs.meta[id].path := fs.backups[id]]))
      ensures fs.meta != old(fs.meta) ==> fs.live == old(fs.live[fs.meta[id].path := fs.backups[id]])
      ensures ok ==> old(IsPrepared(fs.View(), id))
      ensures ok ==> fs.live == old(fs.live[fs.meta[id].path := fs.backups[id]])
      ensures ok ==> fs.meta == old(fs.meta[id := fs.meta[id].(status := status)])
      ensures fs.reliable && old(IsPrepared(fs.View(), id) && Sha256(fs.live[fs.meta[id].path]) == fs.meta[id].after) ==> ok
    {
      ghost var t0 := fs.trace;
      Nothing(t0, limits);
      hide Kept;
      hide Quiet;
      var current;
      ok, current := LoadRecord(id);
      if !ok || current.status != Prepared { return false; }
      var live;
      ok, live := fs.ReadLive(current.path);
      if !ok || Sha256(live) != current.after { return false; }
      var fault := fs.Fault();
      var backup := fs.backups[id];
      if fault || |backup| > limits.maxBackupBytes || Sha256(backup) != current.before { return false; }
      ok := WriteTarget(id, backup);
      if !ok { return; }
      ghost var t1 := fs.trace;
      ok, live := fs.ReadLive(current.path);
      if !ok || Sha256(live) != current.before { return false; }
      ok := MarkRestored(id, status);
      ThenKept(t0, t1, fs.trace, limits);
      ThenQuiet(t0, t1, fs.trace, limits);
    }

    /** Removes one backup that no metadata names. */
    method RemoveOrphan(id: Id) returns (ok: bool)
      requires Ready() && id !in fs.meta
      modifies fs
      ensures Ready() && Kept(old(fs.trace), fs.trace, limits) && Quiet(old(fs.trace), fs.trace, limits)
      ensures fs.live == old(fs.live) && fs.meta == old(fs.meta) && fs.temps == old(fs.temps) && fs.strays == old(fs.strays)
      ensures fs.backups == (if ok then old(fs.backups) - {id} else old(fs.backups))
      ensures fs.reliable ==> ok
    {
      ghost var d0, t0 := fs.View(), fs.trace;
      ok := fs.UnlinkBackup(id);
      ghost var d1 := d0.(backups := d0.backups - {id});
      assert Backed(d0, limits) ==> Backed(d1, limits);
      GrowKept(t0, fs.trace, d0, d1, limits);
      if Sound(d0, limits) { OrphanBackup(d0, d1, limits); }
      GrowCrashable(t0, fs.trace, d0, d1, limits);
      Last(t0, fs.trace, limits);
    }

    method RemoveTemporary(id: Id) returns (ok: bool)
      requires Ready()
      modifies fs
      ensures Ready() && Kept(old(fs.trace), fs.trace, limits) && Quiet(old(fs.trace), fs.trace, limits)
      ensures fs.live == old(fs.live) && fs.meta == old(fs.meta) && fs.backups == old(fs.backups) && fs.strays == old(fs.strays)
      ensures fs.temps == (if ok then old(fs.temps) - {id} else old(fs.temps))
      ensures fs.reliable ==> ok
    {
      ghost var d0, t0 := fs.View(), fs.trace;
      ok := fs.UnlinkTemp(id);
      GrowKept(t0, fs.trace, d0, d0, limits);
      GrowCrashable(t0, fs.trace, d0, d0, limits);
      Last(t0, fs.trace, limits);
    }

    method RemoveTemporaries() returns (ok: bool)
      requires Ready()
      modifies fs
      ensures Ready() && Kept(old(fs.trace), fs.trace, limits) && Quiet(old(fs.trace), fs.trace, limits)
      ensures fs.live == old(fs.live) && fs.meta == old(fs.meta) && fs.backups == old(fs.backups) && fs.strays == old(fs.strays)
      ensures ok ==> fs.temps == {}
      ensures fs.reliable ==> ok
    {
      ghost var t0 := fs.trace;
      Nothing(t0, limits);
      hide Kept;
      hide Quiet;
      hide Backed;
      while fs.temps != {}
        invariant Ready() && Kept(t0, fs.trace, limits) && Quiet(t0, fs.trace, limits)
        invariant fs.live == old(fs.live) && fs.meta == old(fs.meta) && fs.backups == old(fs.backups) && fs.strays == old(fs.strays)
        decreases |fs.temps|
      {
        var id :| id in fs.temps;
        ghost var t1 := fs.trace;
        ok := RemoveTemporary(id);
        ThenKept(t0, t1, fs.trace, limits);
        ThenQuiet(t0, t1, fs.trace, limits);
        if !ok { return; }
      }
      ok := true;
    }

    method RemoveOrphans() returns (ok: bool)
      requires Ready()
      modifies fs
      ensures Ready() && Kept(old(fs.trace), fs.trace, limits) && Quiet(old(fs.trace), fs.trace, limits)
      ensures fs.live == old(fs.live) && fs.meta == old(fs.meta) && fs.temps == old(fs.temps) && fs.strays == old(fs.strays)
      ensures Trimmed(old(fs.backups), fs.backups, fs.meta)
      ensures ok ==> fs.backups.Keys <= fs.meta.Keys
      ensures fs.reliable ==> ok
    {
      ghost var t0, backups0 := fs.trace, fs.backups;
      Nothing(t0, limits);
      assert Trimmed(fs.backups, fs.backups, fs.meta);
      hide Kept;
      hide Quiet;
      hide Backed;
      hide Trimmed;
      var orphans := fs.backups.Keys - fs.meta.Keys;
      hide Ready;
      while orphans != {}
        invariant Ready() && Kept(t0, fs.trace, limits) && Quiet(t0, fs.trace, limits)
        invariant fs.live == old(fs.live) && fs.meta == old(fs.meta) && fs.temps == old(fs.temps) && fs.strays == old(fs.strays)
        invariant orphans == fs.backups.Keys - fs.meta.Keys && Trimmed(backups0, fs.backups, fs.meta)
        decreases |orphans|
      {
        var id :| id in orphans;
        ok := RemoveNext(id, t0, backups0);
        if !ok { return; }
        orphans := orphans - {id};
      }
      ok := true;
    }

    /** One turn of that loop. */
    method RemoveNext(id: Id, ghost t0: seq<Disk>, ghost backups0: map<Id, Bytes>) returns (ok: bool)
      requires Ready() && Kept(t0, fs.trace, limits) && Quiet(t0, fs.trace, limits)
      requires id in fs.backups && id !in fs.meta && Trimmed(backups0, fs.backups, fs.meta)
      modifies fs
      ensures Ready() && Kept(t0, fs.trace, limits) && Quiet(t0, fs.trace, limits)
      ensures fs.live == old(fs.live) && fs.meta == old(fs.meta) && fs.temps == old(fs.temps) && fs.strays == old(fs.strays)
      ensures Trimmed(backups0, fs.backups, fs.meta)
      ensures ok ==> fs.backups == old(fs.backups) - {id}
      ensures fs.reliable ==> ok
    {
      ghost var t1 := fs.trace;
      TrimMore(backups0, fs.backups, id, fs.meta);
      hide Kept;
      hide Quiet;
      hide Backed;
      hide Trimmed;
      ok := RemoveOrphan(id);
      ThenKept(t0, t1, fs.trace, limits);
      ThenQuiet(t0, t1, fs.trace, limits);
    }

    /** `_remove_orphan_temporaries`: looks only into the journal directory. */
    method RemoveOrphanTemporaries() returns (ok: bool)
      requires Ready()
      modifies fs
      ensures Ready() && Kept(old(fs.trace), fs.trace, limits) && Quiet(old(fs.trace), fs.trace, limits)
      ensures fs.live == old(fs.live) && fs.meta == old(fs.meta) && fs.strays == old(fs.strays)
      ensures forall id :: id in fs.meta && id in old(fs.backups) ==> id in fs.backups && fs.backups[id] == old(fs.backups[id])
      ensures fs.backups.Keys <= old(fs.backups.Keys)
      ensures ok ==> fs.temps == {} && fs.backups.Keys <= fs.meta.Keys
      ensures fs.reliable ==> ok
    {
      ghost var t0 := fs.trace;
      hide Kept;
      hide Quiet;
      ok := RemoveTemporaries();
      if !ok { return; }
      ghost var t1 := fs.trace;
      ok := RemoveOrphans();
      ThenKept(t0, t1, fs.trace, limits);
      ThenQuiet(t0, t1, fs.trace, limits);
    }

    method DeleteMetadata(id: Id) returns (ok: bool)
      requires Ready() && !IsPrepared(fs.View(), id)
      modifies fs
      ensures Ready() && Kept(old(fs.trace), fs.trace, limits) && Quiet(old(fs.trace), fs.trace, limits)
      ensures fs.live == old(fs.live) && fs.backups == old(fs.backups) && fs.strays == old(fs.strays)
      ensures fs.meta == (if ok then old(fs.meta) - {id} else old(fs.meta))
      ensures fs.reliable ==> ok
    {
      ghost var d0, t0 := fs.View(), fs.trace;
      ghost var d1 := d0.(meta := d0.meta - {id});
      ok := fs.UnlinkMeta(id);
      assert Backed(d1, limits) by { SameSize(d1.meta, d0.meta); }
      GrowKept(t0, fs.trace, d0, d1, limits);
      if Sound(d0, limits) { DeleteStep(d0, limits, id); }
      GrowCrashable(t0, fs.trace, d0, d1, limits);
      Last(t0, fs.trace, limits);
    }

    /** `_delete_record`: metadata first, so that a crash leaves an orphan and not a broken record. */
    method DeleteRecord(id: Id) returns (ok: bool)
      requires Ready() && !IsPrepared(fs.View(), id)
      modifies fs
      ensures Ready() && Kept(old(fs.trace), fs.trace, limits) && Quiet(old(fs.trace), fs.trace, limits)
      ensures fs.live == old(fs.live) && fs.strays == old(fs.strays)
      ensures fs.meta == old(fs.meta) || fs.meta == old(fs.meta) - {id}
      ensures ok ==> fs.meta == old(fs.meta) - {id} && fs.backups == old(fs.backups) - {id}
      ensures fs.backups == old(fs.backups) || fs.backups == old(fs.backups) - {id}
      ensures fs.reliable ==> ok
    {
      ghost var t0 := fs.trace;
      hide Kept;
      hide Quiet;
      ok := DeleteMetadata(id);
      if !ok { return; }
      ghost var t1 := fs.trace;
      ok := RemoveOrphan(id);
      ThenKept(t0, t1, fs.trace, limits);
      ThenQuiet(t0, t1, fs.trace, limits);
    }

    /** `records`: every record, oldest first. */
    method Records() returns (ok: bool, ids: seq<Id>)
      requires fs.Valid()
      ensures ok ==> Listing(ids, fs.meta)
      ensures fs.reliable && Backed(fs.View(), limits) ==> ok
    {
      ids := [];
      if |fs.meta| > limits.maxRecords { return false, ids; }
      var todo := fs.meta.Keys;
      while todo != {}
        invariant todo <= fs.meta.Keys
        invariant forall id :: id in ids <==> id in fs.meta.Keys - todo
        invariant Distinct(ids) && Ordered(ids, fs.meta)
        decreases |todo|
      {
        var id :| id in todo;
        var record;
        ok, record := LoadRecord(id);
        if !ok { return; }
        InsertedOrdered(ids, id, fs.meta);
        ids := Inserted(ids, id, fs.meta);
        todo := todo - {id};
      }
      ok := true;
    }

    /** Deletes the oldest closed record, if there is one. */
    method DeleteOldest(ids: seq<Id>, ghost before: map<Id, Record>) returns (ok: bool, rest: seq<Id>)
      requires Ready() && Listing(ids, fs.meta)
      requires OldestGone(before, fs.meta) && fs.meta.Keys <= before.Keys
      requires forall id :: id in fs.meta ==> fs.meta[id] == before[id]
      modifies fs
      ensures Ready() && Kept(old(fs.trace), fs.trace, limits) && Quiet(old(fs.trace), fs.trace, limits)
      ensures fs.live == old(fs.live) && fs.strays == old(fs.strays)
      ensures fs.meta.Keys <= old(fs.meta.Keys)
      ensures forall id :: id in fs.meta ==> fs.meta[id] == old(fs.meta)[id]
      ensures forall id :: old(IsPrepared(fs.View(), id)) ==> id in fs.meta
      ensures OldestGone(before, fs.meta)
      ensures fs.meta == old(fs.meta) || exists id :: id in old(fs.meta) && fs.meta == old(fs.meta) - {id}
      ensures ok ==> Listing(rest, fs.meta) && |rest| == |ids| - 1
      ensures ok ==> old(Closable(fs.meta)) && (old(fs.backups.Keys <= fs.meta.Keys) ==> fs.backups.Keys <= fs.meta.Keys)
      ensures fs.reliable && old(Closable(fs.meta)) ==> ok
    {
      rest := ids;
      var k := FirstClosed(ids, fs.meta);
      ClosableAt(ids, fs.meta, k);
      hide Closable;
      if k == |ids| {
        Nothing(fs.trace, limits);
        return false, rest;
      }
      RemovalListing(ids, fs.meta, k);
      RemovalOldest(ids, before, fs.meta, k);
      hide OldestGone;
      hide Listing;
      ok := DeleteRecord(ids[k]);
      rest := ids[..k] + ids[k + 1..];
    }

    /** `_ensure_capacity`: makes room by deleting closed records, oldest first. */
    method EnsureCapacity() returns (ok: bool)
      requires Ready()
      modifies fs
      ensures Ready() && Kept(old(fs.trace), fs.trace, limits) && Quiet(old(fs.trace), fs.trace, limits)
      ensures fs.live == old(fs.live) && fs.strays == old(fs.strays)
      ensures fs.meta.Keys <= old(fs.meta.Keys)
      ensures forall id :: id in fs.meta ==> fs.meta[id] == old(fs.meta)[id]
      ensures forall id :: old(IsPrepared(fs.View(), id)) ==> id in fs.meta
      ensures ok ==> |fs.meta| < limits.maxRecords
      ensures OldestGone(old(fs.meta), fs.meta)
      ensures Spared(old(fs.meta), fs.meta, limits.maxRecords)
      ensures ok ==> fs.backups.Keys <= fs.meta.Keys && old(Room(fs.meta, limits))
      ensures fs.reliable && old(Room(fs.meta, limits)) ==> ok
    {
      ghost var t0 := fs.trace;
      assert OldestGone(fs.meta, fs.meta) && Spared(fs.meta, fs.meta, limits.maxRecords);
      hide OldestGone;
      hide Spared;
      hide Kept;
      hide Quiet;
      ok := RemoveOrphanTemporaries();
      if !ok { return; }
      var ids;
      ok, ids := Records();
      if !ok { return; }
      ListingSize(ids, fs.meta);
      assert |fs.meta| <= limits.maxRecords;
      hide Backed;
      hide Listing;
      hide Closable;
      while |ids| >= limits.maxRecords
        invariant Ready() && Kept(t0, fs.trace, limits) && Quiet(t0, fs.trace, limits)
        invariant fs.live == old(fs.live) && fs.strays == old(fs.strays)
        invariant Listing(ids, fs.meta) && |ids| == |fs.meta|
        invariant fs.meta.Keys <= old(fs.meta.Keys)
        invariant forall id :: id in fs.meta ==> fs.meta[id] == old(fs.meta)[id]
        invariant forall id :: old(IsPrepared(fs.View(), id)) ==> id in fs.meta
        invariant OldestGone(old(fs.meta), fs.meta) && Spared(old(fs.meta), fs.meta, limits.maxRecords)
        invariant |ids| >= limits.maxRecords ==> fs.meta == old(fs.meta)
        invariant fs.backups.Keys <= fs.meta.Keys && |ids| <= limits.maxRecords
        invariant if |ids| < limits.maxRecords then old(Room(fs.meta, limits)) else fs.meta == old(fs.meta)
        decreases |ids|
      {
        ghost var t1 := fs.trace;
        ok, ids := DeleteOldest(ids, old(fs.meta));
        OneIsSpared(old(fs.meta), fs.meta, limits.maxRecords);
        ThenKept(t0, t1, fs.trace, limits);
        ThenQuiet(t0, t1, fs.trace, limits);
        if !ok { return; }
        ListingSize(ids, fs.meta);
      }
      ok := true;
    }

    /** Writes the backup in place; only a name that no metadata uses can be taken. */
    method WriteBackup(id: Id, payload: Bytes) returns (ok: bool)
      requires Ready()
      modifies fs
      ensures Ready() && Kept(old(fs.trace), fs.trace, limits) && Quiet(old(fs.trace), fs.trace, limits)
      ensures fs.live == old(fs.live) && fs.meta == old(fs.meta) && fs.temps == old(fs.temps) && fs.strays == old(fs.strays)
      ensures ok ==> id !in old(fs.backups) && id !in fs.meta && id in fs.backups && fs.backups[id] == payload
      ensures fs.reliable && id !in old(fs.backups) ==> ok
    {
      ghost var d0, t0 := fs.View(), fs.trace;
      ok := fs.CreateExclusive(id, payload);
      forall i | |t0| <= i < |fs.trace|
        ensures Backed(fs.trace[i], limits)
        ensures Sound(d0, limits) ==> Sound(fs.trace[i], limits) && Settled(fs.trace[i]) == Settled(d0)
      {
        if Sound(d0, limits) { OrphanBackup(d0, fs.trace[i], limits); }
      }
      Last(t0, fs.trace, limits);
    }

    /** Writes the prepared record of a backup that is in place. */
    method WritePrepared(id: Id, record: Record) returns (ok: bool)
      requires Ready() && id !in fs.meta && |fs.meta| < limits.maxRecords
      requires id in fs.backups && |fs.backups[id]| <= limits.maxBackupBytes && record.before == Sha256(fs.backups[id])
      requires record.status == Prepared && record.path in fs.live
      modifies fs
      ensures Ready() && Kept(old(fs.trace), fs.trace, limits)
      ensures old(NoneOpen(fs.View(), record.path) && fs.live[record.path] == fs.backups[id]) ==> Quiet(old(fs.trace), fs.trace, limits)
      ensures fs.live == old(fs.live) && fs.backups == old(fs.backups) && fs.strays == old(fs.strays)
      ensures fs.meta == old(fs.meta) || fs.meta == old(fs.meta)[id := record]
      ensures ok ==> fs.meta == old(fs.meta)[id := record]
      ensures fs.reliable ==> ok
    {
      ghost var d0, t0 := fs.View(), fs.trace;
      ghost var d1 := d0.(meta := d0.meta[id := record]);
      ok := fs.ReplaceMeta(id, record);
      assert Backed(d1, limits);
      GrowKept(t0, fs.trace, d0, d1, limits);
      if NoneOpen(d0, record.path) && d0.live[record.path] == d0.backups[id] {
        if Sound(d0, limits) { PrepareStep(d0, limits, id, record); }
        GrowCrashable(t0, fs.trace, d0, d1, limits);
      }
      Last(t0, fs.trace, limits);
    }

    /** The disk writes of `prepare`: backup, check, metadata. */
    method WritePromotion(id: Id, path: Path, before: Bytes, after: Bytes, now: int) returns (ok: bool)
      requires Ready() && path in fs.live && |fs.meta| < limits.maxRecords && |before| <= limits.maxBackupBytes
      modifies fs
      ensures Ready() && Kept(old(fs.trace), fs.trace, limits)
      ensures old(NoneOpen(fs.View(), path) && fs.live[path] == before) ==> Quiet(old(fs.trace), fs.trace, limits)
      ensures fs.live == old(fs.live) && fs.strays == old(fs.strays)
      ensures fs.meta == old(fs.meta) || (id !in old(fs.meta)
        && fs.meta == old(fs.meta)[id := Record(path, Sha256(before), Sha256(after), Prepared, now)])
      ensures ok ==> id !in old(fs.meta) && id in fs.meta && id in fs.backups && fs.backups[id] == before
      ensures fs.reliable && !ok ==> fs.meta == old(fs.meta)
      ensures fs.reliable && id !in old(fs.backups) ==> ok
    {
      ghost var t0 := fs.trace;
      ghost var calm := NoneOpen(fs.View(), path) && fs.live[path] == before;
      hide Kept;
      hide Quiet;
      hide Backed;
      ok := WriteBackup(id, before);
      assert calm ==> NoneOpen(fs.View(), path) by {
        forall i | Open(fs.View(), i, path) ensures old(Open(fs.View(), i, path)) { }
      }
      hide NoneOpen;
      if !ok { return; }
      var fault := fs.Fault();
      if fault || Sha256(fs.backups[id]) != Sha256(before) { return false; }
      ghost var t1 := fs.trace;
      ok := WritePrepared(id, Record(path, Sha256(before), Sha256(after), Prepared, now));
      ThenKept(t0, t1, fs.trace, limits);
      if calm { ThenQuiet(t0, t1, fs.trace, limits); }
    }

    /** `prepare`. It leaves every crash harmless when no promotion of the file is
        open and `before` is what the file holds. */
    method Prepare(id: Id, path: Path, before: Bytes, after: Bytes, now: int) returns (ok: bool)
      requires Ready()
      modifies fs
      ensures Ready() && Kept(old(fs.trace), fs.trace, limits)
      ensures old(NoneOpen(fs.View(), path) && path in fs.live && fs.live[path] == before) ==> Quiet(old(fs.trace), fs.trace, limits)
      ensures fs.live == old(fs.live) && fs.strays == old(fs.strays)
      ensures forall i :: i in fs.meta ==>
        || (i in old(fs.meta) && fs.meta[i] == old(fs.meta)[i])
        || (i == id && fs.meta[i] == Record(path, Sha256(before), Sha256(after), Prepared, now))
      ensures forall i :: old(IsPrepared(fs.View(), i)) ==> i in fs.meta && fs.meta[i] == old(fs.meta)[i]
      ensures ok ==>
        && path in fs.live && id in fs.meta && id in fs.backups && fs.backups[id] == before
        && fs.meta[id] == Record(path, Sha256(before), Sha256(after), Prepared, now)
        && !old(IsPrepared(fs.View(), id))
      ensures fs.reliable && !ok ==> forall i :: i in fs.meta ==> i in old(fs.meta) && fs.meta[i] == old(fs.meta)[i]
      ensures OldestGone(old(fs.meta), fs.meta) && Spared(old(fs.meta), fs.meta, limits.maxRecords)
      ensures ok ==> old(Fits(fs.View(), limits, path, before, after))
      ensures fs.reliable && id !in old(fs.meta) && old(Fits(fs.View(), limits, path, before, after)) ==> ok
    {
      ghost var t0 := fs.trace;
      Nothing(t0, limits);
      assert OldestGone(fs.meta, fs.meta) && Spared(fs.meta, fs.meta, limits.maxRecords);
      if path !in fs.live { return false; }
      if |before| > limits.maxBackupBytes || |after| > limits.maxBackupBytes { return false; }
      hide Kept;
      hide Quiet;
      hide Backed;
      hide Spared;
      hide OldestGone;
      hide Room;
      ok := EnsureCapacity();
      if !ok { return; }
      ghost var t1 := fs.trace;
      assert old(NoneOpen(fs.View(), path)) ==> NoneOpen(fs.View(), path) by {
        forall i | Open(fs.View(), i, path) ensures old(Open(fs.View(), i, path)) { }
      }
      ghost var meta1 := fs.meta;
      ok := WritePromotion(id, path, before, after, now);
      OldestStays(old(fs.meta), meta1, fs.meta, id);
      SparedStays(old(fs.meta), meta1, fs.meta, id, limits.maxRecords);
      ThenKept(t0, t1, fs.trace, limits);
      if old(NoneOpen(fs.View(), path) && fs.live[path] == before) {
        ThenQuiet(t0, t1, fs.trace, limits);
      }
    }

    /** Recovery of one prepared record: aborted, rolled back, or refused. */
    method RecoverOne(id: Id) returns (ok: bool)
      requires Ready() && IsPrepared(fs.View(), id)
      modifies fs
      ensures Ready() && Kept(old(fs.trace), fs.trace, limits) && Quiet(old(fs.trace), fs.trace, limits)
      ensures fs.backups == old(fs.backups)
      ensures ok ==> fs.temps == old(fs.temps) && fs.strays == old(fs.strays)
      ensures ok ==> Matches(old(fs.live[fs.meta[id].path]), old(fs.meta[id]))
      ensures fs.reliable ==> (ok <==> Matches(old(fs.live[fs.meta[id].path]), old(fs.meta[id])))
      ensures ok ==> fs.live == old(fs.live[fs.meta[id].path := fs.backups[id]])
      ensures ok ==> fs.meta == old(fs.meta)[id := old(fs.meta[id]).(status :=
        if old(Sha256(fs.live[fs.meta[id].path]) == fs.meta[id].before) then Aborted else RecoveredRollback)]
      ensures forall i :: i in old(fs.meta) ==> i in fs.meta && (i != id ==> fs.meta[i] == old(fs.meta)[i])
    {
      Nothing(fs.trace, limits);
      hide Kept;
      hide Quiet;
      var record := fs.meta[id];
      var live;
      ok, live := fs.ReadLive(record.path);
      if !ok { return; }
      if Sha256(live) == record.before {
        ok := MarkRestored(id, Aborted);
      } else if Sha256(live) == record.after {
        ok := Rollback(id, RecoveredRollback);
      } else {
        ok := false;
      }
    }

    /** One turn of the loop of `recover_incomplete`. */
    method RecoverNext(ids: seq<Id>, k: nat, ghost d0: Disk) returns (ok: bool)
      requires Ready() && k < |ids| && Recovered(ids, k, d0, fs.View())
      modifies fs
      ensures Ready() && Kept(old(fs.trace), fs.trace, limits) && Quiet(old(fs.trace), fs.trace, limits)
      ensures fs.backups == old(fs.backups)
      ensures ok ==> fs.temps == old(fs.temps) && fs.strays == old(fs.strays)
      ensures ok ==> Recovered(ids, k + 1, d0, fs.View())
      ensures !ok && fs.reliable ==> !Recoverable(ids, d0)
    {
      Nothing(fs.trace, limits);
      ghost var d := fs.View();
      RecoveredHas(ids, k, d0, d);
      hide Recovered;
      hide Kept;
      hide Quiet;
      if fs.meta[ids[k]].status != Prepared {
        RecoveredSkip(ids, k, d0, d);
        return true;
      }
      RecoveredMeets(ids, k, d0, d);
      ghost var status := if Sha256(d.live[d.meta[ids[k]].path]) == d.meta[ids[k]].before then Aborted else RecoveredRollback;
      ok := RecoverOne(ids[k]);
      if ok { RecoveredNext(ids, k, d0, d, fs.View(), status); }
    }

    /** The loop of `recover_incomplete`: all open records, oldest first. */
    method RecoverEach(ids: seq<Id>, ghost d0: Disk) returns (ok: bool)
      requires Ready() && Recovered(ids, 0, d0, fs.View())
      requires fs.temps == {} && fs.backups.Keys <= d0.meta.Keys && fs.strays == d0.strays
      modifies fs
      ensures Ready() && Kept(old(fs.trace), fs.trace, limits) && Quiet(old(fs.trace), fs.trace, limits)
      ensures Went(ids, d0, fs.View(), ok, fs.reliable)
    {
      RecoveredLists(ids, d0, fs.View());
      ghost var t0 := fs.trace;
      Nothing(t0, limits);
      hide Kept;
      hide Quiet;
      hide Recovered;
      hide Backed;
      hide Recoverable;
      hide AllRecovered;
      var k := 0;
      while k < |ids|
        invariant 0 <= k <= |ids|
        invariant Ready() && Kept(t0, fs.trace, limits) && Quiet(t0, fs.trace, limits)
        invariant Recovered(ids, k, d0, fs.View())
        invariant fs.temps == {} && fs.backups.Keys <= d0.meta.Keys && fs.strays == d0.strays
      {
        ghost var t1 := fs.trace;
        ok := RecoverNext(ids, k, d0);
        ThenKept(t0, t1, fs.trace, limits);
        ThenQuiet(t0, t1, fs.trace, limits);
        if !ok { return; }
        k := k + 1;
      }
      ok := true;
      RecoveredAll(ids, d0, fs.View());
    }

    /** Left-overs go first, then the records are listed. */
    method CleanAndList() returns (ok: bool, ids: seq<Id>)
      requires Ready()
      modifies fs
      ensures Ready() && Kept(old(fs.trace), fs.trace, limits) && Quiet(old(fs.trace), fs.trace, limits)
      ensures ok ==> Recovered(ids, 0, old(fs.View()), fs.View())
      ensures ok ==> fs.temps == {} && fs.backups.Keys <= old(fs.meta).Keys && fs.strays == old(fs.strays)
      ensures fs.reliable ==> ok
      ensures fs.trace != [] && fs.trace[|fs.trace| - 1] == fs.View()
    {
      ids := [];
      ghost var d0 := fs.View();
      hide Kept;
      hide Quiet;
      hide Listing;
      ok := RemoveOrphanTemporaries();
      if !ok { return; }
      ok, ids := Records();
      if ok { RecoveredNothing(ids, d0, fs.View(), limits); }
      hide Recovered;
    }

    /** Both together. */
    method RecoverListed() returns (ok: bool, ghost order: seq<Id>)
      requires Ready()
      modifies fs
      ensures Ready() && Kept(old(fs.trace), fs.trace, limits) && Quiet(old(fs.trace), fs.trace, limits)
      ensures fs.reliable || ok ==> Went(order, old(fs.View()), fs.View(), ok, fs.reliable)
    {
      ghost var d0, t0 := fs.View(), fs.trace;
      assert d0.meta == fs.meta && d0.strays == fs.strays;
      hide *;
      var ids;
      ok, ids := CleanAndList();
      order := ids;
      if !ok { return; }
      ghost var t1 := fs.trace;
      ok := RecoverEach(ids, d0);
      ThenKept(t0, t1, fs.trace, limits);
      ThenQuiet(t0, t1, fs.trace, limits);
    }

    lemma ViewIs()
      ensures fs.View().live == fs.live
    {
    }

    lemma LastIsView()
      requires Ready()
      ensures fs.trace != [] && fs.trace[|fs.trace| - 1] == fs.View()
    {
    }

    /** `recover_incomplete`: all open records, oldest first. On a sound disk it
        makes the settled bytes live; on any disk it succeeds exactly when every
        open record finds its own bytes. */
    method RecoverIncomplete() returns (ok: bool, ghost order: seq<Id>)
      requires Ready()
      modifies fs
      ensures Ready() && Kept(old(fs.trace), fs.trace, limits) && Quiet(old(fs.trace), fs.trace, limits)
      ensures ok ==> AllRecovered(order, old(fs.View()), fs.View())
      ensures fs.reliable ==> Listing(order, old(fs.meta)) && (ok <==> Recoverable(order, old(fs.View())))
      ensures ok && old(Sound(fs.View(), limits)) ==> fs.live == old(Settled(fs.View()))
      ensures fs.reliable && old(Sound(fs.View(), limits)) ==> ok
    {
      ghost var d0, t0 := fs.View(), fs.trace;
      assert t0 != [] && t0[|t0| - 1] == d0 && d0.meta == fs.meta;
      hide *;
      ok, order := RecoverListed();
      ghost var d1, t1 := fs.View(), fs.trace;
      LastIsView();
      RecoveryMeans(t0, t1, d0, d1, limits, order, ok, fs.reliable);
      ViewIs();
    }
  }

  lemma RecoveryMeans(before: seq<Disk>, after: seq<Disk>, d0: Disk, d1: Disk, lim: Limits, order: seq<Id>, ok: bool, reliable: bool)
    requires before != [] && before[|before| - 1] == d0 && after != [] && after[|after| - 1] == d1 && Quiet(before, after, lim)
    requires reliable || ok ==> Went(order, d0, d1, ok, reliable)
    ensures ok ==> AllRecovered(order, d0, d1)
    ensures reliable ==> Listing(order, d0.meta) && (ok <==> Recoverable(order, d0))
    ensures ok && Sound(d0, lim) ==> d1.live == Settled(d0)
    ensures reliable && Sound(d0, lim) ==> ok
  {
    hide *;
    if reliable || ok { WentMeans(order, d0, d1, ok, reliable); }
    if ok { RecoveredSettles(before, after, d0, d1, lim, order); }
    SoundIsRecoverable(d0, lim, order);
  }

  /** A record that may be evicted. */
  ghost predicate Closable(meta: map<Id, Record>) {
    exists id :: id in meta && meta[id].status != Prepared
  }

  /** There is room for one more record, or a closed one makes room. */
  ghost predicate Room(meta: map<Id, Record>, lim: Limits) {
    |meta| < lim.maxRecords || Closable(meta)
  }

  /** What `prepare` asks for: the file, bounded bytes, and room. */
  ghost predicate Fits(d: Disk, lim: Limits, path: Path, before: Bytes, after: Bytes) {
    path in d.live && |before| <= lim.maxBackupBytes && |after| <= lim.maxBackupBytes && Room(d.meta, lim)
  }

  lemma ClosableAt(ids: seq<Id>, meta: map<Id, Record>, k: nat)
    requires Listing(ids, meta) && k <= |ids|
    requires k < |ids| ==> meta[ids[k]].status != Prepared
    requires forall i :: 0 <= i < k ==> meta[ids[i]].status == Prepared
    ensures Closable(meta) <==> k < |ids|
  {
    if id :| id in meta && meta[id].status != Prepared { assert id in ids; }
  }

  /** Backups are gone at most where no metadata names them. */
  ghost predicate Trimmed(before: map<Id, Bytes>, after: map<Id, Bytes>, meta: map<Id, Record>) {
    && after.Keys <= before.Keys
    && forall id :: id in meta && id in before ==> id in after && after[id] == before[id]
  }

  lemma TrimMore(before: map<Id, Bytes>, after: map<Id, Bytes>, id: Id, meta: map<Id, Record>)
    requires Trimmed(before, after, meta) && id !in meta
    ensures Trimmed(before, after - {id}, meta)
  {
  }

  lemma GrewNothing(t: seq<Disk>, d: Disk, id: Id, status: Status)
    ensures IsPrepared(d, id) ==> Grew(t, t, d, d.(meta := d.meta[id := d.meta[id].(status := status)]))
  {
  }

  lemma CloseIsBacked(d: Disk, lim: Limits, id: Id, status: Status)
    requires Backed(d, lim) && IsPrepared(d, id)
    ensures Backed(d.(meta := d.meta[id := d.meta[id].(status := status)]), lim)
  {
    var after := d.meta[id := d.meta[id].(status := status)];
    assert after.Keys == d.meta.Keys;
    SameSize(after, d.meta);
  }

  /** Recovery went through the first `k` records of `d0` and arrived at `d`. */
  ghost predicate Recovered(ids: seq<Id>, k: nat, d0: Disk, d: Disk) {
    Closed(ids, k, d0, d) && Reached(ids, k, d0, d) && AllMeet(ids, k, d0) && Relabelled(ids, k, d0, d)
  }

  ghost predicate Reached(ids: seq<Id>, k: nat, d0: Disk, d: Disk) {
    k <= |ids| && d.live.Keys == d0.live.Keys && forall path :: path in d0.live ==> d.live[path] == Expected(ids, k, d0, path)
  }

  ghost predicate AllMeet(ids: seq<Id>, k: nat, d0: Disk) {
    k <= |ids| && forall n :: 0 <= n < k ==> Meets(ids, n, d0)
  }

  /** How recovery closes record `k`: aborted if it finds the before bytes. */
  ghost function RecoveredAs(ids: seq<Id>, k: nat, d: Disk): Status
    requires k < |ids|
  {
    if IsPrepared(d, ids[k]) && d.meta[ids[k]].path in d.live
       && Sha256(Expected(ids, k, d, d.meta[ids[k]].path)) == d.meta[ids[k]].before
    then Aborted
    else RecoveredRollback
  }

  /** The open ones among the first `k` records differ in their status only. */
  ghost predicate Relabelled(ids: seq<Id>, k: nat, d0: Disk, d: Disk) {
    k <= |ids| && forall n :: 0 <= n < k && IsPrepared(d0, ids[n]) ==>
      ids[n] in d.meta && d.meta[ids[n]] == d0.meta[ids[n]].(status := RecoveredAs(ids, n, d0))
  }

  /** As far as the records are concerned: the first `k` are closed, the others untouched. */
  ghost predicate Closed(ids: seq<Id>, k: nat, d0: Disk, d: Disk) {
    && k <= |ids| && Listing(ids, d0.meta)
    && d.meta.Keys == d0.meta.Keys && d.live.Keys == d0.live.Keys
    && (forall id :: id in d0.meta ==>
          && id in d0.backups && id in d.backups && d.backups[id] == d0.backups[id]
          && d0.meta[id].path in d0.live
          && (d0.meta[id].status != Prepared ==> d.meta[id] == d0.meta[id]))
    && (forall n :: k <= n < |ids| ==> d.meta[ids[n]] == d0.meta[ids[n]])
    && (forall n :: 0 <= n < k ==> d.meta[ids[n]].status != Prepared)
  }

  lemma RecoveredNothing(ids: seq<Id>, d0: Disk, d: Disk, lim: Limits)
    requires Listing(ids, d.meta) && d.meta == d0.meta && d.live == d0.live && Backed(d0, lim)
    requires forall id :: id in d.meta && id in d0.backups ==> id in d.backups && d.backups[id] == d0.backups[id]
    ensures Recovered(ids, 0, d0, d)
  {
  }

  lemma RecoveredLists(ids: seq<Id>, d0: Disk, d: Disk)
    requires Recovered(ids, 0, d0, d)
    ensures Listing(ids, d0.meta)
  {
  }

  lemma RecoveredMeets(ids: seq<Id>, k: nat, d0: Disk, d: Disk)
    requires Recovered(ids, k, d0, d) && k < |ids| && IsPrepared(d, ids[k])
    ensures d.meta[ids[k]] == d0.meta[ids[k]] && d.meta[ids[k]].path in d.live
    ensures Meets(ids, k, d0) <==> Matches(d.live[d.meta[ids[k]].path], d.meta[ids[k]])
    ensures !Meets(ids, k, d0) ==> !Recoverable(ids, d0)
  {
  }

  lemma RecoveredHas(ids: seq<Id>, k: nat, d0: Disk, d: Disk)
    requires Recovered(ids, k, d0, d) && k < |ids|
    ensures ids[k] in d.meta && d.meta[ids[k]] == d0.meta[ids[k]]
    ensures forall n :: 0 <= n < |ids| && n != k ==> ids[n] != ids[k]
  {
  }

  lemma RecoveredSkip(ids: seq<Id>, k: nat, d0: Disk, d: Disk)
    requires Recovered(ids, k, d0, d) && k < |ids| && !IsPrepared(d, ids[k])
    ensures Recovered(ids, k + 1, d0, d)
  {
    RecoveredHas(ids, k, d0, d);
    hide Listing;
    hide RecoveredAs;
  }

  lemma RecoveredNext(ids: seq<Id>, k: nat, d0: Disk, d: Disk, e: Disk, status: Status)
    requires Recovered(ids, k, d0, d) && k < |ids| && IsPrepared(d, ids[k]) && Meets(ids, k, d0) && status != Prepared
    requires d.meta[ids[k]].path in d.live && ids[k] in d.backups
    requires status == if Sha256(d.live[d.meta[ids[k]].path]) == d.meta[ids[k]].before then Aborted else RecoveredRollback
    requires e.backups == d.backups
    requires e.live == d.live[d.meta[ids[k]].path := d.backups[ids[k]]]
    requires e.meta == d.meta[ids[k] := d.meta[ids[k]].(status := status)]
    ensures Recovered(ids, k + 1, d0, e)
  {
    NextExpected(ids, k, d0, d, e);
    NextClosed(ids, k, d0, d, e, status);
    NextRelabelled(ids, k, d0, d, e, status);
    hide Relabelled;
    hide Closed;
    hide Reached;
    hide Expected;
    hide Meets;
  }

  lemma NextRelabelled(ids: seq<Id>, k: nat, d0: Disk, d: Disk, e: Disk, status: Status)
    requires Recovered(ids, k, d0, d) && k < |ids| && IsPrepared(d, ids[k]) && d.meta[ids[k]].path in d.live
    requires status == if Sha256(d.live[d.meta[ids[k]].path]) == d.meta[ids[k]].before then Aborted else RecoveredRollback
    requires e.meta == d.meta[ids[k] := d.meta[ids[k]].(status := status)]
    ensures Relabelled(ids, k + 1, d0, e)
  {
    RecoveredHas(ids, k, d0, d);
    assert RecoveredAs(ids, k, d0) == status;
    hide Meets;
    hide Expected;
    hide RecoveredAs;
    hide Listing;
  }

  lemma NextClosed(ids: seq<Id>, k: nat, d0: Disk, d: Disk, e: Disk, status: Status)
    requires Closed(ids, k, d0, d) && k < |ids| && IsPrepared(d, ids[k]) && status != Prepared
    requires d.meta[ids[k]].path in d.live && ids[k] in d.backups
    requires e.backups == d.backups
    requires e.live == d.live[d.meta[ids[k]].path := d.backups[ids[k]]]
    requires e.meta == d.meta[ids[k] := d.meta[ids[k]].(status := status)]
    ensures Closed(ids, k + 1, d0, e)
  {
    assert forall n :: 0 <= n < |ids| && n != k ==> ids[n] != ids[k];
    assert d.meta[ids[k]] == d0.meta[ids[k]];
    hide Listing;
  }

  lemma NextExpected(ids: seq<Id>, k: nat, d0: Disk, d: Disk, e: Disk)
    requires Recovered(ids, k, d0, d) && k < |ids| && IsPrepared(d, ids[k]) && d.meta[ids[k]] == d0.meta[ids[k]]
    requires d.meta[ids[k]].path in d.live && ids[k] in d.backups && ids[k] in d0.backups && d.backups[ids[k]] == d0.backups[ids[k]]
    requires e.live == d.live[d.meta[ids[k]].path := d.backups[ids[k]]]
    ensures Reached(ids, k + 1, d0, e)
  {
    assert Open(d0, ids[k], d.meta[ids[k]].path);
    forall path | path in d0.live ensures e.live[path] == Expected(ids, k + 1, d0, path) {
      assert d.live[path] == Expected(ids, k, d0, path);
    }
    hide Meets;
    hide Listing;
  }

  /** On a sound disk every open record finds its own bytes, in whatever order. */
  lemma SoundIsRecoverable(d: Disk, lim: Limits, ids: seq<Id>)
    ensures Sound(d, lim) && Listing(ids, d.meta) ==> Recoverable(ids, d)
  {
    if Sound(d, lim) && Listing(ids, d.meta) {
      forall k | 0 <= k < |ids| && IsPrepared(d, ids[k]) ensures Meets(ids, k, d) {
        AloneExpected(ids, k, k, d, lim);
      }
    }
  }

  lemma {:induction false} AloneExpected(ids: seq<Id>, k: nat, n: nat, d: Disk, lim: Limits)
    requires Sound(d, lim) && Listing(ids, d.meta) && n <= k < |ids| && IsPrepared(d, ids[k])
    ensures Expected(ids, n, d, d.meta[ids[k]].path) == d.live[d.meta[ids[k]].path]
  {
    if n > 0 {
      AloneExpected(ids, k, n - 1, d, lim);
      assert ids[n - 1] != ids[k];
    }
  }

  /** When nothing is prepared any more, the settled bytes are live. */
  lemma RecoveredSettles(before: seq<Disk>, after: seq<Disk>, d0: Disk, d1: Disk, lim: Limits, ids: seq<Id>)
    requires before != [] && before[|before| - 1] == d0 && after != [] && after[|after| - 1] == d1
    requires Quiet(before, after, lim) && AllRecovered(ids, d0, d1)
    ensures Sound(d0, lim) ==> d1.live == Settled(d0)
    ensures NonePrepared(d1) && Listing(ids, d0.meta) && Recoverable(ids, d0)
  {
    Last(before, after, lim);
    NothingToRecover(d1);
  }

  /** Every file holds what the listed records leave in it. */
  ghost predicate Restored(ids: seq<Id>, d0: Disk, d: Disk) {
    && d.live.Keys == d0.live.Keys
    && forall path :: path in d0.live ==> d.live[path] == Expected(ids, |ids|, d0, path)
  }

  /** Recovery has come to its end: nothing is open, nothing is left over, closed
      records are untouched, and every open one found its own bytes and is closed
      as aborted or as rolled back by recovery. */
  ghost predicate AllRecovered(ids: seq<Id>, d0: Disk, d: Disk) {
    && NonePrepared(d) && d.temps == {} && d.strays == d0.strays && d.backups.Keys <= d0.meta.Keys
    && Listing(ids, d0.meta) && Recoverable(ids, d0) && Restored(ids, d0, d) && Relabelled(ids, |ids|, d0, d)
    && forall id :: id in d0.meta && d0.meta[id].status != Prepared ==> id in d.meta && d.meta[id] == d0.meta[id]
  }

  /** How recovery of the listed records ended. */
  ghost predicate Went(ids: seq<Id>, d0: Disk, d: Disk, ok: bool, reliable: bool) {
    && Listing(ids, d0.meta)
    && (ok ==> AllRecovered(ids, d0, d))
    && (reliable ==> (ok <==> Recoverable(ids, d0)))
  }

  lemma WentMeans(ids: seq<Id>, d0: Disk, d: Disk, ok: bool, reliable: bool)
    requires Went(ids, d0, d, ok, reliable)
    ensures Listing(ids, d0.meta) && (ok ==> AllRecovered(ids, d0, d)) && (reliable ==> (ok <==> Recoverable(ids, d0)))
  {
  }

  lemma RecoveredAll(ids: seq<Id>, d0: Disk, d: Disk)
    requires Recovered(ids, |ids|, d0, d) && d.temps == {} && d.strays == d0.strays && d.backups.Keys <= d0.meta.Keys
    ensures AllRecovered(ids, d0, d) && Recoverable(ids, d0)
  {
    forall id | id in d.meta ensures d.meta[id].status != Prepared {
      var n :| 0 <= n < |ids| && ids[n] == id;
    }
  }

  /** The bytes are the before or the after bytes of the record. */
  predicate Matches(live: Bytes, record: Record) {
    Sha256(live) == record.before || Sha256(live) == record.after
  }

  /** What the file holds when recovery comes to record `k`: the backup of the
      last open record on it, or the bytes it had. */
  ghost function Expected(ids: seq<Id>, k: nat, d: Disk, path: Path): Bytes
    requires k <= |ids| && path in d.live
  {
    if k == 0 then d.live[path]
    else if Open(d, ids[k - 1], path) && ids[k - 1] in d.backups then d.backups[ids[k - 1]]
    else Expected(ids, k - 1, d, path)
  }

  ghost predicate Meets(ids: seq<Id>, k: nat, d: Disk)
    requires k < |ids|
  {
    IsPrepared(d, ids[k]) && d.meta[ids[k]].path in d.live ==>
      Matches(Expected(ids, k, d, d.meta[ids[k]].path), d.meta[ids[k]])
  }

  /** Every open record finds its own bytes: those on the disk, or the before
      bytes of the open record that precedes it on the same file. */
  ghost predicate Recoverable(ids: seq<Id>, d: Disk) {
    forall k :: 0 <= k < |ids| ==> Meets(ids, k, d)
  }

  /** The position of the first record that is no longer prepared. */
  method FirstClosed(ids: seq<Id>, meta: map<Id, Record>) returns (k: nat)
    requires forall id :: id in ids ==> id in meta
    ensures k <= |ids|
    ensures k < |ids| ==> meta[ids[k]].status != Prepared
    ensures forall i :: 0 <= i < k ==> meta[ids[i]].status == Prepared
  {
    k := 0;
    while k < |ids| && meta[ids[k]].status == Prepared
      invariant k <= |ids|
      invariant forall i :: 0 <= i < k ==> meta[ids[i]].status == Prepared
    {
      k := k + 1;
    }
  }

  // ------------------------------------------------------------------
  // Listings
  // ------------------------------------------------------------------

  ghost predicate Ordered(ids: seq<Id>, meta: map<Id, Record>) {
    && (forall id :: id in ids ==> id in meta)
    && forall i, j :: 0 <= i < j < |ids| ==> meta[ids[i]].created <= meta[ids[j]].created
  }

  /** Every record once, in the order of creation. */
  ghost predicate Listing(ids: seq<Id>, meta: map<Id, Record>) {
    Distinct(ids) && Ordered(ids, meta) && forall id :: id in ids <==> id in meta
  }

  /** A deleted record was closed and not younger than any closed record that stays. */
  ghost predicate OldestGone(before: map<Id, Record>, after: map<Id, Record>) {
    forall i, j :: i in before && i !in after && j in after && after[j].status != Prepared ==>
      before[i].status != Prepared && before[i].created <= after[j].created
  }

  /** Room is made for one record only: nothing goes if there is room, and never two. */
  ghost predicate Spared(before: map<Id, Record>, after: map<Id, Record>, maxRecords: nat) {
    && (|before| < maxRecords ==> before.Keys <= after.Keys)
    && forall i, j :: i in before && i !in after && j in before && j !in after ==> i == j
  }

  lemma SparedStays(before: map<Id, Record>, between: map<Id, Record>, after: map<Id, Record>, id: Id, maxRecords: nat)
    requires Spared(before, between, maxRecords) && (after == between || (id in after && after == between[id := after[id]]))
    ensures Spared(before, after, maxRecords)
  {
  }

  lemma OneIsSpared(before: map<Id, Record>, after: map<Id, Record>, maxRecords: nat)
    requires |before| >= maxRecords && (after == before || exists id :: id in before && after == before - {id})
    ensures Spared(before, after, maxRecords)
  {
  }

  lemma OldestStays(before: map<Id, Record>, between: map<Id, Record>, after: map<Id, Record>, id: Id)
    requires OldestGone(before, between)
    requires after == between || (id in after && after[id].status == Prepared && after == between[id := after[id]])
    ensures OldestGone(before, after)
  {
  }

  lemma RemovalHolds(ids: seq<Id>, k: nat)
    requires Distinct(ids) && k < |ids|
    ensures forall id :: id in ids[..k] + ids[k + 1..] <==> id in ids && id != ids[k]
  {
    var rest := ids[..k] + ids[k + 1..];
    assert ids == ids[..k] + [ids[k]] + ids[k + 1..];
    assert forall i :: 0 <= i < k ==> ids[i] != ids[k];
    assert forall i :: k < i < |ids| ==> ids[i] != ids[k];
  }

  lemma RemovalIsOrdered(ids: seq<Id>, meta: map<Id, Record>, k: nat)
    requires Distinct(ids) && Ordered(ids, meta) && k < |ids|
    ensures Distinct(ids[..k] + ids[k + 1..])
    ensures Ordered(ids[..k] + ids[k + 1..], meta)
  {
    var rest := ids[..k] + ids[k + 1..];
    assert forall i :: 0 <= i < |rest| ==> rest[i] == ids[if i < k then i else i + 1];
  }

  lemma RemovalListing(ids: seq<Id>, meta: map<Id, Record>, k: nat)
    requires Listing(ids, meta) && k < |ids|
    ensures Listing(ids[..k] + ids[k + 1..], meta - {ids[k]})
  {
    RemovalHolds(ids, k);
    RemovalIsOrdered(ids, meta, k);
    hide Distinct;
  }

  /** Deleting the first closed record of a listing. */
  lemma RemovalOldest(ids: seq<Id>, before: map<Id, Record>, meta: map<Id, Record>, k: nat)
    requires Listing(ids, meta) && k < |ids| && OldestGone(before, meta)
    requires meta[ids[k]].status != Prepared
    requires forall i :: 0 <= i < k ==> meta[ids[i]].status == Prepared
    requires meta.Keys <= before.Keys && forall id :: id in meta ==> meta[id] == before[id]
    ensures OldestGone(before, meta - {ids[k]})
  {
    forall j | j in meta && j != ids[k] && meta[j].status != Prepared
      ensures meta[ids[k]].created <= meta[j].created
    {
      var n :| 0 <= n < |ids| && ids[n] == j;
      assert n > k;
    }
  }

  function Inserted(ids: seq<Id>, id: Id, meta: map<Id, Record>): seq<Id>
    requires id in meta && forall i :: i in ids ==> i in meta
  {
    if ids == [] then [id]
    else if meta[id].created < meta[ids[0]].created then [id] + ids
    else [ids[0]] + Inserted(ids[1..], id, meta)
  }

  lemma {:induction false} InsertedHolds(ids: seq<Id>, id: Id, meta: map<Id, Record>)
    requires id in meta && forall i :: i in ids ==> i in meta
    ensures forall i :: i in Inserted(ids, id, meta) <==> i == id || i in ids
  {
    if ids != [] {
      assert ids == [ids[0]] + ids[1..];
      if meta[id].created >= meta[ids[0]].created { InsertedHolds(ids[1..], id, meta); }
    }
  }

  lemma TailIsOrdered(ids: seq<Id>, meta: map<Id, Record>)
    requires ids != [] && Distinct(ids) && Ordered(ids, meta)
    ensures Distinct(ids[1..]) && Ordered(ids[1..], meta)
    ensures forall i :: i in ids[1..] ==> i != ids[0] && meta[ids[0]].created <= meta[i].created
  {
    assert forall i :: 0 <= i < |ids[1..]| ==> ids[1..][i] == ids[i + 1];
  }

  lemma HeadIsOrdered(head: Id, tail: seq<Id>, meta: map<Id, Record>)
    requires head in meta && Distinct(tail) && Ordered(tail, meta)
    requires forall i :: i in tail ==> i != head && meta[head].created <= meta[i].created
    ensures Distinct([head] + tail) && Ordered([head] + tail, meta)
  {
    var all := [head] + tail;
    forall i, j | 0 <= i < j < |all| ensures all[i] != all[j] && meta[all[i]].created <= meta[all[j]].created {
      assert all[j] == tail[j - 1] && all[j] in tail;
      if i > 0 { assert all[i] == tail[i - 1]; }
    }
  }

  lemma {:induction false} InsertedOrdered(ids: seq<Id>, id: Id, meta: map<Id, Record>)
    requires id in meta && id !in ids && Distinct(ids) && Ordered(ids, meta)
    ensures Distinct(Inserted(ids, id, meta)) && Ordered(Inserted(ids, id, meta), meta)
    ensures forall i :: i in Inserted(ids, id, meta) <==> i == id || i in ids
  {
    InsertedHolds(ids, id, meta);
    if ids == [] {
    } else {
      TailIsOrdered(ids, meta);
      assert ids == [ids[0]] + ids[1..];
      if meta[id].created < meta[ids[0]].created {
        HeadIsOrdered(id, ids, meta);
      } else {
        InsertedOrdered(ids[1..], id, meta);
        HeadIsOrdered(ids[0], Inserted(ids[1..], id, meta), meta);
      }
    }
  }

  lemma {:induction false} DistinctSize(ids: seq<Id>, keys: set<Id>)
    requires Distinct(ids) && forall id :: id in ids <==> id in keys
    ensures |ids| == |keys|
  {
    if ids != [] {
      assert ids == [ids[0]] + ids[1..];
      assert ids[0] !in ids[1..];
      DistinctSize(ids[1..], keys - {ids[0]});
    }
  }

  lemma ListingSize(ids: seq<Id>, meta: map<Id, Record>)
    requires Listing(ids, meta)
    ensures |ids| == |meta|
  {
    DistinctSize(ids, meta.Keys);
  }

  lemma SameSize<K, V>(a: map<K, V>, b: map<K, V>)
    requires a.Keys <= b.Keys
    ensures |a| <= |b|
  {
    assert |a| == |a.Keys| && |b| == |b.Keys|;
    SubsetSize(a.Keys, b.Keys);
  }
}
