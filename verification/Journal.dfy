/** The backup journal of `cogni_flow/production.py`: what a disk must look like
    after any crash, and what recovery makes of it. */
module Journal {
  import opened Disk

  datatype Limits = Limits(maxRecords: nat, maxBackupBytes: nat)

  ghost predicate IsPrepared(d: Disk, id: Id) {
    id in d.meta && d.meta[id].status == Prepared
  }

  /** A promotion of the file has started and has not been closed. */
  ghost predicate Open(d: Disk, id: Id, path: Path) {
    IsPrepared(d, id) && d.meta[id].path == path
  }

  /** Every metadata file has a complete backup that matches its before-digest. */
  ghost predicate Backed(d: Disk, lim: Limits) {
    && |d.meta| <= lim.maxRecords
    && forall id :: id in d.meta ==>
      && d.meta[id].path in d.live
      && id in d.backups && |d.backups[id]| <= lim.maxBackupBytes
      && Sha256(d.backups[id]) == d.meta[id].before
  }

  /** A file under promotion holds the before or the after bytes, and is under one promotion only. */
  ghost predicate Decided(d: Disk) {
    && (forall id :: IsPrepared(d, id) && d.meta[id].path in d.live ==>
          var digest := Sha256(d.live[d.meta[id].path]);
          digest == d.meta[id].before || digest == d.meta[id].after)
    && (forall i, j :: IsPrepared(d, i) && IsPrepared(d, j) && d.meta[i].path == d.meta[j].path ==> i == j)
  }

  ghost predicate Sound(d: Disk, lim: Limits) {
    Backed(d, lim) && Decided(d)
  }

  ghost predicate NonePrepared(d: Disk) {
    forall id :: !IsPrepared(d, id)
  }

  ghost predicate NoneOpen(d: Disk, path: Path) {
    forall id :: !Open(d, id, path)
  }

  /** No record is open that was not open before. */
  ghost predicate NoneOpened(d: Disk, e: Disk) {
    forall id :: IsPrepared(e, id) ==> IsPrepared(d, id) && e.meta[id] == d.meta[id]
  }

  /** What recovery must make of one live file: an interrupted promotion goes
      back to its backup, everything else stays. */
  ghost function SettledAt(d: Disk, path: Path): Bytes
    requires path in d.live
  {
    if exists id :: Open(d, id, path) && id in d.backups
    then var id :| Open(d, id, path) && id in d.backups; d.backups[id]
    else d.live[path]
  }

  ghost function Settled(d: Disk): map<Path, Bytes> {
    map path | path in d.live :: SettledAt(d, path)
  }

  /** Every new disk of the trace has its backups. */
  ghost predicate Kept(before: seq<Disk>, after: seq<Disk>, lim: Limits) {
    && before != [] && before <= after
    && (Backed(before[|before| - 1], lim) ==> forall i :: |before| <= i < |after| ==> Backed(after[i], lim))
  }

  /** A crash at any new disk of the trace recovers to the live files that the
      old disk settles to, or to `next`. */
  ghost predicate Crashable(before: seq<Disk>, after: seq<Disk>, lim: Limits, next: map<Path, Bytes>) {
    && before != [] && before <= after
    && (Sound(before[|before| - 1], lim) ==>
          forall i :: |before| <= i < |after| ==>
            && Sound(after[i], lim)
            && (Settled(after[i]) == Settled(before[|before| - 1]) || Settled(after[i]) == next))
  }

  /** A crash at any new disk changes nothing. */
  ghost predicate Quiet(before: seq<Disk>, after: seq<Disk>, lim: Limits) {
    before != [] && Crashable(before, after, lim, Settled(before[|before| - 1]))
  }

  // ------------------------------------------------------------------
  // Each kind of disk step
  // ------------------------------------------------------------------

  lemma SettledOpen(d: Disk, lim: Limits, id: Id)
    requires Sound(d, lim) && IsPrepared(d, id)
    ensures SettledAt(d, d.meta[id].path) == d.backups[id]
  {
    assert Open(d, id, d.meta[id].path);
  }

  lemma BackedHas(d: Disk, lim: Limits)
    requires Sound(d, lim)
    ensures forall id :: id in d.meta ==> id in d.backups && d.meta[id].path in d.live
  {
  }

  lemma SettledClosed(d: Disk, path: Path)
    requires path in d.live && NoneOpen(d, path)
    ensures SettledAt(d, path) == d.live[path]
  {
  }

  /** The file is settled the same way when the same records are open on it. */
  lemma SettledSame(d: Disk, e: Disk, lim: Limits, path: Path)
    requires Sound(d, lim) && Sound(e, lim) && path in d.live && path in e.live
    requires forall id :: Open(d, id, path) <==> Open(e, id, path)
    requires forall id :: Open(d, id, path) ==> id in d.backups && id in e.backups && d.backups[id] == e.backups[id]
    requires NoneOpen(d, path) ==> d.live[path] == e.live[path]
    ensures SettledAt(d, path) == SettledAt(e, path)
  {
    if id :| Open(d, id, path) {
      SettledOpen(d, lim, id);
      SettledOpen(e, lim, id);
    } else {
      SettledClosed(d, path);
      SettledClosed(e, path);
    }
  }

  lemma TemporariesDoNotMatter(d: Disk, e: Disk, lim: Limits)
    requires Core(d) == Core(e)
    ensures Sound(d, lim) == Sound(e, lim) && Backed(d, lim) == Backed(e, lim)
    ensures Sound(d, lim) ==> Settled(d) == Settled(e)
  {
    if Sound(d, lim) {
      forall path | path in d.live ensures SettledAt(d, path) == SettledAt(e, path) {
        assert forall id :: Open(d, id, path) <==> Open(e, id, path);
        SettledSame(d, e, lim, path);
      }
    }
  }

  /** A backup without metadata, whole or partial, changes nothing. */
  lemma OrphanBackup(d: Disk, e: Disk, lim: Limits)
    requires Sound(d, lim) && e.live == d.live && e.meta == d.meta
    requires forall id :: id in d.meta ==> id in e.backups && e.backups[id] == d.backups[id]
    ensures Sound(e, lim) && Settled(e) == Settled(d)
  {
    forall path | path in d.live ensures SettledAt(d, path) == SettledAt(e, path) {
      assert forall id :: Open(d, id, path) <==> Open(e, id, path);
      SettledSame(d, e, lim, path);
    }
  }

  lemma PrepareIsBacked(d: Disk, lim: Limits, id: Id, r: Record)
    requires Backed(d, lim) && id !in d.meta && |d.meta| < lim.maxRecords
    requires id in d.backups && |d.backups[id]| <= lim.maxBackupBytes && r.before == Sha256(d.backups[id])
    requires r.path in d.live
    ensures Backed(d.(meta := d.meta[id := r]), lim)
  {
    assert |d.meta[id := r]| == |d.meta| + 1;
  }

  lemma PrepareIsDecided(d: Disk, id: Id, r: Record)
    requires Decided(d) && id !in d.meta && NoneOpen(d, r.path)
    requires r.path in d.live && r.before == Sha256(d.live[r.path])
    ensures Decided(d.(meta := d.meta[id := r]))
  {
    var e := d.(meta := d.meta[id := r]);
    forall i | IsPrepared(d, i) ensures d.meta[i].path != r.path {
      assert !Open(d, i, r.path);
    }
    forall i ensures IsPrepared(e, i) ==> i == id || IsPrepared(d, i) {
    }
  }

  lemma PrepareIsSound(d: Disk, lim: Limits, id: Id, r: Record)
    requires Sound(d, lim) && id !in d.meta && |d.meta| < lim.maxRecords
    requires id in d.backups && |d.backups[id]| <= lim.maxBackupBytes && r.before == Sha256(d.backups[id])
    requires r.status == Prepared && r.path in d.live && d.live[r.path] == d.backups[id]
    requires NoneOpen(d, r.path)
    ensures Sound(d.(meta := d.meta[id := r]), lim)
  {
    PrepareIsBacked(d, lim, id, r);
    PrepareIsDecided(d, id, r);
    hide Backed;
    hide Decided;
  }

  lemma PrepareSettles(d: Disk, lim: Limits, id: Id, r: Record, path: Path)
    requires Sound(d, lim) && id !in d.meta && |d.meta| < lim.maxRecords
    requires id in d.backups && |d.backups[id]| <= lim.maxBackupBytes && r.before == Sha256(d.backups[id])
    requires r.status == Prepared && r.path in d.live && d.live[r.path] == d.backups[id]
    requires NoneOpen(d, r.path)
    requires path in d.live
    ensures SettledAt(d.(meta := d.meta[id := r]), path) == SettledAt(d, path)
  {
    var e := d.(meta := d.meta[id := r]);
    PrepareIsSound(d, lim, id, r);
    if path == r.path {
      SettledClosed(d, path);
      SettledOpen(e, lim, id);
    } else {
      assert forall i :: Open(d, i, path) <==> Open(e, i, path);
      SettledSame(d, e, lim, path);
    }
  }

  /** Writing the prepared record. */
  lemma PrepareStep(d: Disk, lim: Limits, id: Id, r: Record)
    requires Sound(d, lim) && id !in d.meta && |d.meta| < lim.maxRecords
    requires id in d.backups && |d.backups[id]| <= lim.maxBackupBytes && r.before == Sha256(d.backups[id])
    requires r.status == Prepared && r.path in d.live && d.live[r.path] == d.backups[id]
    requires NoneOpen(d, r.path)
    ensures var e := d.(meta := d.meta[id := r]); Sound(e, lim) && Settled(e) == Settled(d)
  {
    PrepareIsSound(d, lim, id, r);
    forall path | path in d.live ensures SettledAt(d.(meta := d.meta[id := r]), path) == SettledAt(d, path) {
      PrepareSettles(d, lim, id, r, path);
    }
  }

  lemma ReplaceIsSound(d: Disk, lim: Limits, id: Id, payload: Bytes)
    requires Sound(d, lim) && IsPrepared(d, id)
    requires Sha256(payload) == d.meta[id].before || Sha256(payload) == d.meta[id].after
    ensures Sound(d.(live := d.live[d.meta[id].path := payload]), lim)
  {
    var e := d.(live := d.live[d.meta[id].path := payload]);
    forall i ensures IsPrepared(e, i) <==> IsPrepared(d, i) {
    }
  }

  /** Replacing the live file while its record is open, forward or back. */
  lemma ReplaceStep(d: Disk, lim: Limits, id: Id, payload: Bytes)
    requires Sound(d, lim) && IsPrepared(d, id)
    requires Sha256(payload) == d.meta[id].before || Sha256(payload) == d.meta[id].after
    ensures var e := d.(live := d.live[d.meta[id].path := payload]); Sound(e, lim) && Settled(e) == Settled(d)
  {
    var e := d.(live := d.live[d.meta[id].path := payload]);
    ReplaceIsSound(d, lim, id, payload);
    BackedHas(d, lim);
    assert Open(d, id, d.meta[id].path);
    assert forall i, path :: Open(d, i, path) <==> Open(e, i, path);
    hide Sound;
    hide SettledAt;
    hide Open;
    forall path | path in d.live ensures SettledAt(d, path) == SettledAt(e, path) {
      OpenIsBacked(d, lim, path);
      SettledSame(d, e, lim, path);
    }
  }

  lemma OpenIsBacked(d: Disk, lim: Limits, path: Path)
    requires Sound(d, lim)
    ensures forall id :: Open(d, id, path) ==> id in d.backups
  {
  }

  lemma CloseIsSound(d: Disk, lim: Limits, id: Id, status: Status)
    requires Sound(d, lim) && IsPrepared(d, id) && status != Prepared
    ensures Sound(d.(meta := d.meta[id := d.meta[id].(status := status)]), lim)
    ensures NoneOpen(d.(meta := d.meta[id := d.meta[id].(status := status)]), d.meta[id].path)
  {
    var e := d.(meta := d.meta[id := d.meta[id].(status := status)]);
    assert |e.meta| <= |d.meta| by {
      assert e.meta.Keys == d.meta.Keys;
      assert |e.meta| == |e.meta.Keys| && |d.meta| == |d.meta.Keys|;
    }
    forall i ensures IsPrepared(e, i) <==> i != id && IsPrepared(d, i) {
    }
  }

  lemma SettledUpdate(d: Disk, e: Disk, path: Path, payload: Bytes)
    requires d.live.Keys == e.live.Keys && path in e.live && SettledAt(e, path) == payload
    requires forall p :: p in d.live && p != path ==> SettledAt(e, p) == SettledAt(d, p)
    ensures Settled(e) == Settled(d)[path := payload]
  {
    hide SettledAt;
  }

  /** Closing a record makes what is live on its file final. */
  lemma CloseStep(d: Disk, lim: Limits, id: Id, status: Status)
    requires Sound(d, lim) && IsPrepared(d, id) && status != Prepared
    ensures d.meta[id].path in d.live
    ensures var e := d.(meta := d.meta[id := d.meta[id].(status := status)]);
      && Sound(e, lim)
      && Settled(e) == Settled(d)[d.meta[id].path := d.live[d.meta[id].path]]
      && NoneOpen(e, d.meta[id].path)
  {
    var p := d.meta[id].path;
    var e := d.(meta := d.meta[id := d.meta[id].(status := status)]);
    CloseIsSound(d, lim, id, status);
    BackedHas(d, lim);
    hide Sound;
    hide SettledAt;
    forall path | path in d.live && path != p ensures SettledAt(e, path) == SettledAt(d, path) {
      assert forall i :: Open(d, i, path) <==> Open(e, i, path);
      SettledSame(d, e, lim, path);
    }
    SettledClosed(e, p);
    SettledUpdate(d, e, p, d.live[p]);
  }

  /** Closing a record whose file is back at its backup changes nothing. */
  lemma CloseRestored(d: Disk, lim: Limits, id: Id, status: Status)
    requires Sound(d, lim) && IsPrepared(d, id) && status != Prepared
    requires d.meta[id].path in d.live && id in d.backups && d.live[d.meta[id].path] == d.backups[id]
    ensures var e := d.(meta := d.meta[id := d.meta[id].(status := status)]); Sound(e, lim) && Settled(e) == Settled(d)
  {
    CloseStep(d, lim, id, status);
    SettledOpen(d, lim, id);
  }

  lemma DeleteIsSound(d: Disk, lim: Limits, id: Id)
    requires Sound(d, lim) && !IsPrepared(d, id)
    ensures Sound(d.(meta := d.meta - {id}), lim)
  {
    var e := d.(meta := d.meta - {id});
    assert |e.meta| <= |d.meta| by {
      assert e.meta.Keys == d.meta.Keys - {id};
      assert |e.meta| == |e.meta.Keys| && |d.meta| == |d.meta.Keys|;
    }
    assert forall i :: IsPrepared(e, i) ==> IsPrepared(d, i);
  }

  /** Deleting the metadata of a closed record. */
  lemma DeleteStep(d: Disk, lim: Limits, id: Id)
    requires Sound(d, lim) && !IsPrepared(d, id)
    ensures var e := d.(meta := d.meta - {id}); Sound(e, lim) && Settled(e) == Settled(d)
  {
    var e := d.(meta := d.meta - {id});
    DeleteIsSound(d, lim, id);
    BackedHas(d, lim);
    hide Sound;
    hide SettledAt;
    forall path | path in d.live ensures SettledAt(d, path) == SettledAt(e, path) {
      assert forall i :: Open(d, i, path) <==> Open(e, i, path);
      SettledSame(d, e, lim, path);
    }
  }

  /** With nothing prepared, the live files are final. */
  lemma NothingToRecover(d: Disk)
    requires NonePrepared(d)
    ensures Settled(d) == d.live
  {
    forall path | path in d.live ensures SettledAt(d, path) == d.live[path] {
      SettledClosed(d, path);
    }
  }

  // ------------------------------------------------------------------
  // Traces
  // ------------------------------------------------------------------

  lemma GrowKept(before: seq<Disk>, after: seq<Disk>, a: Disk, b: Disk, lim: Limits)
    requires before != [] && before[|before| - 1] == a && Grew(before, after, a, b)
    requires Backed(a, lim) ==> Backed(b, lim)
    ensures Kept(before, after, lim)
  {
    forall i | |before| <= i < |after| && Backed(a, lim) ensures Backed(after[i], lim) {
      if Core(after[i]) == Core(a) { TemporariesDoNotMatter(after[i], a, lim); }
      else { TemporariesDoNotMatter(after[i], b, lim); }
    }
  }

  lemma GrowCrashable(before: seq<Disk>, after: seq<Disk>, a: Disk, b: Disk, lim: Limits)
    requires before != [] && before[|before| - 1] == a && Grew(before, after, a, b)
    requires Sound(a, lim) ==> Sound(b, lim)
    ensures Crashable(before, after, lim, Settled(b))
  {
    forall i | |before| <= i < |after| && Sound(a, lim)
      ensures Sound(after[i], lim) && (Settled(after[i]) == Settled(a) || Settled(after[i]) == Settled(b))
    {
      if Core(after[i]) == Core(a) { TemporariesDoNotMatter(after[i], a, lim); }
      else { TemporariesDoNotMatter(after[i], b, lim); }
    }
  }

  lemma Last(before: seq<Disk>, after: seq<Disk>, lim: Limits)
    requires before != [] && before <= after
    ensures after != []
    ensures Kept(before, after, lim) && Backed(before[|before| - 1], lim) ==> Backed(after[|after| - 1], lim)
    ensures Quiet(before, after, lim) && Sound(before[|before| - 1], lim) ==>
      Sound(after[|after| - 1], lim) && Settled(after[|after| - 1]) == Settled(before[|before| - 1])
  {
    if |after| == |before| { assert after == before; }
  }

  lemma Nothing(a: seq<Disk>, lim: Limits)
    requires a != []
    ensures Kept(a, a, lim) && Quiet(a, a, lim)
  {
  }

  lemma ThenKept(a: seq<Disk>, b: seq<Disk>, c: seq<Disk>, lim: Limits)
    requires Kept(a, b, lim) && Kept(b, c, lim)
    ensures Kept(a, c, lim)
  {
    Last(a, b, lim);
    forall i | |a| <= i < |c| && Backed(a[|a| - 1], lim) ensures Backed(c[i], lim) {
      if i < |b| { assert c[i] == b[i]; }
    }
  }

  /** A quiet stretch, then one that may end in `next`. */
  lemma Then(a: seq<Disk>, b: seq<Disk>, c: seq<Disk>, lim: Limits, next: map<Path, Bytes>)
    requires Quiet(a, b, lim) && Crashable(b, c, lim, next)
    ensures Crashable(a, c, lim, next)
  {
    Last(a, b, lim);
    forall i | |a| <= i < |c| && Sound(a[|a| - 1], lim)
      ensures Sound(c[i], lim) && (Settled(c[i]) == Settled(a[|a| - 1]) || Settled(c[i]) == next)
    {
      if i < |b| { assert c[i] == b[i]; }
    }
  }

  lemma ThenQuiet(a: seq<Disk>, b: seq<Disk>, c: seq<Disk>, lim: Limits)
    requires Quiet(a, b, lim) && Quiet(b, c, lim)
    ensures Quiet(a, c, lim)
  {
    Last(a, b, lim);
    if Sound(a[|a| - 1], lim) { Then(a, b, c, lim, Settled(a[|a| - 1])); }
  }

  lemma QuietIsCrashable(before: seq<Disk>, after: seq<Disk>, lim: Limits, next: map<Path, Bytes>)
    requires Quiet(before, after, lim)
    ensures Crashable(before, after, lim, next)
  {
  }

  /** A stretch that may end in `next`, then a quiet one. */
  lemma ThenSettle(a: seq<Disk>, b: seq<Disk>, c: seq<Disk>, lim: Limits, next: map<Path, Bytes>)
    requires Crashable(a, b, lim, next) && Quiet(b, c, lim)
    ensures Crashable(a, c, lim, next)
  {
    if |a| == |b| { assert a == b; }
    forall i | |a| <= i < |c| && Sound(a[|a| - 1], lim)
      ensures Sound(c[i], lim) && (Settled(c[i]) == Settled(a[|a| - 1]) || Settled(c[i]) == next)
    {
      if i < |b| { assert c[i] == b[i]; }
    }
  }
}
