/** The files that `cogni_flow/production.py` works on, one disk step at a time.

    A crash may fall between any two steps, so every intermediate disk is kept in
    a trace.  A step may also fail with an exception, before or after its
    effect: the choice is left open. */
module Disk {
  import opened Basics

  type Bytes = seq<byte>
  type Path = string
  type Id = string

  /** SHA-256 as an injective function. */
  datatype Digest = Sha256(preimage: Bytes)

  datatype Status = Prepared | Committed | RolledBack | RecoveredRollback | Aborted

  /** One metadata file; its name is the record id, and the backup has the same name. */
  datatype Record = Record(path: Path, before: Digest, after: Digest, status: Status, created: int)

  datatype Disk = Disk(
    live: map<Path, Bytes>,    // the mutable source files
    meta: map<Id, Record>,     // journal metadata
    backups: map<Id, Bytes>,   // journal backups, complete or not
    temps: set<Id>,            // metadata files with a temporary
    strays: set<Path>          // live files with a temporary beside them
  )

  /** The disk without its temporaries. */
  ghost function Core(d: Disk): Disk {
    d.(temps := {}, strays := {})
  }

  /** The trace went on, and apart from temporaries every new disk is `a` or `b`. */
  ghost predicate Grew(before: seq<Disk>, after: seq<Disk>, a: Disk, b: Disk) {
    && before <= after
    && forall i :: |before| <= i < |after| ==> Core(after[i]) == Core(a) || Core(after[i]) == Core(b)
  }

  /** From place `n` on, the disks of the trace differ from `d` in a new backup only. */
  ghost predicate Filling(d: Disk, id: Id, trace: seq<Disk>, n: nat) {
    forall i :: n <= i < |trace| ==>
      id !in d.backups && id in trace[i].backups && trace[i] == d.(backups := d.backups[id := trace[i].backups[id]])
  }

  class FileSystem {
    var live: map<Path, Bytes>
    var meta: map<Id, Record>
    var backups: map<Id, Bytes>
    var temps: set<Id>
    var strays: set<Path>
    var trace: seq<Disk>  // every disk a crash may have left, in order
    /** No step of a reliable disk fails. */
    const reliable: bool

    function View(): Disk
      reads this
    {
      Disk(live, meta, backups, temps, strays)
    }

    ghost predicate Valid()
      reads this
    {
      trace != [] && trace[|trace| - 1] == View()
    }

    /** A machine that comes up on a disk. */
    constructor (d: Disk, reliable: bool)
      ensures Valid() && View() == d && trace == [d] && this.reliable == reliable
    {
      this.reliable := reliable;
      live, meta, backups, temps, strays := d.live, d.meta, d.backups, d.temps, d.strays;
      trace := [d];
    }

    method Fault() returns (fault: bool)
      ensures reliable ==> !fault
    {
      fault := *;
      fault := fault && !reliable;
    }

    method Snapshot()
      modifies this`trace
      ensures trace == old(trace) + [View()]
    {
      trace := trace + [View()];
    }

    /** `_atomic_write_bytes(..., exclusive=True)`: the file is created, filled and
        flushed in place; a crash or a failure may leave any prefix of it. */
    method CreateExclusive(id: Id, payload: Bytes) returns (ok: bool)
      requires Valid()
      modifies this
      ensures Valid() && old(trace) <= trace
      ensures Filling(old(View()), id, trace, |old(trace)|)
      ensures reliable && id !in old(backups) ==> ok
      ensures ok ==> id !in old(backups) && View() == old(View()).(backups := old(backups)[id := payload])
      ensures View() == old(View()) || (id !in old(backups) && View() == old(View()).(backups := old(backups)[id := backups[id]]))
    {
      ok := false;
      ghost var d, n := View(), |trace|;
      assert Filling(d, id, trace, n);
      var fault := Fault();
      if fault || id in backups { return; }
      hide Filling;
      WritePart(id, [], d, n);
      fault := Fault();
      if fault { return; }
      var cut: int :| 0 <= cut <= |payload|;
      WritePart(id, payload[..cut], d, n);
      fault := Fault();
      if fault { return; }
      WritePart(id, payload, d, n);
      fault := Fault();
      ok := !fault;
    }

    /** What has reached the new file so far; `d` is the disk without the file. */
    method WritePart(id: Id, part: Bytes, ghost d: Disk, ghost n: nat)
      requires id !in d.backups && Filling(d, id, trace, n) && n <= |trace|
      requires View() == d || (id in backups && View() == d.(backups := d.backups[id := backups[id]]))
      modifies this
      ensures View() == d.(backups := d.backups[id := part]) && id in backups && backups[id] == part
      ensures trace == old(trace) + [View()] && Filling(d, id, trace, n)
    {
      backups := backups[id := part];
      assert View() == d.(backups := d.backups[id := part]);
      Snapshot();
    }

    /** `_atomic_write_bytes` of a metadata file: temporary, then replace. After a
        failure the temporary is removed, unless that fails too. */
    method ReplaceMeta(id: Id, record: Record) returns (ok: bool)
      requires Valid()
      modifies this
      ensures Valid()
      ensures Grew(old(trace), trace, old(View()), old(View()).(meta := old(meta)[id := record]))
      ensures live == old(live) && backups == old(backups) && strays == old(strays)
      ensures reliable ==> ok
      ensures ok ==> meta == old(meta)[id := record] && temps == old(temps)
      ensures meta == old(meta) || meta == old(meta)[id := record]
      ensures old(temps) <= temps <= old(temps) + {id}
    {
      var fault := Fault();
      if fault { return false; }
      var others := temps;  // an older temporary has another random name
      temps := temps + {id};
      Snapshot();
      fault := Fault();
      if fault {
        ok := false;
        fault := Fault();
        if fault { return; }
        temps := others;
        Snapshot();
        return;
      }
      meta, temps := meta[id := record], others;
      Snapshot();
      fault := Fault();
      ok := !fault;
    }

    /** `_atomic_write_bytes` of a live file: its temporary lies in the source tree. */
    method ReplaceLive(path: Path, payload: Bytes) returns (ok: bool)
      requires Valid()
      modifies this
      ensures Valid()
      ensures Grew(old(trace), trace, old(View()), old(View()).(live := old(live)[path := payload]))
      ensures meta == old(meta) && backups == old(backups) && temps == old(temps)
      ensures reliable ==> ok
      ensures ok ==> live == old(live)[path := payload] && strays == old(strays)
      ensures live == old(live) || live == old(live)[path := payload]
      ensures old(strays) <= strays <= old(strays) + {path}
    {
      var fault := Fault();
      if fault { return false; }
      var others := strays;
      strays := strays + {path};
      Snapshot();
      fault := Fault();
      if fault {
        ok := false;
        fault := Fault();
        if fault { return; }
        strays := others;
        Snapshot();
        return;
      }
      live, strays := live[path := payload], others;
      Snapshot();
      fault := Fault();
      ok := !fault;
    }

    method ReadLive(path: Path) returns (ok: bool, payload: Bytes)
      requires path in live
      ensures reliable ==> ok
      ensures ok ==> payload == live[path]
    {
      payload := live[path];
      var fault := Fault();
      ok := !fault;
    }

    method UnlinkMeta(id: Id) returns (ok: bool)
      requires Valid()
      modifies this
      ensures Valid()
      ensures Grew(old(trace), trace, old(View()), old(View()).(meta := old(meta) - {id}))
      ensures live == old(live) && backups == old(backups) && temps == old(temps) && strays == old(strays)
      ensures reliable ==> ok
      ensures meta == (if ok then old(meta) - {id} else old(meta))
    {
      var fault := Fault();
      ok := !fault;
      if ok {
        meta := meta - {id};
        Snapshot();
      }
    }

    method UnlinkBackup(id: Id) returns (ok: bool)
      requires Valid()
      modifies this
      ensures Valid()
      ensures Grew(old(trace), trace, old(View()), old(View()).(backups := old(backups) - {id}))
      ensures live == old(live) && meta == old(meta) && temps == old(temps) && strays == old(strays)
      ensures reliable ==> ok
      ensures backups == (if ok then old(backups) - {id} else old(backups))
    {
      var fault := Fault();
      ok := !fault;
      if ok {
        backups := backups - {id};
        Snapshot();
      }
    }

    method UnlinkTemp(id: Id) returns (ok: bool)
      requires Valid()
      modifies this
      ensures Valid()
      ensures Grew(old(trace), trace, old(View()), old(View()))
      ensures live == old(live) && meta == old(meta) && backups == old(backups) && strays == old(strays)
      ensures reliable ==> ok
      ensures temps == (if ok then old(temps) - {id} else old(temps))
    {
      var fault := Fault();
      ok := !fault;
      if ok {
        temps := temps - {id};
        Snapshot();
      }
    }
  }
}
