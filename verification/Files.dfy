/**
 A file system in which every call may fail and the machine may stop between
 any two steps. Names point at inodes, so a hard link shares its content.
 `seen` collects every state the disk has been in: a crash leaves one of them.
 Existence checks are exact and nobody else writes.
 */
module Files {
  import opened Common

  type Content = seq<bv8>

  /** The database file and the two files SQLite keeps beside it. */
  datatype Suffix = Main | Wal | Shm

  datatype Name =
    | Live(suffix: Suffix)     // the database's own names
    | Aside(suffix: Suffix)    // the second name its files are kept under
    | Temp                     // the copy the startup restore prepares
    | Staged(id: nat)          // the copy a restore at run time prepares
    | Replaced(id: nat, suffix: Suffix)  // what it moves out of the way
    | Partial(id: nat)         // a backup not finished yet
    | Backup(id: nat)          // a finished backup, or any other file

  datatype Disk = Disk(names: map<Name, nat>, data: map<nat, Content>, next: nat)

  predicate WellFormed(d: Disk) {
    && (forall n <- d.names :: d.names[n] in d.data && d.names[n] < d.next)
    && (forall i <- d.data :: i < d.next)
  }

  function Read(d: Disk, n: Name): Option<Content> {
    if n in d.names && d.names[n] in d.data then Some(d.data[d.names[n]]) else None
  }

  /** Same inode under the name, or none in both. */
  predicate SameBinding(d0: Disk, d: Disk, n: Name) {
    if n in d0.names then n in d.names && d.names[n] == d0.names[n] else n !in d.names
  }

  /** No other name shares the prepared copy's inode, so writing it writes nothing else. */
  predicate TempPrivate(d: Disk) {
    Temp in d.names ==> forall n <- d.names :: n != Temp ==> d.names[n] != d.names[Temp]
  }

  /** A state a copy onto `to` passes through: some bytes, perhaps not all, in `to`. */
  predicate CopyInto(d: Disk, s: Disk, to: Name) {
    var i := if to in d.names then d.names[to] else d.next;
    && s.names == d.names[to := i]
    && i in s.data && s.data == d.data[i := s.data[i]]
    && s.next == Max(d.next, i + 1)
  }

  function Linked(d: Disk, existing: Name, added: Name): Disk
    requires existing in d.names
  {
    d.(names := d.names[added := d.names[existing]])
  }

  function Unlinked(d: Disk, n: Name): Disk {
    d.(names := d.names - {n})
  }

  function Renamed(d: Disk, from: Name, to: Name): Disk
    requires from in d.names
  {
    d.(names := (d.names - {from})[to := d.names[from]])
  }

  /** Only the database's own files differ: what open connections may do. */
  ghost predicate LiveOnly(d: Disk, s: Disk) {
    && (WellFormed(d) ==> WellFormed(s)) && s.next >= d.next
    && forall n: Name :: !n.Live? ==> SameBinding(d, s, n) && Read(s, n) == Read(d, n)
  }

  /** The database's file `x` now holds this, or is gone. */
  function WithLive(d: Disk, x: Suffix, content: Option<Content>): Disk {
    if content.None? then Unlinked(d, Live(x))
    else Disk(d.names[Live(x) := d.next], d.data[d.next := content.value], d.next + 1)
  }

  lemma WithLiveOnly(d: Disk, x: Suffix, content: Option<Content>)
    requires WellFormed(d)
    ensures LiveOnly(d, WithLive(d, x, content))
  {
  }

  lemma LiveOnlyTwice(d: Disk, s: Disk, t: Disk)
    requires LiveOnly(d, s) && LiveOnly(s, t)
    ensures LiveOnly(d, t)
  {
    forall n: Name | !n.Live? ensures SameBinding(d, t, n) && Read(t, n) == Read(d, n) {
      assert SameBinding(d, s, n) && SameBinding(s, t, n);
    }
  }

  /** What a caller asks of the file system. */
  datatype Op =
    | Copying(from: Name, to: Name)
    | Writing(to: Name)
    | Protecting(n: Name)
    | Linking(existing: Name, added: Name)
    | Unlinking(n: Name)
    | Renaming(from: Name, to: Name)
    | Verifying(n: Name)
    | Connecting

  /** A call that was made: whether the disk allowed it, and whether it succeeded. */
  datatype Call = Call(op: Op, possible: bool, ok: bool)

  /** A file system in order can do this. */
  predicate IsPossible(d: Disk, op: Op, restorable: Content -> bool) {
    match op
    case Copying(from, _) => Read(d, from).Some?
    case Linking(existing, added) => existing in d.names && added !in d.names
    case Unlinking(n) => n in d.names
    case Renaming(from, _) => from in d.names
    case Verifying(n) => Read(d, n).Some? && restorable(Read(d, n).value)
    case _ => true
  }

  /** The call failed though nothing on the disk stood in its way. */
  predicate Failed(log: seq<Call>, op: Op) {
    Call(op, true, false) in log
  }

  /** Every call that could succeed did. */
  predicate NothingFailed(log: seq<Call>) {
    forall c <- log :: c.possible ==> c.ok
  }

  /** How many calls failed though they could have succeeded. */
  function Faults(log: seq<Call>): nat {
    if log == [] then 0
    else
      var c := log[|log| - 1];
      Faults(log[..|log| - 1]) + if c.possible && !c.ok then 1 else 0
  }

  lemma FaultsOneMore(log: seq<Call>, c: Call)
    ensures Faults(log + [c]) == Faults(log) + if c.possible && !c.ok then 1 else 0
  {
    assert (log + [c])[..|log + [c]| - 1] == log;
  }

  lemma {:induction false} NoNewFaults(log: seq<Call>, calls: seq<Call>)
    ensures Faults(log + calls) >= Faults(log)
    ensures Faults(log + calls) == Faults(log) <==> NothingFailed(calls)
    decreases |calls|
  {
    if calls == [] {
      assert log + calls == log;
    } else {
      var most, c := calls[..|calls| - 1], calls[|calls| - 1];
      NoNewFaults(log, most);
      FaultsOneMore(log + most, c);
      assert log + calls == log + most + [c] && calls == most + [c];
    }
  }

  class FileSystem {
    var disk: Disk
    ghost var seen: set<Disk>
    /** The calls so far. */
    ghost var log: seq<Call>
    // Whether the bytes pass every check of verifyCandidate / verifyDbFile.
    const restorable: Content -> bool

    constructor (d: Disk, restorable: Content -> bool)
      requires WellFormed(d)
      ensures disk == d && seen == {d} && log == [] && this.restorable == restorable
    {
      disk, this.restorable := d, restorable;
      seen, log := {d}, [];
    }

    method Exists(n: Name) returns (yes: bool)
      ensures yes == (n in disk.names)
    {
      yes := n in disk.names;
    }

    /** May fail before anything, or leave `to` partly written. */
    method Copy(from: Name, to: Name) returns (ok: bool)
      requires from != to
      requires to in disk.names && from in disk.names ==> disk.names[to] != disk.names[from]
      modifies this`disk, this`seen, this`log
      ensures (disk == old(disk) && seen == old(seen)) || (CopyInto(old(disk), disk, to) && disk in seen)
      ensures forall s <- seen :: s in old(seen) || s == old(disk) || CopyInto(old(disk), s, to)
      ensures ok ==> CopyInto(old(disk), disk, to)
      ensures ok && WellFormed(old(disk)) ==> Read(disk, to) == Read(old(disk), from) && Read(disk, to).Some?
      ensures log == old(log) + [Call(Copying(from, to), IsPossible(old(disk), Copying(from, to), restorable), ok)]
    {
      ok := *;
      if !ok || from !in disk.names || disk.names[from] !in disk.data {
        log := log + [Call(Copying(from, to), IsPossible(disk, Copying(from, to), restorable), false)];
        return false;
      }
      var source := disk.data[disk.names[from]];
      var inode := if to in disk.names then disk.names[to] else disk.next;
      var part := *;
      var next := Max(disk.next, inode + 1);
      disk := Disk(disk.names[to := inode], disk.data[inode := part], next);
      assert CopyInto(old(disk), disk, to);
      seen := seen + {disk};
      ok := *;
      if ok {
        disk := Disk(disk.names, disk.data[inode := source], next);
        assert disk.data == old(disk).data[inode := source];
        assert CopyInto(old(disk), disk, to);
        seen := seen + {disk};
      }
      log := log + [Call(Copying(from, to), true, ok)];
    }

    /** Writes `bytes` to a file; may fail partway. */
    method Write(to: Name, bytes: Content) returns (ok: bool)
      modifies this`disk, this`seen, this`log
      ensures disk == old(disk) || CopyInto(old(disk), disk, to)
      ensures forall s <- seen :: s in old(seen) || s == old(disk) || CopyInto(old(disk), s, to)
      ensures seen >= old(seen) + {disk}
      ensures ok ==> CopyInto(old(disk), disk, to) && Read(disk, to) == Some(bytes)
      ensures log == old(log) + [Call(Writing(to), IsPossible(old(disk), Writing(to), restorable), ok)]
    {
      seen := seen + {disk};
      ok := *;
      if !ok {
        log := log + [Call(Writing(to), true, false)];
        return;
      }
      var inode := if to in disk.names then disk.names[to] else disk.next;
      var part := *;
      var next := Max(disk.next, inode + 1);
      disk := Disk(disk.names[to := inode], disk.data[inode := part], next);
      assert CopyInto(old(disk), disk, to);
      seen := seen + {disk};
      ok := *;
      if ok {
        disk := Disk(disk.names, disk.data[inode := bytes], next);
        assert disk.data == old(disk).data[inode := bytes];
        assert CopyInto(old(disk), disk, to);
        seen := seen + {disk};
      }
      log := log + [Call(Writing(to), true, ok)];
    }

    /** The caller closes or reopens its connections; this may fail too. */
    method Connections() returns (ok: bool)
      requires WellFormed(disk)
      modifies this`disk, this`seen, this`log
      ensures LiveOnly(old(disk), disk) && disk in seen
      ensures forall s <- seen :: s in old(seen) || LiveOnly(old(disk), s)
      ensures log == old(log) + [Call(Connecting, IsPossible(old(disk), Connecting, restorable), ok)]
    {
      ok := *;
      var steps: seq<(Suffix, Option<Content>)> := *;
      for i := 0 to |steps|
        invariant WellFormed(disk) && LiveOnly(old(disk), disk) && log == old(log)
        invariant forall s <- seen :: s in old(seen) || LiveOnly(old(disk), s)
      {
        WithLiveOnly(disk, steps[i].0, steps[i].1);
        LiveOnlyTwice(old(disk), disk, WithLive(disk, steps[i].0, steps[i].1));
        disk := WithLive(disk, steps[i].0, steps[i].1);
        seen := seen + {disk};
      }
      seen := seen + {disk};
      log := log + [Call(Connecting, true, ok)];
    }

    method Link(existing: Name, added: Name) returns (ok: bool)
      modifies this`disk, this`seen, this`log
      ensures ok ==> existing in old(disk).names && added !in old(disk).names
                     && disk == Linked(old(disk), existing, added)
      ensures !ok ==> disk == old(disk)
      ensures seen == old(seen) + {disk}
      ensures log == old(log) + [Call(Linking(existing, added), IsPossible(old(disk), Linking(existing, added), restorable), ok)]
    {
      ok := *;
      ok := ok && existing in disk.names && added !in disk.names;
      if ok {
        disk := Linked(disk, existing, added);
      }
      seen := seen + {disk};
      log := log + [Call(Linking(existing, added), IsPossible(old(disk), Linking(existing, added), restorable), ok)];
    }

    method Unlink(n: Name) returns (ok: bool)
      modifies this`disk, this`seen, this`log
      ensures ok ==> n in old(disk).names && disk == Unlinked(old(disk), n)
      ensures !ok ==> disk == old(disk)
      ensures seen == old(seen) + {disk}
      ensures log == old(log) + [Call(Unlinking(n), IsPossible(old(disk), Unlinking(n), restorable), ok)]
    {
      ok := *;
      ok := ok && n in disk.names;
      if ok {
        disk := Unlinked(disk, n);
      }
      seen := seen + {disk};
      log := log + [Call(Unlinking(n), IsPossible(old(disk), Unlinking(n), restorable), ok)];
    }

    /** Atomic: the name moves in one step, over whatever `to` was. */
    method Rename(from: Name, to: Name) returns (ok: bool)
      requires from != to
      modifies this`disk, this`seen, this`log
      ensures ok ==> from in old(disk).names && disk == Renamed(old(disk), from, to)
      ensures !ok ==> disk == old(disk)
      ensures seen == old(seen) + {disk}
      ensures log == old(log) + [Call(Renaming(from, to), IsPossible(old(disk), Renaming(from, to), restorable), ok)]
    {
      ok := *;
      ok := ok && from in disk.names;
      if ok {
        disk := Renamed(disk, from, to);
      }
      seen := seen + {disk};
      log := log + [Call(Renaming(from, to), IsPossible(old(disk), Renaming(from, to), restorable), ok)];
    }

    /** Changes who may read the file, not what it holds. */
    method Protect(n: Name) returns (ok: bool)
      modifies this`log
      ensures log == old(log) + [Call(Protecting(n), true, ok)]
    {
      ok := *;
      log := log + [Call(Protecting(n), true, ok)];
    }

    /** A file is accepted only if its bytes pass; a check that cannot run refuses it. */
    method Verify(n: Name) returns (ok: bool)
      modifies this`log
      ensures ok ==> Read(disk, n).Some? && restorable(Read(disk, n).value)
      ensures log == old(log) + [Call(Verifying(n), IsPossible(disk, Verifying(n), restorable), ok)]
    {
      ok := *;
      ok := ok && Read(disk, n).Some? && restorable(Read(disk, n).value);
      log := log + [Call(Verifying(n), IsPossible(disk, Verifying(n), restorable), ok)];
    }
  }
}
