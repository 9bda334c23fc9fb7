// Replacement of the core's executable through a backup that survives crashes (src-tauri/src/core_update.rs).
module CoreUpdate {
  import opened Basics

  /** What a path holds: nothing, a copy that broke off, or a whole executable. */
  datatype Image = Absent | Partial | Whole(id: nat)

  datatype Disk = Disk(core: Image, backup: Image, replacement: Image)

  /** The executable the next start will find at the core path. */
  function Survivor(d: Disk): Image {
    if d.backup != Absent then d.backup else d.core
  }

  /** Neither the core path nor the backup ever holds half a file. */
  predicate Intact(d: Disk) {
    d.core != Partial && d.backup != Partial
  }

  predicate Keeps(d: Disk, image: Image) {
    Intact(d) && Survivor(d) == image
  }

  predicate Settled(d: Disk, image: Image) {
    d.core == image && d.backup == Absent
  }

  predicate AllKeep(trace: seq<Disk>, image: Image) {
    forall d <- trace :: Keeps(d, image)
  }

  /** Up to some moment the old executable survives, from then on the new one is in place for good. */
  ghost predicate Handover(trace: seq<Disk>, before: Image, after: Image) {
    exists m :: 0 <= m <= |trace| && AllKeep(trace[..m], before) && forall d <- trace[m..] :: Settled(d, after)
  }

  datatype Backup = Backup(hadOriginal: bool)

  datatype Life = Life(staged: nat, healthy: bool, crash: Option<nat>)

  class Installation {
    const faults: nat -> bool
    /** Whether a copy that fails leaves a truncated file behind. */
    const truncated: nat -> bool
    var step: nat
    var disk: Disk
    var trace: seq<Disk>

    method Attempt() returns (ok: bool)
      modifies `step
      ensures step == old(step) + 1 && ok == !faults(old(step))
    {
      ok := !faults(step);
      step := step + 1;
    }

    method Become(next: Disk)
      modifies `disk, `trace
      ensures disk == next && trace == old(trace) + [next]
    {
      disk := next;
      trace := trace + [next];
    }

    method RemoveReplacement() returns (ok: bool)
      modifies `step, `disk, `trace
      ensures step == old(step) + 1 && ok == !faults(old(step))
      ensures disk == if ok then old(disk).(replacement := Absent) else old(disk)
      ensures trace == if ok then old(trace) + [disk] else old(trace)
    {
      ok := Attempt();
      if ok {
        Become(disk.(replacement := Absent));
      }
    }

    method RemoveCore() returns (ok: bool)
      modifies `step, `disk, `trace
      ensures step == old(step) + 1 && (ok <==> !faults(old(step)) && old(disk).core != Absent)
      ensures ok ==> disk == old(disk).(core := Absent) && trace == old(trace) + [disk]
      ensures !ok ==> disk == old(disk) && trace == old(trace)
    {
      ok := Attempt();
      ok := ok && disk.core != Absent;
      if ok {
        Become(disk.(core := Absent));
      }
    }

    method RemoveBackup() returns (ok: bool)
      modifies `step, `disk, `trace
      ensures step == old(step) + 1 && (ok <==> !faults(old(step)) && old(disk).backup != Absent)
      ensures ok ==> disk == old(disk).(backup := Absent) && trace == old(trace) + [disk]
      ensures !ok ==> disk == old(disk) && trace == old(trace)
    {
      ok := Attempt();
      ok := ok && disk.backup != Absent;
      if ok {
        Become(disk.(backup := Absent));
      }
    }

    /** A copy is not atomic: a crash, or a failure, may leave part of it. */
    method CopyStaged(staged: nat) returns (ok: bool)
      modifies `step, `disk, `trace
      ensures step == old(step) + 1 && ok == !faults(old(step))
      ensures disk == old(disk).(replacement := if ok then Whole(staged) else if truncated(old(step)) then Partial
                                                else old(disk).replacement)
      ensures old(trace) <= trace && (truncated(old(step)) ==> |trace| > |old(trace)| && trace[|old(trace)|] == old(disk).(replacement := Partial))
      ensures forall d <- trace[|old(trace)|..] :: d.core == disk.core && d.backup == disk.backup
    {
      if truncated(step) {
        Become(disk.(replacement := Partial));
        assert trace[|old(trace)|] == old(disk).(replacement := Partial);
      }
      ok := Attempt();
      if ok {
        Become(disk.(replacement := Whole(staged)));
      }
    }

    /** Renaming replaces the target and is atomic. */
    method CoreToBackup() returns (ok: bool)
      modifies `step, `disk, `trace
      ensures step == old(step) + 1 && (ok <==> !faults(old(step)) && old(disk).core != Absent)
      ensures ok ==> disk == old(disk).(backup := old(disk).core, core := Absent) && trace == old(trace) + [disk]
      ensures ok ==> old(disk).core != Absent
      ensures !ok ==> disk == old(disk) && trace == old(trace)
    {
      ok := Attempt();
      ok := ok && disk.core != Absent;
      if ok {
        Become(disk.(backup := disk.core, core := Absent));
      }
    }

    method BackupToCore() returns (ok: bool)
      modifies `step, `disk, `trace
      ensures step == old(step) + 1 && (ok <==> !faults(old(step)) && old(disk).backup != Absent)
      ensures ok ==> disk == old(disk).(core := old(disk).backup, backup := Absent) && trace == old(trace) + [disk]
      ensures ok ==> old(disk).backup != Absent
      ensures !ok ==> disk == old(disk) && trace == old(trace)
    {
      ok := Attempt();
      ok := ok && disk.backup != Absent;
      if ok {
        Become(disk.(core := disk.backup, backup := Absent));
      }
    }

    method ReplacementToCore() returns (ok: bool)
      modifies `step, `disk, `trace
      ensures step == old(step) + 1 && (ok <==> !faults(old(step)) && old(disk).replacement != Absent)
      ensures ok ==> disk == old(disk).(core := old(disk).replacement, replacement := Absent)
                     && trace == old(trace) + [disk] && old(disk).replacement != Absent
      ensures !ok ==> disk == old(disk) && trace == old(trace)
    {
      ok := Attempt();
      ok := ok && disk.replacement != Absent;
      if ok {
        Become(disk.(core := disk.replacement, replacement := Absent));
      }
    }

    ghost predicate AtMostOneFault(from: nat, to: nat) {
      forall m, n | from <= m < to && from <= n < to && faults(m) && faults(n) :: m == n
    }

    ghost predicate NoFaults(from: nat, to: nat) {
      forall m | from <= m < to :: !faults(m)
    }

    /** First half of `replace_core`: nothing but the replacement is touched. */
    method Stage(staged: nat) returns (ok: bool)
      modifies `step, `disk, `trace
      ensures old(step) <= step && old(trace) <= trace
      ensures disk.core == old(disk).core && disk.backup == old(disk).backup
      ensures forall d <- trace[|old(trace)|..] :: d.core == disk.core && d.backup == disk.backup
      ensures ok ==> disk.replacement == Whole(staged) && disk.backup == Absent
      ensures faults(old(step)) ==> !ok && disk == old(disk) && trace == old(trace)
      ensures ok && NoFaults(old(step), step) ==> |trace| > |old(trace)| && trace[|old(trace)|] == old(disk).(replacement := Absent)
      ensures NoFaults(old(step), step) ==>
                && (ok <==> old(disk).backup == Absent)
                && (!ok ==> disk == old(disk).(replacement := Absent))
    {
      ok := Attempt();
      if ok {
        var _ := RemoveReplacement();
        ok := disk.backup == Absent;
        if ok {
          ok := CopyStaged(staged);
        }
      }
    }

    /** Second half of `replace_core`: two renames, the first taken back if the second fails. */
    method Swap(staged: nat) returns (r: Result<Backup>)
      requires Intact(disk) && disk.replacement == Whole(staged) && disk.backup == Absent
      modifies `step, `disk, `trace
      ensures old(step) <= step && old(trace) <= trace && Intact(disk)
      ensures old(disk).core != Absent ==> AllKeep(trace[|old(trace)|..], old(disk).core) && Keeps(disk, old(disk).core)
      ensures r.Ok? ==> disk.core == Whole(staged) && disk.backup == old(disk).core
                        && r.value.hadOriginal == (old(disk).core != Absent)
      ensures r.Ok? ==> disk.replacement == Absent
      ensures NoFaults(old(step), step) ==> r.Ok?
      ensures r.Err? && AtMostOneFault(old(step), step) ==> disk == old(disk).(replacement := Absent)
    {
      r := Err;
      var hadOriginal := disk.core != Absent;
      var ready := true;
      if hadOriginal {
        ready := CoreToBackup();
      }
      if ready {
        ready := ReplacementToCore();
        if ready {
          r := Ok(Backup(hadOriginal));
        } else if hadOriginal {
          var _ := BackupToCore();
        }
      }
      if r.Err? {
        var _ := RemoveReplacement();
      }
    }

    /** `replace_core`; reports whether it went through and whether there was a core to keep. */
    method Replace(staged: nat) returns (r: Result<Backup>)
      requires Intact(disk)
      modifies `step, `disk, `trace
      ensures old(step) <= step && old(trace) <= trace && Intact(disk)
      ensures old(Survivor(disk)) != Absent ==>
                AllKeep(trace[|old(trace)|..], old(Survivor(disk))) && Keeps(disk, old(Survivor(disk)))
      ensures old(disk.backup) != Absent ==> r.Err? && disk.core == old(disk.core) && disk.backup == old(disk.backup)
      ensures r.Ok? ==> disk.core == Whole(staged) && disk.backup == old(disk.core)
                        && r.value.hadOriginal == (old(disk.core) != Absent)
      ensures NoFaults(old(step), step) && old(disk.backup) == Absent ==> r.Ok?
    {
      r := Err;
      var ready := Stage(staged);
      if ready {
        ghost var staging := trace[|old(trace)|..];
        label Staged:
        r := Swap(staged);
        assert trace[|old(trace)|..] == staging + trace[|old@Staged(trace)|..];
      }
    }

    /** `rollback_core` */
    method Rollback(backup: Backup) returns (ok: bool)
      requires Intact(disk)
      modifies `step, `disk, `trace
      ensures old(step) <= step && old(trace) <= trace && Intact(disk)
      ensures old(disk.backup) != Absent ==>
                AllKeep(trace[|old(trace)|..], old(disk.backup)) && Keeps(disk, old(disk.backup))
      ensures backup.hadOriginal && ok ==> Settled(disk, old(disk.backup))
      ensures faults(old(step)) ==> !ok && disk == old(disk)
      ensures NoFaults(old(step), step) && !backup.hadOriginal ==> ok && disk == old(disk).(core := Absent)
      ensures NoFaults(old(step), step) && (backup.hadOriginal ==> old(disk.backup) != Absent) ==> ok
    {
      ok := Attempt();
      if ok {
        var _ := RemoveCore();
        if backup.hadOriginal {
          ok := BackupToCore();
        }
      }
    }

    /** `finalize_core` */
    method Finalize(backup: Backup) returns (ok: bool)
      modifies `step, `disk, `trace
      ensures old(step) <= step
      ensures ok && backup.hadOriginal ==> disk == old(disk).(backup := Absent) && trace == old(trace) + [disk]
      ensures !ok || !backup.hadOriginal ==> disk == old(disk) && trace == old(trace)
      ensures backup.hadOriginal && ok ==> NoFaults(old(step), step) && step == old(step) + 2
      ensures NoFaults(old(step), step) && (backup.hadOriginal ==> old(disk.backup) != Absent) ==> ok
    {
      ok := true;
      if backup.hadOriginal {
        ok := Attempt();
        if ok {
          ok := RemoveBackup();
        }
      }
    }

    /** `recover_orphaned_backup`, run before the Service does anything else. */
    method RecoverOrphan() returns (ok: bool)
      requires Intact(disk)
      modifies `step, `disk, `trace
      ensures old(step) <= step && old(trace) <= trace
      ensures AllKeep(trace[|old(trace)|..], old(Survivor(disk))) && Keeps(disk, old(Survivor(disk)))
      ensures ok ==> Settled(disk, old(Survivor(disk)))
      ensures NoFaults(old(step), step) ==> ok
      ensures faults(old(step)) || (old(disk.backup) != Absent && old(disk.core) != Absent && faults(old(step) + 1)) ==>
                !ok && disk == old(disk)
      ensures old(disk.backup) == Absent ==> disk == old(disk)
    {
      ok := Attempt();
      if ok && disk.backup != Absent {
        if disk.core != Absent {
          ok := RemoveCore();
        }
        if ok {
          ok := BackupToCore();
        }
      }
    }

    /** The update itself: the new core must prove healthy before the old one is given up. */
    method Install(staged: nat, healthy: bool) returns (ok: bool)
      requires Intact(disk) && Survivor(disk) != Absent
      modifies `step, `disk, `trace
      ensures old(step) <= step && old(trace) <= trace && Intact(disk)
      ensures ok ==> healthy && Settled(disk, Whole(staged))
      ensures ok ==> Handover(trace[|old(trace)|..], old(Survivor(disk)), Whole(staged))
      ensures !ok ==> Keeps(disk, old(Survivor(disk))) && AllKeep(trace[|old(trace)|..], old(Survivor(disk)))
      ensures NoFaults(old(step), step) && old(disk.backup) == Absent ==>
                ok == healthy && (!healthy ==> Settled(disk, old(Survivor(disk))))
    {
      ok := false;
      var backup := Replace(staged);
      if backup.Ok? {
        ghost var kept := trace[|old(trace)|..];
        assert trace == old(trace) + kept;
        if healthy {
          ok := Finalize(backup.value);
          if ok {
            assert trace[|old(trace)|..] == kept + [disk];
            assert (kept + [disk])[..|kept|] == kept && (kept + [disk])[|kept|..] == [disk];
          }
        } else {
          label Replaced:
          var _ := Rollback(backup.value);
          assert trace[|old(trace)|..] == kept + trace[|old@Replaced(trace)|..];
        }
      }
    }

    /** Lives of the Service, each of which recovers, may install, and may end in a crash between any two steps:
        what survives is always a whole executable, the first one or one that proved healthy. */
    method SurviveCrashes(lives: seq<Life>)
      requires Intact(disk) && Survivor(disk) != Absent
      modifies `step, `disk, `trace
      ensures old(step) <= step
      ensures Intact(disk) && Trusted(Survivor(disk), old(Survivor(disk)), lives)
      ensures lives != [] && NoFaults(old(step), step) && Uninterrupted(lives) ==>
                Settled(disk, LastHealthy(old(Survivor(disk)), lives))
    {
      var i := 0;
      while i < |lives|
        invariant 0 <= i <= |lives| && old(step) <= step
        invariant Intact(disk) && Survivor(disk) != Absent && Trusted(Survivor(disk), old(Survivor(disk)), lives)
        invariant NoFaults(old(step), step) && Uninterrupted(lives) ==>
                    Survivor(disk) == LastHealthy(old(Survivor(disk)), lives[..i]) && (i > 0 ==> Settled(disk, Survivor(disk)))
      {
        var life := lives[i];
        assert lives[..i + 1][..i] == lives[..i] && life in lives;
        ghost var before := Survivor(disk);
        trace := [disk];
        var started := RecoverOrphan();
        ghost var recovered := trace;
        assert recovered == [recovered[0]] + recovered[1..];
        if started {
          var installed := Install(life.staged, life.healthy);
          ghost var rest := trace[|recovered|..];
          assert trace == recovered + rest;
          if installed {
            HandoverIsTrusted(rest, before, Whole(life.staged));
          }
        }
        assert forall d <- trace :: Survives(d, before, life);
        assert Survives(disk, before, life);
        if life.crash.Some? && life.crash.value < |trace| {
          disk := trace[life.crash.value];
          assert disk in trace;
        }
        assert Survives(disk, before, life) && life in lives;
        i := i + 1;
      }
      assert lives[..i] == lives;
    }
  }

  predicate Uninterrupted(lives: seq<Life>) {
    forall life <- lives :: life.crash.None?
  }

  /** The executable that was last found healthy. */
  function LastHealthy(original: Image, lives: seq<Life>): Image {
    if lives == [] then original
    else if lives[|lives| - 1].healthy then Whole(lives[|lives| - 1].staged)
    else LastHealthy(original, lives[..|lives| - 1])
  }

  /** An image is the original or one installed by a life that found it healthy. */
  predicate Trusted(image: Image, original: Image, lives: seq<Life>) {
    image == original || exists life <- lives :: life.healthy && image == Whole(life.staged)
  }

  predicate Survives(d: Disk, before: Image, life: Life) {
    Intact(d) && (Survivor(d) == before || (life.healthy && Survivor(d) == Whole(life.staged)))
  }

  lemma HandoverIsTrusted(trace: seq<Disk>, before: Image, after: Image)
    requires Handover(trace, before, after) && after.Whole?
    ensures forall d <- trace :: Intact(d) && (Survivor(d) == before || Survivor(d) == after)
  {
    var m :| 0 <= m <= |trace| && AllKeep(trace[..m], before) && forall d <- trace[m..] :: Settled(d, after);
    assert trace == trace[..m] + trace[m..];
  }
}
