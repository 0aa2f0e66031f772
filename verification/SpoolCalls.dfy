/** The spool calls as the sequential procedures they are in the source, each
    proved against a one-line outcome, and each outcome proved to be what the
    interleaving model reaches when the call runs undisturbed. */
module SpoolCalls {
  import opened Names
  import opened SpoolModel

  // ---- outcomes ---------------------------------------------------------

  /** `try_claim` on a quiet spool: whether the caller gets the claim, and the disk. */
  function ClaimOutcome(d: Disk, now: nat, n: string): (bool, Disk) {
    if !Archived(d.fs, n) && New(n) in d.fs && Cur(n) !in d.fs then (true, EnterCur(Touch(d, New(n), now), n))
    else (false, Unlink(d, New(n)))
  }

  function WithSidecar(d: Disk, now: nat, n: string, dir: Dir): Disk {
    if dir.DoneDir? then d else d.(fs := d.fs[Archive(ErrorDir, Sidecar(n)) := Rec(0, now, now, true)])
  }

  function SetAsideMarker(d: Disk, now: nat, n: string, dir: Dir): Disk {
    var dest := Archive(dir, Marker(n));
    if dest in d.fs then d.(fs := Rename(d.fs, dest, Archive(dir, Bak(n, now)))) else d
  }

  /** `finalize_*` on a quiet spool: the claim, freshly stamped, is the marker,
      and a previous marker is a `.bak`; with no claim nothing is replaced. */
  function FinalizeOutcome(d: Disk, now: nat, n: string, dir: Dir): Disk {
    var d1 := WithSidecar(d, now, n, dir);
    var dest := Archive(dir, Marker(n));
    if Cur(n) !in d1.fs then d1
    else Touch(InstallAt(SetAsideMarker(d1, now, n, dir), n, dest, now), dest, now)
  }

  /** The disk a `try_claim` meets at its rename. */
  function Raced(d: Disk, now: nat, n: string, raced: bool): Disk {
    if raced && !Archived(d.fs, n) then FinalizeOutcome(d, now, n, DoneDir) else d
  }

  function SyntheticOutcome(d: Disk, now: nat, n: string): (bool, Disk) {
    if Cur(n) in d.fs then (false, d) else (true, Touch(EnterSynthetic(d, n, now), Cur(n), now))
  }

  // ---- what the outcomes mean, file by file -----------------------------

  predicate SameAt(fs: Tree, fs': Tree, p: Path) { (p in fs <==> p in fs') && (p in fs ==> fs'[p] == fs[p]) }

  /** The claim is won exactly when the job is there and nobody has it or had it; the
      file is then in `cur/`, stamped now, and otherwise gone; no other file changes. */
  lemma ClaimExactly(d: Disk, now: nat, n: string)
    ensures var (won, d') := ClaimOutcome(d, now, n);
            && (won <==> New(n) in d.fs && Cur(n) !in d.fs && DoneMarker(n) !in d.fs && ErrorMarker(n) !in d.fs)
            && New(n) !in d'.fs
            && (won ==> Cur(n) in d'.fs && d'.fs[Cur(n)].id == d.fs[New(n)].id && d'.fs[Cur(n)].mtime == now)
            && forall p :: p != New(n) && (won ==> p != Cur(n)) ==> SameAt(d.fs, d'.fs, p)
  {}

  /** The claim becomes the marker, stamped now; the marker before it becomes the
      `.bak` of this millisecond; the `.err` sidecar is written exactly for `error/`;
      no other file changes, and none but the sidecar when there is no claim. */
  lemma FinalizeExactly(d: Disk, now: nat, n: string, dir: Dir)
    ensures var d' := FinalizeOutcome(d, now, n, dir);
            var marker, bak := Archive(dir, Marker(n)), Archive(dir, Bak(n, now));
            var err := Archive(ErrorDir, Sidecar(n));
            && Cur(n) !in d'.fs
            && (Cur(n) in d.fs ==>
                  marker in d'.fs && d'.fs[marker] == d.fs[Cur(n)].(mtime := now, installed := now, settled := true))
            && (Cur(n) in d.fs && marker in d.fs ==> bak in d'.fs && d'.fs[bak] == d.fs[marker])
            && (if dir.ErrorDir? then err in d'.fs && d'.fs[err].mtime == now else SameAt(d.fs, d'.fs, err))
            && (Cur(n) in d.fs ==> forall p :: p !in {Cur(n), marker, bak, err} ==> SameAt(d.fs, d'.fs, p))
            && (Cur(n) !in d.fs ==> forall p :: p != err ==> SameAt(d.fs, d'.fs, p))
  {}

  // ---- the procedures ---------------------------------------------------

  datatype IoResult = Ok | NotFound | AlreadyExists

  datatype ArchiveResult = Installed | Untouched | Failed

  class Spool {
    var disk: Disk
    const now: nat

    constructor (disk: Disk, now: nat)
      ensures this.disk == disk && this.now == now
    {
      this.disk := disk;
      this.now := now;
    }

    method IsArchived(n: string) returns (b: bool)
      ensures b == Archived(disk.fs, n)
    {
      b := DoneMarker(n) in disk.fs;
      if !b { b := ErrorMarker(n) in disk.fs; }
    }

    /** `rename_no_clobber(new/<n>, cur/<n>)`. */
    method RenameIntoCur(n: string) returns (r: IoResult)
      modifies this`disk
      ensures r == if New(n) !in old(disk.fs) then NotFound else if Cur(n) in old(disk.fs) then AlreadyExists else Ok
      ensures disk == if r.Ok? then EnterCur(old(disk), n) else old(disk)
    {
      if New(n) !in disk.fs { return NotFound; }
      if Cur(n) in disk.fs { return AlreadyExists; }
      disk := EnterCur(disk, n);
      return IoResult.Ok;
    }

    /** `archive`. When `vanishes`, the claim disappears right after the exclusive
        rename proved it present: the set-aside marker is then put back. */
    method ArchiveClaim(n: string, dir: Dir, vanishes: bool) returns (r: ArchiveResult)
      modifies this`disk
      ensures r.Untouched? <==> Cur(n) !in old(disk.fs)
      ensures r.Untouched? ==> disk == old(disk)
      ensures r.Installed? ==>
                disk == InstallAt(SetAsideMarker(old(disk), now, n, dir), n, Archive(dir, Marker(n)), now)
      ensures r.Failed? <==> vanishes && Cur(n) in old(disk.fs) && Archive(dir, Marker(n)) in old(disk.fs)
      ensures r.Failed? ==> disk.fs == old(disk.fs) - {Cur(n), Archive(dir, Bak(n, now))}
    {
      var dest, bak := Archive(dir, Marker(n)), Archive(dir, Bak(n, now));
      if Cur(n) !in disk.fs { return Untouched; }
      if dest !in disk.fs {
        disk := InstallAt(disk, n, dest, now);
        return Installed;
      }
      disk := disk.(fs := Rename(disk.fs, dest, bak));
      if vanishes {
        disk := Unlink(disk, Cur(n));
        disk := disk.(fs := Rename(disk.fs, bak, dest));
        return Failed;
      }
      disk := InstallAt(disk, n, dest, now);
      return Installed;
    }

    method Finalize(n: string, dir: Dir)
      modifies this`disk
      ensures disk == FinalizeOutcome(old(disk), now, n, dir)
    {
      if dir.ErrorDir? { disk := disk.(fs := disk.fs[Archive(ErrorDir, Sidecar(n)) := Rec(0, now, now, true)]); }
      var r := ArchiveClaim(n, dir, false);
      if r.Installed? { disk := Touch(disk, Archive(dir, Marker(n)), now); }
    }

    /** `try_claim_inner`. When `raced`, the original of a replay finalizes out of
        `cur/` between the archive pre-check and the exclusive rename, which frees
        the slot for the replay: the post-check then reverts the claim. */
    method TryClaim(n: string, raced: bool) returns (claimed: bool)
      modifies this`disk
      ensures claimed == ClaimOutcome(Raced(old(disk), now, n, raced), now, n).0
      ensures disk.fs == ClaimOutcome(Raced(old(disk), now, n, raced), now, n).1.fs
    {
      var archived := IsArchived(n);
      if archived {
        disk := Unlink(disk, New(n));
        return false;
      }
      if raced { Finalize(n, DoneDir); }
      ghost var d := disk;
      disk := Touch(disk, New(n), now);
      var r := RenameIntoCur(n);
      match r
      case Ok =>
        archived := IsArchived(n);
        if archived {
          disk := Unlink(disk, Cur(n));
          return false;
        }
        return true;
      case NotFound => return false;
      case AlreadyExists =>
        disk := Unlink(disk, New(n));
        return false;
    }

    method WriteSyntheticClaim(job: U64) returns (claimed: bool)
      modifies this`disk
      ensures (claimed, disk) == SyntheticOutcome(old(disk), now, CanonicalFilename(job))
    {
      var n := CanonicalFilename(job);
      if Cur(n) in disk.fs { return false; }
      disk := EnterSynthetic(disk, n, now);
      disk := Touch(disk, Cur(n), now);
      return true;
    }
  }

  // ---- the same calls in the interleaving model -------------------------

  /** The rest of one call with nobody else moving, for at most `k` steps. */
  function Solo(cfg: Config, d: Disk, now: nat, pc: Pc, k: nat): Effect
    requires IsStepPc(pc)
    decreases k
  {
    var e := Step(cfg, d, now, pc);
    if k == 0 || e.next.None? || !IsStepPc(e.next.value) then e
    else Solo(cfg, e.disk, now, e.next.value, k - 1)
  }

  /** Undisturbed, the `try_claim` of the interleaving model ends in the outcome
      proved for the procedure. */
  lemma ClaimSolo(cfg: Config, d: Disk, now: nat, n: string)
    ensures var e := Solo(cfg, d, now, PreDone(n), 8);
            var (claimed, d') := ClaimOutcome(d, now, n);
            e.disk.fs == d'.fs && e.next == if claimed then Some(Claimed(n, now)) else None
  {
    if !Archived(d.fs, n) {
      assert Solo(cfg, d, now, PreDone(n), 8) == Solo(cfg, d, now, PreError(n), 7) == Solo(cfg, d, now, Stamp(n), 6);
      var d1 := Touch(d, New(n), now);
      assert Solo(cfg, d, now, Stamp(n), 6) == Solo(cfg, d1, now, Pc.Take(n, now), 5);
      if New(n) in d.fs {
        if Cur(n) !in d.fs {
          var d2 := EnterCur(d1, n);
          assert Solo(cfg, d1, now, Pc.Take(n, now), 5) == Solo(cfg, d2, now, PostDone(n, now), 4)
                 == Solo(cfg, d2, now, PostError(n, now), 3);
        } else {
          assert Solo(cfg, d1, now, Pc.Take(n, now), 5) == Solo(cfg, d1, now, DropNew(n), 4);
        }
      }
    } else if DoneMarker(n) in d.fs {
      assert Solo(cfg, d, now, PreDone(n), 8) == Solo(cfg, d, now, DropNew(n), 7);
    } else {
      assert Solo(cfg, d, now, PreDone(n), 8) == Solo(cfg, d, now, PreError(n), 7) == Solo(cfg, d, now, DropNew(n), 6);
    }
  }

  function FinalizeAt(n: string, since: nat, dir: Dir, stage: Stage): Pc { Finalizing(n, since, dir, stage, false) }

  lemma InstallSolo(cfg: Config, d: Disk, now: nat, n: string, since: nat, dir: Dir)
    ensures Solo(cfg, d, now, FinalizeAt(n, since, dir, Install), 7).next == None
    ensures Solo(cfg, d, now, FinalizeAt(n, since, dir, Install), 7).disk ==
              if Cur(n) !in d.fs then d
              else Touch(InstallAt(SetAsideMarker(d, now, n, dir), n, Archive(dir, Marker(n)), now),
                         Archive(dir, Marker(n)), now)
  {
    var dest := Archive(dir, Marker(n));
    var d1 := SetAsideMarker(d, now, n, dir);
    if Cur(n) !in d.fs {
      assert Solo(cfg, d, now, FinalizeAt(n, since, dir, Install), 7)
             == Solo(cfg, d, now, FinalizeAt(n, since, dir, Unlock), 6);
    } else {
      var d2 := InstallAt(d1, n, dest, now);
      if dest in d.fs {
        assert Solo(cfg, d, now, FinalizeAt(n, since, dir, Install), 7)
               == Solo(cfg, d, now, FinalizeAt(n, since, dir, Probe), 6)
               == Solo(cfg, d, now, FinalizeAt(n, since, dir, SetAside), 5)
               == Solo(cfg, d1, now, FinalizeAt(n, since, dir, Overwrite(Some(now))), 4)
               == Solo(cfg, d2, now, FinalizeAt(n, since, dir, StampDest), 3);
      } else {
        assert Solo(cfg, d, now, FinalizeAt(n, since, dir, Install), 7)
               == Solo(cfg, d2, now, FinalizeAt(n, since, dir, StampDest), 6);
      }
    }
  }

  lemma FinalizeSolo(cfg: Config, d: Disk, now: nat, n: string, since: nat, dir: Dir)
    ensures var e := Solo(cfg, d, now, FinalizePc(n, since, dir), if dir.DoneDir? then 8 else 9);
            e.next == None && e.disk == FinalizeOutcome(d, now, n, dir)
  {
    InstallSolo(cfg, WithSidecar(d, now, n, dir), now, n, since, dir);
    if dir.DoneDir? {
      assert Solo(cfg, d, now, FinalizePc(n, since, dir), 8)
             == Solo(cfg, d, now, FinalizeAt(n, since, dir, Install), 7);
    } else {
      assert Solo(cfg, d, now, FinalizePc(n, since, dir), 9)
             == Solo(cfg, d, now, FinalizeAt(n, since, dir, WriteErr), 8)
             == Solo(cfg, WithSidecar(d, now, n, dir), now, FinalizeAt(n, since, dir, Install), 7);
    }
  }

  lemma SyntheticSolo(cfg: Config, d: Disk, now: nat, n: string)
    ensures var e := Solo(cfg, d, now, SynCheck(n), 3);
            var (claimed, d') := SyntheticOutcome(d, now, n);
            e.disk == d' && e.next == if claimed then Some(Working(n, now, Minting)) else None
  {
    if Cur(n) !in d.fs {
      var d1 := EnterSynthetic(d, n, now);
      assert Solo(cfg, d, now, SynCheck(n), 3) == Solo(cfg, d, now, SynTake(n, now), 2)
             == Solo(cfg, d1, now, SynStamp(n, now), 1);
    }
  }

  /** One entry of an archive prune: it is gone afterwards exactly if it is older than
      the retention by its own time, no other file changes, and the scan goes on. */
  lemma PruneSolo(cfg: Config, d: Disk, now: nat, started: nat, p: Path)
    ensures var e := Solo(cfg, d, now, PruneLock(started, p), 4);
            var aged := p in d.fs && started >= d.fs[p].mtime && (started - d.fs[p].mtime) / 1000 > cfg.retentionSecs;
            e.next == Some(Scanning(started)) && e.disk.fs == if aged then d.fs - {p} else d.fs
  {
    if p in d.fs && AgeSecs(started, d.fs[p].mtime) > cfg.retentionSecs {
      assert Solo(cfg, d, now, PruneLock(started, p), 4) == Solo(cfg, d, now, PruneCheck(started, p), 3)
             == Solo(cfg, d, now, PruneUnlink(started, p), 2)
             == Solo(cfg, Unlink(d, p), now, PruneUnlock(started), 1);
    } else {
      assert Solo(cfg, d, now, PruneLock(started, p), 4) == Solo(cfg, d, now, PruneCheck(started, p), 3)
             == Solo(cfg, d, now, PruneUnlock(started), 2);
    }
  }
}
