/** The maildir spool as a labelled transition system.

    The state is the directory tree (`new/`, `cur/`, `done/`, `error/`), the
    clock, the archive-mutation lock and one program counter per live call.
    Every filesystem call of `try_claim`, `write_synthetic_claim`, `finalize_*`
    and the archive prune is one atomic step, and any number of such calls
    interleave. */
module SpoolModel {
  import opened Names

  datatype Dir = DoneDir | ErrorDir

  datatype File = Marker(name: string) | Sidecar(name: string) | Bak(name: string, millis: nat)

  datatype Path = New(name: string) | Cur(name: string) | Archive(dir: Dir, file: File)

  /** One file. `id` identifies the record through every rename. `installed` and
      `settled` are history: the time of its last install into an archive, and
      whether the completion stamp that follows an install has happened. */
  datatype Rec = Rec(id: nat, mtime: nat, installed: nat, settled: bool)

  type Tree = map<Path, Rec>

  /** Steps of one finalize call; all but the first run under the archive lock. */
  datatype Stage =
    | WantLock | WriteErr | Install | Probe | SetAside
    | Overwrite(bak: Option<nat>) | PutBack(millis: nat) | StampDest | Unlock

  /** `run_job` and the completion check, between the claim and the finalize. */
  datatype Phase = Minting | DrivingVm | Capturing(ok: bool) | TearingDown(ok: bool) | Checking

  datatype Pc =
    // try_claim
    | PreDone(name: string) | PreError(name: string) | DropNew(name: string)
    | Stamp(name: string) | Take(name: string, since: nat)
    | PostDone(name: string, since: nat) | PostError(name: string, since: nat)
    | Revert(name: string, since: nat)
    // write_synthetic_claim
    | SynCheck(name: string) | SynTake(name: string, since: nat) | SynStamp(name: string, since: nat)
    // the dispatcher with a fresh claim, and the per-job worker
    | Claimed(name: string, since: nat)
    | Working(name: string, since: nat, phase: Phase)
    // finalize_done / finalize_error, by the claim's owner or by the GC loop
    | Finalizing(name: string, since: nat, dir: Dir, stage: Stage, byGc: bool)
    // prune_archive_dir: `started` is the clock reading taken once per scan
    | Scanning(started: nat) | PruneLock(started: nat, path: Path)
    | PruneCheck(started: nat, path: Path) | PruneUnlink(started: nat, path: Path)
    | PruneUnlock(started: nat)

  datatype Config = Config(maxAgeSecs: nat, retentionSecs: nat)

  /** The directory tree with its history. `kept` are the records that entered
      `cur/`, minus those a `try_claim` reverted and those the prune unlinked;
      ids from `nextId` on are unused. */
  datatype Disk = Disk(fs: Tree, nextId: nat, kept: set<nat>)

  datatype State = State(cfg: Config, disk: Disk, now: nat, lock: Option<nat>, pcs: map<nat, Pc>, crashed: bool)

  datatype LockOp = Keep | Take | Release

  /** What one atomic step of a call does: to the disk, to the archive lock, and
      where the call continues (`None`: it returned). */
  datatype Effect = Effect(disk: Disk, lock: LockOp, next: Option<Pc>)

  datatype Verdict = Run | Drop | Reject

  datatype Label =
    | Arrive(name: string)
    | Wait(millis: nat)
    | BeginClaim(actor: nat, name: string)
    | BeginSynthetic(actor: nat, job: U64)
    | Prepare(actor: nat, verdict: Verdict)
    | Work(actor: nat, ok: bool)
    | Panic(actor: nat)
    | Expire(actor: nat, name: string)
    | ReapOrphan(actor: nat, name: string)
    | BeginPrune(actor: nat)
    | Examine(actor: nat, path: Path)
    | EndPrune(actor: nat)
    | Act(actor: nat)
    | Crash

  // ---- vocabulary -------------------------------------------------------

  function DoneMarker(n: string): Path { Archive(DoneDir, Marker(n)) }

  function ErrorMarker(n: string): Path { Archive(ErrorDir, Marker(n)) }

  predicate Archived(fs: Tree, n: string) { DoneMarker(n) in fs || ErrorMarker(n) in fs }

  /** `now.duration_since(mtime).unwrap_or_default().as_secs()`, in milliseconds. */
  function AgeSecs(now: nat, mtime: nat): nat { if now < mtime then 0 else (now - mtime) / 1000 }

  predicate Holding(stage: Stage) { !stage.PutBack? && !stage.StampDest? && !stage.Unlock? }

  /** The claim a program counter owns: from the exclusive rename into `cur/`
      until the rename out of it. */
  function OwnedName(pc: Pc): Option<string> {
    match pc
    case PostDone(n, _) => Some(n)
    case PostError(n, _) => Some(n)
    case Revert(n, _) => Some(n)
    case SynStamp(n, _) => Some(n)
    case Claimed(n, _) => Some(n)
    case Working(n, _, _) => Some(n)
    case Finalizing(n, _, _, stage, _) => if Holding(stage) then Some(n) else None
    case _ => None
  }

  predicate Owns(s: State, a: nat, n: string) { a in s.pcs && OwnedName(s.pcs[a]) == Some(n) }

  predicate HoldsLock(pc: Pc) {
    (pc.Finalizing? && !pc.stage.WantLock?) || pc.PruneCheck? || pc.PruneUnlink? || pc.PruneUnlock?
  }

  /** The GC task: it runs its expiry, reap and prune passes one after another. */
  predicate IsGc(pc: Pc) {
    (pc.Finalizing? && pc.byGc) || pc.Scanning? || pc.PruneLock? || pc.PruneCheck? || pc.PruneUnlink? || pc.PruneUnlock?
  }

  predicate GcIdle(s: State) { forall b :: b in s.pcs ==> !IsGc(s.pcs[b]) }

  predicate Orphaned(s: State, n: string) { forall b :: b in s.pcs ==> OwnedName(s.pcs[b]) != Some(n) }

  /** A `try_claim` that renamed into `cur/` and has not yet returned its claim. */
  predicate Tentative(pc: Pc, n: string) {
    (pc.PostDone? || pc.PostError? || pc.Revert?) && pc.name == n
  }

  /** Files that carry a spool record which has entered `cur/`. */
  predicate Body(p: Path) { p.Cur? || (p.Archive? && !p.file.Sidecar?) }

  // ---- filesystem calls -------------------------------------------------

  function Rename(fs: Tree, from: Path, to: Path): Tree
    requires from in fs
  {
    (fs - {from})[to := fs[from]]
  }

  function Unlink(d: Disk, p: Path): Disk {
    if p !in d.fs then d
    else Disk(d.fs - {p}, d.nextId, if Body(p) then d.kept - {d.fs[p].id} else d.kept)
  }

  /** `stamp_mtime_now`; a missing file is a no-op. */
  function Touch(d: Disk, p: Path, now: nat): Disk {
    if p in d.fs then d.(fs := d.fs[p := d.fs[p].(mtime := now, settled := true)]) else d
  }

  /** Rename `cur/<n>` onto its marker; the completion stamp is still owed. */
  function InstallAt(d: Disk, n: string, dest: Path, now: nat): Disk
    requires Cur(n) in d.fs
  {
    d.(fs := (d.fs - {Cur(n)})[dest := d.fs[Cur(n)].(installed := now, settled := false)])
  }

  /** The exclusive rename of a claim into a free `cur/` slot. */
  function EnterCur(d: Disk, n: string): Disk
    requires New(n) in d.fs
  {
    Disk(Rename(d.fs, New(n), Cur(n)), d.nextId, d.kept + {d.fs[New(n)].id})
  }

  /** A reconciler record, staged earlier at `mtime`, renamed into `cur/`. */
  function EnterSynthetic(d: Disk, n: string, mtime: nat): Disk {
    Disk(d.fs[Cur(n) := Rec(d.nextId, mtime, 0, true)], d.nextId + 1, d.kept + {d.nextId})
  }

  // ---- the steps of each call -------------------------------------------

  function Goto(d: Disk, pc: Pc): Effect { Effect(d, Keep, Some(pc)) }

  function Return(d: Disk): Effect { Effect(d, Keep, None) }

  predicate IsClaimPc(pc: Pc) {
    pc.PreDone? || pc.PreError? || pc.DropNew? || pc.Stamp? || pc.Take? || pc.PostDone? || pc.PostError? || pc.Revert?
  }

  /** `try_claim`; it returns its claim by becoming `Claimed`. */
  function ClaimStep(d: Disk, now: nat, pc: Pc): Effect
    requires IsClaimPc(pc)
  {
    match pc
    case PreDone(n) => Goto(d, if DoneMarker(n) in d.fs then DropNew(n) else PreError(n))
    case PreError(n) => Goto(d, if ErrorMarker(n) in d.fs then DropNew(n) else Stamp(n))
    case DropNew(n) => Return(Unlink(d, New(n)))
    case Stamp(n) => Goto(Touch(d, New(n), now), Pc.Take(n, now))
    case Take(n, since) =>
      if New(n) !in d.fs then Return(d)
      else if Cur(n) in d.fs then Goto(d, DropNew(n))
      else Goto(EnterCur(d, n), PostDone(n, since))
    case PostDone(n, since) => Goto(d, if DoneMarker(n) in d.fs then Revert(n, since) else PostError(n, since))
    case PostError(n, since) => Goto(d, if ErrorMarker(n) in d.fs then Revert(n, since) else Claimed(n, since))
    case Revert(n, _) => Return(Unlink(d, Cur(n)))
  }

  predicate IsSyntheticPc(pc: Pc) { pc.SynCheck? || pc.SynTake? || pc.SynStamp? }

  /** `write_synthetic_claim`; its claim goes straight to a worker. */
  function SyntheticStep(d: Disk, now: nat, pc: Pc): Effect
    requires IsSyntheticPc(pc)
  {
    match pc
    case SynCheck(n) => if Cur(n) in d.fs then Return(d) else Goto(d, SynTake(n, now))
    case SynTake(n, since) =>
      if Cur(n) in d.fs then Return(d) else Goto(EnterSynthetic(d, n, since), SynStamp(n, since))
    case SynStamp(n, since) => Goto(Touch(d, Cur(n), now), Working(n, since, Minting))
  }

  /** `finalize_done`/`finalize_error` with `archive` and `preserve_existing` inlined. */
  function FinalizeStep(d: Disk, now: nat, pc: Pc): Effect
    requires pc.Finalizing?
  {
    var n := pc.name;
    var dest := Archive(pc.dir, Marker(n));
    match pc.stage
    case WantLock => Effect(d, LockOp.Take, Some(pc.(stage := if pc.dir.ErrorDir? then WriteErr else Install)))
    case WriteErr =>
      Goto(d.(fs := d.fs[Archive(ErrorDir, Sidecar(n)) := Rec(0, now, now, true)]), pc.(stage := Install))
    case Install =>
      if Cur(n) !in d.fs then Goto(d, pc.(stage := Unlock))
      else if dest in d.fs then Goto(d, pc.(stage := Probe))
      else Goto(InstallAt(d, n, dest, now), pc.(stage := StampDest))
    case Probe => Goto(d, pc.(stage := if dest in d.fs then SetAside else Overwrite(None)))
    case SetAside =>
      if dest in d.fs then
        Goto(d.(fs := Rename(d.fs, dest, Archive(pc.dir, Bak(n, now)))), pc.(stage := Overwrite(Some(now))))
      else Goto(d, pc.(stage := Overwrite(None)))
    case Overwrite(bak) =>
      if Cur(n) in d.fs then Goto(InstallAt(d, n, dest, now), pc.(stage := StampDest))
      else Goto(d, pc.(stage := if bak.Some? then PutBack(bak.value) else Unlock))
    case PutBack(millis) =>
      var from := Archive(pc.dir, Bak(n, millis));
      Goto(if from in d.fs then d.(fs := Rename(d.fs, from, dest)) else d, pc.(stage := Unlock))
    case StampDest => Goto(Touch(d, dest, now), pc.(stage := Unlock))
    case Unlock => Effect(d, Release, None)
  }

  predicate IsPrunePc(pc: Pc) { pc.PruneLock? || pc.PruneCheck? || pc.PruneUnlink? || pc.PruneUnlock? }

  /** One entry the scan judged expired: re-check under the lock, then unlink. */
  function PruneStep(d: Disk, retentionSecs: nat, pc: Pc): Effect
    requires IsPrunePc(pc)
  {
    match pc
    case PruneLock(t, p) => Effect(d, LockOp.Take, Some(PruneCheck(t, p)))
    case PruneCheck(t, p) =>
      Goto(d, if p in d.fs && AgeSecs(t, d.fs[p].mtime) > retentionSecs then PruneUnlink(t, p) else PruneUnlock(t))
    case PruneUnlink(t, p) => Goto(Unlink(d, p), PruneUnlock(t))
    case PruneUnlock(t) => Effect(d, Release, Some(Scanning(t)))
  }

  predicate IsStepPc(pc: Pc) { pc.Finalizing? || IsClaimPc(pc) || IsSyntheticPc(pc) || IsPrunePc(pc) }

  function Step(cfg: Config, d: Disk, now: nat, pc: Pc): Effect
    requires IsStepPc(pc)
  {
    if pc.Finalizing? then FinalizeStep(d, now, pc)
    else if IsClaimPc(pc) then ClaimStep(d, now, pc)
    else if IsSyntheticPc(pc) then SyntheticStep(d, now, pc)
    else PruneStep(d, cfg.retentionSecs, pc)
  }

  predicate AwaitsLock(pc: Pc) { pc.PruneLock? || (pc.Finalizing? && pc.stage.WantLock?) }

  function Resume(s: State, a: nat, e: Effect): State {
    s.(disk := e.disk,
       lock := match e.lock case Keep => s.lock case Take => Some(a) case Release => None,
       pcs := if e.next.Some? then s.pcs[a := e.next.value] else s.pcs - {a})
  }

  function FinalizePc(n: string, since: nat, dir: Dir): Pc { Finalizing(n, since, dir, WantLock, false) }

  /** `run_job`: a failed mint ends the job at once; after a mint the VM is torn
      down on every path, and only then is the claim finalized. */
  function WorkStep(n: string, since: nat, phase: Phase, ok: bool): Pc {
    match phase
    case Minting => if ok then Working(n, since, DrivingVm) else FinalizePc(n, since, ErrorDir)
    case DrivingVm => Working(n, since, Capturing(ok))
    case Capturing(b) => Working(n, since, TearingDown(b))
    case TearingDown(b) => if b then Working(n, since, Checking) else FinalizePc(n, since, ErrorDir)
    case Checking => FinalizePc(n, since, DoneDir)
  }

  function PreparePc(n: string, since: nat, v: Verdict): Pc {
    match v
    case Run => Working(n, since, Minting)
    case Drop => FinalizePc(n, since, DoneDir)
    case Reject => FinalizePc(n, since, ErrorDir)
  }

  // ---- the transition relation ------------------------------------------

  predicate Enabled(s: State, l: Label) {
    match l
    case Arrive(_) => true
    case Wait(_) => true
    case BeginClaim(a, _) => a !in s.pcs
    case BeginSynthetic(a, _) => a !in s.pcs
    case Prepare(a, v) => a in s.pcs && s.pcs[a].Claimed? && (v.Reject? || IsCanonical(s.pcs[a].name))
    case Work(a, _) => a in s.pcs && s.pcs[a].Working?
    case Panic(a) => a in s.pcs && s.pcs[a].Working?
    case Expire(a, n) =>
      && a !in s.pcs && GcIdle(s)
      && Cur(n) in s.disk.fs && AgeSecs(s.now, s.disk.fs[Cur(n)].mtime) > s.cfg.maxAgeSecs
    case ReapOrphan(a, n) => a !in s.pcs && GcIdle(s) && Cur(n) in s.disk.fs
    case BeginPrune(a) => a !in s.pcs && GcIdle(s) && s.cfg.retentionSecs > 0
    case Examine(a, p) =>
      && a in s.pcs && s.pcs[a].Scanning? && p in s.disk.fs && p.Archive?
      && AgeSecs(s.pcs[a].started, s.disk.fs[p].mtime) > s.cfg.retentionSecs
    case EndPrune(a) => a in s.pcs && s.pcs[a].Scanning?
    case Act(a) => a in s.pcs && IsStepPc(s.pcs[a]) && (AwaitsLock(s.pcs[a]) ==> s.lock.None?)
    case Crash => true
  }

  function Apply(s: State, l: Label): State
    requires Enabled(s, l)
  {
    match l
    case Arrive(n) =>
      s.(disk := s.disk.(fs := s.disk.fs[New(n) := Rec(s.disk.nextId, s.now, 0, true)], nextId := s.disk.nextId + 1))
    case Wait(d) => s.(now := s.now + d)
    case BeginClaim(a, n) => s.(pcs := s.pcs[a := PreDone(n)])
    case BeginSynthetic(a, job) => s.(pcs := s.pcs[a := SynCheck(CanonicalFilename(job))])
    case Prepare(a, v) => s.(pcs := s.pcs[a := PreparePc(s.pcs[a].name, s.pcs[a].since, v)])
    case Work(a, ok) => s.(pcs := s.pcs[a := WorkStep(s.pcs[a].name, s.pcs[a].since, s.pcs[a].phase, ok)])
    case Panic(a) => s.(pcs := s.pcs - {a})
    case Expire(a, n) => s.(pcs := s.pcs[a := Finalizing(n, s.now, ErrorDir, WantLock, true)])
    case ReapOrphan(a, n) => s.(pcs := s.pcs[a := Finalizing(n, s.now, ErrorDir, WantLock, true)])
    case BeginPrune(a) => s.(pcs := s.pcs[a := Scanning(s.now)])
    case Examine(a, p) => s.(pcs := s.pcs[a := PruneLock(s.pcs[a].started, p)])
    case EndPrune(a) => s.(pcs := s.pcs - {a})
    case Act(a) => Resume(s, a, Step(s.cfg, s.disk, s.now, s.pcs[a]))
    case Crash => s.(pcs := map[], lock := None, crashed := true)
  }
}
