/** Runs of the spool protocol that show what the theorems cannot promise, and that
    their hypotheses are met and needed. Each exists for every id. */
module SpoolWitness {
  import opened Names
  import opened SpoolModel
  import opened SpoolArchive
  import opened SpoolMarkers
  import opened SpoolRecords
  import opened SpoolInvariant
  import opened SpoolTheorems
  import opened ImageIdentity

  // ---- building a run ---------------------------------------------------

  /** No crash and no step of a prune. */
  predicate Uneventful(s: State, l: Label) {
    !l.Crash? && (l.Act? && l.actor in s.pcs ==> !s.pcs[l.actor].PruneUnlink?)
  }

  predicate TakesOver(l: Label) { l.Expire? || l.ReapOrphan? }

  /** A step of the runs below; `fair` ones take over orphaned claims only. */
  ghost predicate Plain(s: State, l: Label, fair: bool) {
    Uneventful(s, l) && (fair && TakesOver(l) ==> Orphaned(s, l.name))
  }

  ghost predicate PlainRun(t: Trace, fair: bool) {
    Conserving(t) && forall k :: 0 <= k < |t.labels| ==> Plain(t.states[k], t.labels[k], fair)
  }

  function Last(t: Trace): State
    requires |t.states| == |t.labels| + 1
  {
    t.states[|t.labels|]
  }

  ghost predicate Reached(s: State, fair: bool) { exists t :: PlainRun(t, fair) && Last(t) == s }

  lemma Starts(s: State, fair: bool)
    requires Init(s) && RecordInv(s.disk)
    ensures Reached(s, fair)
  {
    assert PlainRun(Trace([s], []), fair);
  }

  function Longer(t: Trace, l: Label): Trace
    requires |t.states| == |t.labels| + 1 && Enabled(Last(t), l)
  {
    Trace(t.states + [Apply(Last(t), l)], t.labels + [l])
  }

  lemma LongerPlain(t: Trace, l: Label, fair: bool)
    requires PlainRun(t, fair) && Enabled(Last(t), l) && FreshBak(Last(t), l) && Plain(Last(t), l, fair)
    ensures PlainRun(Longer(t, l), fair) && Last(Longer(t, l)) == Apply(Last(t), l)
  {
    var t' := Longer(t, l);
    forall k | 0 <= k < |t'.labels| ensures Plain(t'.states[k], t'.labels[k], fair) {
      if k < |t.labels| { assert Plain(t.states[k], t.labels[k], fair); }
    }
  }

  lemma Next(s: State, l: Label, fair: bool) returns (s': State)
    requires Reached(s, fair) && Enabled(s, l) && FreshBak(s, l) && Plain(s, l, fair)
    ensures s' == Apply(s, l) && Reached(s', fair)
  {
    s' := Apply(s, l);
    var t :| PlainRun(t, fair) && Last(t) == s;
    LongerPlain(t, l, fair);
  }

  /** One `try_claim`, call 0, and the sweep, call 1. */
  ghost predicate Scene(s: State, fair: bool, now: nat, lock: Option<nat>, pcs: map<nat, Pc>) {
    Reached(s, fair) && s.cfg == Config(0, 0) && s.now == now && s.lock == lock && s.pcs == pcs
  }

  const CONFIG: Config := Config(0, 0)

  /** The lock after a step of call `a`. */
  function LockAfter(lock: Option<nat>, a: nat, op: LockOp): Option<nat> {
    match op case Keep => lock case Take => Some(a) case Release => None
  }

  /** The next step of call `a`, which is at `pc` while the others are at `pcs`. */
  lemma CallNext(s: State, fair: bool, pcs: map<nat, Pc>, a: nat, pc: Pc) returns (s': State)
    requires Scene(s, fair, s.now, s.lock, pcs[a := pc]) && a !in pcs
    requires IsStepPc(pc) && !IsPrunePc(pc) && (AwaitsLock(pc) ==> s.lock == None) && BakFree(s.disk.fs, s.now, pc)
    ensures var e := Step(CONFIG, s.disk, s.now, pc);
            && s'.disk == e.disk
            && Scene(s', fair, s.now, LockAfter(s.lock, a, e.lock),
                     if e.next.Some? then pcs[a := e.next.value] else pcs)
  {
    s' := Next(s, Act(a), fair);
    assert pcs[a := pc] - {a} == pcs;
    assert a in s'.pcs ==> pcs[a := pc][a := s'.pcs[a]] == pcs[a := s'.pcs[a]];
  }

  /** A state with its call 1 between set-aside and install was reached from an
      archived one, and nothing else befell the marker meanwhile. */
  lemma ArchivedBefore(s: State, fair: bool) returns (t: Trace, i: nat)
    requires Reached(s, fair) && 1 in s.pcs && Vacating(s.pcs[1])
    ensures PlainRun(t, fair) && Last(t) == s && i < |t.labels|
    ensures Archived(t.states[i].disk.fs, s.pcs[1].name)
  {
    t :| PlainRun(t, fair) && Last(t) == s;
    i := SetAsideBefore(t, |t.labels|, 1);
    assert s.pcs[1].dir.DoneDir? || s.pcs[1].dir.ErrorDir?;
  }

  function Expiring(n: string, now: nat, stage: Stage): Pc { Finalizing(n, now, ErrorDir, stage, true) }

  /** A `try_claim` starts, and finds no marker. */
  lemma PassesChecks(s: State, others: map<nat, Pc>, n: string) returns (s': State)
    requires Scene(s, false, s.now, s.lock, others) && 0 !in others && !Archived(s.disk.fs, n)
    ensures Scene(s', false, s.now, s.lock, others[0 := Pc.Stamp(n)]) && s'.disk == s.disk
  {
    s' := Next(s, BeginClaim(0, n), false);
    s' := CallNext(s', false, others, 0, PreDone(n));
    s' := CallNext(s', false, others, 0, PreError(n));
  }

  /** And takes the free slot. */
  lemma TakesSlot(s: State, others: map<nat, Pc>, n: string) returns (s': State)
    requires Scene(s, false, s.now, s.lock, others[0 := Pc.Stamp(n)]) && 0 !in others
    requires New(n) in s.disk.fs && Cur(n) !in s.disk.fs
    ensures Scene(s', false, s.now, s.lock, others[0 := PostDone(n, s.now)])
    ensures Cur(n) in s'.disk.fs && s'.disk.fs[Cur(n)].mtime == s.now && SameArchive(s.disk.fs, s'.disk.fs)
  {
    s' := CallNext(s, false, others, 0, Pc.Stamp(n));
    s' := CallNext(s', false, others, 0, Pc.Take(n, s.now));
  }

  /** The sweep expires `cur/<n>`, up to the rename into `error/`. */
  lemma ExpiresClaim(s: State, fair: bool, n: string, claim: Pc) returns (s': State)
    requires Scene(s, fair, s.now, None, map[0 := claim]) && !IsGc(claim) && (fair ==> !OwnsName(claim, n))
    requires Cur(n) in s.disk.fs && AgeSecs(s.now, s.disk.fs[Cur(n)].mtime) > 0
    ensures Scene(s', fair, s.now, Some(1), map[0 := claim][1 := Expiring(n, s.now, Install)])
    ensures s'.disk.fs == s.disk.fs[Archive(ErrorDir, Sidecar(n)) := Rec(0, s.now, s.now, true)]
  {
    s' := Next(s, Expire(1, n), fair);
    s' := CallNext(s', fair, map[0 := claim], 1, Expiring(n, s.now, WantLock));
    s' := CallNext(s', fair, map[0 := claim], 1, Expiring(n, s.now, WriteErr));
  }

  /** And on to its end, when there is no marker yet. */
  lemma EndsExpiry(s: State, fair: bool, n: string, claim: Pc) returns (s': State)
    requires Scene(s, fair, s.now, Some(1), map[0 := claim][1 := Expiring(n, s.now, Install)])
    requires Cur(n) in s.disk.fs && ErrorMarker(n) !in s.disk.fs
    ensures Scene(s', fair, s.now, None, map[0 := claim])
    ensures s'.disk == Touch(InstallAt(s.disk, n, ErrorMarker(n), s.now), ErrorMarker(n), s.now)
  {
    s' := CallNext(s, fair, map[0 := claim], 1, Expiring(n, s.now, Install));
    s' := CallNext(s', fair, map[0 := claim], 1, Expiring(n, s.now, StampDest));
    s' := CallNext(s', fair, map[0 := claim], 1, Expiring(n, s.now, Unlock));
  }

  lemma FindsMarker(s: State, fair: bool, n: string, claim: Pc) returns (s': State)
    requires Scene(s, fair, s.now, Some(1), map[0 := claim][1 := Expiring(n, s.now, Install)])
    requires Cur(n) in s.disk.fs && ErrorMarker(n) in s.disk.fs
    ensures Scene(s', fair, s.now, Some(1), map[0 := claim][1 := Expiring(n, s.now, SetAside)]) && s'.disk == s.disk
  {
    s' := CallNext(s, fair, map[0 := claim], 1, Expiring(n, s.now, Install));
    s' := CallNext(s', fair, map[0 := claim], 1, Expiring(n, s.now, Probe));
  }

  /** Or on to the rename onto the marker, when there is one to set aside. */
  lemma SetsMarkerAside(s: State, fair: bool, n: string, claim: Pc) returns (s': State)
    requires Scene(s, fair, s.now, Some(1), map[0 := claim][1 := Expiring(n, s.now, Install)])
    requires Cur(n) in s.disk.fs && ErrorMarker(n) in s.disk.fs && Archive(ErrorDir, Bak(n, s.now)) !in s.disk.fs
    ensures Scene(s', fair, s.now, Some(1), map[0 := claim][1 := Expiring(n, s.now, Overwrite(Some(s.now)))])
    ensures s'.disk.fs == Rename(s.disk.fs, ErrorMarker(n), Archive(ErrorDir, Bak(n, s.now)))
  {
    s' := FindsMarker(s, fair, n, claim);
    s' := CallNext(s', fair, map[0 := claim], 1, Expiring(n, s.now, SetAside));
  }

  /** `error/` holds one marker of the id, and no `.bak`. */
  ghost predicate OneMarker(fs: Tree, n: string) {
    ErrorMarker(n) in fs && DoneMarker(n) !in fs && forall m :: Archive(ErrorDir, Bak(n, m)) !in fs
  }

  // ---- the gap does open ------------------------------------------------

  function DuplicateState(n: string): State {
    var fs: Tree := map[Cur(n) := Rec(0, 0, 0, true), ErrorMarker(n) := Rec(1, 0, 0, true)];
    State(CONFIG, Disk(fs, 2, {0, 1}), 1000, None, map[], false)
  }

  lemma DuplicateStarts(n: string)
    ensures Reached(DuplicateState(n), true)
  {
    var fs := DuplicateState(n).disk.fs;
    assert Holds(fs, Cur(n), 0) && Holds(fs, ErrorMarker(n), 1);
    Starts(DuplicateState(n), true);
  }

  /** An archived id with an old claim of the same id in `cur/`. */
  lemma Duplicate(n: string) returns (s: State)
    ensures Scene(s, true, 1000, None, map[0 := PreDone(n)])
    ensures Cur(n) in s.disk.fs && s.disk.fs[Cur(n)].mtime == 0 && OneMarker(s.disk.fs, n)
  {
    s := DuplicateState(n);
    DuplicateStarts(n);
    s := Next(s, BeginClaim(0, n), true);
  }

  /** For every id, a run that meets every hypothesis and leaves the archived id
      without a marker. */
  lemma MarkerAbsentInGap(n: string) returns (t: Trace, i: nat)
    ensures Conserving(t) && Spared(t, n, |t.labels|) && i < |t.labels| && Archived(t.states[i].disk.fs, n)
    ensures forall k :: i <= k < |t.labels| ==> Minds(t.states[k], t.labels[k], n)
    ensures !Archived(Last(t).disk.fs, n)
  {
    var s := Duplicate(n);
    s := ExpiresClaim(s, true, n, PreDone(n));
    s := SetsMarkerAside(s, true, n, PreDone(n));
    t, i := ArchivedBefore(s, true);
  }

  // ---- a claim does vanish ----------------------------------------------

  /** A job in `new/` and an old claim of the same id left in `cur/`. */
  lemma LeftOver(n: string) returns (s: State)
    ensures Scene(s, false, 1000, None, map[])
    ensures s.disk.fs == map[New(n) := Rec(0, 0, 0, true), Cur(n) := Rec(1, 0, 0, true)]
  {
    var fs: Tree := map[New(n) := Rec(0, 0, 0, true), Cur(n) := Rec(1, 0, 0, true)];
    assert Holds(fs, Cur(n), 1);
    s := State(CONFIG, Disk(fs, 2, {1}), 1000, None, map[], false);
    Starts(s, false);
  }

  /** A `try_claim` has found no marker; then the sweep expires the old claim. */
  lemma MarksOld(n: string) returns (s: State)
    ensures Scene(s, false, 1000, None, map[0 := Pc.Stamp(n)])
    ensures OneMarker(s.disk.fs, n) && Cur(n) !in s.disk.fs && New(n) in s.disk.fs
  {
    s := LeftOver(n);
    s := PassesChecks(s, map[], n);
    s := ExpiresClaim(s, false, n, Pc.Stamp(n));
    s := EndsExpiry(s, false, n, Pc.Stamp(n));
  }

  /** The `try_claim` takes the free slot, sees the marker, and is slow to revert. */
  lemma SlowToRevert(n: string) returns (s: State)
    ensures Scene(s, false, 2000, None, map[0 := Revert(n, 1000)])
    ensures OneMarker(s.disk.fs, n) && Cur(n) in s.disk.fs && s.disk.fs[Cur(n)].mtime == 1000
  {
    s := MarksOld(n);
    s := TakesSlot(s, map[], n);
    s := CallNext(s, false, map[], 0, PostDone(n, 1000));
    s := CallNext(s, false, map[], 0, PostError(n, 1000));
    s := Next(s, Wait(1000), false);
  }

  /** So the sweep expires the tentative claim too, and sets the marker aside. */
  lemma ExpiresTentative(n: string) returns (s: State)
    ensures Scene(s, false, 2000, Some(1), map[0 := Revert(n, 1000)][1 := Expiring(n, 2000, Overwrite(Some(2000)))])
    ensures !Archived(s.disk.fs, n)
  {
    s := SlowToRevert(n);
    s := ExpiresClaim(s, false, n, Revert(n, 1000));
    s := SetsMarkerAside(s, false, n, Revert(n, 1000));
  }

  /** Just then the `try_claim` reverts, and the sweep finds no claim to install. */
  lemma FindsNoClaim(n: string) returns (s: State)
    ensures Scene(s, false, 2000, Some(1), map[1 := Expiring(n, 2000, PutBack(2000))]) && !InSpool(s.disk.fs, n)
  {
    s := ExpiresTentative(n);
    var sweep := map[1 := Expiring(n, 2000, Overwrite(Some(2000)))];
    assert s.pcs == sweep[0 := Revert(n, 1000)];
    s := CallNext(s, false, sweep, 0, Revert(n, 1000));
    assert s.pcs == map[][1 := Expiring(n, 2000, Overwrite(Some(2000)))];
    s := CallNext(s, false, map[], 1, Expiring(n, 2000, Overwrite(Some(2000))));
  }

  /** For every id there is a conserving run in which the claim vanishes between
      the set-aside and the install, so that the finalize has to put the marker
      back; until it does, the archived and unpruned id is nowhere in the spool. */
  lemma ClaimVanishes(n: string) returns (t: Trace, i: nat)
    ensures Conserving(t) && i < |t.labels| && Archived(t.states[i].disk.fs, n)
    ensures forall k :: i <= k < |t.labels| ==> Minds(t.states[k], t.labels[k], n)
    ensures !InSpool(Last(t).disk.fs, n)
    ensures 1 in Last(t).pcs && Last(t).pcs[1] == Expiring(n, 2000, PutBack(2000))
  {
    var s := FindsNoClaim(n);
    t, i := ArchivedBefore(s, false);
  }

  // ---- and a replay gets through ----------------------------------------

  /** A second delivery of the job passes both checks before the rename. */
  lemma ReplayPassesChecks(n: string) returns (s: State)
    ensures Scene(s, false, 2000, Some(1), map[1 := Expiring(n, 2000, PutBack(2000))][0 := Pc.Stamp(n)])
    ensures !InSpool(s.disk.fs, n) && New(n) in s.disk.fs
  {
    s := FindsNoClaim(n);
    s := Next(s, Arrive(n), false);
    s := PassesChecks(s, map[1 := Expiring(n, 2000, PutBack(2000))], n);
  }

  /** And, once it has the slot, the first of the two checks after it. */
  lemma ReplayTakesSlot(n: string) returns (s: State)
    ensures Scene(s, false, 2000, Some(1), map[1 := Expiring(n, 2000, PutBack(2000))][0 := PostError(n, 2000)])
    ensures ErrorMarker(n) !in s.disk.fs
  {
    var sweep := map[1 := Expiring(n, 2000, PutBack(2000))];
    s := ReplayPassesChecks(n);
    s := TakesSlot(s, sweep, n);
    s := CallNext(s, false, sweep, 0, PostDone(n, 2000));
  }

  /** Why replay rejection needs its hypothesis: for every id, a conserving run in
      which the sweep has expired a tentative claim of it, and a `try_claim` returns
      a claim although the id is archived and its marker was never pruned. */
  lemma ReplayGetsThrough(n: string) returns (t: Trace, i: nat, l: Label)
    ensures Conserving(t) && i < |t.labels| && Archived(t.states[i].disk.fs, n)
    ensures forall k :: i <= k < |t.labels| ==> Minds(t.states[k], t.labels[k], n)
    ensures ReturnsClaim(Last(t), l, n)
  {
    var s := ReplayTakesSlot(n);
    t, i := ArchivedBefore(s, false);
    l := Act(0);
  }

  // ---- and a second worker drives the same VM ---------------------------

  lemma Synthesizes(s: State, a: nat, pcs: map<nat, Pc>, n: string) returns (s': State)
    requires Scene(s, false, 0, None, pcs[a := SynTake(n, 0)]) && a !in pcs && Cur(n) !in s.disk.fs
    ensures Scene(s', false, 0, None, pcs[a := Working(n, 0, Minting)])
    ensures Cur(n) in s'.disk.fs && SameArchive(s.disk.fs, s'.disk.fs)
  {
    s' := CallNext(s, false, pcs, a, SynTake(n, 0));
    s' := CallNext(s', false, pcs, a, SynStamp(n, 0));
  }

  lemma MintsRunner(s: State, a: nat, pcs: map<nat, Pc>, n: string) returns (s': State)
    requires Scene(s, false, 0, None, pcs[a := Working(n, 0, Minting)])
    ensures Scene(s', false, 0, None, pcs[a := Working(n, 0, DrivingVm)]) && s'.disk == s.disk
  {
    s' := Next(s, Work(a, true), false);
    assert pcs[a := Working(n, 0, Minting)][a := Working(n, 0, DrivingVm)] == pcs[a := Working(n, 0, DrivingVm)];
  }

  /** A worker claims a job and starts to drive its VM. */
  lemma StartsWorker(s: State, a: nat, pcs: map<nat, Pc>, job: U64, n: string) returns (s': State)
    requires Scene(s, false, 0, None, pcs) && a !in pcs && Cur(n) !in s.disk.fs && n == CanonicalFilename(job)
    ensures Scene(s', false, 0, None, pcs[a := Working(n, 0, DrivingVm)])
    ensures Cur(n) in s'.disk.fs && SameArchive(s.disk.fs, s'.disk.fs)
  {
    s' := Next(s, BeginSynthetic(a, job), false);
    s' := CallNext(s', false, pcs, a, SynCheck(n));
    s' := Synthesizes(s', a, pcs, n);
    s' := MintsRunner(s', a, pcs, n);
  }

  /** The sweep begins to finalize the claim of that worker to `error/`. */
  lemma BeginsReap(s: State, n: string) returns (s': State)
    requires Scene(s, false, 0, None, map[0 := Working(n, 0, DrivingVm)]) && Cur(n) in s.disk.fs
    ensures Scene(s', false, 0, Some(1), map[0 := Working(n, 0, DrivingVm)][1 := Expiring(n, 0, Install)])
    ensures s'.disk.fs == s.disk.fs[Archive(ErrorDir, Sidecar(n)) := Rec(0, 0, 0, true)]
  {
    s' := Next(s, ReapOrphan(1, n), false);
    s' := CallNext(s', false, map[0 := Working(n, 0, DrivingVm)], 1, Expiring(n, 0, WantLock));
    s' := CallNext(s', false, map[0 := Working(n, 0, DrivingVm)], 1, Expiring(n, 0, WriteErr));
  }

  lemma ReapsWorker(job: U64, n: string) returns (s: State)
    requires n == CanonicalFilename(job)
    ensures Scene(s, false, 0, None, map[0 := Working(n, 0, DrivingVm)]) && Cur(n) !in s.disk.fs
  {
    s := State(CONFIG, Disk(map[], 0, {}), 0, None, map[], false);
    Starts(s, false);
    s := StartsWorker(s, 0, map[], job, n);
    s := BeginsReap(s, n);
    s := EndsExpiry(s, false, n, Working(n, 0, DrivingVm));
  }

  /** Why one worker per VM needs the hypothesis of its reaps: a VM of an old image
      bears the name of a job that a worker drives; `plan_vm_reaps` takes the
      worker's claim for the claim of that VM; and after the sweep has finalized it,
      the reconciler claims the job again and a second worker drives the same VM. */
  lemma StaleVmGivesTwoWorkers(job: U64, n: string, stale: Image, current: Image) returns (s: State)
    requires n == CanonicalFilename(job) && stale.location != current.location
    ensures var vm := VmName(job);
            Reaps(ManagedVm(vm, Some(stale)), map[vm := n], Some(current), StaleImage(vm, n, stale.location))
    ensures Reached(s, false)
    ensures s.pcs == map[0 := Working(n, 0, DrivingVm), 2 := Working(n, 0, DrivingVm)]
  {
    s := ReapsWorker(job, n);
    s := StartsWorker(s, 2, map[0 := Working(n, 0, DrivingVm)], job, n);
  }
}
