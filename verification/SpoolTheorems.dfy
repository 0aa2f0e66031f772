/** What the ownership of a claim guarantees over whole runs: replay rejection, a
    claim in `cur/` whenever the marker is absent, one worker per job, and teardown
    before the slot is free. Each result needs the sweep to spare the owned claims
    of this one id, and so far only. */
module SpoolTheorems {
  import opened Names
  import opened SpoolModel
  import opened SpoolArchive
  import opened SpoolMarkers
  import opened SpoolInvariant

  // ---- replay rejection -------------------------------------------------

  /** `n` is archived, or sits in `cur/` under something other than a
      `try_claim` that may still revert it. */
  ghost predicate Sealed(s: State, n: string) {
    Archived(s.disk.fs, n) || (Cur(n) in s.disk.fs && forall b :: b in s.pcs ==> !Tentative(s.pcs[b], n))
  }

  /** A step by which a `try_claim` returns `cur/<n>` to its caller, whatever the
      call has checked before. */
  predicate ReturnsClaim(s: State, l: Label, n: string) {
    l.Act? && Enabled(s, l) &&
    var next := Step(s.cfg, s.disk, s.now, s.pcs[l.actor]).next;
    next.Some? && next.value.Claimed? && next.value.name == n
  }

  /** Only the last check lets a claim through, and it found no `error/` marker. */
  lemma ClaimPassedLastCheck(s: State, l: Label, n: string)
    requires ReturnsClaim(s, l, n)
    ensures var pc := s.pcs[l.actor]; pc.PostError? && pc.name == n && ErrorMarker(n) !in s.disk.fs
  {}

  lemma SealedBlocksClaim(s: State, l: Label, n: string)
    requires Inv(s, n) && Sealed(s, n) && Enabled(s, l)
    ensures !ReturnsClaim(s, l, n)
  {
    if ReturnsClaim(s, l, n) {
      ClaimPassedLastCheck(s, l, n);
      assert CallInv(s.disk.fs, s.now, s.pcs[l.actor], n);
      assert Tentative(s.pcs[l.actor], n);
      assert false;
    }
  }

  /** What a single step of a call does to one name, seen on the disk. */
  ghost predicate Seals(d: Disk, e: Effect, pc: Pc, n: string) {
    && (Archived(d.fs, n) ==>
          Archived(e.disk.fs, n) || (OwnsName(pc, n) && pc.Finalizing? && Cur(n) in e.disk.fs))
    && (Cur(n) in d.fs && !Tentative(pc, n) ==> Cur(n) in e.disk.fs || Archived(e.disk.fs, n))
    && (e.next.Some? && Tentative(e.next.value, n) ==> Tentative(pc, n) || Cur(n) !in d.fs)
  }

  lemma FinalizeSeals(d: Disk, now: nat, r: nat, pc: Pc, n: string)
    requires pc.Finalizing? && SeenInv(d.fs, now, r, pc) && CallInv(d.fs, now, pc, n)
    ensures Seals(d, FinalizeStep(d, now, pc), pc, n)
  {
    assert pc.dir.DoneDir? || pc.dir.ErrorDir?;
  }

  lemma StepSealing(cfg: Config, d: Disk, now: nat, pc: Pc, n: string)
    requires IsStepPc(pc) && SeenInv(d.fs, now, cfg.retentionSecs, pc) && CallInv(d.fs, now, pc, n)
    requires !(pc.PruneUnlink? && pc.path in {DoneMarker(n), ErrorMarker(n)})
    ensures Seals(d, Step(cfg, d, now, pc), pc, n)
  {
    if pc.Finalizing? { FinalizeSeals(d, now, cfg.retentionSecs, pc, n); }
  }

  /** A finalize never turns into a tentative claim. */
  lemma StepNeverTentative(cfg: Config, d: Disk, now: nat, pc: Pc, n: string)
    requires pc.Finalizing?
    ensures var e := Step(cfg, d, now, pc); e.next.Some? ==> !Tentative(e.next.value, n)
  {}

  lemma ActKeepsSealed(s: State, a: nat, n: string)
    requires Inv(s, n) && Sealed(s, n) && Enabled(s, Act(a)) && !PrunesMarker(s, Act(a), n)
    ensures Sealed(Apply(s, Act(a)), n)
  {
    var s', pc := Apply(s, Act(a)), s.pcs[a];
    assert SeenInv(s.disk.fs, s.now, s.cfg.retentionSecs, pc) && CallInv(s.disk.fs, s.now, pc, n);
    StepSealing(s.cfg, s.disk, s.now, pc, n);
    if !Archived(s'.disk.fs, n) {
      if Archived(s.disk.fs, n) {
        forall b | b in s.pcs && b != a ensures !Tentative(s.pcs[b], n) {
          assert OwnsName(pc, n) && OwnedName(s.pcs[b]) != Some(n);
        }
        StepNeverTentative(s.cfg, s.disk, s.now, pc, n);
      } else {
        assert !Tentative(pc, n);
      }
    }
  }

  lemma JobKeepsSealed(s: State, l: Label, n: string)
    requires Sealed(s, n) && Enabled(s, l) && (l.Prepare? || l.Work?)
    ensures Sealed(Apply(s, l), n)
  {
    var pc := s.pcs[l.actor];
    if l.Prepare? { PreparedPc(pc.name, pc.since, l.verdict); } else { WorkedPc(pc.name, pc.since, pc.phase, l.ok); }
  }

  lemma OtherLabelKeepsSealed(s: State, l: Label, n: string)
    requires Sealed(s, n) && Enabled(s, l) && !l.Act? && !l.Prepare? && !l.Work?
    ensures Sealed(Apply(s, l), n)
  {
    var s' := Apply(s, l);
    assert Cur(n) in s'.disk.fs <==> Cur(n) in s.disk.fs;
    assert Archived(s'.disk.fs, n) <==> Archived(s.disk.fs, n);
  }

  lemma StepKeepsSealed(s: State, l: Label, n: string)
    requires Inv(s, n) && Sealed(s, n) && Enabled(s, l) && !PrunesMarker(s, l, n)
    ensures Sealed(Apply(s, l), n)
  {
    if l.Act? { ActKeepsSealed(s, l.actor, n); }
    else if l.Prepare? || l.Work? { JobKeepsSealed(s, l, n); }
    else { OtherLabelKeepsSealed(s, l, n); }
  }

  ghost predicate SealCarries(t: Trace, k: nat, n: string)
    requires k + 1 < |t.states|
  {
    Sealed(t.states[k], n) ==> Sealed(t.states[k + 1], n)
  }

  lemma TraceKeepsSealed(t: Trace, k: nat, n: string)
    requires IsTrace(t) && k < |t.labels| && Spared(t, n, k + 1) && !PrunesMarker(t.states[k], t.labels[k], n)
    ensures SealCarries(t, k, n)
  {
    ReachableStep(t, k, n);
    if Sealed(t.states[k], n) { StepKeepsSealed(t.states[k], t.labels[k], n); }
  }

  lemma {:induction false} SealChain(t: Trace, i: nat, j: nat, n: string)
    requires i <= j < |t.states| && Sealed(t.states[i], n)
    requires forall k :: i <= k < j ==> SealCarries(t, k, n)
    ensures Sealed(t.states[j], n)
  {
    if i < j {
      SealChain(t, i, j - 1, n);
      assert SealCarries(t, j - 1, n);
    }
  }

  lemma SealedPersists(t: Trace, i: nat, j: nat, n: string)
    requires IsTrace(t) && i <= j < |t.states| && Spared(t, n, j)
    requires Sealed(t.states[i], n)
    requires forall k :: i <= k < j ==> !PrunesMarker(t.states[k], t.labels[k], n)
    ensures Sealed(t.states[j], n)
  {
    forall k | i <= k < j ensures SealCarries(t, k, n) { TraceKeepsSealed(t, k, n); }
    SealChain(t, i, j, n);
  }

  /** Replay rejection over every interleaving: from the moment an id is
      archived until its marker is pruned, every state has it in `cur/`, `done/`
      or `error/`, and no `try_claim` returns a claim for it; unless the sweep has
      taken over an owned claim of this very id before. */
  lemma ReplayRejected(t: Trace, i: nat, j: nat, n: string)
    requires IsTrace(t) && i <= j < |t.labels| && Spared(t, n, j)
    requires Archived(t.states[i].disk.fs, n)
    requires forall k :: i <= k < j ==> !PrunesMarker(t.states[k], t.labels[k], n)
    ensures InSpool(t.states[j].disk.fs, n)
    ensures !ReturnsClaim(t.states[j], t.labels[j], n)
  {
    SealedPersists(t, i, j, n);
    ReachableInv(t, j, n);
    SealedBlocksClaim(t.states[j], t.labels[j], n);
  }

  lemma ClaimSeals(s: State, l: Label, n: string)
    requires Inv(s, n) && ReturnsClaim(s, l, n)
    ensures Sealed(Apply(s, l), n)
  {
    var s', a := Apply(s, l), l.actor;
    ClaimPassedLastCheck(s, l, n);
    assert CallInv(s.disk.fs, s.now, s.pcs[a], n) && OwnsName(s.pcs[a], n);
    forall b | b in s'.pcs ensures !Tentative(s'.pcs[b], n) {
      if b != a { assert OwnedName(s.pcs[b]) != Some(n); }
    }
  }

  /** Stronger still: between two prunes of an id, at most one `try_claim` ever
      returns a claim for it, whatever happened to the first one. */
  lemma AtMostOneWebhookClaim(t: Trace, i: nat, j: nat, n: string)
    requires IsTrace(t) && i < j < |t.labels| && Spared(t, n, j)
    requires ReturnsClaim(t.states[i], t.labels[i], n)
    requires forall k :: i <= k < j ==> !PrunesMarker(t.states[k], t.labels[k], n)
    ensures !ReturnsClaim(t.states[j], t.labels[j], n)
  {
    ReachableInv(t, i, n);
    ClaimSeals(t.states[i], t.labels[i], n);
    SealedPersists(t, i + 1, j, n);
    ReachableInv(t, j, n);
    SealedBlocksClaim(t.states[j], t.labels[j], n);
  }

  // ---- while the marker is absent ---------------------------------------

  /** A crash in the gap leaves the id without a marker, but with its claim in
      `cur/` and nobody left to revert it, so that it stays sealed. */
  lemma CrashLeavesClaim(s: State, a: nat, n: string)
    requires Inv(s, n) && Gap(s, a, n)
    ensures var s' := Apply(s, Crash);
            !Archived(s'.disk.fs, n) && Cur(n) in s'.disk.fs && s'.pcs == map[] && Sealed(s', n)
  {
    CrashInGap(s, a, n);
    assert CallInv(s.disk.fs, s.now, s.pcs[a], n);
    assert Apply(s, Crash) == s.(pcs := map[], lock := None, crashed := true);
  }

  /** So with crashes too: an archived id without a marker has its claim in `cur/`,
      under nothing that may still revert it. */
  lemma AbsentMarkerLeavesClaim(t: Trace, i: nat, j: nat, n: string)
    requires IsTrace(t) && i <= j < |t.states| && Spared(t, n, j) && Archived(t.states[i].disk.fs, n)
    requires forall k :: i <= k < j ==> !PrunesMarker(t.states[k], t.labels[k], n)
    requires !Archived(t.states[j].disk.fs, n)
    ensures Cur(n) in t.states[j].disk.fs
    ensures forall b :: b in t.states[j].pcs ==> !Tentative(t.states[j].pcs[b], n)
  {
    SealedPersists(t, i, j, n);
  }

  // ---- one worker per job -----------------------------------------------

  function JobOf(name: string): U64
    requires IsCanonical(name)
  {
    ParseSpoolFilename(name).value
  }

  /** A worker between its first and last `limactl` call for the job's VM. */
  predicate DrivesVm(pc: Pc) { pc.Working? && (pc.phase.DrivingVm? || pc.phase.Capturing? || pc.phase.TearingDown?) }

  /** In every state two live workers, from the webhook or the reconciler path,
      have different jobs and so different VMs. */
  lemma OneWorkerPerVm(t: Trace, i: nat, a: nat, b: nat)
    requires IsTrace(t) && At(t, i, a) && At(t, i, b) && a != b
    requires t.states[i].pcs[a].Working? && t.states[i].pcs[b].Working?
    requires Spared(t, t.states[i].pcs[a].name, i)
    ensures IsCanonical(t.states[i].pcs[a].name) && IsCanonical(t.states[i].pcs[b].name)
    ensures VmName(JobOf(t.states[i].pcs[a].name)) != VmName(JobOf(t.states[i].pcs[b].name))
  {
    var x, y := t.states[i].pcs[a], t.states[i].pcs[b];
    ReachableInv(t, i, x.name);
    TraceKeepsCanon(t, i);
    assert OwnsName(x, x.name) && OwnsName(y, y.name);
    if VmName(JobOf(x.name)) == VmName(JobOf(y.name)) {
      VmNameInjective(JobOf(x.name), JobOf(y.name));
      assert false;
    }
  }

  // ---- teardown before the slot is free ---------------------------------

  /** Call `a` drives the VM of `n`, and so has its claim in `cur/`. */
  predicate Drives(s: State, a: nat, n: string) { a in s.pcs && DrivesVm(s.pcs[a]) && s.pcs[a].name == n }

  /** The step by which the worker comes back from the teardown of its VM. */
  predicate TearsDown(s: State, l: Label, a: nat, n: string) {
    Drives(s, a, n) && s.pcs[a].phase.TearingDown? && l.Work? && l.actor == a
  }

  lemma DriverHasSlot(s: State, a: nat, n: string)
    requires Inv(s, n) && Drives(s, a, n)
    ensures Cur(n) in s.disk.fs
  {
    assert CallInv(s.disk.fs, s.now, s.pcs[a], n);
  }

  lemma DrivesUntilTornDown(s: State, l: Label, a: nat, n: string)
    requires Enabled(s, l) && Drives(s, a, n) && l != Panic(a) && !l.Crash? && !TearsDown(s, l, a, n)
    ensures Drives(Apply(s, l), a, n)
  {}

  ghost predicate TornDownBetween(t: Trace, i: nat, j: nat, a: nat, n: string)
    requires j < |t.states| && j <= |t.labels|
  {
    exists k :: i <= k < j && TearsDown(t.states[k], t.labels[k], a, n)
  }

  lemma {:induction false} DrivesOrTornDown(t: Trace, i: nat, j: nat, a: nat, n: string)
    requires IsTrace(t) && i <= j < |t.states| && Drives(t.states[i], a, n)
    requires forall k :: i <= k < j ==> t.labels[k] != Panic(a) && !t.labels[k].Crash?
    ensures Drives(t.states[j], a, n) || TornDownBetween(t, i, j, a, n)
  {
    if i < j {
      DrivesOrTornDown(t, i, j - 1, a, n);
      if Drives(t.states[j - 1], a, n) && !TearsDown(t.states[j - 1], t.labels[j - 1], a, n) {
        DrivesUntilTornDown(t.states[j - 1], t.labels[j - 1], a, n);
      }
    }
  }

  /** Over every run: once a worker drives the VM of a job, the job's slot in `cur/`
      is not free again, so that nobody can mint the same VM name, before that
      worker has torn its VM down, unless it panics or the process dies. */
  lemma TeardownBeforeRelease(t: Trace, i: nat, j: nat, a: nat, n: string)
    requires IsTrace(t) && i <= j < |t.states| && Spared(t, n, j) && Drives(t.states[i], a, n)
    requires forall k :: i <= k < j ==> t.labels[k] != Panic(a) && !t.labels[k].Crash?
    requires Cur(n) !in t.states[j].disk.fs
    ensures TornDownBetween(t, i, j, a, n)
  {
    DrivesOrTornDown(t, i, j, a, n);
    if Drives(t.states[j], a, n) {
      ReachableInv(t, j, n);
      DriverHasSlot(t.states[j], a, n);
    }
  }
}
