/** Exactly when an archived id has no marker, in every run, whatever the timeouts
    and the reaps are. */
module SpoolMarkers {
  import opened Names
  import opened SpoolModel
  import opened SpoolArchive

  predicate InSpool(fs: Tree, n: string) { Cur(n) in fs || Archived(fs, n) }

  /** The step by which the prune unlinks an archive marker of `n`. */
  predicate PrunesMarker(s: State, l: Label, n: string) {
    l.Act? && l.actor in s.pcs && s.pcs[l.actor].PruneUnlink? && s.pcs[l.actor].path in {DoneMarker(n), ErrorMarker(n)}
  }

  function Other(dir: Dir): Dir { if dir.DoneDir? then ErrorDir else DoneDir }

  /** Finalize `a` has set the marker of `n` aside, and neither installed its own
      nor put the old one back; and the other archive has none either. */
  predicate Gap(s: State, a: nat, n: string) {
    && a in s.pcs && Vacating(s.pcs[a]) && s.pcs[a].name == n
    && Archive(Other(s.pcs[a].dir), Marker(n)) !in s.disk.fs
  }

  ghost predicate InGap(s: State, n: string) { exists a :: Gap(s, a, n) }

  // ---- how the marker leaves --------------------------------------------

  predicate SetsAsideLast(d: Disk, pc: Pc, n: string) {
    pc.Finalizing? && pc.stage.SetAside? && pc.name == n && Archive(Other(pc.dir), Marker(n)) !in d.fs
  }

  lemma StepKeepsMarkerExactly(cfg: Config, d: Disk, now: nat, pc: Pc, n: string)
    requires IsStepPc(pc) && SeenInv(d.fs, now, cfg.retentionSecs, pc) && Archived(d.fs, n)
    requires !(pc.PruneUnlink? && pc.path in {DoneMarker(n), ErrorMarker(n)})
    ensures !Archived(Step(cfg, d, now, pc).disk.fs, n) <==> SetsAsideLast(d, pc, n)
  {
    if pc.Finalizing? {
      assert pc.dir.DoneDir? || pc.dir.ErrorDir?;
    }
  }

  /** An archived id loses its marker by exactly one step: the set-aside rename of
      a finalize of this id, when the other archive holds no marker of it. */
  lemma MarkerLeavesExactly(s: State, l: Label, n: string)
    requires AllSeen(s) && Enabled(s, l) && Archived(s.disk.fs, n) && !PrunesMarker(s, l, n)
    ensures !Archived(Apply(s, l).disk.fs, n)
            <==> l.Act? && SetsAsideLast(s.disk, s.pcs[l.actor], n)
  {
    if l.Act? {
      assert SeenInv(s.disk.fs, s.now, s.cfg.retentionSecs, s.pcs[l.actor]);
      StepKeepsMarkerExactly(s.cfg, s.disk, s.now, s.pcs[l.actor], n);
    } else {
      OtherKeepsArchive(s, l);
    }
  }

  lemma GapHasNoMarker(s: State, a: nat, n: string)
    requires AllSeen(s) && Gap(s, a, n)
    ensures !Archived(s.disk.fs, n)
  {
    assert SeenInv(s.disk.fs, s.now, s.cfg.retentionSecs, s.pcs[a]);
    assert s.pcs[a].dir.DoneDir? || s.pcs[a].dir.ErrorDir?;
  }

  lemma SetAsideOpensGap(s: State, a: nat, n: string)
    requires AllSeen(s) && Enabled(s, Act(a)) && SetsAsideLast(s.disk, s.pcs[a], n)
    ensures Gap(Apply(s, Act(a)), a, n)
  {
    assert SeenInv(s.disk.fs, s.now, s.cfg.retentionSecs, s.pcs[a]);
    assert s.pcs[a].dir.DoneDir? || s.pcs[a].dir.ErrorDir?;
  }

  // ---- how the gap closes -----------------------------------------------

  /** The finalize itself installs its marker, or goes to put the old one back, or
      does put it back. */
  lemma OwnStepInGap(s: State, a: nat, n: string)
    requires AllSeen(s) && Gap(s, a, n) && Enabled(s, Act(a))
    ensures Archived(Apply(s, Act(a)).disk.fs, n) || Gap(Apply(s, Act(a)), a, n)
  {
    assert SeenInv(s.disk.fs, s.now, s.cfg.retentionSecs, s.pcs[a]);
    assert s.pcs[a].dir.DoneDir? || s.pcs[a].dir.ErrorDir?;
  }

  lemma OthersKeepGap(s: State, b: nat, a: nat, n: string)
    requires ArchiveInv(s) && Gap(s, a, n) && Enabled(s, Act(b)) && b != a
    ensures Gap(Apply(s, Act(b)), a, n)
  {
    assert HoldsLock(s.pcs[a]) && !HoldsLock(s.pcs[b]);
    UnlockedKeepsArchive(s.cfg, s.disk, s.now, s.pcs[b]);
  }

  lemma OtherLabelsKeepGap(s: State, l: Label, a: nat, n: string)
    requires Gap(s, a, n) && Enabled(s, l) && !l.Act? && !l.Crash?
    ensures Gap(Apply(s, l), a, n)
  {
    OtherKeepsArchive(s, l);
  }

  lemma GapStays(s: State, l: Label, a: nat, n: string)
    requires ArchiveInv(s) && Gap(s, a, n) && Enabled(s, l) && !l.Crash?
    ensures Archived(Apply(s, l).disk.fs, n) || Gap(Apply(s, l), a, n)
  {
    if l == Act(a) { OwnStepInGap(s, a, n); }
    else if l.Act? { OthersKeepGap(s, l.actor, a, n); }
    else { OtherLabelsKeepGap(s, l, a, n); }
  }

  // ---- over runs --------------------------------------------------------

  ghost predicate ArchivedOrInGap(s: State, n: string) { Archived(s.disk.fs, n) || InGap(s, n) }

  /** Neither prunes the marker of `n` nor crashes in a gap of `n`. */
  ghost predicate Minds(s: State, l: Label, n: string) {
    !PrunesMarker(s, l, n) && (l.Crash? ==> !InGap(s, n))
  }

  lemma StepKeepsArchivedOrInGap(s: State, l: Label, n: string)
    requires ArchiveInv(s) && Enabled(s, l) && Minds(s, l, n) && ArchivedOrInGap(s, n)
    ensures ArchivedOrInGap(Apply(s, l), n)
  {
    if Archived(s.disk.fs, n) {
      MarkerLeavesExactly(s, l, n);
      if !Archived(Apply(s, l).disk.fs, n) { SetAsideOpensGap(s, l.actor, n); }
    } else {
      var a :| Gap(s, a, n);
      GapStays(s, l, a, n);
    }
  }

  ghost predicate GapCarries(t: Trace, k: nat, n: string)
    requires k + 1 < |t.states|
  {
    ArchivedOrInGap(t.states[k], n) ==> ArchivedOrInGap(t.states[k + 1], n)
  }

  lemma {:induction false} GapChain(t: Trace, i: nat, j: nat, n: string)
    requires i <= j < |t.states| && ArchivedOrInGap(t.states[i], n)
    requires forall k :: i <= k < j ==> GapCarries(t, k, n)
    ensures ArchivedOrInGap(t.states[j], n)
  {
    if i < j {
      GapChain(t, i, j - 1, n);
      assert GapCarries(t, j - 1, n);
    }
  }

  lemma TraceKeepsArchivedOrInGap(t: Trace, k: nat, n: string)
    requires IsTrace(t) && k < |t.labels| && Minds(t.states[k], t.labels[k], n)
    ensures GapCarries(t, k, n)
  {
    TraceKeepsArchive(t, k);
    if ArchivedOrInGap(t.states[k], n) { StepKeepsArchivedOrInGap(t.states[k], t.labels[k], n); }
  }

  /** The archive comment says the canonical marker is never absent. In every run
      from an archived state on, while no marker of the id is pruned and nothing
      crashes in a gap, it is absent exactly in a gap: from the set-aside of a
      finalize of this id to its install or put-back, with no marker in the other
      archive. And the id is nowhere in the spool exactly when its claim vanished
      from `cur/` meanwhile. */
  lemma MarkerAbsentExactly(t: Trace, i: nat, j: nat, n: string)
    requires IsTrace(t) && i <= j < |t.states| && Archived(t.states[i].disk.fs, n)
    requires forall k :: i <= k < j ==> Minds(t.states[k], t.labels[k], n)
    ensures !Archived(t.states[j].disk.fs, n) <==> InGap(t.states[j], n)
    ensures !InSpool(t.states[j].disk.fs, n) <==> InGap(t.states[j], n) && Cur(n) !in t.states[j].disk.fs
  {
    forall k | i <= k < j ensures GapCarries(t, k, n) { TraceKeepsArchivedOrInGap(t, k, n); }
    GapChain(t, i, j, n);
    TraceKeepsArchive(t, j);
    forall a | Gap(t.states[j], a, n) ensures !Archived(t.states[j].disk.fs, n) {
      GapHasNoMarker(t.states[j], a, n);
    }
  }

  /** A crash in the gap leaves the id without a marker and nobody to put it back. */
  lemma CrashInGap(s: State, a: nat, n: string)
    requires AllSeen(s) && Gap(s, a, n)
    ensures !Archived(Apply(s, Crash).disk.fs, n) && !InGap(Apply(s, Crash), n)
  {
    GapHasNoMarker(s, a, n);
    assert Apply(s, Crash) == s.(pcs := map[], lock := None, crashed := true);
  }
}
