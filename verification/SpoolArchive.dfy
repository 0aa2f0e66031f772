/** The archive half of the spool protocol: the lock, the completion stamps, and
    what a call has seen of the archive and not acted on yet. It holds in every
    run, whatever the timeouts, the reaps and the clock readings are. */
module SpoolArchive {
  import opened Names
  import opened SpoolModel

  // ---- the invariant ----------------------------------------------------

  /** The millisecond of the `.bak` that holds the marker a finalize set aside. */
  function Aside(stage: Stage): Option<nat> {
    match stage
    case Overwrite(bak) => bak
    case PutBack(millis) => Some(millis)
    case _ => None
  }

  /** A finalize past its set-aside, with no marker in place yet. */
  predicate Vacating(pc: Pc) { pc.Finalizing? && (pc.stage.Overwrite? || pc.stage.PutBack?) }

  ghost predicate SeenInv(fs: Tree, now: nat, retentionSecs: nat, pc: Pc) {
    && (IsGc(pc) && !pc.Finalizing? ==> pc.started <= now)
    && (pc.PruneLock? || pc.PruneCheck? || pc.PruneUnlink? ==> pc.path.Archive?)
    && (pc.PruneUnlink? ==> pc.path in fs && AgeSecs(pc.started, fs[pc.path].mtime) > retentionSecs)
    && (pc.Finalizing? && (pc.stage.Probe? || pc.stage.SetAside?) ==> Archive(pc.dir, Marker(pc.name)) in fs)
    && (Vacating(pc) ==> Archive(pc.dir, Marker(pc.name)) !in fs)
    && (Vacating(pc) ==> Aside(pc.stage).Some? && Archive(pc.dir, Bak(pc.name, Aside(pc.stage).value)) in fs)
  }

  ghost predicate AllSeen(s: State) {
    forall a :: a in s.pcs ==> SeenInv(s.disk.fs, s.now, s.cfg.retentionSecs, s.pcs[a])
  }

  /** Whoever is inside an archive critical section holds the lock. */
  ghost predicate LockInv(pcs: map<nat, Pc>, lock: Option<nat>) {
    forall a :: a in pcs && HoldsLock(pcs[a]) ==> lock == Some(a)
  }

  /** The marker a call has installed and not stamped yet. */
  function Owed(pc: Pc): Option<Path> {
    if pc.Finalizing? && pc.stage.StampDest? then Some(Archive(pc.dir, Marker(pc.name))) else None
  }

  function OwedStamp(pcs: map<nat, Pc>, lock: Option<nat>): Option<Path> {
    if lock.Some? && lock.value in pcs then Owed(pcs[lock.value]) else None
  }

  /** Archived records carry a completion stamp at least as late as their
      install, except inside the critical section that owes the stamp. */
  ghost predicate StampInv(fs: Tree, now: nat, crashed: bool, owed: Option<Path>) {
    forall p :: p in fs && p.Archive? ==>
      fs[p].installed <= now &&
      if fs[p].settled then fs[p].installed <= fs[p].mtime else crashed || owed == Some(p)
  }

  ghost predicate ArchiveInv(s: State) {
    && AllSeen(s) && LockInv(s.pcs, s.lock)
    && StampInv(s.disk.fs, s.now, s.crashed, OwedStamp(s.pcs, s.lock))
  }

  // ---- runs -------------------------------------------------------------

  /** A freshly started process finds an arbitrary tree: orphaned claims, old
      markers and set-aside copies included. */
  ghost predicate Init(s: State) {
    && s.pcs == map[] && s.lock == None
    && StampInv(s.disk.fs, s.now, s.crashed, None)
  }

  datatype Trace = Trace(states: seq<State>, labels: seq<Label>)

  ghost predicate IsTrace(t: Trace) {
    && |t.states| == |t.labels| + 1
    && Init(t.states[0])
    && forall i :: 0 <= i < |t.labels| ==>
         Enabled(t.states[i], t.labels[i]) && t.states[i + 1] == Apply(t.states[i], t.labels[i])
  }

  // ---- what one step of a call does to the archive ----------------------

  ghost predicate SameArchive(fs: Tree, fs': Tree) {
    forall p: Path :: p.Archive? ==> (p in fs <==> p in fs') && (p in fs ==> fs'[p] == fs[p])
  }

  /** Only a holder of the lock ever changes the archive. */
  lemma UnlockedKeepsArchive(cfg: Config, d: Disk, now: nat, pc: Pc)
    requires IsStepPc(pc) && !HoldsLock(pc)
    ensures SameArchive(d.fs, Step(cfg, d, now, pc).disk.fs)
  {}

  /** Critical sections are entered only from outside and left only by their
      own release. */
  lemma StepLock(cfg: Config, d: Disk, now: nat, pc: Pc)
    requires IsStepPc(pc)
    ensures var e := Step(cfg, d, now, pc);
            && (e.lock.Take? <==> AwaitsLock(pc))
            && (e.lock.Release? <==> HoldsLock(pc) && (e.next.Some? ==> !HoldsLock(e.next.value)))
            && (e.next.Some? && HoldsLock(e.next.value) && !HoldsLock(pc) ==> e.lock.Take?)
            && (e.lock.Take? ==> e.next.Some?)
            && (!HoldsLock(pc) ==> Owed(pc).None? && (e.next.Some? ==> Owed(e.next.value).None?))
  {}

  lemma FinalizeKeepsSeen(d: Disk, now: nat, r: nat, pc: Pc)
    requires SeenInv(d.fs, now, r, pc) && pc.Finalizing?
    ensures var e := FinalizeStep(d, now, pc); e.next.Some? ==> SeenInv(e.disk.fs, now, r, e.next.value)
  {
    match pc.stage
    case Probe =>
    case SetAside =>
    case Overwrite(_) =>
    case _ =>
  }

  lemma StepKeepsSeen(cfg: Config, d: Disk, now: nat, pc: Pc)
    requires SeenInv(d.fs, now, cfg.retentionSecs, pc) && IsStepPc(pc)
    ensures var e := Step(cfg, d, now, pc);
            e.next.Some? ==> SeenInv(e.disk.fs, now, cfg.retentionSecs, e.next.value)
  {
    if pc.Finalizing? { FinalizeKeepsSeen(d, now, cfg.retentionSecs, pc); }
  }

  lemma ActKeepsSeen(s: State, a: nat)
    requires ArchiveInv(s) && Enabled(s, Act(a))
    ensures AllSeen(Apply(s, Act(a)))
  {
    var s', pc := Apply(s, Act(a)), s.pcs[a];
    StepKeepsSeen(s.cfg, s.disk, s.now, pc);
    if !HoldsLock(pc) { UnlockedKeepsArchive(s.cfg, s.disk, s.now, pc); }
    forall b | b in s'.pcs && b != a ensures SeenInv(s'.disk.fs, s'.now, s.cfg.retentionSecs, s'.pcs[b]) {
      assert SeenInv(s.disk.fs, s.now, s.cfg.retentionSecs, s.pcs[b]);
    }
  }

  lemma ActKeepsLock(s: State, a: nat)
    requires LockInv(s.pcs, s.lock) && Enabled(s, Act(a))
    ensures LockInv(Apply(s, Act(a)).pcs, Apply(s, Act(a)).lock)
  {
    StepLock(s.cfg, s.disk, s.now, s.pcs[a]);
  }

  lemma InstallKeepsStamps(d: Disk, now: nat, pc: Pc, crashed: bool)
    requires StampInv(d.fs, now, crashed, Owed(pc)) && pc.Finalizing? && (pc.stage.Install? || pc.stage.Overwrite?)
    ensures var e := FinalizeStep(d, now, pc);
            StampInv(e.disk.fs, now, crashed, if e.next.Some? then Owed(e.next.value) else None)
  {}

  lemma FinalizeKeepsStamps(d: Disk, now: nat, pc: Pc, crashed: bool)
    requires StampInv(d.fs, now, crashed, Owed(pc)) && pc.Finalizing?
    ensures var e := FinalizeStep(d, now, pc);
            StampInv(e.disk.fs, now, crashed, if e.next.Some? then Owed(e.next.value) else None)
  {
    if pc.stage.Install? || pc.stage.Overwrite? { InstallKeepsStamps(d, now, pc, crashed); }
  }

  lemma PruneKeepsStamps(d: Disk, now: nat, r: nat, pc: Pc, crashed: bool)
    requires StampInv(d.fs, now, crashed, None) && IsPrunePc(pc)
    ensures StampInv(PruneStep(d, r, pc).disk.fs, now, crashed, None)
  {}

  lemma ActKeepsStamps(s: State, a: nat)
    requires ArchiveInv(s) && Enabled(s, Act(a))
    ensures var s' := Apply(s, Act(a)); StampInv(s'.disk.fs, s'.now, s'.crashed, OwedStamp(s'.pcs, s'.lock))
  {
    var s', pc := Apply(s, Act(a)), s.pcs[a];
    StepLock(s.cfg, s.disk, s.now, pc);
    if HoldsLock(pc) {
      assert s.lock == Some(a);
      if pc.Finalizing? { FinalizeKeepsStamps(s.disk, s.now, pc, s.crashed); }
      else { PruneKeepsStamps(s.disk, s.now, s.cfg.retentionSecs, pc, s.crashed); }
    } else {
      UnlockedKeepsArchive(s.cfg, s.disk, s.now, pc);
      assert s.lock == Some(a) ==> Owed(pc).None?;
      assert OwedStamp(s'.pcs, s'.lock) == OwedStamp(s.pcs, s.lock);
    }
  }

  // ---- every step keeps it ----------------------------------------------

  lemma OtherKeepsArchive(s: State, l: Label)
    requires Enabled(s, l) && !l.Act?
    ensures SameArchive(s.disk.fs, Apply(s, l).disk.fs)
  {}

  lemma SeenStays(fs: Tree, now: nat, fs': Tree, now': nat, r: nat, pc: Pc)
    requires SeenInv(fs, now, r, pc) && SameArchive(fs, fs') && now <= now'
    ensures SeenInv(fs', now', r, pc)
  {}

  /** A call that starts or moves on outside the critical sections. */
  lemma OtherMoves(s: State, l: Label, b: nat)
    requires Enabled(s, l) && !l.Act? && b in Apply(s, l).pcs
    requires !(b in s.pcs && s.pcs[b] == Apply(s, l).pcs[b])
    requires b in s.pcs ==> SeenInv(s.disk.fs, s.now, s.cfg.retentionSecs, s.pcs[b])
    ensures var s' := Apply(s, l); SeenInv(s'.disk.fs, s'.now, s'.cfg.retentionSecs, s'.pcs[b])
  {}

  lemma OtherKeepsSeen(s: State, l: Label)
    requires AllSeen(s) && Enabled(s, l) && !l.Act?
    ensures AllSeen(Apply(s, l))
  {
    var s' := Apply(s, l);
    OtherKeepsArchive(s, l);
    assert s.now <= s'.now && s'.cfg == s.cfg;
    forall b | b in s'.pcs ensures SeenInv(s'.disk.fs, s'.now, s'.cfg.retentionSecs, s'.pcs[b]) {
      if b in s.pcs && s.pcs[b] == s'.pcs[b] {
        SeenStays(s.disk.fs, s.now, s'.disk.fs, s'.now, s.cfg.retentionSecs, s.pcs[b]);
      } else {
        OtherMoves(s, l, b);
      }
    }
  }

  /** Every enabled step keeps the archive half, with no hypothesis at all. */
  lemma StepKeepsArchive(s: State, l: Label)
    requires ArchiveInv(s) && Enabled(s, l)
    ensures ArchiveInv(Apply(s, l))
  {
    if l.Act? {
      ActKeepsSeen(s, l.actor);
      ActKeepsLock(s, l.actor);
      ActKeepsStamps(s, l.actor);
    } else {
      OtherKeepsSeen(s, l);
    }
  }

  lemma {:induction false} TraceKeepsArchive(t: Trace, i: nat)
    requires IsTrace(t) && i < |t.states|
    ensures ArchiveInv(t.states[i])
  {
    if i > 0 {
      TraceKeepsArchive(t, i - 1);
      StepKeepsArchive(t.states[i - 1], t.labels[i - 1]);
    }
  }

  // ---- pruning ----------------------------------------------------------

  /** In every interleaving, the file a prune is about to unlink is older than
      the retention right now, by its own mtime and, in a run without crashes,
      by the time its finalize installed it; and no other call is inside an
      archive critical section, so none is between its install and its stamp. */
  lemma PruneUnlinksOnlyOld(t: Trace, i: nat, a: nat)
    requires IsTrace(t) && i < |t.states| && a in t.states[i].pcs && t.states[i].pcs[a].PruneUnlink?
    ensures var s := t.states[i];
            var p := s.pcs[a].path;
            && p.Archive? && p in s.disk.fs
            && AgeSecs(s.now, s.disk.fs[p].mtime) > s.cfg.retentionSecs
            && (!s.crashed ==> AgeSecs(s.now, s.disk.fs[p].installed) > s.cfg.retentionSecs)
            && forall b :: b in s.pcs && b != a ==> !HoldsLock(s.pcs[b])
  {
    TraceKeepsArchive(t, i);
    var s := t.states[i];
    var p := s.pcs[a].path;
    assert SeenInv(s.disk.fs, s.now, s.cfg.retentionSecs, s.pcs[a]);
    assert OwedStamp(s.pcs, s.lock) == None;
  }

  lemma PruneStarts(s: State, a: nat, p: Path) returns (u: State)
    requires a in s.pcs && s.pcs[a].Scanning? && s.lock == None && p.Archive? && p in s.disk.fs
    requires AgeSecs(s.pcs[a].started, s.disk.fs[p].mtime) > s.cfg.retentionSecs
    ensures u == s.(pcs := s.pcs[a := PruneUnlink(s.pcs[a].started, p)], lock := Some(a))
    ensures Enabled(s, Examine(a, p))
    ensures var s1 := Apply(s, Examine(a, p));
            && Enabled(s1, Act(a))
            && Enabled(Apply(s1, Act(a)), Act(a)) && u == Apply(Apply(s1, Act(a)), Act(a))
  {
    u := Apply(Apply(Apply(s, Examine(a, p)), Act(a)), Act(a));
  }

  /** And it does remove what is old: from a scan that meets an expired entry, its own
      steps lead back to the scan with that entry gone and every other file there. */
  lemma PruneRemovesOld(s: State, a: nat, p: Path) returns (u: State, t: State)
    requires a in s.pcs && s.pcs[a].Scanning? && s.lock == None && p.Archive? && p in s.disk.fs
    requires AgeSecs(s.pcs[a].started, s.disk.fs[p].mtime) > s.cfg.retentionSecs
    ensures Enabled(s, Examine(a, p))
    ensures var s1 := Apply(s, Examine(a, p));
            && Enabled(s1, Act(a))
            && Enabled(Apply(s1, Act(a)), Act(a)) && u == Apply(Apply(s1, Act(a)), Act(a))
    ensures Enabled(u, Act(a)) && Enabled(Apply(u, Act(a)), Act(a)) && t == Apply(Apply(u, Act(a)), Act(a))
    ensures t.disk.fs == s.disk.fs - {p} && t.pcs == s.pcs && t.lock == None
  {
    u := PruneStarts(s, a, p);
    t := Apply(Apply(u, Act(a)), Act(a));
  }

  predicate Pruning(pc: Pc) { pc.Scanning? || IsPrunePc(pc) }

  lemma ZeroRetentionStep(s: State, l: Label, a: nat)
    requires s.cfg.retentionSecs == 0 && Enabled(s, l) && a in Apply(s, l).pcs && (a in s.pcs ==> !Pruning(s.pcs[a]))
    ensures !Pruning(Apply(s, l).pcs[a]) && Apply(s, l).cfg == s.cfg
  {}

  /** A retention of zero turns the prune off: over every run nothing is pruned. */
  lemma {:induction false} ZeroRetentionKeepsAll(t: Trace, i: nat)
    requires IsTrace(t) && i < |t.states| && t.states[0].cfg.retentionSecs == 0
    ensures t.states[i].cfg == t.states[0].cfg && forall a :: a in t.states[i].pcs ==> !Pruning(t.states[i].pcs[a])
  {
    if i > 0 {
      ZeroRetentionKeepsAll(t, i - 1);
      var s, l := t.states[i - 1], t.labels[i - 1];
      assert t.states[i] == Apply(s, l) && Enabled(s, l);
      assert Apply(s, l).cfg == s.cfg;
      forall a | a in Apply(s, l).pcs ensures !Pruning(Apply(s, l).pcs[a]) { ZeroRetentionStep(s, l, a); }
    }
  }

  // ---- the marker put back ----------------------------------------------

  predicate At(t: Trace, i: nat, a: nat) { i < |t.states| && a in t.states[i].pcs }

  /** At step `i`, call `a` sets the marker of `pc`'s id and directory aside. */
  predicate SetAsideAt(t: Trace, i: nat, a: nat, pc: Pc)
    requires pc.Finalizing?
  {
    && At(t, i, a) && i < |t.labels| && t.labels[i] == Act(a)
    && t.states[i].pcs[a] == pc.(stage := SetAside)
    && Archive(pc.dir, Marker(pc.name)) in t.states[i].disk.fs
  }

  /** Only the set-aside leads to a marker that is owed back, and the clock it
      read names the `.bak`. */
  lemma OwedByStep(cfg: Config, d: Disk, now: nat, pc: Pc)
    requires IsStepPc(pc) && SeenInv(d.fs, now, cfg.retentionSecs, pc)
    ensures var next := Step(cfg, d, now, pc).next;
            next.Some? && Vacating(next.value) ==>
              && pc.Finalizing? && next.value.(stage := pc.stage) == pc
              && (if Vacating(pc) then Aside(pc.stage) == Aside(next.value.stage)
                  else pc.stage.SetAside? && next.value.stage == Overwrite(Some(now))
                       && Archive(pc.dir, Marker(pc.name)) in d.fs)
  {}

  lemma OwedElsewhere(s: State, l: Label, a: nat)
    requires Enabled(s, l) && l != Act(a) && a in Apply(s, l).pcs && Vacating(Apply(s, l).pcs[a])
    ensures a in s.pcs && s.pcs[a] == Apply(s, l).pcs[a]
  {}

  /** While a finalize is vacating, nobody else touches the archive, and its own
      step does so only to install or to put back. */
  lemma VacatingFreezesArchive(s: State, l: Label, a: nat)
    requires ArchiveInv(s) && Enabled(s, l) && a in s.pcs && Vacating(s.pcs[a])
    requires a in Apply(s, l).pcs && Vacating(Apply(s, l).pcs[a])
    ensures SameArchive(s.disk.fs, Apply(s, l).disk.fs)
  {
    if !l.Act? { OtherKeepsArchive(s, l); }
    else if l.actor != a { UnlockedKeepsArchive(s.cfg, s.disk, s.now, s.pcs[l.actor]); }
  }

  /** The marker call `a` owes back in `s'` was owed before the step, with the
      archive as it is; or the step set it aside. */
  ghost predicate OwedBefore(s: State, l: Label, s': State, a: nat)
    requires a in s'.pcs && Vacating(s'.pcs[a])
  {
    && a in s.pcs && s.pcs[a].Finalizing? && s.pcs[a].(stage := SetAside) == s'.pcs[a].(stage := SetAside)
    && if Vacating(s.pcs[a])
       then Aside(s.pcs[a].stage) == Aside(s'.pcs[a].stage) && SameArchive(s.disk.fs, s'.disk.fs)
       else l == Act(a) && s.pcs[a].stage.SetAside? && Aside(s'.pcs[a].stage) == Some(s.now)
            && Archive(s.pcs[a].dir, Marker(s.pcs[a].name)) in s.disk.fs
  }

  lemma OneStepBack(t: Trace, k: nat, a: nat)
    requires IsTrace(t) && k < |t.labels| && At(t, k + 1, a) && Vacating(t.states[k + 1].pcs[a])
    ensures OwedBefore(t.states[k], t.labels[k], t.states[k + 1], a)
  {
    var s, l := t.states[k], t.labels[k];
    TraceKeepsArchive(t, k);
    if l == Act(a) { OwedByStep(s.cfg, s.disk, s.now, s.pcs[a]); } else { OwedElsewhere(s, l, a); }
    if Vacating(s.pcs[a]) { VacatingFreezesArchive(s, l, a); }
  }

  ghost predicate SetAsideFor(t: Trace, i: nat, j: nat, a: nat)
    requires At(t, j, a) && Vacating(t.states[j].pcs[a])
  {
    && i < j && SetAsideAt(t, i, a, t.states[j].pcs[a])
    && Aside(t.states[j].pcs[a].stage) == Some(t.states[i].now)
    && SameArchive(t.states[i + 1].disk.fs, t.states[j].disk.fs)
  }

  /** One state on: the same set-aside, or the one that happened just now. */
  lemma SetAsideStays(t: Trace, i: nat, k: nat, a: nat)
    requires k < |t.labels| < |t.states| && At(t, k + 1, a) && Vacating(t.states[k + 1].pcs[a])
    requires OwedBefore(t.states[k], t.labels[k], t.states[k + 1], a)
    requires if Vacating(t.states[k].pcs[a]) then SetAsideFor(t, i, k, a) else i == k
    ensures SetAsideFor(t, i, k + 1, a)
  {}

  lemma {:induction false} SetAsideBefore(t: Trace, j: nat, a: nat) returns (i: nat)
    requires IsTrace(t) && At(t, j, a) && Vacating(t.states[j].pcs[a])
    ensures SetAsideFor(t, i, j, a)
  {
    assert j > 0;
    OneStepBack(t, j - 1, a);
    i := j - 1;
    if Vacating(t.states[j - 1].pcs[a]) { i := SetAsideBefore(t, j - 1, a); }
    SetAsideStays(t, i, j - 1, a);
  }

  lemma AsideAndBack(before: Tree, aside: Tree, after: Tree, marker: Path, bak: Path)
    requires marker in before && marker.Archive? && bak.Archive? && marker != bak
    requires SameArchive(Rename(before, marker, bak), aside)
    requires after == Rename(aside, bak, marker)
    ensures marker in after && after[marker] == before[marker]
    ensures SameArchive(before, after) <==> bak !in before
  {
    assert bak in Rename(before, marker, bak);
    if bak !in before {
      forall p: Path | p.Archive? ensures (p in before <==> p in after) && (p in before ==> after[p] == before[p]) {
        assert p in Rename(before, marker, bak) <==> p in aside;
      }
    }
  }

  /** A finalize whose claim vanished after it set the old marker aside puts back
      the very record it set aside, in every interleaving; and it leaves the whole
      archive as it found it exactly when its set-aside clobbered no `.bak`. */
  lemma PutBackRestores(t: Trace, j: nat, a: nat) returns (i: nat)
    requires IsTrace(t) && At(t, j, a) && j < |t.labels| && t.labels[j] == Act(a)
    requires t.states[j].pcs[a].Finalizing? && t.states[j].pcs[a].stage.PutBack?
    ensures i < j && SetAsideAt(t, i, a, t.states[j].pcs[a])
    ensures var pc, before, after := t.states[j].pcs[a], t.states[i].disk.fs, t.states[j + 1].disk.fs;
            var marker, bak := Archive(pc.dir, Marker(pc.name)), Archive(pc.dir, Bak(pc.name, t.states[i].now));
            && marker in after && after[marker] == before[marker]
            && (SameArchive(before, after) <==> bak !in before)
  {
    i := SetAsideBefore(t, j, a);
    TraceKeepsArchive(t, j);
    var pc := t.states[j].pcs[a];
    assert SeenInv(t.states[j].disk.fs, t.states[j].now, t.states[j].cfg.retentionSecs, pc);
    AsideAndBack(t.states[i].disk.fs, t.states[j].disk.fs, t.states[j + 1].disk.fs,
                 Archive(pc.dir, Marker(pc.name)), Archive(pc.dir, Bak(pc.name, t.states[i].now)));
  }
}
