/** Who owns the claim of one id: the invariant behind replay rejection and one
    worker per job, for runs in which no step of the sweep takes over a claim of
    this id that a live call owns. What happens to other ids does not matter. */
module SpoolInvariant {
  import opened Names
  import opened SpoolModel
  import opened SpoolArchive

  // ---- the hypothesis on a run ------------------------------------------

  /** The sweep expires or reaps a claim of `n` only if no call owns it. */
  ghost predicate SparesOwned(s: State, l: Label, n: string) {
    (l.Expire? || l.ReapOrphan?) && l.name == n ==> Orphaned(s, n)
  }

  /** So far, up to state `j`. */
  ghost predicate Spared(t: Trace, n: string, j: nat) {
    forall k :: 0 <= k < j && k < |t.labels| && k < |t.states| ==> SparesOwned(t.states[k], t.labels[k], n)
  }

  // ---- the invariant ----------------------------------------------------

  function NameOf(pc: Pc): Option<string> { if pc.Scanning? || IsPrunePc(pc) then None else Some(pc.name) }

  ghost predicate OwnerInv(fs: Tree, now: nat, pc: Pc)
    requires OwnedName(pc).Some?
  {
    Cur(pc.name) in fs && pc.since <= now && (!IsGc(pc) ==> pc.since <= fs[Cur(pc.name)].mtime)
  }

  /** What holds of each call in progress: the claim it owns is present, and no
      older than the moment the owner stamped it; what a `try_claim` has read of
      `done/` is still true; and no finalize loses its claim halfway. */
  ghost predicate PcInv(fs: Tree, now: nat, pc: Pc) {
    && (OwnedName(pc).Some? ==> OwnerInv(fs, now, pc))
    && (pc.Take? ==> pc.since <= now && (New(pc.name) in fs ==> pc.since <= fs[New(pc.name)].mtime))
    && (pc.SynTake? ==> pc.since <= now)
    && (pc.PostError? ==> DoneMarker(pc.name) !in fs)
    && (pc.Finalizing? ==> !pc.stage.PutBack?)
  }

  ghost predicate CallInv(fs: Tree, now: nat, pc: Pc, n: string) { NameOf(pc) == Some(n) ==> PcInv(fs, now, pc) }

  ghost predicate CallsInv(s: State, n: string) {
    forall a :: a in s.pcs ==> CallInv(s.disk.fs, s.now, s.pcs[a], n)
  }

  /** No two calls own the claim of `n`. */
  ghost predicate UniqueOwner(pcs: map<nat, Pc>, n: string) {
    forall a, b :: a in pcs && b in pcs && a != b && OwnedName(pcs[a]) == Some(n) ==> OwnedName(pcs[b]) != Some(n)
  }

  ghost predicate OwnershipInv(s: State, n: string) { CallsInv(s, n) && UniqueOwner(s.pcs, n) }

  ghost predicate Inv(s: State, n: string) { ArchiveInv(s) && OwnershipInv(s, n) }

  lemma InitInv(s: State, n: string)
    requires Init(s)
    ensures Inv(s, n)
  {}

  // ---- what one step may change for the calls of one id -----------------

  predicate OwnsName(pc: Pc, n: string) { OwnedName(pc) == Some(n) }

  /** A tree change that leaves the claim of `n` alone, unless the call that makes
      it owns that claim (`mine`). */
  ghost predicate Quiet(fs: Tree, fs': Tree, now: nat, n: string, mine: bool) {
    && (Cur(n) in fs && !mine ==> Cur(n) in fs' && fs'[Cur(n)].mtime == fs[Cur(n)].mtime)
    && (New(n) in fs' ==> (New(n) in fs && fs[New(n)].mtime <= fs'[New(n)].mtime) || now <= fs'[New(n)].mtime)
    && (DoneMarker(n) in fs' && !mine ==> DoneMarker(n) in fs)
  }

  lemma OtherCallKeeps(fs: Tree, fs': Tree, now: nat, n: string, mine: bool, pc: Pc)
    requires CallInv(fs, now, pc, n) && Quiet(fs, fs', now, n, mine) && (mine ==> !OwnsName(pc, n))
    ensures CallInv(fs', now, pc, n)
  {
    assert NameOf(pc) == Some(n) && OwnedName(pc).Some? ==> OwnerInv(fs', now, pc);
  }

  /** A call goes on with its own id, and acquires a claim only by renaming into a
      free `cur/` slot. */
  ghost predicate Continues(fs: Tree, e: Effect, now: nat, pc: Pc, n: string) {
    e.next.Some? ==>
      && CallInv(e.disk.fs, now, e.next.value, n)
      && (OwnsName(e.next.value, n) && !OwnsName(pc, n) ==> Cur(n) !in fs)
  }

  lemma ClaimIsQuiet(d: Disk, now: nat, pc: Pc, n: string)
    requires CallInv(d.fs, now, pc, n) && IsClaimPc(pc)
    ensures Quiet(d.fs, ClaimStep(d, now, pc).disk.fs, now, n, OwnsName(pc, n))
  {}

  lemma ClaimContinues(d: Disk, now: nat, pc: Pc, n: string)
    requires CallInv(d.fs, now, pc, n) && IsClaimPc(pc)
    ensures Continues(d.fs, ClaimStep(d, now, pc), now, pc, n)
  {
    match pc
    case Take(_, _) =>
    case Stamp(_) =>
    case _ =>
  }

  lemma SyntheticIsQuiet(d: Disk, now: nat, pc: Pc, n: string)
    requires CallInv(d.fs, now, pc, n) && IsSyntheticPc(pc)
    ensures Quiet(d.fs, SyntheticStep(d, now, pc).disk.fs, now, n, OwnsName(pc, n))
    ensures Continues(d.fs, SyntheticStep(d, now, pc), now, pc, n)
  {}

  lemma PruneIsQuiet(d: Disk, now: nat, r: nat, pc: Pc, n: string)
    requires IsPrunePc(pc) && (pc.PruneUnlink? ==> pc.path.Archive?)
    ensures Quiet(d.fs, PruneStep(d, r, pc).disk.fs, now, n, OwnsName(pc, n))
    ensures Continues(d.fs, PruneStep(d, r, pc), now, pc, n)
  {}

  lemma FinalizeIsQuiet(d: Disk, now: nat, pc: Pc, n: string)
    requires CallInv(d.fs, now, pc, n) && pc.Finalizing?
    ensures Quiet(d.fs, FinalizeStep(d, now, pc).disk.fs, now, n, OwnsName(pc, n))
  {
    match pc.stage
    case Install =>
    case SetAside =>
    case Overwrite(_) =>
    case _ =>
  }

  lemma FinalizeContinues(d: Disk, now: nat, pc: Pc, n: string)
    requires CallInv(d.fs, now, pc, n) && pc.Finalizing?
    ensures Continues(d.fs, FinalizeStep(d, now, pc), now, pc, n)
  {
    match pc.stage
    case Install =>
    case SetAside =>
    case Overwrite(_) =>
    case _ =>
  }

  // ---- one step of one call, for everybody ------------------------------

  lemma StepIsQuiet(s: State, a: nat, n: string)
    requires AllSeen(s) && a in s.pcs && CallInv(s.disk.fs, s.now, s.pcs[a], n) && IsStepPc(s.pcs[a])
    ensures var e := Step(s.cfg, s.disk, s.now, s.pcs[a]);
            && Quiet(s.disk.fs, e.disk.fs, s.now, n, OwnsName(s.pcs[a], n))
            && Continues(s.disk.fs, e, s.now, s.pcs[a], n)
  {
    var d, now, r, pc := s.disk, s.now, s.cfg.retentionSecs, s.pcs[a];
    assert SeenInv(d.fs, now, r, pc);
    if pc.Finalizing? { FinalizeIsQuiet(d, now, pc, n); FinalizeContinues(d, now, pc, n); }
    else if IsClaimPc(pc) { ClaimIsQuiet(d, now, pc, n); ClaimContinues(d, now, pc, n); }
    else if IsSyntheticPc(pc) { SyntheticIsQuiet(d, now, pc, n); }
    else { PruneIsQuiet(d, now, r, pc, n); }
  }

  lemma ActKeepsCalls(s: State, a: nat, n: string)
    requires Inv(s, n) && Enabled(s, Act(a))
    ensures CallsInv(Apply(s, Act(a)), n)
  {
    var s', pc := Apply(s, Act(a)), s.pcs[a];
    StepIsQuiet(s, a, n);
    forall b | b in s'.pcs ensures CallInv(s'.disk.fs, s'.now, s'.pcs[b], n) {
      if b != a { OtherCallKeeps(s.disk.fs, s'.disk.fs, s.now, n, OwnsName(pc, n), s.pcs[b]); }
    }
  }

  lemma FreeSlotIsOrphaned(s: State, n: string)
    requires CallsInv(s, n) && Cur(n) !in s.disk.fs
    ensures Orphaned(s, n)
  {
    forall b | b in s.pcs ensures OwnedName(s.pcs[b]) != Some(n) { assert CallInv(s.disk.fs, s.now, s.pcs[b], n); }
  }

  lemma OwnersAfter(pcs: map<nat, Pc>, a: nat, next: Option<Pc>, n: string)
    requires UniqueOwner(pcs, n)
    requires next.Some? && OwnsName(next.value, n) ==>
               (a in pcs && OwnsName(pcs[a], n)) || (forall b :: b in pcs ==> OwnedName(pcs[b]) != Some(n))
    ensures UniqueOwner(if next.Some? then pcs[a := next.value] else pcs - {a}, n)
  {}

  lemma ActKeepsOwners(s: State, a: nat, n: string)
    requires Inv(s, n) && Enabled(s, Act(a))
    ensures UniqueOwner(Apply(s, Act(a)).pcs, n)
  {
    StepIsQuiet(s, a, n);
    if Cur(n) !in s.disk.fs { FreeSlotIsOrphaned(s, n); }
    OwnersAfter(s.pcs, a, Step(s.cfg, s.disk, s.now, s.pcs[a]).next, n);
  }

  // ---- the other labels -------------------------------------------------

  /** A call starts, or moves on without touching the disk. */
  lemma ResumeAtKeepsInv(s: State, a: nat, pc: Pc, n: string)
    requires OwnershipInv(s, n) && CallInv(s.disk.fs, s.now, pc, n)
    requires OwnsName(pc, n) ==> (a in s.pcs && OwnsName(s.pcs[a], n)) || Orphaned(s, n)
    ensures OwnershipInv(s.(pcs := s.pcs[a := pc]), n)
  {
    OwnersAfter(s.pcs, a, Some(pc), n);
  }

  lemma ArriveKeepsInv(s: State, m: string, n: string)
    requires OwnershipInv(s, n)
    ensures OwnershipInv(Apply(s, Arrive(m)), n)
  {
    var s' := Apply(s, Arrive(m));
    assert Quiet(s.disk.fs, s'.disk.fs, s.now, n, false);
    forall b | b in s.pcs ensures CallInv(s'.disk.fs, s.now, s.pcs[b], n) {
      OtherCallKeeps(s.disk.fs, s'.disk.fs, s.now, n, false, s.pcs[b]);
    }
  }

  lemma WaitKeepsInv(s: State, d: nat, n: string)
    requires OwnershipInv(s, n)
    ensures OwnershipInv(Apply(s, Wait(d)), n)
  {
    var s' := Apply(s, Wait(d));
    forall b | b in s.pcs ensures CallInv(s'.disk.fs, s'.now, s.pcs[b], n) {
      assert CallInv(s.disk.fs, s.now, s.pcs[b], n);
    }
  }

  lemma ReapKeepsInv(s: State, l: Label, n: string)
    requires OwnershipInv(s, n) && SparesOwned(s, l, n) && Enabled(s, l) && (l.Expire? || l.ReapOrphan?)
    ensures OwnershipInv(Apply(s, l), n)
  {
    ResumeAtKeepsInv(s, l.actor, Finalizing(l.name, s.now, ErrorDir, WantLock, true), n);
  }

  lemma ScanKeepsInv(s: State, l: Label, n: string)
    requires OwnershipInv(s, n) && Enabled(s, l) && (l.BeginPrune? || l.Examine? || l.EndPrune? || l.Panic?)
    ensures OwnershipInv(Apply(s, l), n)
  {
    match l
    case BeginPrune(a) => ResumeAtKeepsInv(s, a, Scanning(s.now), n);
    case Examine(a, p) => ResumeAtKeepsInv(s, a, PruneLock(s.pcs[a].started, p), n);
    case _ =>
  }

  lemma BeginKeepsInv(s: State, l: Label, n: string)
    requires OwnershipInv(s, n) && Enabled(s, l) && (l.BeginClaim? || l.BeginSynthetic?)
    ensures OwnershipInv(Apply(s, l), n)
  {
    match l
    case BeginClaim(a, m) => ResumeAtKeepsInv(s, a, PreDone(m), n);
    case BeginSynthetic(a, job) => ResumeAtKeepsInv(s, a, SynCheck(CanonicalFilename(job)), n);
  }

  lemma PreparedPc(n: string, since: nat, v: Verdict)
    ensures var pc := PreparePc(n, since, v);
            && OwnedName(pc) == Some(n) && pc.name == n && pc.since == since && !IsGc(pc)
            && !IsSyntheticPc(pc) && (pc.Working? ==> v.Run?) && (pc.Finalizing? ==> pc.stage.WantLock?)
            && (pc.Working? || pc.Finalizing?)
  {}

  lemma WorkedPc(n: string, since: nat, phase: Phase, ok: bool)
    ensures var pc := WorkStep(n, since, phase, ok);
            && OwnedName(pc) == Some(n) && pc.name == n && pc.since == since && !IsGc(pc)
            && !IsSyntheticPc(pc) && (pc.Finalizing? ==> pc.stage.WantLock?) && (pc.Working? || pc.Finalizing?)
  {}

  /** An owner moves on to another phase of the same claim. */
  lemma OwnerMovesOn(s: State, a: nat, pc: Pc, n: string)
    requires OwnershipInv(s, n) && a in s.pcs && (s.pcs[a].Claimed? || s.pcs[a].Working?)
    requires !IsGc(pc) && (pc.Working? || (pc.Finalizing? && pc.stage.WantLock?))
    requires pc.name == s.pcs[a].name && pc.since == s.pcs[a].since
    ensures OwnershipInv(s.(pcs := s.pcs[a := pc]), n)
  {
    assert CallInv(s.disk.fs, s.now, s.pcs[a], n);
    ResumeAtKeepsInv(s, a, pc, n);
  }

  lemma JobKeepsInv(s: State, l: Label, n: string)
    requires OwnershipInv(s, n) && Enabled(s, l) && (l.Prepare? || l.Work?)
    ensures OwnershipInv(Apply(s, l), n)
  {
    var pc := s.pcs[l.actor];
    if l.Prepare? {
      PreparedPc(pc.name, pc.since, l.verdict);
      OwnerMovesOn(s, l.actor, PreparePc(pc.name, pc.since, l.verdict), n);
    } else {
      WorkedPc(pc.name, pc.since, pc.phase, l.ok);
      OwnerMovesOn(s, l.actor, WorkStep(pc.name, pc.since, pc.phase, l.ok), n);
    }
  }

  /** Every enabled step keeps the invariant of an id, as long as it does not take
      over a claim of this id that a live call owns. */
  lemma StepKeepsInv(s: State, l: Label, n: string)
    requires Inv(s, n) && SparesOwned(s, l, n) && Enabled(s, l)
    ensures Inv(Apply(s, l), n)
  {
    StepKeepsArchive(s, l);
    match l
    case Act(a) => ActKeepsCalls(s, a, n); ActKeepsOwners(s, a, n);
    case Arrive(m) => ArriveKeepsInv(s, m, n);
    case Wait(d) => WaitKeepsInv(s, d, n);
    case Crash =>
    case Expire(_, _) => ReapKeepsInv(s, l, n);
    case ReapOrphan(_, _) => ReapKeepsInv(s, l, n);
    case BeginClaim(_, _) => BeginKeepsInv(s, l, n);
    case BeginSynthetic(_, _) => BeginKeepsInv(s, l, n);
    case Prepare(_, _) => JobKeepsInv(s, l, n);
    case Work(_, _) => JobKeepsInv(s, l, n);
    case _ => ScanKeepsInv(s, l, n);
  }

  // ---- over runs --------------------------------------------------------

  lemma {:induction false} ReachableInv(t: Trace, i: nat, n: string)
    requires IsTrace(t) && i < |t.states| && Spared(t, n, i)
    ensures Inv(t.states[i], n)
  {
    if i == 0 {
      InitInv(t.states[0], n);
    } else {
      ReachableInv(t, i - 1, n);
      StepKeepsInv(t.states[i - 1], t.labels[i - 1], n);
    }
  }

  lemma ReachableStep(t: Trace, i: nat, n: string)
    requires IsTrace(t) && i < |t.labels| && Spared(t, n, i + 1)
    ensures Inv(t.states[i], n) && Inv(t.states[i + 1], n)
    ensures Enabled(t.states[i], t.labels[i]) && t.states[i + 1] == Apply(t.states[i], t.labels[i])
  {
    ReachableInv(t, i, n);
    ReachableInv(t, i + 1, n);
  }

  /** The call that takes over becomes a second owner. */
  lemma TakeoverSharesClaim(s: State, l: Label, n: string)
    requires Enabled(s, l) && !SparesOwned(s, l, n)
    ensures !UniqueOwner(Apply(s, l).pcs, n)
  {
    var b :| b in s.pcs && OwnedName(s.pcs[b]) == Some(n);
    assert OwnsName(Apply(s, l).pcs[l.actor], n) && OwnsName(Apply(s, l).pcs[b], n);
  }

  /** The hypothesis is exact: up to any state of any run, no two calls ever own
      the claim of an id exactly when no sweep step takes over an owned one. */
  lemma UniqueOwnerExactly(t: Trace, j: nat, n: string)
    requires IsTrace(t) && j < |t.states|
    ensures (forall i :: 0 <= i <= j ==> UniqueOwner(t.states[i].pcs, n)) <==> Spared(t, n, j)
  {
    if Spared(t, n, j) {
      forall i | 0 <= i <= j ensures UniqueOwner(t.states[i].pcs, n) { ReachableInv(t, i, n); }
    } else {
      var k :| 0 <= k < j && !SparesOwned(t.states[k], t.labels[k], n);
      TakeoverSharesClaim(t.states[k], t.labels[k], n);
      assert !UniqueOwner(t.states[k + 1].pcs, n);
    }
  }

  // ---- canonical names --------------------------------------------------

  /** Only jobs under their canonical filename ever reach a worker. */
  ghost predicate CanonInv(pcs: map<nat, Pc>) {
    forall a :: a in pcs && (pcs[a].Working? || IsSyntheticPc(pcs[a])) ==> IsCanonical(pcs[a].name)
  }

  lemma StepReachesWorker(cfg: Config, d: Disk, now: nat, pc: Pc)
    requires IsStepPc(pc)
    ensures var next := Step(cfg, d, now, pc).next;
            next.Some? && (next.value.Working? || IsSyntheticPc(next.value)) ==>
              IsSyntheticPc(pc) && next.value.name == pc.name
  {}

  lemma StepKeepsCanon(s: State, l: Label)
    requires CanonInv(s.pcs) && Enabled(s, l)
    ensures CanonInv(Apply(s, l).pcs)
  {
    if l.Act? { StepReachesWorker(s.cfg, s.disk, s.now, s.pcs[l.actor]); }
    else if l.BeginSynthetic? { FilenameRoundTrip(l.job); }
    else if l.Work? { WorkedPc(s.pcs[l.actor].name, s.pcs[l.actor].since, s.pcs[l.actor].phase, l.ok); }
    else if l.Prepare? { PreparedPc(s.pcs[l.actor].name, s.pcs[l.actor].since, l.verdict); }
  }

  lemma {:induction false} TraceKeepsCanon(t: Trace, i: nat)
    requires IsTrace(t) && i < |t.states|
    ensures CanonInv(t.states[i].pcs)
  {
    if i > 0 {
      TraceKeepsCanon(t, i - 1);
      StepKeepsCanon(t.states[i - 1], t.labels[i - 1]);
    }
  }
}
