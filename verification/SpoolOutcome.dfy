/** Where a claim ends: which archive, over every run of the spool protocol and
    whatever the timing is. */
module SpoolOutcome {
  import opened Names
  import opened SpoolModel
  import opened SpoolArchive
  import opened SpoolInvariant
  import opened SpoolTiming
  import T = Timing

  /** A finalize by the owner of the claim, which still has it. */
  predicate Settling(pc: Pc) { pc.Finalizing? && !pc.byGc && Holding(pc.stage) }

  /** Call `a` has been a worker since it got its claim. */
  predicate Worked(t: Trace, i: nat, a: nat)
    requires At(t, i, a)
  {
    || t.states[i].pcs[a].Working?
    || (i > 0 && At(t, i - 1, a) && OnClock(t.states[i - 1].pcs[a]) && Worked(t, i - 1, a))
  }

  /** How a call gets to a finalize: from an earlier stage of it, from the verdict
      of `prepare`, or from the last phase of its job. */
  lemma SettlingFrom(s: State, l: Label, a: nat)
    requires Enabled(s, l) && a in Apply(s, l).pcs && Settling(Apply(s, l).pcs[a])
    ensures a in s.pcs && OnClock(s.pcs[a])
    ensures var pc, pc' := s.pcs[a], Apply(s, l).pcs[a];
            || (Settling(pc) && pc.dir == pc'.dir)
            || (pc.Claimed? && l.Prepare? && l.actor == a && !l.verdict.Run? && (pc'.dir.DoneDir? <==> l.verdict.Drop?))
            || (pc.Working? && l.Work? && l.actor == a && pc' == WorkStep(pc.name, pc.since, pc.phase, l.ok))
  {}

  // ---- workers ----------------------------------------------------------

  /** The last phase of a job decides: its mint and its VM run both succeeded. */
  lemma LastPhaseDecides(cfg: T.Config, j: T.Job, n: string, since: nat, phase: Phase, ok: bool)
    requires OnPath(cfg, j, Working(n, since, phase)) && EndsAs(cfg, j, phase, ok)
    ensures var next := WorkStep(n, since, phase, ok);
            next.Finalizing? ==> (next.dir.DoneDir? <==> T.Done(cfg, j))
  {}

  lemma {:induction false} AlwaysOnPath(cfg: T.Config, jobs: Jobs, t: Trace, i: nat, a: nat)
    requires IsTrace(t) && FollowsJobs(cfg, jobs, t) && At(t, i, a) && OnClock(t.states[i].pcs[a])
    ensures OnPath(cfg, JobOfCall(t, jobs, i, a), t.states[i].pcs[a])
  {
    if i > 0 {
      if At(t, i - 1, a) && OnClock(t.states[i - 1].pcs[a]) { AlwaysOnPath(cfg, jobs, t, i - 1, a); }
      OneMoreOnPath(cfg, jobs, t, i - 1, a);
    }
  }

  lemma OneMoreOnPath(cfg: T.Config, jobs: Jobs, t: Trace, i: nat, a: nat)
    requires IsTrace(t) && FollowsJobs(cfg, jobs, t) && At(t, i + 1, a) && OnClock(t.states[i + 1].pcs[a])
    requires At(t, i, a) && OnClock(t.states[i].pcs[a]) ==>
               OnPath(cfg, JobOfCall(t, jobs, i, a), t.states[i].pcs[a])
    ensures OnPath(cfg, JobOfCall(t, jobs, i + 1, a), t.states[i + 1].pcs[a])
  {
    var s, l, j := t.states[i], t.labels[i], JobOfCall(t, jobs, i + 1, a);
    assert Faithful(cfg, jobs, t, i);
    if !(At(t, i, a) && s.pcs[a] == t.states[i + 1].pcs[a]) {
      OnlyOwnSteps(s, l, a);
      if l.Act? { StepAdvances(cfg, j, s.cfg, s.disk, s.now, s.pcs[a]); }
      else if l.Work? { WorkAdvances(cfg, j, s.pcs[a].name, s.pcs[a].since, s.pcs[a].phase, l.ok); }
    }
  }

  /** A worker's claim is on its way to `done/` exactly when the job was done. */
  lemma {:induction false} WorkerArchive(cfg: T.Config, jobs: Jobs, t: Trace, i: nat, a: nat)
    requires IsTrace(t) && FollowsJobs(cfg, jobs, t)
    requires At(t, i, a) && Settling(t.states[i].pcs[a]) && Worked(t, i, a)
    ensures t.states[i].pcs[a].dir.DoneDir? <==> T.Done(cfg, JobOfCall(t, jobs, i, a))
  {
    assert i > 0;
    var s, l := t.states[i - 1], t.labels[i - 1];
    assert Enabled(s, l) && t.states[i] == Apply(s, l);
    SettlingFrom(s, l, a);
    if Settling(s.pcs[a]) {
      WorkerArchive(cfg, jobs, t, i - 1, a);
    } else if s.pcs[a].Working? {
      var pc := s.pcs[a];
      AlwaysOnPath(cfg, jobs, t, i - 1, a);
      assert Faithful(cfg, jobs, t, i - 1);
      LastPhaseDecides(cfg, JobOfCall(t, jobs, i - 1, a), pc.name, pc.since, pc.phase, l.ok);
    } else {
      ClaimedIsFresh(t, i - 1, a);
    }
  }

  /** A claim fresh from `try_claim` has not been worked on. */
  lemma {:induction false} ClaimedIsFresh(t: Trace, i: nat, a: nat)
    requires IsTrace(t) && At(t, i, a) && IsFresh(t.states[i].pcs[a])
    ensures !Worked(t, i, a)
  {
    if i > 0 && At(t, i - 1, a) && OnClock(t.states[i - 1].pcs[a]) {
      FreshFrom(t.states[i - 1], t.labels[i - 1], a);
      ClaimedIsFresh(t, i - 1, a);
    }
  }

  predicate IsFresh(pc: Pc) { IsClaimPc(pc) || pc.Claimed? }

  lemma FreshFrom(s: State, l: Label, a: nat)
    requires Enabled(s, l) && a in Apply(s, l).pcs && IsFresh(Apply(s, l).pcs[a]) && a in s.pcs
    ensures IsFresh(s.pcs[a])
  {}

  // ---- claims that are not run ------------------------------------------

  /** A claim that goes to a finalize without having been worked on was judged by
      `prepare`: dropped to `done/`, rejected to `error/`. */
  lemma {:induction false} PreparedArchive(t: Trace, i: nat, a: nat) returns (k: nat)
    requires IsTrace(t) && At(t, i, a) && Settling(t.states[i].pcs[a]) && !Worked(t, i, a)
    ensures k < i && t.labels[k].Prepare? && t.labels[k].actor == a && !t.labels[k].verdict.Run?
    ensures t.states[i].pcs[a].dir.DoneDir? <==> t.labels[k].verdict.Drop?
  {
    assert i > 0;
    var s, l := t.states[i - 1], t.labels[i - 1];
    assert Enabled(s, l) && t.states[i] == Apply(s, l);
    SettlingFrom(s, l, a);
    k := i - 1;
    if Settling(s.pcs[a]) { k := PreparedArchive(t, i - 1, a); }
  }

  /** The sweep only ever archives to `error/`. */
  predicate SweepToError(pc: Pc) { pc.Finalizing? && pc.byGc ==> pc.dir.ErrorDir? }

  lemma SweepStepToError(s: State, l: Label, a: nat)
    requires Enabled(s, l) && a in Apply(s, l).pcs && (a in s.pcs ==> SweepToError(s.pcs[a]))
    ensures SweepToError(Apply(s, l).pcs[a])
  {}

  lemma {:induction false} SweepArchivesErrors(t: Trace, i: nat, a: nat)
    requires IsTrace(t) && At(t, i, a)
    ensures SweepToError(t.states[i].pcs[a])
  {
    if i > 0 {
      if At(t, i - 1, a) { SweepArchivesErrors(t, i - 1, a); }
      SweepStepToError(t.states[i - 1], t.labels[i - 1], a);
    }
  }

  // ---- where the claim lands --------------------------------------------

  /** The step by which a finalize of `n` renames the claim out of `cur/`. */
  predicate Archives(s: State, l: Label, a: nat, n: string) {
    && Enabled(s, l) && l == Act(a) && s.pcs[a].Finalizing? && s.pcs[a].name == n
    && Cur(n) in s.disk.fs && Cur(n) !in Apply(s, l).disk.fs
  }

  /** The record that was `cur/<n>` is now the marker of `n` in `done/` or `error/`. */
  predicate Landed(fs: Tree, fs': Tree, n: string, dir: Dir) {
    var dest := Archive(dir, Marker(n));
    Cur(n) in fs && dest in fs' && fs'[dest].id == fs[Cur(n)].id
  }

  lemma LandsInDir(t: Trace, i: nat, a: nat, n: string)
    requires IsTrace(t) && i < |t.labels| && Archives(t.states[i], t.labels[i], a, n)
    ensures Holding(t.states[i].pcs[a].stage)
    ensures Landed(t.states[i].disk.fs, t.states[i + 1].disk.fs, n, t.states[i].pcs[a].dir)
  {
    assert t.states[i + 1] == Apply(t.states[i], t.labels[i]);
  }

  /** Over every run, for a worker: `done/` if its job was minted and its VM run
      ended well, `error/` otherwise. */
  lemma WorkerLands(cfg: T.Config, jobs: Jobs, t: Trace, i: nat, a: nat, n: string)
    requires IsTrace(t) && FollowsJobs(cfg, jobs, t) && i < |t.labels| && Archives(t.states[i], t.labels[i], a, n)
    requires !t.states[i].pcs[a].byGc && Worked(t, i, a)
    ensures Landed(t.states[i].disk.fs, t.states[i + 1].disk.fs, n,
                   if T.Done(cfg, JobOfCall(t, jobs, i, a)) then DoneDir else ErrorDir)
  {
    LandsInDir(t, i, a, n);
    WorkerArchive(cfg, jobs, t, i, a);
  }

  /** For a claim that was never run: `done/` if `prepare` dropped it, `error/` if it
      rejected it. */
  lemma JudgedLands(t: Trace, i: nat, a: nat, n: string) returns (k: nat)
    requires IsTrace(t) && i < |t.labels| && Archives(t.states[i], t.labels[i], a, n)
    requires !t.states[i].pcs[a].byGc && !Worked(t, i, a)
    ensures k < i && t.labels[k].Prepare? && t.labels[k].actor == a && !t.labels[k].verdict.Run?
    ensures Landed(t.states[i].disk.fs, t.states[i + 1].disk.fs, n,
                   if t.labels[k].verdict.Drop? then DoneDir else ErrorDir)
  {
    LandsInDir(t, i, a, n);
    k := PreparedArchive(t, i, a);
  }

  /** For the sweep: always `error/`. */
  lemma SweptLands(t: Trace, i: nat, a: nat, n: string)
    requires IsTrace(t) && i < |t.labels| && Archives(t.states[i], t.labels[i], a, n) && t.states[i].pcs[a].byGc
    ensures Landed(t.states[i].disk.fs, t.states[i + 1].disk.fs, n, ErrorDir)
  {
    LandsInDir(t, i, a, n);
    SweepArchivesErrors(t, i, a);
  }
}
