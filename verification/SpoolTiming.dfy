/** That an in-flight claim is never expired: the timeouts of `Timing`, phase by
    phase, carried through every run of the spool protocol. */
module SpoolTiming {
  import opened Names
  import opened SpoolModel
  import opened SpoolArchive
  import opened SpoolInvariant
  import T = Timing

  // ---- ownership under expiry -------------------------------------------

  /** No live owner has held its claim for longer than the expiry threshold. */
  ghost predicate Timely(s: State) {
    forall a :: a in s.pcs && OwnedName(s.pcs[a]).Some? && !IsGc(s.pcs[a]) ==>
      AgeSecs(s.now, s.pcs[a].since) <= s.cfg.maxAgeSecs
  }

  /** A claim old enough to expire has no live owner: the heart of the argument
      that an in-flight job is never reaped by age. */
  lemma OverdueIsOrphaned(s: State, a: nat, n: string)
    requires CallsInv(s, n) && Timely(s) && Enabled(s, Expire(a, n))
    ensures Orphaned(s, n)
  {
    forall b | b in s.pcs ensures OwnedName(s.pcs[b]) != Some(n) {
      assert CallInv(s.disk.fs, s.now, s.pcs[b], n);
    }
  }

  // ---- hypotheses on a run ----------------------------------------------

  /** A call whose claim is aging: from the stamp on the file in `new/`, or the
      staging of a synthetic record, until the claim has left `cur/`. */
  predicate OnClock(pc: Pc) { pc.Take? || pc.SynTake? || (OwnedName(pc).Some? && !IsGc(pc)) }

  /** The seconds a call may stay at `pc` while doing job `j`. Local filesystem
      steps take no time. */
  function Allowance(cfg: T.Config, j: T.Job, pc: Pc): nat {
    if !pc.Working? then 0
    else
      match pc.phase
      case Minting => if j.validName then T.CallTime(j.mint, cfg.apiTimeout) else 0
      case DrivingVm => T.VmTime(cfg, j)
      case Capturing(_) => T.Took(j.serialList, T.LIST_TIMEOUT)
      case TearingDown(_) => T.RemovalTime(cfg, j)
      case Checking => if cfg.completionCheck then T.CallTime(j.status, cfg.apiTimeout) else 0
  }

  /** How the job says a phase ends; the other phases always go on. */
  predicate EndsAs(cfg: T.Config, j: T.Job, phase: Phase, ok: bool) {
    match phase
    case Minting => ok == (j.validName && j.mint.succeeds)
    case DrivingVm => ok == T.VmOk(cfg, j)
    case _ => true
  }

  /** The clock when call `a` came to where it is at state `i`. */
  function Entered(t: Trace, i: nat, a: nat): nat
    requires At(t, i, a)
  {
    if i > 0 && At(t, i - 1, a) && t.states[i - 1].pcs[a] == t.states[i].pcs[a] then Entered(t, i - 1, a)
    else t.states[i].now
  }

  /** The state at which the clock of call `a` started. */
  function Began(t: Trace, i: nat, a: nat): nat
    requires At(t, i, a)
  {
    if i > 0 && At(t, i - 1, a) && OnClock(t.states[i - 1].pcs[a]) then Began(t, i - 1, a) else i
  }

  /** What the environment does to each call, fixed when its clock starts. */
  type Jobs = (nat, nat) -> T.Job

  function JobOfCall(t: Trace, jobs: Jobs, i: nat, a: nat): T.Job
    requires At(t, i, a)
  {
    jobs(a, Began(t, i, a))
  }

  /** No call has been where it is for longer than its job allows there. */
  ghost predicate Punctual(cfg: T.Config, jobs: Jobs, t: Trace, i: nat, a: nat) {
    At(t, i, a) && OnClock(t.states[i].pcs[a]) ==>
      t.states[i].now <= Entered(t, i, a) + 1000 * Allowance(cfg, JobOfCall(t, jobs, i, a), t.states[i].pcs[a])
  }

  ghost predicate Faithful(cfg: T.Config, jobs: Jobs, t: Trace, i: nat) {
    i < |t.labels| && t.labels[i].Work? && At(t, i, t.labels[i].actor) ==>
      var pc, job := t.states[i].pcs[t.labels[i].actor], JobOfCall(t, jobs, i, t.labels[i].actor);
      pc.Working? ==> EndsAs(cfg, job, pc.phase, t.labels[i].ok)
  }

  /** Each phase of each worker ends as its job says. */
  ghost predicate FollowsJobs(cfg: T.Config, jobs: Jobs, t: Trace) { forall i: nat :: Faithful(cfg, jobs, t, i) }

  /** Every call stays within the timeouts of its job, phase by phase, and waits for
      the installation id no longer than the slack of the request budget; and the
      clock fits the ages of a `u64`. */
  ghost predicate WithinTimeouts(cfg: T.Config, jobs: Jobs, t: Trace) {
    && (forall a, k :: T.Plausible(jobs(a, k)) && jobs(a, k).mint.wait <= T.Slack(cfg))
    && (forall i: nat, a: nat :: Punctual(cfg, jobs, t, i, a))
    && FollowsJobs(cfg, jobs, t)
    && (forall i :: 0 <= i < |t.states| ==> t.states[i].now / 1000 < U64_LIMIT)
    && t.states != [] && t.states[0].cfg.maxAgeSecs == T.CurClaimMaxAgeSecs(cfg)
  }

  // ---- the time spent so far --------------------------------------------

  /** The seconds a job can have taken by the time its call comes to `pc`. */
  function Spent(cfg: T.Config, j: T.Job, pc: Pc): nat {
    if pc.Finalizing? then T.JobTime(cfg, j)
    else if !pc.Working? || pc.phase.Minting? then 0
    else
      var minted := T.CallTime(j.mint, cfg.apiTimeout);
      match pc.phase
      case DrivingVm => minted
      case Capturing(_) => minted + T.VmTime(cfg, j)
      case TearingDown(_) => minted + T.VmTime(cfg, j) + T.Took(j.serialList, T.LIST_TIMEOUT)
      case Checking => minted + T.VmTime(cfg, j) + T.TeardownTime(cfg, j)
  }

  /** A call is where its job lets it come. */
  predicate OnPath(cfg: T.Config, j: T.Job, pc: Pc) {
    pc.Working? ==>
      && (!pc.phase.Minting? ==> j.validName && j.mint.succeeds)
      && (pc.phase.Capturing? || pc.phase.TearingDown? ==> pc.phase.ok == T.VmOk(cfg, j))
      && (pc.phase.Checking? ==> T.VmOk(cfg, j))
  }

  lemma WorkAdvances(cfg: T.Config, j: T.Job, n: string, since: nat, phase: Phase, ok: bool)
    requires OnPath(cfg, j, Working(n, since, phase)) && EndsAs(cfg, j, phase, ok)
    ensures var pc, next := Working(n, since, phase), WorkStep(n, since, phase, ok);
            && OnPath(cfg, j, next)
            && Spent(cfg, j, pc) + Allowance(cfg, j, pc) <= Spent(cfg, j, next)
  {}

  lemma StepAdvances(cfg: T.Config, j: T.Job, scfg: Config, d: Disk, now: nat, pc: Pc)
    requires IsStepPc(pc)
    ensures var next := Step(scfg, d, now, pc).next;
            next.Some? && OnClock(next.value) ==>
              && OnPath(cfg, j, next.value)
              && (if OnClock(pc) then next.value.since == pc.since && Spent(cfg, j, pc) <= Spent(cfg, j, next.value)
                  else next.value.since == now)
  {}

  /** Only a call's own step moves it, and time stands still meanwhile. */
  lemma OnlyOwnSteps(s: State, l: Label, a: nat)
    requires Enabled(s, l) && a in Apply(s, l).pcs && OnClock(Apply(s, l).pcs[a])
    requires !(a in s.pcs && s.pcs[a] == Apply(s, l).pcs[a])
    ensures (l.Act? || l.Prepare? || l.Work?) && l.actor == a && a in s.pcs && Apply(s, l).now == s.now
  {}

  /** No call came to where it is later than its job allows. */
  ghost predicate InTime(cfg: T.Config, jobs: Jobs, t: Trace, i: nat, a: nat)
    requires At(t, i, a) && OnClock(t.states[i].pcs[a])
  {
    var pc, j := t.states[i].pcs[a], JobOfCall(t, jobs, i, a);
    OnPath(cfg, j, pc) && Entered(t, i, a) <= pc.since + 1000 * Spent(cfg, j, pc)
  }

  lemma MovedInTime(cfg: T.Config, jobs: Jobs, t: Trace, i: nat, a: nat)
    requires IsTrace(t) && WithinTimeouts(cfg, jobs, t)
    requires At(t, i + 1, a) && OnClock(t.states[i + 1].pcs[a])
    requires !(At(t, i, a) && t.states[i].pcs[a] == t.states[i + 1].pcs[a])
    requires At(t, i, a) && OnClock(t.states[i].pcs[a]) ==> InTime(cfg, jobs, t, i, a)
    ensures InTime(cfg, jobs, t, i + 1, a)
  {
    var s, l := t.states[i], t.labels[i];
    OnlyOwnSteps(s, l, a);
    var pc, next, j := s.pcs[a], t.states[i + 1].pcs[a], JobOfCall(t, jobs, i + 1, a);
    assert Punctual(cfg, jobs, t, i, a) && Faithful(cfg, jobs, t, i);
    if l.Act? { StepAdvances(cfg, j, s.cfg, s.disk, s.now, pc); }
    else if l.Work? { WorkAdvances(cfg, j, pc.name, pc.since, pc.phase, l.ok); }
  }

  lemma {:induction false} AlwaysInTime(cfg: T.Config, jobs: Jobs, t: Trace, i: nat, a: nat)
    requires IsTrace(t) && WithinTimeouts(cfg, jobs, t)
    requires At(t, i, a) && OnClock(t.states[i].pcs[a])
    ensures InTime(cfg, jobs, t, i, a)
  {
    if i > 0 {
      if At(t, i - 1, a) && OnClock(t.states[i - 1].pcs[a]) { AlwaysInTime(cfg, jobs, t, i - 1, a); }
      if !(At(t, i - 1, a) && t.states[i - 1].pcs[a] == t.states[i].pcs[a]) { MovedInTime(cfg, jobs, t, i - 1, a); }
    }
  }

  // ---- theorems ---------------------------------------------------------

  lemma {:induction false} ConfigFixed(t: Trace, i: nat)
    requires IsTrace(t) && i < |t.states|
    ensures t.states[i].cfg == t.states[0].cfg
  {
    if i > 0 {
      ConfigFixed(t, i - 1);
      assert t.states[i] == Apply(t.states[i - 1], t.labels[i - 1]);
    }
  }

  /** The age of a live owner's claim, in every state of the run. */
  lemma ClaimAgeBounded(cfg: T.Config, jobs: Jobs, t: Trace, i: nat, a: nat)
    requires IsTrace(t) && WithinTimeouts(cfg, jobs, t)
    requires At(t, i, a) && OnClock(t.states[i].pcs[a])
    ensures var s, j := t.states[i], JobOfCall(t, jobs, i, a);
            AgeSecs(s.now, s.pcs[a].since) <= T.JobTime(cfg, j) <= T.UnboundedMaxAge(cfg)
  {
    var j := JobOfCall(t, jobs, i, a);
    AlwaysInTime(cfg, jobs, t, i, a);
    assert Punctual(cfg, jobs, t, i, a);
    T.JobTimeBounded(cfg, j);
  }

  /** Workers that stay within their timeouts phase by phase are never overdue. */
  lemma TimeoutsGiveTimely(cfg: T.Config, jobs: Jobs, t: Trace)
    requires IsTrace(t) && WithinTimeouts(cfg, jobs, t)
    ensures forall i :: 0 <= i < |t.states| ==> Timely(t.states[i])
  {
    forall i | 0 <= i < |t.states| ensures Timely(t.states[i]) {
      var s := t.states[i];
      ConfigFixed(t, i);
      forall a | a in s.pcs && OwnedName(s.pcs[a]).Some? && !IsGc(s.pcs[a])
        ensures AgeSecs(s.now, s.pcs[a].since) <= s.cfg.maxAgeSecs
      {
        ClaimAgeBounded(cfg, jobs, t, i, a);
        T.SaturatingNeverReapsEarlier(cfg, AgeSecs(s.now, s.pcs[a].since));
      }
    }
  }

  /** The sweep finalizes a claim of `n` for want of a VM or for a stale image only
      if no call owns it. */
  ghost predicate ReapSpares(s: State, l: Label, n: string) { l.ReapOrphan? && l.name == n ==> Orphaned(s, n) }

  /** So in a run whose calls stay within their timeouts no expiry ever takes over
      an owned claim: the hypothesis of the spool theorems then only asks that no
      reap does. */
  lemma {:induction false} TimeoutsSpareOwned(cfg: T.Config, jobs: Jobs, t: Trace, n: string, j: nat)
    requires IsTrace(t) && WithinTimeouts(cfg, jobs, t) && j < |t.states|
    requires forall k :: 0 <= k < j ==> ReapSpares(t.states[k], t.labels[k], n)
    ensures Spared(t, n, j)
  {
    if j > 0 {
      TimeoutsSpareOwned(cfg, jobs, t, n, j - 1);
      ReachableInv(t, j - 1, n);
      TimeoutsGiveTimely(cfg, jobs, t);
      var s, l := t.states[j - 1], t.labels[j - 1];
      assert ReapSpares(s, l, n);
      if l.Expire? && l.name == n { OverdueIsOrphaned(s, l.actor, n); }
    }
  }

  /** No run whose calls stay within their timeouts expires a claim that a live
      call owns, if no reap has taken over a claim of this id before. */
  lemma NeverExpiresLiveClaim(cfg: T.Config, jobs: Jobs, t: Trace, i: nat)
    requires IsTrace(t) && WithinTimeouts(cfg, jobs, t) && i < |t.labels| && t.labels[i].Expire?
    requires forall k :: 0 <= k < i ==> ReapSpares(t.states[k], t.labels[k], t.labels[i].name)
    ensures Orphaned(t.states[i], t.labels[i].name)
  {
    var n := t.labels[i].name;
    TimeoutsSpareOwned(cfg, jobs, t, n, i);
    ReachableInv(t, i, n);
    TimeoutsGiveTimely(cfg, jobs, t);
    OverdueIsOrphaned(t.states[i], t.labels[i].actor, n);
  }
}
