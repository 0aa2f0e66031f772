/** The race between minting runners and the sweep that deletes orphaned runner
    registrations. A sweep lists runners page by page and then reads `cur/` entry
    by entry, while workers claim, mint, appear on GitHub and release. */
module RunnerReap {
  import opened Names
  import Runs

  datatype Runner = Runner(id: nat, name: string, online: bool, busy: bool)

  // ---- the plan ---------------------------------------------------------

  predicate IsOrphan(r: Runner, live: set<string>) {
    IsManagedVmName(r.name) && r.name !in live && (!r.online || !r.busy)
  }

  /** `None`: `cur/` could not be read. */
  function PlanRunnerReaps(runners: seq<Runner>, live: Option<set<string>>): (plan: seq<Runner>)
    ensures forall r :: r in plan <==> live.Some? && r in runners && IsOrphan(r, live.value)
  {
    if live.None? || runners == [] then []
    else
      var rest := PlanRunnerReaps(runners[1..], live);
      if IsOrphan(runners[0], live.value) then [runners[0]] + rest else rest
  }

  // ---- the transition system --------------------------------------------

  type Worker = nat

  /** A registration: whose it is, and whether GitHub lists it yet. */
  datatype Registration = Registration(name: string, worker: Worker, visible: bool, online: bool, busy: bool)

  /** While scanning, `must` are the claims present since the scan began and
      `ever` those present at any time since; a directory scan returns all of the
      former and some of the latter. */
  datatype Sweep =
    | Idle
    | Listing(listed: seq<Runner>, reapedStale: set<string>)
    | Scanning(listed: seq<Runner>, reapedStale: set<string>, must: set<string>, ever: set<string>)
    | Deleting(plan: seq<Runner>, reapedStale: set<string>)

  /** `cur` maps the VM name of each claim to the worker that holds it; `claimed`
      is the name every worker so far has claimed; `issued` remembers every
      registration ever made, `github` those that still exist. */
  datatype State = State(
    cur: map<string, Worker>, claimed: map<Worker, string>,
    issued: map<nat, Worker>, github: map<nat, Registration>, sweep: Sweep)

  datatype Label =
    | Claim(worker: Worker, job: U64) | Mint(worker: Worker, reg: nat) | Appear(reg: nat)
    | Change(reg: nat, online: bool, busy: bool) | Deregister(reg: nat) | Release(name: string)
    | BeginList(reapedStale: set<string>) | ListOne(reg: nat) | BeginScan
    | EndScan(seen: set<string>) | ScanFails | Delete(index: nat) | EndSweep

  predicate Enabled(s: State, l: Label) {
    match l
    case Claim(w, job) => w !in s.claimed && VmName(job) !in s.cur
    case Mint(w, reg) => w in s.claimed && reg !in s.issued
    case Appear(reg) => reg in s.github
    case Change(reg, _, _) => reg in s.github
    case Deregister(reg) => reg in s.github
    case Release(name) => name in s.cur
    case BeginList(_) => s.sweep.Idle?
    case ListOne(reg) => s.sweep.Listing? && reg in s.github && s.github[reg].visible
    case BeginScan => s.sweep.Listing?
    case EndScan(seen) => s.sweep.Scanning? && s.sweep.must <= seen <= s.sweep.ever
    case ScanFails => s.sweep.Scanning?
    case Delete(i) => s.sweep.Deleting? && i < |s.sweep.plan|
    case EndSweep => s.sweep.Deleting?
  }

  function Apply(s: State, l: Label): State
    requires Enabled(s, l)
  {
    match l
    case Claim(w, job) =>
      var name := VmName(job);
      s.(cur := s.cur[name := w], claimed := s.claimed[w := name],
         sweep := if s.sweep.Scanning? then s.sweep.(ever := s.sweep.ever + {name}) else s.sweep)
    case Mint(w, reg) =>
      s.(issued := s.issued[reg := w], github := s.github[reg := Registration(s.claimed[w], w, false, false, false)])
    case Appear(reg) => s.(github := s.github[reg := s.github[reg].(visible := true)])
    case Change(reg, online, busy) => s.(github := s.github[reg := s.github[reg].(online := online, busy := busy)])
    case Deregister(reg) => s.(github := s.github - {reg})
    case Release(name) =>
      s.(cur := s.cur - {name},
         sweep := if s.sweep.Scanning? then s.sweep.(must := s.sweep.must - {name}) else s.sweep)
    case BeginList(stale) => s.(sweep := Listing([], stale))
    case ListOne(reg) =>
      var g := s.github[reg];
      s.(sweep := Listing(s.sweep.listed + [Runner(reg, g.name, g.online, g.busy)], s.sweep.reapedStale))
    case BeginScan => s.(sweep := Scanning(s.sweep.listed, s.sweep.reapedStale, s.cur.Keys, s.cur.Keys))
    case EndScan(seen) =>
      s.(sweep := Deleting(PlanRunnerReaps(s.sweep.listed, Some(seen - s.sweep.reapedStale)), s.sweep.reapedStale))
    case ScanFails => s.(sweep := Deleting(PlanRunnerReaps(s.sweep.listed, None), s.sweep.reapedStale))
    case Delete(i) => s.(github := s.github - {s.sweep.plan[i].id})
    case EndSweep => s.(sweep := Idle)
  }

  // ---- the invariant ----------------------------------------------------

  predicate HoldsClaim(s: State, w: Worker) { w in s.claimed && s.claimed[w] in s.cur && s.cur[s.claimed[w]] == w }

  /** A listed runner belongs to a worker that had claimed its name before. */
  predicate Backed(s: State, r: Runner) {
    r.id in s.issued && s.issued[r.id] in s.claimed && s.claimed[s.issued[r.id]] == r.name
  }

  ghost predicate SweepInv(s: State) {
    match s.sweep
    case Idle => true
    case Listing(listed, _) => forall r :: r in listed ==> Backed(s, r)
    case Scanning(listed, _, must, ever) =>
      must <= ever
      && forall r :: r in listed ==> Backed(s, r) && (HoldsClaim(s, s.issued[r.id]) ==> r.name in must)
    case Deleting(plan, stale) =>
      forall r :: r in plan ==> Backed(s, r) && (HoldsClaim(s, s.issued[r.id]) ==> r.name in stale)
  }

  /** A registration knows its worker, and bears the name that worker claimed. */
  ghost predicate RegistryInv(s: State) {
    && (forall reg :: reg in s.github ==>
          reg in s.issued && s.issued[reg] == s.github[reg].worker
          && s.github[reg].worker in s.claimed && s.claimed[s.github[reg].worker] == s.github[reg].name)
    && (forall reg :: reg in s.issued ==> s.issued[reg] in s.claimed)
  }

  ghost predicate Inv(s: State) { RegistryInv(s) && SweepInv(s) }

  /** Any claims, and any registrations left by the workers of a predecessor. */
  ghost predicate Init(s: State) { RegistryInv(s) && s.sweep.Idle? }

  lemma StepKeepsBacking(s: State, l: Label, r: Runner)
    requires Inv(s) && Enabled(s, l) && Backed(s, r)
    ensures Backed(Apply(s, l), r) && Apply(s, l).issued[r.id] == s.issued[r.id]
    ensures HoldsClaim(Apply(s, l), s.issued[r.id]) ==> HoldsClaim(s, s.issued[r.id])
  {}

  lemma StepKeepsInv(s: State, l: Label)
    requires Inv(s) && Enabled(s, l)
    ensures Inv(Apply(s, l))
  {
    forall r | Backed(s, r)
      ensures Backed(Apply(s, l), r) && Apply(s, l).issued[r.id] == s.issued[r.id]
      ensures HoldsClaim(Apply(s, l), s.issued[r.id]) ==> HoldsClaim(s, s.issued[r.id])
    {
      StepKeepsBacking(s, l, r);
    }
  }

  // ---- runs -------------------------------------------------------------

  function Moves(s: State, l: Label): Option<State> { if Enabled(s, l) then Some(Apply(s, l)) else None }

  ghost predicate Reaches(s: State, s': State) { Runs.Reaches(Moves, s, s') }

  lemma {:induction false} RunKeepsInv(s: State, labels: seq<Label>, s': State)
    requires Inv(s) && Runs.RunsTo(Moves, s, labels, s')
    ensures Inv(s')
    decreases |labels|
  {
    if labels != [] {
      StepKeepsInv(s, labels[0]);
      RunKeepsInv(Apply(s, labels[0]), labels[1..], s');
    }
  }

  lemma ReachableInv(s: State, s': State)
    requires Init(s) && Reaches(s, s')
    ensures Inv(s')
  {
    var labels :| Runs.RunsTo(Moves, s, labels, s');
    RunKeepsInv(s, labels, s');
  }

  /** What a sweep deletes: of the runners it listed, exactly the managed ones
      that were offline or idle, whose name the scan did not see or the sweep has
      reaped; and nothing when `cur/` could not be read. */
  lemma PlanAtEndOfScan(s: State, l: Label)
    requires Enabled(s, l) && s.sweep.Scanning?
    ensures l.ScanFails? ==> Apply(s, l).sweep.plan == []
    ensures l.EndScan? ==>
              forall r :: r in Apply(s, l).sweep.plan <==>
                r in s.sweep.listed && IsManagedVmName(r.name) && (r.name in l.seen ==> r.name in s.sweep.reapedStale)
                && (!r.online || !r.busy)
  {}

  /** In every interleaving, and whatever a predecessor left behind, a registration
      that a sweep may delete belongs to a worker that holds no claim, unless the
      sweep has destroyed its VM itself. */
  lemma LiveRunnersNeverDeleted(s: State, s': State, i: nat)
    requires Init(s) && Reaches(s, s') && s'.sweep.Deleting? && i < |s'.sweep.plan|
    requires s'.sweep.plan[i].name !in s'.sweep.reapedStale
    ensures var reg := s'.sweep.plan[i].id;
            reg in s'.issued && !HoldsClaim(s', s'.issued[reg])
  {
    ReachableInv(s, s');
    assert s'.sweep.plan[i] in s'.sweep.plan;
  }

  /** Over every run, a step after which a registration is gone is its own end, or
      finds its worker without a claim, or finds its name among the VMs that the
      sweep has destroyed. */
  lemma RegistrationsRemovedOnlyUnclaimed(s: State, s': State, l: Label, reg: nat)
    requires Init(s) && Reaches(s, s') && Enabled(s', l) && reg in s'.github && reg !in Apply(s', l).github
    ensures || l == Deregister(reg)
            || !HoldsClaim(s', s'.github[reg].worker)
            || (s'.sweep.Deleting? && s'.github[reg].name in s'.sweep.reapedStale)
  {
    ReachableInv(s, s');
    if l.Delete? {
      assert s'.sweep.plan[l.index] in s'.sweep.plan;
      assert Backed(s', s'.sweep.plan[l.index]);
    }
  }

  // ---- what the reaped names cost ---------------------------------------

  /** Exactly which runners of live workers a sweep plans to delete: the managed
      ones, offline or idle, whose name is among the VMs that it reaped. */
  lemma LiveRunnersPlannedExactly(s: State, s': State, l: Label, r: Runner)
    requires Init(s) && Reaches(s, s') && Enabled(s', l) && l.EndScan?
    requires r in s'.sweep.listed && r.id in s'.issued && HoldsClaim(s', s'.issued[r.id])
    ensures r in Apply(s', l).sweep.plan
            <==> r.name in s'.sweep.reapedStale && IsManagedVmName(r.name) && (!r.online || !r.busy)
  {
    ReachableInv(s, s');
    PlanAtEndOfScan(s', l);
  }

  lemma Next(s: State, t: State, l: Label) returns (t': State)
    requires Reaches(s, t) && Enabled(t, l)
    ensures t' == Apply(t, l) && Reaches(s, t')
  {
    t' := Runs.Next(Moves, s, t, l);
  }

  const EMPTY: State := State(map[], map[], map[], map[], Idle)

  /** Worker 1 holds the claim of `job` and has registration 5. */
  function Reminted(job: U64, visible: bool, sweep: Sweep): State {
    var name := VmName(job);
    State(map[name := 1], map[0 := name, 1 := name], map[5 := 1],
          map[5 := Registration(name, 1, visible, false, false)], sweep)
  }

  /** The sweep has reaped the VM of worker 0, whose claim is finalized; the job is
      claimed and minted again under the same name. */
  lemma MintsAgain(job: U64) returns (t: State)
    ensures Reaches(EMPTY, t) && t == Reminted(job, false, Listing([], {VmName(job)}))
  {
    assert Runs.RunsTo(Moves, EMPTY, [], EMPTY);
    t := Next(EMPTY, EMPTY, Claim(0, job));
    t := Next(EMPTY, t, Release(VmName(job)));
    t := Next(EMPTY, t, BeginList({VmName(job)}));
    t := Next(EMPTY, t, Claim(1, job));
    t := Next(EMPTY, t, Mint(1, 5));
  }

  lemma AppearsAgain(job: U64) returns (t: State)
    ensures Reaches(EMPTY, t) && t == Reminted(job, true, Listing([], {VmName(job)}))
  {
    t := MintsAgain(job);
    t := Next(EMPTY, t, Appear(5));
    assert t.github == Reminted(job, true, Idle).github;
  }

  lemma ListsAgain(job: U64) returns (t: State)
    ensures Reaches(EMPTY, t)
    ensures t == Reminted(job, true, Listing([Runner(5, VmName(job), false, false)], {VmName(job)}))
  {
    t := AppearsAgain(job);
    assert [] + [Runner(5, VmName(job), false, false)] == [Runner(5, VmName(job), false, false)];
    t := Next(EMPTY, t, ListOne(5));
  }

  lemma ScansAgain(job: U64) returns (t: State)
    ensures Reaches(EMPTY, t)
    ensures var name := VmName(job);
            t == Reminted(job, true, Scanning([Runner(5, name, false, false)], {name}, {name}, {name}))
  {
    t := ListsAgain(job);
    t := Next(EMPTY, t, BeginScan);
    assert t.cur.Keys == {VmName(job)};
  }

  /** Although the sweep's own finalize succeeded, and its scan sees the new claim:
      a job minted again during the sweep, under its deterministic name, loses its
      registration while its worker holds the claim. */
  lemma RemintedRunnerDeleted(job: U64) returns (t: State)
    ensures Reaches(EMPTY, t) && Enabled(t, Delete(0)) && 5 in t.github
    ensures HoldsClaim(t, t.github[5].worker) && 5 !in Apply(t, Delete(0)).github
  {
    var name, r := VmName(job), Runner(5, VmName(job), false, false);
    t := ScansAgain(job);
    ManagedNamesAreExactlyVmNames(name);
    PlanAtEndOfScan(t, EndScan({name}));
    t := Next(EMPTY, t, EndScan({name}));
    assert r in t.sweep.plan && t.sweep.plan[0] in t.sweep.plan;
  }
}
