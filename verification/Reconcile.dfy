/** One pass of the reconciler over GitHub's queue: mint a runner for every
    queued job of ours that nothing covers, as permits allow. */
module Reconcile {
  import opened Names
  import opened SpoolModel
  import opened SpoolCalls
  import opened RunnerReap

  // ---- the label policy -------------------------------------------------

  function LowerChar(c: char): char { if 'A' <= c <= 'Z' then c + ' ' else c }

  function Lower(s: string): (r: string)
    ensures |r| == |s| && forall i :: 0 <= i < |s| ==> r[i] == LowerChar(s[i])
  {
    if s == "" then "" else [LowerChar(s[0])] + Lower(s[1..])
  }

  predicate EqIgnoreCase(a: string, b: string) { Lower(a) == Lower(b) }

  predicate AnyMatches(labels: seq<string>, wanted: string) {
    exists i :: 0 <= i < |labels| && EqIgnoreCase(labels[i], wanted)
  }

  /** `classify_job_labels`: the gate label is present, and every label advertised. */
  predicate Accepts(labels: seq<string>, gate: string, advertised: seq<string>) {
    AnyMatches(labels, gate) && forall i :: 0 <= i < |labels| ==> AnyMatches(advertised, labels[i])
  }

  /** The same letter but for its case, in ASCII, or the same character. */
  predicate SameLetter(a: char, b: char) {
    a == b || ('A' <= a <= 'Z' && b as int == a as int + 32) || ('A' <= b <= 'Z' && a as int == b as int + 32)
  }

  predicate SameSpelling(a: string, b: string) { |a| == |b| && forall i :: 0 <= i < |a| ==> SameLetter(a[i], b[i]) }

  /** `eq_ignore_ascii_case` compares letter by letter, up to the case of ASCII
      letters and nothing else. */
  lemma EqIgnoreCaseExactly(a: string, b: string)
    ensures EqIgnoreCase(a, b) <==> SameSpelling(a, b)
  {
    if SameSpelling(a, b) { assert Lower(a) == Lower(b); }
    if EqIgnoreCase(a, b) {
      forall i | 0 <= i < |a| ensures SameLetter(a[i], b[i]) { assert Lower(a)[i] == Lower(b)[i]; }
    }
  }

  ghost predicate Spelled(labels: seq<string>, wanted: string) {
    exists l :: l in labels && SameSpelling(l, wanted)
  }

  lemma AnyMatchesExactly(labels: seq<string>, wanted: string)
    ensures AnyMatches(labels, wanted) <==> Spelled(labels, wanted)
  {
    forall l ensures EqIgnoreCase(l, wanted) <==> SameSpelling(l, wanted) { EqIgnoreCaseExactly(l, wanted); }
  }

  /** The policy in terms of the labels themselves: one of them is the gate, and
      each is advertised, however either side spells it. */
  lemma AcceptsExactly(labels: seq<string>, gate: string, advertised: seq<string>)
    ensures Accepts(labels, gate, advertised) <==>
              Spelled(labels, gate) && forall l :: l in labels ==> Spelled(advertised, l)
  {
    AnyMatchesExactly(labels, gate);
    forall l ensures AnyMatches(advertised, l) <==> Spelled(advertised, l) { AnyMatchesExactly(advertised, l); }
  }

  /** GitHub matches labels case-insensitively, and so does the verdict: no
      respelling of a job's labels changes it. */
  lemma CaseNeverMatters(labels: seq<string>, respelled: seq<string>, gate: string, advertised: seq<string>)
    requires |labels| == |respelled| && forall i :: 0 <= i < |labels| ==> SameSpelling(labels[i], respelled[i])
    ensures Accepts(labels, gate, advertised) <==> Accepts(respelled, gate, advertised)
  {
    forall i | 0 <= i < |labels| ensures EqIgnoreCase(labels[i], respelled[i]) {
      EqIgnoreCaseExactly(labels[i], respelled[i]);
    }
    assert AnyMatches(labels, gate) <==> AnyMatches(respelled, gate);
    forall i | 0 <= i < |labels| ensures AnyMatches(advertised, labels[i]) <==> AnyMatches(advertised, respelled[i]) {
      assert EqIgnoreCase(labels[i], respelled[i]);
    }
  }

  // ---- the pass ---------------------------------------------------------

  datatype Job = Job(id: U64, labels: seq<string>)

  /** One allowed repository and what GitHub answers about it; `None` is an error. */
  datatype Repo = Repo(validName: bool, runners: Option<seq<Runner>>, queued: Option<seq<Job>>)

  datatype Config = Config(gate: string, advertised: seq<string>)

  /** The rest of the daemon during the pass: is it paused at the `k`-th look at
      the flag, which webhook jobs does the dispatcher claim before it, and which
      synthetic claims fail to be written. */
  datatype Env = Env(paused: nat -> bool, arrivals: nat -> seq<U64>, writeFails: U64 -> bool)

  datatype End = Finished | Paused | Full

  predicate CanServe(r: Runner) { r.online && !r.busy }

  /** The managed runners that can still pick up a job. */
  function IdleNames(runners: seq<Runner>): set<string> {
    set r | r in runners && IsManagedVmName(r.name) && CanServe(r) :: r.name
  }

  predicate ShouldMint(vm: string, live: set<string>, idle: set<string>) { vm !in live && vm !in idle }

  /** Some claim file in `cur/` stands for job `id`. */
  ghost predicate HasClaim(fs: Tree, id: U64) { exists n :: Cur(n) in fs && ParseSpoolFilename(n) == Some(id) }

  /** `live` was read off `cur/`. */
  ghost predicate ReadFrom(live: set<string>, fs: Tree) {
    forall id: U64 :: VmName(id) in live ==> HasClaim(fs, id)
  }

  ghost predicate CurGrows(fs: Tree, fs': Tree) { forall n :: Cur(n) in fs ==> Cur(n) in fs' }

  /** The claim files in `cur/`. */
  function Claims(fs: Tree): set<Path> { set p | p in fs && p.Cur? }

  lemma OneClaimMore(d: Disk, now: nat, n: string)
    ensures var (claimed, d') := SyntheticOutcome(d, now, n);
            |Claims(d'.fs)| == |Claims(d.fs)| + if claimed then 1 else 0
  {
    if Cur(n) !in d.fs { assert Claims(SyntheticOutcome(d, now, n).1.fs) == Claims(d.fs) + {Cur(n)}; }
  }

  lemma CanonicalClaims(fs: Tree, id: U64)
    requires Cur(CanonicalFilename(id)) in fs
    ensures HasClaim(fs, id)
  {
    FilenameRoundTrip(id);
  }

  /** A registered runner of the job, under its deterministic name, is online and
      without a job. */
  ghost predicate HasIdleRunner(repo: Repo, id: U64) {
    repo.runners.Some? && exists r :: r in repo.runners.value && r.name == VmName(id) && r.online && !r.busy
  }

  lemma IdleNamesExactly(repo: Repo, id: U64)
    ensures repo.runners.Some? ==> (VmName(id) in IdleNames(repo.runners.value) <==> HasIdleRunner(repo, id))
  {
    ManagedNamesAreExactlyVmNames(VmName(id));
  }

  /** What the pass owes a queued job: a claim, an idle runner, or a policy or an
      error that excuses it. */
  ghost predicate Served(cfg: Config, env: Env, repo: Repo, job: Job, fs: Tree) {
    || !Accepts(job.labels, cfg.gate, cfg.advertised)
    || HasClaim(fs, job.id)
    || HasIdleRunner(repo, job.id)
    || env.writeFails(job.id)
  }

  ghost predicate RepoServed(cfg: Config, env: Env, repo: Repo, fs: Tree) {
    repo.validName && repo.runners.Some? && repo.queued.Some? ==>
      forall job :: job in repo.queued.value ==> Served(cfg, env, repo, job, fs)
  }

  lemma GrowthKeepsServed(cfg: Config, env: Env, repo: Repo, job: Job, fs: Tree, fs': Tree)
    requires CurGrows(fs, fs') && Served(cfg, env, repo, job, fs)
    ensures Served(cfg, env, repo, job, fs')
  {}

  /** A job of ours that nothing known to the pass covers. */
  ghost predicate Wanted(cfg: Config, live: set<string>, repo: Repo, job: Job) {
    && Accepts(job.labels, cfg.gate, cfg.advertised)
    && repo.runners.Some? && VmName(job.id) !in live && !HasIdleRunner(repo, job.id)
  }

  ghost predicate WantedBySome(cfg: Config, live: set<string>, repos: seq<Repo>, id: U64) {
    exists repo, job ::
      repo in repos && repo.queued.Some? && job in repo.queued.value && job.id == id && Wanted(cfg, live, repo, job)
  }

  lemma RepoStaysServed(cfg: Config, env: Env, repo: Repo, fs: Tree, fs': Tree)
    requires CurGrows(fs, fs') && RepoServed(cfg, env, repo, fs)
    ensures RepoServed(cfg, env, repo, fs')
  {
    if repo.validName && repo.runners.Some? && repo.queued.Some? {
      forall job | job in repo.queued.value ensures Served(cfg, env, repo, job, fs') {
        GrowthKeepsServed(cfg, env, repo, job, fs, fs');
      }
    }
  }

  class Pass {
    const cfg: Config
    const env: Env
    const spool: Spool
    const live: set<string>
    ghost const start: Tree
    ghost const total: nat
    var free: nat
    var looks: nat
    var minted: seq<U64>
    ghost var held: nat

    /** Every claim made during the pass, ours or another's, took one permit, and
        each of ours a `cur/` slot that was free when the pass began; `held` is the
        permit in hand. */
    ghost predicate Valid()
      reads this, spool
    {
      && free + held + |Claims(spool.disk.fs)| == total + |Claims(start)| && free + held + |minted| <= total
      && (forall i, j :: 0 <= i < j < |minted| ==> minted[i] != minted[j])
      && (forall id :: id in minted ==>
            Cur(CanonicalFilename(id)) in spool.disk.fs && Cur(CanonicalFilename(id)) !in start)
      && CurGrows(start, spool.disk.fs)
      && ReadFrom(live, start)
    }

    /** Since look `from` every look found the daemon unpaused, but for the last one,
        if the pass stops because of it. */
    predicate StopsAtPause(from: nat, paused: bool)
      reads this
    {
      && from <= looks && (paused ==> from < looks && env.paused(looks - 1))
      && forall k: nat :: from <= k < (if paused then looks - 1 else looks) ==> !env.paused(k)
    }

    constructor (cfg: Config, env: Env, spool: Spool, live: set<string>, free: nat)
      requires ReadFrom(live, spool.disk.fs)
      ensures Valid() && this.spool == spool && this.cfg == cfg && this.env == env && this.live == live
      ensures this.free == total == free && held == 0 && minted == [] && looks == 0 && start == spool.disk.fs
    {
      this.cfg, this.env, this.spool, this.live, this.free := cfg, env, spool, live, free;
      this.total, this.start, this.looks, this.minted, this.held := free, spool.disk.fs, 0, [], 0;
    }

    /** Another actor's claim: exclusive like ours, and under a permit like ours. */
    method OthersClaim(ids: seq<U64>)
      requires Valid()
      modifies this`free, spool
      ensures Valid() && CurGrows(old(spool.disk.fs), spool.disk.fs) && free <= old(free)
    {
      var i := 0;
      while i < |ids| && free > 0
        invariant 0 <= i <= |ids| && free <= old(free)
        invariant Valid() && CurGrows(old(spool.disk.fs), spool.disk.fs)
      {
        OneClaimMore(spool.disk, spool.now, CanonicalFilename(ids[i]));
        var claimed := spool.WriteSyntheticClaim(ids[i]);
        if claimed { free := free - 1; }
        i := i + 1;
      }
    }

    /** A look at the pause flag, with whatever happened before it. */
    method LookAtPause() returns (paused: bool)
      requires Valid()
      modifies this`free, this`looks, spool
      ensures Valid() && CurGrows(old(spool.disk.fs), spool.disk.fs)
      ensures free <= old(free) && looks == old(looks) + 1 && paused == env.paused(old(looks))
    {
      OthersClaim(env.arrivals(looks));
      paused := env.paused(looks);
      looks := looks + 1;
    }

    lemma Fresh(fs: Tree, id: U64)
      requires (forall m :: m in minted ==> Cur(CanonicalFilename(m)) in fs) && Cur(CanonicalFilename(id)) !in fs
      ensures id !in minted
    {}

    /** Write the claim and hand the permit in hand to its worker, or put it back. */
    method MintHeld(id: U64)
      requires Valid() && held == 1
      modifies this`free, this`held, this`minted, spool
      ensures Valid() && held == 0 && CurGrows(old(spool.disk.fs), spool.disk.fs) && HasClaim(spool.disk.fs, id)
      ensures minted == old(minted) + if Cur(CanonicalFilename(id)) in old(spool.disk.fs) then [] else [id]
    {
      ghost var before := spool.disk.fs;
      OneClaimMore(spool.disk, spool.now, CanonicalFilename(id));
      var claimed := spool.WriteSyntheticClaim(id);
      if claimed {
        Fresh(before, id);
        minted, held := minted + [id], 0;
      } else {
        free, held := free + 1, 0;
      }
      CanonicalClaims(spool.disk.fs, id);
    }

    /** With a permit just taken: look at the flag again, then mint, or put it back. */
    method MintUnlessPaused(job: Job) returns (end: Option<End>)
      requires Valid() && held == 1
      modifies this`free, this`held, this`looks, this`minted, spool
      ensures Valid() && held == 0 && CurGrows(old(spool.disk.fs), spool.disk.fs)
      ensures end.None? ==> HasClaim(spool.disk.fs, job.id) || env.writeFails(job.id)
      ensures end.None? || end == Some(Paused)
      ensures looks == old(looks) + 1 && (end == Some(Paused) <==> env.paused(old(looks)))
      ensures minted == old(minted) || (minted == old(minted) + [job.id] && !env.paused(old(looks)))
    {
      var paused := LookAtPause();
      if paused {
        free, held := free + 1, 0;
        return Some(Paused);
      }
      if env.writeFails(job.id) {
        free, held := free + 1, 0;
        return None;
      }
      MintHeld(job.id);
      return None;
    }

    /** One queued job; `None` means: go on with the next. */
    method ReconcileJob(repo: Repo, job: Job, idle: set<string>) returns (end: Option<End>)
      requires Valid() && held == 0 && repo.runners.Some? && idle == IdleNames(repo.runners.value)
      modifies this, spool
      ensures Valid() && held == 0 && CurGrows(old(spool.disk.fs), spool.disk.fs)
      ensures end.None? ==> Served(cfg, env, repo, job, spool.disk.fs)
      ensures end == Some(Full) ==> free == 0
      ensures StopsAtPause(old(looks), end == Some(Paused))
      ensures end != Some(Finished)
      ensures minted == old(minted) || (minted == old(minted) + [job.id] && Wanted(cfg, live, repo, job))
      ensures minted != old(minted) ==> looks == old(looks) + 2
    {
      IdleNamesExactly(repo, job.id);
      var paused := LookAtPause();
      if paused { return Some(Paused); }
      if !Accepts(job.labels, cfg.gate, cfg.advertised) { return None; }
      if !ShouldMint(VmName(job.id), live, idle) {
        return None;
      }
      if free == 0 { return Some(Full); }
      free, held := free - 1, 1;
      end := MintUnlessPaused(job);
    }

    /** One repository; `None` means: go on with the next. */
    method ReconcileRepo(repos: seq<Repo>, repo: Repo) returns (end: Option<End>)
      requires Valid() && held == 0 && repo in repos && forall id :: id in minted ==> WantedBySome(cfg, live, repos, id)
      modifies this, spool
      ensures Valid() && held == 0 && CurGrows(old(spool.disk.fs), spool.disk.fs)
      ensures end.None? ==> RepoServed(cfg, env, repo, spool.disk.fs)
      ensures end == Some(Full) ==> free == 0
      ensures StopsAtPause(old(looks), end == Some(Paused))
      ensures end != Some(Finished)
      ensures forall id :: id in minted ==> WantedBySome(cfg, live, repos, id)
    {
      var paused := LookAtPause();
      if paused { return Some(Paused); }
      if !repo.validName || repo.runners.None? || repo.queued.None? { return None; }
      var idle, jobs := IdleNames(repo.runners.value), repo.queued.value;
      var i := 0;
      while i < |jobs|
        invariant 0 <= i <= |jobs|
        invariant Valid() && held == 0 && CurGrows(old(spool.disk.fs), spool.disk.fs)
        invariant StopsAtPause(old(looks), false)
        invariant forall job :: job in jobs[..i] ==> Served(cfg, env, repo, job, spool.disk.fs)
        invariant forall id :: id in minted ==> WantedBySome(cfg, live, repos, id)
      {
        ghost var before := spool.disk.fs;
        end := ReconcileJob(repo, jobs[i], idle);
        forall id | id in minted ensures WantedBySome(cfg, live, repos, id) {
          if id == jobs[i].id && Wanted(cfg, live, repo, jobs[i]) { assert jobs[i] in repo.queued.value; }
        }
        if end.Some? { return; }
        forall job | job in jobs[..i] ensures Served(cfg, env, repo, job, spool.disk.fs) {
          GrowthKeepsServed(cfg, env, repo, job, before, spool.disk.fs);
        }
        assert jobs[..i + 1] == jobs[..i] + [jobs[i]];
        i := i + 1;
      }
      assert jobs[..i] == jobs;
      return None;
    }

    method ReconcileRepos(repos: seq<Repo>) returns (end: End)
      requires Valid() && held == 0 && minted == []
      modifies this, spool
      ensures Valid() && held == 0 && CurGrows(old(spool.disk.fs), spool.disk.fs)
      ensures end.Finished? ==> forall repo :: repo in repos ==> RepoServed(cfg, env, repo, spool.disk.fs)
      ensures end.Full? ==> free == 0
      ensures StopsAtPause(old(looks), end.Paused?)
      ensures forall id :: id in minted ==> WantedBySome(cfg, live, repos, id)
    {
      var i := 0;
      while i < |repos|
        invariant 0 <= i <= |repos|
        invariant Valid() && held == 0 && CurGrows(old(spool.disk.fs), spool.disk.fs)
        invariant StopsAtPause(old(looks), false)
        invariant forall repo :: repo in repos[..i] ==> RepoServed(cfg, env, repo, spool.disk.fs)
        invariant forall id :: id in minted ==> WantedBySome(cfg, live, repos, id)
      {
        ghost var before := spool.disk.fs;
        var stop := ReconcileRepo(repos, repos[i]);
        if stop.Some? { return stop.value; }
        forall repo | repo in repos[..i] ensures RepoServed(cfg, env, repo, spool.disk.fs) {
          RepoStaysServed(cfg, env, repo, before, spool.disk.fs);
        }
        assert repos[..i + 1] == repos[..i] + [repos[i]];
        i := i + 1;
      }
      assert repos[..i] == repos;
      return Finished;
    }
  }

  /** The whole pass. Unless it ran into the pause flag, it ends with every permit
      taken, or with every queued job of ours covered by a claim or an idle runner
      in every repository that answered, save jobs whose claim failed to be
      written; an old archive of the id is no excuse. Each claim made meanwhile, its
      own or another's, costs one permit. It mints at most the free permits, only
      for wanted jobs, never twice for one, and never into a slot that was taken;
      and nothing at all when `cur/` cannot be read. Of its `looks` at the pause flag
      the first that finds the daemon paused is the last. */
  method ReconcileOnce(cfg: Config, env: Env, spool: Spool, live: Option<set<string>>, free: nat, repos: seq<Repo>)
    returns (end: Option<End>, minted: seq<U64>, left: nat, looks: nat)
    requires live.Some? ==> ReadFrom(live.value, spool.disk.fs)
    modifies spool
    ensures live.None? <==> end.None?
    ensures live.None? ==> spool.disk == old(spool.disk) && minted == [] && left == free
    ensures end == Some(Finished) ==> forall repo :: repo in repos ==> RepoServed(cfg, env, repo, spool.disk.fs)
    ensures end == Some(Full) ==> left == 0
    ensures end == Some(Paused) ==> looks > 0 && env.paused(looks - 1)
    ensures forall k: nat :: k < (if end == Some(Paused) then looks - 1 else looks) ==> !env.paused(k)
    ensures |minted| <= free && left + |Claims(spool.disk.fs)| == free + |Claims(old(spool.disk.fs))|
    ensures forall i, j :: 0 <= i < j < |minted| ==> minted[i] != minted[j]
    ensures forall id :: id in minted ==> WantedBySome(cfg, live.value, repos, id)
    ensures forall id :: id in minted ==>
              Cur(CanonicalFilename(id)) in spool.disk.fs && Cur(CanonicalFilename(id)) !in old(spool.disk.fs)
  {
    if live.None? { return None, [], free, 0; }
    var pass := new Pass(cfg, env, spool, live.value, free);
    var e := pass.ReconcileRepos(repos);
    return Some(e), pass.minted, pass.free, pass.looks;
  }
}
