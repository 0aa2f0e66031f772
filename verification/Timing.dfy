/** How long a worker can hold its claim, against the age at which the GC expires
    a claim. Durations are whole seconds of one clock. */
module Timing {
  import opened Names
  import TC = TokenCache

  const START_TIMEOUT: nat := 300
  const STOP_TIMEOUT: nat := 60
  const DELETE_TIMEOUT: nat := 60
  const COPY_TIMEOUT: nat := 60
  const LIST_TIMEOUT: nat := 30

  const VM_PER_JOB_COMMAND_BUDGET: nat :=
    START_TIMEOUT + COPY_TIMEOUT + STOP_TIMEOUT + DELETE_TIMEOUT + 2 * LIST_TIMEOUT

  const GH_ROUNDTRIPS_PER_CALL: nat := 6

  datatype Config = Config(jobMaxRuntime: U64, apiTimeout: U64, completionCheck: bool)

  // ---- the threshold ----------------------------------------------------

  function Saturated(n: nat): U64 { if n < U64_LIMIT then n else U64_LIMIT - 1 }

  function SaturatingAdd(a: U64, b: U64): U64 { Saturated(a + b) }

  function SaturatingMul(a: U64, b: U64): U64 { Saturated(a * b) }

  function GhCalls(cfg: Config): U64 { if cfg.completionCheck then 3 else 2 }

  function CurClaimMaxAgeSecs(cfg: Config): U64 {
    var apiBudget := SaturatingMul(SaturatingMul(cfg.apiTimeout, GH_ROUNDTRIPS_PER_CALL), GhCalls(cfg));
    SaturatingAdd(SaturatingAdd(cfg.jobMaxRuntime, apiBudget), VM_PER_JOB_COMMAND_BUDGET)
  }

  /** The sum the code means, without an integer width. */
  function UnboundedMaxAge(cfg: Config): nat {
    cfg.jobMaxRuntime + cfg.apiTimeout * GH_ROUNDTRIPS_PER_CALL * GhCalls(cfg) + VM_PER_JOB_COMMAND_BUDGET
  }

  lemma SaturationIsClamp(cfg: Config)
    ensures CurClaimMaxAgeSecs(cfg) == Saturated(UnboundedMaxAge(cfg))
  {
    var m := cfg.apiTimeout * GH_ROUNDTRIPS_PER_CALL;
    assert GhCalls(cfg) == 2 || GhCalls(cfg) == 3;
    if m >= U64_LIMIT { assert m * GhCalls(cfg) >= U64_LIMIT; }
  }

  /** For every age a `u64` can hold, the saturating threshold reaps exactly when
      the unbounded sum would: never earlier, and never later either. */
  lemma SaturatingNeverReapsEarlier(cfg: Config, age: U64)
    ensures age > CurClaimMaxAgeSecs(cfg) <==> age > UnboundedMaxAge(cfg)
  {
    SaturationIsClamp(cfg);
  }

  // ---- one job ----------------------------------------------------------

  /** A command: how long it would take if left alone, and whether it succeeds. */
  datatype Command = Command(secs: nat, succeeds: bool)

  /** One `send_authed`: the time spent waiting for another caller's lookup of
      the installation id, and the duration of each request it makes. */
  datatype GhCall = GhCall(wait: nat, requests: seq<nat>, succeeds: bool)

  /** Everything the environment decides about one job; `shell` also stands for
      an abort by the dispatch watchdog. */
  datatype Job = Job(
    validName: bool, mint: GhCall, blobWritten: bool, start: Command, copy: Command, shell: Command,
    serialList: Command, stop: Command, delete: Command, relist: Command, deregister: GhCall, status: GhCall)

  function Took(c: Command, limit: nat): nat { Min(c.secs, limit) }

  predicate Ok(c: Command, limit: nat) { c.succeeds && c.secs <= limit }

  function Total(requests: seq<nat>, apiTimeout: nat): nat {
    if requests == [] then 0 else Min(requests[0], apiTimeout) + Total(requests[1..], apiTimeout)
  }

  function CallTime(call: GhCall, apiTimeout: nat): nat { call.wait + Total(call.requests, apiTimeout) }

  predicate VmOk(cfg: Config, j: Job) {
    j.blobWritten && Ok(j.start, START_TIMEOUT) && Ok(j.copy, COPY_TIMEOUT) && Ok(j.shell, cfg.jobMaxRuntime)
  }

  function VmTime(cfg: Config, j: Job): nat {
    if !j.blobWritten then 0
    else Took(j.start, START_TIMEOUT)
         + if !Ok(j.start, START_TIMEOUT) then 0
           else Took(j.copy, COPY_TIMEOUT)
                + if !Ok(j.copy, COPY_TIMEOUT) then 0 else Took(j.shell, cfg.jobMaxRuntime)
  }

  method RunInVm(cfg: Config, j: Job, before: nat) returns (ok: bool, elapsed: nat)
    ensures ok <==> VmOk(cfg, j)
    ensures elapsed == before + VmTime(cfg, j)
  {
    elapsed := before;
    if !j.blobWritten { return false, elapsed; }
    elapsed := elapsed + Took(j.start, START_TIMEOUT);
    if !Ok(j.start, START_TIMEOUT) { return false, elapsed; }
    elapsed := elapsed + Took(j.copy, COPY_TIMEOUT);
    if !Ok(j.copy, COPY_TIMEOUT) { return false, elapsed; }
    elapsed := elapsed + Took(j.shell, cfg.jobMaxRuntime);
    ok := Ok(j.shell, cfg.jobMaxRuntime);
  }

  function RemovalTime(cfg: Config, j: Job): nat {
    Took(j.stop, STOP_TIMEOUT) + Took(j.delete, DELETE_TIMEOUT)
    + (if Ok(j.delete, DELETE_TIMEOUT) then 0 else Took(j.relist, LIST_TIMEOUT))
    + CallTime(j.deregister, cfg.apiTimeout)
  }

  /** The serial console, then `stop`, `delete`, perhaps a re-list, `delete_runner`. */
  function TeardownTime(cfg: Config, j: Job): nat { Took(j.serialList, LIST_TIMEOUT) + RemovalTime(cfg, j) }

  function JobTime(cfg: Config, j: Job): nat {
    if !j.validName then 0
    else CallTime(j.mint, cfg.apiTimeout)
         + if !j.mint.succeeds then 0
           else VmTime(cfg, j) + TeardownTime(cfg, j)
                + if VmOk(cfg, j) && cfg.completionCheck then CallTime(j.status, cfg.apiTimeout) else 0
  }

  /** The job was minted, and its VM run ended well. */
  predicate Done(cfg: Config, j: Job) { j.validName && j.mint.succeeds && VmOk(cfg, j) }

  /** `run_job`, then the completion check: phase after phase until the claim is
      finalized. */
  method RunJob(cfg: Config, j: Job) returns (done: bool, elapsed: nat)
    ensures elapsed == JobTime(cfg, j)
    ensures done <==> Done(cfg, j)
  {
    if !j.validName { return false, 0; }
    elapsed := CallTime(j.mint, cfg.apiTimeout);
    if !j.mint.succeeds { return false, elapsed; }
    done, elapsed := RunInVm(cfg, j, elapsed);
    elapsed := elapsed + Took(j.serialList, LIST_TIMEOUT);
    elapsed := elapsed + Took(j.stop, STOP_TIMEOUT);
    elapsed := elapsed + Took(j.delete, DELETE_TIMEOUT);
    if !Ok(j.delete, DELETE_TIMEOUT) { elapsed := elapsed + Took(j.relist, LIST_TIMEOUT); }
    elapsed := elapsed + CallTime(j.deregister, cfg.apiTimeout);
    if done && cfg.completionCheck { elapsed := elapsed + CallTime(j.status, cfg.apiTimeout); }
  }

  /** `n` seconds, if the operation is reached. */
  function Charge(reached: bool, n: nat): nat { if reached then n else 0 }

  /** Every operation is charged, capped at its own timeout, exactly when the job
      reaches it: a VM operation after all before it succeeded, the teardown of
      every minted runner whatever became of it, the re-list after a failed delete,
      and the status call after a run that ended well. */
  lemma JobTimeCharged(cfg: Config, j: Job)
    ensures var minted := j.validName && j.mint.succeeds;
            var started := minted && j.blobWritten && j.start.succeeds && j.start.secs <= 300;
            var copied := started && j.copy.succeeds && j.copy.secs <= 60;
            var ran := copied && j.shell.succeeds && j.shell.secs <= cfg.jobMaxRuntime;
            JobTime(cfg, j) ==
              Charge(j.validName, CallTime(j.mint, cfg.apiTimeout))
              + Charge(minted && j.blobWritten, Min(j.start.secs, 300))
              + Charge(started, Min(j.copy.secs, 60))
              + Charge(copied, Min(j.shell.secs, cfg.jobMaxRuntime))
              + Charge(minted, Min(j.serialList.secs, 30) + Min(j.stop.secs, 60) + Min(j.delete.secs, 60))
              + Charge(minted && !(j.delete.succeeds && j.delete.secs <= 60), Min(j.relist.secs, 30))
              + Charge(minted, CallTime(j.deregister, cfg.apiTimeout))
              + Charge(ran && cfg.completionCheck, CallTime(j.status, cfg.apiTimeout))
  {}

  // ---- the bound --------------------------------------------------------

  /** Five requests for the mint, and four for the later calls, for which the
      installation id is known, so that they do not wait for it either. */
  predicate Plausible(j: Job) {
    && |j.mint.requests| <= 5
    && |j.deregister.requests| <= 4 && j.deregister.wait == 0
    && |j.status.requests| <= 4 && j.status.wait == 0
  }

  /** Calls of one run of the token cache, the later two begun after the mint was
      sent, make a plausible job. */
  lemma TokenCacheMakesPlausible(j: Job, delay: nat, s: TC.State, minted: TC.State, a: nat,
                                 deregistered: TC.State, b: nat, checked: TC.State, c: nat)
    requires TC.Init(s) && TC.Reaches(delay, s, minted) && a in minted.calls && minted.calls[a].pc.Sent?
    requires |j.mint.requests| <= minted.calls[a].requests
    requires b !in minted.calls && TC.Reaches(delay, minted, deregistered) && b in deregistered.calls
    requires |j.deregister.requests| <= deregistered.calls[b].requests && j.deregister.wait == 0
    requires c !in minted.calls && TC.Reaches(delay, minted, checked) && c in checked.calls
    requires |j.status.requests| <= checked.calls[c].requests && j.status.wait == 0
    ensures Plausible(j)
  {
    TC.RetryUsesAnotherToken(delay, s, minted, a);
    TC.LaterCallMakesFour(delay, s, minted, a, deregistered, b);
    TC.LaterCallMakesFour(delay, s, minted, a, checked, c);
  }

  lemma {:induction false} TotalBounded(requests: seq<nat>, apiTimeout: nat)
    ensures Total(requests, apiTimeout) <= |requests| * apiTimeout
  {
    if requests != [] { TotalBounded(requests[1..], apiTimeout); }
  }

  lemma CallBounded(call: GhCall, k: nat, apiTimeout: nat)
    requires |call.requests| <= k
    ensures CallTime(call, apiTimeout) <= call.wait + k * apiTimeout
  {
    TotalBounded(call.requests, apiTimeout);
  }

  /** The budgeted round trips a job cannot use: time to spare for waiting. */
  function Slack(cfg: Config): nat { cfg.apiTimeout * if cfg.completionCheck then 5 else 3 }

  lemma CommandsBounded(cfg: Config, j: Job)
    ensures VmTime(cfg, j) <= 360 + cfg.jobMaxRuntime
    ensures TeardownTime(cfg, j) <= 180 + CallTime(j.deregister, cfg.apiTimeout)
  {}

  lemma JobTimeBounded(cfg: Config, j: Job)
    requires Plausible(j)
    ensures JobTime(cfg, j) + Slack(cfg) <= UnboundedMaxAge(cfg) + j.mint.wait
  {
    CallBounded(j.mint, 5, cfg.apiTimeout);
    CallBounded(j.deregister, 4, cfg.apiTimeout);
    CallBounded(j.status, 4, cfg.apiTimeout);
    CommandsBounded(cfg, j);
  }

  /** The slowest job that succeeds after waiting `wait` for the installation id. */
  function Slowest(cfg: Config, wait: nat): Job {
    var t := cfg.apiTimeout;
    Job(true, GhCall(wait, [t, t, t, t, t], true), true, Command(START_TIMEOUT, true), Command(COPY_TIMEOUT, true),
        Command(cfg.jobMaxRuntime, true), Command(LIST_TIMEOUT, true), Command(STOP_TIMEOUT, true),
        Command(DELETE_TIMEOUT, false), Command(LIST_TIMEOUT, true), GhCall(0, [t, t, t, t], true),
        GhCall(0, [t, t, t, t], true))
  }

  lemma {:induction false} RepeatedTotal(requests: seq<nat>, t: nat)
    requires forall i :: 0 <= i < |requests| ==> requests[i] == t
    ensures Total(requests, t) == |requests| * t
  {
    if requests != [] { RepeatedTotal(requests[1..], t); }
  }

  lemma SlowestTime(cfg: Config, wait: nat)
    ensures Plausible(Slowest(cfg, wait))
    ensures JobTime(cfg, Slowest(cfg, wait)) + Slack(cfg) == UnboundedMaxAge(cfg) + wait
  {
    var t := cfg.apiTimeout;
    RepeatedTotal([t, t, t, t, t], t);
    RepeatedTotal([t, t, t, t], t);
  }

  /** No job that waits up to `wait` outlives the threshold exactly when the wait
      fits the slack of the request budget; on every success and failure path. */
  lemma InFlightSafeExactly(cfg: Config, wait: nat)
    ensures (forall j :: Plausible(j) && j.mint.wait <= wait ==> JobTime(cfg, j) <= UnboundedMaxAge(cfg))
            <==> wait <= Slack(cfg)
  {
    if wait <= Slack(cfg) {
      forall j | Plausible(j) && j.mint.wait <= wait ensures JobTime(cfg, j) <= UnboundedMaxAge(cfg) {
        JobTimeBounded(cfg, j);
      }
    } else {
      SlowestTime(cfg, wait);
      assert Slowest(cfg, wait).mint.wait <= wait;
    }
  }
}
