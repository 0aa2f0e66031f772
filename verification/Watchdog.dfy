/** The dispatch watchdog: a fold over polls of the minted runner that aborts a
    runner which never picked up a job. */
module Watchdog {
  datatype Runner = Runner(online: bool, busy: bool)

  /** Answer of one status call: an error, a 404, or the runner. */
  datatype Poll = Failed | NotFound | Found(runner: Runner)

  datatype Obs = Busy | Idle | Gone | Unknown

  function Observe(p: Poll): Obs {
    match p
    case Failed => Unknown
    case NotFound => Gone
    case Found(r) => if r.busy then Busy else if r.online then Idle else Gone
  }

  /** One iteration of the polling loop: what was seen, and `start.elapsed()`. */
  datatype Tick = Tick(poll: Poll, elapsed: nat)

  datatype Verdict = Continue | Abort(reason: string)

  const LOST: string := "registration lost before the runner ran any job"
  const STAYED_IDLE: string := "runner stayed idle without ever picking up a job"

  function DispatchVerdict(obs: Obs, elapsed: nat, deadline: nat): Verdict {
    match obs
    case Busy => Continue
    case Unknown => Continue
    case Gone => if elapsed <= deadline then Continue else Abort(LOST)
    case Idle => if elapsed <= deadline then Continue else Abort(STAYED_IDLE)
  }

  datatype Confirm = Hold | WaitToConfirm(reason: string) | Reap(reason: string)

  function ConfirmAbort(pending: bool, verdict: Verdict): Confirm {
    match verdict
    case Continue => Hold
    case Abort(reason) => if pending then Reap(reason) else WaitToConfirm(reason)
  }

  /** `Aborted(k, reason)`: tick `k` reaped the runner. `Parked`: a job was seen
      running. `Watching`: all given ticks passed. */
  datatype Outcome = Aborted(tick: nat, reason: string) | Parked(tick: nat) | Watching

  // ---- the reference: which tick reaps, by looking at the whole run -----

  /** GitHub shows the runner at a job. */
  predicate SawJob(t: Tick) { t.poll.Found? && t.poll.runner.busy }

  /** Evidence of a wedge past the deadline: the registration is gone, or there
      without a job. A failed poll is no evidence. */
  predicate Overdue(t: Tick, deadline: nat) {
    (t.poll.NotFound? || (t.poll.Found? && !t.poll.runner.busy)) && t.elapsed > deadline
  }

  /** An answer that shows no runner online. */
  predicate Lost(p: Poll) { p.NotFound? || (p.Found? && !p.runner.online) }

  /** `a` is the one overdue tick before `k`. */
  ghost predicate OnlyOverdue(ticks: seq<Tick>, deadline: nat, a: int, k: int)
    requires 0 <= a < k <= |ticks|
  {
    Overdue(ticks[a], deadline) && forall i :: 0 <= i < k && i != a ==> !Overdue(ticks[i], deadline)
  }

  /** No job up to `k`, and `k` is the second overdue tick. */
  ghost predicate ReapsAt(ticks: seq<Tick>, deadline: nat, k: nat) {
    && k < |ticks|
    && (forall i :: 0 <= i <= k ==> !SawJob(ticks[i]))
    && Overdue(ticks[k], deadline)
    && exists a :: 0 <= a < k && OnlyOverdue(ticks, deadline, a, k)
  }

  /** The loop reaps at `k` exactly when no job was seen up to `k` and `k` is the
      second overdue tick, whatever the clock and the API do in between. */
  method WatchDispatch(ticks: seq<Tick>, deadline: nat) returns (r: Outcome)
    ensures forall k: nat :: ReapsAt(ticks, deadline, k) <==> r.Aborted? && r.tick == k
    ensures r.Aborted? ==>
              r.tick < |ticks| && r.reason == (if Lost(ticks[r.tick].poll) then LOST else STAYED_IDLE)
    ensures r.Parked? ==> r.tick < |ticks| && SawJob(ticks[r.tick]) && forall i :: 0 <= i < r.tick ==> !SawJob(ticks[i])
    ensures r.Watching? ==> forall i :: 0 <= i < |ticks| ==> !SawJob(ticks[i])
  {
    var pending, n := false, 0;
    ghost var armed := 0;
    while n < |ticks|
      invariant 0 <= n <= |ticks|
      invariant forall i :: 0 <= i < n ==> !SawJob(ticks[i])
      invariant if pending then 0 <= armed < n && OnlyOverdue(ticks, deadline, armed, n)
                else forall i :: 0 <= i < n ==> !Overdue(ticks[i], deadline)
    {
      var obs := Observe(ticks[n].poll);
      if obs == Busy { return Parked(n); }
      match ConfirmAbort(pending, DispatchVerdict(obs, ticks[n].elapsed, deadline)) {
        case Reap(reason) =>
          assert OnlyOverdue(ticks, deadline, armed, n);
          return Aborted(n, reason);
        case WaitToConfirm(_) =>
          pending, armed := true, n;
        case Hold =>
      }
      n := n + 1;
    }
    return Watching;
  }

  // ---- what lies between the two verdicts -------------------------------

  predicate Monotone(ticks: seq<Tick>) {
    forall i, j :: 0 <= i <= j < |ticks| ==> ticks[i].elapsed <= ticks[j].elapsed
  }

  /** With a monotone clock, only failed polls lie between the arming tick and
      the reaping tick. */
  lemma OnlyFailedPollsBetween(ticks: seq<Tick>, deadline: nat, k: nat)
    requires Monotone(ticks) && ReapsAt(ticks, deadline, k)
    ensures exists a :: 0 <= a < k && OnlyOverdue(ticks, deadline, a, k)
                        && forall i :: a < i < k ==> ticks[i].poll == Failed
  {
    var a :| 0 <= a < k && OnlyOverdue(ticks, deadline, a, k);
    forall i | a < i < k ensures ticks[i].poll == Failed {
      assert ticks[a].elapsed <= ticks[i].elapsed;
      assert !SawJob(ticks[i]) && !Overdue(ticks[i], deadline);
    }
  }

  function DropFailed(ticks: seq<Tick>): seq<Tick> {
    if ticks == [] then []
    else if ticks[|ticks| - 1].poll.Failed? then DropFailed(ticks[..|ticks| - 1])
    else DropFailed(ticks[..|ticks| - 1]) + [ticks[|ticks| - 1]]
  }

  function OverdueCount(ticks: seq<Tick>, deadline: nat): nat {
    if ticks == [] then 0
    else OverdueCount(ticks[..|ticks| - 1], deadline) + (if Overdue(ticks[|ticks| - 1], deadline) then 1 else 0)
  }

  ghost predicate NoJob(ticks: seq<Tick>) { forall i :: 0 <= i < |ticks| ==> !SawJob(ticks[i]) }

  lemma {:induction false} OneOverdue(ticks: seq<Tick>, deadline: nat)
    ensures OverdueCount(ticks, deadline) == 0 <==> forall i :: 0 <= i < |ticks| ==> !Overdue(ticks[i], deadline)
    ensures OverdueCount(ticks, deadline) == 1
            <==> exists a :: 0 <= a < |ticks| && OnlyOverdue(ticks, deadline, a, |ticks|)
  {
    if ticks != [] {
      var n := |ticks| - 1;
      var init := ticks[..n];
      OneOverdue(init, deadline);
      if OverdueCount(ticks, deadline) == 1 {
        if Overdue(ticks[n], deadline) {
          assert OnlyOverdue(ticks, deadline, n, |ticks|);
        } else {
          var a :| 0 <= a < n && OnlyOverdue(init, deadline, a, n);
          assert OnlyOverdue(ticks, deadline, a, |ticks|);
        }
      }
      if a :| 0 <= a < |ticks| && OnlyOverdue(ticks, deadline, a, |ticks|) {
        if a < n { assert OnlyOverdue(init, deadline, a, n); }
      }
    }
  }

  lemma ReapsByCount(ticks: seq<Tick>, deadline: nat, k: nat)
    requires k < |ticks|
    ensures ReapsAt(ticks, deadline, k)
            <==> NoJob(ticks[..k]) && Overdue(ticks[k], deadline) && OverdueCount(ticks[..k], deadline) == 1
  {
    var before := ticks[..k];
    OneOverdue(before, deadline);
    if a :| 0 <= a < k && OnlyOverdue(ticks, deadline, a, k) { assert OnlyOverdue(before, deadline, a, k); }
    if a :| 0 <= a < k && OnlyOverdue(before, deadline, a, k) { assert OnlyOverdue(ticks, deadline, a, k); }
    if NoJob(before) {
      forall i | 0 <= i < k ensures !SawJob(ticks[i]) { assert ticks[i] == before[i]; }
    }
  }

  ghost predicate Reaped(ticks: seq<Tick>, deadline: nat) { exists k: nat :: ReapsAt(ticks, deadline, k) }

  lemma ReapedStepwise(init: seq<Tick>, last: Tick, deadline: nat)
    ensures Reaped(init + [last], deadline)
            <==> Reaped(init, deadline)
                 || (NoJob(init) && Overdue(last, deadline) && OverdueCount(init, deadline) == 1)
  {
    var ticks := init + [last];
    assert ticks[..|init|] == init;
    ReapsByCount(ticks, deadline, |init|);
    forall k: nat | k < |init| ensures ReapsAt(ticks, deadline, k) <==> ReapsAt(init, deadline, k) {
      assert ticks[..k] == init[..k];
      ReapsByCount(ticks, deadline, k);
      ReapsByCount(init, deadline, k);
    }
  }

  lemma OneMoreTick(init: seq<Tick>, last: Tick, deadline: nat)
    ensures NoJob(init + [last]) <==> NoJob(init) && !SawJob(last)
    ensures OverdueCount(init + [last], deadline) ==
              OverdueCount(init, deadline) + (if Overdue(last, deadline) then 1 else 0)
  {
    var ticks := init + [last];
    assert ticks[..|init|] == init && ticks[|init|] == last;
    if NoJob(ticks) {
      forall i | 0 <= i < |init| ensures !SawJob(init[i]) { assert ticks[i] == init[i]; }
    }
  }

  lemma {:induction false} FailedPollsWeightless(ticks: seq<Tick>, deadline: nat)
    ensures OverdueCount(DropFailed(ticks), deadline) == OverdueCount(ticks, deadline)
    ensures NoJob(DropFailed(ticks)) <==> NoJob(ticks)
  {
    if ticks != [] {
      var init, last := ticks[..|ticks| - 1], ticks[|ticks| - 1];
      assert ticks == init + [last];
      FailedPollsWeightless(init, deadline);
      OneMoreTick(init, last, deadline);
      if !last.poll.Failed? { OneMoreTick(DropFailed(init), last, deadline); }
    }
  }

  /** Failed polls neither cause nor cancel a reap: a run is reaped exactly when
      the same run without its failed polls is. */
  lemma {:induction false} FailedPollsInert(ticks: seq<Tick>, deadline: nat)
    ensures Reaped(ticks, deadline) <==> Reaped(DropFailed(ticks), deadline)
  {
    if ticks != [] {
      var init, last := ticks[..|ticks| - 1], ticks[|ticks| - 1];
      assert ticks == init + [last];
      ReapedStepwise(init, last, deadline);
      FailedPollsInert(init, deadline);
      FailedPollsWeightless(init, deadline);
      if !last.poll.Failed? { ReapedStepwise(DropFailed(init), last, deadline); }
    }
  }
}
