/** Permits, the pause gate and the shutdown drain: the dispatcher, the
    reconciler, the per-job workers and `run_shutdown` as one transition system
    over a counting semaphore. */
module Drain {
  import opened Names
  import Runs

  const U32_MAX: nat := 0xFFFF_FFFF

  /** The dispatch future; from `Rechecking` on it holds a permit. It shares a
      `select!` with `run_shutdown` and is dropped when that resolves. */
  datatype Dispatcher = Receiving | AwaitUnpaused | Acquiring | Rechecking | Preparing | Archiving(job: nat) | Dropped

  /** One reconcile pass; from `Confirming` on it holds a permit. */
  datatype Reconciler = Idle | Looking | Trying | Confirming | Writing

  /** A worker holds its permit until it is gone. */
  datatype Worker = Running | Finalizing | Releasing

  datatype Shutdown = NotRequested | Requested | Draining(got: nat) | Drained(guard: nat) | Forced

  /** `claims` are the `cur/` entries made by this process; `abandoned` are those
      whose worker panicked or failed to finalize. */
  datatype State = State(
    max: nat, free: nat, paused: bool, shutdown: Shutdown,
    dispatcher: Dispatcher, reconciler: Reconciler, workers: map<nat, Worker>,
    claims: set<nat>, abandoned: set<nat>)

  datatype Outcome = Run(job: nat) | Archive(job: nat) | Skip

  datatype Label =
    | Receive | SeeUnpaused | Acquire | Recheck | Prepare(outcome: Outcome) | FinishArchive(ok: bool)
    | Tick | CheckPause | EndPass | TryAcquire | Confirm | Write(outcome: Outcome)
    | JobEnds(job: nat) | Finalize(job: nat, ok: bool) | Release(job: nat) | Panic(job: nat) | Expire(job: nat)
    | Pause | Resume | Request | SendPause | Gather(n: nat) | Complete | DropGuard | Force

  /** `u32::try_from(max_concurrency).unwrap_or(u32::MAX)` */
  function Need(max: nat): nat { Min(max, U32_MAX) }

  predicate DispatcherHolds(s: State) {
    s.dispatcher.Rechecking? || s.dispatcher.Preparing? || s.dispatcher.Archiving?
  }

  predicate ReconcilerHolds(s: State) { s.reconciler.Confirming? || s.reconciler.Writing? }

  function Spawn(s: State, job: nat): State {
    s.(workers := s.workers[job := Running], claims := s.claims + {job})
  }

  function Drop(s: State): State { s.(free := s.free + 1) }

  /** `run_shutdown` resolves: the dispatch future is dropped where it stands. */
  function DropDispatch(s: State): State {
    (if DispatcherHolds(s) then Drop(s) else s).(
      dispatcher := Dropped,
      abandoned := if s.dispatcher.Archiving? then s.abandoned + {s.dispatcher.job} else s.abandoned)
  }

  function Guarded(s: State): nat {
    match s.shutdown
    case Draining(got) => got
    case Drained(guard) => guard
    case _ => 0
  }

  /** A claim takes a free `cur/` slot. */
  predicate CanClaim(s: State, outcome: Outcome) { outcome.Skip? || outcome.job !in s.claims + s.workers.Keys }

  predicate Enabled(s: State, l: Label) {
    match l
    case Receive => s.dispatcher.Receiving?
    case SeeUnpaused => s.dispatcher.AwaitUnpaused? && !s.paused
    case Acquire => s.dispatcher.Acquiring? && s.free > 0
    case Recheck => s.dispatcher.Rechecking?
    case Prepare(o) => s.dispatcher.Preparing? && CanClaim(s, o)
    case FinishArchive(_) => s.dispatcher.Archiving?
    case Tick => s.reconciler.Idle?
    case CheckPause => s.reconciler.Looking?
    case EndPass => s.reconciler.Looking?
    case TryAcquire => s.reconciler.Trying?
    case Confirm => s.reconciler.Confirming?
    case Write(o) => s.reconciler.Writing? && !o.Archive? && CanClaim(s, o)
    case JobEnds(j) => j in s.workers && s.workers[j].Running?
    case Finalize(j, _) => j in s.workers && s.workers[j].Finalizing?
    case Release(j) => j in s.workers && s.workers[j].Releasing?
    case Panic(j) => j in s.workers && !s.workers[j].Releasing?
    case Expire(j) => j in s.abandoned
    case Pause => true
    case Resume => true
    case Request => s.shutdown.NotRequested?
    case SendPause => s.shutdown.Requested?
    case Gather(n) => s.shutdown.Draining? && n <= s.free && s.shutdown.got + n <= Need(s.max)
    case Complete => s.shutdown.Draining? && s.shutdown.got == Need(s.max)
    case DropGuard => s.shutdown.Drained?
    case Force => s.shutdown.Draining? && s.shutdown.got < Need(s.max)
  }

  function Apply(s: State, l: Label): State
    requires Enabled(s, l)
  {
    match l
    case Receive => s.(dispatcher := AwaitUnpaused)
    case SeeUnpaused => s.(dispatcher := Acquiring)
    case Acquire => s.(dispatcher := Rechecking, free := s.free - 1)
    case Recheck => if s.paused then Drop(s.(dispatcher := AwaitUnpaused)) else s.(dispatcher := Preparing)
    case Prepare(Run(j)) => Spawn(s.(dispatcher := Receiving), j)
    case Prepare(Archive(j)) => s.(dispatcher := Archiving(j), claims := s.claims + {j})
    case Prepare(Skip) => Drop(s.(dispatcher := Receiving))
    case FinishArchive(ok) =>
      var j := s.dispatcher.job;
      Drop(if ok then s.(dispatcher := Receiving, claims := s.claims - {j})
           else s.(dispatcher := Receiving, abandoned := s.abandoned + {j}))
    case Tick => if s.paused then s else s.(reconciler := Looking)
    case CheckPause => s.(reconciler := if s.paused then Idle else Trying)
    case EndPass => s.(reconciler := Idle)
    case TryAcquire => if s.free == 0 then s.(reconciler := Idle) else s.(reconciler := Confirming, free := s.free - 1)
    case Confirm => if s.paused then Drop(s.(reconciler := Idle)) else s.(reconciler := Writing)
    case Write(Run(j)) => Spawn(s.(reconciler := Looking), j)
    case Write(_) => Drop(s.(reconciler := Looking))
    case JobEnds(j) => s.(workers := s.workers[j := Finalizing])
    case Finalize(j, ok) =>
      if ok then s.(workers := s.workers[j := Releasing], claims := s.claims - {j})
      else s.(workers := s.workers[j := Releasing], abandoned := s.abandoned + {j})
    case Release(j) => Drop(s.(workers := s.workers - {j}))
    case Panic(j) => Drop(s.(workers := s.workers - {j}, abandoned := s.abandoned + {j}))
    case Expire(j) => s.(claims := s.claims - {j}, abandoned := s.abandoned - {j})
    case Pause => s.(paused := true)
    case Resume => s.(paused := false)
    case Request => s.(shutdown := Requested)
    case SendPause => s.(shutdown := Draining(0), paused := true)
    case Gather(n) => s.(shutdown := Draining(s.shutdown.got + n), free := s.free - n)
    case Complete => DropDispatch(s.(shutdown := Drained(s.shutdown.got)))
    case DropGuard => s.(shutdown := Drained(0), free := s.free + s.shutdown.guard)
    case Force => DropDispatch(s.(shutdown := Forced, free := s.free + s.shutdown.got))
  }

  // ---- the invariant ----------------------------------------------------

  /** Who holds a permit on behalf of claim `j`. */
  predicate Covered(s: State, j: nat) {
    || (j in s.workers && !s.workers[j].Releasing?)
    || s.dispatcher == Archiving(j)
  }

  /** Free permits and those held by `count` workers, by the two loops and by
      the drain are all there are. */
  predicate Balanced(s: State, count: nat) {
    s.free + count + (if DispatcherHolds(s) then 1 else 0) + (if ReconcilerHolds(s) then 1 else 0) + Guarded(s) == s.max
    && (s.shutdown.Draining? ==> s.shutdown.got <= Need(s.max))
  }

  predicate PermitInv(s: State) { Balanced(s, |s.workers|) }

  /** A claim is covered by exactly one permit, or was abandoned. */
  predicate ClaimInv(s: State, j: nat) {
    && (j in s.claims <==> j in s.abandoned || Covered(s, j))
    && !(j in s.abandoned && Covered(s, j))
    && (s.dispatcher == Archiving(j) ==> j !in s.workers)
  }

  ghost predicate Inv(s: State) { PermitInv(s) && forall j :: ClaimInv(s, j) }

  predicate Init(s: State) {
    && s.free == s.max && s.shutdown.NotRequested? && s.dispatcher.Receiving? && s.reconciler.Idle?
    && s.workers == map[] && s.claims == {} && s.abandoned == {}
  }

  /** How a step changes the number of workers. */
  function Hires(l: Label): int {
    if (l.Prepare? || l.Write?) && l.outcome.Run? then 1 else if l.Release? || l.Panic? then -1 else 0
  }

  lemma HiringCounted(s: State, l: Label)
    requires Enabled(s, l) && Hires(l) == 1
    ensures |Apply(s, l).workers| == |s.workers| + 1
  {
    assert Apply(s, l).workers == s.workers[l.outcome.job := Running];
  }

  lemma LeavingCounted(s: State, l: Label)
    requires Enabled(s, l) && Hires(l) == -1
    ensures |Apply(s, l).workers| == |s.workers| - 1
  {
    assert Apply(s, l).workers == s.workers - {l.job};
  }

  lemma StayingCounted(s: State, l: Label)
    requires Enabled(s, l) && Hires(l) == 0
    ensures |Apply(s, l).workers| == |s.workers|
  {
    if l.JobEnds? || l.Finalize? {
      assert Apply(s, l).workers.Keys == s.workers.Keys;
    } else {
      assert Apply(s, l).workers == s.workers;
    }
  }

  lemma WorkersCounted(s: State, l: Label)
    requires Enabled(s, l)
    ensures |Apply(s, l).workers| == |s.workers| + Hires(l)
  {
    if Hires(l) == 1 { HiringCounted(s, l); }
    else if Hires(l) == -1 { LeavingCounted(s, l); }
    else { StayingCounted(s, l); }
  }

  predicate OfDispatcher(l: Label) {
    l.Receive? || l.SeeUnpaused? || l.Acquire? || l.Recheck? || l.Prepare? || l.FinishArchive?
  }

  predicate OfReconciler(l: Label) {
    l.Tick? || l.CheckPause? || l.EndPass? || l.TryAcquire? || l.Confirm? || l.Write?
  }

  predicate OfWorker(l: Label) { l.JobEnds? || l.Finalize? || l.Release? || l.Panic? || l.Expire? }

  lemma DispatcherBalances(s: State, l: Label, count: nat)
    requires Balanced(s, count) && Enabled(s, l) && OfDispatcher(l)
    ensures Balanced(Apply(s, l), count + Hires(l))
  {}

  lemma ReconcilerBalances(s: State, l: Label, count: nat)
    requires Balanced(s, count) && Enabled(s, l) && OfReconciler(l)
    ensures Balanced(Apply(s, l), count + Hires(l))
  {}

  lemma WorkerBalances(s: State, l: Label, count: nat)
    requires Balanced(s, count) && Enabled(s, l) && OfWorker(l) && count + Hires(l) >= 0
    ensures Balanced(Apply(s, l), count + Hires(l))
  {}

  lemma ShutdownBalances(s: State, l: Label, count: nat)
    requires Balanced(s, count) && Enabled(s, l) && !OfDispatcher(l) && !OfReconciler(l) && !OfWorker(l)
    ensures Balanced(Apply(s, l), count)
  {}

  lemma StepBalances(s: State, l: Label, count: nat)
    requires Balanced(s, count) && Enabled(s, l) && count + Hires(l) >= 0
    ensures Balanced(Apply(s, l), count + Hires(l))
  {
    if OfDispatcher(l) { DispatcherBalances(s, l, count); }
    else if OfReconciler(l) { ReconcilerBalances(s, l, count); }
    else if OfWorker(l) { WorkerBalances(s, l, count); }
    else { ShutdownBalances(s, l, count); }
  }

  lemma StepKeepsPermits(s: State, l: Label)
    requires PermitInv(s) && Enabled(s, l)
    ensures PermitInv(Apply(s, l))
  {
    WorkersCounted(s, l);
    StepBalances(s, l, |s.workers|);
  }

  lemma WorkerKeepsClaims(s: State, l: Label, j: nat)
    requires ClaimInv(s, j) && Enabled(s, l) && OfWorker(l)
    ensures ClaimInv(Apply(s, l), j)
  {}

  lemma StepKeepsClaims(s: State, l: Label, j: nat)
    requires ClaimInv(s, j) && Enabled(s, l)
    ensures ClaimInv(Apply(s, l), j)
  {
    if OfWorker(l) { WorkerKeepsClaims(s, l, j); }
  }

  lemma StepKeepsInv(s: State, l: Label)
    requires Inv(s) && Enabled(s, l)
    ensures Inv(Apply(s, l))
  {
    StepKeepsPermits(s, l);
    forall j ensures ClaimInv(Apply(s, l), j) {
      assert ClaimInv(s, j);
      StepKeepsClaims(s, l, j);
    }
  }

  // ---- runs -------------------------------------------------------------

  function Moves(s: State, l: Label): Option<State> { if Enabled(s, l) then Some(Apply(s, l)) else None }

  ghost predicate RunsTo(s: State, labels: seq<Label>, s': State) { Runs.RunsTo(Moves, s, labels, s') }

  ghost predicate Reaches(s: State, s': State) { Runs.Reaches(Moves, s, s') }

  lemma {:induction false} RunKeepsInv(s: State, labels: seq<Label>, s': State)
    requires Inv(s) && RunsTo(s, labels, s')
    ensures Inv(s') && s'.max == s.max
    decreases |labels|
  {
    if labels != [] {
      StepKeepsInv(s, labels[0]);
      RunKeepsInv(Apply(s, labels[0]), labels[1..], s');
    }
  }

  lemma ReachableInv(s: State, s': State)
    requires Init(s) && Reaches(s, s')
    ensures Inv(s') && s'.max == s.max
  {
    var labels :| Runs.RunsTo(Moves, s, labels, s');
    RunKeepsInv(s, labels, s');
  }

  /** Nobody creates or loses a permit, and every claim made by this process and
      not abandoned is covered by the permit of one worker or of the dispatcher. */
  lemma PermitsConserved(s: State, s': State, j: nat)
    requires Init(s) && Reaches(s, s')
    ensures Balanced(s', |s'.workers|)
    ensures j in s'.claims ==>
              || j in s'.abandoned
              || (j in s'.workers && !s'.workers[j].Releasing?) || s'.dispatcher == Archiving(j)
  {
    ReachableInv(s, s');
    assert ClaimInv(s', j);
  }

  /** Whoever makes a claim held a permit before making it; the permit comes back
      only once the claim is finalized or abandoned. */
  lemma PermitBracketsClaim(s: State, l: Label, j: nat)
    requires Inv(s) && Enabled(s, l)
    ensures j !in s.claims && j in Apply(s, l).claims ==>
              (l.Prepare? && DispatcherHolds(s)) || (l.Write? && ReconcilerHolds(s))
    ensures Covered(s, j) && !Covered(Apply(s, l), j) ==>
              j !in Apply(s, l).claims || j in Apply(s, l).abandoned
    ensures j in s.workers && j !in Apply(s, l).workers ==> j !in Apply(s, l).claims || j in Apply(s, l).abandoned
  {
    assert ClaimInv(s, j);
    StepKeepsClaims(s, l, j);
  }

  /** A claim begins exactly by the verdict of a loop. */
  lemma ClaimBeginsExactly(s: State, l: Label, j: nat)
    requires Enabled(s, l) && j !in s.claims
    ensures j in Apply(s, l).claims <==> l == Prepare(Run(j)) || l == Prepare(Archive(j)) || l == Write(Run(j))
  {}

  /** It ends exactly by a finalize that succeeds, or by the expiry of an abandoned one. */
  lemma ClaimEndsExactly(s: State, l: Label, j: nat)
    requires Enabled(s, l) && j in s.claims
    ensures j !in Apply(s, l).claims <==>
              l == Finalize(j, true) || l == Expire(j) || (l == FinishArchive(true) && s.dispatcher == Archiving(j))
  {}

  /** And a claim is abandoned, with its permit given back, exactly when its finalize
      fails, its worker panics, or the dispatch future is dropped while archiving it. */
  lemma AbandonedExactly(s: State, l: Label, j: nat)
    requires Enabled(s, l) && j !in s.abandoned
    ensures j in Apply(s, l).abandoned <==>
              || l == Finalize(j, false) || l == Panic(j)
              || (s.dispatcher == Archiving(j) && (l == FinishArchive(false) || l.Complete? || l.Force?))
  {}

  // ---- the drain --------------------------------------------------------

  /** No job, and nothing in hand that may still become one. */
  predicate NothingHeld(s: State) { s.workers == map[] && !DispatcherHolds(s) && !ReconcilerHolds(s) }

  /** The drain has every permit it asks for exactly when no job runs and neither
      loop has a permit; whether or not `/resume` was posted meanwhile. */
  lemma DrainCompletesExactly(s: State, s': State)
    requires Init(s) && Reaches(s, s') && s'.max <= U32_MAX && s'.shutdown.Draining?
    ensures s'.free + s'.shutdown.got == Need(s'.max) <==> NothingHeld(s')
  {
    ReachableInv(s, s');
    assert |s'.workers| == 0 <==> s'.workers == map[];
  }

  predicate MakesClaim(l: Label) { (l.Prepare? || l.Write?) && !l.outcome.Skip? }

  predicate NoneResumes(labels: seq<Label>) { forall l :: l in labels ==> !l.Resume? }

  predicate NoneClaims(labels: seq<Label>) { forall l :: l in labels ==> !MakesClaim(l) }

  /** After the drain: paused, no job, and no reconciler past its last look at the
      pause flag. */
  predicate Shut(s: State) { s.dispatcher.Dropped? && s.paused && s.workers == map[] && !s.reconciler.Writing? }

  lemma {:induction false} ShutForever(s: State, labels: seq<Label>, s': State)
    requires Shut(s) && RunsTo(s, labels, s') && NoneResumes(labels)
    ensures Shut(s') && NoneClaims(labels)
    decreases |labels|
  {
    if labels != [] {
      assert labels == [labels[0]] + labels[1..];
      ShutForever(Apply(s, labels[0]), labels[1..], s');
    }
  }

  /** The step by which `run_shutdown` resolves to `Drained`. */
  predicate YieldsDrained(s: State, l: Label) {
    Enabled(s, l) && !s.shutdown.Drained? && Apply(s, l).shutdown.Drained?
  }

  /** Whatever step makes `run_shutdown` resolve to `Drained`, no job runs then and
      neither loop has a permit; a second interrupt in the middle of a job is no such
      step. */
  lemma DrainedOnlyWhenDone(s: State, t: State, l: Label)
    requires Init(s) && Reaches(s, t) && t.max <= U32_MAX && YieldsDrained(t, l)
    ensures t.shutdown.Draining? && NothingHeld(t) && t.free == 0
    ensures Apply(t, l).workers == map[] && Apply(t, l).dispatcher.Dropped?
  {
    ReachableInv(s, t);
    DrainCompletesExactly(s, t);
    assert Balanced(t, |t.workers|);
  }

  lemma {:induction false} StaysPaused(s: State, labels: seq<Label>, s': State)
    requires s.paused && RunsTo(s, labels, s') && NoneResumes(labels)
    ensures s'.paused
    decreases |labels|
  {
    if labels != [] {
      assert labels == [labels[0]] + labels[1..];
      StaysPaused(Apply(s, labels[0]), labels[1..], s');
    }
  }

  lemma Via(s: State, p: State, l: Label, labels: seq<Label>, t: State)
    requires Reaches(s, p) && Enabled(p, l) && RunsTo(Apply(p, l), labels, t)
    ensures Reaches(s, t)
  {
    Runs.After(Moves, s, p, l, labels, t);
  }

  /** Drain safety: with no `/resume` from the pause on, once `run_shutdown` yields
      `Drained` no job runs and neither loop ever claims another. */
  lemma DrainedMeansDone(s: State, p: State, during: seq<Label>, t: State, l: Label, after: seq<Label>, u: State)
    requires Init(s) && s.max <= U32_MAX && Reaches(s, p) && Enabled(p, SendPause)
    requires RunsTo(Apply(p, SendPause), during, t) && YieldsDrained(t, l) && NoneResumes(during)
    requires RunsTo(Apply(t, l), after, u) && NoneResumes(after)
    ensures t.workers == map[] && u.workers == map[] && NoneClaims(after)
  {
    Via(s, p, SendPause, during, t);
    ReachableInv(s, t);
    DrainedOnlyWhenDone(s, t, l);
    StaysPaused(Apply(p, SendPause), during, t);
    ShutForever(Apply(t, l), after, u);
  }

  // ---- exactly when the drain is sound ----------------------------------

  lemma Next(s: State, t: State, l: Label) returns (t': State)
    requires Reaches(s, t) && Enabled(t, l)
    ensures t' == Apply(t, l) && Reaches(s, t')
  {
    t' := Runs.Next(Moves, s, t, l);
  }

  function Fresh(max: nat): State { State(max, max, false, NotRequested, Receiving, Idle, map[], {}, {}) }

  lemma OneJobRunning(max: nat) returns (t: State)
    requires max > 0
    ensures Reaches(Fresh(max), t)
    ensures t == State(max, max - 1, false, NotRequested, Receiving, Idle, map[7 := Running], {7}, {})
  {
    var s := Fresh(max);
    assert RunsTo(s, [], s);
    t := Next(s, s, Receive);
    t := Next(s, t, SeeUnpaused);
    t := Next(s, t, Acquire);
    t := Next(s, t, Recheck);
    t := Next(s, t, Prepare(Run(7)));
  }

  /** With more permits than fit in a `u32` the drain asks for too few. */
  lemma DrainsTooEarly(max: nat) returns (t: State)
    requires max > U32_MAX
    ensures Reaches(Fresh(max), t) && YieldsDrained(t, Complete) && 7 in t.workers
  {
    var s := Fresh(max);
    t := OneJobRunning(max);
    t := Next(s, t, Request);
    t := Next(s, t, SendPause);
    t := Next(s, t, Gather(U32_MAX));
  }

  /** In all runs, with `/resume` or without, `run_shutdown` yields `Drained` only with
      no job running exactly when `max_concurrency` fits the `u32` of `acquire_many`. */
  lemma DrainSoundExactly(max: nat)
    ensures (forall t, l :: Reaches(Fresh(max), t) && YieldsDrained(t, l) ==> NothingHeld(t)) <==> max <= U32_MAX
  {
    if max <= U32_MAX {
      forall t, l | Reaches(Fresh(max), t) && YieldsDrained(t, l) ensures NothingHeld(t) {
        ReachableInv(Fresh(max), t);
        DrainedOnlyWhenDone(Fresh(max), t, l);
      }
    } else {
      var t := DrainsTooEarly(max);
    }
  }

  ghost predicate MayYieldDrained(s: State) { exists l :: YieldsDrained(s, l) }

  /** `run_shutdown` can resolve to `Drained` right now exactly when the drain has
      been granted every permit; until then it can only be forced. */
  lemma ResolvesExactly(s: State, t: State)
    requires Init(s) && Reaches(s, t) && t.max <= U32_MAX && t.shutdown.Draining?
    ensures MayYieldDrained(t) <==> t.free == 0 && NothingHeld(t)
    ensures !MayYieldDrained(t) <==> Enabled(t, Force)
    ensures Enabled(t, Force) ==> Apply(t, Force).shutdown.Forced?
  {
    ReachableInv(s, t);
    DrainCompletesExactly(s, t);
    if t.shutdown.got == Need(t.max) { assert YieldsDrained(t, Complete); }
    forall l | YieldsDrained(t, l) ensures t.shutdown.got == Need(t.max) { DrainedOnlyWhenDone(s, t, l); }
  }

  // ---- exactly when it is for good --------------------------------------

  /** The reconciler, spawned and so still alive, on its way to its next claim. */
  lemma ReconcilerAtTrying(s: State) returns (labels: seq<Label>, u: State)
    requires !s.paused && !ReconcilerHolds(s)
    ensures RunsTo(s, labels, u) && u == s.(reconciler := Trying) && NoneResumes(labels)
  {
    u := s.(reconciler := Trying);
    if s.reconciler.Idle? {
      labels := [Tick, CheckPause];
      assert labels[1..] == [CheckPause] && RunsTo(Apply(s, Tick), [CheckPause], u);
    } else if s.reconciler.Looking? {
      labels := [CheckPause];
    } else {
      labels := [];
    }
  }

  lemma ReconcilerClaims(s: State) returns (labels: seq<Label>, u: State)
    requires s.reconciler.Trying? && !s.paused && s.free > 0
    ensures RunsTo(s, labels, u) && NoneResumes(labels) && !NoneClaims(labels) && u.workers != map[]
  {
    var j := Unused(s.claims + s.workers.Keys);
    var x := Apply(s, TryAcquire);
    var y := Apply(x, Confirm);
    u := Apply(y, Write(Run(j)));
    labels := [TryAcquire, Confirm, Write(Run(j))];
    assert RunsTo(y, [Write(Run(j))], u);
    assert labels[1..] == [Confirm, Write(Run(j))] && labels[1..][1..] == [Write(Run(j))];
    assert RunsTo(x, labels[1..], u);
    assert labels[2] in labels && MakesClaim(labels[2]) && j in u.workers;
  }

  lemma ReconcilerReclaims(s: State) returns (labels: seq<Label>, u: State)
    requires !s.paused && !ReconcilerHolds(s) && s.free > 0
    ensures RunsTo(s, labels, u) && NoneResumes(labels) && !NoneClaims(labels) && u.workers != map[]
  {
    var xs, f := ReconcilerAtTrying(s);
    var ys, g := ReconcilerClaims(f);
    Runs.Join(Moves, s, xs, f, ys, g);
    labels, u := xs + ys, g;
    var l :| l in ys && MakesClaim(l);
    assert l in labels;
  }

  lemma ClaimsAgain(s: State, t: State, l: Label) returns (labels: seq<Label>, u: State)
    requires Init(s) && Reaches(s, t) && 0 < t.max <= U32_MAX && YieldsDrained(t, l) && !t.paused
    ensures RunsTo(Apply(t, l), labels, u) && NoneResumes(labels) && !NoneClaims(labels) && u.workers != map[]
  {
    DrainedOnlyWhenDone(s, t, l);
    ReachableInv(s, t);
    var d := Apply(t, l);
    var rest: seq<Label>;
    rest, u := ReconcilerReclaims(Apply(d, DropGuard));
    labels := [DropGuard] + rest;
    assert labels[1..] == rest;
    var claim :| claim in rest && MakesClaim(claim);
    assert claim in labels;
  }

  ghost predicate ClaimingRun(s: State, labels: seq<Label>, u: State) {
    RunsTo(s, labels, u) && NoneResumes(labels) && !NoneClaims(labels)
  }

  /** Some run from here claims another job, without a `/resume`. */
  ghost predicate MayClaimAgain(s: State) { exists labels, u :: ClaimingRun(s, labels, u) }

  /** A drain is for good, as long as nobody posts `/resume` from then on, exactly
      when the daemon is still paused at the moment `run_shutdown` yields `Drained`. */
  lemma DrainedForGoodExactly(s: State, t: State, l: Label)
    requires Init(s) && Reaches(s, t) && 0 < t.max <= U32_MAX && YieldsDrained(t, l)
    ensures !MayClaimAgain(Apply(t, l)) <==> t.paused
  {
    DrainedOnlyWhenDone(s, t, l);
    if t.paused {
      forall labels, u ensures !ClaimingRun(Apply(t, l), labels, u) {
        if RunsTo(Apply(t, l), labels, u) && NoneResumes(labels) { ShutForever(Apply(t, l), labels, u); }
      }
    } else {
      var labels, u := ClaimsAgain(s, t, l);
      assert ClaimingRun(Apply(t, l), labels, u);
    }
  }

  lemma PausedForDrain() returns (t: State)
    ensures Reaches(Fresh(1), t) && t == Fresh(1).(paused := true, shutdown := Draining(0))
  {
    var s := Fresh(1);
    assert RunsTo(s, [], s);
    t := Next(s, s, Request);
    t := Next(s, t, SendPause);
  }

  lemma ResumedDuringDrain() returns (t: State)
    ensures Reaches(Fresh(1), t) && t == Fresh(1).(free := 0, shutdown := Draining(1))
  {
    t := PausedForDrain();
    t := Next(Fresh(1), t, Resume);
    t := Next(Fresh(1), t, Gather(1));
  }

  /** A `/resume` during the drain: it completes with no job running, and the
      reconciler starts one afterwards. */
  lemma ResumeReopensDrain() returns (t: State, l: Label, labels: seq<Label>, u: State)
    ensures Reaches(Fresh(1), t) && YieldsDrained(t, l) && t.workers == map[]
    ensures RunsTo(Apply(t, l), labels, u) && NoneResumes(labels) && u.workers != map[]
  {
    t := ResumedDuringDrain();
    l := Complete;
    labels, u := ClaimsAgain(Fresh(1), t, l);
  }

  // ---- what a pause promises --------------------------------------------

  /** `/pause` arrives just after the dispatcher looked: a permit is acquired while
      paused, whatever the number of permits. */
  lemma AcquiresWhilePaused(max: nat) returns (p: State, t: State)
    requires max > 0
    ensures Reaches(Fresh(max), p) && p.paused && p.free == max && Enabled(p, Acquire)
    ensures t == Apply(p, Acquire) && t.paused && t.free == max - 1
  {
    var s := Fresh(max);
    assert RunsTo(s, [], s);
    p := Next(s, s, Receive);
    p := Next(s, p, SeeUnpaused);
    p := Next(s, p, Pause);
    t := Apply(p, Acquire);
  }

  /** A step after which a loop has a permit that it did not have before. */
  predicate Acquires(s: State, l: Label)
    requires Enabled(s, l)
  {
    || (!DispatcherHolds(s) && DispatcherHolds(Apply(s, l)))
    || (!ReconcilerHolds(s) && ReconcilerHolds(Apply(s, l)))
  }

  /** The loops that are past the look at the pause flag that precedes an acquire. */
  function AtAcquire(s: State): nat {
    (if s.dispatcher.Acquiring? then 1 else 0) + (if s.reconciler.Trying? then 1 else 0)
  }

  function Acquisitions(s: State, labels: seq<Label>): nat
    decreases |labels|
  {
    if labels == [] || !Enabled(s, labels[0]) then 0
    else (if Acquires(s, labels[0]) then 1 else 0) + Acquisitions(Apply(s, labels[0]), labels[1..])
  }

  lemma PausedStepAcquires(s: State, l: Label)
    requires s.paused && Enabled(s, l) && !l.Resume?
    ensures Apply(s, l).paused && (if Acquires(s, l) then 1 else 0) + AtAcquire(Apply(s, l)) <= AtAcquire(s)
  {}

  /** What the comment comes to: from a pause on, until somebody resumes, the permits
      acquired and the loops still about to acquire one number at most the loops that
      were about to when it began. */
  lemma {:induction false} PausedAcquisitionsBounded(s: State, labels: seq<Label>, s': State)
    requires s.paused && RunsTo(s, labels, s') && NoneResumes(labels)
    ensures Acquisitions(s, labels) + AtAcquire(s') <= AtAcquire(s)
    decreases |labels|
  {
    if labels != [] {
      assert labels == [labels[0]] + labels[1..];
      PausedStepAcquires(s, labels[0]);
      PausedAcquisitionsBounded(Apply(s, labels[0]), labels[1..], s');
    }
  }

  ghost predicate AcquiringRun(s: State, labels: seq<Label>, s': State, n: nat) {
    RunsTo(s, labels, s') && NoneResumes(labels) && Acquisitions(s, labels) == n
  }

  /** Some run from here acquires exactly `n` permits before anybody posts `/resume`. */
  ghost predicate MayAcquire(s: State, n: nat) { exists labels, s' :: AcquiringRun(s, labels, s', n) }

  /** One more acquisition, after which the permit is handed back. */
  lemma AcquiresAndReturns(s: State) returns (l: Label, back: Label)
    requires s.paused && s.free > 0 && AtAcquire(s) > 0
    ensures Enabled(s, l) && Acquires(s, l)
    ensures Enabled(Apply(s, l), back) && !back.Resume? && !Acquires(Apply(s, l), back)
    ensures var u := Apply(Apply(s, l), back); u.paused && u.free == s.free && AtAcquire(u) == AtAcquire(s) - 1
  {
    if s.dispatcher.Acquiring? { l, back := Acquire, Recheck; } else { l, back := TryAcquire, Confirm; }
  }

  lemma {:induction false} AcquiresUpTo(s: State, n: nat) returns (labels: seq<Label>, s': State)
    requires s.paused && s.free > 0 && n <= AtAcquire(s)
    ensures AcquiringRun(s, labels, s', n)
    decreases n
  {
    labels, s' := [], s;
    if n > 0 {
      var l, back := AcquiresAndReturns(s);
      var t := Apply(s, l);
      labels, s' := AcquiresUpTo(Apply(t, back), n - 1);
      labels := [l] + ([back] + labels);
    }
  }

  /** A step by which a permit comes nearer to being free, while no loop acquires. */
  predicate Frees(s: State, l: Label) {
    Enabled(s, l) && !l.Resume? && !Acquires(s, l) && Apply(s, l).paused && Apply(s, l).max == s.max
    && AtAcquire(Apply(s, l)) == AtAcquire(s) && Guarded(Apply(s, l)) == Guarded(s)
  }

  lemma LoopFrees(s: State) returns (l: Label)
    requires s.paused && (DispatcherHolds(s) || ReconcilerHolds(s))
    ensures Frees(s, l) && Apply(s, l).free == s.free + 1
  {
    l := if s.dispatcher.Rechecking? then Recheck
         else if s.dispatcher.Preparing? then Prepare(Skip)
         else if s.dispatcher.Archiving? then FinishArchive(true)
         else if s.reconciler.Confirming? then Confirm
         else Write(Skip);
  }

  /** How far worker `j` is from handing its permit back. */
  function ToGo(s: State, j: nat): nat {
    if j !in s.workers then 0
    else match s.workers[j] case Running => 3 case Finalizing => 2 case Releasing => 1
  }

  lemma {:induction false} WorkerFrees(s: State, j: nat) returns (labels: seq<Label>, s': State)
    requires s.paused && j in s.workers
    ensures AcquiringRun(s, labels, s', 0) && s'.paused && s'.free > 0 && AtAcquire(s') == AtAcquire(s)
    decreases ToGo(s, j)
  {
    var l := match s.workers[j]
      case Running => JobEnds(j)
      case Finalizing => Finalize(j, true)
      case Releasing => Release(j);
    assert Frees(s, l);
    labels, s' := [], Apply(s, l);
    if !l.Release? { labels, s' := WorkerFrees(Apply(s, l), j); }
    labels := [l] + labels;
  }

  /** A permit is free sooner or later, since whoever holds one can hand it back. */
  lemma SomethingFrees(s: State) returns (labels: seq<Label>, s': State)
    requires PermitInv(s) && s.paused && s.max > 0 && Guarded(s) == 0
    ensures AcquiringRun(s, labels, s', 0) && s'.paused && s'.free > 0 && AtAcquire(s') == AtAcquire(s)
  {
    labels, s' := [], s;
    if s.free == 0 {
      if DispatcherHolds(s) || ReconcilerHolds(s) {
        var l := LoopFrees(s);
        s' := Apply(s, l);
        labels := [l] + [];
      } else {
        assert |s.workers.Keys| == |s.workers| > 0;
        var j :| j in s.workers.Keys;
        labels, s' := WorkerFrees(s, j);
      }
    }
  }

  lemma {:induction false} RunsAcquireInTurn(s: State, xs: seq<Label>, m: State, ys: seq<Label>, t: State, n: nat)
    requires AcquiringRun(s, xs, m, 0) && AcquiringRun(m, ys, t, n)
    ensures AcquiringRun(s, xs + ys, t, n)
    decreases |xs|
  {
    if xs == [] {
      assert xs + ys == ys;
    } else {
      assert xs == [xs[0]] + xs[1..];
      RunsAcquireInTurn(Apply(s, xs[0]), xs[1..], m, ys, t, n);
      assert [xs[0]] + (xs[1..] + ys) == xs + ys;
    }
  }

  /** Over every run that reaches a pause, as long as the drain has gathered nothing:
      from there until somebody resumes, exactly so many permits can be acquired as
      loops were about to when the pause began; none, when both had seen it. */
  lemma PausedAcquisitionsExactly(s: State, p: State, n: nat)
    requires Init(s) && s.max > 0 && Reaches(s, p) && p.paused && Guarded(p) == 0
    ensures MayAcquire(p, n) <==> n <= AtAcquire(p)
  {
    ReachableInv(s, p);
    if n <= AtAcquire(p) {
      var xs, m := SomethingFrees(p);
      var ys, t := AcquiresUpTo(m, n);
      RunsAcquireInTurn(p, xs, m, ys, t, n);
    }
    forall labels, s' | AcquiringRun(p, labels, s', n) ensures n <= AtAcquire(p) {
      PausedAcquisitionsBounded(p, labels, s');
    }
  }

  /** The loops that have looked at the pause flag for the last time before a claim. */
  function InHand(s: State): nat {
    (if s.dispatcher.Preparing? then 1 else 0) + (if s.reconciler.Writing? then 1 else 0)
  }

  function ClaimsMade(labels: seq<Label>): nat {
    if labels == [] then 0 else (if MakesClaim(labels[0]) then 1 else 0) + ClaimsMade(labels[1..])
  }

  /** A permit acquired while paused never becomes a claim: the claims made from a
      pause on, and those still in hand, were in hand when it began. */
  lemma {:induction false} PausedClaimsBounded(s: State, labels: seq<Label>, s': State)
    requires s.paused && RunsTo(s, labels, s') && NoneResumes(labels)
    ensures ClaimsMade(labels) + InHand(s') <= InHand(s)
    decreases |labels|
  {
    if labels != [] {
      assert labels == [labels[0]] + labels[1..];
      PausedClaimsBounded(Apply(s, labels[0]), labels[1..], s');
    }
  }

  ghost predicate CountedRun(s: State, labels: seq<Label>, s': State, n: nat) {
    RunsTo(s, labels, s') && NoneResumes(labels) && ClaimsMade(labels) == n
  }

  /** Some run from here makes exactly `n` claims before anybody posts `/resume`. */
  ghost predicate MayClaim(s: State, n: nat) { exists labels, s' :: CountedRun(s, labels, s', n) }

  lemma ClaimInHand(s: State) returns (l: Label)
    requires s.paused && InHand(s) > 0
    ensures Enabled(s, l) && MakesClaim(l) && Apply(s, l).paused && InHand(Apply(s, l)) == InHand(s) - 1
  {
    var j := Unused(s.claims + s.workers.Keys);
    l := if s.dispatcher.Preparing? then Prepare(Run(j)) else Write(Run(j));
  }

  lemma {:induction false} ClaimsInHand(s: State, n: nat) returns (labels: seq<Label>, s': State)
    requires s.paused && n <= InHand(s)
    ensures CountedRun(s, labels, s', n)
    decreases n
  {
    labels, s' := [], s;
    if n > 0 {
      var l := ClaimInHand(s);
      labels, s' := ClaimsInHand(Apply(s, l), n - 1);
      assert ([l] + labels)[1..] == labels;
      labels := [l] + labels;
    }
  }

  /** From a pause on, until somebody resumes, a run can make exactly as many claims
      as were in hand when it began, or fewer: at most one per loop, and none of
      them under a permit acquired later. */
  lemma PausedClaimsExactly(s: State, n: nat)
    requires s.paused
    ensures MayClaim(s, n) <==> n <= InHand(s)
  {
    if n <= InHand(s) {
      var labels, s' := ClaimsInHand(s, n);
    }
    forall labels, s' | CountedRun(s, labels, s', n) ensures n <= InHand(s) {
      PausedClaimsBounded(s, labels, s');
    }
  }
}
