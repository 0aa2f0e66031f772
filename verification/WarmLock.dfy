/** The host-level warm lock: any number of shell processes, a symlink naming the
    holder's PID, and a reclaim mutex directory. Every test and every filesystem
    call of the script is one step; SIGKILL can strike at any of them and PIDs
    are not reused. */
module WarmLock {
  import opened Names
  import Runs

  /** What sits at the lock path. A legacy lock is a directory left over from
      before the symlink format; nothing creates one any more. */
  datatype LockObj = Link(pid: nat) | LegacyDir(owner: Option<nat>)

  datatype Pc =
    // acquire_lock
    | DirTest | LinkNow | SetHeld | ReadOwner | Judge(owner: Option<nat>) | Backoff
    // reclaim_if_stale; `seen` is the lock at the owner re-read
    | TakeMutex | SetReclaiming | Reread | TestPresent(seen: Option<LockObj>) | TestAlive(seen: Option<LockObj>)
    | Remove | DropMutex(removed: bool) | ClearReclaiming(removed: bool)
    // the critical section, and the EXIT trap
    | Critical | TrapMutex | TrapLock | Exiting

  datatype Proc = Proc(pc: Pc, held: bool, reclaiming: bool)

  /** `mutex` names the process that created the reclaim directory (the script
      only sees that it exists); `used` are the PIDs seen so far. */
  datatype State = State(lock: Option<LockObj>, mutex: Option<nat>, procs: map<nat, Proc>, used: set<nat>)

  datatype Label =
    | Start(pid: nat) | Go(pid: nat) | Leave(pid: nat) | GiveUp(pid: nat) | Signal(pid: nat) | Kill(pid: nat)

  function OwnerOf(lock: Option<LockObj>): Option<nat> {
    match lock
    case None => None
    case Some(Link(p)) => Some(p)
    case Some(LegacyDir(o)) => o
  }

  predicate Alive(s: State, pid: Option<nat>) { pid.Some? && pid.value in s.procs }

  function At(s: State, p: nat, proc: Proc): State { s.(procs := s.procs[p := proc]) }

  function Goto(s: State, p: nat, pc: Pc): State
    requires p in s.procs
  {
    At(s, p, s.procs[p].(pc := pc))
  }

  /** The next test or filesystem call of process `p`. */
  function Step(s: State, p: nat): State
    requires p in s.procs && !s.procs[p].pc.Critical?
  {
    match s.procs[p].pc
    case DirTest => Goto(s, p, if s.lock.Some? && s.lock.value.LegacyDir? then ReadOwner else LinkNow)
    case LinkNow =>
      if s.lock.None? then Goto(s.(lock := Some(Link(p))), p, SetHeld)
      else if s.lock.value.LegacyDir? then Goto(s, p, SetHeld)  // `ln -s` into a directory succeeds
      else Goto(s, p, ReadOwner)
    case SetHeld => At(s, p, Proc(Critical, true, s.procs[p].reclaiming))
    case ReadOwner => Goto(s, p, Judge(OwnerOf(s.lock)))
    case Judge(owner) => Goto(s, p, if Alive(s, owner) then Backoff else TakeMutex)
    case Backoff => Goto(s, p, DirTest)
    case TakeMutex => if s.mutex.None? then Goto(s.(mutex := Some(p)), p, SetReclaiming) else Goto(s, p, Backoff)
    case SetReclaiming => At(s, p, Proc(Reread, s.procs[p].held, true))
    case Reread => Goto(s, p, TestPresent(s.lock))
    case TestPresent(seen) => Goto(s, p, if s.lock.Some? then TestAlive(seen) else DropMutex(false))
    case TestAlive(seen) => Goto(s, p, if Alive(s, OwnerOf(seen)) then DropMutex(false) else Remove)
    case Remove => Goto(s.(lock := None), p, DropMutex(true))
    case DropMutex(removed) => Goto(s.(mutex := None), p, ClearReclaiming(removed))
    case ClearReclaiming(removed) => At(s, p, Proc(if removed then DirTest else Backoff, s.procs[p].held, false))
    case TrapMutex =>
      if s.procs[p].reclaiming then At(s.(mutex := None), p, Proc(TrapLock, s.procs[p].held, false))
      else Goto(s, p, TrapLock)
    case TrapLock => if s.procs[p].held then Goto(s.(lock := None), p, Exiting) else Goto(s, p, Exiting)
    case Exiting => s.(procs := s.procs - {p})
  }

  predicate InTrap(pc: Pc) { pc.TrapMutex? || pc.TrapLock? || pc.Exiting? }

  predicate Enabled(s: State, l: Label) {
    match l
    case Start(p) => p !in s.used
    case Go(p) => p in s.procs && !s.procs[p].pc.Critical?
    case Leave(p) => p in s.procs && s.procs[p].pc.Critical?
    case GiveUp(p) => p in s.procs && s.procs[p].pc.Backoff?
    case Signal(p) => p in s.procs && !InTrap(s.procs[p].pc)
    case Kill(p) => p in s.procs
  }

  function Apply(s: State, l: Label): State
    requires Enabled(s, l)
  {
    match l
    case Start(p) => s.(procs := s.procs[p := Proc(DirTest, false, false)], used := s.used + {p})
    case Go(p) => Step(s, p)
    case Leave(p) => Goto(s, p, TrapMutex)
    case GiveUp(p) => Goto(s, p, TrapMutex)
    case Signal(p) => Goto(s, p, TrapMutex)
    case Kill(p) => s.(procs := s.procs - {p})
  }

  // ---- hypotheses -------------------------------------------------------

  /** No trappable signal lands between the `rmdir` of the reclaim mutex and
      `reclaiming=0`: the trap would remove somebody else's mutex. */
  predicate CalmSignals(s: State, l: Label) {
    l.Signal? && l.pid in s.procs ==> !s.procs[l.pid].pc.ClearReclaiming?
  }

  /** The lock at the existence test, and still at the liveness test, is the one
      whose owner was re-read. */
  predicate SteadyLock(s: State, l: Label) {
    l.Go? && l.pid in s.procs ==>
      match s.procs[l.pid].pc
      case TestPresent(seen) => s.lock == seen
      case TestAlive(seen) => s.lock == seen
      case _ => true
  }

  // ---- the invariant ----------------------------------------------------

  /** From the successful `ln -s` to the `rm` in the trap. */
  predicate Holding(proc: Proc) { proc.pc.SetHeld? || (proc.held && !proc.pc.Exiting?) }

  predicate OwnsMutex(proc: Proc) {
    proc.pc.SetReclaiming? || (proc.reclaiming && !proc.pc.ClearReclaiming?)
  }

  predicate Stale(s: State) {
    s.lock.Some? && (s.lock.value.Link? ==> s.lock.value.pid !in s.procs)
  }

  predicate Reclaiming(pc: Pc) {
    pc.Reread? || pc.TestPresent? || pc.TestAlive? || pc.Remove? || pc.DropMutex? || pc.ClearReclaiming?
  }

  predicate FlagsAgree(proc: Proc) {
    && (proc.held ==> proc.pc.Critical? || InTrap(proc.pc))
    && (proc.pc.Critical? ==> proc.held)
    && (Reclaiming(proc.pc) ==> proc.reclaiming)
    && (proc.reclaiming ==> Reclaiming(proc.pc) || proc.pc.TrapMutex?)
  }

  /** A holder is the process the symlink names. */
  predicate HolderNamed(s: State, p: nat) {
    p in s.procs && Holding(s.procs[p]) ==> s.lock == Some(Link(p))
  }

  predicate CoreInv(s: State, p: nat) {
    && HolderNamed(s, p)
    && (p in s.procs ==>
          && FlagsAgree(s.procs[p])
          && (s.procs[p].pc.LinkNow? ==> !(s.lock.Some? && s.lock.value.LegacyDir?)))
  }

  /** A link names a PID that has been used. */
  predicate Known(s: State, lock: Option<LockObj>) {
    lock.Some? && lock.value.Link? ==> lock.value.pid in s.used
  }

  /** What the reclaim section relies on. */
  predicate ReclaimInv(s: State, p: nat) {
    p in s.procs ==>
      var proc := s.procs[p];
      && p in s.used
      && (OwnsMutex(proc) ==> s.mutex == Some(p))
      && (proc.pc.TestAlive? ==> proc.pc.seen.Some?)
      && (proc.pc.TestPresent? || proc.pc.TestAlive? ==> Known(s, proc.pc.seen))
      && (proc.pc.Remove? ==> Stale(s))
  }

  ghost predicate AllCore(s: State) { forall p :: CoreInv(s, p) }

  ghost predicate Inv(s: State) {
    && AllCore(s)
    && (forall p :: ReclaimInv(s, p))
    && Known(s, s.lock)
  }

  /** The host may start with a stale lock of either format, and with a reclaim
      mutex leaked by a crash. */
  predicate Init(s: State) {
    s.procs == map[] && (OwnerOf(s.lock).Some? ==> OwnerOf(s.lock).value in s.used)
  }

  lemma InitInv(s: State)
    requires Init(s)
    ensures Inv(s)
  {}

  /** The reclaimer's `rm` finds no live process holding the lock. */
  ghost predicate SafeRemoval(s: State, l: Label) {
    l.Go? && l.pid in s.procs && s.procs[l.pid].pc.Remove? ==>
      forall q :: q in s.procs ==> !Holding(s.procs[q])
  }

  lemma OwnCoreKept(s: State, l: Label)
    requires CoreInv(s, l.pid) && Enabled(s, l) && SafeRemoval(s, l)
    ensures CoreInv(Apply(s, l), l.pid)
  {}

  lemma CoreKept(s: State, l: Label, q: nat)
    requires CoreInv(s, q) && CoreInv(s, l.pid) && Enabled(s, l) && SafeRemoval(s, l)
    ensures CoreInv(Apply(s, l), q)
  {
    if q == l.pid { OwnCoreKept(s, l); }
  }

  lemma OwnReclaimKept(s: State, l: Label)
    requires CoreInv(s, l.pid) && ReclaimInv(s, l.pid) && Known(s, s.lock)
    requires Enabled(s, l) && CalmSignals(s, l) && SteadyLock(s, l)
    ensures ReclaimInv(Apply(s, l), l.pid)
  {}

  lemma ReclaimKept(s: State, l: Label, q: nat)
    requires CoreInv(s, q) && CoreInv(s, l.pid) && ReclaimInv(s, q) && ReclaimInv(s, l.pid) && Known(s, s.lock)
    requires Enabled(s, l) && CalmSignals(s, l) && SteadyLock(s, l)
    ensures ReclaimInv(Apply(s, l), q)
  {
    if q == l.pid { OwnReclaimKept(s, l); }
  }

  lemma StepKeepsInv(s: State, l: Label)
    requires Inv(s) && Enabled(s, l) && CalmSignals(s, l) && SteadyLock(s, l)
    ensures Inv(Apply(s, l)) && SafeRemoval(s, l)
  {
    assert CoreInv(s, l.pid) && ReclaimInv(s, l.pid);
    assert SafeRemoval(s, l) by {
      forall q | Stale(s) && q in s.procs ensures !Holding(s.procs[q]) { assert CoreInv(s, q); }
    }
    forall q ensures CoreInv(Apply(s, l), q) && ReclaimInv(Apply(s, l), q) {
      assert CoreInv(s, q) && ReclaimInv(s, q);
      CoreKept(s, l, q);
      ReclaimKept(s, l, q);
    }
  }

  // ---- runs -------------------------------------------------------------

  /** How much is assumed of each step: nothing; calm signals; also that a non-empty
      owner was re-read and the lock at the existence test is the re-read one; or
      that it is still the re-read one at the liveness test. Or, to speak of what a
      process does by itself, that it is the only one to move. */
  datatype Hypothesis = Anything | Calm | SameAtExistenceTest | SameUntilDecision | Alone(pid: nat)

  predicate Assumed(h: Hypothesis, s: State, l: Label) {
    && (!h.Anything? ==> CalmSignals(s, l))
    && (h.SameUntilDecision? || h.Alone? ==> SteadyLock(s, l))
    && (h.SameAtExistenceTest? && l.Go? && l.pid in s.procs && s.procs[l.pid].pc.TestPresent? ==>
          s.lock == s.procs[l.pid].pc.seen && OwnerOf(s.lock).Some?)
    && (h.Alone? ==> l == Start(h.pid) || l == Go(h.pid))
  }

  /** Process `p` may move. */
  predicate Moving(h: Hypothesis, p: nat) { h.Alone? ==> h.pid == p }

  predicate Allowed(h: Hypothesis, s: State, l: Label) { Enabled(s, l) && Assumed(h, s, l) }

  function Moves(h: Hypothesis): Runs.Steps<State, Label> {
    (s, l) => if Allowed(h, s, l) then Some(Apply(s, l)) else None
  }

  ghost predicate RunsTo(h: Hypothesis, s: State, labels: seq<Label>, s': State) {
    Runs.RunsTo(Moves(h), s, labels, s')
  }

  ghost predicate Reaches(h: Hypothesis, s: State, s': State) { Runs.Reaches(Moves(h), s, s') }

  lemma {:induction false} RunKeepsInv(s: State, labels: seq<Label>, s': State)
    requires Inv(s) && RunsTo(SameUntilDecision, s, labels, s')
    ensures Inv(s')
    decreases |labels|
  {
    if labels != [] {
      StepKeepsInv(s, labels[0]);
      RunKeepsInv(Apply(s, labels[0]), labels[1..], s');
    }
  }

  lemma ReachableInv(s: State, s': State)
    requires Init(s) && Reaches(SameUntilDecision, s, s')
    ensures Inv(s')
  {
    InitInv(s);
    var labels :| Runs.RunsTo(Moves(SameUntilDecision), s, labels, s');
    RunKeepsInv(s, labels, s');
  }

  // ---- mutual exclusion -------------------------------------------------

  predicate InCriticalSection(s: State, p: nat) { p in s.procs && s.procs[p].pc.Critical? }

  /** For any number of processes and SIGKILL at any step, at most one live
      process is in its critical section, and while it is, and until its trap
      removes the lock, the symlink names it. */
  lemma MutualExclusion(s: State, s': State, p: nat, q: nat)
    requires Init(s) && Reaches(SameUntilDecision, s, s')
    requires p in s'.procs && Holding(s'.procs[p])
    ensures s'.lock == Some(Link(p))
    ensures InCriticalSection(s', q) ==> q == p
  {
    ReachableInv(s, s');
    assert CoreInv(s', p) && CoreInv(s', q);
  }

  /** A reclaimer about to remove a lock removes one whose owner is dead, and no
      other process holds the lock or is inside the reclaim section. */
  lemma ReclaimsOnlyDead(s: State, s': State, p: nat)
    requires Init(s) && Reaches(SameUntilDecision, s, s')
    requires p in s'.procs && s'.procs[p].pc.Remove?
    ensures s'.lock.Some? && (s'.lock.value.Link? ==> s'.lock.value.pid !in s'.procs)
    ensures forall q :: q in s'.procs && q != p ==> !OwnsMutex(s'.procs[q]) && !Holding(s'.procs[q])
  {
    ReachableInv(s, s');
    assert CoreInv(s', p) && ReclaimInv(s', p);
    forall q | q in s'.procs && q != p ensures !OwnsMutex(s'.procs[q]) && !Holding(s'.procs[q]) {
      assert CoreInv(s', q) && ReclaimInv(s', q);
    }
  }

  /** At every state of the run, the symlink names whoever holds the lock. */
  ghost predicate AlwaysNamed(s: State, labels: seq<Label>)
    decreases |labels|
  {
    && (forall p :: HolderNamed(s, p))
    && (labels != [] && Enabled(s, labels[0]) ==> AlwaysNamed(Apply(s, labels[0]), labels[1..]))
  }

  ghost predicate AlwaysSafe(s: State, labels: seq<Label>)
    decreases |labels|
  {
    labels != [] && Enabled(s, labels[0]) ==>
      SafeRemoval(s, labels[0]) && AlwaysSafe(Apply(s, labels[0]), labels[1..])
  }

  lemma UnsafeRemovalBreaks(s: State, l: Label)
    requires AllCore(s) && Enabled(s, l) && !SafeRemoval(s, l)
    ensures exists q :: !HolderNamed(Apply(s, l), q)
  {
    assert CoreInv(s, l.pid);
    var q :| q in s.procs && Holding(s.procs[q]);
    assert CoreInv(s, q);
    assert !HolderNamed(Apply(s, l), q);
  }

  /** Whatever is assumed of the owner re-read, a run keeps the symlink naming
      its holder exactly when no reclaim `rm` meets a live holder. */
  lemma {:induction false} NamedExactlyWhenRemovalsSafe(s: State, labels: seq<Label>, s': State)
    requires AllCore(s) && RunsTo(Anything, s, labels, s')
    ensures AlwaysNamed(s, labels) <==> AlwaysSafe(s, labels)
    decreases |labels|
  {
    assert forall p :: CoreInv(s, p) ==> HolderNamed(s, p);
    if labels != [] {
      var t := Apply(s, labels[0]);
      if SafeRemoval(s, labels[0]) {
        forall q ensures CoreInv(t, q) { CoreKept(s, labels[0], q); }
        NamedExactlyWhenRemovalsSafe(t, labels[1..], s');
      } else {
        UnsafeRemovalBreaks(s, labels[0]);
      }
    }
  }

  ghost predicate TwoHolders(s: State) {
    exists p, q :: p != q && InCriticalSection(s, p) && InCriticalSection(s, q)
  }

  ghost predicate NeverTwoHolders(s: State, labels: seq<Label>)
    decreases |labels|
  {
    !TwoHolders(s) && (labels != [] && Enabled(s, labels[0]) ==> NeverTwoHolders(Apply(s, labels[0]), labels[1..]))
  }

  lemma NamedExcludesTwo(s: State)
    requires AllCore(s)
    ensures !TwoHolders(s)
  {
    forall p, q | p != q && InCriticalSection(s, p) ensures !InCriticalSection(s, q) {
      assert CoreInv(s, p) && CoreInv(s, q);
    }
  }

  lemma {:induction false} RunExcludesTwoHolders(s: State, labels: seq<Label>, s': State)
    requires AllCore(s) && RunsTo(Anything, s, labels, s') && AlwaysSafe(s, labels)
    ensures NeverTwoHolders(s, labels)
    decreases |labels|
  {
    NamedExcludesTwo(s);
    if labels != [] {
      var t := Apply(s, labels[0]);
      forall q ensures CoreInv(t, q) { CoreKept(s, labels[0], q); }
      RunExcludesTwoHolders(t, labels[1..], s');
    }
  }

  /** So a run from the start whose reclaim removals meet no live holder never has
      two processes in the critical section. */
  lemma SafeRemovalsExcludeTwoHolders(s: State, labels: seq<Label>, s': State)
    requires Init(s) && RunsTo(Anything, s, labels, s') && AlwaysSafe(s, labels)
    ensures NeverTwoHolders(s, labels)
  {
    InitInv(s);
    RunExcludesTwoHolders(s, labels, s');
  }

  // ---- why the hypothesis is needed -------------------------------------

  lemma Next(h: Hypothesis, from: State, s: State, l: Label)
    requires Reaches(h, from, s) && Allowed(h, s, l)
    ensures Reaches(h, from, Apply(s, l))
  {
    var t := Runs.Next(Moves(h), from, s, l);
  }

  const INSIDE: Proc := Proc(Critical, true, false)

  /** A process about to try finds no lock and takes it. */
  lemma Relink(h: Hypothesis, from: State, s: State, p: nat) returns (t: State)
    requires Moving(h, p)
    requires Reaches(h, from, s) && p in s.procs && s.procs[p] == Proc(DirTest, false, false) && s.lock.None?
    ensures Reaches(h, from, t)
    ensures t == State(Some(Link(p)), s.mutex, s.procs[p := INSIDE], s.used)
  {
    t := s;
    Next(h, from, t, Go(p));
    t := Apply(t, Go(p));
    Next(h, from, t, Go(p));
    t := Apply(t, Go(p));
    Next(h, from, t, Go(p));
    t := Apply(t, Go(p));
  }

  /** A new process finds no lock and takes it. */
  lemma Acquire(h: Hypothesis, from: State, s: State, p: nat) returns (t: State)
    requires Moving(h, p)
    requires Reaches(h, from, s)
    requires p !in s.used && p !in s.procs && s.lock.None?
    ensures Reaches(h, from, t)
    ensures t == State(Some(Link(p)), s.mutex, s.procs[p := INSIDE], s.used + {p})
  {
    Next(h, from, s, Start(p));
    t := Relink(h, from, Apply(s, Start(p)), p);
  }

  /** A new process finds a lock and goes to read its owner. */
  lemma Contend(h: Hypothesis, from: State, s: State, p: nat) returns (t: State)
    requires Moving(h, p)
    requires Reaches(h, from, s)
    requires p !in s.used && p !in s.procs && s.lock.Some? && s.lock.value.Link?
    ensures Reaches(h, from, t)
    ensures t == State(s.lock, s.mutex, s.procs[p := Proc(ReadOwner, false, false)], s.used + {p})
  {
    t := s;
    Next(h, from, t, Start(p));
    t := Apply(t, Start(p));
    Next(h, from, t, Go(p));
    t := Apply(t, Go(p));
    Next(h, from, t, Go(p));
    t := Apply(t, Go(p));
  }

  /** The EXIT trap, from start to exit. */
  lemma TrapRuns(h: Hypothesis, from: State, s: State, p: nat) returns (t: State)
    requires !h.Alone? && Reaches(h, from, s) && p in s.procs && s.procs[p].pc.TrapMutex?
    ensures Reaches(h, from, t)
    ensures var proc := s.procs[p];
            t == State(if proc.held then None else s.lock, if proc.reclaiming then None else s.mutex,
                       s.procs - {p}, s.used)
  {
    t := s;
    Next(h, from, t, Go(p));
    t := Apply(t, Go(p));
    Next(h, from, t, Go(p));
    t := Apply(t, Go(p));
    Next(h, from, t, Go(p));
    t := Apply(t, Go(p));
  }

  /** The holder leaves; its trap removes the lock and it exits. */
  lemma Release(h: Hypothesis, from: State, s: State, p: nat) returns (t: State)
    requires !h.Alone? && Reaches(h, from, s)
    requires p in s.procs && s.procs[p] == INSIDE
    ensures Reaches(h, from, t)
    ensures t == State(None, s.mutex, s.procs - {p}, s.used)
  {
    Next(h, from, s, Leave(p));
    t := TrapRuns(h, from, Apply(s, Leave(p)), p);
  }

  /** A waiter that finds no owner goes for the reclaim mutex, and takes it. */
  lemma SeeNoOwner(h: Hypothesis, from: State, s: State, p: nat) returns (t: State)
    requires Moving(h, p)
    requires Reaches(h, from, s)
    requires p in s.procs && s.procs[p] == Proc(ReadOwner, false, false) && s.lock.None?
    ensures Reaches(h, from, t)
    ensures t == State(s.lock, s.mutex, s.procs[p := Proc(TakeMutex, false, false)], s.used)
  {
    Next(h, from, s, Go(p));
    t := Apply(s, Go(p));
    Next(h, from, t, Go(p));
    t := Apply(t, Go(p));
  }

  lemma EnterReclaim(h: Hypothesis, from: State, s: State, p: nat) returns (t: State)
    requires Moving(h, p)
    requires Reaches(h, from, s)
    requires p in s.procs && s.procs[p] == Proc(TakeMutex, false, false) && s.mutex.None?
    ensures Reaches(h, from, t)
    ensures t == State(s.lock, Some(p), s.procs[p := Proc(Reread, false, true)], s.used)
  {
    Next(h, from, s, Go(p));
    t := Apply(s, Go(p));
    Next(h, from, t, Go(p));
    t := Apply(t, Go(p));
  }

  /** A reclaimer past its tests removes whatever lock is there, and takes it. */
  lemma RemovesAndLinks(h: Hypothesis, from: State, s: State, p: nat) returns (t: State)
    requires Moving(h, p)
    requires Reaches(h, from, s) && p in s.procs && s.procs[p] == Proc(Remove, false, true)
    ensures Reaches(h, from, t)
    ensures t == State(Some(Link(p)), None, s.procs[p := INSIDE], s.used)
  {
    t := s;
    Next(h, from, t, Go(p));
    t := Apply(t, Go(p));
    Next(h, from, t, Go(p));
    t := Apply(t, Go(p));
    Next(h, from, t, Go(p));
    t := Relink(h, from, Apply(t, Go(p)), p);
  }

  /** A reclaimer whose re-read owner is dead or empty removes whatever lock is
      there now, and takes it. */
  lemma TakeOver(h: Hypothesis, from: State, s: State, p: nat, seen: Option<LockObj>) returns (t: State)
    requires !h.Alone?
    requires Reaches(h, from, s) && h != SameUntilDecision
    requires p in s.procs && s.procs[p] == Proc(TestAlive(seen), false, true) && !Alive(s, OwnerOf(seen))
    ensures Reaches(h, from, t)
    ensures t == State(Some(Link(p)), None, s.procs[p := INSIDE], s.used)
  {
    Next(h, from, s, Go(p));
    t := RemovesAndLinks(h, from, Apply(s, Go(p)), p);
  }

  const NOTHING: State := State(None, None, map[], {})

  /** A holder comes and goes while process 2 waits. */
  lemma WaiterOutlivesHolder(h: Hypothesis) returns (t: State)
    requires !h.Alone?
    ensures Reaches(h, NOTHING, t)
    ensures t == State(None, None, map[2 := Proc(ReadOwner, false, false)], {1, 2})
  {
    assert RunsTo(h, NOTHING, [], NOTHING);
    t := Acquire(h, NOTHING, NOTHING, 1);
    t := Contend(h, NOTHING, t, 2);
    t := Release(h, NOTHING, t, 1);
  }

  /** Process 2 enters the reclaim section with no lock in place. */
  lemma WaiterReclaims(h: Hypothesis) returns (t: State)
    requires !h.Alone?
    ensures Reaches(h, NOTHING, t)
    ensures t == State(None, Some(2), map[2 := Proc(Reread, false, true)], {1, 2})
  {
    t := WaiterOutlivesHolder(h);
    t := SeeNoOwner(h, NOTHING, t, 2);
    t := EnterReclaim(h, NOTHING, t, 2);
  }

  /** A waiter re-reads an empty owner because the lock is gone, a peer's `ln -s`
      lands before the existence test, and the live lock is removed. */
  lemma EmptyOwnerBreaksExclusion()
    ensures exists s :: Reaches(Calm, NOTHING, s) && TwoHolders(s)
  {
    var s := WaiterReclaims(Calm);
    Next(Calm, NOTHING, s, Go(2));
    s := Acquire(Calm, NOTHING, Apply(s, Go(2)), 3);
    Next(Calm, NOTHING, s, Go(2));
    s := TakeOver(Calm, NOTHING, Apply(s, Go(2)), 2, None);
    assert InCriticalSection(s, 2) && InCriticalSection(s, 3);
  }

  /** A reclaimer re-reads the owner and finds the lock there. */
  lemma RereadOwner(h: Hypothesis, from: State, s: State, p: nat, q: nat) returns (t: State)
    requires Reaches(h, from, s) && h == SameAtExistenceTest
    requires p in s.procs && s.procs[p] == Proc(Reread, false, true) && s.lock == Some(Link(q))
    ensures Reaches(h, from, t)
    ensures t == State(s.lock, s.mutex, s.procs[p := Proc(TestAlive(s.lock), false, true)], s.used)
  {
    Next(h, from, s, Go(p));
    t := Apply(s, Go(p));
    Next(h, from, t, Go(p));
    t := Apply(t, Go(p));
  }

  /** The re-read owner holds the lock, and passes the existence test. */
  lemma OwnerReread(h: Hypothesis) returns (t: State)
    requires h == SameAtExistenceTest
    ensures Reaches(h, NOTHING, t)
    ensures t == State(Some(Link(3)), Some(2),
                       map[2 := Proc(TestAlive(Some(Link(3))), false, true), 3 := INSIDE], {1, 2, 3})
  {
    t := WaiterReclaims(h);
    t := Acquire(h, NOTHING, t, 3);
    t := RereadOwner(h, NOTHING, t, 2, 3);
  }

  /** Insisting on a non-empty owner and on the re-read lock at the existence
      test is not enough either: the re-read owner may release and exit, and a
      peer lock, before `kill -0` finds the old owner dead. */
  lemma DepartedOwnerBreaksExclusion()
    ensures exists s :: Reaches(SameAtExistenceTest, NOTHING, s) && TwoHolders(s)
  {
    var h := SameAtExistenceTest;
    var s := OwnerReread(h);
    s := Release(h, NOTHING, s, 3);
    s := Acquire(h, NOTHING, s, 4);
    s := TakeOver(h, NOTHING, s, 2, Some(Link(3)));
    assert InCriticalSection(s, 2) && InCriticalSection(s, 4);
  }

  // ---- exactly when exclusion holds -------------------------------------

  /** A reclaimer is about to remove the lock while a live process holds one. */
  predicate Endangered(s: State, p: nat, q: nat) {
    p in s.procs && s.procs[p].pc.Remove? && q in s.procs && Holding(s.procs[q])
  }

  predicate ProcInv(s: State, p: nat) { p in s.procs ==> p in s.used && FlagsAgree(s.procs[p]) }

  ghost predicate ProcsInv(s: State) { forall p :: ProcInv(s, p) }

  lemma OwnProcKept(s: State, l: Label)
    requires ProcInv(s, l.pid) && Enabled(s, l)
    ensures ProcInv(Apply(s, l), l.pid)
  {}

  lemma StepKeepsProcs(s: State, l: Label)
    requires ProcsInv(s) && Enabled(s, l)
    ensures ProcsInv(Apply(s, l))
  {
    forall p ensures ProcInv(Apply(s, l), p) {
      assert ProcInv(s, p);
      if p == l.pid { OwnProcKept(s, l); }
    }
  }

  lemma {:induction false} RunKeepsProcs(h: Hypothesis, s: State, labels: seq<Label>, t: State)
    requires ProcsInv(s) && RunsTo(h, s, labels, t)
    ensures ProcsInv(t)
    decreases |labels|
  {
    if labels != [] {
      StepKeepsProcs(s, labels[0]);
      RunKeepsProcs(h, Apply(s, labels[0]), labels[1..], t);
    }
  }

  /** The holder is on its way out: its trap removes the reclaimer's new lock, and a
      third process takes the free one. */
  lemma ThirdLinks(h: Hypothesis, from: State, s: State, p: nat, q: nat) returns (t: State)
    requires !h.Alone?
    requires Reaches(h, from, s) && ProcsInv(s) && p != q && InCriticalSection(s, p)
    requires q in s.procs && s.procs[q].held && s.procs[q].pc.TrapLock?
    ensures Reaches(h, from, t) && TwoHolders(t)
  {
    assert ProcInv(s, p) && ProcInv(s, q);
    var r := Unused(s.used);
    assert ProcInv(s, r);
    Next(h, from, s, Go(q));
    t := Acquire(h, from, Apply(s, Go(q)), r);
    assert InCriticalSection(t, p) && InCriticalSection(t, r);
  }

  lemma EndangeredBreaks(h: Hypothesis, from: State, s: State, p: nat, q: nat) returns (t: State)
    requires !h.Alone?
    requires Reaches(h, from, s) && ProcsInv(s) && Endangered(s, p, q)
    ensures Reaches(h, from, t) && TwoHolders(t)
  {
    assert ProcInv(s, p) && ProcInv(s, q);
    t := RemovesAndLinks(h, from, s, p);
    assert ProcsInv(t) by { forall x ensures ProcInv(t, x) { assert ProcInv(s, x); } }
    if t.procs[q].pc.TrapMutex? {
      Next(h, from, t, Go(q));
      StepKeepsProcs(t, Go(q));
      t := Apply(t, Go(q));
    }
    if t.procs[q].pc.TrapLock? {
      t := ThirdLinks(h, from, t, p, q);
    } else {
      if t.procs[q].pc.SetHeld? {
        Next(h, from, t, Go(q));
        t := Apply(t, Go(q));
      }
      assert InCriticalSection(t, p) && InCriticalSection(t, q);
    }
  }

  ghost predicate NeverEndangered(h: Hypothesis, from: State) {
    forall s, p, q :: Reaches(h, from, s) ==> !Endangered(s, p, q)
  }

  lemma {:induction false} UnendangeredRun(h: Hypothesis, from: State, s: State, labels: seq<Label>, t: State)
    requires NeverEndangered(h, from) && Reaches(h, from, s) && AllCore(s) && RunsTo(h, s, labels, t)
    ensures AllCore(t)
    decreases |labels|
  {
    if labels != [] {
      var l := labels[0];
      assert SafeRemoval(s, l) by {
        forall q | l.Go? && l.pid in s.procs && s.procs[l.pid].pc.Remove? && q in s.procs ensures !Holding(s.procs[q]) {
          assert !Endangered(s, l.pid, q);
        }
      }
      forall q ensures CoreInv(Apply(s, l), q) {
        assert CoreInv(s, q) && CoreInv(s, l.pid);
        CoreKept(s, l, q);
      }
      Next(h, from, s, l);
      UnendangeredRun(h, from, Apply(s, l), labels[1..], t);
    }
  }

  /** Mutual exclusion itself, exactly, under any of the hypotheses or none: no
      reachable state has two processes in the critical section if and only if in no
      reachable state a reclaimer is about to remove the lock of a live holder. */
  lemma ExclusionExactly(h: Hypothesis, from: State)
    requires Init(from) && !h.Alone?
    ensures (forall s :: Reaches(h, from, s) ==> !TwoHolders(s)) <==> NeverEndangered(h, from)
  {
    InitInv(from);
    assert Runs.RunsTo(Moves(h), from, [], from);
    if NeverEndangered(h, from) {
      forall s | Reaches(h, from, s) ensures !TwoHolders(s) {
        var labels :| Runs.RunsTo(Moves(h), from, labels, s);
        UnendangeredRun(h, from, from, labels, s);
        NamedExcludesTwo(s);
      }
    } else {
      var s, p, q :| Reaches(h, from, s) && Endangered(s, p, q);
      var labels :| Runs.RunsTo(Moves(h), from, labels, s);
      RunKeepsProcs(h, from, labels, s);
      var t := EndangeredBreaks(h, from, s, p, q);
    }
  }

  // ---- what an attempt achieves -----------------------------------------

  /** A process about to try finds a lock in place and reads its owner. */
  lemma SeesLock(h: Hypothesis, from: State, s: State, p: nat) returns (t: State)
    requires Moving(h, p) && Reaches(h, from, s) && s.lock.Some?
    requires p in s.procs && s.procs[p] == Proc(DirTest, false, false)
    ensures Reaches(h, from, t)
    ensures t == State(s.lock, s.mutex, s.procs[p := Proc(Judge(OwnerOf(s.lock)), false, false)], s.used)
  {
    t := s;
    Next(h, from, t, Go(p));
    t := Apply(t, Go(p));
    if !s.lock.value.LegacyDir? {
      Next(h, from, t, Go(p));
      t := Apply(t, Go(p));
    }
    Next(h, from, t, Go(p));
    t := Apply(t, Go(p));
  }

  /** Past the owner's death it goes through the reclaim section to the removal. */
  lemma ReclaimsStale(h: Hypothesis, from: State, s: State, p: nat) returns (t: State)
    requires Moving(h, p) && Reaches(h, from, s) && s.lock.Some? && s.mutex.None?
    requires p in s.procs && s.procs[p] == Proc(TakeMutex, false, false) && !Alive(s, OwnerOf(s.lock))
    requires h.SameAtExistenceTest? ==> OwnerOf(s.lock).Some?
    ensures Reaches(h, from, t)
    ensures t == State(Some(Link(p)), None, s.procs[p := INSIDE], s.used)
  {
    t := EnterReclaim(h, from, s, p);
    Next(h, from, t, Go(p));
    t := Apply(t, Go(p));
    Next(h, from, t, Go(p));
    t := Apply(t, Go(p));
    Next(h, from, t, Go(p));
    t := Apply(t, Go(p));
    t := RemovesAndLinks(h, from, t, p);
  }

  /** Where the re-read lock is gone, or its owner alive after all, a reclaimer removes
      nothing, gives its mutex back and goes on waiting. */
  lemma ReclaimDeclines(h: Hypothesis, s: State, p: nat, seen: Option<LockObj>) returns (t: State)
    requires Moving(h, p) && p in s.procs && s.procs[p] == Proc(TestPresent(seen), false, true)
    requires s.lock.None? || Alive(s, OwnerOf(seen))
    requires s.lock == seen && (h.SameAtExistenceTest? ==> OwnerOf(s.lock).Some?)
    ensures Reaches(h, s, t)
    ensures t == State(s.lock, None, s.procs[p := Proc(Backoff, false, false)], s.used)
  {
    assert RunsTo(h, s, [], s);
    Next(h, s, s, Go(p));
    t := Apply(s, Go(p));
    if s.lock.Some? {
      Next(h, s, t, Go(p));
      t := Apply(t, Go(p));
    }
    Next(h, s, t, Go(p));
    t := Apply(t, Go(p));
    Next(h, s, t, Go(p));
    t := Apply(t, Go(p));
  }

  function With(s: State, p: nat, proc: Proc): State { State(s.lock, s.mutex, s.procs[p := proc], s.used + {p}) }

  /** A process about to start, or waiting to try again. */
  predicate Ready(s: State, p: nat) {
    || (p !in s.used && p !in s.procs)
    || (p in s.used && p in s.procs && s.procs[p] == Proc(Backoff, false, false))
  }

  lemma BeginsAttempt(h: Hypothesis, s: State, p: nat) returns (t: State)
    requires Moving(h, p) && Ready(s, p)
    ensures Reaches(h, s, t) && t == With(s, p, Proc(DirTest, false, false))
  {
    assert RunsTo(h, s, [], s);
    var l := if p in s.procs then Go(p) else Start(p);
    Next(h, s, s, l);
    t := Apply(s, l);
  }

  /** What an attempt, or a retry, comes to when no other process moves, and can come
      to under any of the hypotheses: it takes a free lock; it takes the lock of a
      dead owner, symlink or directory, and leaves the reclaim mutex free; and it
      waits, with nothing changed, exactly while the owner is alive or the reclaim
      mutex taken. */
  lemma AttemptExactly(h: Hypothesis, s: State, p: nat) returns (t: State)
    requires Moving(h, p) && Ready(s, p) && OwnerOf(s.lock) != Some(p)
    requires h.SameAtExistenceTest? && s.lock.Some? ==> OwnerOf(s.lock).Some?
    ensures Reaches(h, s, t)
    ensures t == if s.lock.Some? && (Alive(s, OwnerOf(s.lock)) || s.mutex.Some?)
                 then With(s, p, Proc(Backoff, false, false))
                 else With(s, p, INSIDE).(lock := Some(Link(p)))
  {
    t := BeginsAttempt(h, s, p);
    if s.lock.None? {
      t := Relink(h, s, t, p);
    } else {
      t := SeesLock(h, s, t, p);
      Next(h, s, t, Go(p));
      t := Apply(t, Go(p));
      if !Alive(s, OwnerOf(s.lock)) && s.mutex.Some? {
        Next(h, s, t, Go(p));
        t := Apply(t, Go(p));
      } else if !Alive(s, OwnerOf(s.lock)) {
        t := ReclaimsStale(h, s, t, p);
      }
    }
  }

  /** The ways to the trap: leaving the critical section, giving up while waiting, or
      a signal anywhere outside it, save where calm signals are assumed. */
  predicate ComesToTrap(h: Hypothesis, s: State, l: Label, p: nat) {
    p in s.procs &&
    var pc := s.procs[p].pc;
    || (l == Leave(p) && pc.Critical?)
    || (l == GiveUp(p) && pc.Backoff?)
    || (l == Signal(p) && !InTrap(pc) && (h.Anything? || !pc.ClearReclaiming?))
  }

  /** However a process comes to its trap, that removes the lock exactly if the process
      holds it, and the reclaim mutex exactly if the process has it, and nothing else. */
  lemma TrapReleasesExactly(h: Hypothesis, s: State, l: Label, p: nat) returns (t: State)
    requires !h.Alone? && ComesToTrap(h, s, l, p)
    ensures Reaches(h, s, t)
    ensures var proc := s.procs[p];
            t == State(if proc.held then None else s.lock, if proc.reclaiming then None else s.mutex,
                       s.procs - {p}, s.used)
  {
    assert RunsTo(h, s, [], s);
    Next(h, s, s, l);
    t := TrapRuns(h, s, Apply(s, l), p);
  }

  /** The residue of a timed-out warm: a holder killed anywhere in its critical section
      leaves its lock behind, and the next warm takes it over. */
  lemma KilledHolderReplaced(h: Hypothesis, s: State, p: nat, q: nat) returns (t: State)
    requires !h.Alone? && s.lock == Some(Link(p)) && s.mutex.None?
    requires p in s.procs && s.procs[p].pc.Critical? && q !in s.used && q !in s.procs && p != q
    ensures Reaches(h, s, t)
    ensures t == State(Some(Link(q)), None, (s.procs - {p})[q := INSIDE], s.used + {q})
  {
    assert RunsTo(h, s, [], s);
    Next(h, s, s, Kill(p));
    var dead := Apply(s, Kill(p));
    t := AttemptExactly(h, dead, q);
    var more :| Runs.RunsTo(Moves(h), dead, more, t);
    Runs.After(Moves(h), s, s, Kill(p), more, t);
  }
}
