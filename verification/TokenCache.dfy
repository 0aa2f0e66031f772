/** The installation-token cache under concurrent callers: any number of
    `send_authed` calls interleave at every lock acquisition and HTTP
    round trip, and the wall clock may move freely. */
module TokenCache {
  import opened Names
  import Runs

  const TOKEN_TTL: nat := 50 * 60

  const REFRESH_MARGIN: nat := 5 * 60

  /** How long GitHub keeps an installation token valid. */
  const GITHUB_TTL: nat := 60 * 60

  type Token = nat

  datatype Cached = Cached(token: Token, validUntil: nat)

  /** `CachedToken::is_fresh_at` */
  predicate IsFreshAt(c: Cached, now: nat) { c.validUntil > now + REFRESH_MARGIN }

  datatype Pc =
    // installation_id: the OnceCell, then its HTTP round trip
    | NeedId | LookingUp
    // token: the snapshot, the mint round trip, the stamp, the store
    | Snapshot | Minting | Minted(token: Token) | Stamped(cached: Cached)
    // send_authed
    | Sending(token: Token) | Sent(token: Token) | Invalidating(token: Token)

  /** One `send_authed` call. `barred` are the tokens already invalidated when
      its current `token()` began; `first` is the token of the first attempt;
      `cold` says that it began with the installation id unknown. */
  datatype Call = Call(pc: Pc, cold: bool, first: Option<Token>, barred: set<Token>, requests: nat)

  /** `issued` maps every token GitHub has issued to its time of issue; `retired`
      are the tokens for which an `invalidate` has completed. */
  datatype State = State(
    now: nat, idKnown: bool, cache: Option<Cached>,
    issued: map<Token, nat>, retired: set<Token>, calls: map<nat, Call>)

  /** `Go(c, ok, token)`: the next step of call `c`; `ok` is the outcome of a
      round trip (for a send: anything but a 401), `token` what a mint yields. */
  datatype Label = Begin(call: nat) | Go(call: nat, ok: bool, token: Token) | SetClock(now: nat) | OthersLearnId

  function Goto(s: State, c: nat, pc: Pc): State
    requires c in s.calls
  {
    s.(calls := s.calls[c := s.calls[c].(pc := pc)])
  }

  /** The same, having issued one more HTTP request. */
  function Request(s: State, c: nat, pc: Pc): State
    requires c in s.calls
  {
    s.(calls := s.calls[c := s.calls[c].(pc := pc, requests := s.calls[c].requests + 1)])
  }

  function Return(s: State, c: nat): State { s.(calls := s.calls - {c}) }

  /** The OnceCell runs one lookup at a time; the others wait for it. */
  predicate SomeoneLooksUp(s: State) { exists c :: c in s.calls && s.calls[c].pc.LookingUp? }

  predicate Enabled(s: State, l: Label) {
    match l
    case Begin(c) => c !in s.calls
    case Go(c, ok, t) =>
      && c in s.calls
      && (s.calls[c].pc.NeedId? && !s.idKnown ==> !SomeoneLooksUp(s))
      && (s.calls[c].pc.Minting? && ok ==> t !in s.issued)
    case SetClock(_) => true
    case OthersLearnId => true
  }

  function Step(s: State, c: nat, ok: bool, minted: Token): State
    requires c in s.calls
  {
    match s.calls[c].pc
    case NeedId => if s.idKnown then Goto(s, c, Snapshot) else Request(s, c, LookingUp)
    case LookingUp => if ok then Goto(s.(idKnown := true), c, Snapshot) else Return(s, c)
    case Snapshot =>
      if s.cache.Some? && IsFreshAt(s.cache.value, s.now) then Goto(s, c, Sending(s.cache.value.token))
      else Request(s, c, Minting)
    case Minting => if ok then Goto(s.(issued := s.issued[minted := s.now]), c, Minted(minted)) else Return(s, c)
    case Minted(t) => Goto(s, c, Stamped(Cached(t, s.now + TOKEN_TTL)))
    case Stamped(cached) => Goto(s.(cache := Some(cached)), c, Sending(cached.token))
    case Sending(t) => Request(s, c, Sent(t))
    case Sent(t) => if ok || s.calls[c].first.Some? then Return(s, c) else Goto(s, c, Invalidating(t))
    case Invalidating(t) =>
      var retired := s.retired + {t};
      s.(cache := if s.cache.Some? && s.cache.value.token == t then None else s.cache,
         retired := retired,
         calls := s.calls[c := Call(NeedId, s.calls[c].cold, Some(t), retired, s.calls[c].requests)])
  }

  function Apply(s: State, l: Label): State
    requires Enabled(s, l)
  {
    match l
    case Begin(c) => s.(calls := s.calls[c := Call(NeedId, !s.idKnown, None, s.retired, 0)])
    case Go(c, ok, t) => Step(s, c, ok, t)
    case SetClock(t) => s.(now := t)
    case OthersLearnId => s.(idKnown := true)
  }

  // ---- the invariant ----------------------------------------------------

  /** Fetched from GitHub and not in the cache yet: nobody else can know it. */
  function Pending(pc: Pc): Option<Token> {
    match pc
    case Minted(t) => Some(t)
    case Stamped(c) => Some(c.token)
    case _ => None
  }

  /** Returned by `token()`. */
  function Served(pc: Pc): Option<Token> {
    match pc
    case Sending(t) => Some(t)
    case Sent(t) => Some(t)
    case Invalidating(t) => Some(t)
    case _ => None
  }

  /** The most requests a call can have made by the time it is at `pc`; only a
      cold call looks the installation id up, and only on its first attempt. */
  function Spent(pc: Pc, cold: bool, retry: bool): nat {
    var before := (if cold then 1 else 0) + if retry then 2 else 0;
    match pc
    case NeedId => if retry then before else 0
    case LookingUp => 1
    case Snapshot => before
    case Minting => before + 1
    case Minted(_) => before + 1
    case Stamped(_) => before + 1
    case Sending(_) => before + 1
    case Sent(_) => before + 2
    case Invalidating(_) => before + 2
  }

  /** Where the installation id stands, and the requests spent so far. */
  predicate BudgetInv(idKnown: bool, call: Call) {
    && (call.first.Some? || !call.cold || (!call.pc.NeedId? && !call.pc.LookingUp?) ==> idKnown)
    && (call.pc.LookingUp? || call.pc.Invalidating? ==> call.first.None?)
    && (call.pc.LookingUp? ==> call.cold)
    && call.requests <= Spent(call.pc, call.cold, call.first.Some?)
  }

  predicate PendingInv(s: State, t: Token) {
    t in s.issued && t !in s.retired && (s.cache.Some? ==> s.cache.value.token != t)
  }

  ghost predicate CallInv(s: State, c: nat) {
    c in s.calls ==>
      var call := s.calls[c];
      && call.barred <= s.retired
      && (call.first.Some? ==> call.first.value in call.barred)
      && (Pending(call.pc).Some? ==> PendingInv(s, Pending(call.pc).value))
      && (Served(call.pc).Some? ==> Served(call.pc).value in s.issued && Served(call.pc).value !in call.barred)
  }

  /** A pending token is in one call's hands only. */
  predicate Exclusive(s: State, c: nat, d: nat) {
    c in s.calls && d in s.calls && c != d && Pending(s.calls[c].pc).Some? ==>
      Pending(s.calls[d].pc) != Pending(s.calls[c].pc) && Served(s.calls[d].pc) != Pending(s.calls[c].pc)
  }

  ghost predicate Inv(s: State) {
    && (forall c :: CallInv(s, c))
    && (forall c :: c in s.calls ==> BudgetInv(s.idKnown, s.calls[c]))
    && (forall c, d :: Exclusive(s, c, d))
    && (s.cache.Some? ==> s.cache.value.token in s.issued && s.cache.value.token !in s.retired)
    && s.retired <= s.issued.Keys
  }

  predicate Init(s: State) {
    !s.idKnown && s.cache.None? && s.issued == map[] && s.retired == {} && s.calls == map[]
  }

  lemma PeerKeepsCall(s: State, c: nat, ok: bool, minted: Token, d: nat)
    requires CallInv(s, c) && CallInv(s, d) && Exclusive(s, d, c) && Exclusive(s, c, d) && c != d
    requires s.retired <= s.issued.Keys && Enabled(s, Go(c, ok, minted))
    ensures CallInv(Step(s, c, ok, minted), d)
  {}

  lemma OthersKeepInv(s: State, l: Label, d: nat)
    requires Inv(s) && Enabled(s, l) && (l.Go? || l.Begin? ==> d != l.call)
    ensures CallInv(Apply(s, l), d)
  {
    assert CallInv(s, d);
    if l.Go? {
      assert CallInv(s, l.call) && Exclusive(s, d, l.call) && Exclusive(s, l.call, d);
      PeerKeepsCall(s, l.call, l.ok, l.token, d);
    }
  }

  lemma StartKeepsInv(s: State, l: Label)
    requires Inv(s) && Enabled(s, l) && (l.Begin? || (l.Go? && s.calls[l.call].pc.Invalidating?))
    ensures CallInv(Apply(s, l), l.call)
  {
    assert CallInv(s, l.call);
  }

  predicate BeforeMint(pc: Pc) { pc.NeedId? || pc.LookingUp? || pc.Snapshot? }

  lemma EarlyKeepsInv(s: State, l: Label)
    requires Inv(s) && Enabled(s, l) && l.Go? && BeforeMint(s.calls[l.call].pc)
    ensures CallInv(Apply(s, l), l.call)
  {
    assert CallInv(s, l.call);
  }

  lemma MintKeepsInv(s: State, l: Label)
    requires Inv(s) && Enabled(s, l) && l.Go? && !s.calls[l.call].pc.Invalidating? && !BeforeMint(s.calls[l.call].pc)
    ensures CallInv(Apply(s, l), l.call)
  {
    assert CallInv(s, l.call);
  }

  lemma OwnKeepsBudget(s: State, c: nat, ok: bool, minted: Token)
    requires Enabled(s, Go(c, ok, minted)) && BudgetInv(s.idKnown, s.calls[c])
    ensures var s' := Step(s, c, ok, minted); c in s'.calls ==> BudgetInv(s'.idKnown, s'.calls[c])
  {}

  lemma StepKeepsBudgets(s: State, l: Label, d: nat)
    requires Enabled(s, l) && (d in s.calls ==> BudgetInv(s.idKnown, s.calls[d]))
    ensures d in Apply(s, l).calls ==> BudgetInv(Apply(s, l).idKnown, Apply(s, l).calls[d])
  {
    if l.Go? && d == l.call { OwnKeepsBudget(s, l.call, l.ok, l.token); }
  }

  lemma ActorKeepsExclusive(s: State, c: nat, ok: bool, minted: Token, d: nat)
    requires c != d && CallInv(s, c) && CallInv(s, d) && Exclusive(s, c, d) && Enabled(s, Go(c, ok, minted))
    requires s.cache.Some? ==> s.cache.value.token in s.issued
    ensures Exclusive(Step(s, c, ok, minted), c, d)
  {}

  lemma PeerKeepsExclusive(s: State, c: nat, ok: bool, minted: Token, d: nat)
    requires c != d && CallInv(s, c) && CallInv(s, d) && Exclusive(s, d, c) && Enabled(s, Go(c, ok, minted))
    requires s.cache.Some? ==> s.cache.value.token in s.issued
    ensures Exclusive(Step(s, c, ok, minted), d, c)
  {}

  lemma MoverKeepsExclusive(s: State, l: Label, d: nat)
    requires Inv(s) && Enabled(s, l) && (l.Go? || l.Begin?) && d != l.call
    ensures Exclusive(Apply(s, l), l.call, d) && Exclusive(Apply(s, l), d, l.call)
  {
    assert CallInv(s, l.call) && CallInv(s, d) && Exclusive(s, l.call, d) && Exclusive(s, d, l.call);
    if l.Go? {
      ActorKeepsExclusive(s, l.call, l.ok, l.token, d);
      PeerKeepsExclusive(s, l.call, l.ok, l.token, d);
    }
  }

  lemma BystandersKeepExclusive(s: State, l: Label, c: nat, d: nat)
    requires Inv(s) && Enabled(s, l) && (l.Go? || l.Begin? ==> c != l.call && d != l.call)
    ensures Exclusive(Apply(s, l), c, d)
  {
    assert Exclusive(s, c, d);
  }

  lemma StepKeepsInv(s: State, l: Label)
    requires Inv(s) && Enabled(s, l)
    ensures Inv(Apply(s, l))
  {
    var s' := Apply(s, l);
    forall d ensures CallInv(s', d) {
      if (l.Go? || l.Begin?) && d == l.call {
        if l.Begin? || s.calls[l.call].pc.Invalidating? { StartKeepsInv(s, l); }
        else if BeforeMint(s.calls[l.call].pc) { EarlyKeepsInv(s, l); }
        else { MintKeepsInv(s, l); }
      } else {
        OthersKeepInv(s, l, d);
      }
    }
    forall d | d in s'.calls ensures BudgetInv(s'.idKnown, s'.calls[d]) { StepKeepsBudgets(s, l, d); }
    forall c, d ensures Exclusive(s', c, d) {
      if (l.Go? || l.Begin?) && c == l.call && c != d { MoverKeepsExclusive(s, l, d); }
      else if (l.Go? || l.Begin?) && d == l.call && c != d { MoverKeepsExclusive(s, l, c); }
      else if c != d { BystandersKeepExclusive(s, l, c, d); }
    }
    if l.Go? { assert CallInv(s, l.call); }
  }

  // ---- runs -------------------------------------------------------------

  /** A mint's answer arrives within `delay` seconds of wall clock. */
  predicate PromptMint(s: State, l: Label, delay: nat) {
    l.Go? && l.call in s.calls && s.calls[l.call].pc.Minted? && s.calls[l.call].pc.token in s.issued ==>
      s.now <= s.issued[s.calls[l.call].pc.token] + delay
  }

  function Moves(delay: nat): Runs.Steps<State, Label> {
    (s, l) => if Enabled(s, l) && PromptMint(s, l, delay) then Some(Apply(s, l)) else None
  }

  ghost predicate RunsTo(delay: nat, s: State, labels: seq<Label>, s': State) {
    Runs.RunsTo(Moves(delay), s, labels, s')
  }

  ghost predicate Reaches(delay: nat, s: State, s': State) { Runs.Reaches(Moves(delay), s, s') }

  /** The cache, and a stamp about to be stored, never promise more life than
      GitHub grants. */
  predicate StampInv(s: State, delay: nat, cached: Cached) {
    cached.token in s.issued && cached.validUntil <= s.issued[cached.token] + delay + TOKEN_TTL
  }

  ghost predicate CallStampInv(s: State, delay: nat, c: nat) {
    c in s.calls && s.calls[c].pc.Stamped? ==> StampInv(s, delay, s.calls[c].pc.cached)
  }

  ghost predicate LifeInv(s: State, delay: nat) {
    && (s.cache.Some? ==> StampInv(s, delay, s.cache.value))
    && (forall c :: CallStampInv(s, delay, c))
  }

  lemma StampKept(s: State, l: Label, delay: nat, c: nat)
    requires CallInv(s, c) && CallStampInv(s, delay, c) && Enabled(s, l) && PromptMint(s, l, delay)
    ensures CallStampInv(Apply(s, l), delay, c)
  {}

  lemma StepKeepsLife(s: State, l: Label, delay: nat)
    requires Inv(s) && LifeInv(s, delay) && Enabled(s, l) && PromptMint(s, l, delay)
    ensures LifeInv(Apply(s, l), delay)
  {
    if l.Go? { assert CallStampInv(s, delay, l.call); }
    forall c ensures CallStampInv(Apply(s, l), delay, c) {
      assert CallInv(s, c) && CallStampInv(s, delay, c);
      StampKept(s, l, delay, c);
    }
  }

  lemma {:induction false} RunKeepsInv(delay: nat, s: State, labels: seq<Label>, s': State)
    requires Inv(s) && LifeInv(s, delay) && RunsTo(delay, s, labels, s')
    ensures Inv(s') && LifeInv(s', delay) && s.retired <= s'.retired
    decreases |labels|
  {
    if labels != [] {
      StepKeepsInv(s, labels[0]);
      StepKeepsLife(s, labels[0], delay);
      RunKeepsInv(delay, Apply(s, labels[0]), labels[1..], s');
    }
  }

  lemma ReachableInv(delay: nat, s: State, s': State)
    requires Init(s) && Reaches(delay, s, s')
    ensures Inv(s') && LifeInv(s', delay)
  {
    var labels :| Runs.RunsTo(Moves(delay), s, labels, s');
    RunKeepsInv(delay, s, labels, s');
  }

  // ---- theorems ---------------------------------------------------------

  /** After `invalidate(t)` completes, no `token()` that begins later returns `t`,
      in any interleaving of minters and of callers that saw a 401. */
  lemma InvalidatedNeverServed(delay: nat, s: State, s': State, c: nat, t: Token)
    requires Init(s) && Reaches(delay, s, s') && c in s'.calls
    requires t in s'.calls[c].barred
    ensures Served(s'.calls[c].pc) != Some(t)
    ensures s'.cache.Some? ==> s'.cache.value.token != t
  {
    ReachableInv(delay, s, s');
    assert CallInv(s', c);
  }

  /** Each `token()` begins barred from everything invalidated so far. */
  lemma BarredAtBegin(s: State, l: Label)
    requires Inv(s) && Enabled(s, l) && (l.Begin? || (l.Go? && s.calls[l.call].pc.Invalidating?))
    ensures var s' := Apply(s, l);
            l.call in s'.calls && s'.calls[l.call].barred == s'.retired && s.retired <= s'.retired
    ensures l.Go? ==> s.calls[l.call].pc.token in Apply(s, l).calls[l.call].barred
  {}

  /** `send_authed` sends at most twice, the second time with another token, and
      makes at most five requests in all, four if the installation id was known:
      fewer than the six it is budgeted for. */
  lemma RetryUsesAnotherToken(delay: nat, s: State, s': State, c: nat)
    requires Init(s) && Reaches(delay, s, s') && c in s'.calls
    ensures s'.calls[c].first.Some? ==> Served(s'.calls[c].pc) != s'.calls[c].first
    ensures s'.calls[c].first.Some? ==> !s'.calls[c].pc.Invalidating?
    ensures s'.calls[c].requests <= if s'.calls[c].cold then 5 else 4
  {
    ReachableInv(delay, s, s');
    assert CallInv(s', c);
  }

  predicate Warm(s: State, c: nat) { s.idKnown && (c in s.calls ==> !s.calls[c].cold) }

  lemma {:induction false} RunKeepsWarm(delay: nat, s: State, labels: seq<Label>, s': State, c: nat)
    requires Warm(s, c) && RunsTo(delay, s, labels, s')
    ensures Warm(s', c)
    decreases |labels|
  {
    if labels != [] {
      RunKeepsWarm(delay, Apply(s, labels[0]), labels[1..], s', c);
    }
  }

  /** A call that begins after some call has sent a request makes at most four. */
  lemma LaterCallMakesFour(delay: nat, s: State, s': State, first: nat, s'': State, c: nat)
    requires Init(s) && Reaches(delay, s, s') && first in s'.calls && s'.calls[first].pc.Sent?
    requires c !in s'.calls && Reaches(delay, s', s'') && c in s''.calls
    ensures s''.calls[c].requests <= 4
  {
    ReachableInv(delay, s, s');
    var xs :| Runs.RunsTo(Moves(delay), s, xs, s');
    var ys :| Runs.RunsTo(Moves(delay), s', ys, s'');
    Runs.Join(Moves(delay), s, xs, s', ys, s'');
    RunKeepsWarm(delay, s', ys, s'', c);
    RetryUsesAnotherToken(delay, s, s'', c);
  }

  /** Nor does it ever wait for another call's lookup: its next step is always
      open, whatever the round trip yields. */
  lemma LaterCallNeverWaits(delay: nat, s: State, s': State, first: nat, s'': State, c: nat, ok: bool, token: Token)
    requires Init(s) && Reaches(delay, s, s') && first in s'.calls && s'.calls[first].pc.Sent?
    requires c !in s'.calls && Reaches(delay, s', s'') && c in s''.calls && token !in s''.issued
    ensures Enabled(s'', Go(c, ok, token)) && !s''.calls[c].pc.LookingUp?
  {
    ReachableInv(delay, s, s');
    var xs :| Runs.RunsTo(Moves(delay), s, xs, s');
    var ys :| Runs.RunsTo(Moves(delay), s', ys, s'');
    Runs.Join(Moves(delay), s, xs, s', ys, s'');
    ReachableInv(delay, s, s'');
    RunKeepsWarm(delay, s', ys, s'', c);
  }

  /** One lookup of the installation id at a time, and none once it is known. */
  predicate LookupInv(s: State, c: nat, d: nat) {
    c in s.calls && d in s.calls && s.calls[c].pc.LookingUp? && s.calls[d].pc.LookingUp? ==> c == d
  }

  lemma StepKeepsLookup(s: State, l: Label, c: nat, d: nat)
    requires LookupInv(s, c, d) && Enabled(s, l)
    ensures LookupInv(Apply(s, l), c, d)
  {}

  lemma {:induction false} OneLookupAtATime(delay: nat, s: State, labels: seq<Label>, s': State, c: nat, d: nat)
    requires LookupInv(s, c, d) && RunsTo(delay, s, labels, s')
    ensures LookupInv(s', c, d)
    decreases |labels|
  {
    if labels != [] {
      StepKeepsLookup(s, labels[0], c, d);
      OneLookupAtATime(delay, Apply(s, labels[0]), labels[1..], s', c, d);
    }
  }

  /** A token served from the cache has more than the refresh margin left on its
      stamp, and more than 900 seconds less the mint's round trip at GitHub. */
  lemma CacheServesLivingTokens(delay: nat, s: State, s': State, c: nat)
    requires Init(s) && Reaches(delay, s, s') && c in s'.calls && s'.calls[c].pc.Snapshot?
    requires Step(s', c, true, 0).calls[c].pc.Sending?
    ensures var t := Step(s', c, true, 0).calls[c].pc.token;
            && s'.cache.Some? && s'.cache.value.token == t && s'.cache.value.validUntil > s'.now + REFRESH_MARGIN
            && t in s'.issued && s'.issued[t] + GITHUB_TTL + delay > s'.now + 900
  {
    ReachableInv(delay, s, s');
  }

  // ---- five requests do happen ------------------------------------------

  lemma Next(s: State, t: State, ok: bool, token: Token) returns (t': State)
    requires Reaches(0, s, t) && Enabled(t, Go(0, ok, token)) && PromptMint(t, Go(0, ok, token), 0)
    ensures t' == Step(t, 0, ok, token) && Reaches(0, s, t')
  {
    t' := Runs.Next(Moves(0), s, t, Go(0, ok, token));
  }

  const EMPTY: State := State(0, false, None, map[], {}, map[])

  lemma FirstTokenMinted() returns (t: State)
    ensures Reaches(0, EMPTY, t)
    ensures t == State(0, true, None, map[1 := 0], {}, map[0 := Call(Minted(1), true, None, {}, 2)])
  {
    assert Runs.RunsTo(Moves(0), EMPTY, [], EMPTY);
    t := Runs.Next(Moves(0), EMPTY, EMPTY, Begin(0));
    t := Next(EMPTY, t, true, 1);
    t := Next(EMPTY, t, true, 1);
    t := Next(EMPTY, t, true, 1);
    t := Next(EMPTY, t, true, 1);
  }

  lemma FirstAttemptRejected() returns (t: State)
    ensures Reaches(0, EMPTY, t)
    ensures t == State(0, true, Some(Cached(1, TOKEN_TTL)), map[1 := 0], {},
                       map[0 := Call(Invalidating(1), true, None, {}, 3)])
  {
    t := FirstTokenMinted();
    t := Next(EMPTY, t, true, 1);
    t := Next(EMPTY, t, true, 1);
    t := Next(EMPTY, t, true, 1);
    t := Next(EMPTY, t, false, 1);
  }

  /** The bound of five is reached, by a cold call whose first token is refused. */
  lemma FiveRequestsReached() returns (t: State)
    ensures Reaches(0, EMPTY, t) && 0 in t.calls && t.calls[0].requests == 5
  {
    t := FirstAttemptRejected();
    t := Next(EMPTY, t, true, 2);
    t := Next(EMPTY, t, true, 2);
    t := Next(EMPTY, t, true, 2);
    t := Next(EMPTY, t, true, 2);
    t := Next(EMPTY, t, true, 2);
    t := Next(EMPTY, t, true, 2);
    t := Next(EMPTY, t, true, 2);
  }

  // ---- one caller, undisturbed ------------------------------------------

  /** What the network answers to one `token()`: is the lookup answered, and the
      token of the mint, if it succeeds. */
  datatype Answers = Answers(lookup: bool, mint: Option<Token>)

  class Installations {
    var idKnown: bool
    var cache: Option<Cached>
    ghost var retired: set<Token>

    ghost predicate Valid()
      reads this
    {
      cache.Some? ==> idKnown && cache.value.token !in retired
    }

    constructor ()
      ensures Valid() && !idKnown && cache.None? && retired == {}
    {
      idKnown, cache, retired := false, None, {};
    }

    method Token(now: nat, a: Answers) returns (token: Option<Token>, requests: nat)
      requires Valid() && (a.mint.Some? ==> a.mint.value !in retired)
      modifies this`idKnown, this`cache
      ensures Valid()
      ensures idKnown == (old(idKnown) || a.lookup)
      ensures token.Some? ==> token.value !in retired && cache.Some? && cache.value.token == token.value
                              && IsFreshAt(cache.value, now)
      ensures token == if !idKnown then None
                       else if old(cache).Some? && IsFreshAt(old(cache).value, now) then Some(old(cache).value.token)
                       else a.mint
      ensures token.None? ==> cache == old(cache)
      ensures requests == (if old(idKnown) then 0 else 1)
                          + if !idKnown || (old(cache).Some? && IsFreshAt(old(cache).value, now)) then 0 else 1
    {
      requests := 0;
      if !idKnown {
        requests := requests + 1;
        if !a.lookup { return None, requests; }
        idKnown := true;
      }
      if cache.Some? && IsFreshAt(cache.value, now) { return Some(cache.value.token), requests; }
      requests := requests + 1;
      if a.mint.None? { return None, requests; }
      cache := Some(Cached(a.mint.value, now + TOKEN_TTL));
      return a.mint, requests;
    }

    method Invalidate(stale: Token)
      requires Valid()
      modifies this`cache, this`retired
      ensures Valid()
      ensures retired == old(retired) + {stale}
      ensures cache == if old(cache).Some? && old(cache).value.token == stale then None else old(cache)
    {
      if cache.Some? && cache.value.token == stale { cache := None; }
      retired := retired + {stale};
    }

    /** `refused` says whether the first send is answered 401; `used` are the
        tokens sent, in order. */
    method SendAuthed(now: nat, first: Answers, refused: bool, second: Answers)
      returns (used: seq<Token>, requests: nat)
      requires Valid()
      requires first.mint.Some? ==> first.mint.value !in retired
      requires second.mint.Some? ==> second.mint.value !in retired && second.mint != first.mint
                                     && (cache.Some? ==> second.mint.value != cache.value.token)
      modifies this
      ensures Valid()
      ensures |used| <= 2 && (|used| == 2 <==> |used| >= 1 && refused && second.mint.Some?)
      ensures |used| >= 1 ==>
                Some(used[0]) == if old(cache).Some? && IsFreshAt(old(cache).value, now)
                                 then Some(old(cache).value.token) else first.mint
      ensures |used| == 2 ==> Some(used[1]) == second.mint && used[0] != used[1]
      ensures retired == old(retired) + if |used| >= 1 && refused then {used[0]} else {}
      ensures |used| >= 1 ==> if |used| == 1 && refused then cache.None?
                              else cache.Some? && cache.value.token == used[|used| - 1]
      ensures forall t :: t in used ==> t !in old(retired)
      ensures |used| == 0 <==> (!old(idKnown) && !first.lookup)
                               || (first.mint.None? && !(old(cache).Some? && IsFreshAt(old(cache).value, now)))
      ensures requests <= if old(idKnown) then 4 else 5
      ensures |used| >= 1 ==>
                requests == |used| + (if old(idKnown) then 0 else 1)
                            + (if old(cache).Some? && IsFreshAt(old(cache).value, now) then 0 else 1)
                            + if refused then 1 else 0
    {
      var token, asked := Token(now, first);
      requests := asked;
      if token.None? { return [], requests; }
      used, requests := [token.value], requests + 1;
      if !refused { return; }
      Invalidate(token.value);
      var again, more := Token(now, second);
      requests := requests + more;
      if again.Some? { used, requests := used + [again.value], requests + 1; }
    }
  }
}
