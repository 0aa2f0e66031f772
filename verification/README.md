# The runner orchestrator's job lifecycle, modelled and proved in Dafny

The orchestrator turns GitHub `workflow_job` webhooks into ephemeral runners, one
Lima VM per job. Jobs travel through a maildir spool (`new/`, `cur/`, `done/`,
`error/`); a dispatcher, a reconciler, one worker per job, a GC sweep, an archive
prune and a shutdown drain act on it at once. This project models that protocol
and the smaller stateful cores around it, and proves what the source argues for in
its comments. `dafny verify dfyconfig.toml` checks all of it.

Concurrent parts are labelled transition systems in which every filesystem call,
lock acquisition, HTTP round trip or shell test is one step, so that a theorem
about reachable states is a theorem about every interleaving. Code that works step
by step on its own state is imperative: methods and classes with the source's
loops, proved against specification functions.

| file | what it covers |
|---|---|
| `Names` | spool filenames and VM names |
| `SpoolModel` | the spool protocol as a transition system |
| `SpoolArchive`, `SpoolMarkers`, `SpoolRecords` | what holds in every run: lock, stamps, prune, put-back, when a marker is absent, conservation of records |
| `SpoolInvariant`, `SpoolTheorems` | what ownership of a claim gives: replay rejection, one worker per job, teardown |
| `SpoolOutcome` | which archive a claim ends in |
| `SpoolWitness` | runs that show where these results end |
| `SpoolCalls` | the spool calls as procedures, tied to that model |
| `Runs` | runs of a transition system |
| `Drain` | permits, pause gate and shutdown drain |
| `RunnerReap` | minting runners against the sweep that deletes orphaned ones |
| `Reconcile` | one pass of the reconciler, and the label policy |
| `StartupReap` | the reap of a fresh daemon |
| `Dispatch` | `prepare` and the queued listing |
| `GithubListing` | paginated listings |
| `TokenCache` | the installation token under concurrent callers |
| `Coalescing` | the warm coalescer |
| `Watchdog` | the dispatch watchdog |
| `Timing`, `SpoolTiming` | how long a claim is held, against when it expires, over every run |
| `YamlScalars`, `ImageIdentity` | which image a Lima YAML boots, and the VM reap plan |
| `WarmLock` | the host-level warm lock of the shell scripts |

## Hypotheses

What the theorems about whole runs assume. These are premises, each a predicate of
the project:

- `SpoolInvariant.Spared`, for `SpoolTheorems`; `SpoolArchive`, `SpoolMarkers` and
  `SpoolRecords` do without. Up to the state in question, no expiry and no reap took
  over a claim of the one id in question that a live call owns. It is exactly what keeps
  two calls from owning that claim (`UniqueOwnerExactly`).
  - Expiry: `SpoolTiming.TimeoutsSpareOwned` derives it, over every run, from
    `SpoolTiming.WithinTimeouts`: each call leaves each phase within the time the
    timeouts of its job allow there, local filesystem steps take no time, and the wait
    for another caller's lookup of the installation id fits the slack.
  - Reap (`SpoolTiming.ReapSpares`): the startup reap runs before anything is claimed,
    and VMs of live workers are booted from the staged template. What is excluded is a
    VM of an old image whose delete failed and whose job is claimed again: the two share
    one deterministic name, and the stale branch of the sweep finalizes the live
    worker's claim. `StaleVmGivesTwoWorkers` is that run.
- `SpoolRecords.NeverClobbers`, in `Conserving`: no set-aside finds a `.bak` of the
  same id and millisecond. Only the conservation of records needs it, and it needs
  exactly this, step by step (`SetAsideConservesIff`) and over runs
  (`ConservedExactly`).
- `WarmLock.CalmSignals`: no trappable signal between the `rmdir` of the reclaim
  mutex and `reclaiming=0`. `WarmLock.SteadyLock`: the lock at the existence test
  and at `kill -0` is the one whose owner was re-read. `NamedExactlyWhenRemovalsSafe`,
  `SafeRemovalsExcludeTwoHolders` and `ExclusionExactly` use neither.
- `Drain.NoneResumes`: no `/resume` in a stretch of a run. Only the claims about what
  comes after a pause or a drain use it; `DrainedForGoodExactly` says exactly when a
  drain is for good.
- `TokenCache.PromptMint`: a bound on a mint's delay, used for
  `CacheServesLivingTokens` only.
- `StartupReap.Honest`: `limactl delete` exits 0 only when the VM is gone; a
  successful list is true.

These are built into the models:

- `SpoolModel`: there is one GC loop and one daemon per spool, and a finalize does not
  fail on I/O errors.
- `Timing`: one clock for timeouts and file ages; each request ends within
  `api_timeout_secs`, each command within its timeout. The request counts of
  `Plausible` are those proved of the token cache (`TokenCacheMakesPlausible`), and its
  zero waits stand for `TokenCache.LaterCallNeverWaits`.
- `Reconcile`: during a pass claims are added to `cur/` and never released, which is
  the "no worker completes meanwhile" of a completeness claim.
- `TokenCache`: GitHub never issues the same token twice. `WarmLock`: PIDs are not
  reused. `GithubListing`: a listed collection holds still.
- `Drain`: the dispatch future is dropped the moment `run_shutdown` resolves, and
  the reconciler, a task of its own, is not.

## Where the code and its comments differ

The model follows the code in each case.

- `src/spool.rs:389` says the canonical archive marker is never absent. It is absent
  exactly between the rename at line 446 and the one at line 418 or 423, when the other
  archive holds none either (`MarkerAbsentExactly`, over every run; `MarkerAbsentInGap`).
  What the comment is for holds as long as no expiry or reap takes over an owned claim of
  the id: then its claim is in `cur/` meanwhile, also after a crash
  (`AbsentMarkerLeavesClaim`), and no replay is claimed (`ReplayRejected`). When a
  tentative claim is held up until it is expired, neither holds: the id can be nowhere
  in the spool (`ClaimVanishes`), and a replay is claimed (`ReplayGetsThrough`).
- `host-setup/mac-cache/common.sh:111` says that under the reclaim mutex the lock
  cannot go from dead to live between check and remove. It can, in two ways
  (`EmptyOwnerBreaksExclusion`, `DepartedOwnerBreaksExclusion`): the lock may be
  released, or absent, at the re-read and freshly taken before the removal. Such a
  removal is all that can break exclusion, and always can (`ExclusionExactly`).
- `src/supervisor.rs:340` says the drain's permit count matches the capacity
  exactly. Above `u32::MAX` it does not (`DrainSoundExactly`). `src/supervisor.rs:389`
  says that nothing acquires a permit while paused. A loop past its look at the flag
  does (`AcquiresWhilePaused`), at most once each (`PausedAcquisitionsExactly`), but
  never makes a claim under it: exactly the loops past their last look when the pause
  began may still make one each (`PausedClaimsBounded`, `PausedClaimsExactly`). And
  nothing keeps the daemon paused: after a `/resume` the reconciler starts jobs
  (`DrainedForGoodExactly`, `ResumeReopensDrain`).
- `src/gc.rs:930` budgets six requests per call. Five is the maximum, since the
  installation id is looked up once (`RetryUsesAnotherToken`). The spare ones are
  what covers the wait behind another caller's lookup, which nothing else budgets
  (`InFlightSafeExactly`).
- `src/warm.rs:116` says that with a zero `ttl` the map stays empty. One mark stays
  (`ZeroTtl`). `src/warm.rs:135` says marks are more than `ttl` apart; they are at
  least `ttl` apart, and sometimes exactly (`MarksSpaced`, `MarksExactlyTtlApart`).
- `src/warm.rs:299` reads the clock before the mutex, so readings may take it out
  of order; then pruning can let a second warm through (`LateReadingSlipsThrough`).
- `src/gc.rs:459` says that dropping the reaped names from the live set only bites when
  `finalize_error` failed. It also bites a job minted again under its deterministic
  name during the sweep, whose runner then loses its registration
  (`RemintedRunnerDeleted`; exactly when: `LiveRunnersPlannedExactly`).
- `src/control.rs:334` sets `truncated` also when the directory holds exactly the
  cap and was exhausted (`ListQueued`).

## Model

| member | source | states |
|---|---|---|
| `Names.FilenameRoundTrip` | src/spool.rs:655-658 | Every 64-bit id survives the trip through `{id}.job` and `parse_spool_filename`, and that filename is canonical |
| `Names.CanonicalInjective` | src/supervisor.rs:561-562 | Two ids never share a canonical filename |
| `Names.CanonicalRejectsExactlyAliases` | src/supervisor.rs:555-570 | Of the names that parse, the canonical-name check rejects exactly those with a leading `+` or a leading zero on a longer numeral |
| `Names.VmNameInjective` | src/runner.rs:501-503 | Two 64-bit ids never share a VM name |
| `Names.ManagedNamesAreExactlyVmNames` | src/gc.rs:113-121 | A name passes the managed-name test exactly when it is `vm_name(id)` for some 64-bit id, and then for one only |
| `SpoolInvariant.StepKeepsInv` | src/spool.rs:174-453 | Every step of every interleaved claim, synthetic claim, finalize, expiry, reap and prune keeps, for each id by itself: one owner of its claim, the claim in `cur/` and no older than its owner; needed of the step only that it does not expire or reap an owned claim of this id |
| `SpoolRecords.StepKeepsRecords` | src/spool.rs:405-453 | Every step keeps each record in one place only, whoever expires or overruns what, when the step clobbers no `.bak` |
| `SpoolInvariant.ReachableInv` | src/spool.rs:81-112 | That invariant holds in every state of every run up to which no sweep step took over an owned claim of the id, from an arbitrary tree left by a predecessor and across crashes |
| `SpoolInvariant.UniqueOwnerExactly` | src/gc.rs:971-1002 | The hypothesis is exact: up to any state of any run, no two calls ever own the claim of an id exactly when no expiry or reap took over an owned one |
| `SpoolTheorems.ReplayRejected` | src/spool.rs:174-249 | From the moment an id is archived until its marker is pruned, every state of every interleaving has its name in `cur/`, `done/` or `error/`, and no `try_claim` returns a claim for it; needed only that no sweep step took over an owned claim of this id so far |
| `SpoolWitness.ReplayGetsThrough` | src/spool.rs:192-237 | Without that, for every id, a run in which a `try_claim` returns a claim for an archived id whose marker was never pruned |
| `SpoolTheorems.AtMostOneWebhookClaim` | src/spool.rs:192-237 | Between two prunes of an id, at most one `try_claim` ever returns a claim for it |
| `SpoolMarkers.MarkerAbsentExactly` | src/spool.rs:389-446 | Over every run from an archived state, put-backs and expired live claims included, without prune of the marker or crash in the gap: the marker is absent exactly while some finalize of this id is between its set-aside and its install or put-back and the other archive has none; the id is nowhere in the spool exactly when moreover its claim is gone from `cur/` |
| `SpoolMarkers.MarkerLeavesExactly` | src/spool.rs:435-453 | An archived id loses its marker by exactly one step: the set-aside rename of its own finalize, when the other archive has none |
| `SpoolTheorems.CrashLeavesClaim` | src/spool.rs:412-427 | A crash inside that gap leaves no marker, but the claim in `cur/` with nobody to revert it, so that no `try_claim` returns it, if no sweep step took over an owned claim of the id |
| `SpoolTheorems.AbsentMarkerLeavesClaim` | src/spool.rs:389-398 | With crashes too, an archived and unpruned id without a marker has its claim in `cur/` under nothing that may still revert it |
| `SpoolWitness.MarkerAbsentInGap` | src/spool.rs:389-446 | For every id, a run that meets every hypothesis and leaves the archived id without a marker |
| `SpoolRecords.RecordsConserved` | src/spool.rs:405-453 | In every interleaving, with live claims expired and claims vanishing too, a record that entered `cur/` is, in every later state until a revert or the prune discards it, in exactly one of `cur/`, a marker or a `.bak` |
| `SpoolRecords.ConservedExactly` | src/spool.rs:435-453 | Over every run from one place per record: every record kept is held in every state exactly when no set-aside rename of the run finds a `.bak` of the same id and millisecond |
| `SpoolRecords.BodiesCountRecords` | src/spool.rs:383-387 | No two records share a file: `n` records kept are `n` bodies, so archiving one id `n` times leaves `n` |
| `SpoolRecords.SetAsideConservesIff` | src/spool.rs:435-453 | The set-aside rename loses no record exactly when there is nothing to set aside or no `.bak` of the same id and millisecond |
| `SpoolArchive.PutBackRestores` | src/spool.rs:419-426 | In every run: a finalize whose claim vanished after its set-aside puts back the very record it set aside; the whole archive is then as it found it exactly when the set-aside clobbered no `.bak` |
| `SpoolWitness.ClaimVanishes` | src/spool.rs:398-400 | For every id, a run that gets there, with the archived and unpruned id nowhere in the spool: a tentative claim held up beyond the threshold is expired, and reverts between the set-aside and the install |
| `SpoolTheorems.OneWorkerPerVm` | src/supervisor.rs:782-831 | In every state two live workers, from webhook or reconciler, drive VMs of different names; needed only that no sweep step took over an owned claim of the one id so far |
| `SpoolWitness.StaleVmGivesTwoWorkers` | src/gc.rs:333-365 | Without that, for every job, a run that ends with two workers on one VM: the plan of the sweep names a VM of an old image under the claim of the worker that drives the same name |
| `SpoolTheorems.TeardownBeforeRelease` | src/runner.rs:75-108 | Over every run: once a worker drives the VM of a job, the job's slot in `cur/` is not free again before a step of the run in which that worker came back from the teardown, unless it panics or the process dies |
| `SpoolOutcome.WorkerLands` | src/supervisor.rs:795-838 | Over every run: the record in `cur/` becomes the marker in `done/` exactly when the worker's job was minted and its VM run ended well, and the marker in `error/` otherwise |
| `SpoolOutcome.JudgedLands` | src/supervisor.rs:531-603 | A claim that was never run lands in `done/` exactly when `prepare` dropped it, and in `error/` when it rejected it |
| `SpoolOutcome.SweptLands` | src/gc.rs:971-1002 | A claim that the sweep takes over always lands in `error/` |
| `SpoolArchive.PruneUnlinksOnlyOld` | src/gc.rs:1045-1140 | In every interleaving, the file a prune is about to unlink is older than the retention right then, also by the time of its install, and no finalize is between its install and its stamp |
| `SpoolArchive.PruneRemovesOld` | src/gc.rs:1045-1140 | From a scan that meets an expired entry the prune's own steps lead back to the scan with exactly that entry gone |
| `SpoolArchive.ZeroRetentionKeepsAll` | src/gc.rs:1007-1027 | With a retention of zero no run ever prunes |
| `SpoolArchive.StepKeepsArchive` | src/spool.rs:251-288 | With no hypothesis at all, every step keeps: the lock with its holder, completion stamps not older than installs, and what a lock holder has read of the archive true |
| `SpoolCalls.Spool.IsArchived` | src/spool.rs:242-249 | A name is archived exactly when it has a `done/` or an `error/` marker; sidecars and `.bak`s do not count |
| `SpoolCalls.ClaimExactly` | src/spool.rs:174-237 | File by file what a `try_claim` does on a quiet spool: who wins, what is stamped and where, and that no other file changes |
| `SpoolCalls.FinalizeExactly` | src/spool.rs:251-288 | File by file what a finalize does on a quiet spool: marker, `.bak`, an `.err` sidecar exactly for `error/`, and no other file |
| `SpoolCalls.Spool.RenameIntoCur` | src/spool.rs:532-547 | The exclusive rename moves the file, or reports which side is in the way and changes nothing |
| `SpoolCalls.Spool.TryClaim` | src/spool.rs:174-237 | The claim is won exactly when the id is in `new/`, not in `cur/` and not archived, also when the original finalizes between the two checks; a duplicate is removed |
| `SpoolCalls.Spool.WriteSyntheticClaim` | src/spool.rs:305-381 | The synthetic claim is won exactly when the `cur/` slot is free, whatever the archive says |
| `SpoolCalls.Spool.ArchiveClaim` | src/spool.rs:405-430 | Installs the claim with the old marker set aside; leaves everything untouched when the claim is gone; puts the old marker back when the claim vanishes in between |
| `SpoolCalls.Spool.Finalize` | src/spool.rs:251-288 | The claim becomes the marker, freshly stamped; with no claim an existing marker is neither replaced nor restamped |
| `SpoolCalls.ClaimSolo` | src/spool.rs:174-237 | Undisturbed, the interleaving model's `try_claim` ends in the outcome proved for the procedure |
| `SpoolCalls.FinalizeSolo` | src/spool.rs:251-288 | Undisturbed, the interleaving model's finalize ends in the outcome proved for the procedure, lock released |
| `SpoolCalls.SyntheticSolo` | src/spool.rs:305-381 | Undisturbed, the interleaving model's synthetic claim ends in the outcome proved for the procedure |
| `SpoolCalls.PruneSolo` | src/gc.rs:1045-1140 | Undisturbed, the prune removes an entry it examined exactly if that is older than the retention, changes no other file and goes on scanning |
| `WarmLock.StepKeepsInv` | host-setup/mac-cache/common.sh:119-170 | Every shell step, signal and SIGKILL keeps: a holder is the process the symlink names, the reclaim mutex belongs to the reclaimer, a lock about to be removed is stale |
| `WarmLock.MutualExclusion` | host-setup/mac-cache/common.sh:142-170 | For any number of processes and SIGKILL at any step, whoever holds the lock is named by the symlink and alone in the critical section, when the lock stays as re-read until the decision |
| `WarmLock.ReclaimsOnlyDead` | host-setup/mac-cache/common.sh:119-135 | A reclaimer about to remove a lock removes one whose owner is dead, with nobody else holding the lock or in the reclaim section |
| `WarmLock.AttemptExactly` | host-setup/mac-cache/common.sh:142-170 | An attempt or retry of a process that moves alone: it takes a free lock, and the lock of a dead owner, symlink or directory; it waits with nothing changed exactly while the owner is alive or the reclaim mutex taken. Each outcome can be reached under every hypothesis too |
| `WarmLock.ReclaimDeclines` | host-setup/mac-cache/common.sh:119-135 | Where the lock is gone or its owner alive after all, a reclaimer removes nothing, gives its mutex back and waits |
| `WarmLock.KilledHolderReplaced` | host-setup/mac-cache/common.sh:106-110 | A holder killed in its critical section leaves its lock, and the next process takes it over |
| `WarmLock.TrapReleasesExactly` | host-setup/mac-cache/common.sh:74-87 | By whatever way a process comes to its trap, that removes the lock exactly if the process holds it and the reclaim mutex exactly if it has it |
| `WarmLock.NamedExactlyWhenRemovalsSafe` | host-setup/mac-cache/common.sh:124-127 | Without that hypothesis: a run keeps the symlink naming its holder exactly when no reclaim `rm` meets a live holder |
| `WarmLock.SafeRemovalsExcludeTwoHolders` | host-setup/mac-cache/common.sh:124-127 | And such a run never has two processes in the critical section |
| `WarmLock.ExclusionExactly` | host-setup/mac-cache/common.sh:111-127 | Under any of the hypotheses, or none: two processes are never in the critical section together exactly when no reachable state has a reclaimer at its `rm` while a live process holds the lock |
| `WarmLock.EmptyOwnerBreaksExclusion` | host-setup/mac-cache/common.sh:117-127 | A concrete run with two holders: the owner is re-read while the lock is absent and a peer locks before the existence test |
| `WarmLock.DepartedOwnerBreaksExclusion` | host-setup/mac-cache/common.sh:111-127 | A concrete run with two holders although the re-read owner is non-empty and unchanged at the existence test: it departs before `kill -0` |
| `Drain.StepKeepsInv` | src/supervisor.rs:203-306 | Every step of dispatcher, reconciler, workers, pause switch and shutdown keeps the permit balance and the covering of claims |
| `Drain.PermitsConserved` | src/supervisor.rs:397-425 | Free permits and those of workers, loops and drain always add up to `max_concurrency`; every claim of this process is covered by a permit unless its worker abandoned it |
| `Drain.PermitBracketsClaim` | src/supervisor.rs:782-831 | A claim is made only by a loop that holds a permit, and the permit comes back only once the claim is finalized or abandoned |
| `Drain.ClaimEndsExactly` | src/supervisor.rs:782-838 | A claim of this process ends exactly by a finalize that succeeds or by the expiry of an abandoned one |
| `Drain.AbandonedExactly` | src/supervisor.rs:782-838 | A claim is abandoned exactly when its finalize fails, its worker panics, or the dispatch future is dropped while archiving it |
| `Drain.DrainCompletesExactly` | src/supervisor.rs:384-392 | In every run, `/resume` or not, the drain has every permit it asks for exactly when no job runs and neither loop holds a permit |
| `Drain.DrainedMeansDone` | src/supervisor.rs:397-425 | With no `/resume` from the pause on: once `run_shutdown` yields `Drained`, no job runs and neither dispatcher nor reconciler claims another, ever |
| `Drain.DrainedOnlyWhenDone` | src/supervisor.rs:412-424 | Whatever step makes `run_shutdown` resolve to `Drained`, no job runs and neither loop holds a permit |
| `Drain.ResolvesExactly` | src/supervisor.rs:412-424 | During a drain `Drained` is possible right now exactly when nothing is held and every permit gathered; until then a second interrupt, and only then, yields `Forced` |
| `Drain.DrainSoundExactly` | src/supervisor.rs:337-349 | In all runs, `Drained` is reached only with no job running exactly when `max_concurrency` fits a `u32` |
| `Drain.DrainedForGoodExactly` | src/supervisor.rs:384-392 | A completed drain is for good, as long as nobody posts `/resume` from then on, exactly when the daemon is still paused at the moment it completes |
| `Drain.ResumeReopensDrain` | src/gc.rs:847-878 | A concrete run: after a `/resume` during the drain it completes, and the reconciler starts a job afterwards |
| `Drain.AcquiresWhilePaused` | src/supervisor.rs:387-390 | For every number of permits, a run that acquires one while paused: `/pause` lands after the dispatcher looked at the flag |
| `Drain.PausedAcquisitionsBounded` | src/supervisor.rs:387-390 | From any pause on, until somebody resumes: the permits acquired, plus the loops still about to acquire one, number at most the loops about to acquire one when it began |
| `Drain.PausedAcquisitionsExactly` | src/supervisor.rs:387-390 | In every reachable paused state, as long as the drain has gathered nothing: some run without resume acquires `n` permits exactly when at least `n` loops were about to |
| `Drain.PausedClaimsBounded` | src/supervisor.rs:384-392 | From a pause on, until somebody resumes: the claims made and those still in hand at the end were in hand when it began, so that a permit acquired while paused never becomes a claim |
| `Drain.PausedClaimsExactly` | src/supervisor.rs:384-392 | From a pause on, until somebody resumes, some run makes `n` claims exactly when at least `n` loops were past their last look at the flag |
| `TokenCache.StepKeepsInv` | src/github/installation.rs:138-196 | Every step of every interleaving of callers keeps: a cached or pending token was never invalidated, and a pending one is in one call's hands only |
| `TokenCache.InvalidatedNeverServed` | src/github/installation.rs:183-196 | A `token()` begun after `invalidate(t)` completed never returns `t`, and the cache does not hold it |
| `TokenCache.BarredAtBegin` | src/github/jit.rs:201-202 | Each `token()` begins with everything invalidated so far barred, the retry's own stale token included |
| `TokenCache.RetryUsesAnotherToken` | src/github/jit.rs:187-204 | `send_authed` retries at most once and with a different token; at most five requests, four when the installation id is known |
| `TokenCache.LaterCallMakesFour` | src/github/installation.rs:109-136 | A call begun after some call has sent a request makes at most four |
| `TokenCache.LaterCallNeverWaits` | src/github/installation.rs:109-136 | Nor does such a call ever wait for another call's lookup: at every state of every run its next step is open |
| `TokenCache.OneLookupAtATime` | src/github/installation.rs:109-136 | Over every run no two calls look the installation id up at once |
| `TokenCache.FiveRequestsReached` | src/github/jit.rs:187-204 | The bound of five requests is reached |
| `TokenCache.CacheServesLivingTokens` | src/github/installation.rs:93-95 | A token served from the cache has more than the margin left on its stamp, and more than 900 seconds less its mint's delay at GitHub, for any clock |
| `TokenCache.Installations.constructor` | src/github/installation.rs:99-107 | A fresh cache knows neither installation id nor token |
| `TokenCache.Installations.Token` | src/github/installation.rs:138-181 | The exact token, cache and request count of one undisturbed call, errors included; never a retired token |
| `TokenCache.Installations.Invalidate` | src/github/installation.rs:191-196 | Clears the cache only when it holds the stale token |
| `TokenCache.Installations.SendAuthed` | src/github/jit.rs:187-204 | Sends twice exactly when the first send is refused and another token can be minted; which token each send uses, what is retired and what is cached afterwards; nothing sent exactly when no token can be had |
| `Coalescing.Coalescer.constructor` | src/warm.rs:105-110 | A fresh coalescer has an empty history |
| `Coalescing.Coalescer.CheckAndMark` | src/warm.rs:117-125 | Lets the caller proceed exactly when the replayed history does not refuse, and keeps the map equal to that replay |
| `Coalescing.Coalescer.Clear` | src/warm.rs:139-144 | Keeps the map equal to the replay of the history with the clear added |
| `Coalescing.SeenExactly` | src/warm.rs:117-144 | For calls in any order, the map holds exactly the marks nobody cleared and no later reading found expired |
| `Coalescing.RefusedExactly` | src/warm.rs:117-125 | For calls in any order, a check is refused exactly while a live mark of its key is younger than `ttl` |
| `Coalescing.PrunedAnswersLikeHistory` | src/warm.rs:112-125 | With non-decreasing time, pruning never changes an answer: refuse exactly while an accepted, uncleared mark of the key is younger than `ttl` |
| `Coalescing.AnswersDifferExactly` | src/warm.rs:117-125 | For calls in any order, exactly when pruning does change an answer |
| `Coalescing.LateReadingSlipsThrough` | src/warm.rs:299-300 | A concrete history in which a clock read before the mutex lets a second warm through |
| `Coalescing.MarksSpaced` | src/warm.rs:132-138 | Accepted marks of one key, the earlier uncleared, are at least `ttl` apart |
| `Coalescing.MarksExactlyTtlApart` | src/warm.rs:135-138 | Marks exactly `ttl` apart do happen |
| `Coalescing.ClearSparesOthers` | src/warm.rs:127-144 | For a positive `ttl`, a late clear never removes another warm's mark |
| `Coalescing.ZeroTtl` | src/warm.rs:115-116 | A zero `ttl` refuses nothing, but leaves the latest mark in the map, against the comment |
| `Watchdog.WatchDispatch` | src/runner.rs:385-437 | For every sequence of polls and clock readings, the loop reaps at tick k exactly when no job was seen up to k and k is the second tick past the deadline whose poll finds no registration or a runner without a job; `lost` exactly when that poll shows none online |
| `Watchdog.OnlyFailedPollsBetween` | src/runner.rs:343-350 | With a monotone clock, only failed polls lie between the two verdicts |
| `Watchdog.FailedPollsInert` | src/runner.rs:300-304 | A run is reaped exactly when the same run without its failed polls is |
| `Timing.SaturatingNeverReapsEarlier` | src/gc.rs:958-969 | For every age a `u64` holds, the saturating threshold expires exactly when the unbounded sum would |
| `Timing.RunJob` | src/runner.rs:47-109 | The time a worker holds its claim, phase by phase, on every success and failure path, and when the job counts as done |
| `Timing.JobTimeCharged` | src/runner.rs:47-109 | Every operation of a job is charged, capped at its own timeout, exactly when the job reaches it |
| `Timing.JobTimeBounded` | src/lima/mod.rs:46-67 | On every path that time, plus the budgeted requests that cannot be used, is within the threshold plus the wait for the installation id |
| `Timing.SlowestTime` | src/gc.rs:958-969 | The bound is attained |
| `Timing.InFlightSafeExactly` | src/gc.rs:937-969 | No in-flight job outlives the threshold exactly when the wait for another caller's lookup is within the slack of the request budget |
| `Timing.TokenCacheMakesPlausible` | src/gc.rs:930-935 | Calls of one run of the token cache, the later two begun after the mint was sent, are within the request counts the bound assumes |
| `SpoolTiming.ClaimAgeBounded` | src/gc.rs:941-957 | Over every run whose calls stay within their timeouts phase by phase, a live owner's claim is never older than its job takes, nor than the threshold |
| `SpoolTiming.OverdueIsOrphaned` | src/gc.rs:971-1002 | A `cur/` entry old enough to be expired is owned by no live call, when owners stay within the threshold |
| `SpoolTiming.TimeoutsGiveTimely` | src/gc.rs:937-969 | In every state of such a run no live owner is overdue |
| `SpoolTiming.TimeoutsSpareOwned` | src/gc.rs:937-1002 | In such a run no expiry takes over an owned claim of an id, unless a reap has: what the spool theorems assume comes down to the reaps |
| `SpoolTiming.NeverExpiresLiveClaim` | src/gc.rs:971-1002 | No such run expires a claim that a live call owns, if no reap took over an owned claim of this id before |
| `YamlScalars.StripInlineComment` | src/gc.rs:1538-1572 | The scan cuts at the first `#` outside quotes that starts the value or follows a blank or a quote |
| `YamlScalars.HashBeginsCommentExactly` | src/gc.rs:1552-1566 | Outside quotes a `#` begins a comment exactly after a blank, a tab or a closing quote |
| `YamlScalars.CommentIgnoredExactly` | src/gc.rs:1578-1596 | Appending ` #` and any text never changes a normalized value exactly when its scan ends outside quotes |
| `YamlScalars.QuotedUrlNormalized` | src/gc.rs:1574-1596 | A `scheme://path` in double or in single quotes normalizes to the path, `#` inside the quotes included |
| `YamlScalars.BareUrlNormalized` | src/gc.rs:1574-1596 | So does a bare one without quotes and `#` |
| `YamlScalars.SchemeDropped` | src/gc.rs:1590-1595 | Everything up to the last scheme separator is dropped, and nothing after it |
| `ImageIdentity.ParseImageIdentity` | src/gc.rs:1447-1500 | The loops compute the identity of the first usable image of the top-level `images:` block |
| `ImageIdentity.FirstImageFound` | src/gc.rs:1425-1443 | The identity is the first usable `location:` of the block with the `digest:` that follows it in the same list item |
| `ImageIdentity.FirstImageWithoutDigest` | src/gc.rs:1482-1499 | When a dash, another location, a top-level key or the end of the file comes before any `digest:`, the identity is the location alone |
| `ImageIdentity.NoImageFound` | src/gc.rs:1457-1481 | A block without a usable `location:` gives no identity |
| `ImageIdentity.OnlyImagesBlockMatters` | src/gc.rs:1431-1443 | Neither the lines before the first top-level `images:` key nor those from the next top-level key on change the parse |
| `ImageIdentity.CommentedLine` | src/gc.rs:1528-1537 | A trailing comment changes nothing a line means, except that it completes a dash alone on its line |
| `ImageIdentity.CopyNamesSameImage` | src/gc.rs:1534-1537 | A template and its realized copy without comments and blank lines name the same image; equal outright unless a dash stands alone |
| `ImageIdentity.PlanVmReaps` | src/gc.rs:333-365 | The plan holds exactly the unclaimed VMs and the claimed ones of another image; nothing when `cur/` is unreadable |
| `ImageIdentity.ClaimedCurrentVmSpared` | src/gc.rs:325-365 | A claimed VM booted from a copy of the current template is never planned for reaping |
| `StartupReap.Lima.Delete` | src/lima/mod.rs:152-175 | Ok means that the VM is gone; Err, that it is still there or the listing failed |
| `StartupReap.Lima.DeleteWithRetry` | src/gc.rs:235-256 | Fails exactly when each of three attempts does; on success the VM is gone and no other VM was touched |
| `StartupReap.LiveVmMapFromCur` | src/gc.rs:1335-1365 | The map from VM names to claim files that the entries determine, the last alias winning |
| `StartupReap.LiveMapHoldsClaims` | src/gc.rs:1335-1365 | It names a claim for exactly the VMs that have one |
| `StartupReap.EveryClaimMappedExactly` | src/gc.rs:1335-1365 | It names every claim exactly when no two claim files are aliases of one id |
| `StartupReap.CanonicalNamesHaveNoAliases` | src/supervisor.rs:555-562 | Canonical names are never aliases |
| `StartupReap.PlanStartupClaimFinalizes` | src/gc.rs:390-414 | Exactly the claims whose VM's delete did not fail, with the right reason each |
| `StartupReap.DeleteManaged` | src/gc.rs:172-211 | Exactly the managed listed VMs are tried; those not recorded as failed are gone |
| `StartupReap.ReapAllManagedVmsAtStartup` | src/gc.rs:152-226 | Every claim finalized has its VM gone; without aliases every claim left had a VM whose delete failed on every attempt; a failed listing or unreadable `cur/` finalizes nothing |
| `RunnerReap.PlanRunnerReaps` | src/gc.rs:425-439 | Exactly the listed managed runners without a live claim that are offline or idle; none when `cur/` is unreadable |
| `RunnerReap.StepKeepsInv` | src/gc.rs:441-450 | Every step of minting, listing and scanning keeps: a listed runner whose worker holds its claim is sure to be seen by the scan |
| `RunnerReap.LiveRunnersNeverDeleted` | src/gc.rs:494-519 | In every interleaving, whatever a predecessor left registered, a registration the sweep deletes belongs to a worker that holds no claim, names the sweep reaped itself excepted |
| `RunnerReap.RegistrationsRemovedOnlyUnclaimed` | src/gc.rs:693-723 | Over every run, a step that removes a registration is its own end, or finds its worker without a claim, or finds its name among the VMs the sweep destroyed |
| `RunnerReap.PlanAtEndOfScan` | src/gc.rs:494-519 | What the sweep deletes, in terms of what it listed and what its scan saw; nothing after a failed scan |
| `RunnerReap.LiveRunnersPlannedExactly` | src/gc.rs:456-460 | Of the listed runners whose worker holds its claim, the sweep plans to delete exactly the managed, offline or idle ones whose VM it reaped itself |
| `RunnerReap.RemintedRunnerDeleted` | src/gc.rs:456-460 | For every job, a run in which its finalize succeeded, the job is minted again during the sweep, and the new worker loses its registration while it holds the claim |
| `Reconcile.EqIgnoreCaseExactly` | src/supervisor.rs:712-720 | Two labels match exactly when they agree letter by letter up to the case of `A` to `Z` |
| `Reconcile.AcceptsExactly` | src/supervisor.rs:721-734 | A job is accepted exactly when one of its labels is the gate and each is advertised, however spelled |
| `Reconcile.CaseNeverMatters` | src/supervisor.rs:712-734 | Respelling the case of a job's labels never changes the verdict of the label policy |
| `Reconcile.Pass.ReconcileJob` | src/gc.rs:817-886 | One job: afterwards it is served, or the pass stops at the first look that finds the daemon paused, or for want of a permit; it mints only what is wanted, and only after a second look with the permit in hand |
| `Reconcile.Pass.ReconcileRepo` | src/gc.rs:780-887 | One repository: afterwards each of its queued jobs is served, or the pass stops |
| `Reconcile.ReconcileOnce` | src/gc.rs:763-889 | An unpaused pass ends with no permit left or every accepted queued job covered by a claim or an idle runner; it mints at most the free permits, only wanted jobs, never twice, one permit per claim; it stops at the first look that finds the daemon paused; it does nothing when `cur/` is unreadable |
| `Dispatch.Classify` | src/supervisor.rs:626-695 | An entry classified as runnable decodes to the event returned, of the filename's job and an allowed repository; an entry with a bad signature is neither run nor archived as handled |
| `Dispatch.ClassifiedExactly` | src/supervisor.rs:618-695 | An entry is runnable exactly when signature, schema, filename, envelope, body and allowlist agree and it is a queued job of ours; exactly which authentic entries are archived as not ours |
| `Dispatch.PreparedExactly` | src/supervisor.rs:531-603 | `prepare` runs exactly an authentic job of ours under its canonical name, drops exactly what is signed but not ours, rejects the rest of what it can claim, and skips exactly what does not parse or cannot be claimed |
| `Dispatch.Prepare` | src/supervisor.rs:531-603 | What `prepare` makes of one entry, and the disk it leaves |
| `Dispatch.AlreadyClaimedOrArchived` | src/control.rs:504-514 | True exactly when the name is in `cur/`, `done/` or `error/` |
| `Dispatch.ListQueued` | src/control.rs:351-497 | Below the scan cap the rows are exactly the entries `prepare` would run on this spool, with the sanitized fields of the very event; at the cap every row still is |
| `Dispatch.ListedExactlyWhenRun` | src/control.rs:416-446 | An entry is listed exactly when `prepare` would run it, as the same job |
| `Dispatch.SanitizeExactly` | src/spool.rs:666-668 | A displayed field is short and free of control characters, and is the real one exactly when that is |
| `GithubListing.ListRunners` | src/github/jit.rs:332-365 | The pages together are exactly the runners of the prefix, in order; an error exactly when one of the pages needed fails |
| `GithubListing.NamedMember` | src/github/jit.rs:354-358 | A runner is listed exactly when GitHub holds it and its name has the prefix |
| `GithubListing.ListRunJobs` | src/github/jit.rs:514-544 | All jobs of the run, whatever pages they are spread over; an error exactly when one of those fails |
| `GithubListing.ListQueuedJobs` | src/github/jit.rs:467-508 | Strictly ascending ids, only jobs that GitHub shows as queued in a run that is queued or in progress, and the id of every such job; an error exactly when one of the pages needed fails |
| `GithubListing.SortedListing` | src/github/jit.rs:503-507 | Sorting and dropping consecutive duplicates keeps one job per id and loses no id |
| `GithubListing.ReportedMember` | src/github/jit.rs:489-496 | A job is reported exactly when some scanned run holds it as queued; its repository is that run's |

## Left out

- HTTP, JSON decoding, JWT signing, HMAC and SHA-256: an HMAC check is an uninterpreted predicate, a decoded body a value, GitHub and Lima environments with the stated contracts.
- `limactl` and `nix` processes, process-group kills and timeouts as OS mechanisms: only their duration bounds and the contract of `delete` are kept.
- I/O errors of the spool other than a missing source or an occupied target; the temporary file that a synthetic claim is staged in before its rename; fsync; symlink and file-mode hardening.
- The fairness of the permit semaphore and every liveness claim beyond `DrainCompletesExactly`: the systems say what may happen, not that it will.
- The claim that the VM pass never orphans a freshly minted VM (`src/gc.rs:569-585`): it rests on start-up latency, not on an order of steps.
- The prune of serial logs and JIT blobs: easier copies of the archive prune.
- The completed and in-flight listings, the VM snapshot poller, the web assets, configuration checks, cache-key checks, Nix and Lima templates, the other host-setup scripts: one-branch predicates, plumbing or deployment.
- The warmer's build path and its default-branch lookup: only its coalescer is modelled.
- `str::lines` of the image parser: the parse starts from the lines of the file. `lima.yaml` as a copy of the template is the relation `Copied`, which covers dropped comments and blank lines and no other rewriting.
- The 60-second bound and the polling interval of the shell lock: giving up is a step a waiting process may take at any time.
- Timing.RunJob: the wait for the archive lock and host sleep, during which file ages grow and timeouts do not, are not modelled.
- Reconcile.ReconcileOnce: a job whose claim fails to be written counts as served, since the pass logs the error and goes on.
- Dispatch.Prepare: the reason strings of a drop or a reject are not modelled.
