/** The reap a fresh daemon does before it claims anything: delete every managed
    VM it finds, then finalize every claim whose VM is gone. */
module StartupReap {
  import opened Names
  import opened SpoolModel
  import opened SpoolCalls

  const STARTUP_DELETE_ATTEMPTS: nat := 3

  // ---- Lima -------------------------------------------------------------

  /** One `limactl delete` and the re-list that follows a failure: does it exit 0,
      does it remove the VM whatever it exits with, does the re-list answer. */
  datatype Attempt = Attempt(exitOk: bool, removes: bool, listOk: bool)

  /** The `limactl` contract: exit 0 means that the VM is gone. */
  ghost predicate Honest(attempts: (string, nat) -> Attempt) {
    forall name, k :: attempts(name, k).exitOk ==> attempts(name, k).removes
  }

  predicate Gone(attempts: (string, nat) -> Attempt, name: string, k: nat) {
    exists j :: 1 <= j <= k && attempts(name, j).removes
  }

  /** Attempt `k` on a VM that was there before the first attempt fails: not a
      clean exit, and the VM is still listed or the list fails. */
  predicate AttemptFails(attempts: (string, nat) -> Attempt, name: string, k: nat) {
    !attempts(name, k).exitOk && (!attempts(name, k).listOk || !Gone(attempts, name, k))
  }

  predicate DeleteFails(attempts: (string, nat) -> Attempt, name: string) {
    forall k :: 1 <= k <= STARTUP_DELETE_ATTEMPTS ==> AttemptFails(attempts, name, k)
  }

  class Lima {
    var instances: set<string>

    constructor (instances: set<string>)
      ensures this.instances == instances
    {
      this.instances := instances;
    }

    /** An `Ok` means that the VM is gone; an `Err`, that it is still there or
        that its presence could not be determined. */
    method Delete(name: string, a: Attempt) returns (ok: bool)
      requires a.exitOk ==> a.removes
      modifies this
      ensures instances == if a.removes then old(instances) - {name} else old(instances)
      ensures ok <==> a.exitOk || (a.listOk && name !in instances)
      ensures ok ==> name !in instances
      ensures !ok ==> name in instances || !a.listOk
    {
      if a.removes { instances := instances - {name}; }
      if a.exitOk { return true; }
      if !a.listOk { return false; }
      ok := name !in instances;
    }

    method DeleteWithRetry(name: string, attempts: (string, nat) -> Attempt) returns (ok: bool)
      requires Honest(attempts) && name in instances
      modifies this
      ensures ok <==> !DeleteFails(attempts, name)
      ensures ok ==> name !in instances
      ensures old(instances) - {name} <= instances <= old(instances)
    {
      var k := 1;
      while k <= STARTUP_DELETE_ATTEMPTS
        invariant 1 <= k <= STARTUP_DELETE_ATTEMPTS + 1
        invariant old(instances) - {name} <= instances <= old(instances)
        invariant name in instances <==> !Gone(attempts, name, k - 1)
        invariant forall j :: 1 <= j < k ==> AttemptFails(attempts, name, j)
      {
        ok := Delete(name, attempts(name, k));
        assert name in instances <==> !Gone(attempts, name, k) by {
          assert Gone(attempts, name, k - 1) ==> Gone(attempts, name, k);
          assert Gone(attempts, name, k) ==> Gone(attempts, name, k - 1) || attempts(name, k).removes;
        }
        if ok {
          assert !AttemptFails(attempts, name, k);
          return;
        }
        k := k + 1;
      }
      ok := false;
    }
  }

  // ---- cur/ -------------------------------------------------------------

  datatype FileType = Regular | Other | Unreadable

  datatype DirEntry = DirEntry(name: string, fileType: FileType)

  /** A file that counts as a claim; one whose type cannot be read stays one. */
  predicate IsClaim(e: DirEntry) { ParseSpoolFilename(e.name).Some? && !e.fileType.Other? }

  function VmOf(e: DirEntry): string
    requires IsClaim(e)
  {
    VmName(ParseSpoolFilename(e.name).value)
  }

  function LiveMap(entries: seq<DirEntry>): map<string, string> {
    if entries == [] then map[]
    else
      var before, e := LiveMap(entries[..|entries| - 1]), entries[|entries| - 1];
      if IsClaim(e) then before[VmOf(e) := e.name] else before
  }

  /** `live_vm_map_from_cur`; aliases of one id share a key, and the last wins. */
  method LiveVmMapFromCur(entries: seq<DirEntry>) returns (live: map<string, string>)
    ensures live == LiveMap(entries)
  {
    live := map[];
    var n := 0;
    while n < |entries|
      invariant 0 <= n <= |entries|
      invariant live == LiveMap(entries[..n])
    {
      assert entries[..n + 1][..n] == entries[..n];
      if IsClaim(entries[n]) { live := live[VmOf(entries[n]) := entries[n].name]; }
      n := n + 1;
    }
    assert entries[..n] == entries;
  }

  predicate IsClaimOf(entries: seq<DirEntry>, vm: string, name: string) {
    exists e :: e in entries && IsClaim(e) && VmOf(e) == vm && e.name == name
  }

  /** The map names a claim for each VM that has one, and nothing else. */
  lemma {:induction false} LiveMapHoldsClaims(entries: seq<DirEntry>, vm: string)
    ensures vm in LiveMap(entries) <==> exists e :: e in entries && IsClaim(e) && VmOf(e) == vm
    ensures vm in LiveMap(entries) ==> IsClaimOf(entries, vm, LiveMap(entries)[vm])
  {
    if entries != [] {
      var init, last := entries[..|entries| - 1], entries[|entries| - 1];
      LiveMapHoldsClaims(init, vm);
      assert entries == init + [last];
    }
  }

  /** No two claim files are aliases of one id, such as `7.job` and `07.job`. */
  predicate NoAliases(entries: seq<DirEntry>) {
    forall d, e :: d in entries && e in entries && IsClaim(d) && IsClaim(e) && VmOf(d) == VmOf(e) ==> d.name == e.name
  }

  predicate Maps(entries: seq<DirEntry>, e: DirEntry)
    requires IsClaim(e)
  {
    VmOf(e) in LiveMap(entries) && LiveMap(entries)[VmOf(e)] == e.name
  }

  /** It names every claim exactly when there are no aliases. */
  lemma EveryClaimMappedExactly(entries: seq<DirEntry>)
    ensures (forall e :: e in entries && IsClaim(e) ==> Maps(entries, e)) <==> NoAliases(entries)
  {
    if NoAliases(entries) {
      forall e | e in entries && IsClaim(e) ensures Maps(entries, e) { LiveMapHoldsClaims(entries, VmOf(e)); }
    } else {
      var d, e :| d in entries && e in entries && IsClaim(d) && IsClaim(e) && VmOf(d) == VmOf(e) && d.name != e.name;
      assert !Maps(entries, d) || !Maps(entries, e);
    }
  }

  lemma CanonicalNamesHaveNoAliases(entries: seq<DirEntry>)
    requires forall e :: e in entries && IsClaim(e) ==> IsCanonical(e.name)
    ensures NoAliases(entries)
  {
    forall d, e | d in entries && e in entries && IsClaim(d) && IsClaim(e) && VmOf(d) == VmOf(e)
      ensures d.name == e.name
    {
      VmNameInjective(ParseSpoolFilename(d.name).value, ParseSpoolFilename(e.name).value);
    }
  }

  // ---- the plan ---------------------------------------------------------

  datatype Reason = ReapedVm | NoVm

  datatype Finalization = Finalization(name: string, reason: Reason)

  /** `vm`'s claim is finalized unless its VM's delete failed. */
  predicate Planned(claims: map<string, string>, present: set<string>, failed: set<string>, f: Finalization) {
    exists vm ::
      vm in claims && vm !in failed && f == Finalization(claims[vm], if vm in present then ReapedVm else NoVm)
  }

  method PlanStartupClaimFinalizes(claims: map<string, string>, present: set<string>, failed: set<string>)
    returns (plan: seq<Finalization>)
    ensures forall f :: f in plan <==> Planned(claims, present, failed, f)
    ensures claims == map[] ==> plan == []
  {
    plan := [];
    var rest := claims;
    while rest.Keys != {}
      invariant forall vm :: vm in rest ==> vm in claims && rest[vm] == claims[vm]
      invariant claims == map[] ==> plan == []
      invariant forall f :: f in plan ==> Planned(claims, present, failed, f)
      invariant forall f :: Planned(claims, present, failed, f) ==> f in plan || Planned(rest, present, failed, f)
      decreases |rest|
    {
      var vm :| vm in rest.Keys;
      ghost var before := rest;
      if vm !in failed {
        plan := plan + [Finalization(rest[vm], if vm in present then ReapedVm else NoVm)];
      }
      rest := rest - {vm};
      assert rest.Keys == before.Keys - {vm};
    }
  }

  // ---- the reap ---------------------------------------------------------

  /** The VMs of `listed` that the reap tries to delete. */
  function Managed(listed: seq<string>): set<string> { set n | n in listed && IsManagedVmName(n) }

  method DeleteManaged(lima: Lima, listed: seq<string>, attempts: (string, nat) -> Attempt)
    returns (present: set<string>, failed: set<string>)
    requires Honest(attempts) && (set n | n in listed) == lima.instances
    requires forall i, j :: 0 <= i < j < |listed| ==> listed[i] != listed[j]
    modifies lima
    ensures present == Managed(listed)
    ensures failed == set n | n in present && DeleteFails(attempts, n)
    ensures lima.instances <= old(lima.instances)
    ensures forall n :: n in present && n !in failed ==> n !in lima.instances
  {
    present, failed := {}, {};
    var i := 0;
    while i < |listed|
      invariant 0 <= i <= |listed|
      invariant present == Managed(listed[..i])
      invariant failed == set n | n in present && DeleteFails(attempts, n)
      invariant lima.instances <= old(lima.instances)
      invariant forall k :: i <= k < |listed| ==> listed[k] in lima.instances
      invariant forall n :: n in present && n !in failed ==> n !in lima.instances
    {
      var name := listed[i];
      assert listed[..i + 1] == listed[..i] + [name];
      if IsManagedVmName(name) {
        present := present + {name};
        var ok := lima.DeleteWithRetry(name, attempts);
        if !ok { failed := failed + {name}; }
      }
      i := i + 1;
    }
    assert listed[..i] == listed;
  }

  method FinalizeAll(spool: Spool, plan: seq<Finalization>)
    requires forall f :: f in plan ==> Cur(f.name) in spool.disk.fs
    modifies spool
    ensures forall n :: Cur(n) in old(spool.disk.fs) && Cur(n) !in spool.disk.fs ==>
              (exists f :: f in plan && f.name == n) && ErrorMarker(n) in spool.disk.fs
    ensures forall f :: f in plan ==> Cur(f.name) !in spool.disk.fs
    ensures plan == [] ==> spool.disk == old(spool.disk)
  {
    var i := 0;
    while i < |plan|
      invariant 0 <= i <= |plan|
      invariant forall n :: Cur(n) in old(spool.disk.fs) && Cur(n) !in spool.disk.fs ==>
                  (exists f :: f in plan && f.name == n) && ErrorMarker(n) in spool.disk.fs
      invariant forall f :: f in plan[..i] ==> Cur(f.name) !in spool.disk.fs
      invariant i == 0 ==> spool.disk == old(spool.disk)
    {
      assert plan[..i + 1] == plan[..i] + [plan[i]];
      spool.Finalize(plan[i].name, ErrorDir);
      i := i + 1;
    }
    assert plan[..i] == plan;
  }

  lemma PlanNamesClaims(entries: seq<DirEntry>, present: set<string>, failed: set<string>)
    ensures forall f :: Planned(LiveMap(entries), present, failed, f) ==>
              exists e :: e in entries && IsClaim(e) && e.name == f.name && VmOf(e) !in failed
    ensures forall e :: e in entries && IsClaim(e) ==> IsManagedVmName(VmOf(e))
  {
    forall f | Planned(LiveMap(entries), present, failed, f)
      ensures exists e :: e in entries && IsClaim(e) && e.name == f.name && VmOf(e) !in failed
    {
      var vm :| vm in LiveMap(entries) && vm !in failed && f.name == LiveMap(entries)[vm];
      LiveMapHoldsClaims(entries, vm);
    }
    forall e | e in entries && IsClaim(e) ensures IsManagedVmName(VmOf(e)) {
      ManagedNamesAreExactlyVmNames(VmOf(e));
    }
  }

  /** `entries` and `listed` are what reading `cur/` and `limactl list` answer,
      `None` on failure. Every claim finalized has its VM gone; without aliases,
      every claim left behind had a VM whose delete failed on every attempt; and
      a failed listing, or an unreadable `cur/`, finalizes nothing. */
  method ReapAllManagedVmsAtStartup(lima: Lima, spool: Spool, entries: Option<seq<DirEntry>>,
                                    listed: Option<seq<string>>, attempts: (string, nat) -> Attempt)
    requires Honest(attempts)
    requires entries.Some? ==> forall e :: e in entries.value && IsClaim(e) ==> Cur(e.name) in spool.disk.fs
    requires listed.Some? ==> (set n | n in listed.value) == lima.instances
    requires listed.Some? ==> forall i, j :: 0 <= i < j < |listed.value| ==> listed.value[i] != listed.value[j]
    modifies lima, spool
    ensures entries.None? || listed.None? ==> spool.disk == old(spool.disk)
    ensures listed.None? ==> lima.instances == old(lima.instances)
    ensures entries.Some? && listed.Some? ==>
              forall n :: Cur(n) in old(spool.disk.fs) && Cur(n) !in spool.disk.fs ==>
                ErrorMarker(n) in spool.disk.fs
                && exists e :: e in entries.value && IsClaim(e) && e.name == n && VmOf(e) !in lima.instances
    ensures entries.Some? && listed.Some? && NoAliases(entries.value) ==>
              forall e :: e in entries.value && IsClaim(e) ==>
                (Cur(e.name) in spool.disk.fs <==> VmOf(e) in old(lima.instances) && DeleteFails(attempts, VmOf(e)))
  {
    var claims: map<string, string> := map[];
    if entries.Some? { claims := LiveVmMapFromCur(entries.value); }
    if listed.None? { return; }
    var present, failed := DeleteManaged(lima, listed.value, attempts);
    var plan := PlanStartupClaimFinalizes(claims, present, failed);
    if entries.Some? { PlanNamesClaims(entries.value, present, failed); }
    FinalizeAll(spool, plan);
    if entries.Some? && NoAliases(entries.value) {
      EveryClaimMappedExactly(entries.value);
      forall e | e in entries.value && IsClaim(e)
        ensures Cur(e.name) in spool.disk.fs <==> VmOf(e) in failed
      {
        assert Maps(entries.value, e);
        var f := Finalization(e.name, if VmOf(e) in present then ReapedVm else NoVm);
        if VmOf(e) !in failed { assert Planned(claims, present, failed, f); }
      }
    }
  }
}
