/** Conservation of the spool's records over every run: no body is merged,
    overwritten or lost, whatever the timeouts and the reaps are. */
module SpoolRecords {
  import opened Names
  import opened SpoolModel
  import opened SpoolArchive

  ghost predicate SetsAside(s: State, l: Label) {
    l.Act? && l.actor in s.pcs && s.pcs[l.actor].Finalizing? && s.pcs[l.actor].stage.SetAside?
  }

  predicate BakFree(fs: Tree, now: nat, pc: Pc) {
    pc.Finalizing? && pc.stage.SetAside? && Archive(pc.dir, Marker(pc.name)) in fs ==>
      Archive(pc.dir, Bak(pc.name, now)) !in fs
  }

  /** No set-aside finds a `.bak` of the same id and millisecond. */
  ghost predicate FreshBak(s: State, l: Label) {
    SetsAside(s, l) ==> BakFree(s.disk.fs, s.now, s.pcs[l.actor])
  }

  // ---- one place per record ---------------------------------------------

  ghost predicate Holds(fs: Tree, p: Path, id: nat) { p in fs && Body(p) && fs[p].id == id }

  predicate Tracked(p: Path) { p.New? || Body(p) }

  /** No record is at two places, and the places that hold one are exactly
      those of the records kept. */
  ghost predicate RecordInv(d: Disk) {
    && (forall p :: p in d.fs && Tracked(p) ==> d.fs[p].id < d.nextId)
    && (forall p, q :: p in d.fs && q in d.fs && Tracked(p) && Tracked(q) && p != q ==> d.fs[p].id != d.fs[q].id)
    && (forall p :: p in d.fs && Body(p) ==> d.fs[p].id in d.kept)
    && (forall id :: id in d.kept ==> exists p :: Holds(d.fs, p, id))
  }

  // ---- what each filesystem call does to the records --------------------

  lemma MoveKeepsRecords(d: Disk, from: Path, to: Path, r: Rec)
    requires RecordInv(d)
    requires from in d.fs && to !in d.fs && Tracked(from) && Body(to) && r.id == d.fs[from].id
    ensures RecordInv(Disk((d.fs - {from})[to := r], d.nextId, d.kept + {r.id}))
  {
    var fs' := (d.fs - {from})[to := r];
    forall id | id in d.kept + {r.id} ensures exists p :: Holds(fs', p, id) {
      if id == r.id {
        assert Holds(fs', to, id);
      } else {
        var p :| Holds(d.fs, p, id);
        assert Holds(fs', p, id);
      }
    }
  }

  lemma UnlinkKeepsRecords(d: Disk, p: Path)
    requires RecordInv(d)
    ensures RecordInv(Unlink(d, p))
  {
    var d' := Unlink(d, p);
    forall id | id in d'.kept ensures exists q :: Holds(d'.fs, q, id) {
      var q :| Holds(d.fs, q, id);
      assert Holds(d'.fs, q, id);
    }
  }

  lemma AddKeepsRecords(d: Disk, p: Path, r: Rec)
    requires RecordInv(d) && r.id == d.nextId
    requires p.New? || (p.Cur? && p !in d.fs)
    ensures RecordInv(Disk(d.fs[p := r], d.nextId + 1, if Body(p) then d.kept + {r.id} else d.kept))
  {
    var fs', kept' := d.fs[p := r], if Body(p) then d.kept + {r.id} else d.kept;
    forall id | id in kept' ensures exists q :: Holds(fs', q, id) {
      if Body(p) && id == d.nextId {
        assert Holds(fs', p, id);
      } else {
        var q :| Holds(d.fs, q, id);
        assert Holds(fs', q, id);
      }
    }
  }

  lemma UpdateKeepsRecords(d: Disk, p: Path, r: Rec)
    requires RecordInv(d)
    requires Tracked(p) ==> p in d.fs && r.id == d.fs[p].id
    ensures RecordInv(d.(fs := d.fs[p := r]))
  {
    var fs' := d.fs[p := r];
    forall id | id in d.kept ensures exists q :: Holds(fs', q, id) {
      var q :| Holds(d.fs, q, id);
      assert Holds(fs', q, id);
    }
  }

  lemma TouchKeepsRecords(d: Disk, p: Path, now: nat)
    requires RecordInv(d) && Tracked(p)
    ensures RecordInv(Touch(d, p, now))
  {
    if p in d.fs { UpdateKeepsRecords(d, p, d.fs[p].(mtime := now, settled := true)); }
  }

  lemma InstallKeepsRecords(d: Disk, n: string, dest: Path, now: nat)
    requires RecordInv(d) && Cur(n) in d.fs && dest !in d.fs && Body(dest)
    ensures RecordInv(InstallAt(d, n, dest, now))
  {
    var r := d.fs[Cur(n)].(installed := now, settled := false);
    MoveKeepsRecords(d, Cur(n), dest, r);
    assert d.kept + {r.id} == d.kept;
  }

  lemma RenameKeepsRecords(d: Disk, from: Path, to: Path)
    requires RecordInv(d) && from in d.fs && to !in d.fs && Body(from) && Body(to)
    ensures RecordInv(d.(fs := Rename(d.fs, from, to)))
  {
    MoveKeepsRecords(d, from, to, d.fs[from]);
    assert d.kept + {d.fs[from].id} == d.kept;
  }

  lemma ClaimKeepsRecords(d: Disk, now: nat, pc: Pc)
    requires RecordInv(d) && IsClaimPc(pc)
    ensures RecordInv(ClaimStep(d, now, pc).disk)
  {
    match pc
    case DropNew(n) => UnlinkKeepsRecords(d, New(n));
    case Stamp(n) => TouchKeepsRecords(d, New(n), now);
    case Take(n, _) =>
      if New(n) in d.fs && Cur(n) !in d.fs { MoveKeepsRecords(d, New(n), Cur(n), d.fs[New(n)]); }
    case Revert(n, _) => UnlinkKeepsRecords(d, Cur(n));
    case _ =>
  }

  lemma SyntheticKeepsRecords(d: Disk, now: nat, pc: Pc)
    requires RecordInv(d) && IsSyntheticPc(pc)
    ensures RecordInv(SyntheticStep(d, now, pc).disk)
  {
    match pc
    case SynTake(n, since) => if Cur(n) !in d.fs { AddKeepsRecords(d, Cur(n), Rec(d.nextId, since, 0, true)); }
    case SynStamp(n, _) => TouchKeepsRecords(d, Cur(n), now);
    case _ =>
  }

  lemma PruneKeepsRecords(d: Disk, r: nat, pc: Pc)
    requires RecordInv(d) && IsPrunePc(pc)
    ensures RecordInv(PruneStep(d, r, pc).disk)
  {
    if pc.PruneUnlink? { UnlinkKeepsRecords(d, pc.path); }
  }

  lemma FinalizeKeepsRecords(d: Disk, now: nat, r: nat, pc: Pc)
    requires RecordInv(d) && SeenInv(d.fs, now, r, pc) && pc.Finalizing? && BakFree(d.fs, now, pc)
    ensures RecordInv(FinalizeStep(d, now, pc).disk)
  {
    var n, dest := pc.name, Archive(pc.dir, Marker(pc.name));
    match pc.stage
    case WriteErr => UpdateKeepsRecords(d, Archive(ErrorDir, Sidecar(n)), Rec(0, now, now, true));
    case Install => if Cur(n) in d.fs && dest !in d.fs { InstallKeepsRecords(d, n, dest, now); }
    case SetAside => if dest in d.fs { RenameKeepsRecords(d, dest, Archive(pc.dir, Bak(n, now))); }
    case Overwrite(_) => if Cur(n) in d.fs { InstallKeepsRecords(d, n, dest, now); }
    case PutBack(millis) => RenameKeepsRecords(d, Archive(pc.dir, Bak(n, millis)), dest);
    case StampDest => TouchKeepsRecords(d, dest, now);
    case _ =>
  }

  lemma ActKeepsRecords(s: State, a: nat)
    requires AllSeen(s) && RecordInv(s.disk) && Enabled(s, Act(a)) && FreshBak(s, Act(a))
    ensures RecordInv(Apply(s, Act(a)).disk)
  {
    var d, now, r, pc := s.disk, s.now, s.cfg.retentionSecs, s.pcs[a];
    assert SeenInv(d.fs, now, r, pc);
    if pc.Finalizing? { FinalizeKeepsRecords(d, now, r, pc); }
    else if IsClaimPc(pc) { ClaimKeepsRecords(d, now, pc); }
    else if IsSyntheticPc(pc) { SyntheticKeepsRecords(d, now, pc); }
    else { PruneKeepsRecords(d, r, pc); }
  }

  /** Every enabled step keeps the records, as long as no set-aside clobbers a
      `.bak` of the same millisecond. */
  lemma StepKeepsRecords(s: State, l: Label)
    requires AllSeen(s) && RecordInv(s.disk) && Enabled(s, l) && FreshBak(s, l)
    ensures RecordInv(Apply(s, l).disk)
  {
    match l
    case Act(a) => ActKeepsRecords(s, a);
    case Arrive(n) => AddKeepsRecords(s.disk, New(n), Rec(s.disk.nextId, s.now, 0, true));
    case _ =>
  }

  ghost predicate NeverClobbers(t: Trace)
    requires |t.states| == |t.labels| + 1
  {
    forall i :: 0 <= i < |t.labels| ==> FreshBak(t.states[i], t.labels[i])
  }

  /** A run that starts with one place per record, and in which no set-aside
      clobbers a `.bak`; nothing is assumed about timeouts or reaps. */
  ghost predicate Conserving(t: Trace) { IsTrace(t) && RecordInv(t.states[0].disk) && NeverClobbers(t) }

  // ---- record conservation ----------------------------------------------

  /** The only two steps that remove a record from the spool on purpose: a
      `try_claim` reverting its own tentative claim, and the prune. */
  predicate Discards(s: State, l: Label, id: nat) {
    l.Act? && l.actor in s.pcs &&
    match s.pcs[l.actor]
    case Revert(n, _) => Cur(n) in s.disk.fs && s.disk.fs[Cur(n)].id == id
    case PruneUnlink(_, p) => p in s.disk.fs && s.disk.fs[p].id == id
    case _ => false
  }

  lemma KeptOnlyDiscarded(s: State, l: Label, id: nat)
    requires AllSeen(s) && Enabled(s, l) && id in s.disk.kept && !Discards(s, l, id)
    ensures id in Apply(s, l).disk.kept
  {
    if l.Act? {
      assert SeenInv(s.disk.fs, s.now, s.cfg.retentionSecs, s.pcs[l.actor]);
    }
  }

  ghost predicate KeepsOn(t: Trace, k: nat, id: nat)
    requires k + 1 < |t.states|
  {
    id in t.states[k].disk.kept ==> id in t.states[k + 1].disk.kept
  }

  lemma TraceKeeps(t: Trace, k: nat, id: nat)
    requires IsTrace(t) && k < |t.labels| && !Discards(t.states[k], t.labels[k], id)
    ensures KeepsOn(t, k, id)
  {
    TraceKeepsArchive(t, k);
    if id in t.states[k].disk.kept { KeptOnlyDiscarded(t.states[k], t.labels[k], id); }
  }

  lemma {:induction false} KeptChain(t: Trace, i: nat, j: nat, id: nat)
    requires i <= j < |t.states| && id in t.states[i].disk.kept
    requires forall k :: i <= k < j ==> KeepsOn(t, k, id)
    ensures id in t.states[j].disk.kept
  {
    if i < j {
      KeptChain(t, i, j - 1, id);
      assert KeepsOn(t, j - 1, id);
    }
  }

  lemma KeptPersists(t: Trace, i: nat, j: nat, id: nat)
    requires IsTrace(t) && i <= j < |t.states|
    requires id in t.states[i].disk.kept
    requires forall k :: i <= k < j ==> !Discards(t.states[k], t.labels[k], id)
    ensures id in t.states[j].disk.kept
  {
    forall k | i <= k < j ensures KeepsOn(t, k, id) { TraceKeeps(t, k, id); }
    KeptChain(t, i, j, id);
  }

  lemma {:induction false} ReachableRecords(t: Trace, i: nat)
    requires IsTrace(t) && RecordInv(t.states[0].disk) && i < |t.states|
    requires forall k :: 0 <= k < i ==> FreshBak(t.states[k], t.labels[k])
    ensures RecordInv(t.states[i].disk)
  {
    if i > 0 {
      ReachableRecords(t, i - 1);
      TraceKeepsArchive(t, i - 1);
      StepKeepsRecords(t.states[i - 1], t.labels[i - 1]);
    }
  }

  /** `id` is at `p` and nowhere else in `cur/`, the markers and the `.bak`s. */
  ghost predicate OnlyPlace(fs: Tree, p: Path, id: nat) {
    Holds(fs, p, id) && forall q :: Holds(fs, q, id) ==> q == p
  }

  /** Conservation over every run: a record that entered `cur/` is, at every
      later step until it is discarded, in exactly one of `cur/`, a `done/` or
      `error/` marker, or a `.bak`. */
  lemma RecordsConserved(t: Trace, i: nat, j: nat, id: nat)
    requires Conserving(t) && i <= j < |t.states|
    requires id in t.states[i].disk.kept
    requires forall k :: i <= k < j ==> !Discards(t.states[k], t.labels[k], id)
    ensures exists p :: OnlyPlace(t.states[j].disk.fs, p, id)
  {
    KeptPersists(t, i, j, id);
    ReachableRecords(t, j);
    var fs := t.states[j].disk.fs;
    var p :| Holds(fs, p, id);
    assert OnlyPlace(fs, p, id);
  }

  /** The places holding the records of `ids`. */
  ghost function Places(fs: Tree, ids: set<nat>): set<Path> { set p | p in fs && Body(p) && fs[p].id in ids }

  lemma PlacesOneMore(d: Disk, ids: set<nat>, id: nat, p: Path)
    requires RecordInv(d) && id in ids && Holds(d.fs, p, id)
    ensures Places(d.fs, ids) == Places(d.fs, ids - {id}) + {p}
    ensures p !in Places(d.fs, ids - {id})
  {}

  /** So nothing is merged: archiving one id `n` times leaves `n` bodies. */
  lemma {:induction false} BodiesCountRecords(d: Disk, ids: set<nat>)
    requires RecordInv(d) && ids <= d.kept
    ensures |Places(d.fs, ids)| == |ids|
    decreases |ids|
  {
    if ids == {} {
      assert Places(d.fs, ids) == {};
    } else {
      var id :| id in ids;
      var p :| Holds(d.fs, p, id);
      BodiesCountRecords(d, ids - {id});
      PlacesOneMore(d, ids, id, p);
    }
  }

  /** Every record kept is somewhere in `cur/` or an archive. */
  ghost predicate EveryRecordHeld(kept: set<nat>, fs: Tree) {
    forall id :: id in kept ==> exists p :: Holds(fs, p, id)
  }

  lemma ClobberLoses(d: Disk, from: Path, to: Path)
    requires RecordInv(d) && from in d.fs && to in d.fs && from != to
    requires from.Archive? && Tracked(from) && to.Archive? && to.file.Bak?
    ensures !EveryRecordHeld(d.kept, Rename(d.fs, from, to))
  {
    assert Tracked(to) && Body(to);
    var lost := d.fs[to].id;
    assert lost in d.kept;
    forall p ensures !Holds(Rename(d.fs, from, to), p, lost) {}
  }

  /** The clobbering rename of `preserve_existing` is the one place where a
      record can be lost by accident: it is, exactly when a `.bak` of the same id
      and millisecond is already there. */
  lemma SetAsideConservesIff(s: State, a: nat)
    requires AllSeen(s) && RecordInv(s.disk) && Enabled(s, Act(a)) && SetsAside(s, Act(a))
    ensures EveryRecordHeld(s.disk.kept, Apply(s, Act(a)).disk.fs) <==> BakFree(s.disk.fs, s.now, s.pcs[a])
  {
    var pc := s.pcs[a];
    if BakFree(s.disk.fs, s.now, pc) {
      ActKeepsRecords(s, a);
    } else {
      ClobberLoses(s.disk, Archive(pc.dir, Marker(pc.name)), Archive(pc.dir, Bak(pc.name, s.now)));
    }
  }

  ghost predicate HeldThroughout(t: Trace) {
    forall i :: 0 <= i < |t.states| ==> EveryRecordHeld(t.states[i].disk.kept, t.states[i].disk.fs)
  }

  lemma {:induction false} HeldSoFresh(t: Trace, i: nat)
    requires IsTrace(t) && RecordInv(t.states[0].disk) && HeldThroughout(t) && i <= |t.labels|
    ensures forall k :: 0 <= k < i ==> FreshBak(t.states[k], t.labels[k])
  {
    if i > 0 {
      HeldSoFresh(t, i - 1);
      ReachableRecords(t, i - 1);
      TraceKeepsArchive(t, i - 1);
      assert EveryRecordHeld(t.states[i].disk.kept, t.states[i].disk.fs);
    }
  }

  /** So over whole runs: every record is held in every state, whoever expired,
      reaped or overran what, exactly when no set-aside of the run clobbers. */
  lemma ConservedExactly(t: Trace)
    requires IsTrace(t) && RecordInv(t.states[0].disk)
    ensures HeldThroughout(t) <==> NeverClobbers(t)
  {
    if HeldThroughout(t) { HeldSoFresh(t, |t.labels|); }
    if NeverClobbers(t) {
      forall i | 0 <= i < |t.states| ensures EveryRecordHeld(t.states[i].disk.kept, t.states[i].disk.fs) {
        ReachableRecords(t, i);
      }
    }
  }
}
