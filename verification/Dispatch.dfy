/** What the dispatcher does with an entry of `new/`, and the control endpoint's
    listing of the entries it would run. */
module Dispatch {
  import opened Names
  import opened SpoolModel
  import opened SpoolCalls
  import opened Reconcile

  datatype Envelope = Envelope(
    schema: nat, event: string, repoId: U64, repo: string, action: string, workflowJobId: U64, signature: string)

  datatype Event = Event(
    action: string, jobId: U64, runId: U64, jobName: string, labels: seq<string>, repoId: U64, repo: string)

  /** The raw body, and what it decodes to as JSON. */
  datatype Body = Body(bytes: seq<bv8>, decoded: Option<Event>)

  datatype File = File(envelope: Envelope, body: Body)

  /** `verifies` is the HMAC check of a signature header against a raw body, with
      the webhook secret. */
  datatype Policy = Policy(
    verifies: (string, seq<bv8>) -> bool, allowedRepos: set<string>, gate: string, advertised: seq<string>)

  const WORKFLOW_JOB: string := "workflow_job"

  datatype EntryVerdict = Runnable(event: Event) | NotForUs | Invalid

  predicate EnvelopeOk(env: Envelope, body: Body, p: Policy, filenameJobId: U64) {
    && 1 <= env.schema <= 2
    && p.verifies(env.signature, body.bytes)
    && env.workflowJobId == filenameJobId
    && env.repo in p.allowedRepos
  }

  predicate CrossChecks(env: Envelope, e: Event) {
    e.repoId == env.repoId && e.repo == env.repo && e.jobId == env.workflowJobId && e.action == env.action
  }

  /** `classify_validated_entry` */
  function Classify(filenameJobId: U64, f: File, p: Policy): (v: EntryVerdict)
    ensures v.Runnable? ==>
              f.body.decoded == Some(v.event) && v.event.jobId == filenameJobId && v.event.repo in p.allowedRepos
    ensures v.Runnable? || v.NotForUs? ==> p.verifies(f.envelope.signature, f.body.bytes)
  {
    if !EnvelopeOk(f.envelope, f.body, p, filenameJobId) then Invalid
    else if f.envelope.event != WORKFLOW_JOB then NotForUs
    else if f.body.decoded.None? then Invalid
    else if !CrossChecks(f.envelope, f.body.decoded.value) then Invalid
    else if f.body.decoded.value.action != "queued" then NotForUs
    else if !Accepts(f.body.decoded.value.labels, p.gate, p.advertised) then NotForUs
    else Runnable(f.body.decoded.value)
  }

  /** The signed body and its envelope tell one story, about this very file. */
  predicate Authentic(id: U64, f: File, e: Event, p: Policy) {
    && (f.envelope.schema == 1 || f.envelope.schema == 2)
    && p.verifies(f.envelope.signature, f.body.bytes)
    && f.envelope == Envelope(f.envelope.schema, WORKFLOW_JOB, e.repoId, e.repo, e.action, id, f.envelope.signature)
    && e.jobId == id && e.repo in p.allowedRepos
  }

  predicate OursToRun(e: Event, p: Policy) { e.action == "queued" && Accepts(e.labels, p.gate, p.advertised) }

  /** Exactly what makes an entry runnable, and what makes one ours to archive as
      handled: an entry that is not authentic is neither. */
  lemma ClassifiedExactly(id: U64, f: File, p: Policy)
    ensures Classify(id, f, p).Runnable? <==>
              exists e :: f.body.decoded == Some(e) && Authentic(id, f, e, p) && OursToRun(e, p)
    ensures Classify(id, f, p).NotForUs? <==>
              || (EnvelopeOk(f.envelope, f.body, p, id) && f.envelope.event != WORKFLOW_JOB)
              || exists e :: f.body.decoded == Some(e) && Authentic(id, f, e, p) && !OursToRun(e, p)
  {
    if f.body.decoded.Some? {
      var e := f.body.decoded.value;
      assert forall x :: f.body.decoded == Some(x) ==> x == e;
    }
  }

  /** What reading the file of record `id` yields; `None` covers every failure of
      `read_spool_file`. */
  type Contents = nat -> Option<File>

  // ---- prepare ----------------------------------------------------------

  datatype Prepared = ToRun(name: string, event: Event) | ToDrop(name: string) | ToReject(name: string) | Skip

  /** The claim `prepare` gets, and what it makes of it. */
  function PrepareOutcome(d: Disk, now: nat, name: string, contents: Contents, p: Policy): Prepared {
    if ParseSpoolFilename(name).None? || !ClaimOutcome(d, now, name).0 then Skip
    else if !IsCanonical(name) then ToReject(name)
    else
      match contents(d.fs[New(name)].id)
      case None => ToReject(name)
      case Some(f) =>
        match Classify(ParseSpoolFilename(name).value, f, p)
        case Runnable(event) => ToRun(name, event)
        case NotForUs => ToDrop(name)
        case Invalid => ToReject(name)
  }

  /** Nobody has claimed or archived the job yet, and it is there to be claimed. */
  predicate Claimable(fs: Tree, name: string) {
    New(name) in fs && Cur(name) !in fs && DoneMarker(name) !in fs && ErrorMarker(name) !in fs
  }

  /** Signed for an event other than a workflow job, or for one that is not ours. */
  ghost predicate SignedButNotOurs(id: U64, f: File, p: Policy) {
    || (EnvelopeOk(f.envelope, f.body, p, id) && f.envelope.event != "workflow_job")
    || exists e :: f.body.decoded == Some(e) && Authentic(id, f, e, p) && !OursToRun(e, p)
  }

  /** What becomes of an entry that parses and can be claimed: run exactly an
      authentic job of ours under its canonical name; dropped as handled exactly
      what is signed but not ours; rejected exactly the rest, which is what is
      misnamed, unreadable or not authentic. */
  lemma PreparedExactly(d: Disk, now: nat, name: string, contents: Contents, p: Policy)
    ensures var r, id := PrepareOutcome(d, now, name, contents, p), ParseSpoolFilename(name);
            && (r.Skip? <==> id.None? || !Claimable(d.fs, name))
            && (!r.Skip? ==>
                  var read := contents(d.fs[New(name)].id);
                  && (r.ToRun? <==>
                        && IsCanonical(name) && read.Some?
                        && exists e :: read.value.body.decoded == Some(e)
                             && Authentic(id.value, read.value, e, p) && OursToRun(e, p) && r == ToRun(name, e))
                  && (r == ToDrop(name) <==>
                        IsCanonical(name) && read.Some? && SignedButNotOurs(id.value, read.value, p))
                  && (r.ToReject? <==> !r.ToRun? && r != ToDrop(name)))
  {
    var id := ParseSpoolFilename(name);
    if id.Some? && Claimable(d.fs, name) {
      var read := contents(d.fs[New(name)].id);
      if read.Some? { ClassifiedExactly(id.value, read.value, p); }
    }
  }

  method Prepare(spool: Spool, name: string, contents: Contents, p: Policy) returns (r: Prepared)
    modifies spool
    ensures r == PrepareOutcome(old(spool.disk), spool.now, name, contents, p)
    ensures spool.disk.fs == if ParseSpoolFilename(name).None? then old(spool.disk.fs)
                             else ClaimOutcome(old(spool.disk), spool.now, name).1.fs
  {
    var id := ParseSpoolFilename(name);
    if id.None? { return Skip; }
    var claimed := spool.TryClaim(name, false);
    if !claimed { return Skip; }
    if name != CanonicalFilename(id.value) { return ToReject(name); }
    var read := contents(spool.disk.fs[Cur(name)].id);
    if read.None? { return ToReject(name); }
    match Classify(id.value, read.value, p)
    case Runnable(event) => return ToRun(name, event);
    case NotForUs => return ToDrop(name);
    case Invalid => return ToReject(name);
  }

  // ---- the queued listing -----------------------------------------------

  /** `char::is_control` */
  predicate IsControl(c: char) { c < ' ' || '\U{7F}' <= c <= '\U{9F}' }

  function DropControls(s: string): string {
    if s == "" then "" else if IsControl(s[0]) then DropControls(s[1..]) else [s[0]] + DropControls(s[1..])
  }

  /** `sanitize_for_log` */
  function Sanitize(s: string): string {
    var kept := DropControls(s);
    if |kept| <= 256 then kept else kept[..256]
  }

  datatype Row = Row(id: U64, repo: string, jobName: string, labels: seq<string>, runId: U64)

  function SanitizeAll(labels: seq<string>): seq<string> {
    seq(|labels|, i requires 0 <= i < |labels| => Sanitize(labels[i]))
  }

  function RowFor(e: Event): Row { Row(e.jobId, Sanitize(e.repo), Sanitize(e.jobName), SanitizeAll(e.labels), e.runId) }

  const ACTIVE_CAP: nat := 500

  method AlreadyClaimedOrArchived(spool: Spool, name: string) returns (b: bool)
    ensures b <==> Cur(name) in spool.disk.fs || Archived(spool.disk.fs, name)
  {
    b := Cur(name) in spool.disk.fs;
    if !b { b := DoneMarker(name) in spool.disk.fs; }
    if !b { b := ErrorMarker(name) in spool.disk.fs; }
  }

  function ListedRow(fs: Tree, name: string, contents: Contents, p: Policy): Option<Row> {
    if !IsCanonical(name) || New(name) !in fs || Cur(name) in fs || Archived(fs, name) then None
    else
      match contents(fs[New(name)].id)
      case None => None
      case Some(f) =>
        var v := Classify(ParseSpoolFilename(name).value, f, p);
        if v.Runnable? then Some(RowFor(v.event)) else None
  }

  /** The listing's own checks on one entry of `new/`. */
  method ListEntry(spool: Spool, name: string, contents: Contents, p: Policy) returns (row: Option<Row>)
    ensures row == ListedRow(spool.disk.fs, name, contents, p)
  {
    var id := ParseSpoolFilename(name);
    if id.None? { return None; }
    if New(name) !in spool.disk.fs { return None; }
    var read := contents(spool.disk.fs[New(name)].id);
    if read.None? { return None; }
    if name != CanonicalFilename(id.value) { return None; }
    var v := Classify(id.value, read.value, p);
    if !v.Runnable? { return None; }
    var taken := AlreadyClaimedOrArchived(spool, name);
    if taken { return None; }
    var e := v.event;
    return Some(Row(id.value, Sanitize(e.repo), Sanitize(e.jobName), SanitizeAll(e.labels), e.runId));
  }

  /** `prepare` on this spool would run the event of `row`. */
  ghost predicate WouldRun(d: Disk, now: nat, name: string, contents: Contents, p: Policy, row: Row) {
    PrepareOutcome(d, now, name, contents, p).ToRun? && row == RowFor(PrepareOutcome(d, now, name, contents, p).event)
  }

  function RowsOf(fs: Tree, names: seq<string>, contents: Contents, p: Policy): seq<Row> {
    if names == [] then []
    else
      var row := ListedRow(fs, names[|names| - 1], contents, p);
      RowsOf(fs, names[..|names| - 1], contents, p) + if row.Some? then [row.value] else []
  }

  lemma {:induction false} RowsOfMember(fs: Tree, names: seq<string>, contents: Contents, p: Policy, row: Row)
    ensures row in RowsOf(fs, names, contents, p)
            <==> exists name :: name in names && ListedRow(fs, name, contents, p) == Some(row)
  {
    if names != [] {
      var init, last := names[..|names| - 1], names[|names| - 1];
      RowsOfMember(fs, init, contents, p, row);
      assert names == init + [last];
    }
  }

  method ScanQueued(spool: Spool, entries: seq<string>, contents: Contents, p: Policy)
    returns (rows: seq<Row>, truncated: bool)
    ensures truncated <==> |entries| >= ACTIVE_CAP
    ensures rows == RowsOf(spool.disk.fs, if truncated then entries[..ACTIVE_CAP] else entries, contents, p)
  {
    rows := [];
    var examined := 0;
    while examined < |entries|
      invariant 0 <= examined <= |entries| && examined <= ACTIVE_CAP
      invariant rows == RowsOf(spool.disk.fs, entries[..examined], contents, p)
    {
      if examined >= ACTIVE_CAP { return rows, true; }
      var row := ListEntry(spool, entries[examined], contents, p);
      assert entries[..examined + 1][..examined] == entries[..examined];
      if row.Some? { rows := rows + [row.value]; }
      examined := examined + 1;
    }
    truncated := examined >= ACTIVE_CAP;
    assert entries[..examined] == entries;
  }

  /** On a fixed spool an entry is listed exactly when `prepare` would run it, and
      then with the id, and the sanitized repository and labels, of the very event
      it would run. */
  lemma ListedExactlyWhenRun(d: Disk, now: nat, name: string, contents: Contents, p: Policy)
    ensures ListedRow(d.fs, name, contents, p).Some? <==> PrepareOutcome(d, now, name, contents, p).ToRun?
    ensures PrepareOutcome(d, now, name, contents, p).ToRun? ==>
              var e := PrepareOutcome(d, now, name, contents, p).event;
              && ListedRow(d.fs, name, contents, p) == Some(RowFor(e))
              && ParseSpoolFilename(name) == Some(e.jobId)
  {}

  ghost predicate SomeWouldRun(d: Disk, now: nat, names: seq<string>, contents: Contents, p: Policy, row: Row) {
    exists name :: name in names && WouldRun(d, now, name, contents, p, row)
  }

  /** `list_active` on `new/`: `entries` is what the directory scan yields. Below
      the scan cap the rows are exactly the entries that `prepare` would run. */
  method ListQueued(spool: Spool, entries: seq<string>, contents: Contents, p: Policy)
    returns (rows: seq<Row>, truncated: bool)
    ensures truncated <==> |entries| >= ACTIVE_CAP
    ensures !truncated ==>
              forall row :: row in rows <==> SomeWouldRun(spool.disk, spool.now, entries, contents, p, row)
    ensures forall row :: row in rows ==> SomeWouldRun(spool.disk, spool.now, entries, contents, p, row)
  {
    rows, truncated := ScanQueued(spool, entries, contents, p);
    forall row
      ensures row in rows ==> SomeWouldRun(spool.disk, spool.now, entries, contents, p, row)
      ensures !truncated && SomeWouldRun(spool.disk, spool.now, entries, contents, p, row) ==> row in rows
    {
      RowsOfMember(spool.disk.fs, if truncated then entries[..ACTIVE_CAP] else entries, contents, p, row);
      forall name
        ensures WouldRun(spool.disk, spool.now, name, contents, p, row)
                <==> ListedRow(spool.disk.fs, name, contents, p) == Some(row)
      {
        ListedExactlyWhenRun(spool.disk, spool.now, name, contents, p);
      }
    }
  }

  // ---- sanitized fields -------------------------------------------------

  predicate Clean(s: string) { |s| <= 256 && forall i :: 0 <= i < |s| ==> !IsControl(s[i]) }

  lemma {:induction false} ControlsDropped(s: string)
    ensures |DropControls(s)| <= |s|
    ensures DropControls(s) == s <==> forall i :: 0 <= i < |s| ==> !IsControl(s[i])
    ensures forall i :: 0 <= i < |DropControls(s)| ==> !IsControl(DropControls(s)[i])
  {
    if s != "" {
      ControlsDropped(s[1..]);
      assert s == [s[0]] + s[1..];
    }
  }

  /** A displayed field is always free of control characters and short, and is the
      real one exactly when the real one is. */
  lemma SanitizeExactly(s: string)
    ensures Clean(Sanitize(s))
    ensures Sanitize(s) == s <==> Clean(s)
  {
    ControlsDropped(s);
  }
}
