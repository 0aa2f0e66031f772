/** Paginated listings of GitHub: runners, and the queued jobs of all active runs,
    sorted and free of duplicates. The collections hold still during a listing. */
module GithubListing {
  import opened Names
  import opened RunnerReap

  datatype Job = Job(id: U64, status: string, labels: seq<string>, repoId: U64)

  datatype Run = Run(id: U64, repoId: U64, jobs: seq<Job>)

  const QUEUED: string := "queued"
  const IN_PROGRESS: string := "in_progress"

  /** What GitHub holds, and which page requests fail. */
  datatype Api = Api(
    runners: seq<Runner>, runs: string -> seq<Run>,
    runnersFail: nat -> bool, runsFail: string -> nat -> bool, jobsFail: U64 -> nat -> bool)

  const PER_PAGE: nat := 100

  /** How many items the first `pages` pages hold. */
  function Covered(total: nat, pages: nat): nat { Min(PER_PAGE * pages, total) }

  function Page<T>(xs: seq<T>, k: nat): seq<T>
    requires k >= 1
  {
    xs[Covered(|xs|, k - 1)..Covered(|xs|, k)]
  }

  function Named(runners: seq<Runner>, prefix: string): seq<Runner> {
    if runners == [] then []
    else
      var last := runners[|runners| - 1];
      Named(runners[..|runners| - 1], prefix) + if HasPrefix(last.name, prefix) then [last] else []
  }

  lemma {:induction false} NamedAppend(a: seq<Runner>, b: seq<Runner>, prefix: string)
    ensures Named(a + b, prefix) == Named(a, prefix) + Named(b, prefix)
  {
    if b == [] {
      assert a + b == a;
    } else {
      NamedAppend(a, b[..|b| - 1], prefix);
      assert (a + b)[..|a + b| - 1] == a + b[..|b| - 1];
    }
  }

  lemma {:induction false} NamedMember(runners: seq<Runner>, prefix: string, r: Runner)
    ensures r in Named(runners, prefix) <==> r in runners && HasPrefix(r.name, prefix)
  {
    if runners != [] {
      var init := runners[..|runners| - 1];
      NamedMember(init, prefix, r);
      assert runners == init + [runners[|runners| - 1]];
    }
  }

  /** The pages a listing of `total` items asks for: up to the first that is short. */
  predicate Needed(total: nat, k: nat) { k >= 1 && PER_PAGE * (k - 1) <= total }

  lemma NextPage<T>(xs: seq<T>, k: nat)
    requires k >= 1
    ensures xs[..Covered(|xs|, k)] == xs[..Covered(|xs|, k - 1)] + Page(xs, k)
    ensures |Page(xs, k)| < PER_PAGE ==> xs[..Covered(|xs|, k)] == xs
  {}

  predicate NoneFailed(fails: nat -> bool, page: nat) { forall k: nat :: 1 <= k < page ==> !fails(k) }

  /** One of the pages that a listing of `total` items asks for fails. */
  ghost predicate PageFails(total: nat, fails: nat -> bool) { exists k: nat :: Needed(total, k) && fails(k) }

  lemma LastPage<T>(xs: seq<T>, k: nat, fails: nat -> bool)
    requires Needed(|xs|, k) && NoneFailed(fails, k) && !fails(k)
    ensures NoneFailed(fails, k + 1)
    ensures |Page(xs, k)| >= PER_PAGE ==> Needed(|xs|, k + 1)
    ensures |Page(xs, k)| < PER_PAGE ==> !PageFails(|xs|, fails)
  {}

  /** Every runner of this prefix, in order, unless one of the pages needed failed. */
  method ListRunners(api: Api, prefix: string) returns (r: Option<seq<Runner>>)
    ensures r.Some? ==> r.value == Named(api.runners, prefix)
    ensures r.None? <==> PageFails(|api.runners|, api.runnersFail)
  {
    var out, page := [], 1;
    while true
      invariant Needed(|api.runners|, page) && NoneFailed(api.runnersFail, page)
      invariant out == Named(api.runners[..Covered(|api.runners|, page - 1)], prefix)
      decreases |api.runners| + PER_PAGE - PER_PAGE * page
    {
      if api.runnersFail(page) { return None; }
      var body := Page(api.runners, page);
      NextPage(api.runners, page);
      LastPage(api.runners, page, api.runnersFail);
      NamedAppend(api.runners[..Covered(|api.runners|, page - 1)], body, prefix);
      out := out + Named(body, prefix);
      if |body| < PER_PAGE { break; }
      page := page + 1;
    }
    return Some(out);
  }

  // ---- the jobs of the active runs --------------------------------------

  ghost predicate JobsFail(api: Api, run: Run) { PageFails(|run.jobs|, api.jobsFail(run.id)) }

  ghost predicate SomeJobsFail(api: Api, runs: seq<Run>) { exists run :: run in runs && JobsFail(api, run) }

  ghost predicate RunsFail(api: Api, status: string) {
    PageFails(|api.runs(status)|, api.runsFail(status)) || SomeJobsFail(api, api.runs(status))
  }

  method ListRunJobs(api: Api, run: Run) returns (r: Option<seq<Job>>)
    ensures r.Some? ==> r.value == run.jobs
    ensures r.None? <==> JobsFail(api, run)
  {
    var out, page := [], 1;
    while true
      invariant Needed(|run.jobs|, page) && NoneFailed(api.jobsFail(run.id), page)
      invariant out == run.jobs[..Covered(|run.jobs|, page - 1)]
      decreases |run.jobs| + PER_PAGE - PER_PAGE * page
    {
      if api.jobsFail(run.id)(page) { return None; }
      var body := Page(run.jobs, page);
      NextPage(run.jobs, page);
      LastPage(run.jobs, page, api.jobsFail(run.id));
      out := out + body;
      if |body| < PER_PAGE { break; }
      page := page + 1;
    }
    return Some(out);
  }

  /** The queued ones of `jobs`, stamped with the repository of their run. */
  function QueuedJobs(jobs: seq<Job>, repoId: U64): seq<Job> {
    if jobs == [] then []
    else
      var last := jobs[|jobs| - 1];
      QueuedJobs(jobs[..|jobs| - 1], repoId) + if last.status == QUEUED then [last.(repoId := repoId)] else []
  }

  function QueuedOf(runs: seq<Run>): seq<Job> {
    if runs == [] then []
    else QueuedOf(runs[..|runs| - 1]) + QueuedJobs(runs[|runs| - 1].jobs, runs[|runs| - 1].repoId)
  }

  lemma {:induction false} QueuedOfAppend(a: seq<Run>, b: seq<Run>)
    ensures QueuedOf(a + b) == QueuedOf(a) + QueuedOf(b)
  {
    if b == [] {
      assert a + b == a;
    } else {
      var init, last := b[..|b| - 1], b[|b| - 1];
      QueuedOfAppend(a, init);
      assert (a + b)[..|a + b| - 1] == a + init && (a + b)[|a + b| - 1] == last;
    }
  }

  method QueuedAmong(jobs: seq<Job>, repoId: U64) returns (found: seq<Job>)
    ensures found == QueuedJobs(jobs, repoId)
  {
    var j := 0;
    found := [];
    while j < |jobs|
      invariant 0 <= j <= |jobs| && found == QueuedJobs(jobs[..j], repoId)
    {
      assert jobs[..j + 1][..j] == jobs[..j];
      if jobs[j].status == QUEUED { found := found + [jobs[j].(repoId := repoId)]; }
      j := j + 1;
    }
    assert jobs[..j] == jobs;
  }

  /** The queued jobs of one page of runs. */
  method ExpandRuns(api: Api, runs: seq<Run>) returns (r: Option<seq<Job>>)
    ensures r.Some? ==> r.value == QueuedOf(runs)
    ensures r.None? <==> SomeJobsFail(api, runs)
  {
    var out, i := [], 0;
    while i < |runs|
      invariant 0 <= i <= |runs| && out == QueuedOf(runs[..i]) && !SomeJobsFail(api, runs[..i])
    {
      var jobs := ListRunJobs(api, runs[i]);
      if jobs.None? { return None; }
      var found := QueuedAmong(jobs.value, runs[i].repoId);
      assert runs[..i + 1][..i] == runs[..i] && runs[..i + 1] == runs[..i] + [runs[i]];
      out := out + found;
      i := i + 1;
    }
    assert runs[..i] == runs;
    return Some(out);
  }

  lemma FailsPageByPage(api: Api, runs: seq<Run>, k: nat)
    requires k >= 1
    ensures SomeJobsFail(api, runs[..Covered(|runs|, k)])
            <==> SomeJobsFail(api, runs[..Covered(|runs|, k - 1)]) || SomeJobsFail(api, Page(runs, k))
    ensures SomeJobsFail(api, Page(runs, k)) ==> SomeJobsFail(api, runs)
  {
    NextPage(runs, k);
    assert forall run :: run in Page(runs, k) ==> run in runs;
  }

  method ListRunsOf(api: Api, status: string) returns (r: Option<seq<Job>>)
    ensures r.Some? ==> r.value == QueuedOf(api.runs(status))
    ensures r.None? <==> RunsFail(api, status)
  {
    var runs := api.runs(status);
    var out, page := [], 1;
    while true
      invariant Needed(|runs|, page) && NoneFailed(api.runsFail(status), page)
      invariant !SomeJobsFail(api, runs[..Covered(|runs|, page - 1)])
      invariant out == QueuedOf(runs[..Covered(|runs|, page - 1)])
      decreases |runs| + PER_PAGE - PER_PAGE * page
    {
      if api.runsFail(status)(page) { return None; }
      var body := Page(runs, page);
      var found := ExpandRuns(api, body);
      FailsPageByPage(api, runs, page);
      if found.None? { return None; }
      NextPage(runs, page);
      LastPage(runs, page, api.runsFail(status));
      QueuedOfAppend(runs[..Covered(|runs|, page - 1)], body);
      out := out + found.value;
      if |body| < PER_PAGE { break; }
      page := page + 1;
    }
    return Some(out);
  }

  // ---- sort and dedup ---------------------------------------------------

  predicate SortedById(s: seq<Job>) { forall i, j :: 0 <= i <= j < |s| ==> s[i].id <= s[j].id }

  predicate StrictlyById(s: seq<Job>) { forall i, j :: 0 <= i < j < |s| ==> s[i].id < s[j].id }

  function Insert(job: Job, s: seq<Job>): seq<Job> {
    if s == [] || job.id <= s[0].id then [job] + s else [s[0]] + Insert(job, s[1..])
  }

  /** A stable sort, as `sort_by_key` is. */
  function Sort(s: seq<Job>): seq<Job> { if s == [] then [] else Insert(s[0], Sort(s[1..])) }

  lemma {:induction false} InsertHolds(job: Job, s: seq<Job>)
    ensures multiset(Insert(job, s)) == multiset(s) + multiset{job}
  {
    if s != [] && job.id > s[0].id {
      InsertHolds(job, s[1..]);
      assert s == [s[0]] + s[1..];
    }
  }

  lemma Prepended(job: Job, s: seq<Job>)
    requires SortedById(s) && (s != [] ==> job.id <= s[0].id)
    ensures SortedById([job] + s)
  {}

  lemma {:induction false} InsertSorts(job: Job, s: seq<Job>)
    requires SortedById(s)
    ensures SortedById(Insert(job, s))
    ensures Insert(job, s) != [] && (Insert(job, s)[0] == job || (s != [] && Insert(job, s)[0] == s[0]))
  {
    if s != [] && job.id > s[0].id {
      InsertSorts(job, s[1..]);
      Prepended(s[0], Insert(job, s[1..]));
    } else {
      Prepended(job, s);
    }
  }

  lemma {:induction false} SortSorts(s: seq<Job>)
    ensures SortedById(Sort(s)) && multiset(Sort(s)) == multiset(s)
  {
    if s != [] {
      SortSorts(s[1..]);
      InsertSorts(s[0], Sort(s[1..]));
      InsertHolds(s[0], Sort(s[1..]));
      assert s == [s[0]] + s[1..];
    }
  }

  predicate HasId(s: seq<Job>, id: U64) { exists k :: 0 <= k < |s| && s[k].id == id }

  function Dedup(s: seq<Job>): seq<Job> {
    if s == [] then []
    else
      var before, last := Dedup(s[..|s| - 1]), s[|s| - 1];
      if before != [] && before[|before| - 1].id == last.id then before else before + [last]
  }

  /** `dedup_by_key`: of consecutive jobs with one id, the first stays. */
  method DedupById(s: seq<Job>) returns (out: seq<Job>)
    ensures out == Dedup(s)
  {
    out := [];
    var i := 0;
    while i < |s|
      invariant 0 <= i <= |s| && out == Dedup(s[..i])
    {
      assert s[..i + 1][..i] == s[..i];
      if out == [] || out[|out| - 1].id != s[i].id { out := out + [s[i]]; }
      i := i + 1;
    }
    assert s[..i] == s;
  }

  lemma {:induction false} DedupAscends(s: seq<Job>)
    requires SortedById(s)
    ensures StrictlyById(Dedup(s))
    ensures s != [] ==> Dedup(s) != [] && Dedup(s)[|Dedup(s)| - 1].id == s[|s| - 1].id
  {
    if s != [] {
      var init, last := s[..|s| - 1], s[|s| - 1];
      DedupAscends(init);
      if init != [] { assert init[|init| - 1].id <= last.id; }
    }
  }

  lemma {:induction false} DedupMember(s: seq<Job>, job: Job)
    ensures job in Dedup(s) ==> job in s
  {
    if s != [] {
      DedupMember(s[..|s| - 1], job);
      assert s == s[..|s| - 1] + [s[|s| - 1]];
    }
  }

  lemma OneMoreId(s: seq<Job>, last: Job, id: U64)
    ensures HasId(s + [last], id) <==> HasId(s, id) || last.id == id
  {
    var t := s + [last];
    if k :| 0 <= k < |s| && s[k].id == id { assert t[k].id == id; }
    if last.id == id { assert t[|s|].id == id; }
  }

  lemma {:induction false} DedupIds(s: seq<Job>, id: U64)
    ensures HasId(Dedup(s), id) <==> HasId(s, id)
  {
    if s != [] {
      var init, last := s[..|s| - 1], s[|s| - 1];
      DedupIds(init, id);
      OneMoreId(init, last, id);
      assert s == init + [last];
      OneMoreId(Dedup(init), last, id);
    }
  }

  /** The jobs GitHub reports as queued, over the runs of both statuses. */
  function Reported(api: Api): seq<Job> { QueuedOf(api.runs(QUEUED)) + QueuedOf(api.runs(IN_PROGRESS)) }

  predicate IsQueuedIn(run: Run, job: Job) {
    exists j :: j in run.jobs && j.status == "queued" && job == j.(repoId := run.repoId)
  }

  /** GitHub shows `job` as queued in a run that is queued or in progress itself. */
  ghost predicate Waiting(api: Api, job: Job) {
    exists status, run ::
      (status == "queued" || status == "in_progress") && run in api.runs(status) && IsQueuedIn(run, job)
  }

  lemma SortedListing(all: seq<Job>)
    ensures var out := Dedup(Sort(all));
            && StrictlyById(out)
            && (forall job :: job in out ==> job in all)
            && (forall job :: job in all ==> HasId(out, job.id))
  {
    var sorted := Sort(all);
    SortSorts(all);
    DedupAscends(sorted);
    forall job ensures job in Dedup(sorted) ==> job in all {
      DedupMember(sorted, job);
      assert job in sorted <==> job in multiset(sorted);
      assert job in all <==> job in multiset(all);
    }
    forall job | job in all ensures HasId(Dedup(sorted), job.id) {
      assert job in multiset(all) && job in sorted;
      DedupIds(sorted, job.id);
    }
  }

  lemma {:induction false} QueuedJobsMember(jobs: seq<Job>, repoId: U64, job: Job)
    ensures job in QueuedJobs(jobs, repoId)
            <==> exists j :: j in jobs && j.status == QUEUED && job == j.(repoId := repoId)
  {
    if jobs != [] {
      var init := jobs[..|jobs| - 1];
      QueuedJobsMember(init, repoId, job);
      assert jobs == init + [jobs[|jobs| - 1]];
    }
  }

  /** A job is reported exactly when some active run holds it with status `queued`;
      its repository is that run's. */
  lemma {:induction false} ReportedMember(runs: seq<Run>, job: Job)
    ensures job in QueuedOf(runs) <==> exists run :: run in runs && IsQueuedIn(run, job)
  {
    if runs != [] {
      var init, last := runs[..|runs| - 1], runs[|runs| - 1];
      ReportedMember(init, job);
      QueuedJobsMember(last.jobs, last.repoId, job);
      assert runs == init + [last];
      assert job in QueuedOf(runs) <==> job in QueuedOf(init) || IsQueuedIn(last, job);
    }
  }

  lemma ReportedExactly(api: Api, job: Job)
    ensures job in Reported(api) <==> Waiting(api, job)
  {
    ReportedMember(api.runs("queued"), job);
    ReportedMember(api.runs("in_progress"), job);
  }

  /** Whatever pages they are spread over, and even when a run shows up under both
      statuses: strictly ascending ids, each job one that waits in a run of either
      status, and the id of every such job there. */
  method ListQueuedJobs(api: Api) returns (r: Option<seq<Job>>)
    ensures r.Some? ==> StrictlyById(r.value)
    ensures r.Some? ==> forall job :: job in r.value ==> Waiting(api, job)
    ensures r.Some? ==> forall job :: Waiting(api, job) ==> HasId(r.value, job.id)
    ensures r.None? <==> RunsFail(api, "queued") || RunsFail(api, "in_progress")
  {
    var queued := ListRunsOf(api, QUEUED);
    if queued.None? { return None; }
    var active := ListRunsOf(api, IN_PROGRESS);
    if active.None? { return None; }
    var out := DedupById(Sort(queued.value + active.value));
    SortedListing(Reported(api));
    forall job ensures job in Reported(api) <==> Waiting(api, job) { ReportedExactly(api, job); }
    return Some(out);
  }
}
