/** What one sync run may do, as a record of its pages (`runSync` of internal/service/sync/sync.go). */
module RunSpec {
  import opened Wrappers
  import opened Jira
  import opened Mapper
  import opened RawStore
  import opened PageEffect
  import AuthorHash
  import Authors
  import P = PoolProtocol
  import F = PageFetch
  import R = Registry

  /** What surrounds a run: the parsers, the answers of Jira, and the pool's size. `search(k, startAt)`
      is the answer to the k-th search, `None` an error; `fetch(k, key)` is what fetching an issue gives
      while the k-th page is processed. Both are arbitrary. */
  datatype World = World(
    ps: Parsers,
    search: (nat, nat) -> Option<SearchResponse>,
    fetch: (nat, string) -> Option<(Issue, IssueFields)>,
    workers: nat, queueSize: nat)

  // ---------- one page ----------

  /** `issueFetcher.Process`. */
  function Process(w: World, k: nat, task: P.Task): P.Outcome {
    match w.fetch(k, task.id)
    case None => P.Failed
    case Some(found) => P.Item(Authors.Fetched(task.id, found.0, found.1, task.projectID))
  }

  /** The pool's configuration for the k-th page. */
  function PageConfig(w: World, k: nat, projectID: int, keys: seq<string>): P.Config {
    P.Config(seq(|keys|, i requires 0 <= i < |keys| => P.Task(keys[i], projectID)),
             w.workers, w.queueSize, task => Process(w, k, task))
  }

  /** The issues of the page that the pool can fetch, in the order of the page: none without a worker. */
  function Fetches(w: World, k: nat, projectID: int, keys: seq<string>): seq<ProcessedIssue> {
    var c := PageConfig(w, k, projectID, keys);
    if w.workers == 0 then [] else F.Successes(c, c.page)
  }

  /** The item carries what fetching the key gave, whole and unchanged, with the authors it mentions. */
  predicate Carries(item: ProcessedIssue, key: string, projectID: int, found: Option<(Issue, IssueFields)>) {
    && found == Some((item.issue, item.fields))
    && item.taskID == key && item.projectID == projectID
    && item.authors == Authors.FirstMentions(Authors.Mentions(item.issue, item.fields))
  }

  /** What a page's fetch yields: for each key that can be fetched exactly one item, in the order of the keys,
      carrying what that key's fetch gave. `from` lists the positions of those keys. */
  lemma FetchesExact(w: World, k: nat, projectID: int, keys: seq<string>) returns (from: seq<nat>)
    requires w.workers >= 1
    ensures |from| == |Fetches(w, k, projectID, keys)|
    ensures forall i, j :: 0 <= i < j < |from| ==> from[i] < from[j]
    ensures forall j :: 0 <= j < |from| ==>
      && from[j] < |keys|
      && Carries(Fetches(w, k, projectID, keys)[j], keys[from[j]], projectID, w.fetch(k, keys[from[j]]))
    ensures forall i :: 0 <= i < |keys| && w.fetch(k, keys[i]).Some? ==> i in from
  {
    var c := PageConfig(w, k, projectID, keys);
    from := F.SuccessesExact(c, c.page);
    forall i | 0 <= i < |keys|
      ensures c.process(c.page[i]).Item? <==> w.fetch(k, keys[i]).Some?
      ensures c.process(c.page[i]).Item? ==>
        Carries(c.process(c.page[i]).item, keys[i], projectID, w.fetch(k, keys[i]))
    {
      assert c.process(c.page[i]) == Process(w, k, P.Task(keys[i], projectID));
    }
  }

  function MapAuthors(authors: seq<Author>): (r: seq<RawAuthor>)
    ensures |r| == |authors|
    ensures forall i :: 0 <= i < |authors| ==> r[i] == MapAuthorToRaw(authors[i])
  {
    seq(|authors|, i requires 0 <= i < |authors| => MapAuthorToRaw(authors[i]))
  }

  /** `name` is the display name of the first of these authors with the identifier. */
  ghost predicate FirstCalled(authors: seq<Author>, id: int, name: string) {
    exists i :: 0 <= i < |authors| && AuthorHash.IdOf(authors[i].name) == id && authors[i].displayName == name &&
      forall j :: 0 <= j < i ==> AuthorHash.IdOf(authors[j].name) != id
  }

  /** The author table gains exactly these authors: names already stored stay, and a new one is the display
      name of the first author with its identifier. */
  ghost predicate Introduced(names: map<int, string>, authors: seq<Author>, names': map<int, string>) {
    && (forall id :: id in names ==> id in names' && names'[id] == names[id])
    && (forall a :: a in authors ==> AuthorHash.IdOf(a.name) in names')
    && (forall id :: id in names' && id !in names ==> FirstCalled(authors, id, names'[id]))
  }

  lemma FirstCalledLater(authors: seq<Author>, id: int, name: string)
    requires authors != [] && AuthorHash.IdOf(authors[0].name) != id && FirstCalled(authors[1..], id, name)
    ensures FirstCalled(authors, id, name)
  {
    var rest := authors[1..];
    var i :| 0 <= i < |rest| && AuthorHash.IdOf(rest[i].name) == id && rest[i].displayName == name &&
      forall j :: 0 <= j < i ==> AuthorHash.IdOf(rest[j].name) != id;
    forall j | 0 <= j < i + 1
      ensures AuthorHash.IdOf(authors[j].name) != id
    {
      assert j > 0 ==> authors[j] == rest[j - 1];
    }
    assert authors[i + 1] == rest[i];
  }

  lemma {:induction false} FirstNameCalled(authors: seq<Author>, id: int)
    requires Mentioned(MapAuthors(authors), id)
    ensures FirstCalled(authors, id, FirstName(MapAuthors(authors), id))
    decreases |authors|
  {
    var rows := MapAuthors(authors);
    if rows[0].id == id {
      assert AuthorHash.IdOf(authors[0].name) == id && authors[0].displayName == rows[0].name;
    } else {
      var row :| row in rows && row.id == id;
      assert row in rows[1..];
      assert rows[1..] == MapAuthors(authors[1..]);
      FirstNameCalled(authors[1..], id);
      FirstCalledLater(authors, id, FirstName(rows, id));
    }
  }

  lemma AddingIntroduces(names: map<int, string>, authors: seq<Author>)
    ensures Introduced(names, authors, AddAuthors(names, MapAuthors(authors)))
  {
    var rows := MapAuthors(authors);
    AddAuthorsExact(names, rows);
    forall a | a in authors
      ensures AuthorHash.IdOf(a.name) in AddAuthors(names, rows)
    {
      var i :| 0 <= i < |authors| && authors[i] == a;
      assert rows[i] in rows && rows[i].id == AuthorHash.IdOf(a.name);
    }
    forall id | id in AddAuthors(names, rows) && id !in names
      ensures FirstCalled(authors, id, AddAuthors(names, rows)[id])
    {
      FirstNameCalled(authors, id);
    }
  }

  /** The rows a fetched issue stands for, if its id parses. */
  function BundleOf(ps: Parsers, item: ProcessedIssue): Option<Bundle> {
    match MapIssueToRaw(ps, item.issue, item.projectID, item.fields)
    case None => None
    case Some(row) => Some(Bundle(MapAuthors(item.authors), row, Changes(ps, Histories(item.issue), row.id)))
  }

  predicate Mappable(ps: Parsers, batch: seq<ProcessedIssue>) {
    forall i :: 0 <= i < |batch| ==> BundleOf(ps, batch[i]).Some?
  }

  function Bundles(ps: Parsers, batch: seq<ProcessedIssue>): (r: seq<Bundle>)
    requires Mappable(ps, batch)
    ensures |r| == |batch|
    ensures forall i :: 0 <= i < |batch| ==> r[i] == BundleOf(ps, batch[i]).value
  {
    seq(|batch|, i requires 0 <= i < |batch| => BundleOf(ps, batch[i]).value)
  }

  ghost predicate AcceptableItem(ps: Parsers, t: Tables, item: ProcessedIssue) {
    BundleOf(ps, item).Some? && Allowed(t, BundleOf(ps, item).value)
  }

  /** Every id of the batch parses, and the database refuses none of its rows. */
  ghost predicate Acceptable(ps: Parsers, t: Tables, batch: seq<ProcessedIssue>) {
    Mappable(ps, batch) && AllowedAll(t, Bundles(ps, batch))
  }

  // ---------- the pages of a run ----------

  /** A committed page: the answer that listed it, and its issues in the order they were committed. */
  datatype Page = Page(resp: SearchResponse, batch: seq<ProcessedIssue>)

  /** Where page |log| starts: after all issues listed so far. */
  function Offset(log: seq<Page>): nat {
    if log == [] then 0 else Offset(log[..|log| - 1]) + |log[|log| - 1].resp.keys|
  }

  /** How many issues were committed. */
  function Committed(log: seq<Page>): nat {
    if log == [] then 0 else Committed(log[..|log| - 1]) + |log[|log| - 1].batch|
  }

  /** Page i of the log is the last one the run asks for. */
  predicate Last(log: seq<Page>, i: nat)
    requires i < |log|
  {
    Offset(log[..i]) + |log[i].resp.keys| >= log[i].resp.total
  }

  /** Page i answers the i-th search, and commits exactly the issues of the page that can be fetched. */
  ghost predicate PageDone(w: World, projectID: int, log: seq<Page>, i: nat)
    requires i < |log|
  {
    && w.search(i, Offset(log[..i])) == Some(log[i].resp)
    && multiset(log[i].batch) == multiset(Fetches(w, i, projectID, log[i].resp.keys))
    && Mappable(w.ps, log[i].batch)
  }

  /** A run that has committed `log` and has not seen its last page. */
  ghost predicate Underway(w: World, projectID: int, log: seq<Page>) {
    forall i {:trigger PageDone(w, projectID, log, i)} {:trigger Last(log, i)} ::
      0 <= i < |log| ==> PageDone(w, projectID, log, i) && !Last(log, i)
  }

  /** A run that ended Completed with `log`. */
  ghost predicate Done(w: World, projectID: int, log: seq<Page>) {
    && log != []
    && (forall i {:trigger PageDone(w, projectID, log, i)} :: 0 <= i < |log| ==> PageDone(w, projectID, log, i))
    && (forall i {:trigger Last(log, i)} :: 0 <= i < |log| ==> (Last(log, i) <==> i == |log| - 1))
  }

  /** Every issue of every page has an id that parses. */
  ghost predicate AllMappable(ps: Parsers, log: seq<Page>) {
    forall i {:trigger Mappable(ps, log[i].batch)} :: 0 <= i < |log| ==> Mappable(ps, log[i].batch)
  }

  /** The page transactions of a log. */
  function PageBundles(ps: Parsers, log: seq<Page>): seq<seq<Bundle>>
    requires AllMappable(ps, log)
  {
    seq(|log|, i requires 0 <= i < |log| => Bundles(ps, log[i].batch))
  }

  // ---------- a whole run ----------

  /** What a run leaves behind: its committed pages, the total it announced, and, if it failed while
      committing a page, that page's collected batch and how many of it had been counted. */
  datatype Run = Run(log: seq<Page>, total: Option<int>, failing: seq<ProcessedIssue>, extra: nat)

  ghost predicate Possible(w: World, projectID: int, run: Run, completed: bool) {
    && (if completed then Done(w, projectID, run.log) && run.extra == 0 else Underway(w, projectID, run.log))
    && (run.log != [] || run.extra > 0 ==> run.total.Some?)
    && (run.total.Some? ==> w.search(0, 0).Some? && run.total == Some(w.search(0, 0).value.total))
    && run.extra <= |run.failing|
    && (run.failing != [] ==>
          var resp := w.search(|run.log|, Offset(run.log));
          resp.Some? &&
          multiset(run.failing) <= multiset(Fetches(w, |run.log|, projectID, resp.value.keys)))
  }

  /** The tables are exactly those of the committed pages, with every reference resolved. */
  ghost predicate Leaves(ps: Parsers, t: Tables, log: seq<Page>, t': Tables) {
    && AllMappable(ps, log)
    && AllowedPages(t, PageBundles(ps, log))
    && t' == ApplyPages(t, PageBundles(ps, log))
  }

  /** Announcing the total, if a search was answered, and then counting n issues. */
  function Progress(jobs: R.Jobs, syncID: string, total: Option<int>, n: nat): R.Jobs {
    R.IncrBy(if total.Some? then R.SetTotal(jobs, syncID, total.value) else jobs, syncID, n)
  }

  /** The whole account of a run: what it may have done, and what it has made of the tables and of the
      registry. */
  ghost predicate Accounts(w: World, projectID: int, syncID: string, run: Run, completed: bool,
                           t: Tables, t': Tables, jobs: R.Jobs, jobs': R.Jobs)
  {
    && Possible(w, projectID, run, completed)
    && Leaves(w.ps, t, run.log, t')
    && jobs' == Progress(jobs, syncID, run.total, Committed(run.log) + run.extra)
  }

  /** Something has kept the run from completing: a cancellation or the lack of a worker, the deadline, an
      unanswered search, a fault of the database, or a page with an id that does not parse or a row that the
      database refuses. */
  ghost predicate Hindered(w: World, run: Run, budget: nat, mayCancel: bool, faulted: bool, t': Tables) {
    || mayCancel || w.workers == 0 || faulted
    || |run.log| == budget
    || w.search(|run.log|, Offset(run.log)) == None
    || !Acceptable(w.ps, t', run.failing)
  }

  // ---------- one more page ----------

  /** The total announced by the first answer. */
  function Announced(log: seq<Page>): Option<int> {
    if log == [] then None else Some(log[0].resp.total)
  }

  /** Between two pages of a run. */
  ghost predicate Between(w: World, projectID: int, syncID: string, log: seq<Page>,
                          t: Tables, t': Tables, jobs: R.Jobs, jobs': R.Jobs)
  {
    && Underway(w, projectID, log)
    && Leaves(w.ps, t, log, t')
    && jobs' == Progress(jobs, syncID, Announced(log), Committed(log))
  }

  lemma UnderwayMore(w: World, projectID: int, log: seq<Page>, page: Page)
    requires Underway(w, projectID, log)
    requires w.search(|log|, Offset(log)) == Some(page.resp)
    requires multiset(page.batch) == multiset(Fetches(w, |log|, projectID, page.resp.keys))
    requires Mappable(w.ps, page.batch)
    ensures var n := Offset(log) + |page.resp.keys|;
      && (n < page.resp.total ==> Underway(w, projectID, log + [page]))
      && (n >= page.resp.total ==> Done(w, projectID, log + [page]))
      && Offset(log + [page]) == n && Committed(log + [page]) == Committed(log) + |page.batch|
  {
    var more := log + [page];
    assert more[..|log|] == log;
    forall i | 0 <= i < |log|
      ensures PageDone(w, projectID, more, i) && !Last(more, i)
    {
      assert more[..i] == log[..i];
      assert PageDone(w, projectID, log, i) && !Last(log, i);
    }
    assert PageDone(w, projectID, more, |log|);
    assert Last(more, |log|) <==> Offset(log) + |page.resp.keys| >= page.resp.total;
  }

  lemma PageBundlesMore(ps: Parsers, log: seq<Page>, page: Page)
    requires AllMappable(ps, log) && Mappable(ps, page.batch)
    ensures AllMappable(ps, log + [page])
    ensures PageBundles(ps, log + [page]) == PageBundles(ps, log) + [Bundles(ps, page.batch)]
  {
  }

  lemma LeavesMore(ps: Parsers, t: Tables, log: seq<Page>, mid: Tables, page: Page, t': Tables)
    requires Leaves(ps, t, log, mid)
    requires Mappable(ps, page.batch) && AllowedAll(mid, Bundles(ps, page.batch))
    requires t' == ApplyAll(mid, Bundles(ps, page.batch))
    ensures Leaves(ps, t, log + [page], t')
  {
    PageBundlesMore(ps, log, page);
    AllowedPagesMore(t, PageBundles(ps, log), Bundles(ps, page.batch));
  }

  /** The registry after one more page. */
  lemma ProgressMore(jobs: R.Jobs, syncID: string, log: seq<Page>, total: int, n: nat)
    requires log != [] ==> Announced(log) == Some(total)
    ensures R.IncrBy(if log == [] then R.SetTotal(Progress(jobs, syncID, None, Committed(log)), syncID, total)
                     else Progress(jobs, syncID, Announced(log), Committed(log)), syncID, n) ==
            Progress(jobs, syncID, Some(total), Committed(log) + n)
  {
    if log != [] {
      R.IncrByConcat(R.SetTotal(jobs, syncID, total), syncID, Committed(log), n);
    }
  }

  /** A run that counted exactly what it committed. */
  predicate Clean(run: Run) {
    run.total == Announced(run.log) && run.failing == [] && run.extra == 0
  }

  /** The total was announced by the answer to the first search. */
  lemma FirstAnswer(w: World, projectID: int, log: seq<Page>)
    requires log != [] && PageDone(w, projectID, log, 0)
    ensures w.search(0, 0).Some? && Announced(log) == Some(w.search(0, 0).value.total)
  {
    assert log[..0] == [];
  }

  lemma UnderwayIsPossible(w: World, projectID: int, run: Run)
    requires Underway(w, projectID, run.log) && Clean(run)
    ensures Possible(w, projectID, run, false)
  {
    if run.log != [] {
      FirstAnswer(w, projectID, run.log);
    }
  }

  lemma DoneIsPossible(w: World, projectID: int, run: Run)
    requires Done(w, projectID, run.log) && Clean(run)
    ensures Possible(w, projectID, run, true)
  {
    FirstAnswer(w, projectID, run.log);
  }

  /** What SyncPage makes of the registry when its search is answered. */
  function AfterPage(jobs: R.Jobs, syncID: string, log: seq<Page>, total: int, counted: nat): R.Jobs {
    R.IncrBy(if log != [] then jobs else R.SetTotal(jobs, syncID, total), syncID, counted)
  }

  lemma PageAdded(w: World, projectID: int, syncID: string, log: seq<Page>, page: Page,
                  t: Tables, mid: Tables, t': Tables, jobs: R.Jobs, midJobs: R.Jobs, jobs': R.Jobs)
    requires Between(w, projectID, syncID, log, t, mid, jobs, midJobs)
    requires w.search(|log|, Offset(log)) == Some(page.resp)
    requires multiset(page.batch) == multiset(Fetches(w, |log|, projectID, page.resp.keys))
    requires Mappable(w.ps, page.batch) && AllowedAll(mid, Bundles(w.ps, page.batch))
    requires t' == ApplyAll(mid, Bundles(w.ps, page.batch))
    requires jobs' == AfterPage(midJobs, syncID, log, page.resp.total, |page.batch|)
    ensures Offset(log + [page]) == Offset(log) + |page.resp.keys|
    ensures Offset(log) + |page.resp.keys| < page.resp.total ==>
      Between(w, projectID, syncID, log + [page], t, t', jobs, jobs')
    ensures Offset(log) + |page.resp.keys| >= page.resp.total ==>
      Accounts(w, projectID, syncID, Run(log + [page], Announced(log + [page]), [], 0), true, t, t', jobs, jobs')
  {
    UnderwayMore(w, projectID, log, page);
    LeavesMore(w.ps, t, log, mid, page, t');
    ProgressAdded(jobs, syncID, log, page, midJobs, jobs');
    var more := log + [page];
    if Offset(log) + |page.resp.keys| >= page.resp.total {
      RunEnds(w, projectID, syncID, Run(more, Announced(more), [], 0), t, t', jobs, jobs');
    } else {
      assert Between(w, projectID, syncID, more, t, t', jobs, jobs');
    }
  }

  lemma AccountsFor(w: World, projectID: int, syncID: string, run: Run, completed: bool,
                    t: Tables, t': Tables, jobs: R.Jobs, jobs': R.Jobs)
    requires Possible(w, projectID, run, completed)
    requires Leaves(w.ps, t, run.log, t')
    requires jobs' == Progress(jobs, syncID, run.total, Committed(run.log) + run.extra)
    ensures Accounts(w, projectID, syncID, run, completed, t, t', jobs, jobs')
  {
  }

  lemma RunEnds(w: World, projectID: int, syncID: string, run: Run,
                t: Tables, t': Tables, jobs: R.Jobs, jobs': R.Jobs)
    requires Done(w, projectID, run.log) && Leaves(w.ps, t, run.log, t') && Clean(run)
    requires jobs' == Progress(jobs, syncID, run.total, Committed(run.log))
    ensures Accounts(w, projectID, syncID, run, true, t, t', jobs, jobs')
  {
    DoneIsPossible(w, projectID, run);
    AccountsFor(w, projectID, syncID, run, true, t, t', jobs, jobs');
  }

  lemma ProgressAdded(jobs: R.Jobs, syncID: string, log: seq<Page>, page: Page, midJobs: R.Jobs, jobs': R.Jobs)
    requires midJobs == Progress(jobs, syncID, Announced(log), Committed(log))
    requires jobs' == AfterPage(midJobs, syncID, log, page.resp.total, |page.batch|)
    ensures jobs' == Progress(jobs, syncID, Announced(log + [page]), Committed(log + [page]))
  {
    assert (log + [page])[..|log|] == log;
    ProgressMore(jobs, syncID, log, Announced(log + [page]).value, |page.batch|);
  }

  /** A run that is interrupted between two pages. */
  lemma Interrupted(w: World, projectID: int, syncID: string, run: Run,
                    t: Tables, t': Tables, jobs: R.Jobs, jobs': R.Jobs)
    requires Between(w, projectID, syncID, run.log, t, t', jobs, jobs') && Clean(run)
    ensures Accounts(w, projectID, syncID, run, false, t, t', jobs, jobs')
  {
    UnderwayIsPossible(w, projectID, run);
    AccountsFor(w, projectID, syncID, run, false, t, t', jobs, jobs');
  }

  lemma FailingIsPossible(w: World, projectID: int, log: seq<Page>, total: int, batch: seq<ProcessedIssue>, counted: nat)
    requires Underway(w, projectID, log) && counted <= |batch|
    requires w.search(|log|, Offset(log)).Some?
    requires multiset(batch) <= multiset(Fetches(w, |log|, projectID, w.search(|log|, Offset(log)).value.keys))
    requires Some(total) == if log == [] then Some(w.search(0, 0).value.total) else Announced(log)
    ensures Possible(w, projectID, Run(log, Some(total), batch, counted), false)
  {
    if log != [] {
      FirstAnswer(w, projectID, log);
    } else {
      assert Offset(log) == 0;
    }
  }

  lemma FailedRun(w: World, projectID: int, syncID: string, log: seq<Page>, batch: seq<ProcessedIssue>, counted: nat,
                  t: Tables, t': Tables, jobs: R.Jobs, midJobs: R.Jobs, jobs': R.Jobs) returns (run: Run)
    requires Between(w, projectID, syncID, log, t, t', jobs, midJobs)
    requires counted <= |batch|
    requires w.search(|log|, Offset(log)) == None ==> batch == [] && jobs' == midJobs
    requires w.search(|log|, Offset(log)).Some? ==>
      var resp := w.search(|log|, Offset(log)).value;
      && multiset(batch) <= multiset(Fetches(w, |log|, projectID, resp.keys))
      && jobs' == AfterPage(midJobs, syncID, log, resp.total, counted)
    ensures run.log == log && run.failing == batch
    ensures Accounts(w, projectID, syncID, run, false, t, t', jobs, jobs')
  {
    var answer := w.search(|log|, Offset(log));
    if answer == None {
      run := Run(log, Announced(log), [], 0);
      Interrupted(w, projectID, syncID, run, t, t', jobs, midJobs);
    } else {
      var total := if log == [] then answer.value.total else Announced(log).value;
      FailingIsPossible(w, projectID, log, total, batch, counted);
      ProgressMore(jobs, syncID, log, total, counted);
      run := Run(log, Some(total), batch, counted);
    }
  }
}
