/** The sync run over the repository and the job registry (internal/service/sync/sync.go).

    `ctxDone` is the run's context: once done it stays done, and it may become done at any moment. The
    four-hour deadline is a budget of searches: when it is used up, the context is done. */
module SyncRun {
  import opened Wrappers
  import opened Jira
  import opened Mapper
  import opened RawStore
  import opened PageEffect
  import opened Postgres
  import opened RunSpec
  import R = Registry
  import M = Manager
  import F = PageFetch

  datatype SyncError = ContextCancelled | SearchFailed | FetchFailed | AuthorFailed | MapFailed
                     | IssueFailed | ResetFailed | TransactionFailed(error: DbError)

  predicate IsInsertError(e: SyncError) {
    e.AuthorFailed? || e.MapFailed? || e.IssueFailed? || e.ResetFailed?
  }

  /** `raw.author` rows for an issue's authors. */
  method InsertAuthors(txRepo: PostgresRepository, authors: seq<Author>) returns (r: Result<(), SyncError>)
    requires txRepo.isTx
    modifies txRepo`work, txRepo`aborted, txRepo.db`tables, txRepo.db`faults
    ensures txRepo.db.tables == old(txRepo.db.tables) && txRepo.db.faults >= old(txRepo.db.faults)
    ensures !old(txRepo.Healthy()) ==> !txRepo.Healthy()
    ensures r.Err? ==> r.error == AuthorFailed
    ensures txRepo.Undisturbed() ==> r.Ok? && txRepo.Healthy()
    ensures r.Ok? && txRepo.Healthy() ==>
      && txRepo.work == old(txRepo.work).(authors := AddAuthors(old(txRepo.work.authors), MapAuthors(authors)))
      && Introduced(old(txRepo.work.authors), authors, txRepo.work.authors)
  {
    ghost var rows := MapAuthors(authors);
    for i := 0 to |authors|
      invariant txRepo.db.tables == old(txRepo.db.tables) && txRepo.db.faults >= old(txRepo.db.faults)
      invariant !old(txRepo.Healthy()) ==> !txRepo.Healthy()
      invariant txRepo.Undisturbed() ==> txRepo.Healthy()
      invariant txRepo.Healthy() ==>
        txRepo.work == old(txRepo.work).(authors := AddAuthors(old(txRepo.work.authors), rows[..i]))
    {
      var raw := MapAuthorToRaw(authors[i]);
      var authorErr := txRepo.InsertAuthor(raw);
      if authorErr.Err? && authorErr.error != AlreadyExists {
        return Err(AuthorFailed);
      }
      assert rows[..i + 1][..i] == rows[..i];
    }
    assert rows[..|authors|] == rows;
    AddingIntroduces(old(txRepo.work.authors), authors);
    return Ok(());
  }

  /** The changes are recorded for an issue that had none left, and all their authors are known. */
  ghost predicate Recorded(t0: Tables, issueID: int, changes: seq<StatusChange>, t: Tables) {
    && t == t0.(changes := PutChanges(t0.changes, issueID, changes))
    && forall k :: 0 <= k < |changes| ==> changes[k].authorID in t0.authors
  }

  lemma PutOneMore(changes: map<int, multiset<StatusChange>>, issueID: int, front: seq<StatusChange>, c: StatusChange)
    requires issueID !in changes
    ensures var put := PutChanges(changes, issueID, front);
      PutChanges(changes, issueID, front + [c]) ==
      put[issueID := (if issueID in put then put[issueID] else multiset{}) + multiset{c}]
  {
    assert multiset(front + [c]) == multiset(front) + multiset{c};
  }

  lemma RecordOneMore(t0: Tables, issueID: int, changes: seq<StatusChange>, i: nat, t: Tables)
    requires i < |changes| && issueID !in t0.changes && changes[i].issueID == issueID
    requires Recorded(t0, issueID, changes[..i], t)
    requires InsertStatusChangeSQL(t, changes[i]).Some?
    ensures Recorded(t0, issueID, changes[..i + 1], InsertStatusChangeSQL(t, changes[i]).value)
  {
    assert changes[..i + 1] == changes[..i] + [changes[i]];
    PutOneMore(t0.changes, issueID, changes[..i], changes[i]);
  }

  /** The foreign keys of all these changes resolve. */
  ghost predicate ChangesResolve(t: Tables, issueID: int, changes: seq<StatusChange>) {
    issueID in t.issues && forall k :: 0 <= k < |changes| ==> changes[k].authorID in t.authors
  }

  /** The issue's status changes. An insert that fails is logged and passed over. */
  method InsertChanges(txRepo: PostgresRepository, issueID: int, changes: seq<StatusChange>)
    requires txRepo.isTx
    requires forall k :: 0 <= k < |changes| ==> changes[k].issueID == issueID
    requires txRepo.Healthy() ==> issueID !in txRepo.work.changes
    modifies txRepo`work, txRepo`aborted, txRepo.db`tables, txRepo.db`faults
    ensures txRepo.db.tables == old(txRepo.db.tables) && txRepo.db.faults >= old(txRepo.db.faults)
    ensures !old(txRepo.Healthy()) ==> !txRepo.Healthy()
    ensures txRepo.Undisturbed() && ChangesResolve(old(txRepo.work), issueID, changes) ==> txRepo.Healthy()
    ensures txRepo.Healthy() ==> Recorded(old(txRepo.work), issueID, changes, txRepo.work)
  {
    ghost var t0 := txRepo.work;
    for i := 0 to |changes|
      invariant txRepo.db.tables == old(txRepo.db.tables) && txRepo.db.faults >= old(txRepo.db.faults)
      invariant !old(txRepo.Healthy()) ==> !txRepo.Healthy()
      invariant txRepo.Undisturbed() && ChangesResolve(t0, issueID, changes) ==> txRepo.Healthy()
      invariant txRepo.Healthy() ==> Recorded(t0, issueID, changes[..i], txRepo.work)
    {
      ghost var before := txRepo.work;
      var changeErr := txRepo.InsertStatusChange(changes[i]);
      if txRepo.Healthy() {
        RecordOneMore(t0, issueID, changes, i, before);
      }
    }
    assert changes[..|changes|] == changes;
  }

  method InsertProcessedIssue(ps: Parsers, txRepo: PostgresRepository, item: ProcessedIssue)
    returns (r: Result<(), SyncError>)
    requires txRepo.isTx
    modifies txRepo`work, txRepo`aborted, txRepo.db`tables, txRepo.db`faults
    ensures txRepo.db.tables == old(txRepo.db.tables) && txRepo.db.faults >= old(txRepo.db.faults)
    ensures !old(txRepo.Healthy()) ==> !txRepo.Healthy()
    ensures r.Err? ==> IsInsertError(r.error) && (r.error == MapFailed ==> BundleOf(ps, item) == None)
    ensures txRepo.Undisturbed() && AcceptableItem(ps, old(txRepo.work), item) ==> r.Ok? && txRepo.Healthy()
    ensures r.Ok? ==> BundleOf(ps, item).Some?
    ensures r.Ok? && txRepo.Healthy() ==>
      && Allowed(old(txRepo.work), BundleOf(ps, item).value)
      && txRepo.work == Apply(old(txRepo.work), BundleOf(ps, item).value)
  {
    var authorErr := InsertAuthors(txRepo, item.authors);
    if authorErr.Err? {
      return authorErr;
    }
    var rawIssue := MapIssueToRaw(ps, item.issue, item.projectID, item.fields);
    if rawIssue == None {
      return Err(MapFailed);
    }
    var row := rawIssue.value;
    ghost var t1 := txRepo.work;
    var issueErr := txRepo.InsertIssue(row);
    if issueErr.Err? {
      return Err(IssueFailed);
    }
    var delErr := txRepo.DeleteStatusChangesByIssue(row.id);
    if delErr.Err? {
      return Err(ResetFailed);
    }
    var changes := MapChangelogToRaw(ps, item.issue, row.id);
    ChangesAreAbout(ps, Histories(item.issue), row.id);
    ghost var t3 := txRepo.work;
    InsertChanges(txRepo, row.id, changes);
    if txRepo.Healthy() {
      ApplyInSteps(old(txRepo.work), t1, t3, txRepo.work, Bundle(MapAuthors(item.authors), row, changes));
    }
    return Ok(());
  }

  lemma ApplyInSteps(t0: Tables, t1: Tables, t3: Tables, t4: Tables, b: Bundle)
    requires t1 == t0.(authors := AddAuthors(t0.authors, b.authors))
    requires InsertIssueSQL(t1, b.row).Some?
    requires t3 == DeleteStatusChangesSQL(InsertIssueSQL(t1, b.row).value, b.row.id)
    requires Recorded(t3, b.row.id, b.changes, t4)
    requires forall c :: c in b.changes ==> c.issueID == b.row.id
    ensures Allowed(t0, b) && t4 == Apply(t0, b)
  {
    assert PutChanges(t0.changes - {b.row.id}, b.row.id, b.changes) == PutChanges(t0.changes, b.row.id, b.changes);
  }

  /** The transaction holds exactly the effect of the batch, with every reference resolved. */
  ghost predicate Holds(ps: Parsers, before: Tables, batch: seq<ProcessedIssue>, work: Tables)
    requires Mappable(ps, batch)
  {
    AllowedAll(before, Bundles(ps, batch)) && work == ApplyAll(before, Bundles(ps, batch))
  }

  /** In an acceptable batch the next issue is acceptable after those before it. */
  lemma AcceptableInTurn(ps: Parsers, t: Tables, batch: seq<ProcessedIssue>, i: nat, work: Tables)
    requires i < |batch| && Mappable(ps, batch[..i]) && Holds(ps, t, batch[..i], work)
    requires Acceptable(ps, t, batch)
    ensures AcceptableItem(ps, work, batch[i])
  {
    AllowedInTurn(t, Bundles(ps, batch), i);
    assert Bundles(ps, batch)[..i] == Bundles(ps, batch[..i]);
  }

  lemma BundlesMore(ps: Parsers, batch: seq<ProcessedIssue>, i: nat)
    requires i < |batch| && Mappable(ps, batch[..i]) && BundleOf(ps, batch[i]).Some?
    ensures Mappable(ps, batch[..i + 1])
    ensures Bundles(ps, batch[..i + 1]) == Bundles(ps, batch[..i]) + [BundleOf(ps, batch[i]).value]
  {
    var more, front := batch[..i + 1], batch[..i];
    forall k | 0 <= k < |more|
      ensures BundleOf(ps, more[k]).Some? && more[k] == if k < i then front[k] else batch[i]
    {
      assert k < i ==> BundleOf(ps, front[k]).Some?;
    }
    assert Mappable(ps, more);
  }

  lemma OneMoreBundle(ps: Parsers, t: Tables, batch: seq<ProcessedIssue>, i: nat, work: Tables)
    requires i < |batch| && Mappable(ps, batch[..i]) && Holds(ps, t, batch[..i], work)
    requires BundleOf(ps, batch[i]).Some? && Allowed(work, BundleOf(ps, batch[i]).value)
    ensures Mappable(ps, batch[..i + 1])
    ensures Holds(ps, t, batch[..i + 1], Apply(work, BundleOf(ps, batch[i]).value))
  {
    BundlesMore(ps, batch, i);
    AllowedOneMore(t, Bundles(ps, batch[..i]), BundleOf(ps, batch[i]).value);
    ApplyAllOneMore(t, Bundles(ps, batch[..i]), BundleOf(ps, batch[i]).value);
  }

  /** The next issue of the batch, in a transaction that holds those before it. */
  method InsertNext(ps: Parsers, txRepo: PostgresRepository, batch: seq<ProcessedIssue>, i: nat, ghost before: Tables)
    returns (r: Result<(), SyncError>)
    requires txRepo.isTx && i < |batch| && Mappable(ps, batch[..i])
    requires txRepo.Healthy() ==> Holds(ps, before, batch[..i], txRepo.work)
    modifies txRepo`work, txRepo`aborted, txRepo.db`tables, txRepo.db`faults
    ensures txRepo.db.tables == old(txRepo.db.tables) && txRepo.db.faults >= old(txRepo.db.faults)
    ensures !old(txRepo.Healthy()) ==> !txRepo.Healthy()
    ensures r.Err? ==> IsInsertError(r.error) && (r.error == MapFailed ==> !Mappable(ps, batch))
    ensures txRepo.Undisturbed() && Acceptable(ps, before, batch) ==> r.Ok? && txRepo.Healthy()
    ensures r.Ok? ==> Mappable(ps, batch[..i + 1])
    ensures r.Ok? && txRepo.Healthy() ==> Holds(ps, before, batch[..i + 1], txRepo.work)
  {
    ghost var work := txRepo.work;
    if txRepo.Healthy() && Acceptable(ps, before, batch) {
      AcceptableInTurn(ps, before, batch, i, work);
    }
    r := InsertProcessedIssue(ps, txRepo, batch[i]);
    if r.Ok? {
      BundlesMore(ps, batch, i);
      if txRepo.Healthy() {
        OneMoreBundle(ps, before, batch, i, work);
      }
    }
  }

  /** The transaction's operation: insert each issue of the batch and count it. */
  method InsertBatch(ps: Parsers, txRepo: PostgresRepository, mgr: M.Manager, syncID: string, batch: seq<ProcessedIssue>)
    returns (r: Result<(), SyncError>, ghost counted: nat)
    requires txRepo.isTx && mgr.Valid()
    modifies txRepo`work, txRepo`aborted, txRepo.db`tables, txRepo.db`faults, mgr.JobOf(syncID)
    ensures txRepo.db.tables == old(txRepo.db.tables) && txRepo.db.faults >= old(txRepo.db.faults)
    ensures mgr.Valid() && mgr.Contents() == R.IncrBy(old(mgr.Contents()), syncID, counted)
    ensures r.Err? ==> counted <= |batch| && IsInsertError(r.error) && (r.error == MapFailed ==> !Mappable(ps, batch))
    ensures r.Ok? ==> counted == |batch| && Mappable(ps, batch)
    ensures txRepo.Undisturbed() && Acceptable(ps, old(txRepo.work), batch) ==> r.Ok? && txRepo.Healthy()
    ensures r.Ok? && txRepo.Healthy() ==> Holds(ps, old(txRepo.work), batch, txRepo.work)
  {
    counted := 0;
    ghost var before := txRepo.work;
    for i := 0 to |batch|
      invariant counted == i
      invariant txRepo.db.tables == old(txRepo.db.tables) && txRepo.db.faults >= old(txRepo.db.faults)
      invariant mgr.Valid() && mgr.byID == old(mgr.byID)
      invariant mgr.Contents() == R.IncrBy(old(mgr.Contents()), syncID, counted)
      invariant Mappable(ps, batch[..i])
      invariant txRepo.Undisturbed() && Acceptable(ps, before, batch) ==> txRepo.Healthy()
      invariant txRepo.Healthy() ==> Holds(ps, before, batch[..i], txRepo.work)
    {
      var insertErr := InsertNext(ps, txRepo, batch, i, before);
      if insertErr.Err? {
        return insertErr, counted;
      }
      mgr.IncrProcessed(syncID);
      counted := counted + 1;
    }
    assert batch[..|batch|] == batch;
    return Ok(()), counted;
  }

  predicate IsPageError(e: SyncError) {
    IsInsertError(e) || e.FetchFailed? || e.TransactionFailed?
  }

  /** How WithTransaction ends: roll back if the operation failed, and commit otherwise. */
  method EndTransaction(txRepo: PostgresRepository, execErr: Result<(), SyncError>) returns (r: Result<(), SyncError>)
    requires txRepo.isTx
    modifies txRepo`open, txRepo.db`tables, txRepo.db`faults
    ensures txRepo.db.faults >= old(txRepo.db.faults)
    ensures r.Err? ==> execErr.Err? || !old(txRepo.Healthy()) || txRepo.db.faults > old(txRepo.db.faults)
    ensures r.Err? ==> if execErr.Err? then r == execErr else r.error.TransactionFailed?
    ensures r.Ok? ==> execErr.Ok? && old(txRepo.Healthy()) && txRepo.db.tables == old(txRepo.work)
    ensures r.Err? ==> txRepo.db.tables == old(txRepo.db.tables)
  {
    if execErr.Err? {
      var _ := txRepo.Rollback();
      return execErr;
    }
    var committed := txRepo.Commit();
    if committed.Err? {
      return Err(TransactionFailed(committed.error));
    }
    return Ok(());
  }

  /** WithTransaction around the batch: begin, run the operation, then commit or roll back. The count of
      processed issues runs ahead of the commit: `counted` were counted whether or not the page stays. */
  method CommitPage(ps: Parsers, repo: PostgresRepository, mgr: M.Manager, syncID: string,
                    batch: seq<ProcessedIssue>, ctxDone: bool)
    returns (r: Result<(), SyncError>, ghost counted: nat)
    requires !repo.isTx && mgr.Valid()
    modifies repo.db`tables, repo.db`faults, mgr.JobOf(syncID)
    ensures mgr.Valid() && mgr.Contents() == R.IncrBy(old(mgr.Contents()), syncID, counted)
    ensures r.Ok? ==> !ctxDone && counted == |batch| && Mappable(ps, batch)
    ensures r.Ok? ==> Holds(ps, old(repo.db.tables), batch, repo.db.tables)
    ensures repo.db.faults >= old(repo.db.faults)
    ensures r.Err? ==> ctxDone || repo.db.faults > old(repo.db.faults) || !Acceptable(ps, old(repo.db.tables), batch)
    ensures r.Err? ==> IsPageError(r.error) && (r.error == MapFailed ==> !Mappable(ps, batch))
    ensures r.Err? ==> counted <= |batch| && repo.db.tables == old(repo.db.tables)
  {
    counted := 0;
    var begun := repo.NewTx(ctxDone);
    if begun.Err? {
      return Err(TransactionFailed(begun.error)), counted;
    }
    var txRepo := begun.value;
    var execErr;
    execErr, counted := InsertBatch(ps, txRepo, mgr, syncID, batch);
    var ended := EndTransaction(txRepo, execErr);
    return ended, counted;
  }

  // ---------- the run ----------

  lemma ProcessIsWellTyped(w: World, k: nat, projectID: int, keys: seq<string>)
    ensures F.WellTyped(PageConfig(w, k, projectID, keys))
  {
  }

  /** Fetches a page's issues over the pool and commits them in one transaction. `collected` is what the
      fetch gave, `counted` how many of it were counted as processed. */
  method ProcessPage(w: World, repo: PostgresRepository, mgr: M.Manager, syncID: string, projectID: int,
                     k: nat, keys: seq<string>, ctxDoneBefore: bool, mayCancel: bool)
    returns (r: Result<(), SyncError>, ctxDone: bool, ghost collected: seq<ProcessedIssue>, ghost counted: nat)
    requires !repo.isTx && mgr.Valid()
    modifies repo.db`tables, repo.db`faults, mgr.JobOf(syncID)
    ensures mgr.Valid() && mgr.Contents() == R.IncrBy(old(mgr.Contents()), syncID, counted)
    ensures multiset(collected) <= multiset(Fetches(w, k, projectID, keys))
    ensures r.Ok? ==> multiset(collected) == multiset(Fetches(w, k, projectID, keys)) && counted == |collected|
    ensures r.Ok? ==> Mappable(w.ps, collected) && Holds(w.ps, old(repo.db.tables), collected, repo.db.tables)
    ensures repo.db.faults >= old(repo.db.faults)
    ensures ctxDone ==> ctxDoneBefore || mayCancel || w.workers == 0
    ensures r.Err? && !ctxDone && w.workers >= 1 && repo.db.faults == old(repo.db.faults) ==>
      !Acceptable(w.ps, old(repo.db.tables), collected)
    ensures r.Err? ==> IsPageError(r.error) && (r.error == MapFailed ==> !Mappable(w.ps, collected))
    ensures r.Err? ==> counted <= |collected| && repo.db.tables == old(repo.db.tables)
  {
    var c := PageConfig(w, k, projectID, keys);
    ProcessIsWellTyped(w, k, projectID, keys);
    var fetched;
    ghost var end;
    fetched, ctxDone, end := F.FetchPageIssues(c, ctxDoneBefore, mayCancel);
    if fetched.Err? {
      return Err(FetchFailed), ctxDone, [], 0;
    }
    var doneSince: bool := *;
    ctxDone := ctxDone || (mayCancel && doneSince);
    var commitErr;
    commitErr, counted := CommitPage(w.ps, repo, mgr, syncID, fetched.value, ctxDone);
    return commitErr, ctxDone, fetched.value, counted;
  }

  /** One iteration after the context check: search, announce the total the first time, process the
      page. */
  method SyncPage(w: World, repo: PostgresRepository, mgr: M.Manager, syncID: string, projectID: int,
                  k: nat, startAt: nat, totalSet: bool, ctxDoneBefore: bool, mayCancel: bool)
    returns (r: Result<SearchResponse, SyncError>, ctxDone: bool, ghost batch: seq<ProcessedIssue>, ghost counted: nat)
    requires !repo.isTx && mgr.Valid()
    modifies repo.db`tables, repo.db`faults, mgr.JobOf(syncID)
    ensures mgr.Valid()
    ensures repo.db.faults >= old(repo.db.faults)
    ensures ctxDone ==> ctxDoneBefore || mayCancel || w.workers == 0
    ensures r.Err? && w.search(k, startAt).Some? && !ctxDone && w.workers >= 1 && repo.db.faults == old(repo.db.faults) ==>
      !Acceptable(w.ps, old(repo.db.tables), batch)
    ensures r.Err? ==> (r.error == SearchFailed <==> w.search(k, startAt) == None) && r.error != ContextCancelled
    ensures r.Err? && r.error == MapFailed ==> !Mappable(w.ps, batch)
    ensures w.search(k, startAt) == None ==> r.Err? && batch == [] && mgr.Contents() == old(mgr.Contents()) && counted == 0
    ensures w.search(k, startAt).Some? ==>
      && multiset(batch) <= multiset(Fetches(w, k, projectID, w.search(k, startAt).value.keys))
      && mgr.Contents() == R.IncrBy(
           if totalSet then old(mgr.Contents()) else R.SetTotal(old(mgr.Contents()), syncID, w.search(k, startAt).value.total),
           syncID, counted)
    ensures r.Ok? ==>
      && w.search(k, startAt) == Some(r.value)
      && multiset(batch) == multiset(Fetches(w, k, projectID, r.value.keys)) && counted == |batch|
      && Mappable(w.ps, batch) && Holds(w.ps, old(repo.db.tables), batch, repo.db.tables)
    ensures r.Err? ==> counted <= |batch| && repo.db.tables == old(repo.db.tables)
  {
    batch, counted, ctxDone := [], 0, ctxDoneBefore;
    var answer := w.search(k, startAt);
    if answer == None {
      return Err(SearchFailed), ctxDone, batch, counted;
    }
    var resp := answer.value;
    if !totalSet {
      mgr.SetTotal(syncID, resp.total);
    }
    if |resp.keys| > 0 {
      var pageErr;
      pageErr, ctxDone, batch, counted := ProcessPage(w, repo, mgr, syncID, projectID, k, resp.keys, ctxDone, mayCancel);
      if pageErr.Err? {
        return Err(pageErr.error), ctxDone, batch, counted;
      }
    }
    return Ok(resp), ctxDone, batch, counted;
  }

  /** What an error of a run tells of its cause. */
  ghost predicate Explains(w: World, e: SyncError, run: Run, budget: nat, mayCancel: bool, faulted: bool, t': Tables) {
    match e
    case ContextCancelled => mayCancel || w.workers == 0 || |run.log| == budget
    case SearchFailed => w.search(|run.log|, Offset(run.log)) == None
    case MapFailed => !Mappable(w.ps, run.failing)
    case _ => mayCancel || w.workers == 0 || faulted || !Acceptable(w.ps, t', run.failing)
  }

  lemma ExplainsHinders(w: World, e: SyncError, run: Run, budget: nat, mayCancel: bool, faulted: bool, t': Tables)
    requires Explains(w, e, run, budget, mayCancel, faulted, t')
    ensures Hindered(w, run, budget, mayCancel, faulted, t')
  {
  }

  /** One iteration as a step of the account: the page is added to the log, or the run ends. `t0` and
      `jobs0` are the tables and the registry at the start of the run. */
  method Iterate(w: World, repo: PostgresRepository, mgr: M.Manager, syncID: string, projectID: int,
                 calls: nat, startAt: nat, totalSet: bool, ctxDoneBefore: bool, mayCancel: bool,
                 ghost budget: nat, ghost log: seq<Page>, ghost t0: Tables, ghost jobs0: R.Jobs)
    returns (r: Result<SearchResponse, SyncError>, ctxDone: bool, ghost more: seq<Page>, ghost run: Run)
    requires !repo.isTx && mgr.Valid()
    requires calls == |log| && startAt == Offset(log) && (totalSet <==> log != [])
    requires Between(w, projectID, syncID, log, t0, repo.db.tables, jobs0, mgr.Contents())
    modifies repo.db`tables, repo.db`faults, mgr.JobOf(syncID)
    ensures mgr.Valid()
    ensures r.Err? ==> Accounts(w, projectID, syncID, run, false, t0, repo.db.tables, jobs0, mgr.Contents())
    ensures repo.db.faults >= old(repo.db.faults)
    ensures ctxDone ==> ctxDoneBefore || mayCancel || w.workers == 0
    ensures r.Err? ==> run.log == log && Explains(w, r.error, run, budget, ctxDoneBefore || mayCancel,
                                                  repo.db.faults > old(repo.db.faults), repo.db.tables)
    ensures r.Ok? ==> |more| == calls + 1 && Offset(more) == startAt + |r.value.keys|
    ensures r.Ok? && Offset(more) < r.value.total ==>
      Between(w, projectID, syncID, more, t0, repo.db.tables, jobs0, mgr.Contents())
    ensures r.Ok? && Offset(more) >= r.value.total ==>
      Accounts(w, projectID, syncID, run, true, t0, repo.db.tables, jobs0, mgr.Contents())
  {
    ghost var mid, jobs := repo.db.tables, mgr.Contents();
    ghost var batch;
    ghost var counted;
    r, ctxDone, batch, counted := SyncPage(w, repo, mgr, syncID, projectID, calls, startAt, totalSet, ctxDoneBefore, mayCancel);
    ghost var t1, jobs1 := repo.db.tables, mgr.Contents();
    if r.Err? {
      more := log;
      run := FailedRun(w, projectID, syncID, log, batch, counted, t0, t1, jobs0, jobs, jobs1);
    } else {
      more := log + [Page(r.value, batch)];
      run := Run(more, Announced(more), [], 0);
      PageAdded(w, projectID, syncID, log, Page(r.value, batch), t0, mid, t1, jobs0, jobs, jobs1);
    }
  }

  /** Fetches and commits all pages of a project. `budget` bounds the searches before the deadline;
      `mayCancel`: the context may be done before that. */
  method RunSync(w: World, repo: PostgresRepository, mgr: M.Manager, syncID: string, projectID: int, budget: nat,
                 mayCancel: bool)
    returns (r: Result<(), SyncError>, ghost run: Run)
    requires !repo.isTx && mgr.Valid()
    modifies repo.db`tables, repo.db`faults, mgr.JobOf(syncID)
    ensures mgr.Valid()
    ensures Accounts(w, projectID, syncID, run, r.Ok?,
                     old(repo.db.tables), repo.db.tables, old(mgr.Contents()), mgr.Contents())
    ensures repo.db.faults >= old(repo.db.faults)
    ensures r.Err? ==> Explains(w, r.error, run, budget, mayCancel, repo.db.faults > old(repo.db.faults), repo.db.tables)
  {
    ghost var t0, jobs0 := repo.db.tables, mgr.Contents();
    ghost var log: seq<Page> := [];
    var startAt, totalSet, ctxDone, calls := 0, false, false, 0;
    while true
      invariant calls == |log| <= budget && startAt == Offset(log) && (totalSet <==> log != [])
      invariant Between(w, projectID, syncID, log, t0, repo.db.tables, jobs0, mgr.Contents())
      invariant mgr.Valid() && mgr.byID == old(mgr.byID)
      invariant repo.db.faults >= old(repo.db.faults) && (ctxDone ==> mayCancel || w.workers == 0)
      decreases budget - calls
    {
      var doneNow: bool := *;
      ctxDone := ctxDone || (mayCancel && doneNow) || calls == budget;
      if ctxDone {
        run := Run(log, Announced(log), [], 0);
        Interrupted(w, projectID, syncID, run, t0, repo.db.tables, jobs0, mgr.Contents());
        return Err(ContextCancelled), run;
      }
      var answer;
      answer, ctxDone, log, run := Iterate(w, repo, mgr, syncID, projectID, calls, startAt, totalSet, ctxDone, mayCancel,
                                            budget, log, t0, jobs0);
      if answer.Err? {
        return Err(answer.error), run;
      }
      calls, totalSet := calls + 1, true;
      if startAt + |answer.value.keys| >= answer.value.total {
        break;
      }
      startAt := startAt + |answer.value.keys|;
    }
    return Ok(()), run;
  }
}
