/** What a sync run guarantees, drawn from the account that RunSync gives of itself. */
module RunLaws {
  import opened Wrappers
  import opened Jira
  import opened Mapper
  import opened RawStore
  import opened PageEffect
  import opened RunSpec
  import opened References
  import L = SyncLaws
  import R = Registry
  import F = PageFetch
  import P = PoolProtocol
  import AuthorHash
  import Authors

  // ---------- pagination ----------

  /** All issue keys listed so far, in order. */
  function Listed(log: seq<Page>): seq<string> {
    if log == [] then [] else Listed(log[..|log| - 1]) + log[|log| - 1].resp.keys
  }

  lemma {:induction false} OffsetIsListed(log: seq<Page>)
    ensures Offset(log) == |Listed(log)|
  {
    if log != [] {
      OffsetIsListed(log[..|log| - 1]);
    }
  }

  /** Any server: a completed run has listed at least as many issues as the last answer's total. */
  lemma CompletedSawTotal(w: World, projectID: int, log: seq<Page>)
    requires Done(w, projectID, log)
    ensures |Listed(log)| >= log[|log| - 1].resp.total
  {
    OffsetIsListed(log);
    assert Last(log, |log| - 1);
  }

  /** All pages of a log but the last come from a run underway. */
  lemma FrontUnderway(w: World, projectID: int, log: seq<Page>)
    requires log != [] && (Underway(w, projectID, log) || Done(w, projectID, log))
    ensures Underway(w, projectID, log[..|log| - 1])
    ensures w.search(|log| - 1, Offset(log[..|log| - 1])) == Some(log[|log| - 1].resp)
    ensures multiset(log[|log| - 1].batch) == multiset(Fetches(w, |log| - 1, projectID, log[|log| - 1].resp.keys))
    ensures Last(log, |log| - 1) <==> Done(w, projectID, log)
  {
    var front := log[..|log| - 1];
    forall i | 0 <= i < |front|
      ensures PageDone(w, projectID, front, i) && !Last(front, i)
    {
      assert front[..i] == log[..i] && PageDone(w, projectID, log, i) && !Last(log, i);
    }
    assert PageDone(w, projectID, log, |log| - 1);
    assert Underway(w, projectID, log) ==> !Last(log, |log| - 1);
  }

  /** The answer lists issues of `all` from startAt on, at least one while there are any, and the length
      of `all` as the total. */
  predicate Serves(answer: Option<SearchResponse>, all: seq<string>, startAt: nat)
    requires startAt <= |all|
  {
    && answer.Some?
    && answer.value.keys <= all[startAt..]
    && (answer.value.keys != [] || startAt == |all|)
    && answer.value.total == |all|
  }

  /** A stable list of issues, served in pages of any sizes. */
  ghost predicate StableList(w: World, all: seq<string>) {
    forall k, startAt: nat :: startAt <= |all| ==> Serves(w.search(k, startAt), all, startAt)
  }

  lemma PrefixMore(all: seq<string>, listed: seq<string>, keys: seq<string>)
    requires listed <= all && keys <= all[|listed|..]
    ensures listed + keys <= all
  {
  }

  lemma {:induction false} UnderwayListsPrefix(w: World, projectID: int, log: seq<Page>, all: seq<string>)
    requires StableList(w, all) && Underway(w, projectID, log)
    ensures Listed(log) <= all && |log| <= |Listed(log)|
    ensures log != [] ==> |Listed(log)| < |all|
  {
    if log != [] {
      var n := |log| - 1;
      FrontUnderway(w, projectID, log);
      UnderwayListsPrefix(w, projectID, log[..n], all);
      OffsetIsListed(log[..n]);
      assert Serves(w.search(n, Offset(log[..n])), all, Offset(log[..n]));
      PrefixMore(all, Listed(log[..n]), log[n].resp.keys);
      assert !Last(log, n);
    }
  }

  /** Over a stable list, a completed run has listed exactly the list, in order, in at most one search an
      issue, and one if there is none; no run, completed or not, makes more. */
  lemma CompletedListsAll(w: World, projectID: int, log: seq<Page>, all: seq<string>)
    requires StableList(w, all) && Done(w, projectID, log)
    ensures Listed(log) == all
    ensures |log| <= |all| || |log| == 1
  {
    var n := |log| - 1;
    FrontUnderway(w, projectID, log);
    UnderwayListsPrefix(w, projectID, log[..n], all);
    OffsetIsListed(log[..n]);
    assert Serves(w.search(n, Offset(log[..n])), all, Offset(log[..n]));
    PrefixMore(all, Listed(log[..n]), log[n].resp.keys);
  }

  // ---------- full pages ----------

  const PAGE_SIZE: nat := 50

  function FullSize(left: nat): nat {
    if left >= PAGE_SIZE then PAGE_SIZE else left
  }

  /** The server fills its pages: 50 issues each while there are that many left. */
  ghost predicate FullPages(w: World, all: seq<string>) {
    && StableList(w, all)
    && forall k, startAt: nat :: startAt <= |all| ==>
         |w.search(k, startAt).value.keys| == FullSize(|all| - startAt)
  }

  lemma {:induction false} UnderwayFullPages(w: World, projectID: int, log: seq<Page>, all: seq<string>)
    requires FullPages(w, all) && Underway(w, projectID, log)
    ensures Offset(log) == PAGE_SIZE * |log|
    ensures log != [] ==> PAGE_SIZE * |log| < |all|
  {
    if log != [] {
      var n := |log| - 1;
      FrontUnderway(w, projectID, log);
      UnderwayFullPages(w, projectID, log[..n], all);
      UnderwayListsPrefix(w, projectID, log, all);
      OffsetIsListed(log);
      assert Serves(w.search(n, Offset(log[..n])), all, Offset(log[..n]));
      assert |w.search(n, Offset(log[..n])).value.keys| == FullSize(|all| - Offset(log[..n]));
    }
  }

  /** A list of n issues served in full pages takes max(1, n / 50 rounded up) searches. */
  lemma FullPagesCount(w: World, projectID: int, log: seq<Page>, all: seq<string>)
    requires FullPages(w, all) && Done(w, projectID, log)
    ensures |log| == if |all| == 0 then 1 else (|all| + PAGE_SIZE - 1) / PAGE_SIZE
  {
    var n := |log| - 1;
    FrontUnderway(w, projectID, log);
    UnderwayFullPages(w, projectID, log[..n], all);
    CompletedListsAll(w, projectID, log, all);
    OffsetIsListed(log);
    assert Serves(w.search(n, Offset(log[..n])), all, Offset(log[..n]));
    assert |w.search(n, Offset(log[..n])).value.keys| == FullSize(|all| - Offset(log[..n]));
  }

  // ---------- no progress ----------

  /** Jira answers by startAt alone. */
  ghost predicate Steady(w: World) {
    forall k, startAt :: w.search(k, startAt) == w.search(0, startAt)
  }

  lemma AnswerAt(w: World, projectID: int, log: seq<Page>, i: nat)
    requires i < |log| && (Underway(w, projectID, log) || Done(w, projectID, log))
    ensures w.search(i, Offset(log[..i])) == Some(log[i].resp)
  {
    assert PageDone(w, projectID, log, i);
  }

  /** An empty page short of the total is asked for again and again. */
  lemma {:induction false} EmptyPageNeverPassed(w: World, projectID: int, log: seq<Page>, i: nat)
    requires Steady(w) && Underway(w, projectID, log)
    requires i < |log| && log[i].resp.keys == []
    ensures Offset(log) == Offset(log[..i])
    decreases |log|
  {
    var n := |log| - 1;
    if i < n {
      var front := log[..n];
      FrontUnderway(w, projectID, log);
      EmptyPageNeverPassed(w, projectID, front, i);
      assert front[..i] == log[..i];
      AnswerAt(w, projectID, log, i);
      assert w.search(i, Offset(log[..i])) == w.search(n, Offset(log[..i]));
    }
  }

  /** So a run over a steady server completes only if no page before its last is empty. */
  lemma CompletedHasNoEmptyPage(w: World, projectID: int, log: seq<Page>, i: nat)
    requires Steady(w) && Done(w, projectID, log) && i < |log| - 1
    ensures log[i].resp.keys != []
  {
    var n := |log| - 1;
    var front := log[..n];
    FrontUnderway(w, projectID, log);
    AnswerAt(w, projectID, log, i);
    assert front[..i] == log[..i];
    var iLast, nLast := Last(log, i), Last(log, n);
    var again := w.search(n, Offset(log[..i]));
    if front[i].resp.keys == [] {
      EmptyPageNeverPassed(w, projectID, front, i);
    }
  }

  /** A server that answers every search with an empty page and a total of one. */
  function EmptyAnswers(): World {
    World(Parsers(s => ParsedInt(0, true), s => None, s => None),
          (k, startAt) => Some(SearchResponse([], 1)), (k, key) => None, 1, 0)
  }

  /** Against it a run goes on for any number of pages: only the deadline ends it. */
  lemma {:induction false} NoProgressForever(n: nat) returns (log: seq<Page>)
    ensures |log| == n && Underway(EmptyAnswers(), 0, log) && Offset(log) == 0
  {
    if n == 0 {
      log := [];
    } else {
      var before := NoProgressForever(n - 1);
      UnderwayMore(EmptyAnswers(), 0, before, Page(SearchResponse([], 1), []));
      log := before + [Page(SearchResponse([], 1), [])];
    }
  }

  /** No answer reports a total above `most`. */
  ghost predicate TotalsUpTo(w: World, most: nat) {
    forall k, startAt :: w.search(k, startAt).Some? ==> w.search(k, startAt).value.total <= most
  }

  /** No run gets beyond some number of pages without ending. */
  ghost predicate PagesBounded(w: World, projectID: int) {
    exists n: nat :: NoLongerThan(w, projectID, n)
  }

  ghost predicate NoLongerThan(w: World, projectID: int, n: nat) {
    forall log :: Underway(w, projectID, log) ==> |log| <= n
  }

  predicate EndsEmpty(log: seq<Page>) {
    log != [] && log[|log| - 1].resp.keys == []
  }

  /** No run meets an empty page and goes on. */
  ghost predicate NoRunStalls(w: World, projectID: int) {
    forall log :: Underway(w, projectID, log) ==> !EndsEmpty(log)
  }

  /** A steady server that has sent an empty page sends it again and again. */
  lemma {:induction false} StalledRunGoesOn(w: World, projectID: int, log: seq<Page>, n: nat) returns (more: seq<Page>)
    requires Steady(w) && Underway(w, projectID, log) && EndsEmpty(log)
    ensures Underway(w, projectID, more) && EndsEmpty(more) && |more| == |log| + n
  {
    more := log;
    if n > 0 {
      more := StalledRunGoesOn(w, projectID, log, n - 1);
      var last := more[|more| - 1];
      FrontUnderway(w, projectID, more);
      var front := more[..|more| - 1];
      assert w.search(|more|, Offset(front)) == w.search(0, Offset(front)) == w.search(|more| - 1, Offset(front));
      UnderwayMore(w, projectID, more, Page(last.resp, []));
      more := more + [Page(last.resp, [])];
    }
  }

  lemma {:induction false} PagesAdvance(w: World, projectID: int, log: seq<Page>)
    requires NoRunStalls(w, projectID) && Underway(w, projectID, log)
    ensures |log| <= Offset(log)
  {
    if log != [] {
      FrontUnderway(w, projectID, log);
      PagesAdvance(w, projectID, log[..|log| - 1]);
      assert !EndsEmpty(log);
    }
  }

  /** The exact condition for runs to end by themselves, for every server that answers by startAt alone and
      whose totals stay under some number: no run is sent an empty page short of its total. */
  lemma PagesBoundedIff(w: World, projectID: int, most: nat)
    requires Steady(w) && TotalsUpTo(w, most)
    ensures PagesBounded(w, projectID) <==> NoRunStalls(w, projectID)
  {
    if NoRunStalls(w, projectID) {
      forall log | Underway(w, projectID, log)
        ensures |log| <= most
      {
        if log != [] {
          PagesAdvance(w, projectID, log);
          FrontUnderway(w, projectID, log);
          assert !Last(log, |log| - 1);
          assert w.search(|log| - 1, Offset(log[..|log| - 1])).value.total <= most;
        }
      }
      assert NoLongerThan(w, projectID, most);
    } else {
      var log :| Underway(w, projectID, log) && EndsEmpty(log);
      forall n: nat
        ensures !NoLongerThan(w, projectID, n)
      {
        var more := StalledRunGoesOn(w, projectID, log, n);
      }
    }
  }

  /** A server of non-empty pages whose total keeps ahead of what it has listed. */
  function GrowingAnswers(): World {
    World(Parsers(s => ParsedInt(0, true), s => None, s => None),
          (k, startAt) => Some(SearchResponse(["K-1"], startAt + 2)), (k, key) => None, 1, 0)
  }

  /** Bounded totals are needed too: against this server, steady and without an empty page, a run goes on
      for any number of pages. */
  lemma {:induction false} GrowingTotalForever(n: nat) returns (log: seq<Page>)
    ensures |log| == n && Underway(GrowingAnswers(), 0, log) && Offset(log) == n
  {
    if n == 0 {
      log := [];
    } else {
      var before := GrowingTotalForever(n - 1);
      var page := Page(SearchResponse(["K-1"], n + 1), []);
      NothingFetched(n - 1);
      UnderwayMore(GrowingAnswers(), 0, before, page);
      log := before + [page];
    }
  }

  lemma NothingFetched(k: nat)
    ensures Fetches(GrowingAnswers(), k, 0, ["K-1"]) == []
  {
    var c := PageConfig(GrowingAnswers(), k, 0, ["K-1"]);
    var task := P.Task("K-1", 0);
    assert c.page == [task] && [task][..0] == [] && c.process(task) == Process(GrowingAnswers(), k, task) == P.Failed;
    assert F.Successes(c, [task]) == F.Successes(c, []);
  }

  // ---------- end to end ----------

  /** A snapshot of Jira: a stable list, and for each key one fixed outcome of fetching it. */
  ghost predicate Snapshot(w: World, all: seq<string>) {
    StableList(w, all) && forall k, key :: w.fetch(k, key) == w.fetch(0, key)
  }

  /** The issues of the list that can be fetched, in the order of the list. */
  function Fetchable(w: World, projectID: int, all: seq<string>): seq<ProcessedIssue> {
    Fetches(w, 0, projectID, all)
  }

  lemma {:induction false} SameProcessor(c: P.Config, d: P.Config, tasks: seq<P.Task>)
    requires forall t :: c.process(t) == d.process(t)
    ensures F.Successes(c, tasks) == F.Successes(d, tasks)
  {
    if tasks != [] {
      SameProcessor(c, d, tasks[..|tasks| - 1]);
    }
  }

  lemma FetchesConcat(w: World, k: nat, projectID: int, all: seq<string>, keys: seq<string>)
    requires forall key :: w.fetch(k, key) == w.fetch(0, key)
    ensures Fetches(w, 0, projectID, all + keys) == Fetches(w, 0, projectID, all) + Fetches(w, k, projectID, keys)
  {
    var both, front, back := PageConfig(w, 0, projectID, all + keys), PageConfig(w, 0, projectID, all), PageConfig(w, k, projectID, keys);
    assert both.page == front.page + back.page;
    F.SuccessesConcat(both, front.page, back.page);
    SameProcessor(both, front, front.page);
    forall t
      ensures both.process(t) == back.process(t)
    {
      assert Process(w, 0, t) == Process(w, k, t);
    }
    SameProcessor(both, back, back.page);
  }

  /** All committed issues, in commit order. */
  function CommittedIssues(log: seq<Page>): seq<ProcessedIssue> {
    if log == [] then [] else CommittedIssues(log[..|log| - 1]) + log[|log| - 1].batch
  }

  /** What is committed is exactly what is listed and can be fetched. */
  lemma {:induction false} CommitsListed(w: World, projectID: int, log: seq<Page>, all: seq<string>)
    requires Snapshot(w, all) && (Underway(w, projectID, log) || Done(w, projectID, log))
    ensures multiset(CommittedIssues(log)) == multiset(Fetchable(w, projectID, Listed(log)))
    ensures |CommittedIssues(log)| == Committed(log)
  {
    if log != [] {
      var n := |log| - 1;
      FrontUnderway(w, projectID, log);
      CommitsListed(w, projectID, log[..n], all);
      FetchesConcat(w, n, projectID, Listed(log[..n]), log[n].resp.keys);
    }
  }

  lemma BundlesConcat(ps: Parsers, items: seq<ProcessedIssue>, more: seq<ProcessedIssue>)
    requires Mappable(ps, items) && Mappable(ps, more)
    ensures Mappable(ps, items + more) && Bundles(ps, items + more) == Bundles(ps, items) + Bundles(ps, more)
  {
  }

  /** The bundles of the committed pages are those of the committed issues. */
  lemma {:induction false} FlattenCommitted(ps: Parsers, log: seq<Page>)
    requires AllMappable(ps, log)
    ensures Mappable(ps, CommittedIssues(log))
    ensures Flatten(PageBundles(ps, log)) == Bundles(ps, CommittedIssues(log))
  {
    if log != [] {
      var n := |log| - 1;
      FlattenCommitted(ps, log[..n]);
      PageBundlesMore(ps, log[..n], log[n]);
      assert log[..n] + [log[n]] == log;
      FlattenSnoc(PageBundles(ps, log[..n]), Bundles(ps, log[n].batch));
      BundlesConcat(ps, CommittedIssues(log[..n]), log[n].batch);
    }
  }

  /** Items that map to one issue id map to one content. */
  ghost predicate OneContentPerID(ps: Parsers, items: seq<ProcessedIssue>) {
    forall a, b | a in items && b in items && BundleOf(ps, a).Some? && BundleOf(ps, b).Some? ::
      var c, d := BundleOf(ps, a).value, BundleOf(ps, b).value;
      c.row.id == d.row.id ==> c.row == d.row && multiset(c.changes) == multiset(d.changes)
  }

  /** Some item is about the issue. */
  ghost predicate About(ps: Parsers, items: seq<ProcessedIssue>, issueID: int) {
    exists a :: a in items && BundleOf(ps, a).Some? && BundleOf(ps, a).value.row.id == issueID
  }

  lemma BundleMembers(ps: Parsers, items: seq<ProcessedIssue>)
    requires Mappable(ps, items)
    ensures forall b :: b in Bundles(ps, items) ==> exists a :: a in items && BundleOf(ps, a) == Some(b)
    ensures forall a :: a in items ==> BundleOf(ps, a).Some? && BundleOf(ps, a).value in Bundles(ps, items)
    ensures OneContentPerID(ps, items) ==> Agreeing(Bundles(ps, items))
    ensures forall id :: Touches(Bundles(ps, items), id) <==> About(ps, items, id)
  {
    forall a | a in items
      ensures BundleOf(ps, a).Some? && BundleOf(ps, a).value in Bundles(ps, items)
    {
      var i :| 0 <= i < |items| && items[i] == a;
      assert Bundles(ps, items)[i] == BundleOf(ps, a).value;
    }
    forall b | b in Bundles(ps, items)
      ensures exists a :: a in items && BundleOf(ps, a) == Some(b)
    {
      var i :| 0 <= i < |items| && Bundles(ps, items)[i] == b;
      assert items[i] in items;
    }
  }

  /** The tables hold exactly what these items say, and everything about other issues is as before. */
  ghost predicate Mirrors(ps: Parsers, items: seq<ProcessedIssue>, t: Tables, t': Tables) {
    && (forall a :: a in items ==> BundleOf(ps, a).Some? && Settled(t', BundleOf(ps, a).value))
    && (forall id :: !About(ps, items, id) ==>
          && (id in t'.issues <==> id in t.issues) && (id in t.issues ==> t'.issues[id] == t.issues[id])
          && ChangesOf(t', id) == ChangesOf(t, id))
    && t'.projects == t.projects
    && (forall id :: id in t.authors ==> id in t'.authors && t'.authors[id] == t.authors[id])
    && (forall id :: id in t'.authors && id !in t.authors ==> NamedBy(items, id, t'.authors[id]))
  }

  /** The name is one that some item gives the identifier first. */
  ghost predicate NamedBy(items: seq<ProcessedIssue>, id: int, name: string) {
    exists a :: a in items && FirstCalled(a.authors, id, name)
  }

  lemma LeavesMirrors(ps: Parsers, t: Tables, log: seq<Page>, t': Tables)
    requires Leaves(ps, t, log, t') && OneContentPerID(ps, CommittedIssues(log))
    ensures Mirrors(ps, CommittedIssues(log), t, t')
  {
    var items := CommittedIssues(log);
    FlattenCommitted(ps, log);
    var bs := Bundles(ps, items);
    BundleMembers(ps, items);
    PagesAreOneBatch(t, PageBundles(ps, log));
    ApplyAllSettles(t, bs);
    ApplyAllFrame(t, bs);
    forall id | !About(ps, items, id)
      ensures id in t'.issues <==> id in t.issues
      ensures id in t.issues ==> t'.issues[id] == t.issues[id]
      ensures ChangesOf(t', id) == ChangesOf(t, id)
    {
      assert !Touches(bs, id);
    }
    forall id | id in t'.authors && id !in t.authors
      ensures NamedBy(items, id, t'.authors[id])
    {
      NewName(ps, items, t, id);
    }
  }

  /** A new author's name is one that some item gives it first. */
  lemma NewName(ps: Parsers, items: seq<ProcessedIssue>, t: Tables, id: int)
    requires Mappable(ps, items) && id !in t.authors && id in ApplyAll(t, Bundles(ps, items)).authors
    ensures NamedBy(items, id, ApplyAll(t, Bundles(ps, items)).authors[id])
  {
    var bs := Bundles(ps, items);
    ApplyAllFrame(t, bs);
    var b :| b in bs && Mentioned(b.authors, id) && ApplyAll(t, bs).authors[id] == FirstName(b.authors, id);
    var i :| 0 <= i < |bs| && bs[i] == b;
    BundleAuthors(ps, items[i]);
    FirstNameCalled(items[i].authors, id);
  }

  lemma BundleAuthors(ps: Parsers, item: ProcessedIssue)
    requires BundleOf(ps, item).Some?
    ensures BundleOf(ps, item).value.authors == MapAuthors(item.authors)
  {
  }

  lemma SameItemsMirror(ps: Parsers, items: seq<ProcessedIssue>, others: seq<ProcessedIssue>)
    requires multiset(items) == multiset(others)
    ensures OneContentPerID(ps, items) <==> OneContentPerID(ps, others)
    ensures forall t, t' :: Mirrors(ps, items, t, t') <==> Mirrors(ps, others, t, t')
  {
    SameElements(items, others);
    forall id
      ensures About(ps, items, id) <==> About(ps, others, id)
    {}
  }

  lemma SameElements(items: seq<ProcessedIssue>, others: seq<ProcessedIssue>)
    requires multiset(items) == multiset(others)
    ensures forall a :: a in items <==> a in others
  {
    forall a
      ensures a in items <==> a in others
    {
      assert a in items <==> a in multiset(items);
      assert a in others <==> a in multiset(others);
    }
  }

  /** A completed run in terms of the items that can be fetched. */
  lemma CompletedMirrors(w: World, projectID: int, syncID: string, run: Run, t: Tables, t': Tables,
                 jobs: R.Jobs, jobs': R.Jobs, all: seq<string>)
    requires Accounts(w, projectID, syncID, run, true, t, t', jobs, jobs')
    requires Snapshot(w, all) && OneContentPerID(w.ps, Fetchable(w, projectID, all))
    ensures Mirrors(w.ps, Fetchable(w, projectID, all), t, t')
    ensures Consistent(t) ==> Consistent(t')
  {
    CompletedListsAll(w, projectID, run.log, all);
    CommitsListed(w, projectID, run.log, all);
    SameItemsMirror(w.ps, CommittedIssues(run.log), Fetchable(w, projectID, all));
    LeavesMirrors(w.ps, t, run.log, t');
    if Consistent(t) {
      PagesKeepConsistent(t, PageBundles(w.ps, run.log));
    }
  }

  /** A failed run in terms of the items of the pages before the failing one. */
  lemma FailedMirrors(w: World, projectID: int, syncID: string, run: Run, t: Tables, t': Tables,
                      jobs: R.Jobs, jobs': R.Jobs, all: seq<string>)
    requires Accounts(w, projectID, syncID, run, false, t, t', jobs, jobs')
    requires Snapshot(w, all) && OneContentPerID(w.ps, Fetchable(w, projectID, Listed(run.log)))
    ensures Listed(run.log) <= all
    ensures Mirrors(w.ps, Fetchable(w, projectID, Listed(run.log)), t, t')
    ensures Consistent(t) ==> Consistent(t')
  {
    UnderwayListsPrefix(w, projectID, run.log, all);
    CommitsListed(w, projectID, run.log, all);
    SameItemsMirror(w.ps, CommittedIssues(run.log), Fetchable(w, projectID, Listed(run.log)));
    LeavesMirrors(w.ps, t, run.log, t');
    if Consistent(t) {
      PagesKeepConsistent(t, PageBundles(w.ps, run.log));
    }
  }

  // ---------- in terms of what Jira answers ----------

  predicate Found(w: World, key: string) {
    w.workers >= 1 && w.fetch(0, key).Some?
  }

  /** The tables hold the issue's mapped row and exactly its mapped status changes, and all its authors. */
  ghost predicate Stored(ps: Parsers, projectID: int, issue: Issue, fields: IssueFields, t: Tables) {
    var row := MapIssueToRaw(ps, issue, projectID, fields);
    && row.Some?
    && row.value.id in t.issues && t.issues[row.value.id] == row.value
    && ChangesOf(t, row.value.id) == multiset(Changes(ps, Histories(issue), row.value.id))
    && forall a :: a in Authors.FirstMentions(Authors.Mentions(issue, fields)) ==> AuthorHash.IdOf(a.name) in t.authors
  }

  /** The tables hold what fetching this key gives. */
  ghost predicate StoredKey(w: World, projectID: int, key: string, t: Tables)
    requires Found(w, key)
  {
    Stored(w.ps, projectID, w.fetch(0, key).value.0, w.fetch(0, key).value.1, t)
  }

  /** One of the keys is that of the issue with this id. */
  ghost predicate Concerned(w: World, keys: seq<string>, id: int) {
    exists key :: key in keys && Found(w, key) && w.ps.parseInt(w.fetch(0, key).value.0.id) == ParsedInt(id, true)
  }

  /** The name is the display name that some issue of these keys gives the identifier first. */
  ghost predicate Introduces(w: World, keys: seq<string>, id: int, name: string) {
    exists key :: key in keys && Found(w, key) &&
      var found := w.fetch(0, key).value;
      FirstCalled(Authors.FirstMentions(Authors.Mentions(found.0, found.1)), id, name)
  }

  /** The tables reflect exactly these keys: every issue that can be fetched is stored as it is in Jira;
      everything about other issues, all projects and all known authors are as before; and a new author has
      a name that one of the issues gives. */
  ghost predicate Reflects(w: World, projectID: int, keys: seq<string>, t: Tables, t': Tables) {
    && (forall key :: key in keys && Found(w, key) ==> StoredKey(w, projectID, key, t'))
    && (forall id :: !Concerned(w, keys, id) ==>
          && (id in t'.issues <==> id in t.issues) && (id in t.issues ==> t'.issues[id] == t.issues[id])
          && ChangesOf(t', id) == ChangesOf(t, id))
    && t'.projects == t.projects
    && (forall id :: id in t.authors ==> id in t'.authors && t'.authors[id] == t.authors[id])
    && (forall id :: id in t'.authors && id !in t.authors ==> Introduces(w, keys, id, t'.authors[id]))
  }

  /** Keys whose issues have one id have the same issue behind them. */
  ghost predicate OneIssuePerID(w: World, projectID: int, keys: seq<string>) {
    forall key, other | key in keys && Found(w, key) && other in keys && Found(w, other) ::
      SameIfSameID(w.ps, projectID, w.fetch(0, key).value, w.fetch(0, other).value)
  }

  predicate SameIfSameID(ps: Parsers, projectID: int, one: (Issue, IssueFields), two: (Issue, IssueFields)) {
    var a, b := MapIssueToRaw(ps, one.0, projectID, one.1), MapIssueToRaw(ps, two.0, projectID, two.1);
    a.Some? && b.Some? && a.value.id == b.value.id ==>
      && a == b
      && multiset(Changes(ps, Histories(one.0), a.value.id)) == multiset(Changes(ps, Histories(two.0), a.value.id))
  }

  /** The item of a found key is among the fetchable ones, and every fetchable item is that of a found key. */
  lemma ItemOfKey(w: World, projectID: int, keys: seq<string>, key: string) returns (item: ProcessedIssue)
    requires key in keys && Found(w, key)
    ensures item in Fetchable(w, projectID, keys) && Carries(item, key, projectID, w.fetch(0, key))
  {
    var from := FetchesExact(w, 0, projectID, keys);
    var i :| 0 <= i < |keys| && keys[i] == key;
    var j :| 0 <= j < |from| && from[j] == i;
    item := Fetchable(w, projectID, keys)[j];
  }

  lemma KeyOfItem(w: World, k: nat, projectID: int, keys: seq<string>, item: ProcessedIssue) returns (key: string)
    requires item in Fetches(w, k, projectID, keys)
    ensures w.workers >= 1 && key in keys && Carries(item, key, projectID, w.fetch(k, key))
  {
    var from := FetchesExact(w, k, projectID, keys);
    var j :| 0 <= j < |from| && Fetches(w, k, projectID, keys)[j] == item;
    key := keys[from[j]];
  }

  lemma OneIssueOneContent(w: World, projectID: int, keys: seq<string>)
    requires OneIssuePerID(w, projectID, keys)
    ensures OneContentPerID(w.ps, Fetchable(w, projectID, keys))
  {
    var items := Fetchable(w, projectID, keys);
    forall a, b | a in items && b in items && BundleOf(w.ps, a).Some? && BundleOf(w.ps, b).Some?
      ensures var c, d := BundleOf(w.ps, a).value, BundleOf(w.ps, b).value;
        c.row.id == d.row.id ==> c.row == d.row && multiset(c.changes) == multiset(d.changes)
    {
      var key := KeyOfItem(w, 0, projectID, keys, a);
      var other := KeyOfItem(w, 0, projectID, keys, b);
      assert SameIfSameID(w.ps, projectID, w.fetch(0, key).value, w.fetch(0, other).value);
    }
  }

  lemma SettledIsStored(ps: Parsers, item: ProcessedIssue, key: string, projectID: int, found: (Issue, IssueFields), t: Tables)
    requires Carries(item, key, projectID, Some(found))
    requires BundleOf(ps, item).Some? && Settled(t, BundleOf(ps, item).value)
    ensures Stored(ps, projectID, found.0, found.1, t)
  {
    var b := BundleOf(ps, item).value;
    forall a | a in item.authors
      ensures AuthorHash.IdOf(a.name) in t.authors
    {
      var i :| 0 <= i < |item.authors| && item.authors[i] == a;
      assert b.authors[i] in b.authors && b.authors[i].id == AuthorHash.IdOf(a.name);
    }
  }

  lemma AboutIsConcerned(w: World, projectID: int, keys: seq<string>, id: int)
    ensures About(w.ps, Fetchable(w, projectID, keys), id) <==> Concerned(w, keys, id)
  {
    if About(w.ps, Fetchable(w, projectID, keys), id) {
      var a :| a in Fetchable(w, projectID, keys) && BundleOf(w.ps, a).Some? && BundleOf(w.ps, a).value.row.id == id;
      var key := KeyOfItem(w, 0, projectID, keys, a);
    }
    if Concerned(w, keys, id) {
      var key :| key in keys && Found(w, key) && w.ps.parseInt(w.fetch(0, key).value.0.id) == ParsedInt(id, true);
      var item := ItemOfKey(w, projectID, keys, key);
      assert BundleOf(w.ps, item).Some? && BundleOf(w.ps, item).value.row.id == id;
    }
  }

  lemma MirrorsReflect(w: World, projectID: int, keys: seq<string>, t: Tables, t': Tables)
    requires Mirrors(w.ps, Fetchable(w, projectID, keys), t, t')
    ensures Reflects(w, projectID, keys, t, t')
  {
    forall key | key in keys && Found(w, key)
      ensures StoredKey(w, projectID, key, t')
    {
      var item := ItemOfKey(w, projectID, keys, key);
      SettledIsStored(w.ps, item, key, projectID, w.fetch(0, key).value, t');
    }
    forall id
      ensures About(w.ps, Fetchable(w, projectID, keys), id) <==> Concerned(w, keys, id)
    {
      AboutIsConcerned(w, projectID, keys, id);
    }
    forall id | id in t'.authors && id !in t.authors
      ensures Introduces(w, keys, id, t'.authors[id])
    {
      var a :| a in Fetchable(w, projectID, keys) && FirstCalled(a.authors, id, t'.authors[id]);
      var key := KeyOfItem(w, 0, projectID, keys, a);
    }
  }

  /** End-to-end refinement: a run over a snapshot that ends Completed leaves the tables reflecting exactly
      the list: every issue that can be fetched with its mapped row and exactly its mapped status changes,
      and every other issue, also one whose fetch failed, as it was; and it breaks no reference. */
  lemma EndToEnd(w: World, projectID: int, syncID: string, run: Run, t: Tables, t': Tables,
                 jobs: R.Jobs, jobs': R.Jobs, all: seq<string>)
    requires Accounts(w, projectID, syncID, run, true, t, t', jobs, jobs')
    requires Snapshot(w, all) && OneIssuePerID(w, projectID, all)
    ensures Reflects(w, projectID, all, t, t')
    ensures Consistent(t) ==> Consistent(t')
  {
    OneIssueOneContent(w, projectID, all);
    CompletedMirrors(w, projectID, syncID, run, t, t', jobs, jobs', all);
    MirrorsReflect(w, projectID, all, t, t');
  }

  /** Prefix durability: a run over a snapshot that ends Failed leaves the tables reflecting exactly the pages
      before the failing one: a prefix of the list. */
  lemma PrefixDurable(w: World, projectID: int, syncID: string, run: Run, t: Tables, t': Tables,
                      jobs: R.Jobs, jobs': R.Jobs, all: seq<string>)
    requires Accounts(w, projectID, syncID, run, false, t, t', jobs, jobs')
    requires Snapshot(w, all) && OneIssuePerID(w, projectID, Listed(run.log))
    ensures Listed(run.log) <= all
    ensures Reflects(w, projectID, Listed(run.log), t, t')
    ensures Consistent(t) ==> Consistent(t')
  {
    OneIssueOneContent(w, projectID, Listed(run.log));
    FailedMirrors(w, projectID, syncID, run, t, t', jobs, jobs', all);
    MirrorsReflect(w, projectID, Listed(run.log), t, t');
  }

  /** The page commits of a completed run, in their order, among those of other jobs. */
  ghost predicate RunsAmong(w: World, projectID: int, run: Run, schedule: seq<L.Commit>, j: nat) {
    && Possible(w, projectID, run, true) && AllMappable(w.ps, run.log)
    && L.Turns(schedule, j) == PageBundles(w.ps, run.log)
  }

  lemma AmongOthersAgreed(w: World, projectID: int, run: Run, schedule: seq<L.Commit>, j: nat, all: seq<string>, a: ProcessedIssue)
    requires RunsAmong(w, projectID, run, schedule, j) && Snapshot(w, all)
    requires OneContentPerID(w.ps, Fetchable(w, projectID, all)) && a in Fetchable(w, projectID, all)
    requires forall b :: L.FromOther(schedule, j, b) ==> !About(w.ps, Fetchable(w, projectID, all), b.row.id)
    ensures BundleOf(w.ps, a).Some?
    ensures BundleOf(w.ps, a).value in Flatten(L.Batches(schedule))
    ensures AgreedUpon(Flatten(L.Batches(schedule)), BundleOf(w.ps, a).value)
  {
    var items, fetchable := CommittedIssues(run.log), Fetchable(w, projectID, all);
    CompletedListsAll(w, projectID, run.log, all);
    CommitsListed(w, projectID, run.log, all);
    SameElements(items, fetchable);
    FlattenCommitted(w.ps, run.log);
    BundleMembers(w.ps, items);
    var own := BundleOf(w.ps, a).value;
    L.CommitsOf(schedule, j, own);
    forall c | c in Flatten(L.Batches(schedule)) && c.row.id == own.row.id
      ensures c.row == own.row && multiset(c.changes) == multiset(own.changes)
    {
      L.CommitsOf(schedule, j, c);
      assert About(w.ps, fetchable, c.row.id);
      var d :| d in items && BundleOf(w.ps, d) == Some(c);
    }
  }

  /** End-to-end refinement among other jobs: whatever page commits of other jobs come between those of a
      completed run, if none of them is about an issue of this run, every issue that can be fetched ends with
      its mapped row and exactly its mapped status changes, and an issue that nobody commits stays as it
      was. */
  lemma EndToEndAmongOthers(w: World, projectID: int, run: Run, schedule: seq<L.Commit>, j: nat, all: seq<string>, t: Tables)
    requires RunsAmong(w, projectID, run, schedule, j) && Snapshot(w, all) && OneIssuePerID(w, projectID, all)
    requires forall b :: L.FromOther(schedule, j, b) ==> !Concerned(w, all, b.row.id)
    ensures var t' := ApplyPages(t, L.Batches(schedule));
      && (forall key :: key in all && Found(w, key) ==> StoredKey(w, projectID, key, t'))
      && (forall id :: !Touches(Flatten(L.Batches(schedule)), id) ==>
            && (id in t'.issues <==> id in t.issues) && (id in t.issues ==> t'.issues[id] == t.issues[id])
            && ChangesOf(t', id) == ChangesOf(t, id))
  {
    var bs := Flatten(L.Batches(schedule));
    PagesAreOneBatch(t, L.Batches(schedule));
    OneIssueOneContent(w, projectID, all);
    forall b | L.FromOther(schedule, j, b)
      ensures !About(w.ps, Fetchable(w, projectID, all), b.row.id)
    {
      AboutIsConcerned(w, projectID, all, b.row.id);
    }
    forall key | key in all && Found(w, key)
      ensures StoredKey(w, projectID, key, ApplyAll(t, bs))
    {
      var a := ItemOfKey(w, projectID, all, key);
      AmongOthersAgreed(w, projectID, run, schedule, j, all, a);
      ApplyAllSettlesOne(t, bs, BundleOf(w.ps, a).value);
      SettledIsStored(w.ps, a, key, projectID, w.fetch(0, key).value, ApplyAll(t, bs));
    }
    ApplyAllFrame(t, bs);
  }

  /** Re-sync: a second completed run over the same contents, listed in whatever order and pages, leaves
      all four tables as the first one left them. */
  lemma ReSyncChangesNothing(w: World, again: World, projectID: int, idA: string, idB: string, runA: Run, runB: Run,
                             t: Tables, t1: Tables, t2: Tables, j: R.Jobs, j1: R.Jobs, k: R.Jobs, k1: R.Jobs,
                             all: seq<string>, relisted: seq<string>)
    requires Accounts(w, projectID, idA, runA, true, t, t1, j, j1) && Snapshot(w, all)
    requires Accounts(again, projectID, idB, runB, true, t1, t2, k, k1) && Snapshot(again, relisted)
    requires again.ps == w.ps
    requires multiset(Fetchable(again, projectID, relisted)) == multiset(Fetchable(w, projectID, all))
    requires OneContentPerID(w.ps, Fetchable(w, projectID, all))
    ensures t2 == t1
  {
    CompletedListsAll(w, projectID, runA.log, all);
    CompletedListsAll(again, projectID, runB.log, relisted);
    CommitsListed(w, projectID, runA.log, all);
    CommitsListed(again, projectID, runB.log, relisted);
    FirstItemsAgain(w.ps, runA.log, runB.log, Fetchable(w, projectID, all), t, t1, t2);
  }

  lemma FirstItemsAgain(ps: Parsers, log: seq<Page>, again: seq<Page>, items: seq<ProcessedIssue>,
                        t: Tables, t1: Tables, t2: Tables)
    requires Leaves(ps, t, log, t1) && Leaves(ps, t1, again, t2)
    requires multiset(CommittedIssues(log)) == multiset(items) == multiset(CommittedIssues(again))
    requires OneContentPerID(ps, items)
    ensures t2 == t1
  {
    SameItemsMirror(ps, items, CommittedIssues(log));
    SameElements(CommittedIssues(again), CommittedIssues(log));
    LeavesMirrors(ps, t, log, t1);
    FlattenCommitted(ps, again);
    PagesAreOneBatch(t1, PageBundles(ps, again));
    BundleMembers(ps, CommittedIssues(again));
    L.SettledAreFixed(t1, Bundles(ps, CommittedIssues(again)));
  }

  // ---------- completion ----------

  /** The database can take the issue: its id parses, its numbers fit their columns, and its author
      references are named, or an author with the identifier 0 stands in. */
  ghost predicate Storable(ps: Parsers, projectID: int, t: Tables, issue: Issue, fields: IssueFields) {
    var row := MapIssueToRaw(ps, issue, projectID, fields);
    && row.Some? && Int4(row.value.id) && (row.value.timeSpent.Some? ==> Int4(row.value.timeSpent.value))
    && (Authors.ReferencesNamed(ps, issue, fields) || 0 in t.authors || 0 in Inserted(issue, fields))
  }

  ghost predicate AllStorable(w: World, projectID: int, t: Tables, keys: seq<string>) {
    && projectID in t.projects
    && forall key :: key in keys && Found(w, key) ==>
         Storable(w.ps, projectID, t, w.fetch(0, key).value.0, w.fetch(0, key).value.1)
  }

  /** The database of a run never loses a project or an author. */
  ghost predicate Extends(t: Tables, u: Tables) {
    u.projects == t.projects && forall id :: id in t.authors ==> id in u.authors
  }

  lemma StorableItemAllowed(w: World, projectID: int, t: Tables, u: Tables, item: ProcessedIssue, key: string)
    requires StorableAs(w, projectID, t, item, key) && projectID in t.projects && Extends(t, u)
    ensures AcceptableItem(w.ps, u, item)
  {
    AcceptedIff(w.ps, item.issue, item.fields, projectID, u);
    assert BundleOf(w.ps, item) == Some(RowsOf(w.ps, item.issue, item.fields, projectID));
  }

  /** The item is that of some key whose issue can be stored. */
  ghost predicate FromStorableKey(w: World, projectID: int, t: Tables, item: ProcessedIssue) {
    exists key :: StorableAs(w, projectID, t, item, key)
  }

  ghost predicate StorableAs(w: World, projectID: int, t: Tables, item: ProcessedIssue, key: string) {
    && Carries(item, key, projectID, w.fetch(0, key))
    && Storable(w.ps, projectID, t, w.fetch(0, key).value.0, w.fetch(0, key).value.1)
  }

  ghost predicate FromStorable(w: World, projectID: int, t: Tables, batch: seq<ProcessedIssue>) {
    forall i :: 0 <= i < |batch| ==> FromStorableKey(w, projectID, t, batch[i])
  }

  lemma LastAcceptable(w: World, projectID: int, t: Tables, u: Tables, front: seq<Bundle>, item: ProcessedIssue)
    requires projectID in t.projects && Extends(t, u) && FromStorableKey(w, projectID, t, item)
    ensures AcceptableItem(w.ps, ApplyAll(u, front), item)
  {
    ApplyAllFrame(u, front);
    assert Extends(t, ApplyAll(u, front));
    var key :| StorableAs(w, projectID, t, item, key);
    StorableItemAllowed(w, projectID, t, ApplyAll(u, front), item, key);
  }

  lemma {:induction false} StorableBatchAcceptable(w: World, projectID: int, t: Tables, u: Tables, batch: seq<ProcessedIssue>)
    requires projectID in t.projects && Extends(t, u) && FromStorable(w, projectID, t, batch)
    ensures Acceptable(w.ps, u, batch)
  {
    if batch != [] {
      var n := |batch| - 1;
      StorableBatchAcceptable(w, projectID, t, u, batch[..n]);
      LastAcceptable(w, projectID, t, u, Bundles(w.ps, batch[..n]), batch[n]);
      AcceptableMore(w.ps, u, batch);
    }
  }

  lemma AcceptableMore(ps: Parsers, u: Tables, batch: seq<ProcessedIssue>)
    requires batch != [] && Acceptable(ps, u, batch[..|batch| - 1])
    requires AcceptableItem(ps, ApplyAll(u, Bundles(ps, batch[..|batch| - 1])), batch[|batch| - 1])
    ensures Acceptable(ps, u, batch)
  {
    var front, last := batch[..|batch| - 1], batch[|batch| - 1];
    assert batch == front + [last];
    BundlesConcat(ps, front, [last]);
    assert Bundles(ps, [last]) == [BundleOf(ps, last).value];
    AllowedOneMore(u, Bundles(ps, front), BundleOf(ps, last).value);
  }

  /** The batch of a failing page over a snapshot comes from keys of the list. */
  lemma FailingFromKeys(w: World, projectID: int, run: Run, t: Tables, all: seq<string>)
    requires Possible(w, projectID, run, false) && Snapshot(w, all) && AllStorable(w, projectID, t, all)
    ensures FromStorable(w, projectID, t, run.failing)
  {
    if run.failing != [] {
      var k := |run.log|;
      UnderwayListsPrefix(w, projectID, run.log, all);
      OffsetIsListed(run.log);
      assert Serves(w.search(k, Offset(run.log)), all, Offset(run.log));
      var keys := w.search(k, Offset(run.log)).value.keys;
      forall i | 0 <= i < |run.failing|
        ensures FromStorableKey(w, projectID, t, run.failing[i])
      {
        var item := run.failing[i];
        assert item in multiset(run.failing);
        assert item in multiset(Fetches(w, k, projectID, keys));
        var key := KeyOfItem(w, k, projectID, keys, item);
        assert key in all && Found(w, key);
        assert StorableAs(w, projectID, t, item, key);
      }
    }
  }

  lemma LeavesExtends(ps: Parsers, t: Tables, log: seq<Page>, t': Tables)
    requires Leaves(ps, t, log, t')
    ensures Extends(t, t')
  {
    PagesAreOneBatch(t, PageBundles(ps, log));
    ApplyAllFrame(t, Flatten(PageBundles(ps, log)));
  }

  /** Completion: over a snapshot whose issues can all be stored, with a worker, enough searches before the
      deadline, no cancellation and no fault of the database, nothing hinders a run. */
  lemma NothingHinders(w: World, projectID: int, run: Run, budget: nat, t: Tables, t': Tables, all: seq<string>)
    requires Possible(w, projectID, run, false) && Leaves(w.ps, t, run.log, t')
    requires Snapshot(w, all) && AllStorable(w, projectID, t, all)
    requires w.workers >= 1 && budget >= 1 && budget >= |all|
    ensures !Hindered(w, run, budget, false, false, t')
  {
    UnderwayListsPrefix(w, projectID, run.log, all);
    OffsetIsListed(run.log);
    assert Serves(w.search(|run.log|, Offset(run.log)), all, Offset(run.log));
    LeavesExtends(w.ps, t, run.log, t');
    FailingFromKeys(w, projectID, run, t, all);
    StorableBatchAcceptable(w, projectID, t, t', run.failing);
  }

  /** A run that fails only when something hinders it completes when nothing does. */
  lemma RunCompletes(w: World, projectID: int, syncID: string, run: Run, completed: bool, budget: nat,
                     t: Tables, t': Tables, jobs: R.Jobs, jobs': R.Jobs, all: seq<string>)
    requires Accounts(w, projectID, syncID, run, completed, t, t', jobs, jobs')
    requires !completed ==> Hindered(w, run, budget, false, false, t')
    requires Snapshot(w, all) && AllStorable(w, projectID, t, all)
    requires w.workers >= 1 && budget >= 1 && budget >= |all|
    ensures completed
  {
    if !completed {
      NothingHinders(w, projectID, run, budget, t, t', all);
    }
  }

  // ---------- progress ----------

  /** How many of the keys cannot be fetched. */
  function Unfetchable(w: World, keys: seq<string>): nat {
    if keys == [] then 0
    else Unfetchable(w, keys[..|keys| - 1]) + (if Found(w, keys[|keys| - 1]) then 0 else 1)
  }

  lemma {:induction false} FetchableCount(w: World, projectID: int, keys: seq<string>)
    requires forall k, key :: w.fetch(k, key) == w.fetch(0, key)
    ensures |Fetchable(w, projectID, keys)| + Unfetchable(w, keys) == |keys|
  {
    if keys == [] {
    } else {
      var n := |keys| - 1;
      FetchableCount(w, projectID, keys[..n]);
      FetchesConcat(w, 0, projectID, keys[..n], [keys[n]]);
      assert keys[..n] + [keys[n]] == keys;
      var c := PageConfig(w, 0, projectID, [keys[n]]);
      var task := P.Task(keys[n], projectID);
      assert c.page == [task] && [task][..0] == [] && c.process(task) == Process(w, 0, task);
      assert |F.Successes(c, [task])| == if w.fetch(0, keys[n]) == None then 0 else 1;
    }
  }

  lemma {:induction false} FetchesAtMost(c: P.Config, tasks: seq<P.Task>)
    ensures |F.Successes(c, tasks)| <= |tasks|
  {
    if tasks != [] {
      FetchesAtMost(c, tasks[..|tasks| - 1]);
    }
  }

  lemma {:induction false} CommittedAtMostListed(w: World, projectID: int, log: seq<Page>)
    requires Underway(w, projectID, log) || Done(w, projectID, log)
    ensures Committed(log) <= Offset(log)
  {
    if log != [] {
      var n := |log| - 1;
      FrontUnderway(w, projectID, log);
      CommittedAtMostListed(w, projectID, log[..n]);
      var c := PageConfig(w, n, projectID, log[n].resp.keys);
      FetchesAtMost(c, c.page);
      assert |log[n].batch| == |multiset(log[n].batch)| == |multiset(Fetches(w, n, projectID, log[n].resp.keys))|;
    }
  }

  lemma SubMultisetSize(a: seq<ProcessedIssue>, b: seq<ProcessedIssue>)
    requires multiset(a) <= multiset(b)
    ensures |a| <= |b|
  {
    assert multiset(b) == multiset(a) + (multiset(b) - multiset(a));
    assert |multiset(a)| == |a| && |multiset(b)| == |b|;
  }

  /** A run over a stable list never counts more issues than the list has. */
  lemma CountedAtMostTotal(w: World, projectID: int, run: Run, completed: bool, all: seq<string>)
    requires StableList(w, all) && Possible(w, projectID, run, completed)
    ensures Committed(run.log) + run.extra <= |all|
    ensures run.total.Some? ==> run.total == Some(|all|)
  {
    var log := run.log;
    CommittedAtMostListed(w, projectID, log);
    OffsetIsListed(log);
    assert Serves(w.search(0, 0), all, 0);
    if completed {
      CompletedListsAll(w, projectID, log, all);
    } else {
      UnderwayListsPrefix(w, projectID, log, all);
      if run.failing != [] {
        assert Serves(w.search(|log|, Offset(log)), all, Offset(log));
        var c := PageConfig(w, |log|, projectID, w.search(|log|, Offset(log)).value.keys);
        FetchesAtMost(c, c.page);
        SubMultisetSize(run.failing, F.Successes(c, c.page));
      }
    }
  }

  /** The registry record after the total is announced and m issues are counted. */
  lemma ProgressRecord(jobs: R.Jobs, syncID: string, total: nat, m: nat)
    requires syncID in jobs.byID && jobs.byID[syncID].processed == 0
    requires total < R.UINT64 && m < R.UINT64
    ensures var jobs' := Progress(jobs, syncID, Some(total), m);
      syncID in jobs'.byID && jobs'.byID[syncID] == jobs.byID[syncID].(total := total, processed := m)
  {
    var announced := R.SetTotal(jobs, syncID, total);
    R.IncrByAdds(announced, syncID, m);
  }

  /** The job has counted m issues, and no more than its total. */
  predicate Within(jobs: R.Jobs, syncID: string, m: nat) {
    syncID in jobs.byID && jobs.byID[syncID].processed == m <= jobs.byID[syncID].total
  }

  /** While the run counts from none to n issues, the count never passes the total. */
  ghost predicate NeverOver(jobs: R.Jobs, syncID: string, total: Option<int>, n: nat) {
    forall m :: 0 <= m <= n ==> Within(Progress(jobs, syncID, total, m), syncID, m)
  }

  /** Progress accounting for a fresh job over a snapshot, once the total is announced: at every moment of
      the run Processed is at most Total; at the end it counts the committed issues, and on Completed
      that is the total less the failed fetches; on Failed it exceeds them by at most the batch of the
      failing page. */
  lemma ProgressAccounting(w: World, projectID: int, run: Run, completed: bool, syncID: string,
                           jobs: R.Jobs, jobs': R.Jobs, all: seq<string>)
    requires Possible(w, projectID, run, completed) && Snapshot(w, all) && |all| < R.UINT64
    requires jobs' == Progress(jobs, syncID, run.total, Committed(run.log) + run.extra)
    requires syncID in jobs.byID && jobs.byID[syncID].processed == 0
    requires run.total.Some?
    ensures syncID in jobs'.byID && jobs'.byID[syncID].total == |all|
    ensures jobs'.byID[syncID].processed <= jobs'.byID[syncID].total
    ensures completed ==> jobs'.byID[syncID].processed == Committed(run.log) == |all| - Unfetchable(w, all)
    ensures Committed(run.log) <= jobs'.byID[syncID].processed <= Committed(run.log) + |run.failing|
    ensures NeverOver(jobs, syncID, run.total, jobs'.byID[syncID].processed)
  {
    AccountedRecord(w, projectID, syncID, run, completed, jobs, jobs', all);
    AccountedCount(w, projectID, run, completed, all);
  }

  lemma AccountedCount(w: World, projectID: int, run: Run, completed: bool, all: seq<string>)
    requires Possible(w, projectID, run, completed) && Snapshot(w, all)
    ensures run.extra <= |run.failing|
    ensures completed ==> run.extra == 0 && Committed(run.log) == |all| - Unfetchable(w, all)
  {
    if completed {
      CompletedCount(w, projectID, run.log, all);
    }
  }

  lemma AccountedRecord(w: World, projectID: int, syncID: string, run: Run, completed: bool,
                        jobs: R.Jobs, jobs': R.Jobs, all: seq<string>)
    requires Possible(w, projectID, run, completed) && StableList(w, all) && |all| < R.UINT64
    requires jobs' == Progress(jobs, syncID, run.total, Committed(run.log) + run.extra)
    requires syncID in jobs.byID && jobs.byID[syncID].processed == 0
    requires run.total.Some?
    ensures syncID in jobs'.byID && jobs'.byID[syncID].total == |all|
    ensures jobs'.byID[syncID].processed == Committed(run.log) + run.extra <= |all|
    ensures NeverOver(jobs, syncID, run.total, Committed(run.log) + run.extra)
  {
    var n := Committed(run.log) + run.extra;
    CountedAtMostTotal(w, projectID, run, completed, all);
    ProgressRecord(jobs, syncID, |all|, n);
    AlwaysWithin(jobs, syncID, |all|, n);
  }

  lemma AlwaysWithin(jobs: R.Jobs, syncID: string, total: nat, n: nat)
    requires syncID in jobs.byID && jobs.byID[syncID].processed == 0
    requires n <= total < R.UINT64
    ensures NeverOver(jobs, syncID, Some(total), n)
  {
    forall m | 0 <= m <= n
      ensures Within(Progress(jobs, syncID, Some(total), m), syncID, m)
    {
      ProgressRecord(jobs, syncID, total, m);
    }
  }

  lemma CompletedCount(w: World, projectID: int, log: seq<Page>, all: seq<string>)
    requires Snapshot(w, all) && Done(w, projectID, log)
    ensures Committed(log) == |all| - Unfetchable(w, all)
  {
    CompletedListsAll(w, projectID, log, all);
    CommitsListed(w, projectID, log, all);
    FetchableCount(w, projectID, all);
    assert |multiset(CommittedIssues(log))| == |multiset(Fetchable(w, projectID, all))|;
  }
}
