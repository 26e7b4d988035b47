/** Laws of the page effect that the sync relies on: replaying is harmless, and delivery order and
    concurrent jobs do not matter. */
module SyncLaws {
  import opened Wrappers
  import opened Mapper
  import opened RawStore
  import opened PageEffect

  // ---------- re-sync ----------

  lemma {:induction false} SettledAreFixed(t: Tables, again: seq<Bundle>)
    requires forall b :: b in again ==> Settled(t, b)
    ensures ApplyAll(t, again) == t
  {
    if again != [] {
      var n := |again| - 1;
      SettledAreFixed(t, again[..n]);
      SettledIsFixed(t, again[n]);
    }
  }

  /** A batch whose replay, in any order, with any repetitions or omissions, changes nothing. */
  ghost predicate ReplaySafe(t: Tables, bs: seq<Bundle>) {
    forall again: seq<Bundle> :: (forall b :: b in again ==> b in bs) ==>
      ApplyAll(ApplyAll(t, bs), again) == ApplyAll(t, bs)
  }

  /** Re-sync is idempotent, whatever the order and however often an issue comes back, exactly when the
      batch does not carry two different contents for one issue. */
  lemma ReplaySafeIffAgreeing(t: Tables, bs: seq<Bundle>)
    ensures ReplaySafe(t, bs) <==> Agreeing(bs)
  {
    var after := ApplyAll(t, bs);
    if Agreeing(bs) {
      forall again: seq<Bundle> | forall b :: b in again ==> b in bs
        ensures ApplyAll(after, again) == after
      {
        ApplyAllSettles(t, bs);
        SettledAreFixed(after, again);
      }
    }
    if ReplaySafe(t, bs) {
      forall b | b in bs
        ensures Settled(after, b)
      {
        assert ApplyAll(after, [b]) == Apply(after, b) by {
          assert [b][..0] == [];
        }
        ApplySettles(after, b);
      }
    }
  }

  /** A full re-sync: the same issues again, in any order and cut into any pages, leave all four tables
      as they are. */
  lemma ReSyncIdempotent(t: Tables, pages: seq<seq<Bundle>>, again: seq<seq<Bundle>>)
    requires Agreeing(Flatten(pages))
    requires multiset(Flatten(again)) == multiset(Flatten(pages))
    ensures ApplyPages(ApplyPages(t, pages), again) == ApplyPages(t, pages)
  {
    PagesAreOneBatch(t, pages);
    PagesAreOneBatch(ApplyPages(t, pages), again);
    forall b | b in Flatten(again)
      ensures b in Flatten(pages)
    {
      assert b in multiset(Flatten(again));
    }
    ReplaySafeIffAgreeing(t, Flatten(pages));
  }

  // ---------- order ----------

  /** Two batches with the same bundles leave the same issues, the same changes and the same author
      ids. */
  lemma SameUpToNames(t: Tables, bs: seq<Bundle>, cs: seq<Bundle>)
    requires Agreeing(bs)
    requires multiset(bs) == multiset(cs)
    ensures var u, v := ApplyAll(t, bs), ApplyAll(t, cs);
      u.projects == v.projects && u.issues == v.issues && u.changes == v.changes && u.authors.Keys == v.authors.Keys
  {
    SameAuthorIDs(t, bs, cs);
    var u, v := ApplyAll(t, bs), ApplyAll(t, cs);
    forall id
      ensures (id in u.issues <==> id in v.issues) && (id in u.issues ==> u.issues[id] == v.issues[id])
      ensures (id in u.changes <==> id in v.changes) && (id in u.changes ==> u.changes[id] == v.changes[id])
    {
      SameIssue(t, bs, cs, id);
    }
    ApplyAllFrame(t, bs);
    ApplyAllFrame(t, cs);
  }

  lemma SameIssue(t: Tables, bs: seq<Bundle>, cs: seq<Bundle>, id: int)
    requires Agreeing(bs) && multiset(bs) == multiset(cs)
    ensures var u, v := ApplyAll(t, bs), ApplyAll(t, cs);
      && (id in u.issues <==> id in v.issues) && (id in u.issues ==> u.issues[id] == v.issues[id])
      && (id in u.changes <==> id in v.changes) && (id in u.changes ==> u.changes[id] == v.changes[id])
  {
    SameMembers(bs, cs);
    if Touches(bs, id) {
      ApplyAllSettles(t, bs);
      ApplyAllSettles(t, cs);
      var b :| b in bs && b.row.id == id;
      SettledSame(ApplyAll(t, bs), ApplyAll(t, cs), b);
    } else {
      ApplyAllFrame(t, bs);
      ApplyAllFrame(t, cs);
    }
  }

  lemma SameAuthorIDs(t: Tables, bs: seq<Bundle>, cs: seq<Bundle>)
    requires multiset(bs) == multiset(cs)
    ensures ApplyAll(t, bs).authors.Keys == ApplyAll(t, cs).authors.Keys
  {
    SameMembers(bs, cs);
    ApplyAllFrame(t, bs);
    ApplyAllFrame(t, cs);
    var u, v := ApplyAll(t, bs), ApplyAll(t, cs);
    forall id
      ensures id in u.authors.Keys <==> id in v.authors.Keys
    {
      assert id in u.authors <==> id in t.authors || Authored(bs, id);
      assert id in v.authors <==> id in t.authors || Authored(cs, id);
    }
    assert u.authors.Keys == v.authors.Keys;
  }

  lemma SettledSame(u: Tables, v: Tables, b: Bundle)
    requires Settled(u, b) && Settled(v, b)
    ensures b.row.id in u.issues && b.row.id in v.issues && u.issues[b.row.id] == v.issues[b.row.id]
    ensures b.row.id in u.changes <==> b.row.id in v.changes
    ensures b.row.id in u.changes ==> u.changes[b.row.id] == v.changes[b.row.id]
  {
    assert |multiset(b.changes)| == |b.changes|;
  }

  lemma SameMembers(bs: seq<Bundle>, cs: seq<Bundle>)
    requires multiset(bs) == multiset(cs)
    ensures forall b :: b in bs <==> b in cs
    ensures forall id :: (Touches(bs, id) <==> Touches(cs, id)) && (Authored(bs, id) <==> Authored(cs, id))
    ensures Agreeing(bs) <==> Agreeing(cs)
  {
    forall b
      ensures b in bs <==> b in cs
    {
      assert b in bs <==> b in multiset(bs);
      assert b in cs <==> b in multiset(cs);
    }
  }

  /** Bundles that introduce the same author id introduce it under one name. */
  ghost predicate NamesAgree(t: Tables, bs: seq<Bundle>) {
    forall b, c, id :: b in bs && c in bs && id !in t.authors && Mentioned(b.authors, id) && Mentioned(c.authors, id) ==>
      FirstName(b.authors, id) == FirstName(c.authors, id)
  }

  ghost predicate OrderIrrelevant(t: Tables, bs: seq<Bundle>) {
    forall cs: seq<Bundle> :: multiset(cs) == multiset(bs) ==> ApplyAll(t, cs) == ApplyAll(t, bs)
  }

  /** If order is irrelevant, every bundle might have been the last one. */
  lemma AnyMayComeLast(t: Tables, bs: seq<Bundle>, b: Bundle)
    requires OrderIrrelevant(t, bs) && b in bs
    ensures Settled(ApplyAll(t, bs), b)
  {
    var cs := Without(bs, b) + [b];
    assert cs[..|cs| - 1] == Without(bs, b);
    assert ApplyAll(t, cs) == ApplyAll(t, bs);
    ApplySettles(ApplyAll(t, Without(bs, b)), b);
  }

  /** If order is irrelevant, every bundle might have been the first one. */
  lemma AnyMayComeFirst(t: Tables, bs: seq<Bundle>, b: Bundle, id: int)
    requires OrderIrrelevant(t, bs) && b in bs
    requires id !in t.authors && Mentioned(b.authors, id)
    ensures id in ApplyAll(t, bs).authors && ApplyAll(t, bs).authors[id] == FirstName(b.authors, id)
  {
    var reordered := [b] + Without(bs, b);
    assert multiset(reordered) == multiset(bs);
    FirstCommitNames(t, b, Without(bs, b), id);
  }

  /** The order in which issues are committed is irrelevant to all four tables exactly when bundles of
      one issue agree and bundles that introduce one author id agree on the name. */
  lemma OrderIrrelevantIff(t: Tables, bs: seq<Bundle>)
    ensures OrderIrrelevant(t, bs) <==> Agreeing(bs) && NamesAgree(t, bs)
  {
    if Agreeing(bs) && NamesAgree(t, bs) {
      forall cs: seq<Bundle> | multiset(cs) == multiset(bs)
        ensures ApplyAll(t, cs) == ApplyAll(t, bs)
      {
        SameNames(t, bs, cs);
      }
    }
    if OrderIrrelevant(t, bs) {
      forall b, c | b in bs && c in bs && b.row.id == c.row.id
        ensures b.row == c.row && multiset(b.changes) == multiset(c.changes)
      {
        AnyMayComeLast(t, bs, b);
        AnyMayComeLast(t, bs, c);
      }
      forall b, c, id | b in bs && c in bs && id !in t.authors && Mentioned(b.authors, id) && Mentioned(c.authors, id)
        ensures FirstName(b.authors, id) == FirstName(c.authors, id)
      {
        AnyMayComeFirst(t, bs, b, id);
        AnyMayComeFirst(t, bs, c, id);
      }
    }
  }

  lemma SameName(t: Tables, bs: seq<Bundle>, cs: seq<Bundle>, id: int)
    requires NamesAgree(t, bs) && (forall b :: b in bs <==> b in cs) && id in ApplyAll(t, bs).authors
    ensures id in ApplyAll(t, cs).authors && ApplyAll(t, cs).authors[id] == ApplyAll(t, bs).authors[id]
  {
    ApplyAllFrame(t, bs);
    ApplyAllFrame(t, cs);
    if id !in t.authors {
      var b :| b in bs && Mentioned(b.authors, id) && ApplyAll(t, bs).authors[id] == FirstName(b.authors, id);
      assert b in cs && Authored(cs, id);
      var c :| c in cs && Mentioned(c.authors, id) && ApplyAll(t, cs).authors[id] == FirstName(c.authors, id);
    }
  }

  lemma SameNames(t: Tables, bs: seq<Bundle>, cs: seq<Bundle>)
    requires Agreeing(bs) && NamesAgree(t, bs)
    requires multiset(cs) == multiset(bs)
    ensures ApplyAll(t, cs) == ApplyAll(t, bs)
  {
    SameMembers(bs, cs);
    SameUpToNames(t, bs, cs);
    var u, v := ApplyAll(t, bs), ApplyAll(t, cs);
    forall id | id in u.authors
      ensures id in v.authors && u.authors[id] == v.authors[id]
    {
      SameName(t, bs, cs, id);
    }
    assert u.authors == v.authors;
  }

  /** Whoever commits first names the author. */
  lemma FirstCommitNames(t: Tables, b: Bundle, rest: seq<Bundle>, id: int)
    requires id !in t.authors && Mentioned(b.authors, id)
    ensures var u := ApplyAll(t, [b] + rest); id in u.authors && u.authors[id] == FirstName(b.authors, id)
  {
    ApplyAllConcat(t, [b], rest);
    assert [b][..0] == [];
    assert ApplyAll(t, [b]) == Apply(t, b);
    AddAuthorsExact(t.authors, b.authors);
    ApplyAllFrame(Apply(t, b), rest);
  }

  /** One occurrence of b taken out. */
  function Without(bs: seq<Bundle>, b: Bundle): (r: seq<Bundle>)
    requires b in bs
    ensures multiset(r + [b]) == multiset(bs)
    ensures multiset([b] + r) == multiset(bs)
  {
    if bs[0] == b then
      assert bs == [b] + bs[1..];
      bs[1..]
    else
      var r := Without(bs[1..], b);
      assert bs == [bs[0]] + bs[1..];
      [bs[0]] + r
  }

  /** The names themselves do depend on the order: two names with one hash, or one name with two display
      names, and the first commit wins. */
  lemma NamesDependOnOrder() returns (t: Tables, b: Bundle, c: Bundle)
    ensures b.row.id != c.row.id
    ensures ApplyAll(t, [b, c]).authors != ApplyAll(t, [c, b]).authors
  {
    t := Tables(map[], map[], map[], map[]);
    var row := RawIssue(1, 1, 7, None, "K-1", None, None, None, None, None, None, None, None, None);
    b := Bundle([RawAuthor(7, "A")], row, []);
    c := Bundle([RawAuthor(7, "B")], row.(id := 2), []);
    assert b.authors[0] in b.authors && c.authors[0] in c.authors;
    FirstCommitNames(t, b, [c], 7);
    FirstCommitNames(t, c, [b], 7);
    assert [b] + [c] == [b, c] && [c] + [b] == [c, b];
  }

  // ---------- concurrent jobs ----------

  /** A committed page transaction: the job it belongs to, and the batch in its delivery order. */
  datatype Commit = Commit(job: nat, batch: seq<Bundle>)

  /** The batches job j committed, in order. */
  function Turns(schedule: seq<Commit>, j: nat): seq<seq<Bundle>> {
    if schedule == [] then
      []
    else
      var before := Turns(schedule[..|schedule| - 1], j);
      var last := schedule[|schedule| - 1];
      if last.job == j then before + [last.batch] else before
  }

  /** The batches are the pages, each in some delivery order. */
  ghost predicate Delivers(batches: seq<seq<Bundle>>, pages: seq<seq<Bundle>>) {
    && |batches| == |pages|
    && forall i :: 0 <= i < |pages| ==> multiset(batches[i]) == multiset(pages[i])
  }

  /** Every job gets its own pages committed in order; between jobs, anything goes. */
  ghost predicate Interleaves(schedule: seq<Commit>, jobs: seq<seq<seq<Bundle>>>) {
    && (forall i :: 0 <= i < |schedule| ==> schedule[i].job < |jobs|)
    && forall j :: 0 <= j < |jobs| ==> Delivers(Turns(schedule, j), jobs[j])
  }

  function Batches(schedule: seq<Commit>): seq<seq<Bundle>> {
    if schedule == [] then [] else Batches(schedule[..|schedule| - 1]) + [schedule[|schedule| - 1].batch]
  }

  /** The jobs one after the other. */
  function AllPages(jobs: seq<seq<seq<Bundle>>>): seq<seq<Bundle>> {
    if jobs == [] then [] else AllPages(jobs[..|jobs| - 1]) + jobs[|jobs| - 1]
  }

  lemma {:induction false} FlattenConcat(p: seq<seq<Bundle>>, q: seq<seq<Bundle>>)
    ensures Flatten(p + q) == Flatten(p) + Flatten(q)
    decreases |q|
  {
    if q == [] {
      assert p + q == p;
    } else {
      var front, last := q[..|q| - 1], q[|q| - 1];
      assert p + q == (p + front) + [last];
      FlattenConcat(p, front);
      FlattenSnoc(p + front, last);
      assert (Flatten(p) + Flatten(front)) + last == Flatten(p) + (Flatten(front) + last);
    }
  }

  /** All bundles of all jobs, counted. */
  function Everything(jobs: seq<seq<seq<Bundle>>>): multiset<Bundle> {
    multiset(Flatten(AllPages(jobs)))
  }

  lemma EverythingSnoc(jobs: seq<seq<seq<Bundle>>>, pages: seq<seq<Bundle>>)
    ensures Everything(jobs + [pages]) == Everything(jobs) + multiset(Flatten(pages))
  {
    assert (jobs + [pages])[..|jobs|] == jobs;
    FlattenConcat(AllPages(jobs), pages);
  }

  /** Shortening job j by its last page takes that page's bundles out of the whole. */
  lemma {:induction false} DropLastPage(jobs: seq<seq<seq<Bundle>>>, j: nat, page: seq<Bundle>, shorter: seq<seq<Bundle>>)
    requires j < |jobs| && jobs[j] == shorter + [page]
    ensures Everything(jobs) == Everything(jobs[j := shorter]) + multiset(page)
  {
    var n := |jobs| - 1;
    var front, last := jobs[..n], jobs[n];
    assert jobs == front + [last];
    EverythingSnoc(front, last);
    if j == n {
      assert jobs[j := shorter] == front + [shorter];
      EverythingSnoc(front, shorter);
      assert (shorter + [page])[..|shorter|] == shorter;
    } else {
      DropLastPage(front, j, page, shorter);
      assert jobs[j := shorter] == front[j := shorter] + [last];
      EverythingSnoc(front[j := shorter], last);
    }
  }

  lemma {:induction false} NothingLeft(jobs: seq<seq<seq<Bundle>>>)
    requires forall j :: 0 <= j < |jobs| ==> jobs[j] == []
    ensures AllPages(jobs) == []
  {
    if jobs != [] {
      NothingLeft(jobs[..|jobs| - 1]);
    }
  }

  /** The job whose page was committed last, without that page. */
  function Shortened(schedule: seq<Commit>, jobs: seq<seq<seq<Bundle>>>): seq<seq<seq<Bundle>>>
    requires schedule != [] && schedule[|schedule| - 1].job < |jobs| && jobs[schedule[|schedule| - 1].job] != []
  {
    var j := schedule[|schedule| - 1].job;
    jobs[j := jobs[j][..|jobs[j]| - 1]]
  }

  lemma LastCommit(schedule: seq<Commit>, jobs: seq<seq<seq<Bundle>>>)
    requires Interleaves(schedule, jobs) && schedule != []
    ensures var last := schedule[|schedule| - 1];
      && last.job < |jobs| && jobs[last.job] != []
      && multiset(last.batch) == multiset(jobs[last.job][|jobs[last.job]| - 1])
      && Interleaves(schedule[..|schedule| - 1], Shortened(schedule, jobs))
  {
    var n := |schedule| - 1;
    var j := schedule[n].job;
    assert Delivers(Turns(schedule, j), jobs[j]);
    var shorter := Shortened(schedule, jobs);
    forall k | 0 <= k < |jobs|
      ensures Delivers(Turns(schedule[..n], k), shorter[k])
    {
      assert Delivers(Turns(schedule, k), jobs[k]);
    }
  }

  /** An interleaving commits exactly the bundles of all the jobs. */
  lemma {:induction false} InterleavingKeepsBundles(schedule: seq<Commit>, jobs: seq<seq<seq<Bundle>>>)
    requires Interleaves(schedule, jobs)
    ensures multiset(Flatten(Batches(schedule))) == Everything(jobs)
    decreases |schedule|
  {
    if schedule == [] {
      NothingLeft(jobs);
    } else {
      var n := |schedule| - 1;
      var j := schedule[n].job;
      LastCommit(schedule, jobs);
      InterleavingKeepsBundles(schedule[..n], Shortened(schedule, jobs));
      DropLastPage(jobs, j, jobs[j][|jobs[j]| - 1], jobs[j][..|jobs[j]| - 1]);
    }
  }

  /** Another job has committed the bundle. */
  ghost predicate FromOther(schedule: seq<Commit>, j: nat, b: Bundle) {
    exists i :: 0 <= i < |schedule| && schedule[i].job != j && b in schedule[i].batch
  }

  lemma FromOtherSnoc(schedule: seq<Commit>, j: nat, b: Bundle)
    requires schedule != []
    ensures var front, last := schedule[..|schedule| - 1], schedule[|schedule| - 1];
      FromOther(schedule, j, b) <==> FromOther(front, j, b) || (last.job != j && b in last.batch)
  {
    var front, last := schedule[..|schedule| - 1], schedule[|schedule| - 1];
    if FromOther(front, j, b) {
      var i :| 0 <= i < |front| && front[i].job != j && b in front[i].batch;
      assert schedule[i] == front[i];
    }
    if FromOther(schedule, j, b) {
      var i :| 0 <= i < |schedule| && schedule[i].job != j && b in schedule[i].batch;
      assert i < |front| ==> front[i] == schedule[i];
    }
  }

  /** What is committed comes from job j or from another job, and all of job j's is. */
  lemma {:induction false} CommitsOf(schedule: seq<Commit>, j: nat, b: Bundle)
    ensures b in Flatten(Batches(schedule)) <==> b in Flatten(Turns(schedule, j)) || FromOther(schedule, j, b)
  {
    if schedule != [] {
      var front, last := schedule[..|schedule| - 1], schedule[|schedule| - 1];
      CommitsOf(front, j, b);
      FromOtherSnoc(schedule, j, b);
      FlattenSnoc(Batches(front), last.batch);
      FlattenSnoc(Turns(front, j), last.batch);
    }
  }

  /** Schedule independence: any interleaving of the jobs' page transactions, with any delivery order
      inside each page, leaves the issues, the status changes and the author ids that running the jobs
      one after the other leaves. */
  lemma ScheduleIndependent(t: Tables, schedule: seq<Commit>, jobs: seq<seq<seq<Bundle>>>)
    requires Interleaves(schedule, jobs)
    requires Agreeing(Flatten(AllPages(jobs)))
    ensures var u, v := ApplyPages(t, Batches(schedule)), ApplyPages(t, AllPages(jobs));
      && u.projects == v.projects && u.issues == v.issues && u.changes == v.changes
      && u.authors.Keys == v.authors.Keys
      && (NamesAgree(t, Flatten(AllPages(jobs))) ==> u == v)
  {
    InterleavingKeepsBundles(schedule, jobs);
    PagesAreOneBatch(t, Batches(schedule));
    PagesAreOneBatch(t, AllPages(jobs));
    SameUpToNames(t, Flatten(AllPages(jobs)), Flatten(Batches(schedule)));
    OrderIrrelevantIff(t, Flatten(AllPages(jobs)));
  }
}
