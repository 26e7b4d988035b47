/** What committing issues does to the tables, as a value: the specification that the imperative page
    commit is proved against, and the laws of that specification. */
module PageEffect {
  import opened Mapper
  import opened RawStore

  /** The rows one fetched issue stands for: its authors in insertion order, its own row, its changes. */
  datatype Bundle = Bundle(authors: seq<RawAuthor>, row: RawIssue, changes: seq<StatusChange>)

  // ---------- the effect ----------

  /** First writer wins. */
  function AddAuthors(names: map<int, string>, authors: seq<RawAuthor>): map<int, string> {
    if authors == [] then
      names
    else
      var before := AddAuthors(names, authors[..|authors| - 1]);
      var a := authors[|authors| - 1];
      if a.id in before then before else before[a.id := a.name]
  }

  /** The changes of one issue, replaced wholesale. */
  function PutChanges(changes: map<int, multiset<StatusChange>>, issueID: int, rows: seq<StatusChange>):
    map<int, multiset<StatusChange>>
  {
    if rows == [] then changes - {issueID} else changes[issueID := multiset(rows)]
  }

  function Apply(t: Tables, b: Bundle): Tables {
    t.(authors := AddAuthors(t.authors, b.authors),
       issues := t.issues[b.row.id := b.row],
       changes := PutChanges(t.changes, b.row.id, b.changes))
  }

  function ApplyAll(t: Tables, bs: seq<Bundle>): Tables {
    if bs == [] then t else Apply(ApplyAll(t, bs[..|bs| - 1]), bs[|bs| - 1])
  }

  lemma {:induction false} ApplyAllConcat(t: Tables, bs: seq<Bundle>, cs: seq<Bundle>)
    ensures ApplyAll(t, bs + cs) == ApplyAll(ApplyAll(t, bs), cs)
    decreases |cs|
  {
    if cs == [] {
      assert bs + cs == bs;
    } else {
      var n := |cs| - 1;
      assert (bs + cs)[..|bs + cs| - 1] == bs + cs[..n];
      ApplyAllConcat(t, bs, cs[..n]);
    }
  }

  /** All bundles of a sequence of pages, in order. */
  function Flatten(pages: seq<seq<Bundle>>): seq<Bundle> {
    if pages == [] then [] else Flatten(pages[..|pages| - 1]) + pages[|pages| - 1]
  }

  /** One page transaction after another. */
  function ApplyPages(t: Tables, pages: seq<seq<Bundle>>): Tables {
    if pages == [] then t else ApplyAll(ApplyPages(t, pages[..|pages| - 1]), pages[|pages| - 1])
  }

  lemma FlattenSnoc(pages: seq<seq<Bundle>>, bs: seq<Bundle>)
    ensures Flatten(pages + [bs]) == Flatten(pages) + bs
  {
    assert (pages + [bs])[..|pages|] == pages;
  }

  /** How issues are cut into page transactions does not matter. */
  lemma {:induction false} PagesAreOneBatch(t: Tables, pages: seq<seq<Bundle>>)
    ensures ApplyPages(t, pages) == ApplyAll(t, Flatten(pages))
  {
    if pages != [] {
      var n := |pages| - 1;
      PagesAreOneBatch(t, pages[..n]);
      ApplyAllConcat(t, Flatten(pages[..n]), pages[n]);
    }
  }

  // ---------- authors ----------

  predicate Mentioned(authors: seq<RawAuthor>, id: int) {
    exists a :: a in authors && a.id == id
  }

  /** The name the first entry for `id` carries. */
  function FirstName(authors: seq<RawAuthor>, id: int): string
    requires Mentioned(authors, id)
  {
    if authors[0].id == id then authors[0].name
    else assert Mentioned(authors[1..], id) by {
           var a :| a in authors && a.id == id;
           assert a in authors[1..];
         }
         FirstName(authors[1..], id)
  }

  lemma FirstNameSnoc(front: seq<RawAuthor>, a: RawAuthor, id: int)
    requires Mentioned(front + [a], id)
    ensures Mentioned(front, id) ==> FirstName(front + [a], id) == FirstName(front, id)
    ensures !Mentioned(front, id) ==> id == a.id && FirstName(front + [a], id) == a.name
    decreases |front|
  {
    if front != [] {
      assert (front + [a])[1..] == front[1..] + [a];
      assert (front + [a])[0] == front[0];
      assert front[0] in front;
      if front[0].id != id {
        var b :| b in front + [a] && b.id == id;
        assert b in front[1..] + [a];
        FirstNameSnoc(front[1..], a, id);
        if Mentioned(front, id) {
          var c :| c in front && c.id == id;
          assert c in front[1..];
        }
        if Mentioned(front[1..], id) {
          var c :| c in front[1..] && c.id == id;
          assert c in front;
        }
      }
    }
  }

  /** Names already present stay; every mentioned id is present; a new id carries its first name. */
  lemma {:induction false} AddAuthorsExact(names: map<int, string>, authors: seq<RawAuthor>)
    ensures forall id :: id in AddAuthors(names, authors) <==> id in names || Mentioned(authors, id)
    ensures forall id :: id in names ==> AddAuthors(names, authors)[id] == names[id]
    ensures forall id :: id !in names && Mentioned(authors, id) ==>
              AddAuthors(names, authors)[id] == FirstName(authors, id)
  {
    if authors != [] {
      var n := |authors| - 1;
      var front, a := authors[..n], authors[n];
      assert authors == front + [a];
      AddAuthorsExact(names, front);
      assert a in authors;
      forall id
        ensures Mentioned(authors, id) <==> Mentioned(front, id) || id == a.id
      {
        if Mentioned(front, id) {
          var b :| b in front && b.id == id;
          assert b in authors;
        } else if Mentioned(authors, id) {
          var b :| b in authors && b.id == id;
          assert b !in front;
        }
      }
      forall id | id !in names && Mentioned(authors, id)
        ensures AddAuthors(names, authors)[id] == FirstName(authors, id)
      {
        FirstNameSnoc(front, a, id);
      }
    }
  }

  // ---------- the effect, pointwise ----------

  /** Bundles of the same issue carry the same row and the same changes. Distinct issue ids are the
      usual case; an issue listed twice with one content is allowed. */
  ghost predicate Agreeing(bs: seq<Bundle>) {
    forall b, c :: b in bs && c in bs && b.row.id == c.row.id ==>
      b.row == c.row && multiset(b.changes) == multiset(c.changes)
  }

  predicate Touches(bs: seq<Bundle>, issueID: int) {
    exists b :: b in bs && b.row.id == issueID
  }

  predicate Authored(bs: seq<Bundle>, id: int) {
    exists b :: b in bs && Mentioned(b.authors, id)
  }

  /** The tables hold exactly what the bundle says of its issue, and all its authors. */
  ghost predicate Settled(t: Tables, b: Bundle) {
    && (forall id :: Mentioned(b.authors, id) ==> id in t.authors)
    && b.row.id in t.issues && t.issues[b.row.id] == b.row
    && ChangesOf(t, b.row.id) == multiset(b.changes)
    && (b.changes == [] ==> b.row.id !in t.changes)
  }

  lemma ApplySettles(t: Tables, b: Bundle)
    ensures Settled(Apply(t, b), b)
  {
    AddAuthorsExact(t.authors, b.authors);
  }

  lemma ApplyKeepsSettled(t: Tables, b: Bundle, c: Bundle)
    requires Settled(t, b)
    requires b.row.id == c.row.id ==> b.row == c.row && multiset(b.changes) == multiset(c.changes)
    ensures Settled(Apply(t, c), b)
  {
    AddAuthorsExact(t.authors, c.authors);
    if b.row.id == c.row.id {
      assert |multiset(b.changes)| == |b.changes| && |multiset(c.changes)| == |c.changes|;
    }
  }

  lemma AddKnownAuthors(names: map<int, string>, authors: seq<RawAuthor>)
    requires forall id :: Mentioned(authors, id) ==> id in names
    ensures AddAuthors(names, authors) == names
  {
    AddAuthorsExact(names, authors);
  }

  lemma SettledIsFixed(t: Tables, b: Bundle)
    requires Settled(t, b)
    ensures Apply(t, b) == t
  {
    AddKnownAuthors(t.authors, b.authors);
    assert |multiset(b.changes)| == |b.changes|;
  }

  /** All bundles about b's issue say the same. */
  ghost predicate AgreedUpon(bs: seq<Bundle>, b: Bundle) {
    forall c :: c in bs && c.row.id == b.row.id ==> c.row == b.row && multiset(c.changes) == multiset(b.changes)
  }

  lemma {:induction false} ApplyAllSettlesOne(t: Tables, bs: seq<Bundle>, b: Bundle)
    requires b in bs && AgreedUpon(bs, b)
    ensures Settled(ApplyAll(t, bs), b)
  {
    var n := |bs| - 1;
    var front, last := bs[..n], bs[n];
    assert last in bs;
    if b in front {
      assert AgreedUpon(front, b);
      ApplyAllSettlesOne(t, front, b);
      ApplyKeepsSettled(ApplyAll(t, front), b, last);
    } else {
      ApplySettles(ApplyAll(t, front), last);
    }
  }

  /** Every bundle of an agreeing batch is settled at the end, in any order of application. */
  lemma ApplyAllSettles(t: Tables, bs: seq<Bundle>)
    requires Agreeing(bs)
    ensures forall b :: b in bs ==> Settled(ApplyAll(t, bs), b)
  {
    forall b | b in bs
      ensures Settled(ApplyAll(t, bs), b)
    {
      assert AgreedUpon(bs, b);
      ApplyAllSettlesOne(t, bs, b);
    }
  }

  /** What no bundle is about stays: other issues, their changes, all projects, and every author
      already present. No author appears from nowhere, and a new author's name is the first one that
      some bundle gives it. */
  lemma {:induction false} ApplyAllFrame(t: Tables, bs: seq<Bundle>)
    ensures ApplyAll(t, bs).projects == t.projects
    ensures forall id :: !Touches(bs, id) ==>
      (id in ApplyAll(t, bs).issues <==> id in t.issues) && (id in ApplyAll(t, bs).changes <==> id in t.changes)
    ensures forall id :: !Touches(bs, id) && id in t.issues ==> ApplyAll(t, bs).issues[id] == t.issues[id]
    ensures forall id :: !Touches(bs, id) && id in t.changes ==> ApplyAll(t, bs).changes[id] == t.changes[id]
    ensures forall id :: id in t.authors ==> id in ApplyAll(t, bs).authors && ApplyAll(t, bs).authors[id] == t.authors[id]
    ensures forall id :: id in ApplyAll(t, bs).authors <==> id in t.authors || Authored(bs, id)
    ensures forall id :: id !in t.authors && Authored(bs, id) ==>
      exists b :: b in bs && Mentioned(b.authors, id) && ApplyAll(t, bs).authors[id] == FirstName(b.authors, id)
  {
    if bs != [] {
      var n := |bs| - 1;
      var front, last := bs[..n], bs[n];
      var mid := ApplyAll(t, front);
      ApplyAllFrame(t, front);
      AddAuthorsExact(mid.authors, last.authors);
      assert last in bs;
      forall id
        ensures Touches(bs, id) <==> Touches(front, id) || id == last.row.id
        ensures Authored(bs, id) <==> Authored(front, id) || Mentioned(last.authors, id)
      {
        if Touches(front, id) {
          var b :| b in front && b.row.id == id;
          assert b in bs;
        }
        if Authored(front, id) {
          var b :| b in front && Mentioned(b.authors, id);
          assert b in bs;
        }
      }
      forall id | id !in t.authors && Authored(bs, id)
        ensures exists b :: b in bs && Mentioned(b.authors, id) &&
                  ApplyAll(t, bs).authors[id] == FirstName(b.authors, id)
      {
        if Authored(front, id) {
          var b :| b in front && Mentioned(b.authors, id) && mid.authors[id] == FirstName(b.authors, id);
          assert b in bs;
        } else {
          assert last in bs && Mentioned(last.authors, id);
        }
      }
    }
  }

  // ---------- references ----------

  /** No foreign key or column range refuses any row of the bundle. */
  ghost predicate Allowed(t: Tables, b: Bundle) {
    && IssueAllowed(t.(authors := AddAuthors(t.authors, b.authors)), b.row)
    && (forall c :: c in b.changes ==> c.issueID == b.row.id && c.authorID in AddAuthors(t.authors, b.authors))
  }

  ghost predicate AllowedAll(t: Tables, bs: seq<Bundle>) {
    bs == [] ||
    (AllowedAll(t, bs[..|bs| - 1]) && Allowed(ApplyAll(t, bs[..|bs| - 1]), bs[|bs| - 1]))
  }

  lemma AllowedOneMore(t: Tables, bs: seq<Bundle>, b: Bundle)
    ensures AllowedAll(t, bs + [b]) <==> AllowedAll(t, bs) && Allowed(ApplyAll(t, bs), b)
  {
    assert (bs + [b])[..|bs|] == bs;
  }

  lemma ApplyAllOneMore(t: Tables, bs: seq<Bundle>, b: Bundle)
    ensures ApplyAll(t, bs + [b]) == Apply(ApplyAll(t, bs), b)
  {
    assert (bs + [b])[..|bs|] == bs;
  }

  /** A batch that is allowed is allowed bundle by bundle. */
  lemma {:induction false} AllowedInTurn(t: Tables, bs: seq<Bundle>, i: nat)
    requires AllowedAll(t, bs) && i < |bs|
    ensures Allowed(ApplyAll(t, bs[..i]), bs[i])
    decreases |bs|
  {
    var n := |bs| - 1;
    if i < n {
      AllowedInTurn(t, bs[..n], i);
      assert bs[..n][..i] == bs[..i];
    }
  }

  ghost predicate AllowedPages(t: Tables, pages: seq<seq<Bundle>>) {
    pages == [] ||
    (AllowedPages(t, pages[..|pages| - 1]) && AllowedAll(ApplyPages(t, pages[..|pages| - 1]), pages[|pages| - 1]))
  }

  lemma AllowedPagesMore(t: Tables, pages: seq<seq<Bundle>>, bs: seq<Bundle>)
    ensures AllowedPages(t, pages + [bs]) <==> AllowedPages(t, pages) && AllowedAll(ApplyPages(t, pages), bs)
    ensures ApplyPages(t, pages + [bs]) == ApplyAll(ApplyPages(t, pages), bs)
  {
    assert (pages + [bs])[..|pages|] == pages;
  }

  lemma ResolvesStill(t: Tables, u: Tables, row: RawIssue)
    requires Resolves(t, row)
    requires u.projects == t.projects && forall id :: id in t.authors ==> id in u.authors
    ensures Resolves(u, row)
  {
  }

  lemma ApplyKeepsConsistent(t: Tables, b: Bundle)
    requires Consistent(t) && Allowed(t, b)
    ensures Consistent(Apply(t, b))
  {
    AddAuthorsExact(t.authors, b.authors);
    var u := Apply(t, b);
    forall id | id in u.issues
      ensures u.issues[id].id == id && Resolves(u, u.issues[id])
    {
      if id != b.row.id {
        ResolvesStill(t, u, t.issues[id]);
      } else {
        ResolvesStill(t.(authors := AddAuthors(t.authors, b.authors)), u, b.row);
      }
    }
    if b.changes != [] {
      assert b.changes[0] in u.changes[b.row.id];
    }
    forall id, c | id in u.changes && c in u.changes[id]
      ensures c.issueID == id && c.authorID in u.authors
    {
      if id == b.row.id {
        assert c in b.changes;
      } else {
        assert id in t.changes && c in t.changes[id];
      }
    }
  }

  lemma {:induction false} ApplyAllKeepsConsistent(t: Tables, bs: seq<Bundle>)
    requires Consistent(t) && AllowedAll(t, bs)
    ensures Consistent(ApplyAll(t, bs))
  {
    if bs != [] {
      ApplyAllKeepsConsistent(t, bs[..|bs| - 1]);
      ApplyKeepsConsistent(ApplyAll(t, bs[..|bs| - 1]), bs[|bs| - 1]);
    }
  }

  /** Committed pages break no reference. */
  lemma {:induction false} PagesKeepConsistent(t: Tables, pages: seq<seq<Bundle>>)
    requires Consistent(t) && AllowedPages(t, pages)
    ensures Consistent(ApplyPages(t, pages))
  {
    if pages != [] {
      PagesKeepConsistent(t, pages[..|pages| - 1]);
      ApplyAllKeepsConsistent(ApplyPages(t, pages[..|pages| - 1]), pages[|pages| - 1]);
    }
  }
}
