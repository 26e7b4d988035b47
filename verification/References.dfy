/** When the database accepts the rows of an issue: the foreign keys of the raw schema against the authors
    that are inserted first (internal/service/sync/sync.go, insertProcessedIssue). */
module References {
  import opened Wrappers
  import opened Jira
  import opened Mapper
  import opened Authors
  import opened RawStore
  import opened PageEffect
  import opened RunSpec
  import AuthorHash

  /** The rows of an issue whose id parses. */
  function RowsOf(ps: Parsers, issue: Issue, fields: IssueFields, projectID: int): Bundle
    requires MapIssueToRaw(ps, issue, projectID, fields).Some?
  {
    BundleOf(ps, Fetched(issue.key, issue, fields, projectID)).value
  }

  function Inserted(issue: Issue, fields: IssueFields): set<int> {
    InsertedIDs(FirstMentions(Mentions(issue, fields)))
  }

  /** The authors present when the row and the changes are inserted. */
  lemma PresentAuthors(ps: Parsers, issue: Issue, fields: IssueFields, projectID: int, names: map<int, string>)
    requires MapIssueToRaw(ps, issue, projectID, fields).Some?
    ensures forall id :: id in AddAuthors(names, RowsOf(ps, issue, fields, projectID).authors) <==>
              id in names || id in Inserted(issue, fields)
  {
    var authors := FirstMentions(Mentions(issue, fields));
    var rows := RowsOf(ps, issue, fields, projectID).authors;
    AddAuthorsExact(names, rows);
    forall id
      ensures Mentioned(rows, id) <==> id in Inserted(issue, fields)
    {
      if id in Inserted(issue, fields) {
        var a :| a in authors && AuthorHash.IdOf(a.name) == id;
        var i :| 0 <= i < |authors| && authors[i] == a;
        assert rows[i] in rows;
      }
    }
  }

  /** Every author the issue's rows refer to is present. */
  ghost predicate AuthorsResolve(ps: Parsers, issue: Issue, fields: IssueFields, projectID: int, t: Tables) {
    forall id :: Refers(ps, issue, fields, projectID, id) ==> id in t.authors.Keys || id in Inserted(issue, fields)
  }

  lemma AllowedIffResolved(ps: Parsers, issue: Issue, fields: IssueFields, projectID: int, t: Tables)
    requires MapIssueToRaw(ps, issue, projectID, fields).Some?
    ensures var b := RowsOf(ps, issue, fields, projectID);
      Allowed(t, b) <==>
      && projectID in t.projects && Int4(b.row.id) && (b.row.timeSpent.Some? ==> Int4(b.row.timeSpent.value))
      && AuthorsResolve(ps, issue, fields, projectID, t)
  {
    var b := RowsOf(ps, issue, fields, projectID);
    var present := AddAuthors(t.authors, b.authors);
    PresentAuthors(ps, issue, fields, projectID, t.authors);
    ChangesAreAbout(ps, Histories(issue), b.row.id);
    if AuthorsResolve(ps, issue, fields, projectID, t) {
      assert Refers(ps, issue, fields, projectID, b.row.authorID);
      assert b.row.assigneeID.Some? ==> Refers(ps, issue, fields, projectID, b.row.assigneeID.value);
      assert forall c :: c in b.changes ==> Refers(ps, issue, fields, projectID, c.authorID);
    }
    if Allowed(t, b) {
      forall id | Refers(ps, issue, fields, projectID, id)
        ensures id in present
      {
      }
    }
  }

  /** The exact condition for the database to accept an issue, over any tables: its project exists, its
      numbers fit their columns, and every author reference comes from a name, or an author with the
      identifier 0 stands in for the empty name, be it one already stored or one inserted with the issue. */
  lemma AcceptedIff(ps: Parsers, issue: Issue, fields: IssueFields, projectID: int, t: Tables)
    requires MapIssueToRaw(ps, issue, projectID, fields).Some?
    ensures var b := RowsOf(ps, issue, fields, projectID);
      Allowed(t, b) <==>
      && projectID in t.projects && -0x8000_0000 <= b.row.id < 0x8000_0000
      && (b.row.timeSpent.Some? ==> -0x8000_0000 <= b.row.timeSpent.value < 0x8000_0000)
      && (ReferencesNamed(ps, issue, fields) || 0 in t.authors || 0 in Inserted(issue, fields))
  {
    AllowedIffResolved(ps, issue, fields, projectID, t);
    ReferencesClosedIff(ps, issue, fields, projectID, t.authors.Keys);
  }

  /** An issue without a creator's name is refused by a database that has no author with the identifier 0,
      and accepted by one that has. */
  lemma UnnamedCreatorRefused(ps: Parsers) returns (issue: Issue, fields: IssueFields, t: Tables, u: Tables)
    requires ps.parseInt("1") == ParsedInt(1, true)
    ensures MapIssueToRaw(ps, issue, 1, fields).Some? && Consistent(t) && Consistent(u)
    ensures u == t.(authors := map[0 := "Z"])
    ensures !Allowed(t, RowsOf(ps, issue, fields, 1)) && Allowed(u, RowsOf(ps, issue, fields, 1))
  {
    issue := Issue("K-1", "1", None);
    fields := IssueFields("", "", "", "", "", 0, "", "", "", Author("", ""), Author("", ""));
    t := Tables(map[1 := "P"], map[], map[], map[]);
    u := t.(authors := map[0 := "Z"]);
    NothingNamed(Mentions(issue, fields));
    AcceptedIff(ps, issue, fields, 1, t);
    AcceptedIff(ps, issue, fields, 1, u);
  }

  lemma {:induction false} NothingNamed(mentions: seq<Author>)
    requires forall a :: a in mentions ==> a.name == ""
    ensures FirstMentions(mentions) == []
  {
    if mentions != [] {
      NothingNamed(mentions[..|mentions| - 1]);
    }
  }
}
