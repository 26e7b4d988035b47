/** The authors an issue mentions (`collectAuthors` of internal/service/sync/sync.go), and why the rows
    of an issue can refer to them. */
module Authors {
  import opened Wrappers
  import opened Jira
  import opened Mapper
  import AuthorHash

  // ---------- collectAuthors ----------

  function HistoryAuthors(histories: seq<History>): (r: seq<Author>)
    ensures |r| == |histories|
    ensures forall i :: 0 <= i < |histories| ==> r[i] == histories[i].author
  {
    seq(|histories|, i requires 0 <= i < |histories| => histories[i].author)
  }

  /** Every author the issue mentions, in the order in which they are looked at. */
  function Mentions(issue: Issue, fields: IssueFields): seq<Author> {
    [fields.creator, fields.assignee] + HistoryAuthors(Histories(issue))
  }

  predicate Named(authors: seq<Author>, name: string) {
    exists a :: a in authors && a.name == name
  }

  /** The first mention of each distinct non-empty name. */
  function FirstMentions(mentions: seq<Author>): seq<Author> {
    if mentions == [] then
      []
    else
      var rest := FirstMentions(mentions[..|mentions| - 1]);
      var a := mentions[|mentions| - 1];
      if a.name == "" || Named(rest, a.name) then rest else rest + [a]
  }

  /** Mention i is the first of its name. */
  predicate FirstOfItsName(mentions: seq<Author>, i: nat)
    requires i < |mentions|
  {
    mentions[i].name != "" && forall j :: 0 <= j < i ==> mentions[j].name != mentions[i].name
  }

  /** A name is collected exactly when it is mentioned and not empty. */
  lemma {:induction false} NamedExact(mentions: seq<Author>)
    ensures forall name :: Named(FirstMentions(mentions), name) <==> name != "" && Named(mentions, name)
  {
    if mentions != [] {
      var n := |mentions| - 1;
      NamedExact(mentions[..n]);
      forall name
        ensures Named(FirstMentions(mentions), name) <==> name != "" && Named(mentions, name)
      {
        if Named(mentions[..n], name) {
          var a :| a in mentions[..n] && a.name == name;
          assert a in mentions;
        }
        if name == mentions[n].name {
          assert mentions[n] in mentions;
        } else if Named(mentions, name) {
          var a :| a in mentions && a.name == name;
          assert a in mentions[..n];
        }
      }
    }
  }

  lemma LastIsFirstIffNew(mentions: seq<Author>)
    requires mentions != []
    ensures var n := |mentions| - 1;
      FirstOfItsName(mentions, n) <==>
      mentions[n].name != "" && !Named(FirstMentions(mentions[..n]), mentions[n].name)
  {
    var n := |mentions| - 1;
    NamedExact(mentions[..n]);
    if Named(mentions[..n], mentions[n].name) {
      var a :| a in mentions[..n] && a.name == mentions[n].name;
      var j :| 0 <= j < n && mentions[j] == a;
    } else {
      forall j | 0 <= j < n
        ensures mentions[j].name != mentions[n].name
      {
        assert mentions[j] in mentions[..n];
      }
    }
  }

  /** The collected authors are exactly the first mentions, each once and in order of appearance. */
  lemma {:induction false} FirstMentionsExact(mentions: seq<Author>) returns (from: seq<nat>)
    ensures |from| == |FirstMentions(mentions)|
    ensures forall k, l :: 0 <= k < l < |from| ==> from[k] < from[l]
    ensures forall k :: 0 <= k < |from| ==>
      from[k] < |mentions| && FirstOfItsName(mentions, from[k]) && FirstMentions(mentions)[k] == mentions[from[k]]
    ensures forall i: nat :: i < |mentions| && FirstOfItsName(mentions, i) ==> i in from
  {
    from := [];
    if mentions != [] {
      var n := |mentions| - 1;
      var front := mentions[..n];
      from := FirstMentionsExact(front);
      LastIsFirstIffNew(mentions);
      assert forall i: nat :: i < n ==> front[i] == mentions[i];
      assert forall i: nat :: i < n ==> (FirstOfItsName(front, i) <==> FirstOfItsName(mentions, i));
      if mentions[n].name != "" && !Named(FirstMentions(front), mentions[n].name) {
        from := from + [n];
      }
    }
  }

  /** The closure `add`: remember a name the first time it is seen. */
  method Add(seen: set<string>, authors: seq<Author>, a: Author, ghost mentions: seq<Author>)
    returns (seen': set<string>, authors': seq<Author>)
    requires authors == FirstMentions(mentions)
    requires forall name :: name in seen <==> Named(authors, name)
    ensures authors' == FirstMentions(mentions + [a])
    ensures forall name :: name in seen' <==> Named(authors', name)
  {
    assert (mentions + [a])[..|mentions|] == mentions;
    seen', authors' := seen, authors;
    if a.name != "" && a.name !in seen {
      seen' := seen + {a.name};
      authors' := authors + [a];
      forall name
        ensures name in seen' <==> Named(authors', name)
      {
        if Named(authors, name) {
          var b :| b in authors && b.name == name;
          assert b in authors';
        }
        if name == a.name {
          assert a in authors';
        }
      }
    }
  }

  lemma MentionsInSteps(issue: Issue, fields: IssueFields)
    ensures var all := Mentions(issue, fields);
      && [] + [fields.creator] + [fields.assignee] == all[..2]
      && (forall i :: 0 <= i < |Histories(issue)| ==> all[..2 + i] + [Histories(issue)[i].author] == all[..2 + (i + 1)])
      && all[..2 + |Histories(issue)|] == all
  {
  }

  method CollectAuthors(issue: Issue, fields: IssueFields) returns (authors: seq<Author>)
    ensures authors == FirstMentions(Mentions(issue, fields))
  {
    ghost var all := Mentions(issue, fields);
    MentionsInSteps(issue, fields);
    var seen: set<string> := {};
    authors := [];
    seen, authors := Add(seen, authors, fields.creator, []);
    seen, authors := Add(seen, authors, fields.assignee, [] + [fields.creator]);
    if issue.changelog != None {
      var histories := issue.changelog.value;
      for i := 0 to |histories|
        invariant authors == FirstMentions(all[..2 + i])
        invariant forall name :: name in seen <==> Named(authors, name)
      {
        seen, authors := Add(seen, authors, histories[i].author, all[..2 + i]);
      }
    }
  }

  // ---------- references ----------

  /** What the fetcher builds for an issue. */
  function Fetched(taskID: string, issue: Issue, fields: IssueFields, projectID: int): ProcessedIssue {
    ProcessedIssue(taskID, issue, fields, projectID, FirstMentions(Mentions(issue, fields)))
  }

  /** The author ids inserted ahead of the issue. */
  function InsertedIDs(authors: seq<Author>): set<int> {
    set a | a in authors :: AuthorHash.IdOf(a.name)
  }

  /** History i of the issue holds a status change that is recorded. */
  ghost predicate RecordsStatus(ps: Parsers, issue: Issue, i: int) {
    exists j :: Kept(ps, Histories(issue), i, j)
  }

  /** The author ids that the mapped row and the mapped status changes refer to. */
  ghost predicate Refers(ps: Parsers, issue: Issue, fields: IssueFields, projectID: int, id: int) {
    var row := MapIssueToRaw(ps, issue, projectID, fields);
    && row.Some?
    && (id == row.value.authorID || row.value.assigneeID == Some(id) ||
        exists c :: c in Changes(ps, Histories(issue), row.value.id) && c.authorID == id)
  }

  /** The names the references come from are not empty. The assignee may be absent: it is then not
      referred to. */
  ghost predicate ReferencesNamed(ps: Parsers, issue: Issue, fields: IssueFields) {
    && fields.creator.name != ""
    && forall i :: 0 <= i < |Histories(issue)| && RecordsStatus(ps, issue, i) ==>
         Histories(issue)[i].author.name != ""
  }

  lemma MentionIsInserted(issue: Issue, fields: IssueFields, a: Author)
    requires a in Mentions(issue, fields) && a.name != ""
    ensures AuthorHash.IdOf(a.name) in InsertedIDs(FirstMentions(Mentions(issue, fields)))
  {
    NamedExact(Mentions(issue, fields));
    assert Named(Mentions(issue, fields), a.name);
    var b :| b in FirstMentions(Mentions(issue, fields)) && b.name == a.name;
  }

  /** The author of a recorded change is the author of a history that records a status. */
  lemma ChangeComesFrom(ps: Parsers, issue: Issue, issueID: int, id: int) returns (i: nat)
    requires exists c :: c in Changes(ps, Histories(issue), issueID) && c.authorID == id
    ensures i < |Histories(issue)| && RecordsStatus(ps, issue, i)
    ensures AuthorHash.IdOf(Histories(issue)[i].author.name) == id
  {
    var hs := Histories(issue);
    var changes := Changes(ps, hs, issueID);
    var pos := ChangesExact(ps, hs, issueID);
    var k :| 0 <= k < |changes| && changes[k].authorID == id;
    assert Records(ps, hs, issueID, changes[k], pos[k]);
    assert Kept(ps, hs, pos[k].0, pos[k].1);
    i := pos[k].0;
  }

  /** Each id referred to comes from the creator, a named assignee, or the author of a history. */
  lemma ReferenceComesFrom(ps: Parsers, issue: Issue, fields: IssueFields, projectID: int, id: int) returns (a: Author)
    requires Refers(ps, issue, fields, projectID, id)
    ensures a in Mentions(issue, fields) && AuthorHash.IdOf(a.name) == id
    ensures ReferencesNamed(ps, issue, fields) ==> a.name != ""
    ensures a.name != "" || a == fields.creator ||
            exists i :: 0 <= i < |Histories(issue)| && RecordsStatus(ps, issue, i) && a == Histories(issue)[i].author
  {
    var row := MapIssueToRaw(ps, issue, projectID, fields).value;
    if id == row.authorID {
      a := fields.creator;
      assert Mentions(issue, fields)[0] == a;
    } else if row.assigneeID == Some(id) {
      a := fields.assignee;
      assert Mentions(issue, fields)[1] == a;
    } else {
      var i := ChangeComesFrom(ps, issue, row.id, id);
      a := Histories(issue)[i].author;
      assert Mentions(issue, fields)[2 + i] == a;
    }
  }

  /** Foreign-key closure: when the creator, and the author of every recorded status change, has a
      name, each author id that the issue's rows refer to is inserted with the issue. */
  lemma ReferencesClosed(ps: Parsers, issue: Issue, fields: IssueFields, projectID: int)
    requires ReferencesNamed(ps, issue, fields)
    ensures forall id :: Refers(ps, issue, fields, projectID, id) ==>
              id in InsertedIDs(FirstMentions(Mentions(issue, fields)))
  {
    forall id | Refers(ps, issue, fields, projectID, id)
      ensures id in InsertedIDs(FirstMentions(Mentions(issue, fields)))
    {
      var a := ReferenceComesFrom(ps, issue, fields, projectID, id);
      MentionIsInserted(issue, fields, a);
    }
  }

  /** The empty name hashes to 0, which no inserted author has unless some name hashes to 0. */
  lemma EmptyNameHash()
    ensures AuthorHash.IdOf("") == 0
  {
  }

  /** The exact condition for closure, for every issue whose id parses and whatever authors are already
      known: the references are named, or an author with the identifier 0 is known or inserted with the
      issue and stands in for the empty name. */
  lemma ReferencesClosedIff(ps: Parsers, issue: Issue, fields: IssueFields, projectID: int, known: set<int>)
    requires MapIssueToRaw(ps, issue, projectID, fields).Some?
    ensures (forall id :: Refers(ps, issue, fields, projectID, id) ==>
               id in known || id in InsertedIDs(FirstMentions(Mentions(issue, fields)))) <==>
            ReferencesNamed(ps, issue, fields) || 0 in known || 0 in InsertedIDs(FirstMentions(Mentions(issue, fields)))
  {
    var inserted := InsertedIDs(FirstMentions(Mentions(issue, fields)));
    EmptyNameHash();
    if ReferencesNamed(ps, issue, fields) {
      ReferencesClosed(ps, issue, fields, projectID);
    } else if 0 in known || 0 in inserted {
      forall id | Refers(ps, issue, fields, projectID, id)
        ensures id in known || id in inserted
      {
        var a := ReferenceComesFrom(ps, issue, fields, projectID, id);
        if a.name != "" {
          MentionIsInserted(issue, fields, a);
        }
      }
    } else {
      UnnamedRefersToZero(ps, issue, fields, projectID);
    }
  }

  lemma UnnamedRefersToZero(ps: Parsers, issue: Issue, fields: IssueFields, projectID: int)
    requires MapIssueToRaw(ps, issue, projectID, fields).Some? && !ReferencesNamed(ps, issue, fields)
    ensures Refers(ps, issue, fields, projectID, 0)
  {
    var row := MapIssueToRaw(ps, issue, projectID, fields).value;
    var hs := Histories(issue);
    EmptyNameHash();
    if fields.creator.name != "" {
      var i :| 0 <= i < |hs| && RecordsStatus(ps, issue, i) && hs[i].author.name == "";
      var j :| Kept(ps, hs, i, j);
      var pos := ChangesExact(ps, hs, row.id);
      var k :| 0 <= k < |pos| && pos[k] == (i, j);
      var c := Changes(ps, hs, row.id)[k];
      assert Records(ps, hs, row.id, c, pos[k]);
      assert c in Changes(ps, hs, row.id) && c.authorID == 0;
    }
  }
}
