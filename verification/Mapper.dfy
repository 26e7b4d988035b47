/** Jira records to rows of the raw schema (internal/mapper/jira_to_raw.go). */
module Mapper {
  import opened Wrappers
  import opened Jira
  import AuthorHash

  // ---------- rows ----------

  /** A row of raw.issue. A Go nil pointer, which the driver stores as NULL, is `None`. */
  datatype RawIssue = RawIssue(
    id: int, projectID: int, authorID: int, assigneeID: Option<int>, key: string,
    summary: Option<string>, description: Option<string>, issueType: Option<string>,
    priority: Option<string>, status: Option<string>,
    createdTime: Option<int>, closedTime: Option<int>, updatedTime: Option<int>,
    timeSpent: Option<int>)

  datatype RawAuthor = RawAuthor(id: int, name: string)

  datatype RawProject = RawProject(id: int, title: string)

  datatype StatusChange = StatusChange(
    issueID: int, authorID: int, changeTime: int, fromStatus: Option<string>, toStatus: Option<string>)

  // ---------- library parsing, left uninterpreted ----------

  /** `strconv.ParseInt` yields a value even when it reports an error. */
  datatype ParsedInt = ParsedInt(value: int, ok: bool)

  /** The parsers the mapper calls: decimal integers, and times in Jira's layout and in RFC 3339. */
  datatype Parsers = Parsers(
    parseInt: string -> ParsedInt,
    jiraTime: string -> Option<int>,
    rfc3339: string -> Option<int>)

  function ParseJiraTime(ps: Parsers, str: string): Option<int> {
    match ps.jiraTime(str)
    case Some(t) => Some(t)
    case None => ps.rfc3339(str)
  }

  function ParseTime(ps: Parsers, str: string): Option<int> {
    if str == "" then None else ParseJiraTime(ps, str)
  }

  function StrPtr(str: string): Option<string> {
    if str == "" then None else Some(str)
  }

  function IntPtr(i: int): Option<int> {
    if i == 0 then None else Some(i)
  }

  // ---------- the maps ----------

  function MapProjectToRaw(ps: Parsers, proj: Project): RawProject {
    RawProject(ps.parseInt(proj.id).value, proj.name)
  }

  function MapAuthorToRaw(author: Author): RawAuthor {
    RawAuthor(AuthorHash.IdOf(author.name), author.displayName)
  }

  /** Fails exactly when the issue's id does not parse. */
  function MapIssueToRaw(ps: Parsers, issue: Issue, projectID: int, fields: IssueFields): Option<RawIssue> {
    var id := ps.parseInt(issue.id);
    if !id.ok then
      None
    else
      Some(RawIssue(
        id.value, projectID, AuthorHash.IdOf(fields.creator.name),
        if fields.assignee.name != "" then IntPtr(AuthorHash.IdOf(fields.assignee.name)) else None,
        issue.key,
        StrPtr(fields.summary), StrPtr(fields.description), StrPtr(fields.issueType),
        StrPtr(fields.priority), StrPtr(fields.status),
        ParseTime(ps, fields.created), ParseTime(ps, fields.resolutionDate), ParseTime(ps, fields.updated),
        IntPtr(fields.timeSpent)))
  }

  /** What a nullable text or number column stands for. */
  function TextOf(column: Option<string>): string {
    if column.Some? then column.value else ""
  }

  function NumberOf(column: Option<int>): int {
    if column.Some? then column.value else 0
  }

  /** Nothing but an unreadable time is lost in a row: each text and number of the issue can be read back
      from its own column, which is NULL exactly for the empty one; an assignee is NULL exactly when there is
      none or its name hashes to 0; a time is NULL exactly when it is absent or unreadable. */
  lemma RowTellsIssue(ps: Parsers, issue: Issue, projectID: int, fields: IssueFields)
    ensures MapIssueToRaw(ps, issue, projectID, fields).Some? <==> ps.parseInt(issue.id).ok
    ensures MapIssueToRaw(ps, issue, projectID, fields).Some? ==>
      var row := MapIssueToRaw(ps, issue, projectID, fields).value;
      && row.id == ps.parseInt(issue.id).value && row.projectID == projectID && row.key == issue.key
      && TextOf(row.summary) == fields.summary && TextOf(row.description) == fields.description
      && TextOf(row.issueType) == fields.issueType && TextOf(row.priority) == fields.priority
      && TextOf(row.status) == fields.status && NumberOf(row.timeSpent) == fields.timeSpent
      && (row.summary == None <==> fields.summary == "") && (row.description == None <==> fields.description == "")
      && (row.issueType == None <==> fields.issueType == "") && (row.priority == None <==> fields.priority == "")
      && (row.status == None <==> fields.status == "") && (row.timeSpent == None <==> fields.timeSpent == 0)
      && row.authorID == AuthorHash.IdOf(fields.creator.name)
      && (row.assigneeID == None <==> fields.assignee.name == "" || AuthorHash.IdOf(fields.assignee.name) == 0)
      && (row.assigneeID.Some? ==> row.assigneeID.value == AuthorHash.IdOf(fields.assignee.name))
      && TimeColumn(ps, fields.created, row.createdTime) && TimeColumn(ps, fields.updated, row.updatedTime)
      && TimeColumn(ps, fields.resolutionDate, row.closedTime)
  {
  }

  /** The column holds the time the text stands for, if it can be read in one of the two layouts. */
  predicate TimeColumn(ps: Parsers, text: string, column: Option<int>) {
    && (column == None <==> text == "" || (ps.jiraTime(text) == None && ps.rfc3339(text) == None))
    && (column.Some? ==> column == (if ps.jiraTime(text).Some? then ps.jiraTime(text) else ps.rfc3339(text)))
  }

  /** The status changes of one history whose time parsed to `time`. */
  function ItemChanges(author: Author, time: int, items: seq<ChangeItem>, issueID: int): seq<StatusChange> {
    if items == [] then
      []
    else
      var rest := ItemChanges(author, time, items[..|items| - 1], issueID);
      var item := items[|items| - 1];
      if item.field == "status" then
        rest + [StatusChange(issueID, AuthorHash.IdOf(author.name), time,
                             StrPtr(item.fromString), StrPtr(item.toString))]
      else
        rest
  }

  /** All status changes of a changelog, in order; a history with an unparseable time is skipped. */
  function Changes(ps: Parsers, histories: seq<History>, issueID: int): seq<StatusChange> {
    if histories == [] then
      []
    else
      var rest := Changes(ps, histories[..|histories| - 1], issueID);
      var h := histories[|histories| - 1];
      match ParseJiraTime(ps, h.created)
      case None => rest
      case Some(time) => rest + ItemChanges(h.author, time, h.items, issueID)
  }

  method MapChangelogToRaw(ps: Parsers, issue: Issue, issueID: int) returns (changes: seq<StatusChange>)
    ensures changes == Changes(ps, Histories(issue), issueID)
  {
    if issue.changelog == None {
      return [];
    }
    var histories := issue.changelog.value;
    changes := [];
    for i := 0 to |histories|
      invariant changes == Changes(ps, histories[..i], issueID)
    {
      assert histories[..i + 1][..i] == histories[..i];
      var h := histories[i];
      var changeTime := ParseJiraTime(ps, h.created);
      if changeTime == None {
        continue;
      }
      ghost var before := changes;
      for j := 0 to |h.items|
        invariant changes == before + ItemChanges(h.author, changeTime.value, h.items[..j], issueID)
      {
        assert h.items[..j + 1][..j] == h.items[..j];
        if h.items[j].field == "status" {
          changes := changes + [StatusChange(issueID, AuthorHash.IdOf(h.author.name), changeTime.value,
                                             StrPtr(h.items[j].fromString), StrPtr(h.items[j].toString))];
        }
      }
      assert h.items[..|h.items|] == h.items;
    }
    assert histories[..|histories|] == histories;
  }

  // ---------- what a changelog records ----------

  /** Item j of history i is a status change that the mapper keeps. */
  predicate Kept(ps: Parsers, histories: seq<History>, i: int, j: int) {
    && 0 <= i < |histories|
    && 0 <= j < |histories[i].items|
    && ParseJiraTime(ps, histories[i].created).Some?
    && histories[i].items[j].field == "status"
  }

  function ChangeAt(ps: Parsers, histories: seq<History>, i: int, j: int, issueID: int): StatusChange
    requires Kept(ps, histories, i, j)
  {
    var h := histories[i];
    StatusChange(issueID, AuthorHash.IdOf(h.author.name), ParseJiraTime(ps, h.created).value,
                 StrPtr(h.items[j].fromString), StrPtr(h.items[j].toString))
  }

  /** `pos` lists positions (history, item) in changelog order, none twice. */
  predicate InOrder(pos: seq<(int, int)>) {
    forall k, l :: 0 <= k < l < |pos| ==>
      pos[k].0 < pos[l].0 || (pos[k].0 == pos[l].0 && pos[k].1 < pos[l].1)
  }

  /** The positions of the status items among `items`, as items of history i. */
  lemma {:induction false} ItemChangesExact(author: Author, time: int, items: seq<ChangeItem>, issueID: int, i: int)
    returns (pos: seq<(int, int)>)
    ensures InOrder(pos)
    ensures |pos| == |ItemChanges(author, time, items, issueID)|
    ensures forall k :: 0 <= k < |pos| ==>
      && pos[k].0 == i && 0 <= pos[k].1 < |items| && items[pos[k].1].field == "status"
      && ItemChanges(author, time, items, issueID)[k] ==
         StatusChange(issueID, AuthorHash.IdOf(author.name), time,
                      StrPtr(items[pos[k].1].fromString), StrPtr(items[pos[k].1].toString))
    ensures forall j :: 0 <= j < |items| && items[j].field == "status" ==> (i, j) in pos
  {
    pos := [];
    if items != [] {
      var n := |items| - 1;
      pos := ItemChangesExact(author, time, items[..n], issueID, i);
      if items[n].field == "status" {
        pos := pos + [(i, n)];
      }
    }
  }

  /** Change c is the one at position p. */
  predicate Records(ps: Parsers, histories: seq<History>, issueID: int, c: StatusChange, p: (int, int)) {
    Kept(ps, histories, p.0, p.1) && c == ChangeAt(ps, histories, p.0, p.1, issueID)
  }

  predicate RecordsAll(ps: Parsers, histories: seq<History>, issueID: int, changes: seq<StatusChange>, pos: seq<(int, int)>) {
    && |pos| == |changes|
    && forall k :: 0 <= k < |pos| ==> Records(ps, histories, issueID, changes[k], pos[k])
  }

  lemma RecordsPrefix(ps: Parsers, histories: seq<History>, n: nat, issueID: int, changes: seq<StatusChange>, pos: seq<(int, int)>)
    requires n <= |histories|
    requires RecordsAll(ps, histories[..n], issueID, changes, pos)
    ensures RecordsAll(ps, histories, issueID, changes, pos)
    ensures forall k :: 0 <= k < |pos| ==> pos[k].0 < n
  {
    forall k | 0 <= k < |pos|
      ensures Records(ps, histories, issueID, changes[k], pos[k]) && pos[k].0 < n
    {
      assert Records(ps, histories[..n], issueID, changes[k], pos[k]);
    }
  }

  /** The changes of history n, at their positions. */
  lemma HistoryRecords(ps: Parsers, histories: seq<History>, n: nat, issueID: int) returns (pos: seq<(int, int)>)
    requires n < |histories| && ParseJiraTime(ps, histories[n].created).Some?
    ensures InOrder(pos) && forall k :: 0 <= k < |pos| ==> pos[k].0 == n
    ensures var h := histories[n];
      RecordsAll(ps, histories, issueID, ItemChanges(h.author, ParseJiraTime(ps, h.created).value, h.items, issueID), pos)
    ensures forall j :: Kept(ps, histories, n, j) ==> (n, j) in pos
  {
    var h := histories[n];
    pos := ItemChangesExact(h.author, ParseJiraTime(ps, h.created).value, h.items, issueID, n);
  }

  /** The recorded status changes are exactly the status items of the histories with a readable time:
      each once, in changelog order, with the right author, time and statuses. */
  lemma {:induction false} ChangesExact(ps: Parsers, histories: seq<History>, issueID: int)
    returns (pos: seq<(int, int)>)
    ensures InOrder(pos)
    ensures RecordsAll(ps, histories, issueID, Changes(ps, histories, issueID), pos)
    ensures forall i, j :: Kept(ps, histories, i, j) ==> (i, j) in pos
  {
    pos := [];
    if histories != [] {
      var n := |histories| - 1;
      var h := histories[n];
      var front := ChangesExact(ps, histories[..n], issueID);
      RecordsPrefix(ps, histories, n, issueID, Changes(ps, histories[..n], issueID), front);
      forall i, j | Kept(ps, histories, i, j) && i < n
        ensures (i, j) in front
      {
        assert Kept(ps, histories[..n], i, j);
      }
      pos := front;
      var time := ParseJiraTime(ps, h.created);
      if time.Some? {
        var last := HistoryRecords(ps, histories, n, issueID);
        pos := front + last;
      }
    }
  }

  /** Every change the mapper yields is about the issue. */
  lemma ChangesAreAbout(ps: Parsers, histories: seq<History>, issueID: int)
    ensures forall c :: c in Changes(ps, histories, issueID) ==> c.issueID == issueID
  {
    var pos := ChangesExact(ps, histories, issueID);
    forall c | c in Changes(ps, histories, issueID)
      ensures c.issueID == issueID
    {
      var k :| 0 <= k < |pos| && Changes(ps, histories, issueID)[k] == c;
      assert Records(ps, histories, issueID, c, pos[k]);
    }
  }
}
