/** The tables of the raw schema as a value, and what each SQL statement does to them
    (internal/database/migrations, internal/repository/postgres/queries). */
module RawStore {
  import opened Wrappers
  import opened Mapper

  /** raw.project, raw.author and raw.issue are keyed by their primary keys. raw.status_changes has no
      key: it is the multiset of its rows, grouped here by issue id, with no empty group kept, so that
      two tables hold the same rows exactly when the maps are equal. */
  datatype Tables = Tables(
    projects: map<int, string>,
    authors: map<int, string>,
    issues: map<int, RawIssue>,
    changes: map<int, multiset<StatusChange>>)

  /** The rows of raw.status_changes with the given issue id. */
  function ChangesOf(t: Tables, issueID: int): multiset<StatusChange> {
    if issueID in t.changes then t.changes[issueID] else multiset{}
  }

  /** The range of the schema's INT columns. */
  predicate Int4(i: int) {
    -0x8000_0000 <= i < 0x8000_0000
  }

  predicate KnownAuthor(t: Tables, id: int) {
    id in t.authors
  }

  /** The project, the author and the assignee of the row exist. */
  predicate Resolves(t: Tables, row: RawIssue) {
    && row.projectID in t.projects
    && KnownAuthor(t, row.authorID)
    && (row.assigneeID.Some? ==> KnownAuthor(t, row.assigneeID.value))
  }

  /** Every reference resolves, rows sit under their own keys, and no group of changes is empty. */
  ghost predicate Consistent(t: Tables) {
    && (forall id :: id in t.issues ==>
         t.issues[id].id == id && Resolves(t, t.issues[id]))
    && (forall id :: id in t.changes ==> id in t.issues && t.changes[id] != multiset{})
    && (forall id, c :: id in t.changes && c in t.changes[id] ==> c.issueID == id && c.authorID in t.authors)
  }

  // ---------- statements: `None` when a column range or a foreign key refuses the row ----------

  /** INSERT ... ON CONFLICT DO NOTHING: the first writer wins. */
  function InsertProjectSQL(t: Tables, p: RawProject): Option<Tables> {
    if !Int4(p.id) then None
    else if p.id in t.projects then Some(t)
    else Some(t.(projects := t.projects[p.id := p.title]))
  }

  /** INSERT ... ON CONFLICT DO NOTHING: the first writer wins. */
  function InsertAuthorSQL(t: Tables, a: RawAuthor): Option<Tables> {
    if !Int4(a.id) then None else Some(WithAuthor(t, a))
  }

  function WithAuthor(t: Tables, a: RawAuthor): Tables {
    if a.id in t.authors then t else t.(authors := t.authors[a.id := a.name])
  }

  predicate IssueAllowed(t: Tables, row: RawIssue) {
    && Int4(row.id)
    && (row.timeSpent.Some? ==> Int4(row.timeSpent.value))
    && Resolves(t, row)
  }

  /** INSERT ... ON CONFLICT (id) DO UPDATE: the last writer wins. */
  function InsertIssueSQL(t: Tables, row: RawIssue): Option<Tables> {
    if IssueAllowed(t, row) then Some(t.(issues := t.issues[row.id := row])) else None
  }

  function DeleteStatusChangesSQL(t: Tables, issueID: int): Tables {
    t.(changes := t.changes - {issueID})
  }

  function InsertStatusChangeSQL(t: Tables, c: StatusChange): Option<Tables> {
    if c.issueID in t.issues && c.authorID in t.authors then
      Some(t.(changes := t.changes[c.issueID := ChangesOf(t, c.issueID) + multiset{c}]))
    else
      None
  }
}
