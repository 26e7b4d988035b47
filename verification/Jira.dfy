/** Jira records as the client decodes them. */
module Jira {
  import opened Wrappers

  datatype Author = Author(name: string, displayName: string)

  datatype ChangeItem = ChangeItem(field: string, fromString: string, toString: string)

  datatype History = History(author: Author, created: string, items: seq<ChangeItem>)

  datatype Issue = Issue(key: string, id: string, changelog: Option<seq<History>>)

  datatype IssueFields = IssueFields(
    summary: string, description: string,
    created: string, updated: string, resolutionDate: string,
    timeSpent: int, issueType: string, priority: string, status: string,
    creator: Author, assignee: Author)

  datatype Project = Project(id: string, key: string, name: string)

  /** One page of a search. Of each listed issue only its key is used. */
  datatype SearchResponse = SearchResponse(keys: seq<string>, total: int)

  /** What the fetcher hands on: the issue, its decoded fields and the authors it mentions. */
  datatype ProcessedIssue = ProcessedIssue(
    taskID: string, issue: Issue, fields: IssueFields, projectID: int, authors: seq<Author>)

  function Histories(issue: Issue): seq<History> {
    match issue.changelog
    case None => []
    case Some(histories) => histories
  }
}
