/** The repository over a database or one of its transactions (internal/repository/postgres/postgres.go).

    Any statement, Begin or Commit may fail for reasons of its own (a lost connection, a cancelled
    context): such a failure is a nondeterministic choice, counted as a fault of the database. PostgreSQL refuses every further statement of
    a transaction after one has failed, and its COMMIT then rolls back, which the pgx driver reports as
    an error; a Commit that fails has no effect. */
module Postgres {
  import opened Wrappers
  import opened Mapper
  import opened RawStore

  datatype DbError = AlreadyExists | StatementFailed | NestedTransaction | BeginFailed | OutsideTx | CommitFailed

  class Database {
    var tables: Tables
    /** How often a statement, Begin or Commit has failed for a reason of its own. */
    ghost var faults: nat

    constructor (tables: Tables)
      ensures this.tables == tables && faults == 0
    {
      this.tables := tables;
      this.faults := 0;
    }
  }

  class PostgresRepository {
    const db: Database
    /** Whether the querier is a transaction or the database itself. */
    const isTx: bool
    /** The tables as the open transaction sees them. */
    var work: Tables
    /** A statement of the transaction has failed. */
    var aborted: bool
    /** Neither committed nor rolled back. */
    var open: bool

    constructor (db: Database)
      ensures this.db == db && !isTx
    {
      this.db := db;
      this.isTx := false;
      this.work := Tables(map[], map[], map[], map[]);
      this.aborted := false;
      this.open := false;
    }

    constructor Tx(db: Database)
      ensures this.db == db && isTx && open && !aborted && work == db.tables
    {
      this.db := db;
      this.isTx := true;
      this.work := db.tables;
      this.aborted := false;
      this.open := true;
    }

    /** What a statement issued now reads. */
    ghost function View(): Tables
      reads this, db
    {
      if isTx then work else db.tables
    }

    /** The transaction can still commit what it has done. */
    ghost predicate Healthy()
      reads this
    {
      isTx && open && !aborted
    }

    /** The transaction was healthy, and the database has not failed since. */
    twostate predicate Undisturbed()
      reads this, db
    {
      old(Healthy()) && db.faults == old(db.faults)
    }

    /** Whether the database fails now. */
    method Fault() returns (fault: bool)
      modifies db`faults
      ensures db.faults == old(db.faults) + (if fault then 1 else 0)
    {
      fault := *;
      if fault {
        db.faults := db.faults + 1;
      }
    }

    method NewTx(ctxDone: bool) returns (r: Result<PostgresRepository, DbError>)
      modifies db`faults
      ensures db.faults >= old(db.faults)
      ensures r.Err? ==> isTx || ctxDone || db.faults > old(db.faults)
      ensures r.Ok? ==>
        && !isTx && !ctxDone
        && fresh(r.value) && r.value.db == db && r.value.Healthy() && r.value.work == db.tables
    {
      if isTx {
        return Err(NestedTransaction);
      }
      if ctxDone {
        return Err(BeginFailed);
      }
      var fault := Fault();
      if fault {
        return Err(BeginFailed);
      }
      var tx := new PostgresRepository.Tx(db);
      return Ok(tx);
    }

    method Commit() returns (r: Result<(), DbError>)
      modifies this`open, db`tables, db`faults
      ensures db.faults >= old(db.faults)
      ensures r.Err? ==> !old(Healthy()) || db.faults > old(db.faults)
      ensures r.Ok? ==> old(Healthy()) && db.tables == work
      ensures r.Err? ==> db.tables == old(db.tables)
      ensures !Healthy()
    {
      if !isTx {
        return Err(OutsideTx);
      }
      var fault := Fault();
      if !open || aborted || fault {
        open := false;
        return Err(CommitFailed);
      }
      open := false;
      db.tables := work;
      return Ok(());
    }

    method Rollback() returns (r: Result<(), DbError>)
      modifies this`open
      ensures !Healthy()
    {
      if !isTx {
        return Err(OutsideTx);
      }
      open := false;
      return Ok(());
    }

    /** One statement: `next` is its effect on what it reads, or `None` if a constraint refuses it. */
    method ExecContext(next: Option<Tables>) returns (r: Result<(), DbError>)
      modifies this`work, this`aborted, db`tables, db`faults
      ensures db.faults >= old(db.faults)
      ensures r.Err? ==> next == None || (isTx && !old(Healthy())) || db.faults > old(db.faults)
      ensures r.Ok? ==> next == Some(View()) && (isTx ==> Healthy())
      ensures r.Err? ==> r.error == StatementFailed && View() == old(View()) && !Healthy()
      ensures isTx ==> db.tables == old(db.tables)
      ensures !old(Healthy()) ==> !Healthy()
    {
      var fault := Fault();
      if (isTx && (!open || aborted)) || next == None || fault {
        aborted := true;
        return Err(StatementFailed);
      }
      if isTx {
        work := next.value;
      } else {
        db.tables := next.value;
      }
      return Ok(());
    }

    method InsertProject(project: RawProject) returns (r: Result<(), DbError>)
      modifies this`work, this`aborted, db`tables, db`faults
      ensures db.faults >= old(db.faults)
      ensures r.Err? ==> InsertProjectSQL(old(View()), project) == None || (isTx && !old(Healthy())) || db.faults > old(db.faults)
      ensures r.Ok? ==> InsertProjectSQL(old(View()), project) == Some(View()) && (isTx ==> Healthy())
      ensures r.Err? ==> r.error == StatementFailed && View() == old(View()) && !Healthy()
      ensures isTx ==> db.tables == old(db.tables)
      ensures !old(Healthy()) ==> !Healthy()
    {
      r := ExecContext(InsertProjectSQL(if isTx then work else db.tables, project));
    }

    method InsertAuthor(author: RawAuthor) returns (r: Result<(), DbError>)
      modifies this`work, this`aborted, db`tables, db`faults
      ensures db.faults >= old(db.faults)
      ensures r.Err? ==> InsertAuthorSQL(old(View()), author) == None || (isTx && !old(Healthy())) || db.faults > old(db.faults)
      ensures r.Ok? ==> InsertAuthorSQL(old(View()), author) == Some(View()) && (isTx ==> Healthy())
      ensures r.Err? ==> r.error == StatementFailed && View() == old(View()) && !Healthy()
      ensures isTx ==> db.tables == old(db.tables)
      ensures !old(Healthy()) ==> !Healthy()
    {
      r := ExecContext(InsertAuthorSQL(if isTx then work else db.tables, author));
    }

    method InsertIssue(row: RawIssue) returns (r: Result<(), DbError>)
      modifies this`work, this`aborted, db`tables, db`faults
      ensures db.faults >= old(db.faults)
      ensures r.Err? ==> InsertIssueSQL(old(View()), row) == None || (isTx && !old(Healthy())) || db.faults > old(db.faults)
      ensures r.Ok? ==> InsertIssueSQL(old(View()), row) == Some(View()) && (isTx ==> Healthy())
      ensures r.Err? ==> r.error == StatementFailed && View() == old(View()) && !Healthy()
      ensures isTx ==> db.tables == old(db.tables)
      ensures !old(Healthy()) ==> !Healthy()
    {
      r := ExecContext(InsertIssueSQL(if isTx then work else db.tables, row));
    }

    method DeleteStatusChangesByIssue(issueID: int) returns (r: Result<(), DbError>)
      modifies this`work, this`aborted, db`tables, db`faults
      ensures db.faults >= old(db.faults)
      ensures r.Err? ==> (isTx && !old(Healthy())) || db.faults > old(db.faults)
      ensures r.Ok? ==> View() == DeleteStatusChangesSQL(old(View()), issueID) && (isTx ==> Healthy())
      ensures r.Err? ==> r.error == StatementFailed && View() == old(View()) && !Healthy()
      ensures isTx ==> db.tables == old(db.tables)
      ensures !old(Healthy()) ==> !Healthy()
    {
      r := ExecContext(Some(DeleteStatusChangesSQL(if isTx then work else db.tables, issueID)));
    }

    method InsertStatusChange(c: StatusChange) returns (r: Result<(), DbError>)
      modifies this`work, this`aborted, db`tables, db`faults
      ensures db.faults >= old(db.faults)
      ensures r.Err? ==> InsertStatusChangeSQL(old(View()), c) == None || (isTx && !old(Healthy())) || db.faults > old(db.faults)
      ensures r.Ok? ==> InsertStatusChangeSQL(old(View()), c) == Some(View()) && (isTx ==> Healthy())
      ensures r.Err? ==> r.error == StatementFailed && View() == old(View()) && !Healthy()
      ensures isTx ==> db.tables == old(db.tables)
      ensures !old(Healthy()) ==> !Healthy()
    {
      r := ExecContext(InsertStatusChangeSQL(if isTx then work else db.tables, c));
    }
  }
}
