/** The target database as the reconciler sees it: the migrations table, the
    effect of the migration SQL it has executed, and one transaction at a time
    (main.go:78-83, 108-111, 153-164). */
module Store {

  /** A row of the migrations table (main.go:78-83). `ID` and `CreatedAt` are
      assigned by the database and play no part in reconciliation. */
  datatype Migration = Migration(name: string, body: string)

  /** Committed database state: the migrations table in the order it is read
      back, and the migration SQL whose effects the schema holds, in order. */
  datatype Snapshot = Snapshot(records: seq<Migration>, executed: seq<string>)

  /** A request the reconciler sends inside a transaction. */
  datatype Action = Insert(row: Migration) | Exec(sql: string) | Commit

  /** The database. Whether the server accepts a request is not modelled: the
      fixed oracle `rejects` decides it, given the state the request sees (the
      committed state plus the open transaction's own writes). */
  class Database {
    var records: seq<Migration>
    var executed: seq<string>
    var txRows: seq<Migration>
    var txSql: seq<string>
    var inTx: bool
    const rejects: (Snapshot, Action) -> bool

    /** What has been committed. */
    function Committed(): Snapshot
      reads this
    {
      Snapshot(records, executed)
    }

    /** What a request inside the open transaction sees. */
    function View(): Snapshot
      reads this
    {
      Snapshot(records + txRows, executed + txSql)
    }

    /** No transaction is open. */
    ghost predicate Idle()
      reads this
    {
      !inTx && txRows == [] && txSql == []
    }

    constructor (records: seq<Migration>, executed: seq<string>, rejects: (Snapshot, Action) -> bool)
      ensures Idle()
      ensures Committed() == Snapshot(records, executed) && this.rejects == rejects
    {
      this.records, this.executed := records, executed;
      this.txRows, this.txSql, this.inTx := [], [], false;
      this.rejects := rejects;
    }

    /** `db.Begin()` (main.go:153). */
    method Begin()
      requires Idle()
      modifies this
      ensures inTx && txRows == [] && txSql == []
      ensures Committed() == old(Committed())
    {
      inTx := true;
    }

    /** `tx.Create(&Migration{...})` (main.go:154): stages one row. */
    method Create(row: Migration) returns (ok: bool)
      requires inTx
      modifies this`txRows
      ensures ok == !rejects(old(View()), Insert(row))
      ensures txRows == if ok then old(txRows) + [row] else old(txRows)
    {
      ok := !rejects(View(), Insert(row));
      if ok {
        txRows := txRows + [row];
      }
    }

    /** `tx.Exec(sql)` (main.go:158): runs one migration's SQL in the transaction. */
    method Exec(sql: string) returns (ok: bool)
      requires inTx
      modifies this`txSql
      ensures ok == !rejects(old(View()), Action.Exec(sql))
      ensures txSql == if ok then old(txSql) + [sql] else old(txSql)
    {
      ok := !rejects(View(), Action.Exec(sql));
      if ok {
        txSql := txSql + [sql];
      }
    }

    /** `tx.Rollback()` (main.go:155, 159): discards everything staged. */
    method Rollback()
      requires inTx
      modifies this
      ensures Idle() && Committed() == old(Committed())
    {
      txRows, txSql, inTx := [], [], false;
    }

    /** `tx.Commit()` (main.go:162): makes the staged writes durable, or, when
        the server refuses, ends the transaction with nothing written. */
    method Commit() returns (ok: bool)
      requires inTx
      modifies this
      ensures Idle()
      ensures ok == !rejects(old(View()), Action.Commit)
      ensures Committed() == if ok then old(View()) else old(Committed())
    {
      ok := !rejects(View(), Action.Commit);
      if ok {
        records, executed := records + txRows, executed + txSql;
      }
      txRows, txSql, inTx := [], [], false;
    }
  }
}
