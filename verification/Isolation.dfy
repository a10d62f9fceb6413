/** Any interleaving of transactions and direct statements: what it does to the
    objects is what an abstract world of values does, and in that world
    transactions are isolated. */
module Isolation {
  import opened Tables
  import opened MemoryDb

  datatype TxState = Open(db: Db) | Finished

  datatype World = World(driver: Db, txs: seq<TxState>)

  datatype Op =
    | DriverQuery(stmt: Statement, args: seq<Val>)
    | DriverExec(stmt: Statement, args: seq<Val>)
    | Begin
    | TxQuery(tx: nat, stmt: Statement, args: seq<Val>)
    | TxExec(tx: nat, stmt: Statement, args: seq<Val>)
    | Commit(tx: nat)
    | Rollback(tx: nat)

  datatype Reply<R> = Rows(rows: Result<seq<R>>) | Count(count: Result<nat>) | Began | Ended(end: Result<()>)

  predicate Addressed(w: World, op: Op) {
    op.TxQuery? || op.TxExec? || op.Commit? || op.Rollback? ==> op.tx < |w.txs|
  }

  function Step(w: World, op: Op): (World, Reply<RowData>)
    requires Addressed(w, op)
  {
    match op
    case DriverQuery(stmt, args) => (w, Rows(Tables.Query(w.driver, stmt, args)))
    case DriverExec(stmt, args) =>
      var r := Tables.Exec(w.driver, stmt, args);
      (w.(driver := r.0), Count(r.1))
    case Begin => (w.(txs := w.txs + [Open(Copied(w.driver))]), Began)
    case TxQuery(i, stmt, args) =>
      (w, Rows(if w.txs[i].Finished? then Err(Completed) else Tables.Query(w.txs[i].db, stmt, args)))
    case TxExec(i, stmt, args) =>
      if w.txs[i].Finished? then (w, Count(Err(Completed)))
      else
        var r := Tables.Exec(w.txs[i].db, stmt, args);
        (w.(txs := w.txs[i := Open(r.0)]), Count(r.1))
    case Commit(i) =>
      if w.txs[i].Finished? then (w, Ended(Err(Completed)))
      else (World(w.txs[i].db, w.txs[i := Finished]), Ended(Ok(())))
    case Rollback(i) =>
      if w.txs[i].Finished? then (w, Ended(Err(Completed)))
      else (w.(txs := w.txs[i := Finished]), Ended(Ok(())))
  }

  // ---------- the objects ----------

  ghost function Snapshots(txs: seq<MemoryTx>): set<TableMap> {
    set t | t in txs :: t.snapshot
  }

  /** The tables of the driver and of every open transaction have no object in
      common. */
  ghost predicate Separate(driver: MemoryDriver, txs: seq<MemoryTx>)
    reads driver, driver.tables, txs, Snapshots(txs)
  {
    && driver.tables.Valid()
    && (forall i :: 0 <= i < |txs| ==> txs[i].driver == driver)
    && (forall i, j :: 0 <= i < j < |txs| ==> txs[i] != txs[j])
    && (forall i :: 0 <= i < |txs| && !txs[i].done ==> OpenApart(driver.tables, txs[i].snapshot))
    && (forall i, j :: 0 <= i < j < |txs| && !txs[i].done && !txs[j].done ==>
                         txs[i].snapshot.Repr() !! txs[j].snapshot.Repr())
  }

  ghost predicate OpenApart(tables: TableMap, snapshot: TableMap)
    reads tables, snapshot
  {
    snapshot.Valid() && snapshot.Repr() !! tables.Repr()
  }

  ghost function AbsTx(tx: MemoryTx): TxState
    reads tx, tx.snapshot, tx.snapshot.rows
    requires !tx.done ==> tx.snapshot.Valid()
  {
    if tx.done then Finished else Open(tx.snapshot.Contents())
  }

  ghost function SnapshotRows(txs: seq<MemoryTx>): set<Row>
    reads Snapshots(txs)
  {
    set t, r | t in txs && r in t.snapshot.rows :: r
  }

  ghost function Abs(driver: MemoryDriver, txs: seq<MemoryTx>): World
    reads driver, driver.tables, driver.tables.rows, txs, Snapshots(txs), SnapshotRows(txs)
    requires Separate(driver, txs)
  {
    World(driver.tables.Contents(), seq(|txs|, i requires 0 <= i < |txs| && Separate(driver, txs)
                                               reads driver, driver.tables, txs, Snapshots(txs), SnapshotRows(txs)
                                               => AbsTx(txs[i])))
  }

  method ServeDriverExec(driver: MemoryDriver, txs: seq<MemoryTx>, stmt: Statement,
      args: seq<Val>) returns (r: Result<nat>)
    requires Separate(driver, txs)
    modifies driver.tables.Repr()
    ensures Separate(driver, txs)
    ensures (Abs(driver, txs), Count(r)) == Step(old(Abs(driver, txs)), DriverExec(stmt, args))
  {
    hide Owned, Distinct, View, ViewSlice, Tables.Exec;
    r := driver.Exec(stmt, args);
    forall i | 0 <= i < |txs| && !txs[i].done
      ensures OpenApart(driver.tables, txs[i].snapshot) && txs[i].snapshot.Contents() == old(txs[i].snapshot.Contents())
    {
      assert old(OpenApart(driver.tables, txs[i].snapshot));
    }
    assert Abs(driver, txs).txs == old(Abs(driver, txs).txs);
  }

  method ServeBegin(driver: MemoryDriver, txs: seq<MemoryTx>) returns (txs': seq<MemoryTx>)
    requires Separate(driver, txs)
    ensures Separate(driver, txs')
    ensures (Abs(driver, txs'), Began) == Step(old(Abs(driver, txs)), Begin)
  {
    hide Owned, Distinct, View, ViewSlice, Copied;
    var tx := driver.Begin();
    txs' := txs + [tx];
    assert Abs(driver, txs) == old(Abs(driver, txs));
    assert Abs(driver, txs').txs == Abs(driver, txs).txs + [Open(tx.snapshot.Contents())];
  }

  lemma SnapshotsApart(driver: MemoryDriver, txs: seq<MemoryTx>, i: nat)
    requires Separate(driver, txs) && i < |txs| && !txs[i].done
    ensures OpenApart(driver.tables, txs[i].snapshot)
    ensures forall j :: 0 <= j < |txs| && j != i && !txs[j].done ==> txs[i].snapshot.Repr() !! txs[j].snapshot.Repr()
  {
  }

  method ServeTxExec(driver: MemoryDriver, txs: seq<MemoryTx>, i: nat, stmt: Statement,
      args: seq<Val>) returns (r: Result<nat>)
    requires Separate(driver, txs) && i < |txs| && !txs[i].done
    modifies txs[i].snapshot.Repr()
    ensures Separate(driver, txs)
    ensures (Abs(driver, txs), Count(r)) == Step(old(Abs(driver, txs)), TxExec(i, stmt, args))
  {
    hide Owned, Distinct, View, ViewSlice, Tables.Exec;
    var tx := txs[i];
    SnapshotsApart(driver, txs, i);
    r := tx.Exec(stmt, args);
    forall j | 0 <= j < |txs| && !txs[j].done && j != i
      ensures OpenApart(driver.tables, txs[j].snapshot) && txs[j].snapshot.Contents() == old(txs[j].snapshot.Contents())
    {
      assert old(OpenApart(driver.tables, txs[j].snapshot));
    }
    assert Abs(driver, txs).driver == old(Abs(driver, txs).driver);
    assert Abs(driver, txs).txs == old(Abs(driver, txs).txs)[i := AbsTx(tx)];
  }

  method ServeCommit(driver: MemoryDriver, txs: seq<MemoryTx>, i: nat) returns (r: Result<()>)
    requires Separate(driver, txs) && i < |txs|
    modifies driver, txs[i]
    ensures Separate(driver, txs)
    ensures (Abs(driver, txs), Ended(r)) == Step(old(Abs(driver, txs)), Commit(i))
  {
    hide Owned, Distinct, View, ViewSlice;
    var tx := txs[i];
    if !tx.done {
      SnapshotsApart(driver, txs, i);
    }
    r := tx.Commit();
    forall j | 0 <= j < |txs| && !txs[j].done && j != i
      ensures OpenApart(driver.tables, txs[j].snapshot) && txs[j].snapshot.Contents() == old(txs[j].snapshot.Contents())
    {
      assert old(OpenApart(driver.tables, txs[j].snapshot));
    }
    assert Abs(driver, txs).txs == old(Abs(driver, txs).txs)[i := Finished];
    assert old(tx.done) ==> Abs(driver, txs).txs == old(Abs(driver, txs).txs);
  }

  method ServeRollback(driver: MemoryDriver, txs: seq<MemoryTx>, i: nat) returns (r: Result<()>)
    requires Separate(driver, txs) && i < |txs|
    modifies txs[i]
    ensures Separate(driver, txs)
    ensures (Abs(driver, txs), Ended(r)) == Step(old(Abs(driver, txs)), Rollback(i))
  {
    hide Owned, Distinct, View, ViewSlice;
    var tx := txs[i];
    r := tx.Rollback();
    assert Abs(driver, txs).txs == old(Abs(driver, txs).txs)[i := Finished];
    assert old(tx.done) ==> Abs(driver, txs).txs == old(Abs(driver, txs).txs);
  }

  /** The contents of a reply. */
  ghost function Seen(reply: Reply<Row>): Reply<RowData>
    reads if reply.Rows? && reply.rows.Ok? then reply.rows.value else []
  {
    match reply
    case Rows(rows) => Rows(ViewResult(rows))
    case Count(n) => Count(n)
    case Began => Began
    case Ended(e) => Ended(e)
  }

  /** One operation of any client on the shared objects: exactly a step of the
      abstract world, and the tables stay separate. */
  method Serve(driver: MemoryDriver, txs: seq<MemoryTx>, op: Op) returns (txs': seq<MemoryTx>, reply: Reply<Row>)
    requires Separate(driver, txs) && Addressed(Abs(driver, txs), op)
    modifies driver, driver.tables.Repr(), txs, set t, o | t in txs && o in t.snapshot.Repr() :: o
    ensures Separate(driver, txs')
    ensures (Abs(driver, txs'), Seen(reply)) == Step(old(Abs(driver, txs)), op)
  {
    hide Owned, Distinct, View, ViewSlice, Tables.Exec, Tables.Query, Copied;
    txs' := txs;
    match op
    case DriverQuery(stmt, args) =>
      var rows := driver.Query(stmt, args);
      assert Abs(driver, txs) == old(Abs(driver, txs));
      reply := Rows(rows);
    case DriverExec(stmt, args) =>
      var n := ServeDriverExec(driver, txs, stmt, args);
      reply := Count(n);
    case Begin =>
      txs' := ServeBegin(driver, txs);
      reply := Began;
    case TxQuery(i, stmt, args) =>
      var rows := txs[i].Query(stmt, args);
      assert Abs(driver, txs) == old(Abs(driver, txs));
      reply := Rows(rows);
    case TxExec(i, stmt, args) =>
      var n;
      if txs[i].done {
        n := txs[i].Exec(stmt, args);
        assert Abs(driver, txs) == old(Abs(driver, txs));
      } else {
        n := ServeTxExec(driver, txs, i, stmt, args);
      }
      reply := Count(n);
    case Commit(i) =>
      var e := ServeCommit(driver, txs, i);
      reply := Ended(e);
    case Rollback(i) =>
      var e := ServeRollback(driver, txs, i);
      reply := Ended(e);
  }

  // ---------- runs ----------

  /** The world after a list of operations. */
  function After(w: World, ops: seq<Op>): World
    requires AllAddressed(w, ops)
    decreases |ops|
  {
    if |ops| == 0 then w else After(Step(w, ops[0]).0, ops[1..])
  }

  predicate AllAddressed(w: World, ops: seq<Op>)
    decreases |ops|
  {
    |ops| == 0 || (Addressed(w, ops[0]) && AllAddressed(Step(w, ops[0]).0, ops[1..]))
  }

  /** Whether an operation belongs to transaction `i`. */
  predicate By(op: Op, i: nat) {
    (op.TxQuery? || op.TxExec? || op.Commit? || op.Rollback?) && op.tx == i
  }

  /** Transaction `i` alone: what its own operations make of its tables. */
  function Own(db: Db, ops: seq<Op>, i: nat): Db
    decreases |ops|
  {
    if |ops| == 0 then db
    else Own(if ops[0].TxExec? && ops[0].tx == i then Tables.Exec(db, ops[0].stmt, ops[0].args).0 else db, ops[1..], i)
  }

  predicate Ends(op: Op, i: nat) {
    (op.Commit? || op.Rollback?) && op.tx == i
  }

  /** A transaction reads its begin-time tables plus its own writes, whatever
      the driver and other transactions do meanwhile. */
  lemma {:induction false} SnapshotIsolation(w: World, ops: seq<Op>, i: nat)
    requires i < |w.txs| && w.txs[i].Open? && AllAddressed(w, ops)
    requires forall k :: 0 <= k < |ops| ==> !Ends(ops[k], i)
    ensures i < |After(w, ops).txs| && After(w, ops).txs[i] == Open(Own(w.txs[i].db, ops, i))
    decreases |ops|
  {
    hide Tables.Exec, Tables.Query, Copied;
    if |ops| > 0 {
      var w1 := Step(w, ops[0]).0;
      assert !Ends(ops[0], i);
      assert i < |w1.txs| && w1.txs[i].Open?;
      SnapshotIsolation(w1, ops[1..], i);
    }
  }

  /** From its begin on, a transaction started at `w` sees a copy of the
      driver's tables at `w` and its own writes. */
  lemma BeginIsolation(w: World, ops: seq<Op>, stmt: Statement, args: seq<Val>)
    requires AllAddressed(Step(w, Begin).0, ops)
    requires forall k :: 0 <= k < |ops| ==> !Ends(ops[k], |w.txs|)
    ensures var i := |w.txs|;
            var later := After(Step(w, Begin).0, ops);
            && Addressed(later, TxQuery(i, stmt, args))
            && Step(later, TxQuery(i, stmt, args)).1 == Rows(Tables.Query(Own(Copied(w.driver), ops, i), stmt, args))
  {
    hide Tables.Query, Copied;
    SnapshotIsolation(Step(w, Begin).0, ops, |w.txs|);
  }

  /** The same world as far as the driver and everyone but `i` can tell. */
  predicate SameBut(v: World, w: World, i: nat) {
    v.driver == w.driver && |v.txs| == |w.txs| && forall j :: 0 <= j < |v.txs| && j != i ==> v.txs[j] == w.txs[j]
  }

  /** The operations that are not transaction `i`'s. */
  function Without(ops: seq<Op>, i: nat): seq<Op> {
    if |ops| == 0 then []
    else if By(ops[0], i) then Without(ops[1..], i)
    else [ops[0]] + Without(ops[1..], i)
  }

  /** A transaction that is never committed leaves the driver and all other
      transactions as if it had never run: dropping its operations, rollback
      included, changes nothing for anyone else. */
  lemma {:induction false} RollbackInvisible(v: World, w: World, ops: seq<Op>, i: nat)
    requires SameBut(v, w, i) && AllAddressed(v, ops) && i < |v.txs|
    requires forall k :: 0 <= k < |ops| ==> ops[k] != Commit(i)
    ensures AllAddressed(w, Without(ops, i)) && SameBut(After(v, ops), After(w, Without(ops, i)), i)
    decreases |ops|
  {
    hide Tables.Exec, Tables.Query, Copied;
    if |ops| > 0 {
      var v1 := Step(v, ops[0]).0;
      assert ops[0] != Commit(i);
      if By(ops[0], i) {
        assert SameBut(v1, w, i);
        RollbackInvisible(v1, w, ops[1..], i);
      } else {
        var w1 := Step(w, ops[0]).0;
        assert SameBut(v1, w1, i);
        RollbackInvisible(v1, w1, ops[1..], i);
        assert Without(ops, i) == [ops[0]] + Without(ops[1..], i);
        assert Without(ops, i)[1..] == Without(ops[1..], i);
      }
    }
  }

  /** Commit makes the driver equal to what the transaction has been seeing. */
  lemma CommitPublishes(w: World, ops: seq<Op>, i: nat)
    requires i < |w.txs| && w.txs[i].Open? && AllAddressed(w, ops)
    requires forall k :: 0 <= k < |ops| ==> !Ends(ops[k], i)
    ensures var last := After(w, ops);
            Addressed(last, Commit(i)) && Step(last, Commit(i)).0.driver == Own(w.txs[i].db, ops, i)
  {
    hide After, Own, AllAddressed;
    SnapshotIsolation(w, ops, i);
  }

  /** A finished transaction can do nothing any more. */
  lemma {:induction false} FinishedInert(w: World, ops: seq<Op>, i: nat)
    requires i < |w.txs| && w.txs[i].Finished? && AllAddressed(w, ops)
    ensures i < |After(w, ops).txs| && After(w, ops).txs[i].Finished?
    ensures AllAddressed(w, Without(ops, i)) && After(w, ops) == After(w, Without(ops, i))
    decreases |ops|
  {
    hide Tables.Exec, Tables.Query, Copied;
    if |ops| > 0 {
      var w1 := Step(w, ops[0]).0;
      assert By(ops[0], i) ==> w1 == w;
      FinishedInert(w1, ops[1..], i);
      if !By(ops[0], i) {
        assert Without(ops, i)[1..] == Without(ops[1..], i);
      }
    }
  }

  /** Whom an operation answers and whom it changes: the driver's operations work on the
      driver's tables, a transaction's on its own while it is open, and a finished one
      refuses everything. */
  lemma AnswersAre(w: World, stmt: Statement, args: seq<Val>, i: nat)
    requires i < |w.txs|
    ensures Step(w, DriverQuery(stmt, args)) == (w, Rows(Tables.Query(w.driver, stmt, args)))
    ensures Step(w, DriverExec(stmt, args))
            == (World(Tables.Exec(w.driver, stmt, args).0, w.txs), Count(Tables.Exec(w.driver, stmt, args).1))
    ensures w.txs[i].Open? ==>
              && Step(w, TxQuery(i, stmt, args)) == (w, Rows(Tables.Query(w.txs[i].db, stmt, args)))
              && Step(w, TxExec(i, stmt, args)).1 == Count(Tables.Exec(w.txs[i].db, stmt, args).1)
              && Step(w, Commit(i)) == (World(w.txs[i].db, w.txs[i := Finished]), Ended(Ok(())))
              && Step(w, Rollback(i)) == (World(w.driver, w.txs[i := Finished]), Ended(Ok(())))
    ensures w.txs[i].Finished? ==>
              && Step(w, TxQuery(i, stmt, args)) == (w, Rows(Err(Completed)))
              && Step(w, TxExec(i, stmt, args)) == (w, Count(Err(Completed)))
              && Step(w, Commit(i)) == (w, Ended(Err(Completed)))
              && Step(w, Rollback(i)) == (w, Ended(Err(Completed)))
  {
    hide Tables.Exec, Tables.Query;
  }
}
