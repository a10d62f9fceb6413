/** The in-memory driver and its transactions over rows that are updated in
    place: each method computes the statement on the tables it owns and
    touches nothing else. */
module MemoryDb {
  import opened Options
  import opened Tables

  class Row {
    var cols: RowData

    constructor (cols: RowData)
      ensures this.cols == cols
    {
      this.cols := cols;
    }
  }

  /** A map of slices of rows; drivers and transactions hold references to
      such maps. */
  class TableMap {
    var m: map<string, Slice<Row>>
    ghost var rows: set<Row>

    ghost function Repr(): set<object>
      reads this
    {
      {this} + rows
    }

    /** All rows are owned, and no row object is stored twice. */
    ghost predicate Valid()
      reads this
    {
      Owned(m, rows) && Distinct(m)
    }

    ghost function Contents(): Db
      reads this, rows
      requires Valid()
    {
      map t | t in m :: ViewSlice(m[t])
    }

    constructor ()
      ensures Valid() && Contents() == map[] && rows == {}
    {
      m, rows := map[], {};
    }
  }

  ghost predicate Owned(m: map<string, Slice<Row>>, rows: set<Row>) {
    forall t :: t in m ==> forall i :: 0 <= i < |RowsOf(m[t])| ==> RowsOf(m[t])[i] in rows
  }

  ghost predicate Distinct(m: map<string, Slice<Row>>) {
    && (forall t :: t in m ==> NoRepeats(RowsOf(m[t])))
    && (forall t, u :: t in m && u in m && t != u ==> Disjoint(RowsOf(m[t]), RowsOf(m[u])))
  }

  ghost predicate NoRepeats(rows: seq<Row>) {
    forall i, j :: 0 <= i < j < |rows| ==> rows[i] != rows[j]
  }

  ghost predicate Disjoint(a: seq<Row>, b: seq<Row>) {
    forall i, j :: 0 <= i < |a| && 0 <= j < |b| ==> a[i] != b[j]
  }

  ghost function View(rows: seq<Row>): (r: seq<RowData>)
    reads rows
    ensures |r| == |rows| && forall i :: 0 <= i < |rows| ==> r[i] == rows[i].cols
  {
    seq(|rows|, i requires 0 <= i < |rows| reads rows => rows[i].cols)
  }

  ghost function ViewSlice(s: Slice<Row>): Slice<RowData>
    reads RowsOf(s)
  {
    if s.NilSlice? then NilSlice else Slice(View(s.rows))
  }

  method CopyRow(row: Row) returns (r: Row)
    ensures fresh(r) && r.cols == row.cols
  {
    r := new Row(row.cols);
  }

  // ---------- queries ----------

  /** Copies of all the rows. */
  method CopyRows(rows: seq<Row>) returns (r: seq<Row>)
    ensures View(r) == View(rows) && NoRepeats(r) && forall k :: 0 <= k < |r| ==> fresh(r[k])
  {
    r := [];
    for i := 0 to |rows|
      invariant |r| == i && NoRepeats(r)
      invariant forall k :: 0 <= k < i ==> fresh(r[k]) && r[k].cols == rows[k].cols
    {
      var c := CopyRow(rows[i]);
      r := r + [c];
    }
    assert View(r) == View(rows);
  }

  /** Copies of the rows a WHERE picks. */
  method SelectRows(rows: seq<Row>, whereCol: string, v: Val) returns (r: seq<Row>)
    ensures View(r) == Selected(View(rows), whereCol, v) && NoRepeats(r) && forall k :: 0 <= k < |r| ==> fresh(r[k])
  {
    hide Matches;
    r := [];
    for i := 0 to |rows|
      invariant NoRepeats(r) && forall k :: 0 <= k < |r| ==> fresh(r[k])
      invariant View(r) == Selected(View(rows)[..i], whereCol, v)
    {
      assert View(rows)[..i + 1][..i] == View(rows)[..i];
      if Matches(rows[i].cols, whereCol, v) {
        var c := CopyRow(rows[i]);
        ghost var was := View(r);
        assert View(r + [c]) == was + [c.cols];
        r := r + [c];
      }
    }
    assert View(rows)[..|rows|] == View(rows);
  }

  // ---------- statements in place ----------

  method BuildRow(cols: seq<string>, args: seq<Val>) returns (row: Row)
    requires |cols| == |args|
    ensures fresh(row) && row.cols == RowOf(cols, args)
  {
    var data: RowData := map[];
    for i := 0 to |cols|
      invariant data == RowOf(cols[..i], args[..i])
    {
      assert cols[..i + 1][..i] == cols[..i] && args[..i + 1][..i] == args[..i];
      data := data[cols[i] := args[i]];
    }
    assert cols[..|cols|] == cols && args[..|args|] == args;
    row := new Row(data);
  }

  lemma UpdatedRowIs(row: RowData, setCol: string, setVal: Val, whereCol: string, v: Val)
    ensures UpdatedRow(row, setCol, setVal, whereCol, v)
            == if Matches(row, whereCol, v) then row[setCol := setVal] else row
  {
    hide Matches;
  }

  lemma UpdatedIs(before: seq<RowData>, after: seq<RowData>, setCol: string, setVal: Val, whereCol: string, v: Val)
    requires |before| == |after|
    requires forall k :: 0 <= k < |before| ==> after[k] == UpdatedRow(before[k], setCol, setVal, whereCol, v)
    ensures after == Updated(before, setCol, setVal, whereCol, v)
  {
    hide UpdatedRow;
  }

  /** The UPDATE loop: rows that match are changed where they are. */
  method UpdateRows(rows: seq<Row>, setCol: string, setVal: Val, whereCol: string, v: Val) returns (affected: nat)
    requires NoRepeats(rows)
    modifies rows
    ensures View(rows) == Updated(old(View(rows)), setCol, setVal, whereCol, v)
    ensures affected == |Selected(old(View(rows)), whereCol, v)|
  {
    hide Matches, Updated, UpdatedRow;
    affected := 0;
    ghost var before := View(rows);
    for i := 0 to |rows|
      invariant affected == |Selected(before[..i], whereCol, v)|
      invariant forall k :: 0 <= k < i ==> rows[k].cols == UpdatedRow(before[k], setCol, setVal, whereCol, v)
      invariant forall k :: i <= k < |rows| ==> rows[k].cols == before[k]
    {
      assert before[..i + 1][..i] == before[..i];
      UpdatedRowIs(before[i], setCol, setVal, whereCol, v);
      if Matches(rows[i].cols, whereCol, v) {
        rows[i].cols := rows[i].cols[setCol := setVal];
        affected := affected + 1;
      }
    }
    assert before[..|rows|] == before;
    UpdatedIs(before, View(rows), setCol, setVal, whereCol, v);
  }

  /** The DELETE loop: the rows that stay, in order. */
  method KeepRows(rows: seq<Row>, whereCol: string, v: Val) returns (kept: seq<Row>, affected: nat)
    requires NoRepeats(rows)
    ensures View(kept) == Tables.Kept(View(rows), whereCol, v) && affected == |Selected(View(rows), whereCol, v)|
    ensures NoRepeats(kept) && forall r :: r in kept ==> r in rows
  {
    hide Matches;
    kept, affected := [], 0;
    for i := 0 to |rows|
      invariant View(kept) == Tables.Kept(View(rows)[..i], whereCol, v)
      invariant affected == |Selected(View(rows)[..i], whereCol, v)|
      invariant NoRepeats(kept) && forall r :: r in kept ==> r in rows[..i]
    {
      assert View(rows)[..i + 1][..i] == View(rows)[..i];
      assert rows[..i + 1] == rows[..i] + [rows[i]];
      if Matches(rows[i].cols, whereCol, v) {
        affected := affected + 1;
      } else {
        assert rows[i] !in rows[..i];
        ghost var was := View(kept);
        assert View(kept + [rows[i]]) == was + [rows[i].cols];
        kept := kept + [rows[i]];
      }
    }
    assert View(rows)[..|rows|] == View(rows);
  }

  // ---------- tables ----------

  /** Replacing one table by slices of its own or fresh rows keeps the rows
      apart. */
  lemma ReplaceValid(m: map<string, Slice<Row>>, rows: set<Row>, table: string, s: Slice<Row>, rows': set<Row>)
    requires Owned(m, rows) && Distinct(m) && rows <= rows'
    requires NoRepeats(RowsOf(s)) && forall i :: 0 <= i < |RowsOf(s)| ==> RowsOf(s)[i] in rows'
    requires forall i :: 0 <= i < |RowsOf(s)| ==> RowsOf(s)[i] in RowsOf(TableOf(m, table)) || RowsOf(s)[i] !in rows
    ensures Owned(m[table := s], rows') && Distinct(m[table := s])
  {
    var n := m[table := s];
    hide NoRepeats;
    forall t, u | t in n && u in n && t != u ensures Disjoint(RowsOf(n[t]), RowsOf(n[u])) {
      if t == table { SliceApart(m, rows, table, s, u); }
      if u == table { SliceApart(m, rows, table, s, t); }
    }
  }

  /** A row not yet owned can join a table. */
  lemma OneMore(m: map<string, Slice<Row>>, rows: set<Row>, table: string, row: Row)
    requires Owned(m, rows) && Distinct(m) && row !in rows
    ensures var more := RowsOf(TableOf(m, table)) + [row];
            && NoRepeats(more) && (forall i :: 0 <= i < |more| ==> more[i] in rows + {row})
            && (forall i :: 0 <= i < |more| ==> more[i] in RowsOf(TableOf(m, table)) || more[i] !in rows)
  {
  }

  lemma SliceApart(m: map<string, Slice<Row>>, rows: set<Row>, table: string, s: Slice<Row>, u: string)
    requires Owned(m, rows) && Distinct(m) && u in m && u != table
    requires forall i :: 0 <= i < |RowsOf(s)| ==> RowsOf(s)[i] in RowsOf(TableOf(m, table)) || RowsOf(s)[i] !in rows
    ensures Disjoint(RowsOf(s), RowsOf(m[u])) && Disjoint(RowsOf(m[u]), RowsOf(s))
  {
    hide NoRepeats;
    var a, b := RowsOf(s), RowsOf(m[u]);
    forall i, j | 0 <= i < |a| && 0 <= j < |b| ensures a[i] != b[j] {
      assert b[j] in rows;
      if a[i] in rows {
        var k :| 0 <= k < |RowsOf(TableOf(m, table))| && RowsOf(TableOf(m, table))[k] == a[i];
        assert Disjoint(RowsOf(m[table]), RowsOf(m[u]));
      }
    }
  }

  ghost function RowSet(rows: seq<Row>): set<Row> {
    set r | r in rows
  }

  /** Store a slice of its own or fresh rows as a table. */
  method SetTable(tables: TableMap, table: string, s: Slice<Row>)
    requires tables.Valid() && NoRepeats(RowsOf(s))
    requires forall r :: r in RowsOf(s) ==> r in RowsOf(TableOf(tables.m, table)) || r !in tables.rows
    modifies tables
    ensures tables.Valid() && tables.rows == old(tables.rows) + RowSet(RowsOf(s))
    ensures tables.Contents() == old(tables.Contents())[table := ViewSlice(s)]
  {
    hide Owned, Distinct, View, NoRepeats, TableOf;
    ghost var all := tables.rows + RowSet(RowsOf(s));
    assert forall i :: 0 <= i < |RowsOf(s)| ==> RowsOf(s)[i] in RowsOf(s);
    ReplaceValid(tables.m, tables.rows, table, s, all);
    hide RowSet;
    tables.m, tables.rows := tables.m[table := s], all;
  }

  method InsertInto(tables: TableMap, table: string, row: Row)
    requires tables.Valid() && row !in tables.rows
    modifies tables
    ensures tables.Valid() && tables.rows == old(tables.rows) + {row}
    ensures var rows := RowsOf(TableOf(old(tables.Contents()), table));
            tables.Contents() == old(tables.Contents())[table := Slice(rows + [row.cols])]
  {
    var rows := RowsOf(TableOf(tables.m, table)) + [row];
    OneMore(tables.m, tables.rows, table, row);
    ghost var before := RowsOf(TableOf(tables.Contents(), table));
    hide Owned, Distinct, NoRepeats;
    assert View(rows) == View(RowsOf(TableOf(tables.m, table))) + [row.cols];
    assert View(RowsOf(TableOf(tables.m, table))) == before;
    hide View;
    ReplaceValid(tables.m, tables.rows, table, Slice(rows), tables.rows + {row});
    tables.m, tables.rows := tables.m[table := Slice(rows)], tables.rows + {row};
  }

  method UpdateIn(tables: TableMap, table: string, setCol: string, setVal: Val, whereCol: string,
      v: Val) returns (affected: nat)
    requires tables.Valid() && TableOf(tables.m, table).Slice?
    modifies tables.rows
    ensures tables.Valid()
    ensures var rows := old(tables.Contents())[table].rows;
            && tables.Contents() == old(tables.Contents())[table := Slice(Updated(rows, setCol, setVal, whereCol, v))]
            && affected == |Selected(rows, whereCol, v)|
  {
    hide Updated, Selected, Owned, Distinct;
    var rows := tables.m[table].rows;
    OthersApart(tables.m, tables.rows, table);
    affected := UpdateRows(rows, setCol, setVal, whereCol, v);
    hide View;
    forall t | t in tables.m && t != table ensures ViewSlice(tables.m[t]) == old(ViewSlice(tables.m[t])) {
      assert Disjoint(RowsOf(tables.m[t]), rows);
    }
  }

  lemma OthersApart(m: map<string, Slice<Row>>, rows: set<Row>, table: string)
    requires Owned(m, rows) && Distinct(m) && table in m
    ensures NoRepeats(RowsOf(m[table])) && forall r :: r in RowsOf(m[table]) ==> r in rows
    ensures forall t :: t in m && t != table ==> Disjoint(RowsOf(m[t]), RowsOf(m[table]))
  {
    hide NoRepeats, Disjoint;
  }

  method DeleteFrom(tables: TableMap, table: string, whereCol: string, v: Val) returns (affected: nat)
    requires tables.Valid() && TableOf(tables.m, table).Slice?
    modifies tables
    ensures tables.Valid() && tables.rows == old(tables.rows)
    ensures var rows := old(tables.Contents())[table].rows;
            && tables.Contents() == old(tables.Contents())[table := AsSlice(Tables.Kept(rows, whereCol, v))]
            && affected == |Selected(rows, whereCol, v)|
  {
    hide Tables.Kept, Selected;
    var rows := tables.m[table].rows;
    assert NoRepeats(rows);
    var kept;
    kept, affected := KeepRows(rows, whereCol, v);
    assert forall r :: r in rows ==> r in tables.rows;
    assert ViewSlice(AsSlice(kept)) == AsSlice(View(kept));
    assert forall r :: r in RowsOf(AsSlice(kept)) ==> r in rows;
    hide Owned, Distinct, View, ViewSlice, AsSlice, NoRepeats;
    SetTable(tables, table, AsSlice(kept));
  }

  method DeleteAll(tables: TableMap, table: string)
    requires tables.Valid()
    modifies tables
    ensures tables.Valid() && tables.rows == old(tables.rows)
    ensures tables.Contents() == old(tables.Contents())[table := NilSlice]
  {
    SetTable(tables, table, NilSlice);
  }

  method CopyTable(tables: TableMap, table: string, cp: TableMap)
    requires tables.Valid() && cp.Valid() && table in tables.m && cp != tables
    modifies cp
    ensures cp.Valid() && fresh(cp.rows - old(cp.rows))
    ensures cp.Contents() == old(cp.Contents())[table := Slice(RowsOf(tables.Contents()[table]))]
  {
    var copies := CopyRows(RowsOf(tables.m[table]));
    assert View(copies) == RowsOf(tables.Contents()[table]);
    hide Owned, Distinct, View, NoRepeats;
    SetTable(cp, table, Slice(copies));
  }

  /** Every table and every row anew. */
  method DeepCopy(tables: TableMap) returns (cp: TableMap)
    requires tables.Valid()
    ensures fresh(cp.Repr()) && cp.Valid() && cp.Contents() == Copied(tables.Contents())
  {
    hide Owned, Distinct, View, ViewSlice, Copied, CopiedBut;
    cp := new TableMap();
    ghost var db := tables.Contents();
    CopiedNone(db);
    var rest := tables.m.Keys;
    assert rest == db.Keys;
    while rest != {}
      invariant fresh(cp.Repr()) && cp.Valid() && rest <= db.Keys
      invariant cp.Contents() == CopiedBut(db, rest)
      decreases rest
    {
      var table :| table in rest;
      CopyTable(tables, table, cp);
      CopiedStep(db, rest, table);
      rest := rest - {table};
    }
    CopiedAll(db);
  }

  // ---------- the driver ----------

  class MemoryDriver {
    var tables: TableMap

    constructor (tables: TableMap)
      ensures this.tables == tables
    {
      this.tables := tables;
    }

    /** Rows handed out are copies: they share nothing with the tables. */
    method Query(stmt: Statement, args: seq<Val>) returns (r: Result<seq<Row>>)
      requires tables.Valid()
      ensures r.Ok? ==> forall k :: 0 <= k < |r.value| ==> fresh(r.value[k])
      ensures ViewResult(r) == Tables.Query(tables.Contents(), stmt, args)
    {
      hide Owned, Distinct, Selected;
      match stmt
      case Select(table, whereCol) =>
        var rows := TableOf(tables.m, table);
        if rows.NilSlice? {
          return Ok([]);
        }
        var result;
        if whereCol == "" {
          result := CopyRows(rows.rows);
        } else if |args| < 1 {
          return Err(MissingArgument);
        } else {
          result := SelectRows(rows.rows, whereCol, args[0]);
        }
        r := Ok(result);
      case _ => r := Err(Unsupported);
    }

    method QueryRow(stmt: Statement, args: seq<Val>) returns (r: Result<Option<Row>>)
      requires tables.Valid()
      ensures r.Ok? && r.value.Some? ==> fresh(r.value.value)
      ensures (match r
               case Err(e) => Err(e)
               case Ok(None) => Ok(None)
               case Ok(Some(row)) => Ok(Some(row.cols))) == Tables.QueryRow(tables.Contents(), stmt, args)
    {
      hide Owned, Distinct, Tables.Query;
      var rows := Query(stmt, args);
      if rows.Err? { return Err(rows.error); }
      if |rows.value| == 0 { return Ok(None); }
      if |rows.value| > 1 { return Err(MultipleRows); }
      r := Ok(Some(rows.value[0]));
    }

    /** Statements change the driver's own tables, in place. */
    method Exec(stmt: Statement, args: seq<Val>) returns (r: Result<nat>)
      requires tables.Valid()
      modifies tables, tables.rows
      ensures tables.Valid() && fresh(tables.rows - old(tables.rows))
      ensures (tables.Contents(), r) == Tables.Exec(old(tables.Contents()), stmt, args)
    {
      hide Owned, Distinct, Selected, Updated, Tables.Kept, RowOf;
      match stmt
      case Insert(table, cols) =>
        if |cols| != |args| { return Err(ColumnCount); }
        var row := BuildRow(cols, args);
        InsertInto(tables, table, row);
        r := Ok(1);
      case Update(table, setCol, whereCol) =>
        if |args| < 2 { return Err(MissingArgument); }
        if TableOf(tables.m, table).NilSlice? { return Ok(0); }
        var affected := UpdateIn(tables, table, setCol, args[0], whereCol, args[1]);
        r := Ok(affected);
      case Delete(table, whereCol) =>
        var rows := TableOf(tables.m, table);
        if rows.NilSlice? { return Ok(0); }
        if whereCol == "" {
          var count := |rows.rows|;
          DeleteAll(tables, table);
          return Ok(count);
        }
        if |args| < 1 { return Err(MissingArgument); }
        var affected := DeleteFrom(tables, table, whereCol, args[0]);
        r := Ok(affected);
      case _ => r := Err(Unsupported);
    }

    /** A transaction starts from a deep copy. */
    method Begin() returns (tx: MemoryTx)
      requires tables.Valid()
      ensures fresh(tx) && tx.driver == this && !tx.done
      ensures fresh(tx.snapshot.Repr()) && tx.snapshot.Valid() && tx.snapshot.Contents() == Copied(tables.Contents())
    {
      var snapshot := DeepCopy(tables);
      tx := new MemoryTx(this, snapshot);
    }
  }

  ghost function ViewResult(r: Result<seq<Row>>): Result<seq<RowData>>
    reads if r.Ok? then r.value else []
  {
    match r
    case Ok(rows) => Ok(View(rows))
    case Err(e) => Err(e)
  }

  // ---------- transactions ----------

  class MemoryTx {
    const driver: MemoryDriver
    const snapshot: TableMap
    var done: bool

    constructor (driver: MemoryDriver, snapshot: TableMap)
      ensures this.driver == driver && this.snapshot == snapshot && !done
    {
      this.driver, this.snapshot, done := driver, snapshot, false;
    }

    /** A transaction reads its own tables through a temporary driver. */
    method Query(stmt: Statement, args: seq<Val>) returns (r: Result<seq<Row>>)
      requires !done ==> snapshot.Valid()
      ensures r.Ok? ==> forall k :: 0 <= k < |r.value| ==> fresh(r.value[k])
      ensures ViewResult(r) == if done then Err(Completed) else Tables.Query(snapshot.Contents(), stmt, args)
    {
      if done { return Err(Completed); }
      var tmp := new MemoryDriver(snapshot);
      r := tmp.Query(stmt, args);
    }

    method Exec(stmt: Statement, args: seq<Val>) returns (r: Result<nat>)
      requires !done ==> snapshot.Valid()
      modifies if done then {} else snapshot.Repr()
      ensures done ==> r == Err(Completed)
      ensures !done ==> snapshot.Valid() && fresh(snapshot.rows - old(snapshot.rows))
                        && (snapshot.Contents(), r) == Tables.Exec(old(snapshot.Contents()), stmt, args)
    {
      if done { return Err(Completed); }
      var tmp := new MemoryDriver(snapshot);
      r := tmp.Exec(stmt, args);
    }

    /** Publish: the driver now holds the transaction's tables. */
    method Commit() returns (r: Result<()>)
      modifies if done then {} else {this, driver}
      ensures done
      ensures r == if old(done) then Err(Completed) else Ok(())
      ensures driver.tables == if old(done) then old(driver.tables) else snapshot
    {
      if done { return Err(Completed); }
      done := true;
      driver.tables := snapshot;
      r := Ok(());
    }

    method Rollback() returns (r: Result<()>)
      modifies if done then {} else {this}
      ensures done && r == if old(done) then Err(Completed) else Ok(())
    {
      if done { return Err(Completed); }
      done := true;
      r := Ok(());
    }
  }
}
