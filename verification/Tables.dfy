/** What the statements of the in-memory database do to tables, as values. */
module Tables {
  import opened Options

  datatype Val = Nil | Int(n: int) | Bool(b: bool) | Str(s: string)

  /** A slice of rows: a nil slice is not the same as an empty one. */
  datatype Slice<T> = NilSlice | Slice(rows: seq<T>)

  type RowData = map<string, Val>

  type Db = map<string, Slice<RowData>>

  /** A parsed statement.  An empty `whereCol` means there is no WHERE. */
  datatype Statement =
    | Insert(table: string, cols: seq<string>)
    | Select(table: string, whereCol: string)
    | Update(table: string, setCol: string, whereCol: string)
    | Delete(table: string, whereCol: string)
    | Other

  datatype Error = Unsupported | ColumnCount | MissingArgument | MultipleRows | Completed

  datatype Result<T> = Ok(value: T) | Err(error: Error)

  // ---------- comparing values ----------

  function Digits(n: nat): string {
    if n < 10 then ["0123456789"[n]] else Digits(n / 10) + ["0123456789"[n % 10]]
  }

  /** The `%v` rendering that comparisons go through. */
  function Show(v: Val): string {
    match v
    case Nil => "<nil>"
    case Int(n) => if n < 0 then "-" + Digits(-n) else Digits(n)
    case Bool(b) => if b then "true" else "false"
    case Str(s) => s
  }

  function Lookup(row: RowData, col: string): Val {
    if col in row then row[col] else Nil
  }

  predicate Matches(row: RowData, col: string, v: Val) {
    Show(Lookup(row, col)) == Show(v)
  }

  // ---------- statements on rows ----------

  /** The row an INSERT builds: the last value given for a column stays. */
  function RowOf(cols: seq<string>, args: seq<Val>): RowData
    requires |cols| == |args|
  {
    if |cols| == 0 then map[]
    else RowOf(cols[..|cols| - 1], args[..|args| - 1])[cols[|cols| - 1] := args[|args| - 1]]
  }

  function Selected(rows: seq<RowData>, col: string, v: Val): seq<RowData> {
    if |rows| == 0 then []
    else
      var n := |rows| - 1;
      Selected(rows[..n], col, v) + if Matches(rows[n], col, v) then [rows[n]] else []
  }

  function Kept(rows: seq<RowData>, col: string, v: Val): seq<RowData> {
    if |rows| == 0 then []
    else
      var n := |rows| - 1;
      Kept(rows[..n], col, v) + if Matches(rows[n], col, v) then [] else [rows[n]]
  }

  function UpdatedRow(row: RowData, setCol: string, setVal: Val, whereCol: string, v: Val): RowData {
    if Matches(row, whereCol, v) then row[setCol := setVal] else row
  }

  function Updated(rows: seq<RowData>, setCol: string, setVal: Val, whereCol: string, v: Val): (r: seq<RowData>)
    ensures |r| == |rows|
  {
    seq(|rows|, i requires 0 <= i < |rows| => UpdatedRow(rows[i], setCol, setVal, whereCol, v))
  }

  /** The rows of a table; a missing one is a nil slice. */
  function TableOf<T>(tables: map<string, Slice<T>>, table: string): Slice<T> {
    if table in tables then tables[table] else NilSlice
  }

  function RowsOf<T>(s: Slice<T>): seq<T> {
    if s.NilSlice? then [] else s.rows
  }

  // ---------- statements on the whole database ----------

  function Query(db: Db, stmt: Statement, args: seq<Val>): Result<seq<RowData>> {
    match stmt
    case Select(table, whereCol) =>
      var rows := TableOf(db, table);
      if rows.NilSlice? then Ok([])
      else if whereCol == "" then Ok(rows.rows)
      else if |args| < 1 then Err(MissingArgument)
      else Ok(Selected(rows.rows, whereCol, args[0]))
    case _ => Err(Unsupported)
  }

  function QueryRow(db: Db, stmt: Statement, args: seq<Val>): Result<Option<RowData>> {
    match Query(db, stmt, args)
    case Err(e) => Err(e)
    case Ok(rows) => if |rows| == 0 then Ok(None) else if |rows| > 1 then Err(MultipleRows) else Ok(Some(rows[0]))
  }

  /** The tables after a statement, with the number of affected rows. */
  function Exec(db: Db, stmt: Statement, args: seq<Val>): (Db, Result<nat>) {
    match stmt
    case Insert(table, cols) =>
      if |cols| != |args| then (db, Err(ColumnCount))
      else (db[table := Slice(RowsOf(TableOf(db, table)) + [RowOf(cols, args)])], Ok(1))
    case Update(table, setCol, whereCol) =>
      if |args| < 2 then (db, Err(MissingArgument))
      else
        var rows := TableOf(db, table);
        if rows.NilSlice? then (db, Ok(0))
        else (db[table := Slice(Updated(rows.rows, setCol, args[0], whereCol, args[1]))],
              Ok(|Selected(rows.rows, whereCol, args[1])|))
    case Delete(table, whereCol) =>
      var rows := TableOf(db, table);
      if rows.NilSlice? then (db, Ok(0))
      else if whereCol == "" then (db[table := NilSlice], Ok(|rows.rows|))
      else if |args| < 1 then (db, Err(MissingArgument))
      else (db[table := AsSlice(Kept(rows.rows, whereCol, args[0]))], Ok(|Selected(rows.rows, whereCol, args[0])|))
    case _ => (db, Err(Unsupported))
  }

  /** A list built by appending to nil. */
  function AsSlice<T>(rows: seq<T>): Slice<T> {
    if |rows| == 0 then NilSlice else Slice(rows)
  }

  /** A deep copy makes every table a proper slice, even an empty one. */
  function Copied(db: Db): Db {
    map t | t in db :: Slice(RowsOf(db[t]))
  }

  /** A copy in progress: every table but those in `rest`. */
  ghost function CopiedBut(db: Db, rest: set<string>): Db {
    map t | t in db && t !in rest :: Slice(RowsOf(db[t]))
  }

  lemma CopiedStep(db: Db, rest: set<string>, table: string)
    requires table in db && table in rest
    ensures CopiedBut(db, rest)[table := Slice(RowsOf(db[table]))] == CopiedBut(db, rest - {table})
  {
  }

  lemma CopiedNone(db: Db)
    ensures CopiedBut(db, db.Keys) == map[]
  {
  }

  lemma CopiedAll(db: Db)
    ensures CopiedBut(db, {}) == Copied(db)
  {
  }

  // ---------- what the statements mean ----------

  /** DELETE takes away exactly what SELECT would have found. */
  lemma {:induction false} KeptPartition(rows: seq<RowData>, col: string, v: Val)
    ensures multiset(Kept(rows, col, v)) + multiset(Selected(rows, col, v)) == multiset(rows)
  {
    if |rows| > 0 {
      hide Kept, Selected, Matches;
      var n := |rows| - 1;
      KeptPartition(rows[..n], col, v);
      KeptSplits(rows, col, v);
      SplitLast(rows);
      PartitionStep(rows, Kept(rows, col, v), Selected(rows, col, v), rows[..n], Kept(rows[..n], col, v),
                    Selected(rows[..n], col, v), rows[n]);
    }
  }

  lemma SplitLast<T>(s: seq<T>)
    requires |s| > 0
    ensures s == s[..|s| - 1] + [s[|s| - 1]]
  {
  }

  lemma PartitionStep<T>(rows: seq<T>, kept: seq<T>, dropped: seq<T>, rows0: seq<T>, k: seq<T>, d: seq<T>, x: T)
    requires rows == rows0 + [x] && multiset(k) + multiset(d) == multiset(rows0)
    requires (kept == k && dropped == d + [x]) || (kept == k + [x] && dropped == d)
    ensures multiset(kept) + multiset(dropped) == multiset(rows)
  {
    AddOne(k, d, rows0, x);
  }

  lemma KeptSplits(rows: seq<RowData>, col: string, v: Val)
    requires |rows| > 0
    ensures var n := |rows| - 1;
            var k, d, x := Kept(rows[..n], col, v), Selected(rows[..n], col, v), rows[n];
            || (Kept(rows, col, v) == k && Selected(rows, col, v) == d + [x])
            || (Kept(rows, col, v) == k + [x] && Selected(rows, col, v) == d)
  {
    hide Matches;
  }

  /** The affected count is the number of rows that went away. */
  lemma {:induction false} KeptCount(rows: seq<RowData>, col: string, v: Val)
    ensures |Kept(rows, col, v)| + |Selected(rows, col, v)| == |rows|
  {
    if |rows| > 0 {
      hide Matches;
      KeptCount(rows[..|rows| - 1], col, v);
    }
  }

  lemma AddOne<T>(k: seq<T>, d: seq<T>, rows: seq<T>, x: T)
    requires multiset(k) + multiset(d) == multiset(rows)
    ensures multiset(k + [x]) + multiset(d) == multiset(rows + [x]) == multiset(k) + multiset(d + [x])
  {
  }

  lemma {:induction false} SidesMatch(rows: seq<RowData>, col: string, v: Val)
    ensures forall r :: r in Kept(rows, col, v) ==> !Matches(r, col, v)
    ensures forall r :: r in Selected(rows, col, v) ==> Matches(r, col, v)
  {
    hide Matches;
    if |rows| > 0 { SidesMatch(rows[..|rows| - 1], col, v); }
  }

  lemma {:induction false} NothingSelected(rows: seq<RowData>, col: string, v: Val)
    requires forall r :: r in rows ==> !Matches(r, col, v)
    ensures Selected(rows, col, v) == []
  {
    hide Matches;
    if |rows| > 0 {
      assert rows[|rows| - 1] in rows;
      NothingSelected(rows[..|rows| - 1], col, v);
    }
  }

  /** After DELETE the same WHERE finds nothing, and other tables are as they
      were. */
  lemma DeleteThenQuery(db: Db, table: string, col: string, args: seq<Val>)
    requires col != "" && |args| >= 1
    ensures var after := Exec(db, Delete(table, col), args).0;
            && Query(after, Select(table, col), args) == Ok([])
            && forall t :: t != table ==> TableOf(after, t) == TableOf(db, t)
  {
    var rows := TableOf(db, table);
    if rows.Slice? {
      SidesMatch(rows.rows, col, args[0]);
      hide Matches;
      NothingSelected(Kept(rows.rows, col, args[0]), col, args[0]);
    }
  }

  /** An inserted row is found again, last, exactly when it matches. */
  lemma InsertThenQuery(db: Db, table: string, cols: seq<string>, args: seq<Val>, col: string, v: Val)
    requires |cols| == |args| && col != ""
    ensures var row := RowOf(cols, args);
            var after := Exec(db, Insert(table, cols), args).0;
            Query(after, Select(table, col), [v])
            == Ok(Selected(RowsOf(TableOf(db, table)), col, v) + if Matches(row, col, v) then [row] else [])
  {
    hide Matches, RowOf;
    var rows := RowsOf(TableOf(db, table)) + [RowOf(cols, args)];
    assert rows[..|rows| - 1] == RowsOf(TableOf(db, table));
  }

  function SetAll(rows: seq<RowData>, col: string, v: Val): (r: seq<RowData>)
    ensures |r| == |rows|
  {
    seq(|rows|, i requires 0 <= i < |rows| => rows[i][col := v])
  }

  lemma UpdatedPrefix(rows: seq<RowData>, setCol: string, setVal: Val, col: string, v: Val)
    requires |rows| > 0
    ensures var n := |rows| - 1;
            && Updated(rows, setCol, setVal, col, v)[..n] == Updated(rows[..n], setCol, setVal, col, v)
            && Updated(rows, setCol, setVal, col, v)[n] == UpdatedRow(rows[n], setCol, setVal, col, v)
  {
    hide UpdatedRow;
  }

  lemma UpdateMatches(row: RowData, setCol: string, setVal: Val, col: string, v: Val)
    requires setCol != col
    ensures Matches(UpdatedRow(row, setCol, setVal, col, v), col, v) == Matches(row, col, v)
    ensures UpdatedRow(row, setCol, setVal, col, v) == if Matches(row, col, v) then row[setCol := setVal] else row
  {
    hide Show;
  }

  /** UPDATE changes exactly the rows its WHERE picks, in the one column, and
      leaves all others as they were. */
  lemma {:induction false} UpdatedSides(rows: seq<RowData>, setCol: string, setVal: Val, col: string, v: Val)
    requires setCol != col
    ensures var after := Updated(rows, setCol, setVal, col, v);
            && Selected(after, col, v) == SetAll(Selected(rows, col, v), setCol, setVal)
            && Kept(after, col, v) == Kept(rows, col, v)
  {
    if |rows| > 0 {
      var n := |rows| - 1;
      UpdatedPrefix(rows, setCol, setVal, col, v);
      UpdateMatches(rows[n], setCol, setVal, col, v);
      SidesStep(rows, col, v);
      SidesStep(Updated(rows, setCol, setVal, col, v), col, v);
      hide Updated, UpdatedRow, Matches, Selected, Kept, SetAll;
      UpdatedSides(rows[..n], setCol, setVal, col, v);
      SetAllAppend(Selected(rows[..n], col, v), rows[n], setCol, setVal);
    }
  }

  lemma SidesStep(rows: seq<RowData>, col: string, v: Val)
    requires |rows| > 0
    ensures var n := |rows| - 1;
            var d, k := Selected(rows[..n], col, v), Kept(rows[..n], col, v);
            && Selected(rows, col, v) == (if Matches(rows[n], col, v) then d + [rows[n]] else d)
            && Kept(rows, col, v) == (if Matches(rows[n], col, v) then k else k + [rows[n]])
  {
    hide Matches;
  }

  lemma SetAllAppend(rows: seq<RowData>, row: RowData, col: string, v: Val)
    ensures SetAll(rows + [row], col, v) == SetAll(rows, col, v) + [row[col := v]]
  {
  }

  /** After UPDATE the same WHERE finds the rows it found before with the new
      value in the set column, and the count says how many. */
  lemma UpdateThenQuery(db: Db, table: string, setCol: string, col: string, setVal: Val, v: Val)
    requires col != "" && setCol != col
    ensures var r := Exec(db, Update(table, setCol, col), [setVal, v]);
            var found := Selected(RowsOf(TableOf(db, table)), col, v);
            && Query(r.0, Select(table, col), [v]) == Ok(SetAll(found, setCol, setVal)) && r.1 == Ok(|found|)
            && forall t :: t != table ==> TableOf(r.0, t) == TableOf(db, t)
  {
    hide Updated, Selected;
    var rows := TableOf(db, table);
    if rows.Slice? {
      UpdatedSides(rows.rows, setCol, setVal, col, v);
    } else {
      assert Selected([], col, v) == [] by { NothingSelected([], col, v); }
    }
  }

  /** A deep copy is not always unobservable: a nil table answers a WHERE
      without an argument, an empty one refuses it. */
  lemma CopyObservable(db: Db, stmt: Statement, args: seq<Val>)
    ensures Query(Copied(db), stmt, args) == Query(db, stmt, args)
            <==> !(stmt.Select? && stmt.table in db && db[stmt.table].NilSlice? && stmt.whereCol != "" && |args| == 0)
  {
    if stmt.Select? && stmt.table in db && db[stmt.table].NilSlice? {
      assert Copied(db)[stmt.table] == Slice([]);
      if |args| > 0 { NothingSelected([], stmt.whereCol, args[0]); }
    }
  }
}
