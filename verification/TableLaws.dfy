/** Laws of the in-memory database: how values compare, what order rows come in, and
    which statements are refused. */
module TableLaws {
  import opened Options
  import opened Tables

  // ---------- comparing values ----------

  function DigitValue(c: char): int {
    c as int - '0' as int
  }

  /** The number a string of decimal digits stands for. */
  function Number(s: string): int {
    if |s| == 0 then 0 else 10 * Number(s[..|s| - 1]) + DigitValue(s[|s| - 1])
  }

  predicate AllDigits(s: string) {
    |s| > 0 && forall i :: 0 <= i < |s| ==> '0' <= s[i] <= '9'
  }

  lemma {:induction false} DigitsRead(n: nat)
    ensures AllDigits(Digits(n)) && Number(Digits(n)) == n && (n > 0 ==> Digits(n)[0] != '0')
  {
    var c := "0123456789"[n % 10];
    assert '0' <= c <= '9' && DigitValue(c) == n % 10;
    if n < 10 {
      assert Digits(n) == [c] && [c][..0] == "";
    } else {
      DigitsRead(n / 10);
      assert Digits(n)[..|Digits(n)| - 1] == Digits(n / 10);
    }
  }

  /** An integer is shown in decimal, a minus sign in front of a negative one. */
  lemma ShownInteger(n: int)
    ensures n >= 0 ==> AllDigits(Show(Int(n))) && Number(Show(Int(n))) == n
    ensures n < 0 ==> |Show(Int(n))| > 1 && Show(Int(n))[0] == '-' && AllDigits(Show(Int(n))[1..])
                      && Number(Show(Int(n))[1..]) == -n
  {
    DigitsRead(if n < 0 then -n else n);
    if n < 0 { assert Show(Int(n))[1..] == Digits(-n); }
  }

  /** A WHERE compares numbers as numbers, texts as texts and truth values as truth
      values; a missing column counts as nil; values of different kinds differ unless
      one is a text that reads as the other. */
  lemma Compares(row: RowData, col: string, v: Val)
    ensures var w := if col in row then row[col] else Nil;
            && (w.Int? && v.Int? ==> (Matches(row, col, v) <==> w.n == v.n))
            && (w.Str? && v.Str? ==> (Matches(row, col, v) <==> w.s == v.s))
            && (w.Bool? && v.Bool? ==> (Matches(row, col, v) <==> w.b == v.b))
            && (w.Nil? && v.Nil? ==> Matches(row, col, v))
            && (w.Nil? && v.Str? ==> (Matches(row, col, v) <==> v.s == "<nil>"))
            && (w.Bool? && v.Str? ==> (Matches(row, col, v) <==> v.s == if w.b then "true" else "false"))
            && (w.Int? && !v.Int? && !v.Str? ==> !Matches(row, col, v))
            && (w.Nil? && v.Bool? ==> !Matches(row, col, v))
  {
    var w := if col in row then row[col] else Nil;
    if w.Int? { ShownInteger(w.n); }
    if v.Int? { ShownInteger(v.n); }
    hide Digits, Number;
    assert "<nil>"[0] == '<' && "true"[0] == 't' && "false"[0] == 'f';
  }

  // ---------- rows in order ----------

  /** SELECT and DELETE look at one row after another and keep the order. */
  lemma {:induction false} FilterJoin(a: seq<RowData>, b: seq<RowData>, col: string, v: Val)
    ensures Selected(a + b, col, v) == Selected(a, col, v) + Selected(b, col, v)
    ensures Kept(a + b, col, v) == Kept(a, col, v) + Kept(b, col, v)
    decreases |b|
  {
    hide Matches;
    if |b| == 0 {
      assert a + b == a;
    } else {
      assert (a + b)[..|a + b| - 1] == a + b[..|b| - 1];
      FilterJoin(a, b[..|b| - 1], col, v);
    }
  }

  lemma FilterOne(row: RowData, col: string, v: Val)
    ensures Selected([row], col, v) == if Matches(row, col, v) then [row] else []
    ensures Kept([row], col, v) == if Matches(row, col, v) then [] else [row]
  {
    hide Matches;
    assert [row][..0] == [];
  }

  /** Row by row, an UPDATE sets the one column where the WHERE matches. */
  lemma UpdatedAt(rows: seq<RowData>, setCol: string, setVal: Val, col: string, v: Val, i: nat)
    requires i < |rows|
    ensures var after := Updated(rows, setCol, setVal, col, v);
            && |after| == |rows|
            && after[i] == if Matches(rows[i], col, v) then rows[i][setCol := setVal] else rows[i]
  {
    hide Matches;
  }

  /** An inserted row has the columns named, each with the last value given for it. */
  lemma {:induction false} InsertedRow(cols: seq<string>, args: seq<Val>, k: nat)
    requires |cols| == |args|
    ensures forall c :: c in RowOf(cols, args) <==> c in cols
    ensures k < |cols| && (forall j :: k < j < |cols| ==> cols[j] != cols[k]) ==> RowOf(cols, args)[cols[k]] == args[k]
    decreases |cols|
  {
    if |cols| > 0 {
      var n := |cols| - 1;
      InsertedRow(cols[..n], args[..n], k);
      assert cols == cols[..n] + [cols[n]];
      if k < n { assert cols[..n][k] == cols[k] && forall j :: k < j < n ==> cols[..n][j] == cols[j]; }
    }
  }

  // ---------- statements without WHERE ----------

  /** SELECT without WHERE gives every row in order, and DELETE without WHERE leaves none
      and counts them all; other tables are as they were. */
  lemma WithoutWhere(db: Db, table: string, args: seq<Val>)
    ensures Query(db, Select(table, ""), args) == Ok(RowsOf(TableOf(db, table)))
    ensures var after := Exec(db, Delete(table, ""), args);
            && Query(after.0, Select(table, ""), args) == Ok([])
            && after.1 == Ok(|RowsOf(TableOf(db, table))|)
            && forall t :: t != table ==> TableOf(after.0, t) == TableOf(db, t)
  {
  }

  /** INSERT puts one row behind those there are, in one table. */
  lemma InsertAppends(db: Db, table: string, cols: seq<string>, args: seq<Val>)
    requires |cols| == |args|
    ensures var after := Exec(db, Insert(table, cols), args);
            && Query(after.0, Select(table, ""), []) == Ok(RowsOf(TableOf(db, table)) + [RowOf(cols, args)])
            && after.1 == Ok(1)
            && forall t :: t != table ==> TableOf(after.0, t) == TableOf(db, t)
  {
    hide RowOf;
  }

  // ---------- what is refused ----------

  /** A statement that is refused changes nothing; and exactly these are refused: an
      INSERT with another number of values than columns, an UPDATE with fewer than two
      arguments, a DELETE with a WHERE but no argument on a table with rows, and
      anything else that is no such statement. */
  lemma RefusedExactly(db: Db, stmt: Statement, args: seq<Val>)
    ensures Exec(db, stmt, args).1.Err? ==> Exec(db, stmt, args).0 == db
    ensures Exec(db, stmt, args).1 == Err(ColumnCount) <==> stmt.Insert? && |stmt.cols| != |args|
    ensures Exec(db, stmt, args).1 == Err(MissingArgument) <==>
            || (stmt.Update? && |args| < 2)
            || (stmt.Delete? && stmt.whereCol != "" && args == [] && TableOf(db, stmt.table).Slice?)
    ensures Exec(db, stmt, args).1 == Err(Unsupported) <==> stmt.Select? || stmt.Other?
    ensures Exec(db, stmt, args).1 != Err(MultipleRows) && Exec(db, stmt, args).1 != Err(Completed)
  {
    hide Selected, Kept, Updated, RowOf;
  }

  /** Likewise for queries; one for a single row finds it, nothing, or too many. */
  lemma QueryRefusedExactly(db: Db, stmt: Statement, args: seq<Val>)
    ensures Query(db, stmt, args) == Err(Unsupported) <==> !stmt.Select?
    ensures Query(db, stmt, args) == Err(MissingArgument) <==>
            stmt.Select? && stmt.whereCol != "" && args == [] && TableOf(db, stmt.table).Slice?
    ensures Query(db, stmt, args).Err? ==> QueryRow(db, stmt, args) == Err(Query(db, stmt, args).error)
    ensures Query(db, stmt, args) == Ok([]) <==> QueryRow(db, stmt, args) == Ok(None)
    ensures forall r :: Query(db, stmt, args) == Ok([r]) <==> QueryRow(db, stmt, args) == Ok(Some(r))
    ensures Query(db, stmt, args).Ok? ==>
              (|Query(db, stmt, args).value| > 1 <==> QueryRow(db, stmt, args) == Err(MultipleRows))
  {
    hide Selected;
    var q := Query(db, stmt, args);
    if q.Ok? && |q.value| == 1 { assert q.value == [q.value[0]]; }
  }
}
