/**
 * `orange.table`: a table declared as an ordered list of named `Column`s, the
 * DDL it yields (one CREATE TABLE plus one CREATE INDEX per indexed column),
 * the wiring of `Table.load` through the duplicate-import check and the
 * loader inside one transaction, and the default query and headers of
 * `Table.export`.
 */
module Table {
  import opened Wrappers
  import opened Strings
  import opened PyVal
  import Sqlite
  import Xlsx
  import Data

  datatype Column = Column(
    header: string, typ: string, isPk: bool, width: real, format: string, hidden: bool,
    totalString: string, totalFunction: string, formula: string, hasIndex: bool)

  /** `Column()` with every field at its default: a text column. */
  const DefaultColumn := Column("", "text", false, 0.0, "", false, "", "", "", false)

  /** A table class: its name and its `Column` attributes in declaration order. */
  datatype TableDef = TableDef(tablename: string, columns: seq<(string, Column)>)

  // ---------------------------------------------------------------------------
  // Field lines

  /** The comment of a field line: "-- header" when there is a header. */
  function Comment(c: Column): string { if c.header != "" then "-- " + c.header else "" }

  /** `Column.field(name)`. */
  function Field(c: Column, name: string): string
  {
    "    " + LJust(name, 15) + LJust(c.typ + ",", 10) + "  " + Comment(c)
  }

  /**
   * For a name of at most 15 characters and a type of at most 9, the line
   * has fixed columns: the name at 4, the type at 19 followed by its comma,
   * and the comment at 31.
   */
  lemma FieldLayout(c: Column, name: string)
    requires |name| <= 15 && |c.typ| <= 9
    ensures var r := Field(c, name);
      |r| == 31 + |Comment(c)| &&
      r[..4] == "    " && r[4..4 + |name|] == name &&
      (forall i :: 4 + |name| <= i < 19 ==> r[i] == ' ') &&
      r[19..19 + |c.typ|] == c.typ && r[19 + |c.typ|] == ',' &&
      (forall i :: 20 + |c.typ| <= i < 31 ==> r[i] == ' ') &&
      r[31..] == Comment(c)
  {
    var n := LJust(name, 15);
    var t := LJust(c.typ + ",", 10);
    var r := Field(c, name);
    assert r == "    " + n + t + "  " + Comment(c);
    assert r[4..19] == n;
    assert r[19..29] == t;
    assert t[..|c.typ| + 1] == c.typ + ",";
    assert r[29..31] == "  ";
  }

  /** The position of the first c in s. */
  function FirstIndex(s: string, c: char): (i: nat)
    requires c in s
    ensures i < |s| && s[i] == c && c !in s[..i]
  {
    if s[0] == c then 0
    else
      var i := FirstIndex(s[1..], c);
      assert s[..i + 1] == [s[0]] + s[1..][..i];
      i + 1
  }

  /** `s.replace(c, "", 1)`: s without its first c. */
  function RemoveFirst(s: string, c: char): (r: string)
    ensures c !in s ==> r == s
    ensures c in s ==> r == s[..FirstIndex(s, c)] + s[FirstIndex(s, c) + 1..]
  {
    if |s| == 0 then ""
    else if s[0] == c then s[1..]
    else
      var t := s[1..];
      var r := [s[0]] + RemoveFirst(t, c);
      assert s == [s[0]] + t;
      if c in s then
        var i := FirstIndex(t, c);
        assert FirstIndex(s, c) == i + 1;
        DropAfterHead(s[0], t, i);
        r
      else r
  }

  lemma DropAfterHead(x: char, t: string, i: nat)
    requires i < |t|
    ensures ([x] + t)[..i + 1] + ([x] + t)[i + 2..] == [x] + (t[..i] + t[i + 1..])
  {
    var s := [x] + t;
    assert s[..i + 1] == [x] + t[..i];
    assert s[i + 2..] == t[i + 1..];
  }

  /** The field lines of the columns, in declaration order. */
  function FieldLines(cols: seq<(string, Column)>): (r: seq<string>)
    ensures |r| == |cols| && forall i :: 0 <= i < |cols| ==> r[i] == Field(cols[i].1, cols[i].0)
  {
    seq(|cols|, i requires 0 <= i < |cols| => Field(cols[i].1, cols[i].0))
  }

  /** The names of the columns whose flag (primary key or index) is set, in declaration order. */
  function Flagged(cols: seq<(string, Column)>, pk: bool): (r: seq<string>)
    ensures |r| <= |cols|
    ensures forall x :: x in r <==> exists i :: 0 <= i < |cols| && cols[i].0 == x && (if pk then cols[i].1.isPk else cols[i].1.hasIndex)
  {
    if |cols| == 0 then []
    else
      var rest := Flagged(cols[1..], pk);
      assert forall i :: 1 <= i < |cols| ==> cols[i] == cols[1..][i - 1];
      if (if pk then cols[0].1.isPk else cols[0].1.hasIndex) then [cols[0].0] + rest else rest
  }

  /** Flagged keeps declaration order: it distributes over concatenation. */
  lemma {:induction false} FlaggedAppend(a: seq<(string, Column)>, b: seq<(string, Column)>, pk: bool)
    ensures Flagged(a + b, pk) == Flagged(a, pk) + Flagged(b, pk)
  {
    if |a| > 0 {
      assert (a + b)[1..] == a[1..] + b;
      FlaggedAppend(a[1..], b, pk);
    } else {
      assert a + b == b;
    }
  }

  /** No column carries the flag: nothing is listed. */
  lemma {:induction false} FlaggedNone(cols: seq<(string, Column)>, pk: bool)
    requires forall i :: 0 <= i < |cols| ==> !(if pk then cols[i].1.isPk else cols[i].1.hasIndex)
    ensures Flagged(cols, pk) == []
  {
    if |cols| > 0 {
      assert forall i :: 0 <= i < |cols| - 1 ==> cols[1..][i] == cols[i + 1];
      FlaggedNone(cols[1..], pk);
    }
  }

  /** The lines between the parentheses of the CREATE TABLE statement. */
  function Lines(cols: seq<(string, Column)>): seq<string>
    requires |cols| > 0
  {
    var fields := FieldLines(cols);
    var pks := Flagged(cols, true);
    if pks == [] then fields[|fields| - 1 := RemoveFirst(fields[|fields| - 1], ',')]
    else fields + ["    primary key(" + Join(pks, ",") + ")"]
  }

  /** Without a primary key: one line per column, and only the first comma of the last one is dropped. */
  lemma LinesWithoutKey(cols: seq<(string, Column)>)
    requires |cols| > 0 && forall i :: 0 <= i < |cols| ==> !cols[i].1.isPk
    ensures var r := Lines(cols); var n := |cols| - 1;
      |r| == |cols| &&
      (forall i :: 0 <= i < n ==> r[i] == Field(cols[i].1, cols[i].0)) &&
      r[n] == RemoveFirst(Field(cols[n].1, cols[n].0), ',')
  {
    FlaggedNone(cols, true);
    LinesOfFields(cols);
  }

  lemma LinesOfFields(cols: seq<(string, Column)>)
    requires |cols| > 0 && Flagged(cols, true) == []
    ensures var r := Lines(cols); var n := |cols| - 1;
      |r| == |cols| &&
      (forall i :: 0 <= i < n ==> r[i] == Field(cols[i].1, cols[i].0)) &&
      r[n] == RemoveFirst(Field(cols[n].1, cols[n].0), ',')
  {
    var fields := FieldLines(cols);
    assert Lines(cols) == fields[|cols| - 1 := RemoveFirst(fields[|cols| - 1], ',')];
  }

  /** With primary keys: every field line keeps its comma and one last line lists the keys in order. */
  lemma LinesWithKey(cols: seq<(string, Column)>)
    requires |cols| > 0 && exists i :: 0 <= i < |cols| && cols[i].1.isPk
    ensures var r := Lines(cols);
      |r| == |cols| + 1 &&
      (forall i :: 0 <= i < |cols| ==> r[i] == Field(cols[i].1, cols[i].0)) &&
      r[|cols|] == "    primary key(" + Join(Flagged(cols, true), ",") + ")"
  {
    var i :| 0 <= i < |cols| && cols[i].1.isPk;
    var pks := Flagged(cols, true);
    assert cols[i].0 in pks;
    assert Lines(cols) == FieldLines(cols) + ["    primary key(" + Join(pks, ",") + ")"];
  }

  function IndexSql(table: string, name: string): string
  {
    "create index if not exists " + table + "_" + name + " on " + table + "(" + name + ")"
  }

  /** The DDL of a table: the CREATE TABLE statement and the CREATE INDEX statements. */
  datatype Ddl = Ddl(create: string, indexes: seq<string>, columnNames: seq<string>, indexNames: seq<string>)

  datatype Error = NoTableName | NoColumns | AttributeError | KeyError(name: string) | Db(e: Sqlite.Error)

  /** The statement text `create_table` builds. */
  function CreateSql(t: TableDef): string
    requires |t.columns| > 0
  {
    "create table if not exists " + t.tablename + "(\n" + Join(Lines(t.columns), "\n") + "\n);"
  }

  function Names(cols: seq<(string, Column)>): (r: seq<string>)
    ensures |r| == |cols| && forall i :: 0 <= i < |cols| ==> r[i] == cols[i].0
  {
    seq(|cols|, i requires 0 <= i < |cols| => cols[i].0)
  }

  /**
   * The statements of `create_table`: an empty table name or no columns
   * raises; otherwise the CREATE TABLE statement over the field lines and one
   * CREATE INDEX per indexed column, in declaration order.
   */
  method Statements(t: TableDef) returns (r: Result<Ddl, Error>)
    ensures t.tablename == "" ==> r == Err(NoTableName)
    ensures t.tablename != "" && t.columns == [] ==> r == Err(NoColumns)
    ensures t.tablename != "" && t.columns != [] ==> r.Ok?
    ensures r.Ok? ==> |t.columns| > 0 && r.value.create == CreateSql(t)
    ensures r.Ok? ==> r.value.columnNames == Names(t.columns)
    ensures r.Ok? ==> (r.value.indexNames == Flagged(t.columns, false) &&
      |r.value.indexes| == |r.value.indexNames| &&
      forall i :: 0 <= i < |r.value.indexes| ==> r.value.indexes[i] == IndexSql(t.tablename, r.value.indexNames[i]))
  {
    if t.tablename == "" {
      return Err(NoTableName);
    }
    var cols := t.columns;
    if cols == [] {
      return Err(NoColumns);
    }
    var fields := FieldLines(cols);
    var pks := Flagged(cols, true);
    if pks == [] {
      fields := fields[|fields| - 1 := RemoveFirst(fields[|fields| - 1], ',')];
    } else {
      fields := fields + ["    primary key(" + Join(pks, ",") + ")"];
    }
    assert fields == Lines(cols);
    var sql := "create table if not exists " + t.tablename + "(\n" + Join(fields, "\n") + "\n);";
    assert sql == CreateSql(t);
    var indexes, names := IndexStatements(t.tablename, cols);
    r := Ok(Ddl(sql, indexes, Names(cols), names));
  }

  /** The CREATE INDEX statements of `create_table`, one per indexed column in declaration order. */
  method IndexStatements(table: string, cols: seq<(string, Column)>) returns (indexes: seq<string>, names: seq<string>)
    ensures names == Flagged(cols, false)
    ensures |indexes| == |names| && forall i :: 0 <= i < |indexes| ==> indexes[i] == IndexSql(table, names[i])
  {
    indexes := [];
    names := [];
    var k := 0;
    while k < |cols|
      invariant 0 <= k <= |cols|
      invariant names == Flagged(cols[..k], false)
      invariant |indexes| == |names| && forall i :: 0 <= i < |indexes| ==> indexes[i] == IndexSql(table, names[i])
    {
      FlaggedAppend(cols[..k], [cols[k]], false);
      assert cols[..k + 1] == cols[..k] + [cols[k]];
      if cols[k].1.hasIndex {
        indexes := indexes + [IndexSql(table, cols[k].0)];
        names := names + [cols[k].0];
      }
      k := k + 1;
    }
    assert cols[..k] == cols;
  }

  /** The declaration of test.py: a primary-key name column and an indexed class column. */
  lemma TestTable()
    ensures var t := TableDef("test", [("name", DefaultColumn.(header := "姓名", isPk := true)),
                                      ("bj", DefaultColumn.(header := "班级", hasIndex := true))]);
      Flagged(t.columns, true) == ["name"] && Flagged(t.columns, false) == ["bj"] &&
      IndexSql(t.tablename, "bj") == "create index if not exists test_bj on test(bj)"
  {
    var cols := [("name", DefaultColumn.(header := "姓名", isPk := true)),
                 ("bj", DefaultColumn.(header := "班级", hasIndex := true))];
    assert cols[1..][1..] == [];
    assert Flagged(cols[1..], true) == [] && Flagged(cols[1..], false) == ["bj"];
  }

  /** The names of the indexes over the given columns of a table. */
  function IndexNames(table: string, names: seq<string>): (r: set<string>)
    ensures forall x :: x in names ==> table + "_" + x in r
  {
    if |names| == 0 then {} else {table + "_" + names[0]} + IndexNames(table, names[1..])
  }

  lemma {:induction false} IndexNamesAppend(table: string, names: seq<string>, x: string)
    ensures IndexNames(table, names + [x]) == IndexNames(table, names) + {table + "_" + x}
  {
    if |names| > 0 {
      assert (names + [x])[1..] == names[1..] + [x];
      IndexNamesAppend(table, names[1..], x);
    } else {
      assert names + [x] == [x];
    }
  }

  /** Each `CREATE INDEX` of `create_table`, one after the other. */
  method AddIndexes(db: Sqlite.Connection, table: string, names: seq<string>)
    modifies db
    ensures db.State() == old(db.State()).(indexes := old(db.indexes) + IndexNames(table, names))
  {
    var k := 0;
    while k < |names|
      invariant 0 <= k <= |names|
      invariant db.State() == old(db.State()).(indexes := old(db.indexes) + IndexNames(table, names[..k]))
    {
      assert names[..k + 1] == names[..k] + [names[k]];
      IndexNamesAppend(table, names[..k], names[k]);
      db.CreateIndex(table + "_" + names[k]);
      k := k + 1;
    }
    assert names[..k] == names;
  }

  /**
   * `create_table(db)`: execute the CREATE TABLE statement and then each
   * CREATE INDEX. Without a database the statement is only reported, and the
   * first indexed column then raises.
   */
  method CreateTable(db: Sqlite.Connection?, t: TableDef) returns (r: Result<(), Error>)
    modifies db
    ensures t.tablename == "" ==> r == Err(NoTableName)
    ensures t.tablename != "" && t.columns == [] ==> r == Err(NoColumns)
    ensures db == null && t.tablename != "" && t.columns != [] ==>
      (r == Err(AttributeError) <==> Flagged(t.columns, false) != [])
    ensures db != null && r.Ok? ==>
      db.State() == Sqlite.CreateTableSpec(old(db.State()), t.tablename, Names(t.columns)).(
        indexes := old(db.indexes) + IndexNames(t.tablename, Flagged(t.columns, false)))
    ensures db != null && t.tablename != "" && t.columns != [] ==> r.Ok?
  {
    var ddl :- Statements(t);
    if db == null {
      if ddl.indexNames != [] {
        return Err(AttributeError);
      }
      return Ok(());
    }
    db.CreateTable(t.tablename, ddl.columnNames);
    AddIndexes(db, t.tablename, ddl.indexNames);
    r := Ok(());
  }

  // ---------------------------------------------------------------------------
  // Table.load

  /**
   * `with db:` around a failed body: the transaction is rolled back, except
   * that a `loadfile` table created by `executescript` stays (that call
   * commits), empty of this transaction's records.
   */
  function Rollback(before: Sqlite.DbState, after: Sqlite.DbState): Sqlite.DbState
  {
    before.(hasLoadfile := after.hasLoadfile)
  }

  /**
   * `Table.load(db, data, convfunc, path, method, loadcheck, clear)`: inside
   * one transaction, check the file when asked and a path is given, filter
   * the rows through `convfunc`, and load them positionally into all the
   * columns.
   */
  function LoadTableSpec(st: Sqlite.DbState, t: TableDef, data: seq<Sqlite.Row>, convfunc: Option<Sqlite.Row -> Option<Sqlite.Row>>,
    path: Option<string>, mtime: int, how: string, loadcheck: bool, clear: bool): Sqlite.Step<()>
  {
    var checked := if loadcheck && path.Some? then Sqlite.LCheckSpec(st, t.tablename, path.value, mtime, None) else Sqlite.Step(st, Ok(()));
    if checked.result.Err? then Sqlite.Step(Rollback(st, checked.state), Err(checked.result.error))
    else
      var rows := if convfunc.Some? then Data.ConvData(data, convfunc.value) else data;
      var loaded := Sqlite.LoadSpec(checked.state, t.tablename, Sqlite.Count(|t.columns|), rows, how, clear);
      if loaded.result.Err? then Sqlite.Step(Rollback(st, loaded.state), Err(loaded.result.error))
      else Sqlite.Step(loaded.state, Ok(()))
  }

  /** A failed `Table.load` leaves every table and every `loadfile` record as they were. */
  lemma LoadTableAtomic(st: Sqlite.DbState, t: TableDef, data: seq<Sqlite.Row>, convfunc: Option<Sqlite.Row -> Option<Sqlite.Row>>,
    path: Option<string>, mtime: int, how: string, loadcheck: bool, clear: bool)
    ensures var s := LoadTableSpec(st, t, data, convfunc, path, mtime, how, loadcheck, clear);
      s.result.Err? ==> s.state.tables == st.tables && s.state.loadfile == st.loadfile && s.state.indexes == st.indexes
  {
  }

  /** Without `loadcheck`, or without a path, no file record is written or consulted. */
  lemma LoadTableNoCheck(st: Sqlite.DbState, t: TableDef, data: seq<Sqlite.Row>, convfunc: Option<Sqlite.Row -> Option<Sqlite.Row>>,
    path: Option<string>, mtime: int, how: string, loadcheck: bool, clear: bool)
    requires !loadcheck || path.None?
    ensures var s := LoadTableSpec(st, t, data, convfunc, path, mtime, how, loadcheck, clear);
      s.state.loadfile == st.loadfile && s.state.hasLoadfile == st.hasLoadfile &&
      s == (var l := Sqlite.LoadSpec(st, t.tablename, Sqlite.Count(|t.columns|),
              if convfunc.Some? then Data.ConvData(data, convfunc.value) else data, how, clear);
            if l.result.Err? then Sqlite.Step(st, Err(l.result.error)) else Sqlite.Step(l.state, Ok(())))
  {
  }

  /** Loading the same file twice with `loadcheck`: the second load raises LoadError and changes nothing. */
  lemma LoadTableTwice(st: Sqlite.DbState, t: TableDef, data: seq<Sqlite.Row>, path: string, mtime: int, how: string, clear: bool)
    requires LoadTableSpec(st, t, data, None, Some(path), mtime, how, true, clear).result.Ok?
    ensures var s1 := LoadTableSpec(st, t, data, None, Some(path), mtime, how, true, clear).state;
      LoadTableSpec(s1, t, data, None, Some(path), mtime, how, true, clear) == Sqlite.Step(s1, Err(Sqlite.LoadError(path)))
  {
    var c := Sqlite.LCheckSpec(st, t.tablename, path, mtime, None);
    Sqlite.LCheckRecords(st, t.tablename, path, mtime, None);
    var l := Sqlite.LoadSpec(c.state, t.tablename, Sqlite.Count(|t.columns|), data, how, clear);
    LoadKeepsLoadfile(c.state, t.tablename, Sqlite.Count(|t.columns|), data, how, clear);
  }

  /** `load` writes no `loadfile` record. */
  lemma LoadKeepsLoadfile(st: Sqlite.DbState, table: string, fields: Sqlite.Fields, data: seq<Sqlite.Row>, how: string, clear: bool)
    ensures Sqlite.LoadSpec(st, table, fields, data, how, clear).state.loadfile == st.loadfile
    ensures Sqlite.LoadSpec(st, table, fields, data, how, clear).state.hasLoadfile == st.hasLoadfile
  {
  }

  /** `Table.load` on a connection. */
  method LoadTable(db: Sqlite.Connection, t: TableDef, data: seq<Sqlite.Row>, convfunc: Option<Sqlite.Row -> Option<Sqlite.Row>>,
    path: Option<string>, mtime: int, how: string, loadcheck: bool, clear: bool) returns (r: Result<(), Sqlite.Error>)
    modifies db
    ensures db.State() == LoadTableSpec(old(db.State()), t, data, convfunc, path, mtime, how, loadcheck, clear).state
    ensures r == LoadTableSpec(old(db.State()), t, data, convfunc, path, mtime, how, loadcheck, clear).result
  {
    var before := db.State();
    if loadcheck && path.Some? {
      var c := db.LCheck(t.tablename, path.value, mtime, None);
      if c.Err? {
        db.SetState(Rollback(before, db.State()));
        return Err(c.error);
      }
    }
    var rows := data;
    if convfunc.Some? {
      rows := Data.ConvData(data, convfunc.value);
    }
    var l := db.Load(t.tablename, Sqlite.Count(|t.columns|), rows, how, clear);
    if l.Err? {
      db.SetState(Rollback(before, db.State()));
      return Err(l.error);
    }
    r := Ok(());
  }

  // ---------------------------------------------------------------------------
  // Table.export

  /** `Column.Header`: the spreadsheet header of a column. */
  function ColumnHeader(c: Column): (h: Xlsx.Dict)
    ensures "header" in h && h["header"] == Xlsx.Txt(c.header)
    ensures ("width" in h <==> c.width != 0.0) && ("format" in h <==> c.format != "")
    ensures "hidden" in h && h["hidden"] == Xlsx.Flag(c.hidden)
    ensures c.width != 0.0 ==> h["width"] == Xlsx.Num(c.width)
    ensures c.format != "" ==> h["format"] == Xlsx.Txt(c.format)
    ensures "total_string" in h && h["total_string"] == Xlsx.Txt(c.totalString)
    ensures "total_function" in h && h["total_function"] == Xlsx.Txt(c.totalFunction)
    ensures "formula" in h && h["formula"] == Xlsx.Txt(c.formula)
    ensures forall k :: k in h ==> k in {"header", "width", "format", "hidden", "total_string", "total_function", "formula"}
  {
    var kw := map["hidden" := Xlsx.Flag(c.hidden), "total_string" := Xlsx.Txt(c.totalString),
      "total_function" := Xlsx.Txt(c.totalFunction), "formula" := Xlsx.Txt(c.formula)];
    Xlsx.HeaderKeys(c.header, Xlsx.Num(c.width), Xlsx.Txt(c.format), kw);
    Xlsx.Header(c.header, Xlsx.Num(c.width), Xlsx.Txt(c.format), kw)
  }

  /** What `export` hands to the book: the query, the sheet name and the headers. */
  datatype Export = Export(sql: string, sheet: string, headers: seq<Xlsx.Dict>)

  function ColumnNamed(cols: seq<(string, Column)>, name: string): (r: Option<Column>)
    ensures r.Some? <==> name in Names(cols)
  {
    if |cols| == 0 then None
    else if cols[0].0 == name then Some(cols[0].1)
    else
      assert Names(cols) == [cols[0].0] + Names(cols[1..]);
      ColumnNamed(cols[1..], name)
  }

  /** `Columns[f]` for each listed field, in order; the first name that is not a column raises KeyError. */
  function ColumnsNamed(cols: seq<(string, Column)>, names: seq<string>): (r: Result<seq<Column>, Error>)
    ensures r.Ok? ==> |r.value| == |names|
  {
    if |names| == 0 then Ok([])
    else match ColumnNamed(cols, names[0])
      case None => Err(KeyError(names[0]))
      case Some(c) =>
        match ColumnsNamed(cols, names[1..])
        case Err(e) => Err(e)
        case Ok(rest) => Ok([c] + rest)
  }

  /** The lookup succeeds exactly when every name is a column, and gives that column for each name, in order. */
  lemma {:induction false} ColumnsNamedSpec(cols: seq<(string, Column)>, names: seq<string>)
    ensures ColumnsNamed(cols, names).Ok? <==> forall i :: 0 <= i < |names| ==> names[i] in Names(cols)
    ensures ColumnsNamed(cols, names).Ok? ==> forall i :: 0 <= i < |names| ==>
      ColumnsNamed(cols, names).value[i] == ColumnNamed(cols, names[i]).value
  {
    if |names| > 0 {
      var rest := names[1..];
      ColumnsNamedSpec(cols, rest);
      match ColumnNamed(cols, names[0])
      case None =>
      case Some(c) =>
        if ColumnsNamed(cols, rest).Ok? {
          var cs := ColumnsNamed(cols, names).value;
          assert cs == [c] + ColumnsNamed(cols, rest).value;
          forall i | 1 <= i < |names|
            ensures cs[i] == ColumnNamed(cols, names[i]).value
          {
            assert rest[i - 1] == names[i];
          }
        } else {
          var j :| 0 <= j < |rest| && rest[j] !in Names(cols);
          assert names[j + 1] == rest[j];
        }
    }
  }

  function Headers(cs: seq<Column>): (r: seq<Xlsx.Dict>)
    ensures |r| == |cs| && forall i :: 0 <= i < |cs| ==> r[i] == ColumnHeader(cs[i])
  {
    seq(|cs|, i requires 0 <= i < |cs| => ColumnHeader(cs[i]))
  }

  /**
   * The default query and header choice of `export` (a missing and an empty
   * argument are both falsy): the query selects the given fields, or all
   * columns; the sheet is named after the table; the headers are those of the
   * listed fields, where a name that is not a column raises, or of all columns.
   */
  function ExportPlan(t: TableDef, sql: string, fields: string, sheetname: string): (r: Result<Export, Error>)
    ensures fields == "" ==> (r.Ok? && |r.value.headers| == |t.columns| &&
      forall i :: 0 <= i < |t.columns| ==> r.value.headers[i] == ColumnHeader(t.columns[i].1))
    ensures fields != "" ==> (r.Ok? <==> forall i :: 0 <= i < |Split(fields, ',')| ==> Split(fields, ',')[i] in Names(t.columns))
    ensures fields != "" && r.Ok? ==> var names := Split(fields, ',');
      |r.value.headers| == |names| && forall i :: 0 <= i < |names| ==>
        ColumnNamed(t.columns, names[i]).Some? && r.value.headers[i] == ColumnHeader(ColumnNamed(t.columns, names[i]).value)
    ensures r.Ok? ==> r.value.sql == (if sql != "" then sql else "select " + (if fields != "" then fields else "*") + " from " + t.tablename)
    ensures r.Ok? ==> r.value.sheet == if sheetname != "" then sheetname else t.tablename
  {
    var query := if sql != "" then sql else "select " + (if fields != "" then fields else "*") + " from " + t.tablename;
    var sheet := if sheetname != "" then sheetname else t.tablename;
    if fields != "" then
      var names := Split(fields, ',');
      ColumnsNamedSpec(t.columns, names);
      match ColumnsNamed(t.columns, names)
      case Err(e) =>
        assert exists i :: 0 <= i < |names| && Split(fields, ',')[i] !in Names(t.columns) by {
          var i :| 0 <= i < |names| && names[i] !in Names(t.columns);
        }
        Err(e)
      case Ok(cs) => Ok(Export(query, sheet, Headers(cs)))
    else
      Ok(Export(query, sheet, Headers(seq(|t.columns|, i requires 0 <= i < |t.columns| => t.columns[i].1))))
  }
}
