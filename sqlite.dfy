/**
 * The loader layer of `orange.sqlite`: the SQL text builders, the
 * duplicate-import tracker `lcheck`, and the effect of `load` and `update` on
 * an abstract database. The database is not SQLite: it is a map of named
 * tables (column names plus positional rows), the `loadfile` records keyed by
 * (name, path), and whether the `loadfile` table exists yet.
 */
module Sqlite {
  import opened Wrappers
  import opened Strings
  import opened PyVal

  // ---------------------------------------------------------------------------
  // Statement text

  function Repeat(s: string, n: nat): (r: seq<string>)
    ensures |r| == n && forall i :: 0 <= i < n ==> r[i] == s
  {
    if n == 0 then [] else [s] + Repeat(s, n - 1)
  }

  /** `Values(count)`: `"VALUES(" + ",".join("?" * count) + ")"`; a count below 1 gives no placeholder. */
  function Values(count: int): (r: string)
    ensures |r| >= 8 && r[..7] == "VALUES(" && r[|r| - 1] == ')'
  {
    "VALUES(" + Join(Repeat("?", if count > 0 then count else 0), ",") + ")"
  }

  /** The placeholder list alternates `?` and `,`, starting and ending with `?`. */
  lemma {:induction false} PlaceholderShape(n: nat)
    ensures var p := Join(Repeat("?", n), ",");
      |p| == (if n == 0 then 0 else 2 * n - 1) &&
      forall i :: 0 <= i < |p| ==> p[i] == if i % 2 == 0 then '?' else ','
  {
    if n > 1 {
      PlaceholderShape(n - 1);
      var rest := Join(Repeat("?", n - 1), ",");
      assert Repeat("?", n)[1..] == Repeat("?", n - 1);
      assert Join(Repeat("?", n), ",") == "?" + "," + rest;
    }
  }

  /** `Values(n)` holds exactly n placeholders: split on commas, its list is n question marks. */
  lemma ValuesPlaceholders(n: nat)
    requires n >= 1
    ensures var r := Values(n); Split(r[7..|r| - 1], ',') == Repeat("?", n)
  {
    var r := Values(n);
    var p := Join(Repeat("?", n), ",");
    assert r[7..|r| - 1] == p;
    forall i | 0 <= i < n ensures ',' !in Repeat("?", n)[i] { }
    SplitJoin(Repeat("?", n), ',');
  }

  /** `method` as `load` turns it into a statement verb. */
  function InsertVerb(how: string): (v: string)
    ensures how == "replace" ==> v == "insert or replace"
    ensures how == "ignore" ==> v == "insert or ignore"
    ensures how != "replace" && how != "ignore" ==> v == how
  {
    if how == "replace" then "insert or replace"
    else if how == "ignore" then "insert or ignore"
    else how
  }

  /** The `fields` argument of `load`: a count, a comma-separated string, a list, or anything else. */
  datatype Fields = Count(n: int) | Names(text: string) | NameList(names: seq<string>) | Other

  /** An insert statement: its verb, target, optional column list and placeholder count. */
  datatype Insert = Insert(verb: string, table: string, columns: Option<seq<string>>, listText: string, placeholders: int)

  datatype Error =
    | LoadError(path: string)          // orange.sqlite.LoadError: the file was already imported
    | FieldsError                      // "param fields is wrong"
    | NoSuchTable(name: string)        // sqlite3.OperationalError
    | NoSuchColumn(name: string)       // sqlite3.OperationalError
    | ColumnCountMismatch              // sqlite3.OperationalError: wrong number of values for the table
    | SyntaxError                      // sqlite3.OperationalError: malformed statement
    | BindingCount                     // sqlite3.ProgrammingError: wrong number of bindings supplied
    | MissingBinding(name: string)     // sqlite3.ProgrammingError: a named parameter has no value
    | BadName                          // ValueError of pathlib: a path with an empty name

  /** The statement `load` builds for `fields`, before anything runs. */
  function LoadStatement(table: string, fields: Fields, how: string): (r: Result<Insert, Error>)
    ensures fields.Other? <==> r.Err?
    ensures r.Ok? ==> r.value.verb == InsertVerb(how) && r.value.table == table
    ensures fields.Count? ==> r == Ok(Insert(InsertVerb(how), table, None, "", fields.n))
    ensures fields.Names? ==> (r.Ok? && r.value.columns == Some(Split(fields.text, ',')) &&
      r.value.listText == fields.text && r.value.placeholders == |Split(fields.text, ',')|)
    ensures fields.NameList? ==> (r.Ok? && r.value.columns == Some(fields.names) &&
      r.value.listText == Join(fields.names, ",") && r.value.placeholders == |fields.names|)
  {
    var verb := InsertVerb(how);
    match fields
    case Count(n) => Ok(Insert(verb, table, None, "", n))
    case Names(text) => Ok(Insert(verb, table, Some(Split(text, ',')), text, |Split(text, ',')|))
    case NameList(names) => Ok(Insert(verb, table, Some(names), Join(names, ","), |names|))
    case Other => Err(FieldsError)
  }

  /** The SQL text of an insert statement. */
  function InsertSql(s: Insert): string
  {
    s.verb + " into " + s.table + (if s.columns.Some? then "(" + s.listText + ")" else "") + " " + Values(s.placeholders)
  }

  /** The assignment `x=:x` of a named parameter. */
  function Assign(x: string): string { x + "=:" + x }

  function Assigns(xs: seq<string>): (r: seq<string>)
    ensures |r| == |xs| && forall i :: 0 <= i < |xs| ==> r[i] == Assign(xs[i])
  {
    if |xs| == 0 then [] else [Assign(xs[0])] + Assigns(xs[1..])
  }

  /**
   * `set(values) - set(keys)`, listed in order of first occurrence in
   * `values` (Python lists a set in hash order).
   */
  function SetFields(values: seq<string>, keys: seq<string>): (r: seq<string>)
    ensures forall x :: x in r <==> x in values && x !in keys
    ensures forall i, j :: 0 <= i < j < |r| ==> r[i] != r[j]
  {
    if |values| == 0 then []
    else
      var last := values[|values| - 1];
      var prev := SetFields(values[..|values| - 1], keys);
      assert forall x :: x in values <==> x in values[..|values| - 1] || x == last;
      if last in keys || last in prev then prev else prev + [last]
  }

  /** The `update` statement for given keys and value names. */
  datatype Update = Update(table: string, sets: seq<string>, keys: seq<string>, values: seq<string>)

  /** `conv(fields)` of `update`: a string is split on commas, a list is used as it is. */
  datatype FieldArg = Text(text: string) | List(items: seq<string>)

  function Conv(f: FieldArg): (r: seq<string>)
    ensures f.Text? ==> r == Split(f.text, ',')
    ensures f.List? ==> r == f.items
  {
    match f
    case Text(t) => Split(t, ',')
    case List(xs) => xs
  }

  /** The statement `update` builds: SET over the value names that are not keys, WHERE over all keys. */
  function UpdateStatement(table: string, keys: FieldArg, values: FieldArg): (u: Update)
    ensures forall x :: x in u.sets <==> x in Conv(values) && x !in Conv(keys)
    ensures u.keys == Conv(keys) && u.values == Conv(values) && u.table == table
  {
    Update(table, SetFields(Conv(values), Conv(keys)), Conv(keys), Conv(values))
  }

  function UpdateSql(u: Update): string
  {
    "update " + u.table + " set " + Join(Assigns(u.sets), ",") + " where " + Join(Assigns(u.keys), " and ")
  }

  // ---------------------------------------------------------------------------
  // Database paths

  function LastIndexOf(s: string, c: char): (r: int)
    ensures -1 <= r < |s|
    ensures r >= 0 ==> s[r] == c
    ensures forall k :: r < k < |s| ==> s[k] != c
  {
    if |s| == 0 then -1
    else if s[|s| - 1] == c then |s| - 1
    else LastIndexOf(s[..|s| - 1], c)
  }

  /**
   * A POSIX `PurePath` as pathlib parses it: a root ("", "/", or "//" for
   * exactly two leading slashes) and the parts between slashes, with empty
   * and "." parts dropped.
   */
  datatype PurePath = PurePath(root: string, parts: seq<string>)

  predicate CleanPart(part: string)
  {
    part != "" && part != "." && '/' !in part
  }

  /** A path as `PathOf` produces it. */
  predicate WellFormed(p: PurePath)
  {
    (p.root == "" || p.root == "/" || p.root == "//") &&
    forall i :: 0 <= i < |p.parts| ==> CleanPart(p.parts[i])
  }

  function RootOf(s: string): (r: string)
    ensures r == "" <==> !(|s| > 0 && s[0] == '/')
    ensures r == "" || r == "/" || r == "//"
  {
    if |s| >= 2 && s[0] == '/' && s[1] == '/' && !(|s| >= 3 && s[2] == '/') then "//"
    else if |s| > 0 && s[0] == '/' then "/"
    else ""
  }

  /** The parts pathlib keeps: all but the empty ones and ".". */
  function Kept(parts: seq<string>): (r: seq<string>)
    ensures |r| <= |parts|
    ensures forall i :: 0 <= i < |r| ==> r[i] in parts && r[i] != "" && r[i] != "."
  {
    if |parts| == 0 then []
    else (if parts[0] == "" || parts[0] == "." then [] else [parts[0]]) + Kept(parts[1..])
  }

  lemma {:induction false} KeptAppend(a: seq<string>, b: seq<string>)
    ensures Kept(a + b) == Kept(a) + Kept(b)
  {
    if |a| > 0 {
      var head := if a[0] == "" || a[0] == "." then [] else [a[0]];
      assert (a + b)[0] == a[0];
      assert (a + b)[1..] == a[1..] + b;
      KeptAppend(a[1..], b);
      assert Kept(a + b) == head + Kept(a[1..] + b);
      assert Kept(a) == head + Kept(a[1..]);
    } else {
      assert a + b == b;
    }
  }

  lemma {:induction false} KeptClean(parts: seq<string>)
    requires forall i :: 0 <= i < |parts| ==> CleanPart(parts[i])
    ensures Kept(parts) == parts
  {
    if |parts| > 0 {
      KeptClean(parts[1..]);
    }
  }

  /** `PurePosixPath(s)`. */
  function PathOf(s: string): (p: PurePath)
    ensures WellFormed(p)
    ensures p.root == "" <==> !(|s| > 0 && s[0] == '/')
  {
    var parts := Split(s, '/');
    var kept := Kept(parts);
    assert forall i :: 0 <= i < |kept| ==> CleanPart(kept[i]) by {
      forall i | 0 <= i < |kept|
        ensures CleanPart(kept[i])
      {
        var j :| 0 <= j < |parts| && parts[j] == kept[i];
      }
    }
    PurePath(RootOf(s), kept)
  }

  /** `str(path)`: the root, then the parts joined by "/"; the empty relative path is ".". */
  function PathStr(p: PurePath): (r: string)
    ensures p.parts != [] ==> var name := p.parts[|p.parts| - 1];
      |r| >= |name| && r[|r| - |name|..] == name
  {
    if p.parts == [] then (if p.root == "" then "." else p.root)
    else
      var n := |p.parts|;
      var r := p.root + Join(p.parts, "/");
      if n > 1 then
        JoinSnoc(p.parts[..n - 1], p.parts[n - 1], "/");
        assert p.parts[..n - 1] + [p.parts[n - 1]] == p.parts;
        r
      else
        r
  }

  /** Parsing the string of a well-formed path gives the path back. */
  lemma PathRoundTrip(p: PurePath)
    requires WellFormed(p)
    ensures PathOf(PathStr(p)) == p
  {
    if p.parts == [] {
      RootRoundTrip(p.root);
    } else {
      PartsRoundTrip(p);
    }
  }

  lemma RootRoundTrip(root: string)
    requires root == "" || root == "/" || root == "//"
    ensures PathOf(PathStr(PurePath(root, []))) == PurePath(root, [])
  {
    if root == "" {
      SplitNoSep(".", '/');
    } else if root == "/" {
      SplitAtSep("", "", '/');
      assert "" + ['/'] + "" == "/";
      assert Kept(["", ""]) == [];
    } else {
      SplitAtSep("", "/", '/');
      assert "" + ['/'] + "/" == "//";
      SplitAtSep("", "", '/');
      assert "" + ['/'] + "" == "/";
      assert Split("//", '/') == ["", "", ""];
      assert Kept(["", "", ""]) == [];
    }
  }

  /** A join of clean parts starts with the first character of the first part. */
  lemma JoinHead(parts: seq<string>)
    requires |parts| > 0 && CleanPart(parts[0])
    ensures |Join(parts, "/")| > 0 && Join(parts, "/")[0] == parts[0][0]
  {
  }

  lemma PartsRoundTrip(p: PurePath)
    requires WellFormed(p) && p.parts != []
    ensures PathOf(PathStr(p)) == p
  {
    var j := Join(p.parts, "/");
    JoinHead(p.parts);
    SplitJoin(p.parts, '/');
    KeptClean(p.parts);
    assert PathStr(p) == p.root + j;
    if p.root == "/" {
      SlashRoundTrip(j, p.parts);
    } else if p.root == "//" {
      DoubleSlashRoundTrip(j, p.parts);
    } else {
      assert p.root + j == j;
    }
  }

  lemma SlashRoundTrip(j: string, parts: seq<string>)
    requires Split(j, '/') == parts && Kept(parts) == parts
    requires |j| > 0 && j[0] != '/'
    ensures PathOf("/" + j) == PurePath("/", parts)
  {
    RootedSplit(j, parts);
    assert ("/" + j)[1] == j[0];
  }

  lemma DoubleSlashRoundTrip(j: string, parts: seq<string>)
    requires Split(j, '/') == parts && Kept(parts) == parts
    requires |j| > 0 && j[0] != '/'
    ensures PathOf("//" + j) == PurePath("//", parts)
  {
    RootedSplit(j, parts);
    RootedSplit("/" + j, [""] + parts);
    assert "//" + j == "/" + ("/" + j);
    assert ("//" + j)[2] == j[0];
  }

  /** A leading slash adds an empty first part, which pathlib drops. */
  lemma RootedSplit(j: string, parts: seq<string>)
    requires Split(j, '/') == parts
    ensures Split("/" + j, '/') == [""] + parts
    ensures Kept([""] + parts) == Kept(parts)
  {
    assert "/" + j == "" + ['/'] + j;
    SplitAtSep("", j, '/');
    assert ([""] + parts)[0] == "" && ([""] + parts)[1..] == parts;
  }

  /** `a / b`: a relative `b` is appended to `a`; an absolute one replaces it. */
  function Div(a: PurePath, b: PurePath): PurePath
  {
    if b.root != "" then b else PurePath(a.root, a.parts + b.parts)
  }

  /** `PurePath.with_suffix(suffix)`: replace the final suffix of the last part, or add one; a path without a name is refused. */
  function WithSuffix(p: PurePath, suffix: string): (r: Result<PurePath, Error>)
    ensures r == Err(BadName) <==> p.parts == []
    ensures r.Ok? ==> r.value.root == p.root && |r.value.parts| == |p.parts|
    ensures r.Ok? ==> r.value.parts[..|p.parts| - 1] == p.parts[..|p.parts| - 1]
    ensures r.Ok? ==> var name := r.value.parts[|p.parts| - 1];
      |name| >= |suffix| && name[|name| - |suffix|..] == suffix
  {
    if p.parts == [] then Err(BadName)
    else
      var n := |p.parts|;
      var name := p.parts[n - 1];
      var dot := LastIndexOf(name, '.');
      var stem := if 0 < dot < |name| - 1 then name[..dot] else name;
      var q := PurePath(p.root, p.parts[..n - 1] + [stem + suffix]);
      assert q.parts[..n - 1] == p.parts[..n - 1];
      Ok(q)
  }

  /** The path `fix_db_name` gives a suffix to: `database` itself when absolute, else under the data directory. */
  function DbPath(database: string, dataDir: string): PurePath
  {
    var db := PathOf(database);
    if db.root == "" then Div(PathOf(dataDir), db) else db
  }

  /**
   * `fix_db_name(database)`: a name starting with ":" (such as ":memory:") is
   * used as it is; any other is parsed as a path, put under the data
   * directory when relative, and given the suffix ".db".
   */
  function FixDbName(database: string, dataDir: string): (r: Result<string, Error>)
    ensures |database| > 0 && database[0] == ':' ==> r == Ok(database)
    ensures !(|database| > 0 && database[0] == ':') && r.Ok? ==>
      |r.value| >= 3 && r.value[|r.value| - 3..] == ".db"
  {
    if |database| > 0 && database[0] == ':' then Ok(database)
    else DbFile(DbPath(database, dataDir))
  }

  /** `str(path.with_suffix(".db"))`. */
  function DbFile(p: PurePath): (r: Result<string, Error>)
    ensures r.Err? <==> p.parts == []
    ensures r.Ok? ==> |r.value| >= 3 && r.value[|r.value| - 3..] == ".db"
  {
    var w := WithSuffix(p, ".db");
    if w.Err? then Err(w.error)
    else
      var r := PathStr(w.value);
      EndsIn(r, w.value.parts[|w.value.parts| - 1], ".db");
      Ok(r)
  }

  /** A string that ends in a name that ends in a suffix ends in the suffix. */
  lemma EndsIn(r: string, name: string, suffix: string)
    requires |r| >= |name| && r[|r| - |name|..] == name
    requires |name| >= |suffix| && name[|name| - |suffix|..] == suffix
    ensures |r| >= |suffix| && r[|r| - |suffix|..] == suffix
  {
    assert r[|r| - |suffix|..] == name[|name| - |suffix|..];
  }

  /** A data directory that is already in pathlib's form and has a name. */
  predicate DirForm(dataDir: string)
  {
    PathOf(dataDir).parts != [] && PathStr(PathOf(dataDir)) == dataDir
  }

  /** A clean relative name is one part appended to the data directory. */
  lemma RelativeName(name: string, dataDir: string)
    requires CleanPart(name)
    ensures DbPath(name, dataDir) == PurePath(PathOf(dataDir).root, PathOf(dataDir).parts + [name])
  {
    SplitNoSep(name, '/');
    assert name[0] != '/' by { assert name[0] in name; }
  }

  /** The string of the data directory plus a file `stem` + ".db". */
  lemma UnderDir(dataDir: string, stem: string)
    requires DirForm(dataDir)
    ensures PathStr(PurePath(PathOf(dataDir).root, PathOf(dataDir).parts + [stem + ".db"])) == dataDir + "/" + stem + ".db"
  {
    var home := PathOf(dataDir);
    var file := stem + ".db";
    assert dataDir == home.root + Join(home.parts, "/");
    JoinSnoc(home.parts, file, "/");
    assert PathStr(PurePath(home.root, home.parts + [file])) == home.root + Join(home.parts + [file], "/");
    assert dataDir + "/" + file == dataDir + "/" + stem + ".db";
  }

  /** `with_suffix` on a path whose last part is `name`, whose stem is `stem`. */
  lemma SuffixOfLast(root: string, dir: seq<string>, name: string, stem: string, suffix: string)
    requires var dot := LastIndexOf(name, '.');
      stem == if 0 < dot < |name| - 1 then name[..dot] else name
    ensures WithSuffix(PurePath(root, dir + [name]), suffix) == Ok(PurePath(root, dir + [stem + suffix]))
  {
    assert (dir + [name])[..|dir|] == dir;
  }

  lemma FixDbNameOk(database: string, dataDir: string, q: PurePath)
    requires !(|database| > 0 && database[0] == ':')
    requires WithSuffix(DbPath(database, dataDir), ".db") == Ok(q)
    ensures FixDbName(database, dataDir) == Ok(PathStr(q))
  {
  }

  /** A clean relative name goes into the data directory with its stem and ".db". */
  lemma FixDbNameUnderDir(name: string, stem: string, dataDir: string)
    requires CleanPart(name) && name[0] != ':'
    requires var dot := LastIndexOf(name, '.');
      stem == if 0 < dot < |name| - 1 then name[..dot] else name
    requires DirForm(dataDir)
    ensures FixDbName(name, dataDir) == Ok(dataDir + "/" + stem + ".db")
  {
    var home := PathOf(dataDir);
    RelativeName(name, dataDir);
    SuffixOfLast(home.root, home.parts, name, stem, ".db");
    var q := PurePath(home.root, home.parts + [stem + ".db"]);
    FixDbNameOk(name, dataDir, q);
    UnderDir(dataDir, stem);
  }

  /** A relative name with no slash and no suffix ends up inside the data directory, given ".db". */
  lemma FixDbNameRelative(name: string, dataDir: string)
    requires CleanPart(name) && name[0] != ':'
    requires LastIndexOf(name, '.') <= 0
    requires DirForm(dataDir)
    ensures FixDbName(name, dataDir) == Ok(dataDir + "/" + name + ".db")
  {
    FixDbNameUnderDir(name, name, dataDir);
  }

  /**
   * A relative name with a suffix has the suffix replaced: "data.txt"
   * becomes "<dir>/data.db".
   */
  lemma FixDbNameReplacesSuffix(stem: string, ext: string, dataDir: string)
    requires |stem| > 0 && |ext| > 0 && stem[0] != ':'
    requires '/' !in stem && '/' !in ext && '.' !in ext
    requires DirForm(dataDir)
    ensures FixDbName(stem + "." + ext, dataDir) == Ok(dataDir + "/" + stem + ".db")
  {
    var name := stem + "." + ext;
    assert '/' !in name;
    assert name[0] == stem[0];
    assert CleanPart(name) by {
      assert name != "." by { assert |name| >= 3; }
    }
    LastOfJoin(stem, '.', ext);
    assert name[..|stem|] == stem;
    FixDbNameUnderDir(name, stem, dataDir);
  }

  /** The last c in a + [c] + b, where b holds no c, is the one between them. */
  lemma LastOfJoin(a: string, c: char, b: string)
    requires c !in b
    ensures LastIndexOf(a + [c] + b, c) == |a|
  {
    var s := a + [c] + b;
    assert s[|a|] == c;
    assert s[|a| + 1..] == b;
  }

  /** A trailing slash after a name does not change the path. */
  lemma PathOfTrailingSlash(s: string)
    requires |s| > 0 && s[|s| - 1] != '/'
    ensures PathOf(s + "/") == PathOf(s)
  {
    SplitEndSep(s, '/');
    KeptAppend(Split(s, '/'), [""]);
    assert Kept([""]) == [];
    assert RootOf(s + "/") == RootOf(s) by {
      if |s| >= 3 {
        assert (s + "/")[..3] == s[..3];
      }
    }
  }

  /** A trailing slash changes nothing: "app/" names the same file as "app". */
  lemma FixDbNameTrailingSlash(name: string, dataDir: string)
    requires |name| > 0 && name[0] != ':' && name[|name| - 1] != '/'
    ensures FixDbName(name + "/", dataDir) == FixDbName(name, dataDir)
  {
    PathOfTrailingSlash(name);
    assert DbPath(name + "/", dataDir) == DbPath(name, dataDir);
    assert (name + "/")[0] == name[0];
  }

  /** Empty and "." parts are dropped: "./app//" names the same file as "app". */
  lemma FixDbNameDropsEmptyParts(name: string, dataDir: string)
    requires CleanPart(name) && name[0] != ':'
    ensures FixDbName("./" + name + "//", dataDir) == FixDbName(name, dataDir)
  {
    PathOfDotted(name);
    assert ("./" + name + "//")[0] == '.';
  }

  lemma PathOfDotted(name: string)
    requires CleanPart(name)
    ensures PathOf("./" + name + "//") == PathOf(name)
  {
    var s := "./" + name + "//";
    assert s == "." + ['/'] + (name + ['/'] + "/");
    SplitAtSep(".", name + ['/'] + "/", '/');
    SplitAtSep(name, "/", '/');
    assert "/" == "" + ['/'] + "";
    SplitAtSep("", "", '/');
    SplitNoSep(name, '/');
    assert Split(s, '/') == ["."] + Split(name, '/') + ["", ""];
    KeptAppend(["."] + Split(name, '/'), ["", ""]);
    KeptAppend(["."], Split(name, '/'));
    assert Kept(["", ""]) == [] && Kept(["."]) == [];
    assert name[0] != '/' by { assert name[0] in name; }
  }

  /** A doubled slash between two names counts as one. */
  lemma FixDbNameDoubleSlash(a: string, b: string, dataDir: string)
    requires CleanPart(a) && CleanPart(b) && a[0] != ':'
    ensures FixDbName(a + "//" + b, dataDir) == FixDbName(a + "/" + b, dataDir)
  {
    PathOfDoubleSlash(a, b);
    assert (a + "//" + b)[0] == a[0] && (a + "/" + b)[0] == a[0];
  }

  lemma PathOfDoubleSlash(a: string, b: string)
    requires CleanPart(a)
    ensures PathOf(a + "//" + b) == PathOf(a + "/" + b)
  {
    KeptDoubleSlash(a, b);
    assert a[0] != '/' by { assert a[0] in a; }
    var s1, s2 := a + "//" + b, a + "/" + b;
    assert s1[0] == a[0] && s2[0] == a[0];
    assert RootOf(s1) == RootOf(s2);
  }

  lemma KeptDoubleSlash(a: string, b: string)
    requires CleanPart(a)
    ensures Kept(Split(a + "//" + b, '/')) == Kept(Split(a + "/" + b, '/'))
  {
    SplitDoubleSlash(a, b);
    KeptDropsEmpty([a], Split(b, '/'));
  }

  lemma KeptDropsEmpty(xs: seq<string>, ys: seq<string>)
    ensures Kept(xs + ([""] + ys)) == Kept(xs + ys)
  {
    KeptAppend(xs, [""] + ys);
    assert ([""] + ys)[0] == "" && ([""] + ys)[1..] == ys;
    assert Kept([""] + ys) == Kept(ys);
    KeptAppend(xs, ys);
  }

  lemma SplitDoubleSlash(a: string, b: string)
    requires '/' !in a
    ensures Split(a + "//" + b, '/') == [a] + ([""] + Split(b, '/'))
    ensures Split(a + "/" + b, '/') == [a] + Split(b, '/')
  {
    assert a + "//" + b == a + ['/'] + ("" + ['/'] + b);
    assert a + "/" + b == a + ['/'] + b;
    SplitAtSep(a, "" + ['/'] + b, '/');
    SplitAtSep("", b, '/');
    SplitAtSep(a, b, '/');
  }

  /** An absolute name ignores the data directory. */
  lemma FixDbNameAbsolute(database: string, dir1: string, dir2: string)
    requires |database| > 0 && database[0] == '/'
    ensures FixDbName(database, dir1) == FixDbName(database, dir2)
  {
    assert DbPath(database, dir1) == DbPath(database, dir2);
  }

  /** A bare root has no name to give a suffix to. */
  lemma FixDbNameRootOnly(dataDir: string)
    ensures FixDbName("/", dataDir) == Err(BadName)
  {
    SplitAtSep("", "", '/');
    assert "/" == "" + ['/'] + "";
    assert DbPath("/", dataDir) == PurePath("/", []);
  }

  // ---------------------------------------------------------------------------
  // The abstract database

  type Row = seq<Value>

  /** A table: its column names in declaration order and its rows, each a value per column. */
  datatype Table = Table(columns: seq<string>, rows: seq<Row>)

  /** A `loadfile` record: when the file was last modified, and its version. */
  datatype Record = Record(mtime: int, ver: Option<string>)

  datatype DbState = DbState(
    hasLoadfile: bool,
    loadfile: map<(string, string), Record>,
    tables: map<string, Table>,
    indexes: set<string>)

  /** The state after a statement, whether it raised or not. */
  datatype Step<T> = Step(state: DbState, result: Result<T, Error>)

  /**
   * `lcheck(name, path, mtime, ver)`. A record for (name, path) with an equal
   * or newer mtime raises LoadError(path) and writes nothing. Otherwise the
   * record is written (insert or replace); when the `loadfile` table did not
   * exist, the failing query created it first.
   */
  function LCheckSpec(st: DbState, name: string, path: string, mtime: int, ver: Option<string>): Step<()>
  {
    var records := if st.hasLoadfile then st.loadfile else map[];
    if (name, path) in records && records[(name, path)].mtime >= mtime then Step(st, Err(LoadError(path)))
    else Step(st.(hasLoadfile := true, loadfile := records[(name, path) := Record(mtime, ver)]), Ok(()))
  }

  /** lcheck raises exactly when an equal-or-newer record exists, and then changes nothing. */
  lemma LCheckRaises(st: DbState, name: string, path: string, mtime: int, ver: Option<string>)
    ensures var s := LCheckSpec(st, name, path, mtime, ver);
      (s.result.Err? <==> st.hasLoadfile && (name, path) in st.loadfile && st.loadfile[(name, path)].mtime >= mtime) &&
      (s.result.Err? ==> s.state == st && s.result.error == LoadError(path))
  {
  }

  /**
   * After a successful check the tracker maps (name, path) to (mtime, ver),
   * the table exists, and every other record and table is untouched.
   */
  lemma LCheckRecords(st: DbState, name: string, path: string, mtime: int, ver: Option<string>)
    requires LCheckSpec(st, name, path, mtime, ver).result.Ok?
    ensures var s := LCheckSpec(st, name, path, mtime, ver).state;
      s.hasLoadfile && (name, path) in s.loadfile && s.loadfile[(name, path)] == Record(mtime, ver) &&
      s.tables == st.tables && s.indexes == st.indexes &&
      (st.hasLoadfile ==> forall k :: k in st.loadfile && k != (name, path) ==> k in s.loadfile && s.loadfile[k] == st.loadfile[k])
  {
  }

  /**
   * Re-checking the same (name, path) after a successful check raises exactly
   * when the new mtime is not newer: the same file twice is refused, a file
   * modified since is accepted.
   */
  lemma {:induction false} LCheckAgain(st: DbState, name: string, path: string, m1: int, v1: Option<string>, m2: int, v2: Option<string>)
    requires LCheckSpec(st, name, path, m1, v1).result.Ok?
    ensures var s1 := LCheckSpec(st, name, path, m1, v1).state;
      LCheckSpec(s1, name, path, m2, v2).result == (if m2 <= m1 then Err(LoadError(path)) else Ok(()))
  {
    var s1 := LCheckSpec(st, name, path, m1, v1).state;
    assert s1.hasLoadfile && s1.loadfile[(name, path)] == Record(m1, v1);
  }

  /** On a fresh database the first check succeeds and an identical second one raises LoadError. */
  lemma LCheckFreshTwice(name: string, path: string, mtime: int, ver: Option<string>)
    ensures var empty := DbState(false, map[], map[], {});
      var s1 := LCheckSpec(empty, name, path, mtime, ver);
      s1.result.Ok? && LCheckSpec(s1.state, name, path, mtime, ver).result == Err(LoadError(path))
  {
    LCheckAgain(DbState(false, map[], map[], {}), name, path, mtime, ver, mtime, ver);
  }

  function IndexOf(xs: seq<string>, x: string): (r: Option<nat>)
    ensures r.Some? <==> x in xs
    ensures r.Some? ==> r.value < |xs| && xs[r.value] == x
  {
    if |xs| == 0 then None
    else if xs[0] == x then Some(0)
    else match IndexOf(xs[1..], x)
      case None => None
      case Some(i) => Some(i + 1)
  }

  /** The table row an insert stores: positional values as they are, named values in their columns, NULL elsewhere. */
  function StoredRow(t: Table, s: Insert, row: Row): (r: Row)
    requires |row| == s.placeholders
    requires s.columns.Some? ==> |s.columns.value| == |row|
    ensures s.columns.None? ==> r == row
    ensures |r| == if s.columns.None? then |row| else |t.columns|
  {
    if s.columns.None? then row
    else
      var names := s.columns.value;
      seq(|t.columns|, i requires 0 <= i < |t.columns| =>
        match IndexOf(names, t.columns[i]) case Some(k) => row[k] case None => VNone)
  }

  /** The first name of xs outside known, if any. */
  function FirstNotIn(xs: seq<string>, known: seq<string>): (r: Option<string>)
    ensures r.None? <==> forall x :: x in xs ==> x in known
    ensures r.Some? ==> r.value in xs && r.value !in known
  {
    if |xs| == 0 then None
    else if xs[0] !in known then Some(xs[0])
    else
      assert forall x :: x in xs ==> x == xs[0] || x in xs[1..];
      FirstNotIn(xs[1..], known)
  }

  /**
   * What preparing an insert statement checks, before any row is bound. The
   * text is parsed first: `VALUES()` with no placeholder, and an empty name in
   * the column list (`T()`, `T(a,,b)`), are syntax errors. Then the table and
   * its columns are looked up.
   */
  function PrepareInsert(tables: map<string, Table>, s: Insert): (r: Option<Error>)
    ensures s.placeholders <= 0 ==> r == Some(SyntaxError)
    ensures s.columns.Some? && "" in s.columns.value ==> r == Some(SyntaxError)
    ensures r.None? ==> s.table in tables && s.placeholders > 0
    ensures r.None? && s.columns.None? ==> s.placeholders == |tables[s.table].columns|
    ensures r.None? && s.columns.Some? ==> forall x :: x in s.columns.value ==> x in tables[s.table].columns
  {
    if s.placeholders <= 0 || (s.columns.Some? && "" in s.columns.value) then Some(SyntaxError)
    else if s.table !in tables then Some(NoSuchTable(s.table))
    else
      var t := tables[s.table];
      match s.columns
      case None => if s.placeholders != |t.columns| then Some(ColumnCountMismatch) else None
      case Some(names) =>
        match FirstNotIn(names, t.columns)
        case Some(x) => Some(NoSuchColumn(x))
        case None => None
  }

  /**
   * `executemany` of a prepared insert: rows are stored one by one; the first
   * row with the wrong number of values raises and the rows before it stay.
   * The result is the table afterwards, the number of rows stored, and the error.
   */
  function InsertRows(t: Table, s: Insert, data: seq<Row>): (r: (Table, nat, Option<Error>))
    requires s.columns.Some? ==> |s.columns.value| == s.placeholders
    ensures r.0.columns == t.columns
    ensures r.2.None? ==> r.1 == |data| && |r.0.rows| == |t.rows| + |data|
    ensures |r.0.rows| >= |t.rows| && r.0.rows[..|t.rows|] == t.rows
    decreases |data|
  {
    if |data| == 0 then (t, 0, None)
    else if |data[0]| != s.placeholders then (t, 0, Some(BindingCount))
    else
      var t' := t.(rows := t.rows + [StoredRow(t, s, data[0])]);
      var (t'', n, e) := InsertRows(t', s, data[1..]);
      assert t''.rows[..|t.rows|] == t''.rows[..|t'.rows|][..|t.rows|];
      (t'', n + 1, e)
  }

  /** Deleting every row of a table, as `delete from T` does. */
  function Clear(st: DbState, table: string): Step<()>
  {
    if table in st.tables then Step(st.(tables := st.tables[table := st.tables[table].(rows := [])]), Ok(()))
    else Step(st, Err(NoSuchTable(table)))
  }

  /**
   * `load(table, fields, data, how, clear)`: clear the table when asked,
   * build the statement from `fields` (raising for an unsupported shape, after
   * the clear), prepare it, then store the rows. The result is the number of
   * rows stored.
   */
  function LoadSpec(st: DbState, table: string, fields: Fields, data: seq<Row>, how: string, clear: bool): Step<nat>
  {
    var c := if clear then Clear(st, table) else Step(st, Ok(()));
    if c.result.Err? then Step(c.state, Err(c.result.error))
    else
      match LoadStatement(table, fields, how)
      case Err(e) => Step(c.state, Err(e))
      case Ok(s) =>
        match PrepareInsert(c.state.tables, s)
        case Some(e) => Step(c.state, Err(e))
        case None =>
          var (t, n, e) := InsertRows(c.state.tables[table], s, data);
          var st' := c.state.(tables := c.state.tables[table := t]);
          if e.Some? then Step(st', Err(e.value)) else Step(st', Ok(n))
  }

  /**
   * With `clear` (the default), a successful load leaves exactly the given
   * rows in a positional table, in order: nothing that was there before stays.
   * (A SQLite table has at least one column; `LoadNoFields` covers a count of 0.)
   */
  lemma {:induction false} LoadClearReplaces(st: DbState, table: string, n: nat, data: seq<Row>, how: string)
    requires table in st.tables && |st.tables[table].columns| == n && n > 0
    requires forall i :: 0 <= i < |data| ==> |data[i]| == n
    ensures var s := LoadSpec(st, table, Count(n), data, how, true);
      s.result == Ok(|data|) && table in s.state.tables && s.state.tables[table].rows == data &&
      s.state.loadfile == st.loadfile
  {
    var c := Clear(st, table);
    var s := Insert(InsertVerb(how), table, None, "", n);
    InsertAllPositional(c.state.tables[table], s, data);
  }

  lemma {:induction false} InsertAllPositional(t: Table, s: Insert, data: seq<Row>)
    requires s.columns.None?
    requires forall i :: 0 <= i < |data| ==> |data[i]| == s.placeholders
    ensures InsertRows(t, s, data) == (t.(rows := t.rows + data), |data|, None)
    decreases |data|
  {
    if |data| > 0 {
      var t' := t.(rows := t.rows + [data[0]]);
      assert StoredRow(t, s, data[0]) == data[0];
      InsertAllPositional(t', s, data[1..]);
      assert t'.rows + data[1..] == t.rows + data;
      assert t'.(rows := t'.rows + data[1..]) == t.(rows := t.rows + data);
    } else {
      assert t.rows + data == t.rows;
    }
  }

  /**
   * An empty field list builds `insert into T() VALUES()`, and a count of 0
   * `insert into T VALUES()`: both are syntax errors, raised after the clear,
   * whether or not there is data.
   */
  lemma LoadNoFields(st: DbState, table: string, data: seq<Row>, how: string)
    requires table in st.tables
    ensures var s := LoadSpec(st, table, NameList([]), data, how, true);
      s.result == Err(SyntaxError) && s.state.tables[table].rows == []
    ensures var s := LoadSpec(st, table, Count(0), data, how, true);
      s.result == Err(SyntaxError) && s.state.tables[table].rows == []
  {
  }

  /** An unsupported `fields` shape raises, after the table has been cleared when asked. */
  lemma LoadBadFields(st: DbState, table: string, data: seq<Row>, how: string)
    requires table in st.tables
    ensures var s := LoadSpec(st, table, Other, data, how, true);
      s.result == Err(FieldsError) && s.state.tables[table].rows == []
  {
  }

  /** The value sqlite3 hands to SQLite: True and False are bound as the integers 1 and 0. */
  function Adapt(v: Value): Value
  {
    match v
    case VBool(b) => VInt(if b then 1 else 0)
    case _ => v
  }

  /** SQL `=` on bound values: NULL equals nothing, not even NULL. */
  predicate SqlEq(a: Value, b: Value) { a != VNone && b != VNone && Adapt(a) == Adapt(b) }

  /**
   * Booleans compare as 1 and 0, in either position; any other pair of
   * non-NULL values is equal exactly when the values are.
   */
  lemma SqlEqAdapts(a: Value, b: Value)
    ensures SqlEq(VBool(true), VInt(1)) && SqlEq(VInt(0), VBool(false))
    ensures !SqlEq(VBool(true), VInt(2)) && !SqlEq(VNone, VNone)
    ensures !a.VBool? && !b.VBool? ==> (SqlEq(a, b) <==> a != VNone && a == b)
    ensures a.VBool? && b.VBool? ==> (SqlEq(a, b) <==> a == b)
  {
  }

  /** An update keyed on True finds a row that holds 1 under that key, and one keyed on 1 a row that holds True. */
  lemma UpdateKeyTrueMatchesOne(k: string)
    ensures Matches([k], [VInt(1)], [k], map[k := VBool(true)])
    ensures Matches([k], [VBool(true)], [k], map[k := VInt(1)])
  {
  }

  /** `dict(zip(values, row))`: pairs up to the shorter length; a later duplicate name wins. */
  function Bind(names: seq<string>, row: Row): (m: map<string, Value>)
    ensures forall x :: x in m <==> exists k :: 0 <= k < |names| && k < |row| && names[k] == x
    decreases |names|
  {
    if |names| == 0 || |row| == 0 then map[]
    else
      var m := Bind(names[1..], row[1..]);
      assert forall k :: 1 <= k < |names| && k < |row| ==> names[k] == names[1..][k - 1];
      if names[0] in m then m else m[names[0] := row[0]]
  }

  /** The value bound to a name is the one paired with its last occurrence, as in a Python dict. */
  lemma {:induction false} BindLast(names: seq<string>, row: Row, k: nat)
    requires k < |names| && k < |row|
    requires forall j :: k < j < |names| && j < |row| ==> names[j] != names[k]
    ensures names[k] in Bind(names, row) && Bind(names, row)[names[k]] == row[k]
    decreases k
  {
    var m := Bind(names[1..], row[1..]);
    if k == 0 {
      forall j | 0 <= j < |names[1..]| && j < |row[1..]| ensures names[1..][j] != names[0] {
        assert names[1..][j] == names[j + 1];
      }
      assert names[0] !in m;
    } else {
      forall j | k - 1 < j < |names[1..]| && j < |row[1..]| ensures names[1..][j] != names[1..][k - 1] {
        assert names[1..][j] == names[j + 1];
      }
      BindLast(names[1..], row[1..], k - 1);
      assert names[1..][k - 1] == names[k] && row[1..][k - 1] == row[k];
    }
  }

  /** What executing an update checks before it changes anything. */
  function PrepareUpdate(tables: map<string, Table>, u: Update, bound: seq<string>): Option<Error>
  {
    if u.sets == [] || u.keys == [] then Some(SyntaxError)
    else if u.table !in tables then Some(NoSuchTable(u.table))
    else
      var cols := tables[u.table].columns;
      match FirstNotIn(u.sets + u.keys, cols)
      case Some(x) => Some(NoSuchColumn(x))
      case None =>
        match FirstNotIn(u.sets + u.keys, bound)
        case Some(x) => Some(MissingBinding(x))
        case None => None
  }

  /** A table row matches when every key column equals its bound value. */
  predicate Matches(cols: seq<string>, row: Row, keys: seq<string>, bind: map<string, Value>)
  {
    forall k :: k in keys ==> (k in bind && IndexOf(cols, k).Some? && IndexOf(cols, k).value < |row| &&
      SqlEq(row[IndexOf(cols, k).value], bind[k]))
  }

  /** The row with every SET column given its bound value. */
  function SetRow(cols: seq<string>, row: Row, sets: seq<string>, bind: map<string, Value>): (r: Row)
    ensures |r| == |row|
  {
    seq(|row|, i requires 0 <= i < |row| =>
      if i < |cols| && cols[i] in sets && cols[i] in bind then bind[cols[i]] else row[i])
  }

  /** The rows after one update statement, and how many it changed. */
  function UpdateRows(cols: seq<string>, rows: seq<Row>, u: Update, bind: map<string, Value>): (r: (seq<Row>, nat))
    ensures |r.0| == |rows| && r.1 <= |rows|
    ensures r.1 == 0 ==> r.0 == rows
  {
    if |rows| == 0 then ([], 0)
    else
      var (rest, n) := UpdateRows(cols, rows[1..], u, bind);
      if Matches(cols, rows[0], u.keys, bind) then ([SetRow(cols, rows[0], u.sets, bind)] + rest, n + 1)
      else
        assert n == 0 ==> [rows[0]] + rest == rows;
        ([rows[0]] + rest, n)
  }

  /** One `execute` of the update statement with the row's bindings. */
  function UpdateOne(st: DbState, u: Update, row: Row): Step<nat>
  {
    var bind := Bind(u.values, row);
    match PrepareUpdate(st.tables, u, u.values[..if |row| < |u.values| then |row| else |u.values|])
    case Some(e) => Step(st, Err(e))
    case None =>
      var t := st.tables[u.table];
      var (rows', n) := UpdateRows(t.columns, t.rows, u, bind);
      Step(st.(tables := st.tables[u.table := t.(rows := rows')]), Ok(n))
  }

  /**
   * The loop of `update`: `exec` once per data row, adding up the
   * changed-row counts. `count` is what was counted before, and an error
   * stops the loop with the earlier executions done.
   */
  function RunAll(exec: (DbState, Row) -> Step<nat>, st: DbState, data: seq<Row>, count: nat): (r: Step<nat>)
    ensures r.result.Ok? ==> r.result.value >= count
    decreases |data|
  {
    if |data| == 0 then Step(st, Ok(count))
    else
      var s := exec(st, data[0]);
      if s.result.Err? then Step(s.state, Err(s.result.error))
      else RunAll(exec, s.state, data[1..], count + s.result.value)
  }

  /** The count is the sum of the per-row counts: splitting the data splits the sum. */
  lemma {:induction false} RunAllSplit(exec: (DbState, Row) -> Step<nat>, st: DbState, d1: seq<Row>, d2: seq<Row>, count: nat)
    requires RunAll(exec, st, d1, count).result.Ok?
    ensures var s := RunAll(exec, st, d1, count);
      RunAll(exec, st, d1 + d2, count) == RunAll(exec, s.state, d2, s.result.value)
    decreases |d1|
  {
    if |d1| > 0 {
      var s := exec(st, d1[0]);
      assert (d1 + d2)[0] == d1[0] && (d1 + d2)[1..] == d1[1..] + d2;
      RunAllSplit(exec, s.state, d1[1..], d2, count + s.result.value);
    } else {
      assert d1 + d2 == d2;
    }
  }

  /** One `execute` of the update statement u. */
  function Executor(u: Update): (DbState, Row) -> Step<nat>
  {
    (st: DbState, row: Row) => UpdateOne(st, u, row)
  }

  /** `update(table, keys, values, data)`: one execute of the statement per data row. */
  function UpdateAll(st: DbState, u: Update, data: seq<Row>, count: nat): (r: Step<nat>)
    ensures r.result.Ok? ==> r.result.value >= count
  {
    RunAll(Executor(u), st, data, count)
  }

  /** An update over no data executes nothing and returns 0, whatever the statement. */
  lemma UpdateNoData(st: DbState, u: Update)
    ensures UpdateAll(st, u, [], 0) == Step(st, Ok(0))
  {
  }

  /** Updating d1 + d2 is updating d1, then d2 from the state and the count it left. */
  lemma UpdateAllSplit(st: DbState, u: Update, d1: seq<Row>, d2: seq<Row>, count: nat)
    requires UpdateAll(st, u, d1, count).result.Ok?
    ensures var s := UpdateAll(st, u, d1, count);
      UpdateAll(st, u, d1 + d2, count) == UpdateAll(s.state, u, d2, s.result.value)
  {
    RunAllSplit(Executor(u), st, d1, d2, count);
  }

  /** A data row whose key matches no table row changes nothing and counts 0. */
  lemma UpdateNoMatch(st: DbState, u: Update, row: Row)
    requires UpdateOne(st, u, row).result.Ok?
    requires var t := st.tables[u.table];
      forall i :: 0 <= i < |t.rows| ==> !Matches(t.columns, t.rows[i], u.keys, Bind(u.values, row))
    ensures UpdateOne(st, u, row) == Step(st, Ok(0))
  {
    var t := st.tables[u.table];
    NoMatchRows(t.columns, t.rows, u, Bind(u.values, row));
    assert st.tables[u.table := t] == st.tables;
  }

  lemma {:induction false} NoMatchRows(cols: seq<string>, rows: seq<Row>, u: Update, bind: map<string, Value>)
    requires forall i :: 0 <= i < |rows| ==> !Matches(cols, rows[i], u.keys, bind)
    ensures UpdateRows(cols, rows, u, bind) == (rows, 0)
  {
    if |rows| > 0 {
      NoMatchRows(cols, rows[1..], u, bind);
    }
  }

  /** The loop of `executemany` for an insert: one row at a time until a row has the wrong width. */
  method InsertAll(t0: Table, s: Insert, data: seq<Row>) returns (t: Table, count: nat, e: Option<Error>)
    requires s.columns.Some? ==> |s.columns.value| == s.placeholders
    ensures (t, count, e) == InsertRows(t0, s, data)
  {
    t, count, e := t0, 0, None;
    var k := 0;
    while k < |data|
      invariant 0 <= k <= |data|
      invariant var r := InsertRows(t, s, data[k..]); InsertRows(t0, s, data) == (r.0, r.1 + count, r.2)
    {
      assert data[k..][1..] == data[k + 1..];
      if |data[k]| != s.placeholders {
        e := Some(BindingCount);
        return;
      }
      t := t.(rows := t.rows + [StoredRow(t, s, data[k])]);
      count := count + 1;
      k := k + 1;
    }
  }

  /** The loop of `update`: `exec` once per data row, adding up the counts, until one raises. */
  method RunAllRows(exec: (DbState, Row) -> Step<nat>, st0: DbState, data: seq<Row>) returns (r: Step<nat>)
    ensures r == RunAll(exec, st0, data, 0)
  {
    var st := st0;
    var count: nat := 0;
    var k := 0;
    while k < |data|
      invariant 0 <= k <= |data|
      invariant RunAll(exec, st0, data, 0) == RunAll(exec, st, data[k..], count)
    {
      assert data[k..][1..] == data[k + 1..];
      var s := exec(st, data[k]);
      if s.result.Err? {
        return Step(s.state, Err(s.result.error));
      }
      st := s.state;
      count := count + s.result.value;
      k := k + 1;
    }
    r := Step(st, Ok(count));
  }

  // ---------------------------------------------------------------------------
  // The connection

  /** A connection: the abstract state of the database it is open on. */
  class Connection {
    var hasLoadfile: bool
    var loadfile: map<(string, string), Record>
    var tables: map<string, Table>
    var indexes: set<string>

    function State(): DbState
      reads this
    {
      DbState(hasLoadfile, loadfile, tables, indexes)
    }

    method SetState(st: DbState)
      modifies this
      ensures State() == st
    {
      hasLoadfile, loadfile, tables, indexes := st.hasLoadfile, st.loadfile, st.tables, st.indexes;
    }

    /** A connection to a database that has no table yet. */
    constructor ()
      ensures State() == DbState(false, map[], map[], {})
    {
      hasLoadfile, loadfile, tables, indexes := false, map[], map[], {};
    }

    /** `lcheck(name, path, mtime, ver)`, with mtime already converted to a comparable number. */
    method LCheck(name: string, path: string, mtime: int, ver: Option<string>) returns (r: Result<(), Error>)
      modifies this
      ensures State() == LCheckSpec(old(State()), name, path, mtime, ver).state
      ensures r == LCheckSpec(old(State()), name, path, mtime, ver).result
    {
      if hasLoadfile && (name, path) in loadfile && loadfile[(name, path)].mtime >= mtime {
        return Err(LoadError(path));
      }
      if !hasLoadfile {
        // the count query failed: create the bookkeeping table
        hasLoadfile := true;
        loadfile := map[];
      }
      loadfile := loadfile[(name, path) := Record(mtime, ver)];
      r := Ok(());
    }

    /** `load(table, fields, data, how, clear)`; the result is the row count of the cursor. */
    method Load(table: string, fields: Fields, data: seq<Row>, how: string, clear: bool) returns (r: Result<nat, Error>)
      modifies this
      ensures State() == LoadSpec(old(State()), table, fields, data, how, clear).state
      ensures r == LoadSpec(old(State()), table, fields, data, how, clear).result
    {
      if clear {
        if table !in tables {
          return Err(NoSuchTable(table));
        }
        tables := tables[table := tables[table].(rows := [])];
      }
      var stmt := LoadStatement(table, fields, how);
      if stmt.Err? {
        return Err(stmt.error);
      }
      var s := stmt.value;
      var bad := PrepareInsert(tables, s);
      if bad.Some? {
        return Err(bad.value);
      }
      var t, n, e := InsertAll(tables[table], s, data);
      tables := tables[table := t];
      r := if e.Some? then Err(e.value) else Ok(n);
    }

    /** `update(table, keys, values, data)`: the total number of changed rows. */
    method Update(table: string, keys: FieldArg, values: FieldArg, data: seq<Row>) returns (r: Result<nat, Error>)
      modifies this
      ensures State() == UpdateAll(old(State()), UpdateStatement(table, keys, values), data, 0).state
      ensures r == UpdateAll(old(State()), UpdateStatement(table, keys, values), data, 0).result
    {
      var step := RunAllRows(Executor(UpdateStatement(table, keys, values)), State(), data);
      SetState(step.state);
      r := step.result;
    }

    /** `create table if not exists T(...)`: a table that exists already is left as it is. */
    method CreateTable(name: string, columns: seq<string>)
      modifies this
      ensures State() == CreateTableSpec(old(State()), name, columns)
    {
      if name !in tables {
        tables := tables[name := Table(columns, [])];
      }
    }

    /** `create index if not exists I on T(c)`. */
    method CreateIndex(name: string)
      modifies this
      ensures State() == old(State()).(indexes := old(indexes) + {name})
    {
      indexes := indexes + {name};
    }
  }

  function CreateTableSpec(st: DbState, name: string, columns: seq<string>): DbState
  {
    if name in st.tables then st else st.(tables := st.tables[name := Table(columns, [])])
  }

  /** Creating a table twice is the same as creating it once. */
  lemma CreateTableIdempotent(st: DbState, name: string, columns: seq<string>)
    ensures CreateTableSpec(CreateTableSpec(st, name, columns), name, columns) == CreateTableSpec(st, name, columns)
    ensures name in CreateTableSpec(st, name, columns).tables
  {
  }
}
