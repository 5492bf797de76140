# orange: a verified model of its data-handling core

`orange` is a toolkit of office-automation helpers. It wraps SQLite, Excel
readers and writers, the `packaging` version rules and the shell. This
project models, in Dafny, the sequential logic beneath those wrappers and
proves properties of that logic:

- **`Sqlite`** (`sqlite.dfy`) models the loader layer of `sqlite.py`:
  - the `Values` placeholder builder and `fix_db_name`;
  - the duplicate-import tracker `lcheck`;
  - the statements that `load` and `update` build.

  A `Connection` class holds the database as abstract state: the
  `loadfile` records, a "loadfile exists" flag, the tables (column names
  and positional rows) and the index names. `lcheck`, `load` and `update`
  are methods over that state. Each is proved equal to a specification
  function, and lemmas about those functions state the promised
  behaviour.
- **`Table`** (`table.py`) turns a declarative list of `Column`s into DDL:
  - the field lines, the primary-key line or the trailing-comma removal;
  - one `create index` per indexed column;
  - the `Table.load` wiring;
  - the default query and header choice of `Table.export`.
- **`Data`** (`utils/data.py`) models the row pipeline stages:
  `convdata`, `filterer`, `mapper`, `slicer`, `converter` (the in-place
  per-column loop keeps its array), `includer`, `excluder`, `hasher` and
  `hashfilter`. `table.py`'s own `convdata`, `exculder` and `slicer` are
  the same code, so they are modelled once, here.
- **`Excel`** (`excel.py`) models:
  - `colname2idx` as a loop, proved against bijective base 26;
  - the `IterCols` range expansion;
  - the skip / select / convert / limit order of `proc_data`.
- **`PyVer`** (`pykit/pyver.py`) models the `SEGMENT` table, `upgrade` and
  `get_cur_ver`. `Version` is a datatype of release numbers and an
  optional pre-release, ordered as section "Pre-releases" of PEP 440
  orders them.
- **`Sudoku`** (`tools/sudoke.py`) is an 81-cell board held in two arrays:
  values and candidate sets. It models:
  - `iter_related`;
  - reading the digits;
  - `init`;
  - `SetValue`, which strikes a digit from the peers;
  - the two deduction rules of `Process`.

  The invariant is that no empty cell lists a digit that a peer holds.
  `init` establishes it, and every step keeps it.
- **`Shell`** (`shell/shell.py`) models the command string that `shell`
  builds: argument quoting, option markers and rendering, and the final
  join.
- **`Config`** (`config.py`) models the dotted-key store. `get` and `set`
  are methods over a nested table, and `save` is recorded as an effect.
- **`Xlsx`** (`xlsx.py`) models:
  - `Header`, and `Style.style`/`copy`;
  - address completion in `Book.__setitem__`;
  - the `{n}` row offsets in formulas;
  - the per-worksheet row cursor;
  - `set_border`'s edge and format-name logic;
  - `_add_table`'s column normalisation and extents.

  The xlsxwriter workbook itself is abstract.

Shared modules:

- `wrappers.dfy`: `Option` and `Result`.
- `strings.dfy`: `split`/`join`, `ljust`, ASCII case and decimal
  rendering.
- `pyval.dfy`: Python scalar values with their truthiness and `str()`.

Python exceptions become `Err` values, and the operations take no
precondition beyond what the source needs. The value types are narrower
than Python's, as "## Left out" lists. Lazy iterators become sequences.
The MD5 digest is a function parameter about which nothing is assumed.

Some details of the source, kept as written:

- In the `worksheet` setter (`xlsx.py:183-185`), an empty name (None or
  "") increments the sheet counter. The `Sheet{n}` text computed next is
  discarded, so the worksheet is still registered under that empty name,
  and None and "" are two different keys.
- `create_table` without a database still reaches the index loop
  (`table.py:89-98`), so it raises `AttributeError` exactly when some
  column is indexed.
- `upgrade` on a release of other than three numbers does not find the
  pre-release at positions 3 and 4 (`pyver.py:51-58`).

## Model

| member | source | states |
|---|---|---|
| Data.Resolve | src/orange/utils/data.py:97 | a Python index resolves iff -n <= i < n, to i or i + n |
| Data.ConvData | src/orange/utils/data.py:19-21 | only results of the conversion survive, none of them falsy, and every truthy result is kept |
| Data.ConvDataAppend | src/orange/table.py:19-25 | `convdata` distributes over concatenation, so results keep the row order |
| Data.Filterer | src/orange/utils/data.py:24-32 | the output holds exactly the rows that satisfy the predicate, and no more rows than the input |
| Data.FiltererAppend | src/orange/utils/data.py:24-32 | filtering a concatenation is filtering each part in turn, so order and repeats are kept |
| Data.FiltererOne | src/orange/utils/data.py:29-30 | one row is kept iff the predicate accepts it |
| Data.FiltererFuse | src/orange/utils/data.py:24-32 | two filters in a row equal one filter on the conjunction |
| Data.Mapper | src/orange/utils/data.py:35-43 | a mapper keeps the number of rows; its content is stated by `MapperCompose` |
| Data.MapperCompose | src/orange/utils/data.py:35-43 | mapping keeps the length and position; two mappers compose |
| Data.MakeSlice | src/orange/utils/data.py:52 | `slice(*args)` accepts one to three arguments, and one argument is the stop |
| Data.SliceOf | src/orange/utils/data.py:55 | slicing fails exactly on step 0 |
| Data.UnitSlice | src/orange/utils/data.py:55 | a step-1 slice is the contiguous run between the clamped bounds |
| Data.SliceRow | src/orange/table.py:185-196 | a row slice fails exactly on a bad argument count or a zero step |
| Data.MapAll | src/orange/utils/data.py:40-41 | mapping a failing function fails iff some row fails; otherwise it maps position by position |
| Data.Slicer | src/orange/utils/data.py:46-57 | the slice is built first, so a wrong argument count raises TypeError even with no rows; one or two arguments always succeed; every row is mapped to `row[slice(*args)]` |
| Data.SlicerStop | src/orange/utils/data.py:46-57 | `slicer(k)` keeps the first k elements of every row |
| Data.ApplyConvsAt | src/orange/utils/data.py:106-109 | a listed position holds `conv(row[idx])`, and every other position is unchanged |
| Data.ConvertInPlace | src/orange/utils/data.py:71-74 | the in-place loop fails iff some index is out of range; otherwise the array ends as `ApplyConvs` of its old contents |
| Data.ConvertRow | src/orange/utils/data.py:60-76 | a per-column converter fails iff some index does not resolve |
| Data.Converter | src/orange/utils/data.py:60-76 | a callable converter maps whole rows; either form keeps the row count |
| Data.IncludeRow | src/orange/utils/data.py:84-85 | the projection is defined iff every column is in range, and element k is `row[cols[k]]` |
| Data.Includer | src/orange/utils/data.py:79-87 | every output row has `len(cols)` elements, in the order of `cols` |
| Data.KeptBelow | src/orange/utils/data.py:98 | the kept positions are ascending, not excluded, and all non-excluded positions appear |
| Data.KeptBelowCount | src/orange/utils/data.py:97-98 | the number kept is m minus the excluded positions inside [0, m) |
| Data.ExcludeRow | src/orange/table.py:174-182 | the output is the row at the kept positions, in their original order |
| Data.ExcludeRowLength | src/orange/utils/data.py:90-100 | the output length is len(row) minus the distinct resolved indices inside the row |
| Data.ExcludeLast | src/orange/utils/data.py:97 | excluding -1 drops the last element |
| Data.KeptBelowIdentity | src/orange/utils/data.py:97-98 | excluding nothing inside the row keeps every position |
| Data.Excluder | src/orange/utils/data.py:90-100 | every row is mapped through `ExcludeRow` |
| Data.HashText | src/orange/utils/data.py:121 | IndexError iff a listed column is out of range; TypeError iff a listed truthy value is not a string; on success the text equals the `str()` join that `hashfilter` checks |
| Data.HashRow | src/orange/utils/data.py:120-122 | the row fails iff its text does, with the same error; otherwise exactly one value is appended, md5 of the listed truthy values |
| Data.Hasher | src/orange/utils/data.py:114-124 | succeeds iff every row has a defined text; then every row is mapped through `HashRow`, in order |
| Data.HashRowRejectsNumbers | src/orange/utils/data.py:121 | a truthy number among the listed values makes `hasher` raise TypeError |
| Data.HashChanged | src/orange/utils/data.py:134-136 | fails iff a listed column or h is out of range; otherwise a row counts as changed iff `row[h]` is not the string md5 of the `str()` join of its listed truthy values |
| Data.HashChangedStringifies | src/orange/utils/data.py:134-136 | a number is checked as its decimal text and True as "True" |
| Data.FilterAll | src/orange/utils/data.py:29-30 | succeeds iff the predicate succeeds on every row; then exactly the accepted rows are kept, and all-rejecting gives no rows |
| Data.FilterAllAppend | src/orange/utils/data.py:29-30 | filtering a concatenation succeeds iff both parts do, and keeps the parts' rows in order |
| Data.FilterAllOne | src/orange/utils/data.py:29-30 | one row fails as the predicate fails, and is kept iff the predicate accepts it |
| Data.HashFilter | src/orange/utils/data.py:127-138 | no arguments raise IndexError; otherwise it is `FilterAll` of `HashChanged`, and the kept rows are exactly the changed ones |
| Data.HashTextAppend | src/orange/utils/data.py:121-136 | appending the checksum leaves the text that `hashfilter` checks equal to the one `hasher` hashed |
| Data.HashRoundTrip | src/orange/utils/data.py:114-138 | when the listed truthy values are strings, `hasher(*cols)` succeeds and `hashfilter(*cols, n)` over its output keeps no row |
| Data.TextOfStrings | src/orange/utils/data.py:121 | in-range columns whose truthy values are strings give a defined text |
| Excel.ColName2Idx | src/orange/excel.py:30-37 | the loop computes `ColIndex`: bijective base 26 of the upper-cased name, minus one |
| Excel.ColName | src/orange/excel.py:34-36 | the inverse of the base-26 value: a non-empty upper-case name |
| Excel.ColValueOfName | src/orange/excel.py:34-36 | the base-26 value inverts the column name of n |
| Excel.NameOfColValue | src/orange/excel.py:34-36 | the column name inverts the value of an upper-case name |
| Excel.ColIndexBijective | src/orange/excel.py:30-37 | two letter names have the same index iff they are equal, and the index is at least 0 |
| Excel.ColIndexExamples | src/orange/excel.py:30-37 | A is 0, Z is 25, AA is 26, AZ is 51, BA is 52 |
| Excel.ColIndexCaseInsensitive | src/orange/excel.py:32 | upper- or lower-casing a name does not change its index |
| Excel.ColIndexLetter | src/orange/excel.py:34-37 | a single letter's index is its alphabet position minus one |
| Excel.Range | src/orange/excel.py:45 | `range(a, b)` holds b - a ascending numbers from a, and is empty when a >= b |
| Excel.ColPart | src/orange/excel.py:43-47 | a name gives its index; `X:Y` gives idx(X)..idx(Y) inclusive; any other colon count raises |
| Excel.ConcatParts | src/orange/excel.py:42 | the comma parts succeed iff each part does |
| Excel.IterColsConcat | src/orange/excel.py:40-47 | the parts are expanded in order and concatenated |
| Excel.IterColsExample | src/orange/excel.py:40-47 | "A,C:E" expands to 0, 2, 3, 4 |
| Excel.ColPartRangeCE | src/orange/excel.py:43-45 | "C:E" expands to 2, 3, 4 |
| Excel.ConcatSingle | src/orange/excel.py:42-47 | a string without commas expands as one part |
| Excel.Project | src/orange/excel.py:62 | `itemgetter` fails iff an index is out of range; one index gives a cell, several give a row |
| Excel.Stream | src/orange/excel.py:60-68 | a limit bounds the output, and a converter leaves no falsy row |
| Excel.ProcData | src/orange/excel.py:50-68 | a bad `usecols` raises, an empty selection is a TypeError, `nrows` bounds the output, and a negative `nrows` yields nothing |
| Excel.SkipRows | src/orange/excel.py:58-59 | `skiprows` k drops exactly the first k rows, or all rows when k is at least the length |
| Excel.Rows | src/orange/excel.py:60 | each data row passes through unchanged |
| Excel.StreamPlain | src/orange/excel.py:60-68 | with no stage the rows come out unchanged |
| Excel.StreamSelect | src/orange/excel.py:61-62 | `usecols` projects every row onto the selected indices in order |
| Excel.StreamLimit | src/orange/excel.py:65-68 | `nrows` n keeps the first n rows that survive select and convert |
| Excel.StreamConvert | src/orange/excel.py:63-64 | the converter keeps its truthy results in order, as `convdata` does |
| Excel.StreamSelectConvert | src/orange/excel.py:61-64 | with `usecols` and a converter, the converter runs over the projected rows |
| Sqlite.Values | src/orange/sqlite.py:24-26 | the text is `VALUES(`, then the placeholders, then `)` |
| Sqlite.PlaceholderShape | src/orange/sqlite.py:26 | the placeholders alternate `?` and `,`: 2n - 1 characters, or none |
| Sqlite.ValuesPlaceholders | src/orange/sqlite.py:24-26 | splitting the placeholders on commas gives exactly n question marks |
| Sqlite.InsertVerb | src/orange/sqlite.py:202-205 | "replace" becomes "insert or replace", "ignore" becomes "insert or ignore", and any other method is kept verbatim |
| Sqlite.LoadStatement | src/orange/sqlite.py:206-214 | an int gives no column list and n placeholders; a string gives its comma parts and their count; a list gives its joined names and its length; anything else raises |
| Sqlite.SetFields | src/orange/sqlite.py:246 | the SET names are exactly set(values) - set(keys), without repeats |
| Sqlite.Conv | src/orange/sqlite.py:237-242 | a string is split on commas, and a list is used as it is |
| Sqlite.UpdateStatement | src/orange/sqlite.py:244-248 | SET covers exactly values less keys, and WHERE lists every key |
| Sqlite.LastIndexOf | src/orange/sqlite.py:38 | the position of the last occurrence of c, or -1 when there is none |
| Sqlite.WithSuffix | src/orange/sqlite.py:38 | `with_suffix` fails exactly on a path without parts; otherwise it keeps the root and all but the last part, and the last part ends in the suffix |
| Sqlite.FixDbName | src/orange/sqlite.py:29-39 | a name starting with ":" is kept; any other name that succeeds ends in ".db" |
| Sqlite.FixDbNameRelative | src/orange/sqlite.py:34-38 | a clean relative name without a suffix is put under a normalised data directory and given ".db" |
| Sqlite.FixDbNameReplacesSuffix | src/orange/sqlite.py:34-38 | an existing suffix is replaced by ".db" |
| Sqlite.PathOf | src/orange/sqlite.py:35 | parsing a string gives a root of "", "/" or "//" and clean parts; the root is empty iff the string does not start with "/" |
| Sqlite.PathRoundTrip | src/orange/sqlite.py:35-38 | parsing the string of a well-formed path gives the path back |
| Sqlite.FixDbNameTrailingSlash | src/orange/sqlite.py:35-38 | a trailing slash after a name does not change the file |
| Sqlite.FixDbNameDropsEmptyParts | src/orange/sqlite.py:35-38 | "./name//" names the same file as "name" |
| Sqlite.FixDbNameDoubleSlash | src/orange/sqlite.py:35-38 | a doubled slash between two names counts as one |
| Sqlite.FixDbNameAbsolute | src/orange/sqlite.py:36-37 | an absolute name does not depend on the data directory |
| Sqlite.FixDbNameRootOnly | src/orange/sqlite.py:38 | "/" has no name, so `with_suffix` raises |
| Sqlite.DbFile | src/orange/sqlite.py:38 | the suffixed file name fails iff the path has no parts, and otherwise ends in ".db" |
| Sqlite.LastOfJoin | src/orange/sqlite.py:38 | the last separator of `a + c + b` is at position len(a) when b holds none |
| Sqlite.LCheckRaises | src/orange/sqlite.py:164-170 | `lcheck` raises LoadError(path) iff a record for (name, path) has mtime >= the given one; then nothing changes |
| Sqlite.LCheckRecords | src/orange/sqlite.py:167-181 | a passing `lcheck` records (mtime, ver) for (name, path), creating the table when absent; nothing else changes |
| Sqlite.LCheckAgain | src/orange/sqlite.py:164-181 | after a passing `lcheck`, a second one raises iff its mtime is not newer |
| Sqlite.LCheckFreshTwice | src/orange/sqlite.py:164-181 | on a fresh database the first identical call passes and the second raises |
| Sqlite.IndexOf | src/orange/sqlite.py:210 | the first position of x, present iff x occurs |
| Sqlite.FirstNotIn | src/orange/sqlite.py:210 | the first named column the table lacks, if any |
| Sqlite.StoredRow | src/orange/sqlite.py:207-215 | a positional insert stores the row as given; a named one stores a row as wide as the table |
| Sqlite.InsertRows | src/orange/sqlite.py:215 | `executemany` keeps the existing rows as a prefix and, without error, adds one row per data row |
| Sqlite.InsertAllPositional | src/orange/sqlite.py:207-215 | well-shaped positional rows are appended in order, all of them counted |
| Sqlite.LoadClearReplaces | src/orange/sqlite.py:189-201 | with `clear`, the table holds exactly the loaded rows afterwards, and the records are untouched |
| Sqlite.LoadBadFields | src/orange/sqlite.py:200-214 | bad `fields` raise after the table has been cleared |
| Sqlite.PrepareInsert | src/orange/sqlite.py:206-215 | `VALUES()` or an empty column name is a syntax error; otherwise preparing succeeds only on an existing table whose columns the statement names, or whose width a positional insert matches |
| Sqlite.LoadNoFields | src/orange/sqlite.py:200-215 | an empty field list or a count of 0 raises a syntax error after the clear, even with no data |
| Sqlite.Bind | src/orange/sqlite.py:251 | `dict(zip(values, row))` binds exactly the names paired with a row value |
| Sqlite.BindLast | src/orange/sqlite.py:251 | a name is bound to the value at its last pairing |
| Sqlite.UpdateRows | src/orange/sqlite.py:251 | the row count is kept, and no match leaves every row unchanged |
| Sqlite.SqlEqAdapts | src/orange/sqlite.py:246-251 | key values compare as sqlite3 binds them: True and False as 1 and 0 in either position, NULL equal to nothing, other values exactly |
| Sqlite.UpdateKeyTrueMatchesOne | src/orange/sqlite.py:246-251 | a key bound to True matches a stored 1, and a key bound to 1 a stored True |
| Sqlite.RunAll | src/orange/sqlite.py:249-252 | the accumulated count never decreases |
| Sqlite.RunAllSplit | src/orange/sqlite.py:249-252 | running the loop over d1 + d2 is running it over d1, then over d2 from the state and count d1 left |
| Sqlite.UpdateAll | src/orange/sqlite.py:249-252 | the accumulated count never decreases |
| Sqlite.UpdateNoData | src/orange/sqlite.py:249-252 | no data gives a count of 0 and no change |
| Sqlite.UpdateAllSplit | src/orange/sqlite.py:249-252 | updating d1 + d2 is updating d1, then d2 from that state and count |
| Sqlite.UpdateNoMatch | src/orange/sqlite.py:251-252 | a row that matches nothing adds 0 and changes nothing |
| Sqlite.NoMatchRows | src/orange/sqlite.py:251-252 | rows whose keys match nothing are returned unchanged with count 0 |
| Sqlite.InsertAll | src/orange/sqlite.py:215 | the insert loop computes `InsertRows` |
| Sqlite.RunAllRows | src/orange/sqlite.py:249-255 | the `count += r.rowcount` loop computes `RunAll` from count 0 |
| Sqlite.Connection.constructor | src/orange/sqlite.py:50-53 | a new connection has no records, tables or indexes |
| Sqlite.Connection.LCheck | src/orange/sqlite.py:149-181 | the new state and result are `LCheckSpec` of the old state |
| Sqlite.Connection.Load | src/orange/sqlite.py:183-218 | the new state and result are `LoadSpec` of the old state |
| Sqlite.Connection.Update | src/orange/sqlite.py:220-255 | the new state and count are `UpdateAll` of the built statement |
| Sqlite.Connection.CreateTable | src/orange/sqlite.py:172-180 | `create table if not exists` as `CreateTableSpec` |
| Sqlite.Connection.CreateIndex | src/orange/table.py:96-98 | `create index if not exists` adds the index name and changes nothing else |
| Sqlite.CreateTableIdempotent | src/orange/sqlite.py:172-180 | `create table if not exists` is idempotent and leaves the table present |
| Table.FieldLayout | src/orange/table.py:41-45 | four spaces, the name padded to 15, `type,` padded to 10, two spaces, then `-- header` iff the header is non-empty |
| Table.RemoveFirst | src/orange/table.py:79 | `replace(",", "", 1)` drops only the first comma, or nothing when there is none |
| Table.FieldLines | src/orange/table.py:76 | one field line per column, in declaration order |
| Table.Flagged | src/orange/table.py:77-95 | the names of exactly the flagged columns |
| Table.FlaggedAppend | src/orange/table.py:77 | the flagged names keep declaration order |
| Table.FlaggedNone | src/orange/table.py:77-78 | no flagged column gives no names |
| Table.LinesWithoutKey | src/orange/table.py:77-79 | without a primary key, only the last line loses its first comma and no key line is added |
| Table.LinesOfFields | src/orange/table.py:77-79 | the same, stated through the empty key list |
| Table.LinesWithKey | src/orange/table.py:77-81 | with primary keys, every line keeps its comma and a final `primary key(...)` line lists exactly the keys in order |
| Table.Names | src/orange/table.py:64-66 | the column names in declaration order |
| Table.Statements | src/orange/table.py:71-98 | an empty table name or no columns raise; otherwise the create statement and one index statement per indexed column |
| Table.IndexStatements | src/orange/table.py:94-98 | exactly one `create index if not exists T_name on T(name)` per indexed column, in order |
| Table.TestTable | test.py:5-13 | the sample table has primary key `name` and indexes `bj` as `test_bj` |
| Table.IndexNamesAppend | src/orange/table.py:94-98 | each index loop step adds `T_name` |
| Table.AddIndexes | src/orange/table.py:94-98 | the index loop adds exactly the index names of the flagged columns |
| Table.CreateTable | src/orange/table.py:69-98 | the error cases; without a database it raises iff some column is indexed; with one, the table and its indexes are created |
| Table.LoadTableAtomic | src/orange/table.py:114 | inside `with db`, a failing load leaves tables, records and indexes as they were |
| Table.LoadTableNoCheck | src/orange/table.py:115-126 | without `loadcheck` and a path, no record is touched and the load is positional with `len(Columns)` placeholders |
| Table.LoadTableTwice | src/orange/table.py:114-116 | a checked load of the same path a second time raises LoadError |
| Table.LoadKeepsLoadfile | src/orange/table.py:119-126 | `db.load` never touches the load records |
| Table.LoadTable | src/orange/table.py:100-126 | the new state and result are `LoadTableSpec` of the old state |
| Table.ColumnHeader | src/orange/table.py:47-58 | the header dict holds the header, hidden, total and formula values of the column, and its width and format exactly when they are truthy, and no other key |
| Table.ColumnNamed | src/orange/table.py:164 | `Columns[f]` is found iff f names a column |
| Table.ColumnsNamedSpec | src/orange/table.py:164 | looking up the listed fields succeeds exactly when every name is a column, and yields that column for each name, in order; an unknown field raises KeyError |
| Table.ExportPlan | src/orange/table.py:155-166 | the default query is `select {fields or '*'} from T`, the sheet defaults to the table name; given fields, header i is the header of the column named by field i, and without fields the headers are those of every column |
| PyVer.Cmp | src/orange/pykit/pyver.py:312 | the version order yields -1, 0 or 1 |
| PyVer.CmpRelease | src/orange/pykit/pyver.py:312 | release numbers compare in order, the shorter padded with zeros, giving -1, 0 or 1 |
| PyVer.CmpPre | src/orange/pykit/pyver.py:312 | a pre-release sorts before the final release, and pre-releases sort by kind and then number |
| PyVer.CmpFlip | src/orange/pykit/pyver.py:312 | swapping operands flips the sign |
| PyVer.CmpTrans | src/orange/pykit/pyver.py:312 | the order is transitive, and strict when either step is |
| PyVer.CmpSame | src/orange/pykit/pyver.py:312 | every version equals itself |
| PyVer.CmpReleaseAt | src/orange/pykit/pyver.py:312 | release numbers that first differ at k compare by position k |
| PyVer.SegmentOf | src/orange/pykit/pyver.py:21-46 | the segment is between 0 and 4 |
| PyVer.SegmentIgnoresCase | src/orange/pykit/pyver.py:46 | the lookup is lower-cased, so case does not matter |
| PyVer.SegmentTable | src/orange/pykit/pyver.py:21-46 | the table's names give their segments, and any other name gives 4 |
| PyVer.Items | src/orange/pykit/pyver.py:51 | the release numbers followed by two pre-release items |
| PyVer.PyIndex | src/orange/pykit/pyver.py:53-63 | a list index resolves iff -len <= i < len |
| PyVer.Incr | src/orange/pykit/pyver.py:53-61 | `new[i] += 1` keeps the list length |
| PyVer.Upgrade | src/orange/pykit/pyver.py:36-67 | the list-editing method computes `UpgradeSpec` |
| PyVer.Next | src/orange/pykit/pyver.py:52-63 | the version aimed at keeps three release numbers |
| PyVer.UpgradeThree | src/orange/pykit/pyver.py:47-66 | on X.Y.Z, an accepted segment yields the text of `Next` |
| PyVer.ItemsOfThree | src/orange/pykit/pyver.py:51 | for three numbers, items 3 and 4 are the pre-release, or two Nones |
| PyVer.TextOfThree | src/orange/pykit/pyver.py:64-66 | the text is three dotted numbers, then the pre-release when present |
| PyVer.NextIsNewer | src/orange/pykit/pyver.py:36-67 | the upgraded version is strictly newer |
| PyVer.UpgradeExamples | src/orange/pykit/pyver.py:52-63 | 1.2.3a1 becomes 1.2.3a2, 1.2.3a2 becomes 1.2.3b1, 1.2.3b4 becomes 1.2.3, and `minor` takes 1.2.3 to 1.3.0a1 |
| PyVer.UpgradeRejects | src/orange/pykit/pyver.py:47-50 | segments 0-2 raise on a pre-release, segments 3-4 raise on a final release, and success implies neither |
| PyVer.UpgradeTwoNumbers | src/orange/pykit/pyver.py:51-53 | with two release numbers, `new[4]` is out of range |
| PyVer.GetCurVer | src/orange/pykit/pyver.py:310-312 | None iff there are no paths; otherwise a member that no other path exceeds |
| PyVer.GetCurVerIsLast | src/orange/pykit/pyver.py:312 | the stable sort makes ties go to the last occurrence |
| Sudoku.RowCellsOf | src/orange/tools/sudoke.py:16-27 | the row cells are ascending, and are exactly the cells in pos div 9 |
| Sudoku.ColumnCellsOf | src/orange/tools/sudoke.py:20-29 | the column cells are ascending, and are exactly the cells in pos mod 9 |
| Sudoku.BoxCellsOf | src/orange/tools/sudoke.py:30-32 | the box cells are ascending, and are exactly the cells in the 3x3 box |
| Sudoku.SortedSet | src/orange/tools/sudoke.py:34 | `sorted(set(xs))` is ascending with the same members |
| Sudoku.RemoveFirstOf | src/orange/tools/sudoke.py:35 | `remove` of an element that is present shortens the list by exactly one |
| Sudoku.RemoveFirstIncreasing | src/orange/tools/sudoke.py:35 | on a sorted list without repeats, `remove` keeps it sorted and drops exactly that element |
| Sudoku.RelatedUnknown | src/orange/tools/sudoke.py:24-35 | any other direction leaves pos out of the list, so `remove` raises ValueError |
| Sudoku.RelatedUnit | src/orange/tools/sudoke.py:24-35 | row, column and grid give the 8 other cells of the unit, ascending and without pos |
| Sudoku.RelatedAll | src/orange/tools/sudoke.py:33-36 | "all" gives exactly the peers, ascending and without repetition |
| Sudoku.Peers | src/orange/tools/sudoke.py:33-36 | the peers of a cell, ascending |
| Sudoku.PeerSymmetric | src/orange/tools/sudoke.py:24-36 | being peers is symmetric |
| Sudoku.PeerCount | src/orange/tools/sudoke.py:33-36 | every cell has exactly 20 peers |
| Sudoku.RelatedCount | src/orange/tools/sudoke.py:26-32 | 21 cells share a row, column or box with pos |
| Sudoku.Cells | src/orange/tools/sudoke.py:54-55 | every value read is a digit 0 to 9 |
| Sudoku.ReadCells | src/orange/tools/sudoke.py:51-58 | the reading loop computes `Cells` |
| Sudoku.CellsOfLines | src/orange/tools/sudoke.py:54-57 | digit lines are read in order, with empty lines skipped |
| Sudoku.RowMajor | src/orange/tools/sudoke.py:51-58 | digit c of nine-digit line r becomes cell 9r + c, and 0 means empty |
| Sudoku.InitCand | src/orange/tools/sudoke.py:67-77 | every cell gets `InitCell`: nothing when filled, the digits no peer holds when empty |
| Sudoku.InitConsistent | src/orange/tools/sudoke.py:67-77 | `init` establishes the invariant |
| Sudoku.InitComplete | src/orange/tools/sudoke.py:73-77 | an empty cell keeps every digit that no peer holds |
| Sudoku.AfterSet | src/orange/tools/sudoke.py:38-44 | `SetValue` keeps 81 candidate sets |
| Sudoku.SetKeepsConsistent | src/orange/tools/sudoke.py:38-44 | `SetValue` keeps the invariant and only shrinks candidate sets |
| Sudoku.FillOne | src/orange/tools/sudoke.py:39 | filling an empty cell leaves one fewer empty cell |
| Sudoku.Unit | src/orange/tools/sudoke.py:97-99 | unit d of a cell holds exactly the 8 other cells of its row, column or box |
| Sudoku.LeftMembers | src/orange/tools/sudoke.py:98-101 | a digit is left iff no empty cell of the unit lists it |
| Sudoku.Left | src/orange/tools/sudoke.py:98-101 | removing units' candidates only shrinks the set |
| Sudoku.FirstIn | src/orange/tools/sudoke.py:93-104 | the smallest member, which stands for `list(s)[0]` |
| Sudoku.DeductionRules | src/orange/tools/sudoke.py:89-106 | a deduced digit is the only candidate, or the single digit that one unit leaves |
| Sudoku.UnitRuleFrom | src/orange/tools/sudoke.py:97-106 | a unit-rule digit is the single one that some unit, at or after the one tried, leaves |
| Sudoku.DeductionSafe | src/orange/tools/sudoke.py:89-106 | a deduced digit clashes with no filled peer |
| Sudoku.CandidateSafe | src/orange/tools/sudoke.py:41-77 | on a consistent board every candidate clashes with no filled peer |
| Sudoku.DeducedStep | src/orange/tools/sudoke.py:89-106 | filling a deduced digit keeps the invariant and fills exactly one cell |
| Sudoku.AdvancedTrans | src/orange/tools/sudoke.py:84-109 | steps forward compose: values only get filled, and candidates only shrink |
| Sudoku.SuDoku.constructor | src/orange/tools/sudoke.py:51-59 | stores the digits and runs `init` |
| Sudoku.SuDoku.Init | src/orange/tools/sudoke.py:67-77 | the candidates become `InitCand` of the values |
| Sudoku.SuDoku.SetValue | src/orange/tools/sudoke.py:38-44 | the cell is set, and the candidates become `AfterSet` |
| Sudoku.SuDoku.Deduce | src/orange/tools/sudoke.py:88-106 | fills a cell iff `Deduction` finds a digit, setting that digit |
| Sudoku.SuDoku.Remaining | src/orange/tools/sudoke.py:98-101 | the loop over a unit computes `Left` |
| Sudoku.SuDoku.Pass | src/orange/tools/sudoke.py:85-107 | one pass keeps the invariant; `complete` means no cell was empty; when nothing fills, the board is stuck |
| Sudoku.SuDoku.Visit | src/orange/tools/sudoke.py:88-106 | visiting cell i keeps the invariant and changes no other cell; it fills only an empty cell, one fewer cell is then empty, and when it fills nothing the board is unchanged and no deduction applies |
| Sudoku.SuDoku.Process | src/orange/tools/sudoke.py:84-109 | passes repeat until no rule applies, keeping the invariant |
| Sudoku.Create | src/orange/tools/sudoke.py:51-59 | fails iff reading fails or fewer than 81 digits are read; otherwise a sound board |
| Shell.Marker | src/orange/shell/shell.py:42-45 | the marker is "--" iff the prefix is "-" and the name is longer than one character, or the prefix is "--" |
| Shell.CommandLine | src/orange/shell/shell.py:30-52 | the two loops build exactly the join of `Params` with single spaces |
| Shell.RenderOption | src/orange/shell/shell.py:41-51 | one option turn appends `Rendered` |
| Shell.QuoteIdempotent | src/orange/shell/shell.py:33-40 | quoting an already quoted argument changes nothing |
| Shell.QuoteGuardsBlanks | src/orange/shell/shell.py:33-40 | quoting only wraps `str(arg)` in one pair of quotes, a blank argument always starts with a quote, and one without a blank is unchanged |
| Shell.RenderedShape | src/orange/shell/shell.py:46-51 | False renders nothing; anything else renders one parameter starting with the marker |
| Shell.OptionParamsMembers | src/orange/shell/shell.py:41-51 | the option parameters are exactly those of options that are not False |
| Shell.OptionParamsCount | src/orange/shell/shell.py:41-51 | one parameter per option that is not False |
| Shell.ParamsLayout | src/orange/shell/shell.py:32-51 | the command, then each quoted argument in order, then the options |
| Shell.SplitLine | src/orange/shell/shell.py:52 | without spaces in the parts, splitting the line on spaces gives the parameters back |
| Shell.PosixExample | src/orange/shell/shell.py:30-52 | a worked example: a quoted argument, a short flag, a dropped flag and a long option |
| Shell.WindowsExample | src/orange/shell/shell.py:30-51 | off POSIX, a prefix of None gives "/", and an already quoted argument is kept |
| Config.Config.constructor | src/orange/config.py:33 | the store holds the loaded table, with nothing saved yet |
| Config.Config.Save | src/orange/config.py:58-61 | the table is written out, unchanged |
| Config.Config.Set | src/orange/config.py:46-56 | success stores `SetPath` and saves exactly once; failure changes nothing |
| Config.Descend | src/orange/config.py:47-52 | walking down the path either fails exactly as `SetPath` fails, or yields one table per key from which `SetPath` is rebuilt |
| Config.WriteBack | src/orange/config.py:53-55 | putting the changed innermost table back into each parent in turn gives the root that `Nest` rebuilds from the chain, the one `Descend` relates to `SetPath` |
| Config.Config.Get | src/orange/config.py:35-44 | the result and new state are those of `GetSpec` |
| Config.SetPathHasKey | src/orange/config.py:50-55 | the table `set` produces holds the first name of the path |
| Config.SetThenLookup | src/orange/config.py:48-55 | after `set`, the value is at its path |
| Config.SetThenWalk | src/orange/config.py:38-55 | the walk of `get` finds a truthy value that `set` stored |
| Config.GetAfterSet | src/orange/config.py:35-55 | after `set(key, v)` with v truthy, `get(key)` returns v and changes nothing |
| Config.SetKeepsOthers | src/orange/config.py:48-55 | a path that leaves the key's path reads the same afterwards |
| Config.EmptyLookup | src/orange/config.py:39 | an empty table has no value at any path |
| Config.SetFails | src/orange/config.py:50-55 | `set` raises iff a proper prefix of the key names a scalar |
| Config.GetLeavesAlone | src/orange/config.py:37-44 | a found value or a falsy default stores nothing, and a found value is returned |
| Config.GetStoresDefault | src/orange/config.py:41-56 | a missing key with a truthy default is stored, and a second `get` returns it without storing again |
| Xlsx.HeaderKeys | src/orange/xlsx.py:87-108 | override header; width and format iff truthy; other keywords pass through unchanged |
| Xlsx.HeaderOfName | src/orange/xlsx.py:103-108 | a bare name gives exactly `{"header": name}` |
| Xlsx.StyleDict | src/orange/xlsx.py:45-47 | `style` holds exactly the truthy fields, with their values |
| Xlsx.CopyIsNormal | src/orange/xlsx.py:45-50 | a copy is the original with every falsy optional field (empty text, zero size) unset |
| Xlsx.CopyKeepsStyle | src/orange/xlsx.py:49-50 | a copy has the same `style` |
| Xlsx.CopyEqual | src/orange/xlsx.py:32-50 | a copy equals the original iff no set field is falsy |
| Xlsx.RunLength | src/orange/xlsx.py:28 | the run is the longest prefix of letters or digits, bounded by the cap |
| Xlsx.ParseEndpointOf | src/orange/xlsx.py:28 | one or two letters followed by digits parse as that endpoint |
| Xlsx.EndpointShape | src/orange/xlsx.py:28 | an endpoint that parses is one or two letters, then digits, then a rest that does not start with a digit |
| Xlsx.ParseAddressShape | src/orange/xlsx.py:28 | only strings of the pattern parse: letters then digits, and for a range ":" or "_" and a second run of letters then digits, with nothing else |
| Xlsx.ParseAddressExactly | src/orange/xlsx.py:28 | a string without a separator parses as its letters and digits iff it is one or two capitals followed by digits |
| Xlsx.Complete | src/orange/xlsx.py:258-271 | completion fails iff the address does not fully match the pattern |
| Xlsx.CompleteAt | src/orange/xlsx.py:254-271 | with a row it is `Complete`; a malformed address raises; without a row it raises AttributeError iff the address needs a row number, and a full address is kept |
| Xlsx.CompleteWithoutSheet | src/orange/xlsx.py:254-271 | in the completion step without a worksheet "B3" is kept, "B" raises AttributeError and "a1" is malformed; the `write` that follows is not modelled |
| Xlsx.CompleteColumn | src/orange/xlsx.py:262-264 | "B" becomes "B{row}" |
| Xlsx.CompleteRange | src/orange/xlsx.py:261-268 | both endpoints are completed with the current row, and ":" or "_" is rendered as ":" |
| Xlsx.CompleteRejects | src/orange/xlsx.py:259-271 | lower case, three letters and a dangling separator raise |
| Xlsx.ParseRange | src/orange/xlsx.py:28 | letters, digits, ":" or "_", letters, digits match the whole pattern, with the two columns and the two row numbers as its groups |
| Xlsx.MatchOffset | src/orange/xlsx.py:29 | a match starts with "{" and spans at least three characters |
| Xlsx.MatchOffsetOf | src/orange/xlsx.py:29 | `{n}` for any signed decimal n matches, with its value and length |
| Xlsx.MatchOffsetShape | src/orange/xlsx.py:29 | only `{n}` matches: a brace, an optional sign, a non-empty digit run and a closing brace, with the signed value of the digits |
| Xlsx.OffsetsNoBrace | src/orange/xlsx.py:209-210 | a formula without "{" is unchanged |
| Xlsx.OffsetsOfOne | src/orange/xlsx.py:209-232 | `{n}` becomes the decimal of n plus the current row |
| Xlsx.OffsetAtStart | src/orange/xlsx.py:231-232 | the same, at the start of a formula |
| Xlsx.OffsetsPrefix | src/orange/xlsx.py:210 | text without "{" before an offset is kept as it is |
| Xlsx.Register | src/orange/xlsx.py:139-151 | every non-empty name given is registered, earlier names are kept, and the empty name is never added |
| Xlsx.RegisterKeeps | src/orange/xlsx.py:139-151 | a name that no entry gives keeps the format it had |
| Xlsx.RegisterLast | src/orange/xlsx.py:139-151 | a non-empty name ends with the format of its last entry |
| Xlsx.DefaultReplacesCustom | src/orange/xlsx.py:133-137 | a custom format named "currency" is replaced by the default one |
| Xlsx.EmptyNameSkipped | src/orange/xlsx.py:133-146 | a new book registers nothing under the empty name |
| Xlsx.SelectSheet | src/orange/xlsx.py:180-191 | the named sheet becomes current, created at row 1 only when new; None and "" are distinct names, and each increments the counter |
| Xlsx.Shift | src/orange/xlsx.py:234-242 | `+ n` moves the current sheet's row by n, and raises when there is no sheet |
| Xlsx.NewSheetRow | src/orange/xlsx.py:187-189 | a new worksheet starts at row 1 |
| Xlsx.ShiftBack | src/orange/xlsx.py:234-242 | `+ n` then `- n` returns to the same row |
| Xlsx.SwitchBack | src/orange/xlsx.py:180-191 | switching away and back finds the row where it was left |
| Xlsx.SelectTwice | src/orange/xlsx.py:186-191 | selecting a used name reuses the sheet and creates nothing |
| Xlsx.NoneApartFromEmpty | src/orange/xlsx.py:180-191 | selecting None and then "" registers two worksheets and increments the counter twice |
| Xlsx.Resolved | src/orange/xlsx.py:312-316 | a truthy `border` fills every unset outer side; set sides are kept; with a falsy border nothing is filled |
| Xlsx.BorderCell | src/orange/xlsx.py:319-339 | the cell gets the cached format named from its sides and old format, registered when new; other formats are kept |
| Xlsx.BorderRowEffect | src/orange/xlsx.py:341-345 | each cell of a row gets its border format, and other cells are unchanged |
| Xlsx.BorderRowsEffect | src/orange/xlsx.py:341-345 | every cell of the range gets its border format, and cells outside are unchanged |
| Xlsx.PaintRow | src/orange/xlsx.py:336-345 | painting one row cell by cell ends in the cells and formats that `BorderRow` describes |
| Xlsx.InnerCell | src/orange/xlsx.py:323-326 | a cell strictly inside has `inner` on all four sides |
| Xlsx.SingleCell | src/orange/xlsx.py:307-329 | a one-cell range gets the outer value on every side, and the defaults name its format "2222" |
| Xlsx.NewColumn | src/orange/xlsx.py:372-390 | a normalised column holds neither width nor hidden |
| Xlsx.NormaliseColumns | src/orange/xlsx.py:369-397 | one normalised entry per column, with the table-wide header format applied, and set_columns calls for truthy width or hidden |
| Xlsx.Extents | src/orange/xlsx.py:398-404 | last_col = first_col + len(columns) - 1; last_row = first_row + len(data), plus 1 with a total row; otherwise the given bounds |
| Xlsx.TableSpan | src/orange/xlsx.py:398-404 | n columns and m rows from A1 span n columns and m + 1 rows |
| Xlsx.ColumnTextParts | src/orange/xlsx.py:367-373 | a comma string gives one named header per part |
| Xlsx.ColumnNumber | src/orange/xlsx.py:374-375 | a number n gives the header "Column{n}" |
| Xlsx.Book.constructor | src/orange/xlsx.py:120-137 | a new workbook has no sheets, rows or cells and no current sheet; its formats are `InitialFormats`: the non-empty custom names first, then the defaults, which replace same-named custom ones (`RegisterLast`, `DefaultReplacesCustom`) |
| Xlsx.Book.SetWorksheet | src/orange/xlsx.py:180-191 | the setter acts as `SelectSheet` |
| Xlsx.Book.Add | src/orange/xlsx.py:234-237 | `+ n` acts as `Shift`, and raising changes nothing |
| Xlsx.Book.Sub | src/orange/xlsx.py:239-242 | `- n` acts as `Shift` by -n |
| Xlsx.Book.Newline | src/orange/xlsx.py:171-173 | `newline` is `+ 1` |
| Xlsx.Book.Target | src/orange/xlsx.py:254-271 | the address is completed as `CompleteAt` with the current row, or with no row when there is no worksheet |
| Xlsx.Book.SetBorder | src/orange/xlsx.py:296-345 | no worksheet raises; otherwise the worksheet's cells and formats become `BorderRows` of the resolved border |
| Xlsx.Book.AddTable | src/orange/xlsx.py:352-406 | selects the worksheet, normalises the columns and hands on the computed extents |

## Left out

- SQLite execution is abstract. This includes:
  - `fetch`, `fetchvalue` and the print helpers;
  - `attach`/`detach`, `executefile` and `export`;
  - the `tran` decorator;
  - constraints and primary-key conflicts.

  The "insert or replace"/"insert or ignore" verbs are therefore built but store rows like a plain insert. A `method` text that SQLite would reject is not checked.
- `lcheck`'s datetime formatting is not modelled: `orange.utils.datetime_` is not part of this model. mtime is an integer, ordered as the fixed-width timestamp text is.
- `fix_db_name` takes the `~/.data` directory as a parameter, and does not model creating it. `orange/shell/path.py` is not part of this model: its `Path` is taken to be POSIX `pathlib.Path`, without `~` expansion of the argument.
- Sqlite.FixDbName: follows POSIX `PurePath` parsing (empty and "." parts dropped, "//" kept as a root). A `Path` that the unseen `orange.shell.path` module parses differently is not covered, nor are Windows paths, and ".." is kept as a part just as pathlib keeps it.
- The MD5 digest is an uninterpreted function parameter, and `htutil` is not part of this model. No collision property is assumed.
- The `Data` class of `utils/data.py` is left out: it relies on unseen helpers and indexes wrongly in `include` and `groupby`.
- `read_excel` and `conv_date` are left out, because they do workbook I/O through xlrd.
- `Version` parsing by `packaging` is left out. Versions are datatypes with release numbers and an `a`/`b`/`rc` pre-release, with no epoch, post or dev parts.
- The git, shell and file handling of `VersionMgr` and `get_pkg_ver` is left out.
- `find_ver` becomes a key function passed as a parameter.
- In the sudoku, `print`, `print_aval` and the guess-then-`exit()` tail of `Process` are left out.
  - Only ASCII digits are read, where `int()` would accept other Unicode digits.
  - The board uses the first 81 digits.
- Sudoku.FirstIn: picks the smallest digit for `list(s)[0]`. Python's set order is not specified, and for a single digit the two agree.
- `subprocess.run`, the `Shell` metaclass commands and the choice of OS are left out. The OS becomes a boolean parameter.
- `Config.__init__` (OS-specific paths, the toml load) and the toml dump in `save` are left out. `save` records a snapshot of the table instead.
- Config tables are trees without sharing. `set`'s in-place mutation of nested dicts is modelled by walking down a chain of tables and writing them back.
- The xlsxwriter calls are left out:
  - `write_row`, `merge_range`, `add_table` and `set_column`;
  - the format objects' internals;
  - `_check_dimensions`.

  Formats are named property dicts, and `set_columns` calls are returned rather than performed.
- The regular expressions behind `R` are written out as the parsers `ParseAddress` and `MatchOffset`. The regex engine itself is not part of this model.
- `iter_rows`, `set_widths`, `set_row`, `_write` and `write`'s dispatch by value type are left out, because they are thin xlsxwriter calls. In particular `book["B3"] = v` without a worksheet completes the address and then raises AttributeError in `write`; the model stops at the completion.
- `add_table`'s upper-casing of `pos` and its `convert_range_args` decoding are left out. Ranges arrive as numbers.
- Table.CreateTable: the "tablename is not a string" check of `table.py:71` is not modelled, because table names are strings here.
- `Table.Columns` reads class attributes in declaration order. Here it is an ordered list of (name, Column) pairs.
- Floating-point widths and font sizes are Dafny `real` values, without rounding.
- Excel.ColName2Idx: upper-cases with ASCII rules. Python's `str.upper()` also maps other letters (for example "ß" becomes "SS"), which would give a different index for such names.
- Xlsx.Complete: the digit runs are ASCII "0"-"9". The regular expression's `\d` also matches other Unicode decimal digits, which the model rejects; its `[A-Z]` is ASCII in both.
- Xlsx.SelectSheet: never raises. xlsxwriter's `add_worksheet`, which the setter calls for every new name, rejects a name that repeats an existing sheet name up to case ("A" after "a", or "Sheet1" after an unnamed sheet got that default), one longer than 31 characters, one containing any of `[]:*?/\`, and one starting or ending with an apostrophe. Those checks are in xlsxwriter, not in this repository, and the model accepts every name.
- Xlsx.Book.SetWorksheet: acts as `SelectSheet`, so it accepts the same names.
- Sqlite.SqlEqAdapts: booleans compare as 1 and 0, but SQLite's column type affinity is not modelled, so '1' and 1 never compare equal here, even on a column that would convert one into the other. Stored rows keep True and False as given, where SQLite stores 1 and 0; they compare the same way.
- Sqlite.FirstNotIn: compares column names exactly, and `PrepareInsert` and `PrepareUpdate` rely on it. SQLite ignores blanks around identifiers and matches column names without regard to ASCII case, so `load("T", "a, b", rows)` or a field "A" on a column "a" would run in SQLite but gives `NoSuchColumn` here.
- Xlsx.MatchOffset: the `{n}` digits are ASCII "0"-"9"; the regular expression's `\d` also matches other Unicode decimal digits.
- Row cells, config values and shell arguments are `PyVal` values: None, booleans, integers and strings (config tables are trees of them). Floats, lists and other Python objects are not modelled, so the operations say nothing about them.
