/**
 * Spreadsheet column selection of `orange.excel`: column letters to indices,
 * "A,C:E" column lists, and the skip / select / convert / limit order in which
 * `proc_data` treats the rows of a sheet.
 */
module Excel {
  import opened Wrappers
  import opened Strings
  import Data

  datatype Error = ValueError | TypeError | IndexError

  function Pow26(k: nat): (r: nat)
    ensures r >= 1
  {
    if k == 0 then 1 else 26 * Pow26(k - 1)
  }

  /** The value of one character as a digit: `ord(char) - ord("A") + 1`. */
  function Digit(c: char): int { c as int - 'A' as int + 1 }

  /** `sum((ord(c) - ord("A") + 1) * 26**k)` over the characters, the last one having k = 0. */
  function ColValue(s: string): int
  {
    if |s| == 0 then 0 else ColValue(s[..|s| - 1]) * 26 + Digit(s[|s| - 1])
  }

  /** The index `colname2idx` returns: the upper-cased name read in bijective base 26, minus one. */
  function ColIndex(s: string): int
  {
    ColValue(Upper(s)) - 1
  }

  /** Putting one more character in front adds its digit at the next power of 26. */
  lemma {:induction false} ColValueCons(c: char, t: string)
    ensures ColValue([c] + t) == Digit(c) * Pow26(|t|) + ColValue(t)
    decreases |t|
  {
    if |t| > 0 {
      var u := [c] + t;
      assert u[..|u| - 1] == [c] + t[..|t| - 1];
      ColValueCons(c, t[..|t| - 1]);
    }
  }

  /** One more character of the suffix read from the end. */
  lemma ColValueSuffix(u: string, k: nat)
    requires k < |u|
    ensures ColValue(u[|u| - 1 - k..]) == Digit(u[|u| - 1 - k]) * Pow26(k) + ColValue(u[|u| - k..])
  {
    ColValueCons(u[|u| - 1 - k], u[|u| - k..]);
    assert [u[|u| - 1 - k]] + u[|u| - k..] == u[|u| - 1 - k..];
  }

  /**
   * `colname2idx(col_str)`: upper-case the name, then walk it from the last
   * character, adding each digit times the next power of 26.
   */
  method ColName2Idx(colStr: string) returns (idx: int)
    ensures idx == ColIndex(colStr)
  {
    var u := Upper(colStr);
    var expn, col := 0, 0;
    var k := 0;
    while k < |u|
      invariant 0 <= k <= |u|
      invariant expn == k
      invariant col == ColValue(u[|u| - k..])
    {
      var ch := u[|u| - 1 - k];
      ColValueSuffix(u, k);
      col := col + Digit(ch) * Pow26(expn);
      expn := expn + 1;
      k := k + 1;
    }
    assert u[0..] == u;
    idx := col - 1;
  }

  predicate AllUpperLetters(s: string) { forall i :: 0 <= i < |s| ==> IsUpperLetter(s[i]) }

  /** The column name of a 1-based column number ("A" is 1, "Z" is 26, "AA" is 27). */
  function ColName(n: nat): (s: string)
    requires n >= 1
    ensures |s| >= 1 && AllUpperLetters(s)
    decreases n
  {
    var d := (n - 1) % 26;
    var c := ('A' as int + d) as char;
    if n <= 26 then [c] else ColName((n - 1) / 26) + [c]
  }

  /** Every column number has a name that reads back as that number. */
  lemma {:induction false} ColValueOfName(n: nat)
    requires n >= 1
    ensures ColValue(ColName(n)) == n
    decreases n
  {
    var s := ColName(n);
    if n > 26 {
      ColValueOfName((n - 1) / 26);
      assert s[..|s| - 1] == ColName((n - 1) / 26);
    }
  }

  /** Every upper-case letter name is the name of its own value: the reading is injective. */
  lemma {:induction false} NameOfColValue(s: string)
    requires |s| >= 1 && AllUpperLetters(s)
    ensures ColValue(s) >= 1 && ColName(ColValue(s)) == s
    decreases |s|
  {
    var init := s[..|s| - 1];
    var d := Digit(s[|s| - 1]);
    if |init| == 0 {
      assert s == [s[0]];
    } else {
      NameOfColValue(init);
      var v := ColValue(init);
      assert (ColValue(s) - 1) / 26 == v && (ColValue(s) - 1) % 26 == d - 1;
      assert s == init + [s[|s| - 1]];
    }
  }

  /** Upper-case letter names and indices correspond one to one. */
  lemma ColIndexBijective(s: string, t: string)
    requires |s| >= 1 && AllUpperLetters(s) && |t| >= 1 && AllUpperLetters(t)
    ensures ColIndex(s) >= 0
    ensures ColIndex(s) == ColIndex(t) <==> s == t
  {
    UpperOfUpper(s);
    UpperOfUpper(t);
    NameOfColValue(s);
    NameOfColValue(t);
  }

  lemma UpperOfUpper(s: string)
    requires AllUpperLetters(s)
    ensures Upper(s) == s
  {
  }

  /** The examples of the column naming: A, Z, AA, AZ, BA. */
  lemma ColIndexExamples()
    ensures ColIndex("A") == 0 && ColIndex("Z") == 25 && ColIndex("AA") == 26
    ensures ColIndex("AZ") == 51 && ColIndex("BA") == 52
  {
    assert Upper("A") == "A";
    assert Upper("Z") == "Z";
    assert Upper("AA") == "AA";
    assert Upper("AZ") == "AZ";
    assert Upper("BA") == "BA";
    assert "AA"[..1] == "A";
    assert "AZ"[..1] == "A";
    assert "BA"[..1] == "B";
  }

  /** Names are read case-insensitively: a lower-cased name gives the same index. */
  lemma ColIndexCaseInsensitive(s: string)
    ensures ColIndex(Lower(s)) == ColIndex(s)
    ensures ColIndex(Upper(s)) == ColIndex(s)
  {
    assert Upper(Lower(s)) == Upper(s);
    assert Upper(Upper(s)) == Upper(s);
  }

  /** `range(a, b)`. */
  function Range(a: int, b: int): (r: seq<int>)
    ensures |r| == if a < b then b - a else 0
    ensures forall k :: 0 <= k < |r| ==> r[k] == a + k
    decreases b - a
  {
    if a < b then [a] + Range(a + 1, b) else []
  }

  /** The indices one comma part of `IterCols` yields; `a, b = col.split(":")` fails on two colons. */
  function ColPart(part: string): (r: Result<seq<int>, Error>)
    ensures ':' !in part ==> r == Ok([ColIndex(part)])
    ensures ':' in part ==> (r.Ok? <==> |Split(part, ':')| == 2)
    ensures r.Ok? && ':' in part ==>
      var ab := Split(part, ':'); r.value == Range(ColIndex(ab[0]), ColIndex(ab[1]) + 1)
  {
    if ':' in part then
      var ab := Split(part, ':');
      if |ab| == 2 then Ok(Range(ColIndex(ab[0]), ColIndex(ab[1]) + 1)) else Err(ValueError)
    else Ok([ColIndex(part)])
  }

  function ConcatParts(parts: seq<string>): (r: Result<seq<int>, Error>)
    ensures r.Ok? <==> forall k :: 0 <= k < |parts| ==> ColPart(parts[k]).Ok?
  {
    if |parts| == 0 then Ok([])
    else
      match ColPart(parts[0])
      case Err(e) => Err(e)
      case Ok(first) =>
        match ConcatParts(parts[1..])
        case Err(e) => Err(e)
        case Ok(rest) =>
          assert forall k :: 1 <= k < |parts| ==> parts[k] == parts[1..][k - 1];
          Ok(first + rest)
  }

  /** `IterCols(col_str)`: the indices of the comma parts, in order. */
  function IterCols(colStr: string): Result<seq<int>, Error>
  {
    ConcatParts(Split(colStr, ','))
  }

  /** The parts are handled in order: the indices of "p,q" are those of p followed by those of q. */
  lemma {:induction false} IterColsConcat(p: string, q: string)
    requires ',' !in p
    ensures IterCols(p + "," + q) ==
      match ColPart(p)
      case Err(e) => Err(e)
      case Ok(first) =>
        match IterCols(q)
        case Err(e) => Err(e)
        case Ok(rest) => Ok(first + rest)
  {
    SplitAtSep(p, q, ',');
    assert p + "," + q == p + [','] + q;
    var parts := [p] + Split(q, ',');
    assert parts[1..] == Split(q, ',');
  }

  /** A single upper-case letter is its digit minus one. */
  lemma ColIndexLetter(c: char)
    requires IsUpperLetter(c)
    ensures ColIndex([c]) == Digit(c) - 1
  {
    var u := [c];
    assert Upper(u) == u;
    assert u[..|u| - 1] == [];
    assert ColValue(u) == ColValue([]) * 26 + Digit(c);
  }

  lemma ColPartRangeCE()
    ensures ColPart("C:E") == Ok([2, 3, 4])
  {
    SplitAtSep("C", "E", ':');
    SplitNoSep("E", ':');
    assert "C:E" == "C" + [':'] + "E";
    assert ':' in "C:E" by { assert "C:E"[1] == ':'; }
    ColIndexLetter('C');
    ColIndexLetter('E');
    assert Range(2, 5) == [2, 3, 4];
  }

  /** The worked example "A,C:E" selects columns 0, 2, 3 and 4. */
  lemma IterColsExample()
    ensures IterCols("A,C:E") == Ok([0, 2, 3, 4])
  {
    assert "A,C:E" == "A" + "," + "C:E";
    IterColsConcat("A", "C:E");
    ColIndexLetter('A');
    assert ColPart("A") == Ok([0]);
    ColPartRangeCE();
    ConcatSingle("C:E");
    ExampleIndices();
    assert IterCols("A" + "," + "C:E") == Ok([0, 2, 3, 4]);
  }

  lemma ExampleIndices()
    ensures [0] + [2, 3, 4] == [0, 2, 3, 4]
  {
  }

  lemma ConcatSingle(s: string)
    requires ',' !in s
    ensures IterCols(s) == ColPart(s)
  {
    SplitNoSep(s, ',');
    assert [s][1..] == [];
    assert ConcatParts([]) == Ok([]);
    if ColPart(s).Ok? {
      assert ColPart(s).value + [] == ColPart(s).value;
    }
  }

  /**
   * A row as it flows through `proc_data`: `itemgetter` with one index yields
   * the bare cell, with several a tuple.
   */
  datatype Item<T> = Row(cells: seq<T>) | Cell(cell: T)

  /** `itemgetter(*cols)(row)`; an out-of-range index raises IndexError. */
  function Project<T>(cols: seq<int>, row: seq<T>): (r: Result<Item<T>, Error>)
    requires |cols| >= 1
    ensures r.Ok? <==> Data.IncludeRow(cols, row).Some?
    ensures r.Ok? && |cols| == 1 ==> r.value == Cell(row[Data.Resolve(cols[0], |row|).value])
    ensures r.Ok? && |cols| > 1 ==> r.value == Row(Data.IncludeRow(cols, row).value)
  {
    match Data.IncludeRow(cols, row)
    case None => Err(IndexError)
    case Some(cells) => if |cols| == 1 then Ok(Cell(cells[0])) else Ok(Row(cells))
  }

  /** The falsy results a converter may give: None or an empty row. */
  predicate Truthy<T>(r: Option<seq<T>>) { r.Some? && r.value != [] }

  /**
   * The lazy row stream after skipping: select (when `cols` is given), convert
   * (dropping falsy results), and stop as soon as `limit` rows have come out.
   * Rows past that point are never read, so they cannot raise.
   */
  function Stream<T>(rows: seq<seq<T>>, cols: Option<seq<int>>, conv: Option<Item<T> -> Option<seq<T>>>,
                     limit: Option<nat>): (r: Result<seq<Item<T>>, Error>)
    requires cols.Some? ==> |cols.value| >= 1
    ensures r.Ok? && limit.Some? ==> |r.value| <= limit.value
    ensures r.Ok? && conv.Some? ==> forall k :: 0 <= k < |r.value| ==> r.value[k].Row? && r.value[k].cells != []
    decreases |rows|
  {
    if limit == Some(0) || |rows| == 0 then Ok([])
    else
      var item :- if cols.Some? then Project(cols.value, rows[0]) else Ok(Row(rows[0]));
      if conv.Some? then
        var c := conv.value(item);
        if Truthy(c) then
          var rest :- Stream(rows[1..], cols, conv, if limit.Some? then Some(limit.value - 1) else None);
          Ok([Row(c.value)] + rest)
        else Stream(rows[1..], cols, conv, limit)
      else
        var rest :- Stream(rows[1..], cols, conv, if limit.Some? then Some(limit.value - 1) else None);
        Ok([item] + rest)
  }

  /**
   * `proc_data(data, usecols, converter, skiprows, nrows)`: drop the first
   * `skiprows` rows (`data[skiprows:]`), project onto the `IterCols` indices,
   * convert, and keep the first `nrows` surviving rows (0 keeps all; a
   * negative count keeps none, as `range(nrows)` is then empty).
   */
  function ProcData<T>(data: seq<seq<T>>, usecols: string, conv: Option<Item<T> -> Option<seq<T>>>,
                       skiprows: int, nrows: int): (r: Result<seq<Item<T>>, Error>)
    ensures usecols != "" && IterCols(usecols).Err? ==> r.Err?
    ensures usecols != "" && IterCols(usecols) == Ok([]) ==> r == Err(TypeError)
    ensures r.Ok? && nrows > 0 ==> |r.value| <= nrows
    ensures nrows < 0 && (usecols == "" || (IterCols(usecols).Ok? && IterCols(usecols).value != [])) ==> r == Ok([])
  {
    var skipped := if skiprows != 0 then Data.SliceOf(data, Data.Slice(Some(skiprows), None, None)).value else data;
    var cols :- if usecols != "" then (match IterCols(usecols)
                                       case Err(e) => Err(e)
                                       case Ok(cs) => if |cs| == 0 then Err(TypeError) else Ok(Some(cs)))
                else Ok(None);
    var limit := if nrows == 0 then None else if nrows < 0 then Some(0) else Some(nrows as nat);
    Stream(skipped, cols, conv, limit)
  }

  /** Skipping k >= 0 rows drops exactly the first k rows, or all of them when k is at least the length. */
  lemma SkipRows<T>(data: seq<seq<T>>, k: nat)
    ensures ProcData(data, "", None, k, 0) == Ok(Rows(if k < |data| then data[k..] else []))
  {
    var skipped := if k != 0 then Data.SliceOf(data, Data.Slice(Some(k), None, None)).value else data;
    Data.UnitSlice(data, Some(k), None);
    assert data[0..|data|] == data;
    assert k < |data| ==> data[k..|data|] == data[k..];
    StreamPlain(skipped);
  }

  /** The rows as stream items, unchanged. */
  function Rows<T>(rows: seq<seq<T>>): (r: seq<Item<T>>)
    ensures |r| == |rows| && forall i :: 0 <= i < |rows| ==> r[i] == Row(rows[i])
  {
    if |rows| == 0 then [] else [Row(rows[0])] + Rows(rows[1..])
  }

  lemma {:induction false} StreamPlain<T>(rows: seq<seq<T>>)
    ensures Stream(rows, None, None, None) == Ok(Rows(rows))
  {
    if |rows| > 0 {
      StreamPlain(rows[1..]);
    }
  }

  /** With `usecols`, every row comes out as its projection onto the `IterCols` indices, in order. */
  lemma {:induction false} StreamSelect<T>(rows: seq<seq<T>>, cols: seq<int>)
    requires |cols| >= 1
    requires forall i :: 0 <= i < |rows| ==> Project(cols, rows[i]).Ok?
    ensures Stream(rows, Some(cols), None, None).Ok?
    ensures var out := Stream(rows, Some(cols), None, None).value;
      |out| == |rows| && forall i :: 0 <= i < |rows| ==> Ok(out[i]) == Project(cols, rows[i])
  {
    if |rows| > 0 {
      assert forall i :: 0 <= i < |rows[1..]| ==> rows[1..][i] == rows[i + 1];
      StreamSelect(rows[1..], cols);
      var rest := Stream(rows[1..], Some(cols), None, None).value;
      var out := Stream(rows, Some(cols), None, None).value;
      assert out == [Project(cols, rows[0]).value] + rest;
      forall i | 1 <= i < |rows| ensures Ok(out[i]) == Project(cols, rows[i]) {
        assert out[i] == rest[i - 1];
      }
    }
  }

  /**
   * The row limit only cuts the stream: when the unlimited stream succeeds, a
   * limit of n gives its first n rows.
   */
  lemma {:induction false} StreamLimit<T>(rows: seq<seq<T>>, cols: Option<seq<int>>,
                                          conv: Option<Item<T> -> Option<seq<T>>>, n: nat)
    requires cols.Some? ==> |cols.value| >= 1
    requires Stream(rows, cols, conv, None).Ok?
    ensures var full := Stream(rows, cols, conv, None).value;
      Stream(rows, cols, conv, Some(n)) == Ok(if n < |full| then full[..n] else full)
    decreases |rows|
  {
    var full := Stream(rows, cols, conv, None).value;
    if n == 0 || |rows| == 0 {
    } else {
      var item := if cols.Some? then Project(cols.value, rows[0]) else Ok(Row(rows[0]));
      if conv.Some? && !Truthy(conv.value(item.value)) {
        StreamLimit(rows[1..], cols, conv, n);
      } else {
        StreamLimit(rows[1..], cols, conv, n - 1);
        var rest := Stream(rows[1..], cols, conv, None).value;
        assert full == [full[0]] + rest;
        if n - 1 < |rest| {
          assert full[..n] == [full[0]] + rest[..n - 1];
        }
      }
    }
  }

  /**
   * With both `usecols` and a converter, the converter sees the projected rows:
   * the stream is `convdata` over the selected stream.
   */
  lemma {:induction false} StreamSelectConvert<T>(rows: seq<seq<T>>, cols: seq<int>, f: Item<T> -> Option<seq<T>>)
    requires |cols| >= 1
    requires forall i :: 0 <= i < |rows| ==> Project(cols, rows[i]).Ok?
    ensures Stream(rows, Some(cols), None, None).Ok?
    ensures Stream(rows, Some(cols), Some(f), None) == Ok(Rows(Data.ConvData(Stream(rows, Some(cols), None, None).value, f)))
  {
    if |rows| > 0 {
      assert forall i :: 0 <= i < |rows[1..]| ==> rows[1..][i] == rows[i + 1];
      StreamSelectConvert(rows[1..], cols, f);
      var item := Project(cols, rows[0]).value;
      var rest := Stream(rows[1..], Some(cols), None, None).value;
      assert Stream(rows, Some(cols), None, None).value == [item] + rest;
      assert ([item] + rest)[1..] == rest && ([item] + rest)[0] == item;
      var cr := Data.ConvData(rest, f);
      if Truthy(f(item)) {
        assert Data.ConvData([item] + rest, f) == [f(item).value] + cr;
        assert Rows([f(item).value] + cr) == [Row(f(item).value)] + Rows(cr);
      } else {
        assert Data.ConvData([item] + rest, f) == cr;
      }
    }
  }

  /** The converter's falsy results are dropped and its other results kept, in order. */
  lemma {:induction false} StreamConvert<T>(items: seq<seq<T>>, f: Item<T> -> Option<seq<T>>)
    ensures Stream(items, None, Some(f), None) == Ok(Rows(Data.ConvData(items, OnRows(f))))
  {
    if |items| > 0 {
      StreamConvert(items[1..], f);
    }
  }

  /** The converter seen as a function of the plain row it receives when no columns are selected. */
  function OnRows<T>(f: Item<T> -> Option<seq<T>>): seq<T> -> Option<seq<T>>
  {
    (row: seq<T>) => f(Row(row))
  }
}
