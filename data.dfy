/**
 * The row pipeline stages of `orange.utils.data` (and the identical row helpers
 * of `orange.table`). A lazily consumed iterable of rows is a finite sequence
 * here; a stage that raises on some row makes the whole consumption fail.
 */
module Data {
  import opened Wrappers
  import opened PyVal
  import opened Strings

  datatype Error = IndexError | ValueError | TypeError

  /** Python's `row[i]` index check: -len <= i < len, negative i counting from the end. */
  function Resolve(i: int, n: nat): (r: Option<nat>)
    ensures r.Some? <==> -(n as int) <= i < n
    ensures r.Some? ==> r.value < n && (r.value == if i >= 0 then i else i + n)
  {
    if 0 <= i < n then Some(i) else if -(n as int) <= i < 0 then Some(i + n) else None
  }

  // ---------------------------------------------------------------------------
  // convdata, filterer, mapper

  /** A converter's result is dropped when it is falsy: None or an empty row. */
  predicate Kept<T>(r: Option<seq<T>>) { r.Some? && r.value != [] }

  /** `convdata(data, convfunc)`: `filter(None, map(convfunc, data))`. */
  function ConvData<R, T>(rows: seq<R>, f: R -> Option<seq<T>>): (out: seq<seq<T>>)
    ensures |out| <= |rows|
    ensures forall r :: r in out ==> r != [] && exists x :: x in rows && f(x) == Some(r)
    ensures forall x :: x in rows && Kept(f(x)) ==> f(x).value in out
  {
    if |rows| == 0 then []
    else
      var rest := ConvData(rows[1..], f);
      assert forall x :: x in rows[1..] ==> x in rows;
      if Kept(f(rows[0])) then [f(rows[0]).value] + rest else rest
  }

  /** `convdata` streams: converting a concatenation converts each part in turn. */
  lemma {:induction false} ConvDataAppend<R, T>(a: seq<R>, b: seq<R>, f: R -> Option<seq<T>>)
    ensures ConvData(a + b, f) == ConvData(a, f) + ConvData(b, f)
  {
    if |a| > 0 {
      assert (a + b)[1..] == a[1..] + b;
      ConvDataAppend(a[1..], b, f);
    } else {
      assert a + b == b;
    }
  }

  /** `filterer(func)`: keep the rows the predicate accepts, in order. */
  function Filterer<R(!new)>(p: R -> bool, rows: seq<R>): (out: seq<R>)
    ensures |out| <= |rows|
    ensures forall x :: x in out <==> x in rows && p(x)
  {
    if |rows| == 0 then []
    else
      var rest := Filterer(p, rows[1..]);
      assert forall x :: x in rows <==> x == rows[0] || x in rows[1..];
      if p(rows[0]) then [rows[0]] + rest else rest
  }

  /** Filtering a concatenation filters each part in turn: order and repeats are kept. */
  lemma {:induction false} FiltererAppend<R(!new)>(p: R -> bool, a: seq<R>, b: seq<R>)
    ensures Filterer(p, a + b) == Filterer(p, a) + Filterer(p, b)
  {
    if |a| > 0 {
      assert (a + b)[1..] == a[1..] + b;
      assert (a + b)[0] == a[0];
      FiltererAppend(p, a[1..], b);
    } else {
      assert a + b == b;
    }
  }

  /** One row is kept iff the predicate accepts it. */
  lemma FiltererOne<R(!new)>(p: R -> bool, x: R)
    ensures Filterer(p, [x]) == if p(x) then [x] else []
  {
    assert [x][1..] == [] && [x][0] == x;
    assert Filterer(p, []) == [] && [x] + [] == [x];
  }

  /** Filtering by two predicates in turn is filtering by their conjunction. */
  lemma {:induction false} FiltererFuse<R(!new)>(p: R -> bool, q: R -> bool, rows: seq<R>)
    ensures Filterer(q, Filterer(p, rows)) == Filterer(x => p(x) && q(x), rows)
  {
    if |rows| > 0 {
      FiltererFuse(p, q, rows[1..]);
      var rest := Filterer(p, rows[1..]);
      if p(rows[0]) {
        assert ([rows[0]] + rest)[1..] == rest;
      }
    }
  }

  /** `mapper(func)`: apply a row function to every row. */
  function Mapper<R, S>(f: R -> S, rows: seq<R>): (out: seq<S>)
    ensures |out| == |rows|
  {
    seq(|rows|, i requires 0 <= i < |rows| => f(rows[i]))
  }

  /** Two mapper stages in a row are one mapper stage of the composed function. */
  lemma MapperCompose<R, S, U>(f: R -> S, g: S -> U, rows: seq<R>)
    ensures Mapper(g, Mapper(f, rows)) == Mapper(x => g(f(x)), rows)
    ensures forall i :: 0 <= i < |rows| ==> Mapper(g, Mapper(f, rows))[i] == g(f(rows[i]))
  {
  }

  // ---------------------------------------------------------------------------
  // slicer

  /** The arguments of `slice(...)`; None is Python's None. */
  datatype Slice = Slice(start: Option<int>, stop: Option<int>, step: Option<int>)

  /** `slice(*args)`: one argument is the stop; two are start and stop; three add the step. */
  function MakeSlice(args: seq<Option<int>>): (r: Result<Slice, Error>)
    ensures r.Ok? <==> 1 <= |args| <= 3
    ensures |args| == 1 ==> r == Ok(Slice(None, args[0], None))
  {
    if |args| == 1 then Ok(Slice(None, args[0], None))
    else if |args| == 2 then Ok(Slice(args[0], args[1], None))
    else if |args| == 3 then Ok(Slice(args[0], args[1], args[2]))
    else Err(TypeError)
  }

  /** One bound adjusted the way `slice.indices(len)` does. */
  function AdjustBound(b: Option<int>, n: nat, step: int, isStart: bool): int
    requires step != 0
  {
    var lower := if step > 0 then 0 else -1;
    var upper := if step > 0 then n else n - 1;
    match b
    case None => if isStart == (step < 0) then upper else lower
    case Some(x) =>
      var y := if x < 0 then x + n else x;
      if y < lower then lower else if y > upper then upper else y
  }

  /** The elements at start, start+step, ... strictly before stop. */
  function Collect<T>(s: seq<T>, i: int, stop: int, step: int): seq<T>
    requires step != 0
    requires step > 0 ==> 0 <= i && stop <= |s|
    requires step < 0 ==> -1 <= stop && i < |s|
    decreases if step > 0 then stop - i else i - stop
  {
    if (step > 0 && i < stop) || (step < 0 && i > stop) then [s[i]] + Collect(s, i + step, stop, step)
    else []
  }

  /** `s[sl]` with Python's slicing rules; a zero step raises ValueError. */
  function SliceOf<T>(s: seq<T>, sl: Slice): (r: Result<seq<T>, Error>)
    ensures r.Err? <==> sl.step == Some(0)
  {
    var step := if sl.step.Some? then sl.step.value else 1;
    if step == 0 then Err(ValueError)
    else
      var a := AdjustBound(sl.start, |s|, step, true);
      var b := AdjustBound(sl.stop, |s|, step, false);
      Ok(Collect(s, a, b, step))
  }

  /** With a unit step, collecting from a to b is Dafny's subsequence `s[a..b]`. */
  lemma {:induction false} CollectUnit<T>(s: seq<T>, a: int, b: int)
    requires 0 <= a && b <= |s|
    ensures Collect(s, a, b, 1) == if a < b then s[a..b] else []
    decreases b - a
  {
    if a < b {
      CollectUnit(s, a + 1, b);
      assert s[a..b] == [s[a]] + s[a + 1..b];
    }
  }

  /** A Python clamp of a bound for a unit step. */
  function Clamp(x: Option<int>, n: nat, default: int): nat
    requires 0 <= default <= n
  {
    match x
    case None => default
    case Some(v) => var y := if v < 0 then v + n else v; if y < 0 then 0 else if y > n then n else y
  }

  /** With step 1 (or None) a Python slice is the Dafny subsequence between the clamped bounds. */
  lemma UnitSlice<T>(s: seq<T>, start: Option<int>, stop: Option<int>)
    ensures var a := Clamp(start, |s|, 0); var b := Clamp(stop, |s|, |s|);
      SliceOf(s, Slice(start, stop, None)) == Ok(if a < b then s[a..b] else [])
  {
    CollectUnit(s, Clamp(start, |s|, 0), Clamp(stop, |s|, |s|));
  }

  /** `slicer(*args)` of `orange.table`: the row function `row[slice(*args)]`. */
  function SliceRow<T>(args: seq<Option<int>>, row: seq<T>): (r: Result<seq<T>, Error>)
    ensures |args| == 1 ==> r == SliceOf(row, Slice(None, args[0], None))
    ensures r.Err? <==> !(1 <= |args| <= 3) || (|args| == 3 && args[2] == Some(0))
  {
    var sl :- MakeSlice(args);
    SliceOf(row, sl)
  }

  /** Apply a fallible row function to every row; the first failure is raised. */
  function MapAll<R, S>(f: R -> Result<S, Error>, rows: seq<R>): (r: Result<seq<S>, Error>)
    ensures r.Ok? <==> forall i :: 0 <= i < |rows| ==> f(rows[i]).Ok?
    ensures r.Ok? ==> |r.value| == |rows| && forall i :: 0 <= i < |rows| ==> r.value[i] == f(rows[i]).value
  {
    if |rows| == 0 then Ok([])
    else
      match f(rows[0])
      case Err(e) => Err(e)
      case Ok(x) =>
        match MapAll(f, rows[1..])
        case Err(e) => Err(e)
        case Ok(rest) =>
          assert forall i :: 1 <= i < |rows| ==> rows[i] == rows[1..][i - 1];
          Ok([x] + rest)
  }

  /**
   * `slicer(*args)` of `orange.utils.data`: every row becomes `row[slice(*args)]`.
   * The slice is built when the stage is, so a wrong argument count raises
   * TypeError even with no rows.
   */
  function Slicer<T>(args: seq<Option<int>>, rows: seq<seq<T>>): (r: Result<seq<seq<T>>, Error>)
    ensures !(1 <= |args| <= 3) ==> r == Err(TypeError)
    ensures 1 <= |args| <= 2 ==> r.Ok?
    ensures r.Ok? ==> (|r.value| == |rows| &&
      forall i :: 0 <= i < |rows| ==> Ok(r.value[i]) == SliceRow(args, rows[i]))
  {
    var sl :- MakeSlice(args);
    MapAll(row => SliceOf(row, sl), rows)
  }

  /** `slicer(k)` with 0 <= k keeps the first k values of every row (all when k is larger). */
  lemma SlicerStop<T>(k: nat, rows: seq<seq<T>>)
    ensures Slicer([Some(k)], rows).Ok?
    ensures forall i :: 0 <= i < |rows| ==>
      Slicer([Some(k)], rows).value[i] == if k < |rows[i]| then rows[i][..k] else rows[i]
  {
    forall i | 0 <= i < |rows|
      ensures SliceRow([Some(k)], rows[i]) == Ok(if k < |rows[i]| then rows[i][..k] else rows[i])
    {
      UnitSlice(rows[i], None, Some(k));
      assert rows[i][0..|rows[i]|] == rows[i];
    }
  }

  // ---------------------------------------------------------------------------
  // converter and _convert

  /** `converter(...)`: a callable converts whole rows, a dict converts single columns. */
  datatype Conversion<!T> = WholeRow(f: seq<T> -> seq<T>) | PerColumn(conv: seq<(int, T -> T)>)

  /** Every dict key indexes a row of length n. */
  predicate AllResolvable<T>(conv: seq<(int, T -> T)>, n: nat)
  {
    forall k :: 0 <= k < |conv| ==> -(n as int) <= conv[k].0 < n
  }

  /**
   * The row after the per-column loop: the entries are applied in dict order
   * and the loop stops at the first key that raises IndexError, leaving the
   * conversions already done in place.
   */
  function ApplyConvs<T>(s: seq<T>, conv: seq<(int, T -> T)>): (r: seq<T>)
    ensures |r| == |s|
    decreases |conv|
  {
    if |conv| == 0 then s
    else
      match Resolve(conv[0].0, |s|)
      case None => s
      case Some(p) => ApplyConvs(s[p := conv[0].1(s[p])], conv[1..])
  }

  /** The position dict entry k stands for in a row of length n. */
  function Target<T>(conv: seq<(int, T -> T)>, k: nat, n: nat): nat
    requires k < |conv| && -(n as int) <= conv[k].0 < n
  {
    Resolve(conv[k].0, n).value
  }

  /** No two dict keys reach the same position (dict keys are unique; 0 and -n would collide). */
  predicate DistinctTargets<T>(conv: seq<(int, T -> T)>, n: nat)
    requires AllResolvable(conv, n)
  {
    forall j, k :: 0 <= j < k < |conv| ==> Target(conv, j, n) != Target(conv, k, n)
  }

  /**
   * The per-column converter replaces exactly the listed positions with their
   * converted values and leaves every other position unchanged.
   */
  lemma {:induction false} ApplyConvsAt<T>(s: seq<T>, conv: seq<(int, T -> T)>, p: nat)
    requires AllResolvable(conv, |s|) && DistinctTargets(conv, |s|)
    requires p < |s|
    ensures forall k :: 0 <= k < |conv| && Target(conv, k, |s|) == p ==> ApplyConvs(s, conv)[p] == conv[k].1(s[p])
    ensures (forall k :: 0 <= k < |conv| ==> Target(conv, k, |s|) != p) ==> ApplyConvs(s, conv)[p] == s[p]
    decreases |conv|
  {
    if |conv| > 0 {
      var q := Target(conv, 0, |s|);
      var s' := s[q := conv[0].1(s[q])];
      var tail := conv[1..];
      assert AllResolvable(tail, |s'|) by {
        forall j | 0 <= j < |tail| ensures -(|s'| as int) <= tail[j].0 < |s'| {
          assert tail[j] == conv[j + 1];
        }
      }
      forall j | 0 <= j < |tail| ensures Target(tail, j, |s'|) == Target(conv, j + 1, |s|) {
        assert tail[j] == conv[j + 1];
      }
      assert DistinctTargets(tail, |s'|);
      ApplyConvsAt(s', tail, p);
      assert ApplyConvs(s, conv) == ApplyConvs(s', tail);
      if q == p {
        assert forall j :: 0 <= j < |tail| ==> Target(tail, j, |s'|) != p;
        assert ApplyConvs(s, conv)[p] == conv[0].1(s[p]);
      } else {
        assert s'[p] == s[p];
        forall k | 0 <= k < |conv| && Target(conv, k, |s|) == p
          ensures ApplyConvs(s, conv)[p] == conv[k].1(s[p])
        {
          assert k != 0;
          assert Target(tail, k - 1, |s'|) == p;
        }
        if forall k :: 0 <= k < |conv| ==> Target(conv, k, |s|) != p {
          assert forall j :: 0 <= j < |tail| ==> Target(tail, j, |s'|) != p;
        }
      }
    }
  }

  /**
   * `_convert(dict)` (and the dict form of `converter`): overwrite `row[idx]`
   * with `conv(row[idx])` in place, entry by entry. `ok` is false when some
   * key raised IndexError; the entries before it have then been applied.
   */
  method ConvertInPlace<T>(row: array<T>, conv: seq<(int, T -> T)>) returns (ok: bool)
    modifies row
    ensures ok <==> AllResolvable(conv, row.Length)
    ensures row[..] == ApplyConvs(old(row[..]), conv)
  {
    var k := 0;
    while k < |conv|
      invariant 0 <= k <= |conv|
      invariant AllResolvable(conv[..k], row.Length)
      invariant ApplyConvs(old(row[..]), conv) == ApplyConvs(row[..], conv[k..])
    {
      var idx := conv[k].0;
      if !(-row.Length <= idx < row.Length) {
        assert !AllResolvable(conv, row.Length) by {
          assert -row.Length <= conv[k].0 < row.Length ==> false;
        }
        assert ApplyConvs(row[..], conv[k..]) == row[..];
        return false;
      }
      var p := if idx >= 0 then idx else idx + row.Length;
      ghost var before := row[..];
      row[p] := conv[k].1(row[p]);
      assert row[..] == before[p := conv[k].1(before[p])];
      assert conv[k..][1..] == conv[k + 1..];
      assert conv[..k + 1] == conv[..k] + [conv[k]];
      k := k + 1;
    }
    assert conv[..k] == conv;
    assert conv[k..] == [];
    return true;
  }

  /** The converted row a conversion produces; a dict key out of range raises IndexError. */
  function ConvertRow<T>(c: Conversion<T>, row: seq<T>): (r: Result<seq<T>, Error>)
    ensures c.PerColumn? ==> (r.Ok? <==> AllResolvable(c.conv, |row|))
  {
    match c
    case WholeRow(f) => Ok(f(row))
    case PerColumn(conv) => if AllResolvable(conv, |row|) then Ok(ApplyConvs(row, conv)) else Err(IndexError)
  }

  /** `converter(c)`: the conversion applied to every row. */
  function Converter<T>(c: Conversion<T>, rows: seq<seq<T>>): (r: Result<seq<seq<T>>, Error>)
    ensures c.WholeRow? ==> r.Ok? && r.value == Mapper(c.f, rows)
    ensures r.Ok? ==> |r.value| == |rows|
  {
    MapAll(row => ConvertRow(c, row), rows)
  }

  // ---------------------------------------------------------------------------
  // includer and excluder

  /** `[row[c] for c in columns]`; None stands for the IndexError of an out-of-range column. */
  function IncludeRow<T>(cols: seq<int>, row: seq<T>): (r: Option<seq<T>>)
    ensures r.Some? <==> forall k :: 0 <= k < |cols| ==> -|row| <= cols[k] < |row|
    ensures r.Some? ==> (|r.value| == |cols| &&
      forall k :: 0 <= k < |cols| ==> r.value[k] == row[Resolve(cols[k], |row|).value])
  {
    if |cols| == 0 then Some([])
    else
      match Resolve(cols[0], |row|)
      case None => None
      case Some(p) =>
        match IncludeRow(cols[1..], row)
        case None => None
        case Some(rest) =>
          assert forall k :: 1 <= k < |cols| ==> cols[k] == cols[1..][k - 1];
          Some([row[p]] + rest)
  }

  /** `includer(*cols)`: every row projected onto the listed columns, in the listed order. */
  function Includer<T>(cols: seq<int>, rows: seq<seq<T>>): (r: Result<seq<seq<T>>, Error>)
    ensures r.Ok? <==> forall i :: 0 <= i < |rows| ==> IncludeRow(cols, rows[i]).Some?
    ensures r.Ok? ==> (|r.value| == |rows| &&
      forall i :: 0 <= i < |rows| ==> |r.value[i]| == |cols| && Some(r.value[i]) == IncludeRow(cols, rows[i]))
  {
    MapAll(row => if IncludeRow(cols, row).Some? then Ok(IncludeRow(cols, row).value) else Err(IndexError), rows)
  }

  /** The positions `excluder` drops from a row of length n; negative items count from the end. */
  function Excluded(items: seq<int>, n: nat): set<int>
  {
    set x | x in items :: if x >= 0 then x else x + n
  }

  /** The positions below m that survive, ascending. */
  function KeptBelow(ex: set<int>, m: nat): (r: seq<nat>)
    ensures forall k :: 0 <= k < |r| ==> r[k] < m && r[k] !in ex
    ensures forall j, k :: 0 <= j < k < |r| ==> r[j] < r[k]
    ensures forall p :: 0 <= p < m && p !in ex ==> p in r
  {
    if m == 0 then [] else
      var prev := KeptBelow(ex, m - 1);
      if m - 1 in ex then prev else prev + [m - 1]
  }

  /** The excluded positions that fall inside a row of length m. */
  function Inside(ex: set<int>, m: nat): set<int>
  {
    set p | p in ex && 0 <= p < m
  }

  /** The number of survivors is the length minus the excluded positions inside the row. */
  lemma {:induction false} KeptBelowCount(ex: set<int>, m: nat)
    ensures |KeptBelow(ex, m)| == m - |Inside(ex, m)|
  {
    if m > 0 {
      KeptBelowCount(ex, m - 1);
      InsideStep(ex, m);
      if m - 1 in ex {
        assert KeptBelow(ex, m) == KeptBelow(ex, m - 1);
      } else {
        assert |KeptBelow(ex, m)| == |KeptBelow(ex, m - 1)| + 1;
      }
    }
  }

  lemma InsideStep(ex: set<int>, m: nat)
    requires m > 0
    ensures |Inside(ex, m)| == |Inside(ex, m - 1)| + if m - 1 in ex then 1 else 0
  {
    var inside := Inside(ex, m);
    var before := Inside(ex, m - 1);
    if m - 1 in ex {
      assert m - 1 !in before && inside == before + {m - 1};
    } else {
      assert inside == before;
    }
  }

  /** `exculder(*items)` of `orange.table`: the row without the excluded positions. */
  function ExcludeRow<T>(items: seq<int>, row: seq<T>): (r: seq<T>)
    ensures var kept := KeptBelow(Excluded(items, |row|), |row|);
      |r| == |kept| && forall k :: 0 <= k < |kept| ==> r[k] == row[kept[k]]
  {
    var kept := KeptBelow(Excluded(items, |row|), |row|);
    seq(|kept|, k requires 0 <= k < |kept| => row[kept[k]])
  }

  /**
   * The surviving values keep their order and the length drops by exactly the
   * number of distinct excluded positions that lie inside the row.
   */
  lemma ExcludeRowLength<T>(items: seq<int>, row: seq<T>)
    ensures |ExcludeRow(items, row)| == |row| - |Inside(Excluded(items, |row|), |row|)|
  {
    KeptBelowCount(Excluded(items, |row|), |row|);
  }

  /** `excluder(-1)` drops exactly the last value of every non-empty row, whatever its length. */
  lemma {:induction false} ExcludeLast<T>(row: seq<T>)
    requires |row| > 0
    ensures ExcludeRow([-1], row) == row[..|row| - 1]
  {
    var ex := Excluded([-1], |row|);
    assert |row| - 1 in ex by { assert -1 in [-1]; }
    forall y | y in ex ensures y == |row| - 1 { }
    var kept := KeptBelow(ex, |row|);
    KeptBelowIdentity(ex, |row| - 1);
    assert kept == KeptBelow(ex, |row| - 1);
    assert ExcludeRow([-1], row) == row[..|row| - 1];
  }

  lemma {:induction false} KeptBelowIdentity(ex: set<int>, m: nat)
    requires forall p :: 0 <= p < m ==> p !in ex
    ensures |KeptBelow(ex, m)| == m && forall k :: 0 <= k < m ==> KeptBelow(ex, m)[k] == k
  {
    if m > 0 {
      KeptBelowIdentity(ex, m - 1);
      assert m - 1 !in ex;
      IdentityExtends(KeptBelow(ex, m - 1), m);
    }
  }

  lemma IdentityExtends(prev: seq<nat>, m: nat)
    requires m > 0 && |prev| == m - 1 && forall k :: 0 <= k < m - 1 ==> prev[k] == k
    ensures var cur := prev + [m - 1]; |cur| == m && forall k :: 0 <= k < m ==> cur[k] == k
  {
  }

  /** `excluder(*items)` of `orange.utils.data`: ExcludeRow applied to every row. */
  function Excluder<T>(items: seq<int>, rows: seq<seq<T>>): (r: seq<seq<T>>)
    ensures |r| == |rows| && forall i :: 0 <= i < |rows| ==> r[i] == ExcludeRow(items, rows[i])
  {
    Mapper(row => ExcludeRow(items, row), rows)
  }

  // ---------------------------------------------------------------------------
  // hasher and hashfilter

  /** The listed values of a row that are truthy, in listed order; None when a column is out of range. */
  function Picked(cols: seq<int>, row: seq<Value>): (r: Option<seq<Value>>)
    ensures r.Some? <==> IncludeRow(cols, row).Some?
    ensures r.Some? ==> r.value == Filterer(Truthy, IncludeRow(cols, row).value)
  {
    match IncludeRow(cols, row)
    case None => None
    case Some(vals) => Some(Filterer(Truthy, vals))
  }

  /** `"".join(str(v) for v in vs)`. */
  function StrJoin(vs: seq<Value>): string
  {
    if |vs| == 0 then "" else Str(vs[0]) + StrJoin(vs[1..])
  }

  /** Whether every value is a string, so that `"".join` accepts them. */
  predicate AllText(vs: seq<Value>) { forall i :: 0 <= i < |vs| ==> vs[i].VStr? }

  /**
   * The text `hasher` checks: `"".join(row[x] for x in cols if row[x])`. An
   * out-of-range column raises IndexError while the values are gathered; a
   * truthy value that is not a string then makes `join` raise TypeError.
   */
  function HashText(cols: seq<int>, row: seq<Value>): (r: Result<string, Error>)
    ensures r == Err(IndexError) <==> exists k :: 0 <= k < |cols| && !(-|row| <= cols[k] < |row|)
    ensures r == Err(TypeError) <==> Picked(cols, row).Some? && !AllText(Picked(cols, row).value)
    ensures r.Ok? ==> FilterText(cols, row) == Some(r.value)
  {
    match Picked(cols, row)
    case None => Err(IndexError)
    case Some(vs) => if AllText(vs) then Ok(StrJoin(vs)) else Err(TypeError)
  }

  /** The text `hashfilter` checks: `"".join(str(row[x]) for x in cols if row[x])`. */
  function FilterText(cols: seq<int>, row: seq<Value>): (r: Option<string>)
    ensures r.Some? <==> forall k :: 0 <= k < |cols| ==> -|row| <= cols[k] < |row|
  {
    match Picked(cols, row)
    case None => None
    case Some(vs) => Some(StrJoin(vs))
  }

  /** `hasher(*cols)` on one row: the row with its checksum appended. */
  function HashRow(cols: seq<int>, md5: string -> string, row: seq<Value>): (r: Result<seq<Value>, Error>)
    ensures HashText(cols, row).Err? ==> r == Err(HashText(cols, row).error)
    ensures r.Ok? <==> HashText(cols, row).Ok?
    ensures r.Ok? ==> (|r.value| == |row| + 1 && r.value[..|row|] == row &&
      r.value[|row|] == VStr(md5(HashText(cols, row).value)))
  {
    match HashText(cols, row)
    case Err(e) => Err(e)
    case Ok(t) => Ok(row + [VStr(md5(t))])
  }

  /** `hasher(*cols)`: every row gets exactly one more value, its checksum. */
  function Hasher(cols: seq<int>, md5: string -> string, rows: seq<seq<Value>>): (r: Result<seq<seq<Value>>, Error>)
    ensures r.Ok? <==> forall i :: 0 <= i < |rows| ==> HashText(cols, rows[i]).Ok?
    ensures r.Ok? ==> (|r.value| == |rows| &&
      forall i :: 0 <= i < |rows| ==> Ok(r.value[i]) == HashRow(cols, md5, rows[i]))
  {
    MapAll(row => HashRow(cols, md5, row), rows)
  }

  /** A truthy number among the listed values makes `hasher` raise TypeError. */
  lemma HashRowRejectsNumbers(cols: seq<int>, md5: string -> string, row: seq<Value>, k: int)
    requires forall j :: 0 <= j < |cols| ==> 0 <= cols[j] < |row|
    requires 0 <= k < |cols| && row[cols[k]].VInt? && row[cols[k]].i != 0
    ensures HashRow(cols, md5, row) == Err(TypeError)
  {
    var vals := IncludeRow(cols, row).value;
    assert vals[k] == row[cols[k]];
    var picked := Filterer(Truthy, vals);
    assert row[cols[k]] in picked;
    var i :| 0 <= i < |picked| && picked[i] == row[cols[k]];
    assert !AllText(picked);
  }

  /**
   * The `hashfilter` test on one row: true (kept) when the stored checksum
   * differs. The value under `h` is compared with the digest text, so a value
   * that is not a string always differs.
   */
  function HashChanged(cols: seq<int>, h: int, md5: string -> string, row: seq<Value>): (r: Result<bool, Error>)
    ensures r.Ok? <==> FilterText(cols, row).Some? && -|row| <= h < |row|
    ensures r.Ok? ==> var stored := row[Resolve(h, |row|).value];
      (r.value <==> !(stored.VStr? && stored.s == md5(FilterText(cols, row).value)))
  {
    match FilterText(cols, row)
    case None => Err(IndexError)
    case Some(t) =>
      match Resolve(h, |row|)
      case None => Err(IndexError)
      case Some(p) => Ok(row[p] != VStr(md5(t)))
  }

  /** `hashfilter` stringifies the checked values: a number is checked as its decimal text. */
  lemma HashChangedStringifies(md5: string -> string)
    ensures HashChanged([0], 1, md5, [VInt(42), VStr(md5("42"))]) == Ok(false)
    ensures HashChanged([0, 1], 2, md5, [VInt(0), VBool(true), VStr(md5("True"))]) == Ok(false)
  {
    var a := [VInt(42), VStr(md5("42"))];
    assert Resolve(0, 2) == Some(0);
    assert IncludeRow([0], a).value == [VInt(42)];
    assert Filterer(Truthy, [VInt(42)]) == [VInt(42)];
    assert StrJoin([VInt(42)]) == "42" by { assert IntToDecimal(42) == "42"; }
    var b := [VInt(0), VBool(true), VStr(md5("True"))];
    assert Resolve(0, 3) == Some(0) && Resolve(1, 3) == Some(1);
    assert IncludeRow([0, 1], b).value == [VInt(0), VBool(true)];
    assert Filterer(Truthy, [VInt(0), VBool(true)]) == [VBool(true)];
    assert StrJoin([VBool(true)]) == "True";
  }

  /** Keep the rows the fallible predicate accepts; the first failure is raised. */
  function FilterAll<R(!new)>(p: R -> Result<bool, Error>, rows: seq<R>): (r: Result<seq<R>, Error>)
    ensures r.Ok? <==> forall i :: 0 <= i < |rows| ==> p(rows[i]).Ok?
    ensures r.Ok? ==> forall x :: x in r.value <==> x in rows && p(x) == Ok(true)
    ensures (forall i :: 0 <= i < |rows| ==> p(rows[i]) == Ok(false)) ==> r == Ok([])
  {
    if |rows| == 0 then Ok([])
    else
      match p(rows[0])
      case Err(e) => Err(e)
      case Ok(keep) =>
        match FilterAll(p, rows[1..])
        case Err(e) => Err(e)
        case Ok(rest) =>
          assert forall i :: 1 <= i < |rows| ==> rows[i] == rows[1..][i - 1];
          assert forall x :: x in rows <==> x == rows[0] || x in rows[1..];
          Ok(if keep then [rows[0]] + rest else rest)
  }

  /** Filtering a concatenation filters each part in turn: order and repeats are kept. */
  lemma {:induction false} FilterAllAppend<R(!new)>(p: R -> Result<bool, Error>, a: seq<R>, b: seq<R>)
    ensures FilterAll(p, a + b).Ok? <==> FilterAll(p, a).Ok? && FilterAll(p, b).Ok?
    ensures FilterAll(p, a + b).Ok? ==> FilterAll(p, a + b).value == FilterAll(p, a).value + FilterAll(p, b).value
  {
    if |a| > 0 {
      assert (a + b)[1..] == a[1..] + b;
      assert (a + b)[0] == a[0];
      FilterAllAppend(p, a[1..], b);
    } else {
      assert a + b == b;
    }
  }

  /** One row is kept iff the predicate accepts it. */
  lemma FilterAllOne<R(!new)>(p: R -> Result<bool, Error>, x: R)
    ensures p(x).Err? ==> FilterAll(p, [x]) == Err(p(x).error)
    ensures p(x).Ok? ==> FilterAll(p, [x]) == Ok(if p(x).value then [x] else [])
  {
    assert [x][1..] == [] && [x][0] == x;
    assert FilterAll(p, []) == Ok([]) && [x] + [] == [x];
  }

  /**
   * `hashfilter(*cols, h)`: the last argument is the checksum column; the rows
   * whose checksum no longer matches are kept. No argument at all raises
   * IndexError when the filter is built.
   */
  function HashFilter(args: seq<int>, md5: string -> string, rows: seq<seq<Value>>): (r: Result<seq<seq<Value>>, Error>)
    ensures args == [] ==> r == Err(IndexError)
    ensures args != [] ==> r == FilterAll(row => HashChanged(args[..|args| - 1], args[|args| - 1], md5, row), rows)
    ensures r.Ok? ==> forall x :: x in r.value <==>
      x in rows && HashChanged(args[..|args| - 1], args[|args| - 1], md5, x) == Ok(true)
  {
    if |args| == 0 then Err(IndexError)
    else FilterAll(row => HashChanged(args[..|args| - 1], args[|args| - 1], md5, row), rows)
  }

  /** Appending a value does not change the listed values over non-negative columns of the original row. */
  lemma {:induction false} IncludeRowAppend<T>(cols: seq<int>, row: seq<T>, extra: T)
    requires forall k :: 0 <= k < |cols| ==> 0 <= cols[k] < |row|
    ensures IncludeRow(cols, row + [extra]) == IncludeRow(cols, row)
  {
    var a, b := IncludeRow(cols, row + [extra]), IncludeRow(cols, row);
    assert a.Some? && b.Some?;
    assert forall k :: 0 <= k < |cols| ==> (row + [extra])[cols[k]] == row[cols[k]];
    assert a.value == b.value;
  }

  /** Appending the checksum leaves the text `hashfilter` checks equal to the one `hasher` hashed. */
  lemma HashTextAppend(cols: seq<int>, row: seq<Value>, extra: Value)
    requires forall k :: 0 <= k < |cols| ==> 0 <= cols[k] < |row|
    requires HashText(cols, row).Ok?
    ensures FilterText(cols, row + [extra]) == Some(HashText(cols, row).value)
  {
    IncludeRowAppend(cols, row, extra);
  }

  /**
   * Checking rows that `hasher(*cols)` just tagged, with the checksum column
   * n right after the n original values, finds no changed row. `hasher`
   * succeeds exactly when no listed truthy value is other than a string.
   */
  lemma {:induction false} HashRoundTrip(cols: seq<int>, n: nat, md5: string -> string, rows: seq<seq<Value>>)
    requires forall k :: 0 <= k < |cols| ==> 0 <= cols[k] < n
    requires forall i :: 0 <= i < |rows| ==> |rows[i]| == n
    requires forall i, k :: 0 <= i < |rows| && 0 <= k < |cols| && Truthy(rows[i][cols[k]]) ==> rows[i][cols[k]].VStr?
    ensures Hasher(cols, md5, rows).Ok?
    ensures HashFilter(cols + [n], md5, Hasher(cols, md5, rows).value) == Ok([])
  {
    var args := cols + [n];
    assert args[..|args| - 1] == cols && args[|args| - 1] == n;
    forall i | 0 <= i < |rows| ensures HashText(cols, rows[i]).Ok? {
      TextOfStrings(cols, rows[i]);
    }
    var tagged := Hasher(cols, md5, rows);
    assert tagged.Ok?;
    forall i | 0 <= i < |tagged.value|
      ensures HashChanged(cols, n, md5, tagged.value[i]) == Ok(false)
    {
      var row := rows[i];
      var t := HashText(cols, row).value;
      assert tagged.value[i] == row + [VStr(md5(t))];
      HashTextAppend(cols, row, VStr(md5(t)));
    }
    var r := HashFilter(args, md5, tagged.value);
    assert r.Ok?;
  }

  /** With the listed columns in range and every listed truthy value a string, `hasher`'s text is defined. */
  lemma TextOfStrings(cols: seq<int>, row: seq<Value>)
    requires forall k :: 0 <= k < |cols| ==> 0 <= cols[k] < |row|
    requires forall k :: 0 <= k < |cols| && Truthy(row[cols[k]]) ==> row[cols[k]].VStr?
    ensures HashText(cols, row).Ok?
  {
    var vals := IncludeRow(cols, row).value;
    var picked := Filterer(Truthy, vals);
    forall i | 0 <= i < |picked| ensures picked[i].VStr? {
      assert picked[i] in vals;
      var k :| 0 <= k < |vals| && vals[k] == picked[i];
      assert vals[k] == row[cols[k]];
    }
  }
}
