/**
 * The workbook helper logic of `orange.xlsx` over an abstract workbook:
 * header descriptors, `Style`, address completion and `{n}` row offsets in
 * formulas, the per-sheet row cursor of `Book`, `set_border`, and the column
 * normalisation and extents of `_add_table`. The workbook itself (cells,
 * registered formats, worksheets) is state of the `Book` class; nothing is
 * written to a file.
 */
module Xlsx {
  import opened Wrappers
  import opened Strings
  import Excel

  /** The Python values these dictionaries hold; `FormatRef(n)` is the registered format object named n. */
  datatype Val = Nil | Txt(s: string) | Num(r: real) | Int(i: int) | Flag(b: bool) | FormatRef(name: string)

  predicate Truthy(v: Val)
  {
    match v
    case Nil => false
    case Txt(s) => s != ""
    case Num(r) => r != 0.0
    case Int(i) => i != 0
    case Flag(b) => b
    case FormatRef(_) => true
  }

  /** A Python dict with string keys; the order of its keys plays no part here. */
  type Dict = map<string, Val>

  // ---------------------------------------------------------------------------
  // Header

  /**
   * `Header(header, width, format, **kw)`: the keyword dict with "header" set,
   * and "width" and "format" set only when truthy. A Python call cannot put
   * "width" or "format" into `kw`, since those keywords bind the named
   * parameters; `HeaderKeys` still says what happens to such entries.
   */
  function Header(header: string, width: Val, format: Val, kw: Dict): Dict
  {
    var d := kw["header" := Txt(header)];
    var d := if Truthy(width) then d["width" := width] else d;
    if Truthy(format) then d["format" := format] else d
  }

  /** What a header holds: its name, a truthy width and format, and every other keyword as given. */
  lemma HeaderKeys(header: string, width: Val, format: Val, kw: Dict)
    ensures var r := Header(header, width, format, kw);
      "header" in r && r["header"] == Txt(header) &&
      (Truthy(width) ==> "width" in r && r["width"] == width) &&
      (Truthy(format) ==> "format" in r && r["format"] == format) &&
      (!Truthy(width) ==> ("width" in r <==> "width" in kw) && ("width" in kw ==> r["width"] == kw["width"])) &&
      (!Truthy(format) ==> ("format" in r <==> "format" in kw) && ("format" in kw ==> r["format"] == kw["format"])) &&
      forall k :: k != "header" && k != "width" && k != "format" ==> ((k in r <==> k in kw) && (k in kw ==> r[k] == kw[k]))
  {
  }

  /** A header built from a bare name carries that header and nothing else. */
  lemma HeaderOfName(name: string)
    ensures Header(name, Nil, Nil, map[]) == map["header" := Txt(name)]
  {
  }

  // ---------------------------------------------------------------------------
  // Style

  datatype Style = Style(
    fontName: Option<string>, fontSize: Option<real>, bold: bool, italic: bool, underline: bool,
    fgColor: Option<string>, numFormat: Option<string>, align: Option<string>, valign: Option<string>,
    textWrap: bool)

  const StyleFields: set<string> := {"font_name", "font_size", "bold", "italic", "underline",
    "fg_color", "num_format", "align", "valign", "text_wrap"}

  function OptTxt(o: Option<string>): Val { if o.Some? then Txt(o.value) else Nil }

  /** The value of the field named k, as `__dict__` holds it. */
  function FieldVal(s: Style, k: string): Val
  {
    match k
    case "font_name" => OptTxt(s.fontName)
    case "font_size" => if s.fontSize.Some? then Num(s.fontSize.value) else Nil
    case "bold" => Flag(s.bold)
    case "italic" => Flag(s.italic)
    case "underline" => Flag(s.underline)
    case "fg_color" => OptTxt(s.fgColor)
    case "num_format" => OptTxt(s.numFormat)
    case "align" => OptTxt(s.align)
    case "valign" => OptTxt(s.valign)
    case "text_wrap" => Flag(s.textWrap)
    case _ => Nil
  }

  /** `Style.style`: exactly the truthy fields, with their values. */
  function StyleDict(s: Style): (r: Dict)
    ensures forall k :: k in r <==> k in StyleFields && Truthy(FieldVal(s, k))
    ensures forall k :: k in r ==> r[k] == FieldVal(s, k)
  {
    map k | k in StyleFields && Truthy(FieldVal(s, k)) :: FieldVal(s, k)
  }

  function GetTxt(d: Dict, k: string): Option<string>
  {
    if k in d && d[k].Txt? then Some(d[k].s) else None
  }

  function GetFlag(d: Dict, k: string): bool
  {
    k in d && d[k].Flag? && d[k].b
  }

  /** `Style(**d)` for a dict of style fields; a field the dict lacks keeps its default. */
  function StyleOf(d: Dict): Style
  {
    Style(GetTxt(d, "font_name"),
      if "font_size" in d && d["font_size"].Num? then Some(d["font_size"].r) else None,
      GetFlag(d, "bold"), GetFlag(d, "italic"), GetFlag(d, "underline"),
      GetTxt(d, "fg_color"), GetTxt(d, "num_format"), GetTxt(d, "align"), GetTxt(d, "valign"),
      GetFlag(d, "text_wrap"))
  }

  /** `Style.copy()`. */
  function Copy(s: Style): Style { StyleOf(StyleDict(s)) }

  /** An optional text with the empty text unset. */
  function NoEmpty(o: Option<string>): Option<string> { if o == Some("") then None else o }

  /** The style with every falsy optional field (an empty text, a zero size) unset. */
  function Normal(s: Style): Style
  {
    s.(fontName := NoEmpty(s.fontName), fontSize := if s.fontSize == Some(0.0) then None else s.fontSize,
       fgColor := NoEmpty(s.fgColor), numFormat := NoEmpty(s.numFormat), align := NoEmpty(s.align),
       valign := NoEmpty(s.valign))
  }

  /** What `style` holds under one field name. */
  lemma StyleDictAt(s: Style, k: string)
    requires k in StyleFields
    ensures k in StyleDict(s) <==> Truthy(FieldVal(s, k))
    ensures k in StyleDict(s) ==> StyleDict(s)[k] == FieldVal(s, k)
  {
  }

  /** A copy is the original with its falsy optional fields unset. */
  lemma CopyIsNormal(s: Style)
    ensures Copy(s) == Normal(s)
  {
    var d := StyleDict(s);
    StyleDictAt(s, "font_name");
    StyleDictAt(s, "font_size");
    StyleDictAt(s, "bold");
    StyleDictAt(s, "italic");
    StyleDictAt(s, "underline");
    StyleDictAt(s, "fg_color");
    StyleDictAt(s, "num_format");
    StyleDictAt(s, "align");
    StyleDictAt(s, "valign");
    StyleDictAt(s, "text_wrap");
  }

  /** A copy has the same `style` dict as the original. */
  lemma CopyKeepsStyle(s: Style)
    ensures StyleDict(Copy(s)) == StyleDict(s)
  {
    CopyIsNormal(s);
    var a, b := StyleDict(Normal(s)), StyleDict(s);
    forall k
      ensures k in a <==> k in b
      ensures k in a ==> a[k] == b[k]
    {
      NormalField(s, k);
    }
    assert a == b;
  }

  /** Unsetting the falsy fields changes no truthy field and makes no field truthy. */
  lemma NormalField(s: Style, k: string)
    ensures Truthy(FieldVal(Normal(s), k)) == Truthy(FieldVal(s, k))
    ensures Truthy(FieldVal(s, k)) ==> FieldVal(Normal(s), k) == FieldVal(s, k)
  {
  }

  /** A set field with a falsy value (such as an empty font name) is not copied: the copy is equal exactly when there is none. */
  lemma CopyEqual(s: Style)
    ensures Copy(s) == s <==>
      s.fontName != Some("") && s.fontSize != Some(0.0) && s.fgColor != Some("") &&
      s.numFormat != Some("") && s.align != Some("") && s.valign != Some("")
  {
    CopyIsNormal(s);
  }

  // ---------------------------------------------------------------------------
  // Cell addresses

  /** The length of the run of upper-case letters (or, when `letters` is false, digits) at the start of s, capped at max. */
  function RunLength(s: string, letters: bool, max: nat): (n: nat)
    ensures n <= |s| && n <= max
  {
    if |s| == 0 || max == 0 || !(if letters then IsUpperLetter(s[0]) else IsDigit(s[0])) then 0
    else 1 + RunLength(s[1..], letters, max - 1)
  }

  /** The run is as long as it can be: every character in it qualifies, and the one after it does not. */
  lemma {:induction false} RunLengthRun(s: string, letters: bool, max: nat)
    ensures var n := RunLength(s, letters, max);
      (forall i :: 0 <= i < n ==> (if letters then IsUpperLetter(s[i]) else IsDigit(s[i]))) &&
      (n < |s| && n < max ==> !(if letters then IsUpperLetter(s[n]) else IsDigit(s[n])))
  {
    if |s| > 0 && max > 0 && (if letters then IsUpperLetter(s[0]) else IsDigit(s[0])) {
      RunLengthRun(s[1..], letters, max - 1);
      assert forall i :: 1 <= i < |s| ==> s[1..][i - 1] == s[i];
    }
  }

  /** The groups of a full match of `([A-Z]{1,2})(\d*)([:_]([A-Z]{1,2})(\d*))?`. */
  datatype Address = Address(col: string, row: string, end: Option<(string, string)>)

  /** One endpoint: one or two letters, then as many digits as there are; the rest of the string. */
  function ParseEndpoint(s: string): Option<(string, string, string)>
  {
    var n := RunLength(s, true, 2);
    if n == 0 then None
    else
      var m := RunLength(s[n..], false, |s|);
      Some((s[..n], s[n..][..m], s[n..][m..]))
  }

  /**
   * A full match of the address pattern. Both repetitions are greedy and the
   * character after a group can never continue it, so the only candidate
   * split is the greedy one.
   */
  function ParseAddress(s: string): Option<Address>
  {
    match ParseEndpoint(s)
    case None => None
    case Some(e1) =>
      var rest := e1.2;
      if rest == "" then Some(Address(e1.0, e1.1, None))
      else if rest[0] != ':' && rest[0] != '_' then None
      else match ParseEndpoint(rest[1..])
        case None => None
        case Some(e2) => if e2.2 == "" then Some(Address(e1.0, e1.1, Some((e2.0, e2.1)))) else None
  }

  /** What ParseEndpoint accepts: one or two letters, a run of digits, and a rest that cannot continue the run. */
  lemma EndpointShape(s: string)
    requires ParseEndpoint(s).Some?
    ensures var p := ParseEndpoint(s).value;
      ColumnLetters(p.0) && AllDigits(p.1) && s == p.0 + p.1 + p.2 && (p.2 == "" || !IsDigit(p.2[0]))
  {
    var n := RunLength(s, true, 2);
    LettersPrefix(s, n);
    var t := s[n..];
    DigitsPrefix(t, |s|);
    Split3(s, n, RunLength(t, false, |s|));
  }

  lemma LettersPrefix(s: string, n: nat)
    requires n == RunLength(s, true, 2) && n > 0
    ensures ColumnLetters(s[..n])
  {
    RunLengthRun(s, true, 2);
  }

  lemma DigitsPrefix(t: string, max: nat)
    requires max >= |t|
    ensures var m := RunLength(t, false, max);
      AllDigits(t[..m]) && (t[m..] == "" || !IsDigit(t[m..][0]))
  {
    RunLengthRun(t, false, max);
  }

  lemma Split3(s: string, n: nat, m: nat)
    requires n <= |s| && m <= |s[n..]|
    ensures s == s[..n] + s[n..][..m] + s[n..][m..]
  {
    assert s[n..] == s[n..][..m] + s[n..][m..];
  }

  /**
   * Only strings of the address pattern parse: the converse of ParseRange and
   * ParseEndpointOf. A match is letters and digits, optionally followed by
   * ':' or '_' and a second run of letters and digits, and nothing else.
   */
  lemma ParseAddressShape(s: string)
    requires ParseAddress(s).Some?
    ensures var a := ParseAddress(s).value;
      ColumnLetters(a.col) && AllDigits(a.row) &&
      (a.end.None? ==> s == a.col + a.row)
    ensures var a := ParseAddress(s).value; var k := |a.col + a.row|;
      a.end.Some? ==>
        (k < |s| && (s[k] == ':' || s[k] == '_') &&
         ColumnLetters(a.end.value.0) && AllDigits(a.end.value.1) &&
         s == a.col + a.row + [s[k]] + a.end.value.0 + a.end.value.1)
  {
    EndpointShape(s);
    var e1 := ParseEndpoint(s).value;
    if e1.2 != "" {
      RangeShape(s, e1.0, e1.1, e1.2);
    } else {
      assert s == e1.0 + e1.1 + "";
    }
  }

  /** The second endpoint of a range match, and the separator before it. */
  lemma RangeShape(s: string, c: string, d: string, rest: string)
    requires s == c + d + rest && rest != ""
    requires ParseEndpoint(s) == Some((c, d, rest))
    requires ParseAddress(s).Some?
    ensures var a := ParseAddress(s).value; var k := |c + d|;
      a.col == c && a.row == d && a.end.Some? &&
      k < |s| && (s[k] == ':' || s[k] == '_') &&
      ColumnLetters(a.end.value.0) && AllDigits(a.end.value.1) &&
      s == c + d + [s[k]] + a.end.value.0 + a.end.value.1
  {
    EndpointShape(rest[1..]);
    var e2 := ParseEndpoint(rest[1..]).value;
    Rejoin(c + d, rest, e2.0, e2.1);
  }

  lemma Rejoin(p: string, rest: string, c: string, d: string)
    requires rest != "" && rest[1..] == c + d + ""
    ensures |p| < |p + rest| && (p + rest)[|p|] == rest[0]
    ensures p + rest == p + [rest[0]] + c + d
  {
    assert rest == [rest[0]] + rest[1..];
  }

  /** Every string of the pattern parses, and every parsed string is of the pattern. */
  lemma ParseAddressExactly(c: string, d: string)
    ensures ParseAddress(c + d) == Some(Address(c, d, None)) <==> ColumnLetters(c) && AllDigits(d)
  {
    if ColumnLetters(c) && AllDigits(d) {
      ParseEndpointOf(c, d, "");
      assert c + d + "" == c + d;
    }
    if ParseAddress(c + d) == Some(Address(c, d, None)) {
      ParseAddressShape(c + d);
    }
  }

  datatype Error = BadAddress | AttributeError

  /** `Book.__setitem__` on a string: the range it writes to, missing row numbers taken from the current row. */
  function Complete(name: string, row: int): (r: Result<string, Error>)
    ensures r.Err? <==> ParseAddress(name).None?
  {
    match ParseAddress(name)
    case None => Err(BadAddress)
    case Some(a) =>
      var first := a.col + (if a.row == "" then IntToDecimal(row) else a.row);
      match a.end
      case None => Ok(first)
      case Some(e) => Ok(first + ":" + e.0 + (if e.1 == "" then IntToDecimal(row) else e.1))
  }

  /**
   * `__setitem__` when the worksheet may be missing: the address is matched
   * first, and the current row, which raises AttributeError without a
   * worksheet, is read only for an endpoint that lacks a row number.
   */
  function CompleteAt(name: string, row: Option<int>): (r: Result<string, Error>)
    ensures row.Some? ==> r == Complete(name, row.value)
    ensures r == Err(BadAddress) <==> ParseAddress(name).None?
    ensures row.None? ==> (r == Err(AttributeError) <==> ParseAddress(name).Some? && NeedsRow(ParseAddress(name).value))
    ensures row.None? && r.Ok? ==> forall k :: Complete(name, k) == r
  {
    match row
    case Some(k) => Complete(name, k)
    case None =>
      match ParseAddress(name)
      case None => Err(BadAddress)
      case Some(a) =>
        if NeedsRow(a) then Err(AttributeError) else Complete(name, 0)
  }

  /** Whether an endpoint of the address lacks its row number. */
  predicate NeedsRow(a: Address) { a.row == "" || (a.end.Some? && a.end.value.1 == "") }

  predicate ColumnLetters(c: string) { 1 <= |c| <= 2 && forall i :: 0 <= i < |c| ==> IsUpperLetter(c[i]) }

  lemma {:induction false} RunOfLetters(c: string, rest: string)
    requires ColumnLetters(c)
    requires rest == "" || !IsUpperLetter(rest[0])
    ensures RunLength(c + rest, true, 2) == |c|
  {
    var s := c + rest;
    assert s[0] == c[0];
    if |c| == 2 {
      assert s[1..] == [c[1]] + rest;
      assert s[1..][0] == c[1];
      assert s[1..][1..] == rest;
    } else {
      assert s[1..] == rest;
    }
  }

  lemma {:induction false} RunOfDigits(d: string, rest: string, max: nat)
    requires AllDigits(d) && |d| <= max
    requires rest == "" || !IsDigit(rest[0])
    ensures RunLength(d + rest, false, max) == |d|
    decreases |d|
  {
    var s := d + rest;
    if |d| > 0 {
      assert s[0] == d[0];
      assert s[1..] == d[1..] + rest;
      RunOfDigits(d[1..], rest, max - 1);
    } else {
      assert s == rest;
    }
  }

  lemma ParseEndpointOf(c: string, d: string, rest: string)
    requires ColumnLetters(c) && AllDigits(d)
    requires rest == "" || (!IsUpperLetter(rest[0]) && !IsDigit(rest[0]))
    ensures var p := ParseEndpoint(c + d + rest);
      p.Some? && p.value.0 == c && p.value.1 == d && p.value.2 == rest
  {
    var s := c + d + rest;
    assert d + rest == "" || (d + rest)[0] == (if d == "" then rest[0] else d[0]);
    assert s == c + (d + rest);
    RunOfLetters(c, d + rest);
    assert s[|c|..] == d + rest;
    RunOfDigits(d, rest, |s|);
    assert (d + rest)[..|d|] == d && (d + rest)[|d|..] == rest;
  }

  /** A single endpoint with no row number is completed with the current row: "B" writes to "B{row}". */
  lemma CompleteColumn(c: string, row: int)
    requires ColumnLetters(c)
    ensures Complete(c, row) == Ok(c + IntToDecimal(row))
  {
    ParseEndpointOf(c, "", "");
    assert c + "" + "" == c;
  }

  /**
   * The completion step without a worksheet: a full address is kept as it is,
   * an address without a row number raises AttributeError, and a malformed one
   * the bad-address error. (The `write` after completion then raises
   * AttributeError on the missing worksheet too; writing is not modelled.)
   */
  lemma CompleteWithoutSheet(c: string, d: string)
    requires ColumnLetters(c) && AllDigits(d) && d != ""
    ensures CompleteAt(c + d, None) == Ok(c + d)
    ensures CompleteAt(c, None) == Err(AttributeError)
    ensures CompleteAt("a1", None) == Err(BadAddress)
  {
    ParseEndpointOf(c, d, "");
    assert c + d + "" == c + d;
    ParseEndpointOf(c, "", "");
    assert c + "" + "" == c;
    CompleteRejects(0);
  }

  /**
   * A range is completed at each endpoint that lacks a row number, and either
   * separator is written as ":": "A:C5" writes to "A{row}:C5", "A1_C3" to "A1:C3".
   */
  lemma CompleteRange(c1: string, r1: string, sep: char, c2: string, r2: string, row: int)
    requires ColumnLetters(c1) && AllDigits(r1) && ColumnLetters(c2) && AllDigits(r2)
    requires sep == ':' || sep == '_'
    ensures Complete(c1 + r1 + [sep] + c2 + r2, row) ==
      Ok(c1 + (if r1 == "" then IntToDecimal(row) else r1) + ":" + c2 + (if r2 == "" then IntToDecimal(row) else r2))
  {
    ParseRange(c1, r1, sep, c2, r2);
  }

  /** A range address parses into its two endpoints. */
  lemma ParseRange(c1: string, r1: string, sep: char, c2: string, r2: string)
    requires ColumnLetters(c1) && AllDigits(r1) && ColumnLetters(c2) && AllDigits(r2)
    requires sep == ':' || sep == '_'
    ensures var a := ParseAddress(c1 + r1 + [sep] + c2 + r2);
      a.Some? && a.value.col == c1 && a.value.row == r1 &&
      a.value.end.Some? && a.value.end.value.0 == c2 && a.value.end.value.1 == r2
  {
    FirstEndpoint(c1, r1, [sep] + c2 + r2);
    SecondEndpoint(sep, c2, r2);
    RangeSplit(c1, r1, sep, c2, r2);
    ParseAddressOfEnds(c1 + r1 + [sep] + c2 + r2, [sep] + c2 + r2);
  }

  lemma RangeSplit(c1: string, r1: string, sep: char, c2: string, r2: string)
    ensures c1 + r1 + [sep] + c2 + r2 == c1 + r1 + ([sep] + c2 + r2)
    ensures ([sep] + c2 + r2)[0] == sep
  {
  }

  lemma FirstEndpoint(c1: string, r1: string, rest: string)
    requires ColumnLetters(c1) && AllDigits(r1)
    requires |rest| > 0 && (rest[0] == ':' || rest[0] == '_')
    ensures var p := ParseEndpoint(c1 + r1 + rest);
      p.Some? && p.value.0 == c1 && p.value.1 == r1 && p.value.2 == rest
  {
    ParseEndpointOf(c1, r1, rest);
  }

  lemma SecondEndpoint(sep: char, c2: string, r2: string)
    requires ColumnLetters(c2) && AllDigits(r2)
    ensures var p := ParseEndpoint(([sep] + c2 + r2)[1..]);
      p.Some? && p.value.0 == c2 && p.value.1 == r2 && p.value.2 == ""
  {
    assert ([sep] + c2 + r2)[1..] == c2 + r2 + "";
    ParseEndpointOf(c2, r2, "");
  }

  /** Two endpoints joined by a separator, with nothing after the second, form a range address. */
  lemma ParseAddressOfEnds(s: string, rest: string)
    requires ParseEndpoint(s).Some? && ParseEndpoint(s).value.2 == rest
    requires |rest| > 0 && (rest[0] == ':' || rest[0] == '_')
    requires ParseEndpoint(rest[1..]).Some? && ParseEndpoint(rest[1..]).value.2 == ""
    ensures var a := ParseAddress(s);
      a.Some? && a.value.col == ParseEndpoint(s).value.0 && a.value.row == ParseEndpoint(s).value.1 &&
      a.value.end.Some? && a.value.end.value.0 == ParseEndpoint(rest[1..]).value.0 &&
      a.value.end.value.1 == ParseEndpoint(rest[1..]).value.1
  {
  }

  /** Lower-case letters and three-letter columns do not match, and writing to them raises. */
  lemma CompleteRejects(row: int)
    ensures Complete("a1", row) == Err(BadAddress)
    ensures Complete("ABC1", row) == Err(BadAddress)
    ensures Complete("A1:", row) == Err(BadAddress)
  {
    assert RunLength("ABC1", true, 2) == 2 by {
      assert "ABC1"[1..] == "BC1";
    }
    assert "ABC1"[2..] == "C1";
    assert RunLength("C1", false, 4) == 0;
    assert RunLength("A1:", true, 2) == 1 by {
      assert "A1:"[1..] == "1:";
    }
    assert "A1:"[1..] == "1:";
    assert RunLength("1:", false, 3) == 1 by {
      assert "1:"[1..] == ":";
    }
    assert "1:"[1..] == ":";
    assert ":"[1..] == "";
  }

  // ---------------------------------------------------------------------------
  // Row offsets in formulas

  /** A match of `\{([+-]?\d+)\}` at the start of s: the offset and the length of the match. */
  function MatchOffset(s: string): (r: Option<(int, nat)>)
    ensures r.Some? ==> 3 <= r.value.1 <= |s| && s[0] == '{'
  {
    if |s| < 3 || s[0] != '{' then None
    else
      var sign := if s[1] == '+' || s[1] == '-' then 1 else 0;
      var body := s[1 + sign..];
      var n := RunLength(body, false, |body|);
      if n == 0 || n == |body| || body[n] != '}' then None
      else
        RunLengthRun(body, false, |body|);
        var v := DecimalValue(body[..n]);
        Some((if s[1] == '-' then -(v as int) else v, 1 + sign + n + 1))
  }

  /**
   * Only `{n}` matches: a brace, an optional sign, a non-empty run of digits
   * and a closing brace, with the signed value of the digits. The converse of
   * MatchOffsetOf.
   */
  lemma MatchOffsetShape(s: string)
    requires MatchOffset(s).Some?
    ensures var m := MatchOffset(s).value;
      var sign := if s[1] == '+' || s[1] == '-' then 1 else 0;
      var d := s[1 + sign..m.1 - 1];
      s[0] == '{' && s[m.1 - 1] == '}' && |d| > 0 && AllDigits(d) &&
      m.0 == (if s[1] == '-' then -(DecimalValue(d) as int) else DecimalValue(d))
  {
    var sign := if s[1] == '+' || s[1] == '-' then 1 else 0;
    var body := s[1 + sign..];
    var n := RunLength(body, false, |body|);
    RunLengthRun(body, false, |body|);
    assert s[1 + sign..1 + sign + n] == body[..n];
  }

  /** `Row / value % self._convert`: every `{n}` is replaced by the decimal of n plus the current row. */
  function Offsets(s: string, row: int): string
    decreases |s|
  {
    if |s| == 0 then ""
    else match MatchOffset(s)
      case Some(m) => IntToDecimal(m.0 + row) + Offsets(s[m.1..], row)
      case None => [s[0]] + Offsets(s[1..], row)
  }

  /** A formula without a `{` is written unchanged. */
  lemma {:induction false} OffsetsNoBrace(s: string, row: int)
    requires '{' !in s
    ensures Offsets(s, row) == s
    decreases |s|
  {
    if |s| > 0 {
      OffsetsNoBrace(s[1..], row);
      assert s == [s[0]] + s[1..];
    }
  }

  lemma SeqAssoc4(a: string, b: string, c: string, d: string)
    ensures a + (b + (c + d)) == a + b + c + d
  {
  }

  /** MatchOffset on a brace, an optional sign, a run of n digits and a closing brace. */
  lemma MatchOffsetAt(s: string, sign: nat, n: nat)
    requires |s| >= 3 && s[0] == '{' && sign == (if s[1] == '+' || s[1] == '-' then 1 else 0)
    requires n == RunLength(s[1 + sign..], false, |s| - 1 - sign) && 0 < n && 1 + sign + n < |s| && s[1 + sign + n] == '}'
    requires AllDigits(s[1 + sign..][..n])
    ensures MatchOffset(s).Some?
    ensures MatchOffset(s).value.0 == if s[1] == '-' then -(DecimalValue(s[1 + sign..][..n]) as int) else DecimalValue(s[1 + sign..][..n])
    ensures MatchOffset(s).value.1 == 2 + sign + n
  {
  }

  /** A brace, an optional sign, a run of digits and a closing brace match as that signed decimal. */
  lemma MatchOffsetDigits(p: string, d: string, rest: string)
    requires p == "{" || p == "{-" || p == "{+"
    requires |d| > 0 && AllDigits(d)
    ensures var s := p + (d + ("}" + rest));
      MatchOffset(s).Some? && MatchOffset(s).value.1 == |p| + |d| + 1 &&
      MatchOffset(s).value.0 == if p == "{-" then -(DecimalValue(d) as int) else DecimalValue(d)
  {
    var body := d + ("}" + rest);
    var s := p + body;
    var sign := |p| - 1;
    assert s[1] == (if sign == 1 then p[1] else d[0]);
    assert s[1 + sign..] == body;
    RunOfDigits(d, "}" + rest, |body|);
    assert body[..|d|] == d;
    MatchOffsetAt(s, sign, |d|);
  }

  /** `{n}` or `{-n}` followed by anything matches as the offset n or -n, over its whole length. */
  lemma MatchOffsetOf(k: nat, negative: bool, rest: string)
    ensures var t := (if negative then "-" else "") + NatToDecimal(k);
      var m := MatchOffset("{" + t + "}" + rest);
      m.Some? && m.value.0 == (if negative then -(k as int) else k) && m.value.1 == |t| + 2
  {
    var d := NatToDecimal(k);
    var t := (if negative then "-" else "") + d;
    var p := if negative then "{-" else "{";
    assert "{" + t + "}" + rest == p + (d + ("}" + rest)) by {
      SeqAssoc4("{", t, "}", rest);
    }
    MatchOffsetDigits(p, d, rest);
    DecimalRoundTrip(k);
  }

  /** The offset `{n}` in a formula becomes the row n places from the current one. */
  lemma OffsetsOfOne(a: string, n: int, b: string, row: int)
    requires '{' !in a
    ensures Offsets(a + "{" + IntToDecimal(n) + "}" + b, row) == a + IntToDecimal(n + row) + Offsets(b, row)
  {
    var t := IntToDecimal(n);
    var s := "{" + t + "}" + b;
    var whole := a + "{" + t + "}" + b;
    assert whole == a + s;
    OffsetsPrefix(a, s, row);
    OffsetAtStart(n, b, row);
    var d := IntToDecimal(n + row);
    var o := Offsets(b, row);
    assert Offsets(whole, row) == a + (d + o);
    assert a + (d + o) == a + d + o;
  }

  lemma OffsetAtStart(n: int, b: string, row: int)
    ensures Offsets("{" + IntToDecimal(n) + "}" + b, row) == IntToDecimal(n + row) + Offsets(b, row)
  {
    var k: nat := if n < 0 then -n else n;
    var t := IntToDecimal(n);
    assert t == (if n < 0 then "-" else "") + NatToDecimal(k);
    MatchOffsetOf(k, n < 0, b);
    var s := "{" + t + "}" + b;
    OffsetsAtMatch(s, row);
    assert s[|t| + 2..] == b;
  }

  lemma OffsetsAtMatch(s: string, row: int)
    requires MatchOffset(s).Some?
    ensures Offsets(s, row) == IntToDecimal(MatchOffset(s).value.0 + row) + Offsets(s[MatchOffset(s).value.1..], row)
  {
  }

  lemma {:induction false} OffsetsPrefix(a: string, s: string, row: int)
    requires '{' !in a
    ensures Offsets(a + s, row) == a + Offsets(s, row)
    decreases |a|
  {
    if |a| > 0 {
      var t := a + s;
      assert t[0] == a[0] && t[1..] == a[1..] + s;
      OffsetsPrefix(a[1..], s, row);
      assert a == [a[0]] + a[1..];
    } else {
      assert a + s == s;
    }
  }

  /** `write` converts offsets only in a string that starts with "=". */
  function WrittenText(value: string, row: int): string
  {
    if |value| > 0 && value[0] == '=' then Offsets(value, row) else value
  }

  // ---------------------------------------------------------------------------
  // Formats and cells

  /**
   * A format object: one registered under a name by `Book.add_format` keeps
   * that name and its properties; any other carries neither.
   */
  datatype Fmt = NoFormat | Anonymous | Named(name: string, props: Dict)

  datatype Cell = Cell(value: Val, format: Fmt)

  /** A worksheet's cells, keyed by (row, column). */
  type Grid = map<(int, int), Cell>

  /** `DefaultFormat`, registered by every new book. */
  function DefaultFormats(): seq<(string, Dict)>
  {
    var hei := Txt("黑体");
    [("currency", map["num_format" := Txt("#,##0.00")]),
     ("rate", map["num_format" := Txt("0.0000%")]),
     ("title", map["font_name" := hei, "font_size" := Int(16), "align" := Txt("center")]),
     ("h2", map["font_name" := hei, "font_size" := Int(12), "align" := Txt("center")]),
     ("mh2", map["font_name" := hei, "font_size" := Int(12), "text_wrap" := Flag(true),
       "align" := Txt("center"), "valign" := Txt("vcenter")]),
     ("percent", map["num_format" := Txt("0.00%")]),
     ("date", map["num_format" := Txt("yyyy-mm-dd")]),
     ("normal", map["text_wrap" := Flag(true), "valign" := Txt("vcenter")]),
     ("cnormal", map["text_wrap" := Flag(true), "valign" := Txt("vcenter"), "align" := Txt("center")]),
     ("time", map["num_format" := Txt("hh:mm:ss")]),
     ("number", map["num_format" := Txt("#,##0")]),
     ("header", map["font_name" := hei, "font_size" := Int(12), "align" := Txt("center")]),
     ("datetime", map["num_format" := Txt("yyyy-mm-dd hh:mm:ss")]),
     ("timestamp", map["num_format" := Txt("yyyy-mm-dd hh:mm:ss.0")])]
  }

  /**
   * `add_format` over named formats in order: a format with an empty name is
   * made but not registered, and a later one replaces an earlier one of the
   * same name.
   */
  function Register(formats: map<string, Fmt>, defs: seq<(string, Dict)>): (r: map<string, Fmt>)
    ensures forall k :: k in formats ==> k in r
    ensures forall i :: 0 <= i < |defs| && defs[i].0 != "" ==> defs[i].0 in r
    ensures forall k :: k in r ==> k in formats || exists i :: 0 <= i < |defs| && defs[i].0 == k && k != ""
    decreases |defs|
  {
    if |defs| == 0 then formats
    else
      var r := Register(AddNamed(formats, defs[0]), defs[1..]);
      assert forall i :: 1 <= i < |defs| ==> defs[i] == defs[1..][i - 1];
      r
  }

  /** One `add_format(properties, name)`: stored under a non-empty name only. */
  function AddNamed(formats: map<string, Fmt>, def: (string, Dict)): map<string, Fmt>
  {
    if |def.0| == 0 then formats else formats[def.0 := Named(def.0, def.1)]
  }

  /** A name that no entry gives keeps the format it had. */
  lemma {:induction false} RegisterKeeps(formats: map<string, Fmt>, defs: seq<(string, Dict)>, k: string)
    requires k in formats
    requires forall i :: 0 <= i < |defs| ==> defs[i].0 != k
    ensures Register(formats, defs)[k] == formats[k]
    decreases |defs|
  {
    if |defs| > 0 {
      var next := AddNamed(formats, defs[0]);
      assert forall i :: 0 <= i < |defs[1..]| ==> defs[1..][i] == defs[i + 1];
      RegisterKeeps(next, defs[1..], k);
    }
  }

  /** A non-empty name ends with the format of its last entry: the last one registered wins. */
  lemma {:induction false} RegisterLast(formats: map<string, Fmt>, defs: seq<(string, Dict)>, i: nat)
    requires i < |defs| && defs[i].0 != ""
    requires forall j :: i < j < |defs| ==> defs[j].0 != defs[i].0
    ensures Register(formats, defs)[defs[i].0] == Named(defs[i].0, defs[i].1)
    decreases |defs|
  {
    var next := if defs[0].0 == "" then formats else formats[defs[0].0 := Named(defs[0].0, defs[0].1)];
    assert forall j :: 0 <= j < |defs[1..]| ==> defs[1..][j] == defs[j + 1];
    if i == 0 {
      RegisterKeeps(next, defs[1..], defs[0].0);
    } else {
      RegisterLast(next, defs[1..], i - 1);
    }
  }

  /**
   * In a new book a custom format named like a default one ends as the default:
   * `Book(formats={"currency": …})` leaves `DefaultFormat`'s "currency".
   */
  lemma DefaultReplacesCustom(custom: seq<(string, Dict)>)
    ensures InitialFormats(custom)["currency"] == Named("currency", DefaultFormats()[0].1)
  {
    DefaultNames();
    RegisterLast(Register(map[], custom), DefaultFormats(), 0);
  }

  /** `Book(formats={"": …})` registers no format under the empty name. */
  lemma EmptyNameSkipped(custom: seq<(string, Dict)>)
    ensures "" !in InitialFormats(custom)
  {
    RegisterSkipsEmpty(map[], custom);
    RegisterSkipsEmpty(Register(map[], custom), DefaultFormats());
  }

  /** An empty name is never registered. */
  lemma RegisterSkipsEmpty(formats: map<string, Fmt>, defs: seq<(string, Dict)>)
    requires "" !in formats
    ensures "" !in Register(formats, defs)
  {
  }

  /** The default names: "currency" comes first and only once, and none is empty. */
  lemma DefaultNames()
    ensures |DefaultFormats()| == 14 && DefaultFormats()[0].0 == "currency"
    ensures forall j :: 0 < j < |DefaultFormats()| ==> DefaultFormats()[j].0 != "currency"
    ensures forall j :: 0 <= j < |DefaultFormats()| ==> DefaultFormats()[j].0 != ""
  {
    var d := DefaultFormats();
    var names := seq(|d|, j requires 0 <= j < |d| => d[j].0);
    assert names == ["currency", "rate", "title", "h2", "mh2", "percent", "date", "normal",
      "cnormal", "time", "number", "header", "datetime", "timestamp"];
    assert forall j :: 0 <= j < |d| ==> d[j].0 == names[j];
  }

  /** The formats of a new book: the given ones, then `DefaultFormat`. */
  function InitialFormats(custom: seq<(string, Dict)>): map<string, Fmt>
  {
    var defaults := DefaultFormats();
    Register(Register(map[], custom), defaults)
  }

  // ---------------------------------------------------------------------------
  // The workbook

  /** The name a worksheet is asked for; None is Python's None, a dict key apart from "". */
  type SheetName = Option<string>

  /** A falsy worksheet name: None or "". */
  predicate Unnamed(name: SheetName) { name == None || name == Some("") }

  datatype BookState = BookState(
    sheets: seq<SheetName>,           // worksheets in creation order, by the name they were asked for
    rows: map<SheetName, int>,        // each worksheet's current row
    grids: map<SheetName, Grid>,      // each worksheet's cells
    current: Option<SheetName>,       // the current worksheet
    sheetCount: nat,                  // `_sheets`
    formats: map<string, Fmt>)        // `_formats`

  /**
   * The `worksheet` setter. A falsy name bumps `_sheets` (the default name it
   * computes is never used). A name not seen before creates a worksheet whose
   * row cursor starts at 1; a name seen before switches to that worksheet.
   */
  function SelectSheet(st: BookState, name: SheetName): (r: BookState)
    ensures r.current == Some(name) && name in r.rows && name in r.grids
    ensures name in st.rows && name in st.grids ==> r.sheets == st.sheets && r.rows == st.rows && r.grids == st.grids
    ensures name !in st.rows ==> r.sheets == st.sheets + [name] && r.rows == st.rows[name := 1]
    ensures r.formats == st.formats
    ensures r.sheetCount == if Unnamed(name) then st.sheetCount + 1 else st.sheetCount
  {
    var count := if Unnamed(name) then st.sheetCount + 1 else st.sheetCount;
    if name in st.rows && name in st.grids then st.(current := Some(name), sheetCount := count)
    else st.(sheets := st.sheets + [name], rows := st.rows[name := 1], grids := st.grids[name := map[]],
             current := Some(name), sheetCount := count)
  }

  /** `book + n` (and `book - n` with -n): move the current worksheet's row; no worksheet raises. */
  function Shift(st: BookState, n: int): (r: Result<BookState, Error>)
    ensures r.Err? <==> st.current.None? || st.current.value !in st.rows
    ensures r.Ok? ==> r.value == st.(rows := st.rows[st.current.value := st.rows[st.current.value] + n])
  {
    if st.current.None? || st.current.value !in st.rows then Err(AttributeError)
    else Ok(st.(rows := st.rows[st.current.value := st.rows[st.current.value] + n]))
  }

  function CurrentRow(st: BookState): Option<int>
  {
    if st.current.Some? && st.current.value in st.rows then Some(st.rows[st.current.value]) else None
  }

  /** A new worksheet starts at row 1. */
  lemma NewSheetRow(st: BookState, name: SheetName)
    requires name !in st.rows
    ensures CurrentRow(SelectSheet(st, name)) == Some(1)
  {
  }

  /** Moving forward n rows and back n rows returns to the same row; `newline` is a move of 1. */
  lemma ShiftBack(st: BookState, n: int)
    requires Shift(st, n).Ok?
    ensures CurrentRow(Shift(st, n).value) == Some(CurrentRow(st).value + n)
    ensures Shift(Shift(st, n).value, -n) == Ok(st)
  {
    var c := st.current.value;
    assert st.rows[c := st.rows[c] + n][c := st.rows[c]] == st.rows;
  }

  /** Switching to another worksheet and back finds the row where it was left. */
  lemma SwitchBack(st: BookState, a: SheetName, b: SheetName, n: int)
    requires a != b
    ensures var s1 := SelectSheet(st, a);
      Shift(s1, n).Ok? &&
      CurrentRow(SelectSheet(SelectSheet(Shift(s1, n).value, b), a)) == Some(s1.rows[a] + n)
  {
  }

  /** `None` and "" are different worksheets: selecting both in a new book creates two. */
  lemma NoneApartFromEmpty(st: BookState)
    requires st.sheets == [] && st.rows == map[] && st.grids == map[]
    ensures var r := SelectSheet(SelectSheet(st, None), Some(""));
      r.sheets == [None, Some("")] && r.sheetCount == st.sheetCount + 2
  {
  }

  /** Selecting a worksheet twice creates it at most once. */
  lemma SelectTwice(st: BookState, name: SheetName)
    ensures SelectSheet(SelectSheet(st, name), name).sheets == SelectSheet(st, name).sheets
    ensures SelectSheet(SelectSheet(st, name), name).rows == SelectSheet(st, name).rows
  {
  }

  // ---------------------------------------------------------------------------
  // set_border

  /** A border side: None or a line style number. */
  type Side = Option<int>

  predicate SideTruthy(s: Side) { s.Some? && s.value != 0 }

  function SideVal(s: Side): Val { if s.Some? then Int(s.value) else Nil }

  function SideStr(s: Side): string { if s.Some? then IntToDecimal(s.value) else "None" }

  /** `left or border` etc., and the four sides of the cell (r, c) in the range. */
  datatype Border = Border(firstRow: int, firstCol: int, lastRow: int, lastCol: int,
    left: Side, right: Side, bottom: Side, top: Side, inner: Side)

  function Either(a: Side, b: Side): Side { if SideTruthy(a) then a else b }

  /** The sides after `border` has filled the unset ones (when `border` itself is truthy). */
  function Resolved(firstRow: int, firstCol: int, lastRow: int, lastCol: int,
    left: Side, right: Side, bottom: Side, top: Side, border: Side, inner: Side): (b: Border)
    ensures SideTruthy(border) ==> SideTruthy(b.left) && SideTruthy(b.right) && SideTruthy(b.top) && SideTruthy(b.bottom)
    ensures SideTruthy(left) ==> b.left == left
    ensures !SideTruthy(border) ==> b.left == left && b.right == right && b.top == top && b.bottom == bottom
  {
    if SideTruthy(border) then
      Border(firstRow, firstCol, lastRow, lastCol, Either(left, border), Either(right, border),
        Either(bottom, border), Either(top, border), inner)
    else Border(firstRow, firstCol, lastRow, lastCol, left, right, bottom, top, inner)
  }

  /** The sides of one cell: the outer value on the range's edge, `inner` everywhere else. */
  function TopOf(b: Border, r: int): Side { if r == b.firstRow then b.top else b.inner }
  function BottomOf(b: Border, r: int): Side { if r == b.lastRow then b.bottom else b.inner }
  function LeftOf(b: Border, c: int): Side { if c == b.firstCol then b.left else b.inner }
  function RightOf(b: Border, c: int): Side { if c == b.lastCol then b.right else b.inner }

  /** The four sides as format properties. */
  function Sides(b: Border, r: int, c: int): Dict
  {
    map["top" := SideVal(TopOf(b, r)), "bottom" := SideVal(BottomOf(b, r)),
        "left" := SideVal(LeftOf(b, c)), "right" := SideVal(RightOf(b, c))]
  }

  /** The cache name of the format of cell (r, c): left, top, right, bottom, then "-" and the old format's name. */
  function FormatName(b: Border, r: int, c: int, prev: Fmt): string
  {
    var name := SideStr(LeftOf(b, c)) + SideStr(TopOf(b, r)) + SideStr(RightOf(b, c)) + SideStr(BottomOf(b, r));
    if prev.Named? then name + "-" + prev.name else name
  }

  /** The cell before the border is applied (a blank cell when it has never been written). */
  function CellAt(g: Grid, r: int, c: int): Cell
  {
    if (r, c) in g then g[(r, c)] else Cell(Nil, NoFormat)
  }

  /** The properties of a newly registered border format: the old properties updated with the sides. */
  function NewProps(b: Border, r: int, c: int, prev: Fmt): Dict
  {
    if prev.Named? then prev.props + Sides(b, r, c) else Sides(b, r, c)
  }

  /** The format cache and the cells of the worksheet, as the border routine updates them. */
  datatype Canvas = Canvas(formats: map<string, Fmt>, grid: Grid)

  /** `_replace(r, c)`: give one cell the cached border format, registering it first when new. */
  function BorderCell(formats: map<string, Fmt>, g: Grid, b: Border, r: int, c: int): (next: Canvas)
    ensures var name := FormatName(b, r, c, CellAt(g, r, c).format);
      name in next.formats && next.grid == g[(r, c) := CellAt(g, r, c).(format := next.formats[name])]
    ensures forall k :: k in formats ==> k in next.formats && next.formats[k] == formats[k]
    ensures forall k :: k in next.formats && k !in formats ==>
      next.formats[k].Named? && k == FormatName(b, r, c, CellAt(g, r, c).format)
  {
    var cell := CellAt(g, r, c);
    var name := FormatName(b, r, c, cell.format);
    var f := if name in formats then formats else formats[name := Named(name, NewProps(b, r, c, cell.format))];
    Canvas(f, g[(r, c) := cell.(format := f[name])])
  }

  /** The cells (r, c..lastCol), left to right. */
  function BorderRow(formats: map<string, Fmt>, g: Grid, b: Border, r: int, c: int): Canvas
    decreases b.lastCol - c
  {
    if c > b.lastCol then Canvas(formats, g)
    else
      var next := BorderCell(formats, g, b, r, c);
      BorderRow(next.formats, next.grid, b, r, c + 1)
  }

  /** The rows r..lastRow, top to bottom. */
  function BorderRows(formats: map<string, Fmt>, g: Grid, b: Border, r: int): Canvas
    decreases b.lastRow - r
  {
    if r > b.lastRow then Canvas(formats, g)
    else
      var next := BorderRow(formats, g, b, r, b.firstCol);
      BorderRows(next.formats, next.grid, b, r + 1)
  }

  /** The inner loop of `set_border`: the cells of row r, left to right. */
  method PaintRow(f0: map<string, Fmt>, g0: Grid, b: Border, r: int) returns (f: map<string, Fmt>, g: Grid)
    ensures Canvas(f, g) == BorderRow(f0, g0, b, r, b.firstCol)
  {
    f, g := f0, g0;
    var c := b.firstCol;
    while c <= b.lastCol
      invariant BorderRow(f0, g0, b, r, b.firstCol) == BorderRow(f, g, b, r, c)
      decreases b.lastCol - c
    {
      var cell := CellAt(g, r, c);
      var name := FormatName(b, r, c, cell.format);
      if name !in f {
        f := f[name := Named(name, NewProps(b, r, c, cell.format))];
      }
      g := g[(r, c) := cell.(format := f[name])];
      c := c + 1;
    }
  }

  predicate Extends(f: map<string, Fmt>, f': map<string, Fmt>)
  {
    forall k :: k in f ==> k in f' && f'[k] == f[k]
  }

  /**
   * After one row: every cell (r, c') with c <= c' <= lastCol has the format
   * cached under its name (computed from the format it had before), nothing
   * else changed, and no cached format was replaced.
   */
  lemma BorderRowEffect(formats: map<string, Fmt>, g: Grid, b: Border, r: int, c: int)
    ensures var n := BorderRow(formats, g, b, r, c); var f', g' := n.formats, n.grid;
      Extends(formats, f') &&
      (forall c' :: c <= c' <= b.lastCol ==>
        var name := FormatName(b, r, c', CellAt(g, r, c').format);
        name in f' && (r, c') in g' && g'[(r, c')] == CellAt(g, r, c').(format := f'[name])) &&
      (forall p: (int, int) :: !(p.0 == r && c <= p.1 <= b.lastCol) ==> (p in g' <==> p in g) && (p in g ==> g'[p] == g[p]))
  {
    BorderRowExtends(formats, g, b, r, c);
    BorderRowCells(formats, g, b, r, c);
    BorderRowOutside(formats, g, b, r, c);
  }

  lemma {:induction false} BorderRowExtends(formats: map<string, Fmt>, g: Grid, b: Border, r: int, c: int)
    ensures Extends(formats, BorderRow(formats, g, b, r, c).formats)
    decreases b.lastCol - c
  {
    if c <= b.lastCol {
      var n1 := BorderCell(formats, g, b, r, c);
      BorderRowExtends(n1.formats, n1.grid, b, r, c + 1);
    }
  }

  lemma {:induction false} BorderRowOutside(formats: map<string, Fmt>, g: Grid, b: Border, r: int, c: int)
    ensures var g' := BorderRow(formats, g, b, r, c).grid;
      forall p: (int, int) :: !(p.0 == r && c <= p.1 <= b.lastCol) ==> (p in g' <==> p in g) && (p in g ==> g'[p] == g[p])
    decreases b.lastCol - c
  {
    if c <= b.lastCol {
      var n1 := BorderCell(formats, g, b, r, c);
      BorderRowOutside(n1.formats, n1.grid, b, r, c + 1);
    }
  }

  lemma {:induction false} BorderRowCells(formats: map<string, Fmt>, g: Grid, b: Border, r: int, c: int)
    ensures var n := BorderRow(formats, g, b, r, c);
      forall c' :: c <= c' <= b.lastCol ==>
        var name := FormatName(b, r, c', CellAt(g, r, c').format);
        name in n.formats && (r, c') in n.grid && n.grid[(r, c')] == CellAt(g, r, c').(format := n.formats[name])
    decreases b.lastCol - c
  {
    if c <= b.lastCol {
      var n1 := BorderCell(formats, g, b, r, c);
      var g1 := n1.grid;
      BorderRowCells(n1.formats, g1, b, r, c + 1);
      var n := BorderRow(n1.formats, g1, b, r, c + 1);
      forall c' | c < c' <= b.lastCol
        ensures var name := FormatName(b, r, c', CellAt(g, r, c').format);
          name in n.formats && (r, c') in n.grid && n.grid[(r, c')] == CellAt(g, r, c').(format := n.formats[name])
      {
        assert CellAt(g1, r, c') == CellAt(g, r, c');
      }
      FirstCellKept(n1, b, r, c, FormatName(b, r, c, CellAt(g, r, c).format));
    }
  }

  /** The cell a row starts at keeps the format it was given: the rest of the row neither touches it nor replaces its format. */
  lemma FirstCellKept(n1: Canvas, b: Border, r: int, c: int, name: string)
    requires name in n1.formats && (r, c) in n1.grid
    ensures var n := BorderRow(n1.formats, n1.grid, b, r, c + 1);
      name in n.formats && n.formats[name] == n1.formats[name] && (r, c) in n.grid && n.grid[(r, c)] == n1.grid[(r, c)]
  {
    BorderRowExtends(n1.formats, n1.grid, b, r, c + 1);
    BorderRowOutside(n1.formats, n1.grid, b, r, c + 1);
  }

  /** The border state after all rows r..lastRow, as `BorderRowEffect` states it for one row. */
  lemma {:induction false} BorderRowsEffect(formats: map<string, Fmt>, g: Grid, b: Border, r: int)
    ensures var n := BorderRows(formats, g, b, r); var f', g' := n.formats, n.grid;
      Extends(formats, f') &&
      (forall r', c' :: r <= r' <= b.lastRow && b.firstCol <= c' <= b.lastCol ==>
        var name := FormatName(b, r', c', CellAt(g, r', c').format);
        name in f' && (r', c') in g' && g'[(r', c')] == CellAt(g, r', c').(format := f'[name])) &&
      (forall p: (int, int) :: !(r <= p.0 <= b.lastRow && b.firstCol <= p.1 <= b.lastCol) ==> (p in g' <==> p in g) && (p in g ==> g'[p] == g[p]))
    decreases b.lastRow - r
  {
    if r <= b.lastRow {
      var n1 := BorderRow(formats, g, b, r, b.firstCol);
      var g1 := n1.grid;
      BorderRowEffect(formats, g, b, r, b.firstCol);
      BorderRowsEffect(n1.formats, g1, b, r + 1);
      var n := BorderRows(n1.formats, g1, b, r + 1);
      var f', g' := n.formats, n.grid;
      forall r', c' | r <= r' <= b.lastRow && b.firstCol <= c' <= b.lastCol
        ensures var name := FormatName(b, r', c', CellAt(g, r', c').format);
          name in f' && (r', c') in g' && g'[(r', c')] == CellAt(g, r', c').(format := f'[name])
      {
        if r' > r {
          assert CellAt(g1, r', c') == CellAt(g, r', c');
        }
      }
    }
  }

  /** A cell strictly inside the range gets `inner` on all four sides. */
  lemma InnerCell(b: Border, r: int, c: int)
    requires b.firstRow < r < b.lastRow && b.firstCol < c < b.lastCol
    ensures Sides(b, r, c) == map["top" := SideVal(b.inner), "bottom" := SideVal(b.inner),
      "left" := SideVal(b.inner), "right" := SideVal(b.inner)]
  {
  }

  /** A range of one cell gets the outer value on all four sides, and the defaults name its format "2222". */
  lemma SingleCell(r: int, c: int)
    ensures var b := Resolved(r, c, r, c, None, None, None, None, Some(2), Some(1));
      Sides(b, r, c) == map["top" := Int(2), "bottom" := Int(2), "left" := Int(2), "right" := Int(2)] &&
      FormatName(b, r, c, NoFormat) == "2222"
  {
  }

  // ---------------------------------------------------------------------------
  // _add_table

  /** An entry of `columns`: a name, a number, or a header dict. */
  datatype ColumnSpec = ByName(name: string) | ByNumber(n: int) | ByDict(d: Dict)

  /** The `columns` option: absent, a comma-separated string, or a list. */
  datatype Columns = NoColumns | ColumnText(text: string) | ColumnList(items: seq<ColumnSpec>)

  /** `data`: absent, a list, or another iterable, which is truthy even when empty. */
  datatype Data = NoData | DataList(rows: seq<seq<Val>>) | DataIter(items: seq<seq<Val>>)

  /** A `set_columns` call of `_add_table`: the column range, width and hidden flag. */
  datatype ColumnSetting = ColumnSetting(range: string, width: Val, hidden: Val)

  function ColumnEntries(c: Columns): seq<ColumnSpec>
  {
    match c
    case NoColumns => []
    case ColumnText(t) => seq(|Split(t, ',')|, i requires 0 <= i < |Split(t, ',')| => ByName(Split(t, ',')[i]))
    case ColumnList(items) => items
  }

  /** The header dict an entry stands for. */
  function HeaderOf(c: ColumnSpec): Dict
  {
    match c
    case ByName(s) => Header(s, Nil, Nil, map[])
    case ByNumber(n) => Header("Column" + IntToDecimal(n), Nil, Nil, map[])
    case ByDict(d) => d
  }

  /** `self._formats.get(name)` for a name, and any other value as it is. */
  function Lookup(formats: map<string, Fmt>, v: Val): Val
  {
    if v.Txt? then (if v.s in formats then FormatRef(v.s) else Nil) else v
  }

  /** A truthy value under key k is given the format it names; otherwise the dict is unchanged. */
  function ResolveKey(formats: map<string, Fmt>, d: Dict, k: string): Dict
  {
    if k in d && Truthy(d[k]) then d[k := Lookup(formats, d[k])] else d
  }

  /** One entry of `new_columns`, before the table-wide header format is applied. */
  function NewColumn(formats: map<string, Fmt>, c: ColumnSpec): (d: Dict)
    ensures "width" !in d && "hidden" !in d
  {
    var h := HeaderOf(c) - {"width", "hidden"};
    ResolveKey(formats, ResolveKey(formats, h, "format"), "header_format")
  }

  /** The `set_columns` call for entry idx, if its width or hidden flag is truthy. */
  function SettingOf(c: ColumnSpec, idx: nat, firstCol: nat): seq<ColumnSetting>
  {
    var h := HeaderOf(c);
    var width := if "width" in h then h["width"] else Nil;
    var hidden := if "hidden" in h then h["hidden"] else Nil;
    var name := Excel.ColName(idx + firstCol + 1);
    if Truthy(width) || Truthy(hidden) then [ColumnSetting(name + ":" + name, width, hidden)] else []
  }

  /** The table-wide `header_format`, when truthy, replaces every column's. */
  function WithHeaderFormat(formats: map<string, Fmt>, d: Dict, headerFormat: Val): Dict
  {
    if Truthy(headerFormat) then d["header_format" := Lookup(formats, headerFormat)] else d
  }

  /**
   * The loops of `_add_table` over the columns: the normalised entries and the
   * column settings, entry by entry, then the table-wide header format.
   */
  method NormaliseColumns(formats: map<string, Fmt>, columns: seq<ColumnSpec>, firstCol: nat, headerFormat: Val)
    returns (out: seq<Dict>, settings: seq<ColumnSetting>)
    ensures |out| == |columns|
    ensures forall i :: 0 <= i < |columns| ==> out[i] == WithHeaderFormat(formats, NewColumn(formats, columns[i]), headerFormat)
    ensures forall i :: 0 <= i < |columns| ==> "width" !in out[i] && "hidden" !in out[i]
    ensures settings == Settings(columns, |columns|, firstCol)
  {
    var n;
    n, settings := NewColumns(formats, columns, firstCol);
    NewColumnsBelowAt(formats, columns, |columns|);
    out := SetHeaderFormat(formats, n, headerFormat);
    forall i | 0 <= i < |columns|
      ensures "width" !in out[i] && "hidden" !in out[i]
    {
      assert out[i] == WithHeaderFormat(formats, NewColumn(formats, columns[i]), headerFormat);
      HeaderFormatKeeps(formats, NewColumn(formats, columns[i]), headerFormat);
    }
  }

  /** Setting the header format adds no width and no hidden flag. */
  lemma HeaderFormatKeeps(formats: map<string, Fmt>, d: Dict, headerFormat: Val)
    requires "width" !in d && "hidden" !in d
    ensures var r := WithHeaderFormat(formats, d, headerFormat); "width" !in r && "hidden" !in r
  {
  }

  /** The first loop of `_add_table`: one new column and its settings per column. */
  method NewColumns(formats: map<string, Fmt>, columns: seq<ColumnSpec>, firstCol: nat)
    returns (n: seq<Dict>, settings: seq<ColumnSetting>)
    ensures n == NewColumnsBelow(formats, columns, |columns|)
    ensures settings == Settings(columns, |columns|, firstCol)
  {
    n, settings := [], [];
    var idx := 0;
    while idx < |columns|
      invariant 0 <= idx <= |columns| && n == NewColumnsBelow(formats, columns, idx)
      invariant settings == Settings(columns, idx, firstCol)
    {
      n := n + [NewColumn(formats, columns[idx])];
      settings := settings + SettingOf(columns[idx], idx, firstCol);
      idx := idx + 1;
    }
  }

  /** The new columns of the first k columns. */
  function NewColumnsBelow(formats: map<string, Fmt>, columns: seq<ColumnSpec>, k: nat): (r: seq<Dict>)
    requires k <= |columns|
    ensures |r| == k
  {
    if k == 0 then [] else NewColumnsBelow(formats, columns, k - 1) + [NewColumn(formats, columns[k - 1])]
  }

  lemma {:induction false} NewColumnsBelowAt(formats: map<string, Fmt>, columns: seq<ColumnSpec>, k: nat)
    requires k <= |columns|
    ensures forall i :: 0 <= i < k ==> NewColumnsBelow(formats, columns, k)[i] == NewColumn(formats, columns[i])
  {
    if k > 0 {
      NewColumnsBelowAt(formats, columns, k - 1);
    }
  }

  /** The second loop of `_add_table`: the header format applied to every new column. */
  method SetHeaderFormat(formats: map<string, Fmt>, n: seq<Dict>, headerFormat: Val) returns (out: seq<Dict>)
    ensures |out| == |n| && forall j :: 0 <= j < |n| ==> out[j] == WithHeaderFormat(formats, n[j], headerFormat)
  {
    out := [];
    var i := 0;
    while i < |n|
      invariant 0 <= i <= |n| && |out| == i
      invariant forall j :: 0 <= j < i ==> out[j] == WithHeaderFormat(formats, n[j], headerFormat)
    {
      out := out + [WithHeaderFormat(formats, n[i], headerFormat)];
      i := i + 1;
    }
  }

  /** The column settings of the first k entries, in order. */
  function Settings(columns: seq<ColumnSpec>, k: nat, firstCol: nat): seq<ColumnSetting>
    requires k <= |columns|
  {
    if k == 0 then [] else Settings(columns, k - 1, firstCol) + SettingOf(columns[k - 1], k - 1, firstCol)
  }


  /** What `_add_table` hands to the worksheet: the range and the normalised columns. */
  datatype TableSpec = TableSpec(firstRow: int, firstCol: int, lastRow: int, lastCol: int, columns: Option<seq<Dict>>)

  /**
   * The extents of a table: with columns, the last column is first_col plus
   * the number of columns minus 1; with data, the last row is first_row plus
   * the number of rows, one more for a total row.
   */
  function Extents(firstRow: int, firstCol: int, lastRow: int, lastCol: int, ncols: nat, data: Data, totalRow: bool): (r: (int, int))
    ensures ncols > 0 ==> r.1 == firstCol + ncols - 1
    ensures ncols == 0 ==> r.1 == lastCol
    ensures data.DataList? && data.rows != [] ==> r.0 == firstRow + |data.rows| + (if totalRow then 1 else 0)
    ensures data.DataIter? ==> r.0 == firstRow + |data.items| + (if totalRow then 1 else 0)
    ensures data.NoData? || data == DataList([]) ==> r.0 == lastRow
  {
    var lc := if ncols > 0 then firstCol + ncols - 1 else lastCol;
    var lr :=
      match data
      case NoData => lastRow
      case DataList(rows) => if rows == [] then lastRow else firstRow + |rows| + (if totalRow then 1 else 0)
      case DataIter(items) => firstRow + |items| + (if totalRow then 1 else 0);
    (lr, lc)
  }

  /** A table written from the first cell with n header columns and m rows spans n columns and m + 1 rows. */
  lemma TableSpan(n: nat, m: nat, rows: seq<seq<Val>>)
    requires n >= 1 && |rows| == m && m >= 1
    ensures Extents(0, 0, 0, 0, n, DataList(rows), false) == (m, n - 1)
    ensures Extents(0, 0, 0, 0, n, DataList(rows), true) == (m + 1, n - 1)
  {
  }

  // ---------------------------------------------------------------------------
  // Book

  class Book {
    var sheets: seq<SheetName>
    var rows: map<SheetName, int>
    var grids: map<SheetName, Grid>
    var current: Option<SheetName>
    var sheetCount: nat
    var formats: map<string, Fmt>

    function State(): BookState
      reads this
    {
      BookState(sheets, rows, grids, current, sheetCount, formats)
    }

    /** A new book: no worksheet yet, the given formats and then `DefaultFormat` registered. */
    constructor (custom: seq<(string, Dict)>)
      ensures sheets == [] && rows == map[] && grids == map[] && current == None && sheetCount == 0
      ensures formats == InitialFormats(custom)
    {
      sheets, rows, grids, current, sheetCount := [], map[], map[], None, 0;
      formats := InitialFormats(custom);
    }

    /** The `worksheet` setter. */
    method SetWorksheet(name: SheetName)
      modifies this
      ensures State() == SelectSheet(old(State()), name)
    {
      if Unnamed(name) {
        sheetCount := sheetCount + 1;
      }
      if !(name in rows && name in grids) {
        sheets := sheets + [name];
        rows := rows[name := 1];
        grids := grids[name := map[]];
      }
      current := Some(name);
    }

    /** `book + n`. */
    method Add(n: int) returns (r: Result<(), Error>)
      modifies this
      ensures Shift(old(State()), n).Ok? ==> r.Ok? && State() == Shift(old(State()), n).value
      ensures Shift(old(State()), n).Err? ==> r.Err? && State() == old(State())
    {
      if current.None? || current.value !in rows {
        return Err(AttributeError);
      }
      rows := rows[current.value := rows[current.value] + n];
      r := Ok(());
    }

    /** `book - n`. */
    method Sub(n: int) returns (r: Result<(), Error>)
      modifies this
      ensures Shift(old(State()), -n).Ok? ==> r.Ok? && State() == Shift(old(State()), -n).value
      ensures Shift(old(State()), -n).Err? ==> r.Err? && State() == old(State())
    {
      r := Add(-n);
    }

    /** `newline()`: one row forward. */
    method Newline() returns (r: Result<(), Error>)
      modifies this
      ensures Shift(old(State()), 1).Ok? ==> r.Ok? && State() == Shift(old(State()), 1).value
      ensures Shift(old(State()), 1).Err? ==> r.Err? && State() == old(State())
    {
      r := Add(1);
    }

    /** `__setitem__` with a string address: the completed range, or an error for a malformed one. */
    method Target(name: string) returns (r: Result<string, Error>)
      ensures r == CompleteAt(name, CurrentRow(State()))
    {
      if current.None? || current.value !in rows {
        return CompleteAt(name, None);
      }
      r := Complete(name, rows[current.value]);
    }

    /** `set_border` on the current worksheet, cell by cell in row-major order. */
    method SetBorder(firstRow: int, firstCol: int, lastRow: int, lastCol: int,
      left: Side, right: Side, bottom: Side, top: Side, border: Side, inner: Side) returns (r: Result<(), Error>)
      modifies this
      ensures old(current).None? || old(current).value !in old(grids) ==> r.Err? && State() == old(State())
      ensures old(current).Some? && old(current).value in old(grids) ==>
        var b := Resolved(firstRow, firstCol, lastRow, lastCol, left, right, bottom, top, border, inner);
        var next := BorderRows(old(formats), old(grids)[old(current).value], b, firstRow);
        r.Ok? && State() == old(State()).(formats := next.formats, grids := old(grids)[old(current).value := next.grid])
    {
      if current.None? || current.value !in grids {
        return Err(AttributeError);
      }
      var b := Resolved(firstRow, firstCol, lastRow, lastCol, left, right, bottom, top, border, inner);
      var f, g := formats, grids[current.value];
      var row := firstRow;
      while row <= lastRow
        invariant unchanged(this)
        invariant BorderRows(old(formats), old(grids)[current.value], b, firstRow) == BorderRows(f, g, b, row)
        decreases lastRow - row
      {
        f, g := PaintRow(f, g, b, row);
        row := row + 1;
      }
      formats := f;
      grids := grids[current.value := g];
      r := Ok(());
    }

    /**
     * `_add_table`: switch to the worksheet, normalise the columns and work
     * out the extents. The result is what is handed to the worksheet.
     */
    method AddTable(firstRow: int, firstCol: nat, lastRow: int, lastCol: int, worksheet: SheetName,
      headerFormat: Val, columns: Columns, data: Data, totalRow: bool)
      returns (spec: TableSpec, settings: seq<ColumnSetting>)
      modifies this
      ensures State() == SelectSheet(old(State()), worksheet)
      ensures var cols := ColumnEntries(columns);
        var ext := Extents(firstRow, firstCol, lastRow, lastCol, |cols|, data, totalRow);
        spec.firstRow == firstRow && spec.firstCol == firstCol && spec.lastRow == ext.0 && spec.lastCol == ext.1 &&
        (cols == [] <==> spec.columns.None?) &&
        (spec.columns.Some? ==> (|spec.columns.value| == |cols| &&
          forall i :: 0 <= i < |cols| ==> spec.columns.value[i] == WithHeaderFormat(formats, NewColumn(formats, cols[i]), headerFormat))) &&
        settings == (if cols == [] then [] else Settings(cols, |cols|, firstCol))
    {
      SetWorksheet(worksheet);
      var cols := ColumnEntries(columns);
      var out := None;
      settings := [];
      if cols != [] {
        var n;
        n, settings := NormaliseColumns(formats, cols, firstCol, headerFormat);
        out := Some(n);
      }
      var ext := Extents(firstRow, firstCol, lastRow, lastCol, |cols|, data, totalRow);
      spec := TableSpec(firstRow, firstCol, ext.0, ext.1, out);
    }
  }

  /** Columns given as a comma-separated string stand for one named column per part. */
  lemma ColumnTextParts(text: string)
    ensures |ColumnEntries(ColumnText(text))| == |Split(text, ',')| >= 1
    ensures forall i :: 0 <= i < |Split(text, ',')| ==> HeaderOf(ColumnEntries(ColumnText(text))[i]) == map["header" := Txt(Split(text, ',')[i])]
  {
  }

  /** A number n as a column stands for the header "Column{n}". */
  lemma ColumnNumber(n: int)
    ensures HeaderOf(ByNumber(n)) == map["header" := Txt("Column" + IntToDecimal(n))]
  {
  }
}
