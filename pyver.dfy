/**
 * `orange.pykit.pyver`: bumping a version `X.Y.Z[a|b|rc N]` by segment, and
 * picking the newest of several versioned names.
 *
 * A version is the release numbers and the optional pre-release of PEP 440
 * (epoch, post, dev and local parts are not modelled). `upgrade` works on the
 * Python list `[*release, *(pre or [None, None])]`, modelled as a sequence of
 * `PyVal.Value`s edited in place with Python's indexing rules, and produces
 * the text that is then handed to `Version(...)`.
 */
module PyVer {
  import opened Wrappers
  import opened Strings
  import opened PyVal

  /** A pre-release kind of PEP 440 in its normal form. */
  predicate PreKind(l: string) { l == "a" || l == "b" || l == "rc" }

  /** A pre-release: its kind ("a", "b" or "rc") and its number. */
  datatype Pre = Pre(kind: string, n: nat)

  datatype Version = Version(release: seq<nat>, pre: Option<Pre>)

  /** What `packaging` produces: at least one release number and a normalised pre-release kind. */
  predicate Valid(v: Version)
  {
    |v.release| >= 1 && (v.pre.Some? ==> PreKind(v.pre.value.kind))
  }

  // ---------------------------------------------------------------------------
  // Ordering (section "Version scheme" of PEP 440, release and pre-release only)

  function Sign(x: int): int { if x < 0 then -1 else if x > 0 then 1 else 0 }

  function Head(r: seq<nat>): nat { if |r| == 0 then 0 else r[0] }

  function Tail(r: seq<nat>): seq<nat> { if |r| == 0 then [] else r[1..] }

  /** Release numbers compared in order, the shorter one padded with zeros. */
  function CmpRelease(a: seq<nat>, b: seq<nat>): (c: int)
    ensures -1 <= c <= 1
    decreases |a| + |b|
  {
    if |a| == 0 && |b| == 0 then 0
    else if Head(a) != Head(b) then Sign(Head(a) - Head(b))
    else CmpRelease(Tail(a), Tail(b))
  }

  function KindRank(l: string): int { if l == "a" then 0 else if l == "b" then 1 else 2 }

  /** A pre-release sorts before the final release; pre-releases by kind a < b < rc, then number. */
  function CmpPre(p: Option<Pre>, q: Option<Pre>): (c: int)
    ensures -1 <= c <= 1
  {
    match (p, q)
    case (None, None) => 0
    case (None, Some(_)) => 1
    case (Some(_), None) => -1
    case (Some(Pre(k, n)), Some(Pre(l, m))) =>
      if KindRank(k) != KindRank(l) then Sign(KindRank(k) - KindRank(l)) else Sign(n as int - m)
  }

  /** The order of `packaging.version.Version`: -1, 0 or 1. */
  function Cmp(v: Version, w: Version): (c: int)
    ensures -1 <= c <= 1
  {
    var r := CmpRelease(v.release, w.release);
    if r != 0 then r else CmpPre(v.pre, w.pre)
  }

  lemma {:induction false} CmpReleaseFlip(a: seq<nat>, b: seq<nat>)
    ensures CmpRelease(b, a) == -CmpRelease(a, b)
    decreases |a| + |b|
  {
    if !(|a| == 0 && |b| == 0) && Head(a) == Head(b) {
      CmpReleaseFlip(Tail(a), Tail(b));
    }
  }

  lemma {:induction false} CmpReleaseTrans(a: seq<nat>, b: seq<nat>, c: seq<nat>)
    requires CmpRelease(a, b) <= 0 && CmpRelease(b, c) <= 0
    ensures CmpRelease(a, c) <= 0
    ensures CmpRelease(a, b) < 0 || CmpRelease(b, c) < 0 ==> CmpRelease(a, c) < 0
    decreases |a| + |b| + |c|
  {
    if |a| == 0 && |b| == 0 && |c| == 0 {
    } else if Head(a) == Head(b) && Head(b) == Head(c) {
      if |a| == 0 && |b| == 0 {
        assert CmpRelease(a, b) == 0;
        CmpReleaseTrans(Tail(a), Tail(b), Tail(c));
      } else if |b| == 0 && |c| == 0 {
        assert CmpRelease(b, c) == 0;
        CmpReleaseTrans(Tail(a), Tail(b), Tail(c));
      } else if |a| == 0 && |c| == 0 {
        CmpReleaseTrans(Tail(a), Tail(b), Tail(c));
      } else {
        CmpReleaseTrans(Tail(a), Tail(b), Tail(c));
      }
    }
  }

  /** The order is antisymmetric: swapping the operands flips the sign. */
  lemma CmpFlip(v: Version, w: Version)
    ensures Cmp(w, v) == -Cmp(v, w)
  {
    CmpReleaseFlip(v.release, w.release);
  }

  /** The order is transitive, strictly so when either step is strict. */
  lemma CmpTrans(u: Version, v: Version, w: Version)
    requires Cmp(u, v) <= 0 && Cmp(v, w) <= 0
    ensures Cmp(u, w) <= 0
    ensures Cmp(u, v) < 0 || Cmp(v, w) < 0 ==> Cmp(u, w) < 0
  {
    CmpReleaseFlip(u.release, v.release);
    CmpReleaseFlip(v.release, w.release);
    CmpReleaseTrans(u.release, v.release, w.release);
  }

  // ---------------------------------------------------------------------------
  // SEGMENT

  /** `SEGMENT.get(name.lower(), 4)`. */
  function SegmentOf(name: string): (s: int)
    ensures 0 <= s <= 4
  {
    var n := Lower(name);
    if n == "major" || n == "m" then 0
    else if n == "minor" || n == "n" then 1
    else if n == "micro" || n == "o" || n == "patch" || n == "p" then 2
    else if n == "dev" || n == "d" then 3
    else 4
  }

  lemma LowerIdempotent(s: string)
    ensures Lower(Lower(s)) == Lower(s)
  {
  }

  lemma LowerOfUpper(s: string)
    ensures Lower(Upper(s)) == Lower(s)
  {
  }

  /** The lookup ignores letter case: "MAJOR", "Minor" and "minor" are the same segment. */
  lemma SegmentIgnoresCase(name: string)
    ensures SegmentOf(Upper(name)) == SegmentOf(name)
    ensures SegmentOf(Lower(name)) == SegmentOf(name)
  {
    LowerOfUpper(name);
    LowerIdempotent(name);
  }

  /** The names of the table and their segments; any other name is segment 4. */
  lemma SegmentTable(name: string)
    ensures SegmentOf("major") == 0 && SegmentOf("m") == 0
    ensures SegmentOf("minor") == 1 && SegmentOf("n") == 1
    ensures SegmentOf("micro") == 2 && SegmentOf("o") == 2 && SegmentOf("patch") == 2 && SegmentOf("p") == 2
    ensures SegmentOf("dev") == 3 && SegmentOf("d") == 3 && SegmentOf("#") == 4
    ensures Lower(name) !in {"major", "m", "minor", "n", "micro", "o", "patch", "p", "dev", "d"} ==>
      SegmentOf(name) == 4
  {
    LowerFixed("major");
    LowerFixed("minor");
    LowerFixed("micro");
    LowerFixed("patch");
    LowerFixed("dev");
    LowerFixed("m");
    LowerFixed("n");
    LowerFixed("o");
    LowerFixed("p");
    LowerFixed("d");
    LowerFixed("#");
  }

  /** A name without upper-case letters is its own lower case. */
  lemma LowerFixed(s: string)
    requires forall i :: 0 <= i < |s| ==> !('A' <= s[i] <= 'Z')
    ensures Lower(s) == s
  {
  }

  // ---------------------------------------------------------------------------
  // upgrade

  /** The `segment` argument: a name looked up in SEGMENT, or an int used as it is. */
  datatype Segment = Named(name: string) | Number(n: int)

  function SegmentNumber(s: Segment): int
  {
    match s
    case Named(name) => SegmentOf(name)
    case Number(n) => n
  }

  /** `ensure` failing (a rejected segment), or Python's IndexError and TypeError on the list. */
  datatype Error = FinalOnPre | PreOnFinal | IndexError | TypeError

  function Numbers(release: seq<nat>): (r: seq<Value>)
    ensures |r| == |release| && forall i :: 0 <= i < |release| ==> r[i] == VInt(release[i])
  {
    seq(|release|, i requires 0 <= i < |release| => VInt(release[i]))
  }

  /** The list `[*ver.release, *(ver.pre or [None, None])]`. */
  function Items(v: Version): (r: seq<Value>)
    ensures |r| == |v.release| + 2
    ensures forall i :: 0 <= i < |v.release| ==> r[i] == VInt(v.release[i])
  {
    Numbers(v.release) +
    (match v.pre
     case None => [VNone, VNone]
     case Some(Pre(l, n)) => [VStr(l), VInt(n)])
  }

  /** Python's `new[i]` on a list of length len: the position it denotes, if any. */
  function PyIndex(len: nat, i: int): (k: Option<nat>)
    ensures k.Some? <==> -(len as int) <= i < len
    ensures k.Some? ==> k.value < len && (k.value == i || k.value == i + len)
  {
    if 0 <= i < len then Some(i) else if -(len as int) <= i < 0 then Some(i + len) else None
  }

  /** `new[i] += 1`. */
  function Incr(items: seq<Value>, i: int): (r: Result<seq<Value>, Error>)
    ensures r.Ok? ==> |r.value| == |items|
  {
    match PyIndex(|items|, i)
    case None => Err(IndexError)
    case Some(k) => if items[k].VInt? then Ok(items[k := VInt(items[k].i + 1)]) else Err(TypeError)
  }

  /** `new[3:] = tail`. */
  function AssignTail(items: seq<Value>, tail: seq<Value>): seq<Value>
  {
    (if |items| < 3 then items else items[..3]) + tail
  }

  /** `for i in range(i, 3): new[i] = 0`. */
  function ZeroFrom(items: seq<Value>, i: int): (r: Result<seq<Value>, Error>)
    decreases 3 - i
  {
    if i >= 3 then Ok(items)
    else
      match PyIndex(|items|, i)
      case None => Err(IndexError)
      case Some(k) => ZeroFrom(items[k := VInt(0)], i + 1)
  }

  /** The edits of `upgrade` lines 52-63 on the list. */
  function Edit(items: seq<Value>, seg: int): Result<seq<Value>, Error>
  {
    if seg == 4 then Incr(items, 4)
    else if seg == 3 then
      if |items| <= 3 then Err(IndexError)
      else if items[3] == VStr("a") then Ok(AssignTail(items, [VStr("b"), VInt(1)]))
      else Ok(AssignTail(items, [VNone, VNone]))
    else
      match Incr(AssignTail(items, [VStr("a"), VInt(1)]), seg)
      case Err(e) => Err(e)
      case Ok(t) => ZeroFrom(t, seg + 1)
  }

  function Strs(items: seq<Value>): (r: seq<string>)
    ensures |r| == |items| && forall i :: 0 <= i < |items| ==> r[i] == Str(items[i])
  {
    seq(|items|, i requires 0 <= i < |items| => Str(items[i]))
  }

  function Concat(parts: seq<string>): string
  {
    if |parts| == 0 then "" else parts[0] + Concat(parts[1..])
  }

  predicate AnyTruthy(items: seq<Value>) { exists i :: 0 <= i < |items| && Truthy(items[i]) }

  /** The new version text: the first three items dot-joined, then the rest concatenated if any is truthy. */
  function Text(items: seq<Value>): string
  {
    var head := if |items| < 3 then items else items[..3];
    var rest := if |items| < 3 then [] else items[3..];
    Join(Strs(head), ".") + (if AnyTruthy(rest) then Concat(Strs(rest)) else "")
  }

  /** `upgrade(ver, segment)`: the `ensure` checks, then the list edits, then the text of the new version. */
  function UpgradeSpec(v: Version, segment: Segment): Result<string, Error>
  {
    var seg := SegmentNumber(segment);
    if seg < 3 && v.pre.Some? then Err(FinalOnPre)
    else if seg >= 3 && v.pre.None? then Err(PreOnFinal)
    else
      match Edit(Items(v), seg)
      case Err(e) => Err(e)
      case Ok(items) => Ok(Text(items))
  }

  method Upgrade(v: Version, segment: Segment) returns (r: Result<string, Error>)
    ensures r == UpgradeSpec(v, segment)
  {
    var seg := match segment case Named(name) => SegmentOf(name) case Number(n) => n;
    if seg < 3 {
      if v.pre.Some? {
        return Err(FinalOnPre);
      }
    } else if v.pre.None? {
      return Err(PreOnFinal);
    }
    assert SegmentNumber(segment) == seg;
    var items := Items(v);
    ghost var edited := Edit(items, seg);
    if seg == 4 {
      if |items| <= 4 {
        return Err(IndexError);
      }
      if !items[4].VInt? {
        return Err(TypeError);
      }
      items := items[4 := VInt(items[4].i + 1)];
    } else if seg == 3 {
      if |items| <= 3 {
        return Err(IndexError);
      }
      if items[3] == VStr("a") {
        items := AssignTail(items, [VStr("b"), VInt(1)]);
      } else {
        items := AssignTail(items, [VNone, VNone]);
      }
    } else {
      items := AssignTail(items, [VStr("a"), VInt(1)]);
      var k := PyIndex(|items|, seg);
      if k.None? {
        return Err(IndexError);
      }
      if !items[k.value].VInt? {
        return Err(TypeError);
      }
      items := items[k.value := VInt(items[k.value].i + 1)];
      assert edited == ZeroFrom(items, seg + 1);
      var i := seg + 1;
      while i < 3
        invariant edited == ZeroFrom(items, i)
        decreases 3 - i
      {
        var j := PyIndex(|items|, i);
        if j.None? {
          return Err(IndexError);
        }
        items := items[j.value := VInt(0)];
        i := i + 1;
      }
    }
    assert edited == Ok(items);
    r := Ok(Text(items));
  }

  // ---------------------------------------------------------------------------
  // What upgrade means on X.Y.Z versions

  /** `str(Version)` for the versions modelled. */
  function Render(v: Version): string
  {
    Join(Strs(Numbers(v.release)), ".") +
    (match v.pre case None => "" case Some(Pre(l, n)) => l + IntToDecimal(n))
  }

  /** The version `upgrade` aims at, for a three-number release and a segment 0 to 4. */
  function Next(v: Version, seg: int): (w: Version)
    requires |v.release| == 3 && 0 <= seg <= 4
    ensures |w.release| == 3
  {
    var r := v.release;
    if seg == 4 then
      match v.pre
      case None => v
      case Some(Pre(l, n)) => Version(r, Some(Pre(l, n + 1)))
    else if seg == 3 then
      Version(r, if v.pre.Some? && v.pre.value.kind == "a" then Some(Pre("b", 1)) else None)
    else if seg == 2 then Version([r[0], r[1], r[2] + 1], Some(Pre("a", 1)))
    else if seg == 1 then Version([r[0], r[1] + 1, 0], Some(Pre("a", 1)))
    else Version([r[0] + 1, 0, 0], Some(Pre("a", 1)))
  }

  lemma ItemsOfThree(v: Version)
    requires |v.release| == 3
    ensures Items(v) == [VInt(v.release[0]), VInt(v.release[1]), VInt(v.release[2])] +
      (match v.pre case None => [VNone, VNone] case Some(Pre(l, n)) => [VStr(l), VInt(n)])
  {
  }

  lemma TextOfThree(v: Version)
    requires Valid(v) && |v.release| == 3
    ensures Text(Items(v)) == Render(v)
  {
    ItemsOfThree(v);
    var items := Items(v);
    var r := v.release;
    assert items[..3] == [VInt(r[0]), VInt(r[1]), VInt(r[2])];
    assert Numbers(r) == items[..3];
    var rest := items[3..];
    match v.pre
    case None =>
      assert rest == [VNone, VNone];
      assert !AnyTruthy(rest);
    case Some(Pre(l, n)) =>
      assert rest == [VStr(l), VInt(n)];
      assert Truthy(rest[0]);
      assert Strs(rest) == [l, IntToDecimal(n)];
      var d := IntToDecimal(n);
      assert Concat([d]) == d + Concat([]);
      assert Concat([l, d]) == l + Concat([d]);
  }

  /** On a valid X.Y.Z version, a segment 0 to 4 that `ensure` accepts yields the text of `Next`. */
  lemma UpgradeThree(v: Version, seg: int)
    requires Valid(v) && |v.release| == 3 && 0 <= seg <= 4
    requires seg < 3 <==> v.pre.None?
    ensures UpgradeSpec(v, Number(seg)) == Ok(Render(Next(v, seg)))
  {
    if seg >= 3 {
      EditPre(v, seg);
    } else {
      EditRelease(v, seg);
    }
    var w := Next(v, seg);
    assert Valid(w);
    TextOfThree(w);
  }

  /** Segments 3 and 4 on a pre-release of X.Y.Z edit the list into the items of `Next`. */
  lemma EditPre(v: Version, seg: int)
    requires |v.release| == 3 && 3 <= seg <= 4 && v.pre.Some?
    ensures Edit(Items(v), seg) == Ok(Items(Next(v, seg)))
  {
    ItemsOfThree(v);
    var items := Items(v);
    var r := v.release;
    var w := Next(v, seg);
    ItemsOfThree(w);
    var head := [VInt(r[0]), VInt(r[1]), VInt(r[2])];
    var l, n := v.pre.value.kind, v.pre.value.n;
    assert items == head + [VStr(l), VInt(n)];
    if seg == 4 {
      assert items[4 := VInt(n + 1)] == head + [VStr(l), VInt(n + 1)];
    } else {
      assert items[..3] == head;
      if items[3] == VStr("a") {
        assert AssignTail(items, [VStr("b"), VInt(1)]) == head + [VStr("b"), VInt(1)];
      } else {
        assert AssignTail(items, [VNone, VNone]) == head + [VNone, VNone];
      }
    }
  }

  /** Segments 0 to 2 on a final X.Y.Z edit the list into the items of `Next`. */
  lemma EditRelease(v: Version, seg: int)
    requires |v.release| == 3 && 0 <= seg < 3 && v.pre.None?
    ensures Edit(Items(v), seg) == Ok(Items(Next(v, seg)))
  {
    ItemsOfThree(v);
    var items := Items(v);
    var r := v.release;
    var w := Next(v, seg);
    ItemsOfThree(w);
    var head := [VInt(r[0]), VInt(r[1]), VInt(r[2])];
    var tail := [VStr("a"), VInt(1)];
    assert items[..3] == head;
    var t := AssignTail(items, tail);
    assert t == head + tail;
    var u := t[seg := VInt(r[seg] + 1)];
    assert Incr(t, seg) == Ok(u);
    if seg == 2 {
      assert ZeroFrom(u, 3) == Ok(u);
      assert u == [VInt(r[0]), VInt(r[1]), VInt(r[2] + 1)] + tail;
    } else if seg == 1 {
      assert ZeroFrom(u, 2) == Ok(u[2 := VInt(0)]);
      assert u[2 := VInt(0)] == [VInt(r[0]), VInt(r[1] + 1), VInt(0)] + tail;
    } else {
      assert ZeroFrom(u, 1) == Ok(u[1 := VInt(0)][2 := VInt(0)]);
      assert u[1 := VInt(0)][2 := VInt(0)] == [VInt(r[0] + 1), VInt(0), VInt(0)] + tail;
    }
  }

  lemma {:induction false} CmpReleaseSame(a: seq<nat>)
    ensures CmpRelease(a, a) == 0
    decreases |a|
  {
    if |a| > 0 {
      CmpReleaseSame(Tail(a));
    }
  }

  /** Every version compares equal to itself. */
  lemma CmpSame(v: Version)
    ensures Cmp(v, v) == 0
  {
    CmpReleaseSame(v.release);
  }

  /** Release numbers that agree before position k and are smaller at k compare lower. */
  lemma {:induction false} CmpReleaseAt(a: seq<nat>, b: seq<nat>, k: nat)
    requires k < |a| && k < |b| && a[..k] == b[..k] && a[k] < b[k]
    ensures CmpRelease(a, b) == -1
    decreases k
  {
    if k > 0 {
      assert a[0] == a[..k][0] && b[0] == b[..k][0];
      assert Tail(a)[..k - 1] == a[1..k] && Tail(b)[..k - 1] == b[1..k];
      assert a[1..k] == a[..k][1..] && b[1..k] == b[..k][1..];
      CmpReleaseAt(Tail(a), Tail(b), k - 1);
    }
  }

  /** The aimed-at version is strictly newer: `upgrade` always moves forward. */
  lemma NextIsNewer(v: Version, seg: int)
    requires Valid(v) && |v.release| == 3 && 0 <= seg <= 4
    requires seg < 3 <==> v.pre.None?
    ensures Cmp(v, Next(v, seg)) == -1
  {
    var r := v.release;
    var w := Next(v, seg);
    if seg >= 3 {
      CmpReleaseSame(r);
    } else {
      assert w.release[..seg] == r[..seg];
      CmpReleaseAt(r, w.release, seg);
    }
  }

  /** The examples of the docstring's kinds of bump. */
  lemma UpgradeExamples()
    ensures Next(Version([1, 2, 3], Some(Pre("a", 1))), 4) == Version([1, 2, 3], Some(Pre("a", 2)))
    ensures Next(Version([1, 2, 3], Some(Pre("a", 2))), 3) == Version([1, 2, 3], Some(Pre("b", 1)))
    ensures Next(Version([1, 2, 3], Some(Pre("b", 4))), 3) == Version([1, 2, 3], None)
    ensures Next(Version([1, 2, 3], None), SegmentOf("minor")) == Version([1, 3, 0], Some(Pre("a", 1)))
    ensures Render(Version([1, 3, 0], Some(Pre("a", 1)))) == "1.3.0a1"
  {
    assert Lower("minor") == "minor";
    var items := [VInt(1), VInt(3), VInt(0)];
    assert Numbers([1, 3, 0]) == items;
    assert NatToDecimal(1) == "1" && NatToDecimal(3) == "3" && NatToDecimal(0) == "0";
    assert Strs(items) == ["1", "3", "0"];
    assert Join(["1", "3", "0"], ".") == "1.3.0";
  }

  /** `ensure` rejects a release bump of a pre-release and a pre-release bump of a final release. */
  lemma UpgradeRejects(v: Version, segment: Segment)
    ensures SegmentNumber(segment) < 3 && v.pre.Some? ==> UpgradeSpec(v, segment) == Err(FinalOnPre)
    ensures SegmentNumber(segment) >= 3 && v.pre.None? ==> UpgradeSpec(v, segment) == Err(PreOnFinal)
    ensures UpgradeSpec(v, segment).Ok? ==> (SegmentNumber(segment) < 3 <==> v.pre.None?)
  {
  }

  /** Without exactly three release numbers the pre-release is not where lines 52-58 look for it. */
  lemma UpgradeTwoNumbers(x: nat, y: nat, n: nat)
    ensures UpgradeSpec(Version([x, y], Some(Pre("a", n))), Number(4)) == Err(IndexError)
  {
  }

  // ---------------------------------------------------------------------------
  // get_cur_ver

  /**
   * `tuple(sorted(paths, key=find_ver))[-1]`: the stable sort puts the
   * newest last and keeps ties in their order, so the pick is the last of
   * the newest names. An empty input gives None.
   */
  function GetCurVer<T>(paths: seq<T>, key: T -> Version): (r: Option<T>)
    ensures r.None? <==> |paths| == 0
    ensures r.Some? ==> r.value in paths
    ensures r.Some? ==> forall p :: p in paths ==> Cmp(key(p), key(r.value)) <= 0
  {
    if |paths| == 0 then None
    else
      var rest := GetCurVer(paths[..|paths| - 1], key);
      var last := paths[|paths| - 1];
      if rest.None? then
        CmpSame(key(last));
        assert paths == [last];
        Some(last)
      else if Cmp(key(last), key(rest.value)) >= 0 then
        CmpFlip(key(last), key(rest.value));
        CmpSame(key(last));
        assert forall p :: p in paths[..|paths| - 1] ==> Cmp(key(p), key(last)) <= 0 by {
          forall p | p in paths[..|paths| - 1] {
            CmpTrans(key(p), key(rest.value), key(last));
          }
        }
        assert forall p :: p in paths ==> p in paths[..|paths| - 1] || p == last;
        Some(last)
      else
        CmpFlip(key(last), key(rest.value));
        assert forall p :: p in paths ==> p in paths[..|paths| - 1] || p == last;
        rest
  }

  /** Every name after the pick is strictly older, so ties go to the last one. */
  lemma {:induction false} GetCurVerIsLast<T>(paths: seq<T>, key: T -> Version, i: nat)
    requires i < |paths| && GetCurVer(paths, key) == Some(paths[i])
    requires forall j :: i < j < |paths| ==> paths[j] != paths[i]
    ensures forall j :: i < j < |paths| ==> Cmp(key(paths[j]), key(paths[i])) < 0
  {
    var n := |paths| - 1;
    if i < n {
      var init := paths[..n];
      GetCurVerDropLast(paths, key, i);
      assert forall j :: i < j < |init| ==> init[j] == paths[j] && init[j] != init[i];
      GetCurVerIsLast(init, key, i);
      forall j | i < j < |paths|
        ensures Cmp(key(paths[j]), key(paths[i])) < 0
      {
        if j < n {
          assert init[j] == paths[j] && init[i] == paths[i];
          assert Cmp(key(init[j]), key(init[i])) < 0;
        } else {
          assert j == n;
        }
      }
    }
  }

  /** When the pick is not the last name, it is the pick of the names before it, and the last name is older. */
  lemma GetCurVerDropLast<T>(paths: seq<T>, key: T -> Version, i: nat)
    requires i < |paths| - 1 && GetCurVer(paths, key) == Some(paths[i])
    requires paths[|paths| - 1] != paths[i]
    ensures GetCurVer(paths[..|paths| - 1], key) == Some(paths[..|paths| - 1][i])
    ensures Cmp(key(paths[|paths| - 1]), key(paths[i])) < 0
  {
    var init, last := paths[..|paths| - 1], paths[|paths| - 1];
    var rest := GetCurVer(init, key);
    assert GetCurVer(paths, key) ==
      if rest.None? then Some(last)
      else if Cmp(key(last), key(rest.value)) >= 0 then Some(last)
      else rest;
    assert init[i] == paths[i];
  }
}
