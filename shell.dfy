/**
 * `orange.shell.shell`: the command line `shell` hands to the operating
 * system. It is the command, then each positional argument (quoted when it
 * holds a blank), then each keyword option rendered with a prefix marker,
 * all joined by single spaces. Running the line is not part of this model.
 */
module Shell {
  import opened Wrappers
  import opened Strings
  import opened PyVal

  /** A keyword option, `name=arg`, in the order the call gave them. */
  datatype Opt = Opt(name: string, arg: Value)

  /** `prefix=None` becomes the platform's switch character. */
  function Resolve(prefix: Option<string>, posix: bool): string
  {
    match prefix
    case Some(s) => s
    case None => if posix then "-" else "/"
  }

  predicate Blank(s: string) { ' ' in s || '\t' in s }

  predicate StartsQuoted(s: string) { |s| > 0 && s[0] == '"' }

  /** A positional argument: `str(arg)`, wrapped in double quotes when it holds a blank and is not already quoted. */
  function Quote(arg: Value): string
  {
    var s := Str(arg);
    if Blank(s) && !StartsQuoted(s) then "\"" + s + "\"" else s
  }

  /** `--` for a long option under the `-` prefix, the prefix itself otherwise. */
  function Marker(prefix: string, name: string): (m: string)
    ensures m == "--" <==> (prefix == "-" && |name| > 1) || prefix == "--"
  {
    if prefix == "-" && |name| > 1 then "--" else prefix
  }

  /** The parameter an option adds: a flag for True, nothing for False, `name:value` otherwise. */
  function Rendered(prefix: string, o: Opt): seq<string>
  {
    var m := Marker(prefix, o.name);
    match o.arg
    case VBool(b) => if b then [m + o.name] else []
    case _ => [m + o.name + ":" + Str(o.arg)]
  }

  function ArgParams(args: seq<Value>): seq<string>
  {
    seq(|args|, i requires 0 <= i < |args| => Quote(args[i]))
  }

  function OptionParams(prefix: string, opts: seq<Opt>): seq<string>
  {
    if |opts| == 0 then []
    else OptionParams(prefix, opts[..|opts| - 1]) + Rendered(prefix, opts[|opts| - 1])
  }

  lemma ArgParamsAppend(args: seq<Value>, i: nat)
    requires i < |args|
    ensures ArgParams(args[..i + 1]) == ArgParams(args[..i]) + [Quote(args[i])]
  {
  }

  lemma OptionParamsAppend(prefix: string, opts: seq<Opt>, j: nat)
    requires j < |opts|
    ensures OptionParams(prefix, opts[..j + 1]) == OptionParams(prefix, opts[..j]) + Rendered(prefix, opts[j])
  {
    assert opts[..j + 1][..j] == opts[..j];
  }

  /** The list `params` before the final join. */
  function Params(cmd: string, args: seq<Value>, prefix: string, opts: seq<Opt>): seq<string>
  {
    [cmd] + ArgParams(args) + OptionParams(prefix, opts)
  }

  /** The command string of `shell(cmd, *args, prefix=prefix, **options)`. */
  method CommandLine(cmd: string, args: seq<Value>, prefix: Option<string>, posix: bool, options: seq<Opt>)
    returns (line: string)
    ensures line == Join(Params(cmd, args, Resolve(prefix, posix), options), " ")
  {
    var p := if prefix.None? then (if posix then "-" else "/") else prefix.value;
    var params := [cmd];
    var i := 0;
    while i < |args|
      invariant 0 <= i <= |args|
      invariant params == [cmd] + ArgParams(args[..i])
    {
      var arg := Str(args[i]);
      if (' ' in arg || '\t' in arg) && !(|arg| > 0 && arg[0] == '"') {
        arg := "\"" + arg + "\"";
      }
      assert arg == Quote(args[i]);
      ArgParamsAppend(args, i);
      params := params + [arg];
      i := i + 1;
    }
    assert args[..i] == args;
    var j := 0;
    while j < |options|
      invariant 0 <= j <= |options|
      invariant params == [cmd] + ArgParams(args) + OptionParams(p, options[..j])
    {
      var rendered := RenderOption(p, options[j]);
      params := params + rendered;
      OptionParamsAppend(p, options, j);
      j := j + 1;
    }
    assert options[..j] == options;
    assert params == Params(cmd, args, Resolve(prefix, posix), options);
    line := Join(params, " ");
  }

  /** One turn of the options loop: the parameters `options[name] = arg` appends. */
  method RenderOption(p: string, o: Opt) returns (rendered: seq<string>)
    ensures rendered == Rendered(p, o)
  {
    var name := o.name;
    var mark := if p == "-" && |name| > 1 then "--" else p;
    rendered := [];
    match o.arg {
      case VBool(b) =>
        if b {
          rendered := [mark + name];
        }
      case _ =>
        rendered := [mark + name + ":" + Str(o.arg)];
    }
  }

  // ---------------------------------------------------------------------------
  // What the line holds

  /** Quoting is idempotent: an argument that already went through `Quote` is passed on unchanged. */
  lemma QuoteIdempotent(arg: Value)
    ensures Quote(VStr(Quote(arg))) == Quote(arg)
  {
    var s := Str(arg);
    if Blank(s) && !StartsQuoted(s) {
      assert StartsQuoted(Quote(arg));
    }
  }

  /**
   * Quoting keeps the text of `str(arg)` and only ever adds one pair of quotes; every argument
   * with a blank reaches the line behind a double quote, and one without a blank is passed on unchanged.
   */
  lemma QuoteGuardsBlanks(arg: Value)
    ensures Quote(arg) == Str(arg) || Quote(arg) == "\"" + Str(arg) + "\""
    ensures Blank(Str(arg)) ==> StartsQuoted(Quote(arg))
    ensures !Blank(Str(arg)) ==> Quote(arg) == Str(arg)
  {
  }

  /** An option contributes nothing exactly when it is False, and otherwise one parameter opening with its marker. */
  lemma RenderedShape(prefix: string, o: Opt)
    ensures Rendered(prefix, o) == [] <==> o.arg == VBool(false)
    ensures |Rendered(prefix, o)| <= 1
    ensures Rendered(prefix, o) != [] ==>
      var m := Marker(prefix, o.name);
      |m| <= |Rendered(prefix, o)[0]| && Rendered(prefix, o)[0][..|m|] == m
  {
    var m := Marker(prefix, o.name);
    if o.arg.VBool? && o.arg.b {
      assert (m + o.name)[..|m|] == m;
    } else if !o.arg.VBool? {
      assert (m + o.name + ":" + Str(o.arg))[..|m|] == m;
    }
  }

  /** The options' parameters are those of the options that are not False. */
  lemma OptionParamsMembers(prefix: string, opts: seq<Opt>)
    ensures forall x :: x in OptionParams(prefix, opts) <==> exists k :: 0 <= k < |opts| && Rendered(prefix, opts[k]) == [x]
  {
    forall x
      ensures x in OptionParams(prefix, opts) <==> exists k :: 0 <= k < |opts| && Rendered(prefix, opts[k]) == [x]
    {
      if x in OptionParams(prefix, opts) {
        OptionParamsFrom(prefix, opts, x);
      }
      if exists k :: 0 <= k < |opts| && Rendered(prefix, opts[k]) == [x] {
        var k :| 0 <= k < |opts| && Rendered(prefix, opts[k]) == [x];
        OptionParamsHas(prefix, opts, k, x);
      }
    }
  }

  /** Every parameter comes from one of the options. */
  lemma {:induction false} OptionParamsFrom(prefix: string, opts: seq<Opt>, x: string)
    requires x in OptionParams(prefix, opts)
    ensures exists k :: 0 <= k < |opts| && Rendered(prefix, opts[k]) == [x]
  {
    var init, last := opts[..|opts| - 1], opts[|opts| - 1];
    if x in OptionParams(prefix, init) {
      OptionParamsFrom(prefix, init, x);
      var k :| 0 <= k < |init| && Rendered(prefix, init[k]) == [x];
      assert opts[k] == init[k];
    } else {
      RenderedShape(prefix, last);
      assert Rendered(prefix, opts[|opts| - 1]) == [x];
    }
  }

  /** Every option that renders to a parameter contributes it. */
  lemma {:induction false} OptionParamsHas(prefix: string, opts: seq<Opt>, k: nat, x: string)
    requires k < |opts| && Rendered(prefix, opts[k]) == [x]
    ensures x in OptionParams(prefix, opts)
  {
    var init := opts[..|opts| - 1];
    if k < |init| {
      assert init[k] == opts[k];
      OptionParamsHas(prefix, init, k, x);
    }
  }

  /** The options' parameters number the options that are not False. */
  function TrueOrValued(opts: seq<Opt>): nat
  {
    if |opts| == 0 then 0
    else TrueOrValued(opts[..|opts| - 1]) + (if opts[|opts| - 1].arg == VBool(false) then 0 else 1)
  }

  lemma {:induction false} OptionParamsCount(prefix: string, opts: seq<Opt>)
    ensures |OptionParams(prefix, opts)| == TrueOrValued(opts)
  {
    if |opts| > 0 {
      OptionParamsCount(prefix, opts[..|opts| - 1]);
      RenderedShape(prefix, opts[|opts| - 1]);
    }
  }

  /** The layout of `params`: the command, then one parameter per argument, then the options. */
  lemma ParamsLayout(cmd: string, args: seq<Value>, prefix: string, opts: seq<Opt>)
    ensures var ps := Params(cmd, args, prefix, opts);
      |ps| == 1 + |args| + TrueOrValued(opts) &&
      ps[0] == cmd &&
      (forall i :: 0 <= i < |args| ==> ps[1 + i] == Quote(args[i])) &&
      ps[1 + |args|..] == OptionParams(prefix, opts)
  {
    OptionParamsCount(prefix, opts);
    var a, o := ArgParams(args), OptionParams(prefix, opts);
    var ps := [cmd] + a + o;
    assert ps == Params(cmd, args, prefix, opts);
    assert ps[1 + |args|..] == o;
    forall i | 0 <= i < |args|
      ensures ps[1 + i] == Quote(args[i])
    {
      assert ps[1 + i] == a[i];
    }
  }

  lemma {:induction false} OptionParamsNoSpace(prefix: string, opts: seq<Opt>)
    requires ' ' !in prefix
    requires forall k :: 0 <= k < |opts| ==> ' ' !in opts[k].name && ' ' !in Str(opts[k].arg)
    ensures forall x :: x in OptionParams(prefix, opts) ==> ' ' !in x
  {
    if |opts| > 0 {
      var init := opts[..|opts| - 1];
      var o := opts[|opts| - 1];
      OptionParamsNoSpace(prefix, init);
      assert ' ' !in Marker(prefix, o.name);
      assert ' ' !in o.name && ' ' !in Str(o.arg);
    }
  }

  /**
   * When no parameter holds a space, splitting the line at spaces gives the
   * parameters back: the line is exactly the parameters separated by single spaces.
   */
  lemma SplitLine(cmd: string, args: seq<Value>, prefix: string, opts: seq<Opt>)
    requires ' ' !in cmd && ' ' !in prefix
    requires forall i :: 0 <= i < |args| ==> !Blank(Str(args[i]))
    requires forall k :: 0 <= k < |opts| ==> ' ' !in opts[k].name && ' ' !in Str(opts[k].arg)
    ensures Split(Join(Params(cmd, args, prefix, opts), " "), ' ') == Params(cmd, args, prefix, opts)
  {
    var ps := Params(cmd, args, prefix, opts);
    var os := OptionParams(prefix, opts);
    OptionParamsNoSpace(prefix, opts);
    forall j | 0 <= j < |ps|
      ensures ' ' !in ps[j]
    {
      if j == 0 {
      } else if j <= |args| {
        assert ps[j] == Quote(args[j - 1]);
      } else {
        assert ps[j] == os[j - 1 - |args|];
        assert ps[j] in os;
      }
    }
    SplitJoin(ps, ' ');
  }

  lemma PosixOptions()
    ensures OptionParams("-", [Opt("l", VBool(true)), Opt("a", VBool(false)), Opt("color", VStr("auto"))])
      == ["-l", "--color:auto"]
  {
    var opts := [Opt("l", VBool(true)), Opt("a", VBool(false)), Opt("color", VStr("auto"))];
    assert opts[..0] == [];
    assert opts[..3] == opts;
    OptionParamsAppend("-", opts, 0);
    OptionParamsAppend("-", opts, 1);
    OptionParamsAppend("-", opts, 2);
    assert Marker("-", "l") == "-" && "-" + "l" == "-l";
    assert Rendered("-", opts[0]) == ["-l"];
    assert Rendered("-", opts[1]) == [];
    assert Marker("-", "color") == "--" && "--" + "color" + ":" + "auto" == "--color:auto";
    assert Rendered("-", opts[2]) == ["--color:auto"];
  }

  /** `shell("ls", "my file", l=True, a=False, color="auto")`: a quoted argument, a short flag, a dropped flag, a long option. */
  lemma PosixExample()
    ensures Params("ls", [VStr("my file")], Resolve(Some("-"), true),
      [Opt("l", VBool(true)), Opt("a", VBool(false)), Opt("color", VStr("auto"))])
      == ["ls", "\"my file\"", "-l", "--color:auto"]
  {
    var opts := [Opt("l", VBool(true)), Opt("a", VBool(false)), Opt("color", VStr("auto"))];
    PosixOptions();
    assert ' ' in "my file";
    assert Quote(VStr("my file")) == "\"my file\"";
    assert Resolve(Some("-"), true) == "-";
  }

  /** `shell("dir", '"c d"', prefix=None, a=True, out=3)` off POSIX: an argument already quoted, `/` as the marker. */
  lemma WindowsExample()
    ensures Params("dir", [VStr("\"c d\"")], Resolve(None, false),
      [Opt("a", VBool(true)), Opt("out", VInt(3))])
      == ["dir", "\"c d\"", "/a", "/out:3"]
  {
    var opts := [Opt("a", VBool(true)), Opt("out", VInt(3))];
    assert opts[..0] == [];
    assert opts[..2] == opts;
    OptionParamsAppend("/", opts, 0);
    OptionParamsAppend("/", opts, 1);
    assert Str(VInt(3)) == "3";
    assert Marker("/", "a") == "/" && "/" + "a" == "/a";
    assert Rendered("/", opts[0]) == ["/a"];
    assert Marker("/", "out") == "/" && "/" + "out" + ":" + "3" == "/out:3";
    assert Rendered("/", opts[1]) == ["/out:3"];
    assert OptionParams("/", opts) == ["/a", "/out:3"];
    assert Quote(VStr("\"c d\"")) == "\"c d\"";
    assert Resolve(None, false) == "/";
  }
}
