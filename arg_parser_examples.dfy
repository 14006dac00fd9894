/** The parser's own test cases (libwild-proxy/src/arg_parser.rs, module
    `tests`), stated for the proxy's declarations, any starting state and,
    where a test uses a sample value, any value of the same shape. */
module ArgParserExamples {
  import opened Wrappers
  import opened Text
  import opened ArgParser

  // ----- Helpers: running tokens whose landing is known -------------------

  lemma RunOne(t: Tables, s: ParseState, token: string, l: Landing)
    requires Classify(t, [token]) == Ok((l, 1))
    ensures Run(t, s, [token]) == Ok(Apply(s, l))
  {
    RunStep(t, s, [token], l, 1);
    assert [token][1..] == [];
  }

  lemma RunPair(t: Tables, s: ParseState, name: string, value: string, arg: Arg)
    requires FlagMatch(t, name) == None && MatchArg(t, name) == NeedsNext(arg)
    ensures Run(t, s, [name, value]) == Ok(Apply(s, SlotFilled(arg, value)))
  {
    var tokens := [name, value];
    assert Classify(t, tokens) == Ok((SlotFilled(arg, value), 2));
    RunStep(t, s, tokens, SlotFilled(arg, value), 2);
    assert tokens[2..] == [];
  }

  /** A token that lands on its own lands the same way whatever follows. */
  lemma ClassifyAlone(t: Tables, first: string, rest: seq<string>, l: Landing)
    requires Classify(t, [first]) == Ok((l, 1))
    ensures Classify(t, [first] + rest) == Ok((l, 1))
  {
    assert ([first] + rest)[0] == first;
  }

  /** Running `first` then `rest`, when `first` lands on its own. */
  lemma RunThen(t: Tables, s: ParseState, first: string, rest: seq<string>, l: Landing)
    requires Classify(t, [first]) == Ok((l, 1))
    ensures Run(t, s, [first] + rest) == Run(t, Apply(s, l), rest)
  {
    ClassifyAlone(t, first, rest, l);
    RunStep(t, s, [first] + rest, l, 1);
    assert ([first] + rest)[1..] == rest;
  }

  /** Two unknown tokens in a row both go to the unknown list, in order. */
  lemma RunTwoUnknown(t: Tables, s: ParseState, x: string, y: string)
    requires Classify(t, [x]) == Ok((Unknown(x), 1)) && Classify(t, [y]) == Ok((Unknown(y), 1))
    ensures Run(t, s, [x, y]) == Ok(s.(unknownArgs := s.unknownArgs + [x, y]))
  {
    assert [x, y] == [x] + [y];
    RunThen(t, s, x, [y], Unknown(x));
    RunOne(t, Apply(s, Unknown(x)), y, Unknown(y));
    Regroup(s.unknownArgs, x, [y]);
  }

  /** Running a bare name and its value, then `rest`. */
  lemma RunPairThen(t: Tables, s: ParseState, name: string, value: string, rest: seq<string>, arg: Arg)
    requires FlagMatch(t, name) == None && MatchArg(t, name) == NeedsNext(arg)
    ensures Run(t, s, [name, value] + rest) == Run(t, Apply(s, SlotFilled(arg, value)), rest)
  {
    var tokens := [name, value] + rest;
    assert Classify(t, tokens) == Ok((SlotFilled(arg, value), 2));
    RunStep(t, s, tokens, SlotFilled(arg, value), 2);
    assert tokens[2..] == rest;
  }

  lemma ClassifyInline(t: Tables, tokens: seq<string>, arg: Arg, value: string)
    requires tokens != []
    requires FlagMatch(t, tokens[0]) == None && MatchArg(t, tokens[0]) == Inline(arg, value)
    ensures Classify(t, tokens) == Ok((SlotFilled(arg, value), 1))
  {
  }

  /** No short flag of the proxy begins with a letter other than p, s, n, c. */
  lemma ShortFlagMiss(name: string)
    requires name != [] && name[0] !in "psnc-"
    ensures FlagMatch(StandardTables(), "-" + name) == None
  {
    var t := StandardTables();
    assert name !in t.shortFlags;
    assert !("no-" <= name);
    FlagMatchShort(t, name);
  }

  /** A long token that names no long flag. */
  lemma LongFlagMiss(name: string)
    requires name != [] && name[0] != 'n' && name !in StandardTables().longFlags
    ensures FlagMatch(StandardTables(), "--" + name) == None
  {
    assert !("no-" <= name);
    FlagMatchLong(StandardTables(), name);
  }

  /** A short value argument written directly after its name: `-<key><rest>`. */
  lemma ShortInline(key: string, rest: string)
    requires key in StandardTables().shortArgs
    requires rest != [] && '=' !in key + rest && key[0] !in "psnc-"
    requires key + rest !in StandardTables().shortArgs
    ensures Classify(StandardTables(), ["-" + key + rest]) ==
              Ok((SlotFilled(StandardTables().shortArgs[key], rest), 1))
  {
    var t := StandardTables();
    StandardTablesPrefixFree();
    assert "-" + key + rest == "-" + (key + rest);
    ShortFlagMiss(key + rest);
    MatchArgPrefix(t, key, rest);
    ClassifyInline(t, ["-" + key + rest], t.shortArgs[key], rest);
  }

  /** A bare short value argument `-<key>`. */
  lemma ShortBare(key: string)
    requires key in StandardTables().shortArgs && '=' !in key && key[0] !in "psnc-"
    ensures FlagMatch(StandardTables(), "-" + key) == None
    ensures MatchArg(StandardTables(), "-" + key) == NeedsNext(StandardTables().shortArgs[key])
  {
    ShortFlagMiss(key);
    MatchArgBare(StandardTables(), false, key);
  }

  /** A one-letter short argument written directly before its value. */
  lemma LetterInline(key: string, rest: string)
    requires |key| == 1 && key in StandardTables().shortArgs && rest != [] && '=' !in rest
    ensures Classify(StandardTables(), ["-" + key + rest]) ==
              Ok((SlotFilled(StandardTables().shortArgs[key], rest), 1))
  {
    assert key == [key[0]];
    assert key[0] in "xBlLT";
    assert (key + rest)[0] == key[0] && |key + rest| >= 2;
    assert '=' !in key + rest;
    ShortInline(key, rest);
  }

  /** `-Wl<v>` with `v` starting at the comma. */
  lemma WlInline(v: string)
    requires v != [] && v[0] == ',' && '=' !in v
    ensures Classify(StandardTables(), ["-Wl" + v]) ==
              Ok((SlotFilled(StandardTables().shortArgs["Wl"], v), 1))
  {
    assert ("Wl" + v)[0] == 'W' && ("Wl" + v)[2] == ',' && '=' !in "Wl" + v;
    assert "-Wl" + v == "-" + "Wl" + v;
    ShortInline("Wl", v);
  }

  /** `-Wl=<w>`: the key=val form. */
  lemma WlEquals(w: string)
    ensures Classify(StandardTables(), ["-Wl=" + w]) ==
              Ok((SlotFilled(StandardTables().shortArgs["Wl"], w), 1))
  {
    var t := StandardTables();
    var token := "-Wl=" + w;
    assert token == "-" + ("Wl=" + w) == "-" + "Wl" + "=" + w;
    ShortFlagMiss("Wl=" + w);
    MatchArgInline(t, false, "Wl", w);
    ClassifyInline(t, [token], t.shortArgs["Wl"], w);
  }

  /** A short token whose name begins with `a` is unknown. */
  lemma UnknownShort(name: string)
    requires name != [] && name[0] == 'a' && '=' !in name
    ensures Classify(StandardTables(), ["-" + name]) == Ok((Unknown("-" + name), 1))
  {
    var t := StandardTables();
    ShortFlagMiss(name);
    assert name !in t.shortArgs;
    MatchArgNoPrefix(t, name);
  }

  /** A long token whose name begins with `a` is unknown. */
  lemma UnknownLong(name: string)
    requires name != [] && name[0] == 'a' && '=' !in name
    ensures Classify(StandardTables(), ["--" + name]) == Ok((Unknown("--" + name), 1))
  {
    var t := StandardTables();
    assert name !in t.longFlags;
    LongFlagMiss(name);
    assert name !in t.longArgs;
    MatchArgBare(t, true, name);
  }

  // ----- Steps: one declared argument and the rest of the command line ---

  /** `-<key><v>` for a one-letter key, followed by `rest`. */
  lemma LetterThen(s: ParseState, key: string, v: string, token: string, rest: seq<string>)
    requires |key| == 1 && key in StandardTables().shortArgs && v != [] && '=' !in v
    requires token == "-" + key + v
    ensures Run(StandardTables(), s, [token] + rest) ==
              Run(StandardTables(), Apply(s, SlotFilled(StandardTables().shortArgs[key], v)), rest)
  {
    LetterInline(key, v);
    RunThen(StandardTables(), s, token, rest, SlotFilled(StandardTables().shortArgs[key], v));
  }

  /** `-<key><v>` for a one-letter key, last on the command line. */
  lemma LetterLast(s: ParseState, key: string, v: string, token: string)
    requires |key| == 1 && key in StandardTables().shortArgs && v != [] && '=' !in v
    requires token == "-" + key + v
    ensures Run(StandardTables(), s, [token]) ==
              Ok(Apply(s, SlotFilled(StandardTables().shortArgs[key], v)))
  {
    LetterInline(key, v);
    RunOne(StandardTables(), s, token, SlotFilled(StandardTables().shortArgs[key], v));
  }

  /** `-<key> <v>`, followed by `rest`. */
  lemma BareThen(s: ParseState, key: string, v: string, token: string, rest: seq<string>)
    requires key in StandardTables().shortArgs && '=' !in key && key[0] !in "psnc-"
    requires token == "-" + key
    ensures Run(StandardTables(), s, [token, v] + rest) ==
              Run(StandardTables(), Apply(s, SlotFilled(StandardTables().shortArgs[key], v)), rest)
  {
    ShortBare(key);
    RunPairThen(StandardTables(), s, token, v, rest, StandardTables().shortArgs[key]);
  }

  /** `-<key> <v>`, last on the command line. */
  lemma BareLast(s: ParseState, key: string, v: string, token: string)
    requires key in StandardTables().shortArgs && '=' !in key && key[0] !in "psnc-"
    requires token == "-" + key
    ensures Run(StandardTables(), s, [token, v]) ==
              Ok(Apply(s, SlotFilled(StandardTables().shortArgs[key], v)))
  {
    ShortBare(key);
    RunPair(StandardTables(), s, token, v, StandardTables().shortArgs[key]);
  }

  /** One more value through a `Multi` argument appends its pieces. */
  lemma FillAfter(s: ParseState, arg: Arg, vs: seq<string>, v: string)
    requires arg.field.Multi?
    ensures Apply(s.(args := Extend(s.args, arg.field.multi, vs)), SlotFilled(arg, v)) ==
              s.(args := Extend(s.args, arg.field.multi, vs + Pieces(arg, v)))
  {
    ExtendTwice(s.args, arg.field.multi, vs, Pieces(arg, v));
  }

  /** Two values through one `Multi` argument append both values' pieces. */
  lemma FillPiecesTwice(s: ParseState, arg: Arg, a: string, b: string)
    requires arg.field.Multi?
    ensures Apply(Apply(s, SlotFilled(arg, a)), SlotFilled(arg, b)) ==
              s.(args := Extend(s.args, arg.field.multi, Pieces(arg, a) + Pieces(arg, b)))
  {
    FillAfter(s, arg, Pieces(arg, a), b);
  }

  /** Two values through one separator-less `Multi` argument. */
  lemma FillTwice(s: ParseState, arg: Arg, a: string, b: string)
    requires arg.field.Multi? && arg.separator == None
    ensures Apply(Apply(s, SlotFilled(arg, a)), SlotFilled(arg, b)) ==
              s.(args := Extend(s.args, arg.field.multi, [a, b]))
  {
    FillAfter(s, arg, [a], b);
    assert [a] + [b] == [a, b];
  }

  /** Three values through one separator-less `Multi` argument. */
  lemma FillThrice(s: ParseState, arg: Arg, a: string, b: string, c: string)
    requires arg.field.Multi? && arg.separator == None
    ensures Apply(Apply(Apply(s, SlotFilled(arg, a)), SlotFilled(arg, b)), SlotFilled(arg, c)) ==
              s.(args := Extend(s.args, arg.field.multi, [a, b, c]))
  {
    FillTwice(s, arg, a, b);
    FillAfter(s, arg, [a, b], c);
    assert [a, b] + [c] == [a, b, c];
  }

  /** `-B` is a repeatable argument without a separator. */
  lemma ShortB()
    ensures "B" in StandardTables().shortArgs && StandardTables().shortArgs["B"] == Arg(Multi(CompilerBArgs), None)
  {
  }

  lemma SplitFour(w: string, x: string, y: string, z: string)
    ensures [w, x, y, z] == [w] + ([x, y] + [z])
  {
  }

  // ----- The test cases -----------------------------------------------------

  /** `--pthread` turns the flag on. */
  lemma PthreadOnExample(s: ParseState)
    ensures Run(StandardTables(), s, ["--pthread"]) == Ok(s.(args := SetFlag(s.args, Pthread, true)))
  {
    var t := StandardTables();
    assert "pthread"[0] != "no-"[0];
    assert "--pthread" == "--" + "pthread";
    FlagMatchLong(t, "pthread");
    RunOne(t, s, "--pthread", FlagSet(Pthread, true));
  }

  /** `-no-pthread` turns it off again: the short flag supports negation. */
  lemma PthreadOffExample(s: ParseState)
    ensures Run(StandardTables(), s, ["-no-pthread"]) == Ok(s.(args := SetFlag(s.args, Pthread, false)))
  {
    var t := StandardTables();
    assert "-no-pthread" == "-no-" + "pthread";
    FlagMatchShort(t, "pthread");
    RunOne(t, s, "-no-pthread", FlagSet(Pthread, false));
  }

  /** `--sysroot=<v>` replaces the sysroot with `v`. */
  lemma SysrootInlineExample(s: ParseState, value: string)
    ensures Run(StandardTables(), s, ["--sysroot=" + value]) ==
              Ok(s.(args := SetSingle(s.args, Sysroot, value)))
  {
    var t := StandardTables();
    var token := "--sysroot=" + value;
    assert token == "--" + ("sysroot=" + value) == "--" + "sysroot" + "=" + value;
    assert ("sysroot=" + value)[1] == 'y';
    LongFlagMiss("sysroot=" + value);
    MatchArgInline(t, true, "sysroot", value);
    ClassifyInline(t, [token], t.longArgs["sysroot"], value);
    RunOne(t, s, token, SlotFilled(t.longArgs["sysroot"], value));
  }

  /** `--sysroot <v>` does the same with the next token. */
  lemma SysrootNextExample(s: ParseState, value: string)
    ensures Run(StandardTables(), s, ["--sysroot", value]) ==
              Ok(s.(args := SetSingle(s.args, Sysroot, value)))
  {
    var t := StandardTables();
    assert "--sysroot" == "--" + "sysroot";
    assert "sysroot"[1] == 'y';
    LongFlagMiss("sysroot");
    MatchArgBare(t, true, "sysroot");
    RunPair(t, s, "--sysroot", value, t.longArgs["sysroot"]);
  }

  /** `-T <a> -T<b>` appends both scripts, in order. */
  lemma ScriptsExample(s: ParseState, a: string, b: string)
    requires b != [] && '=' !in b
    ensures Run(StandardTables(), s, ["-T", a, "-T" + b]) ==
              Ok(s.(args := Extend(s.args, Scripts, [a, b])))
  {
    var t := StandardTables();
    assert ["-T", a, "-T" + b] == ["-T", a] + ["-T" + b];
    BareThen(s, "T", a, "-T", ["-T" + b]);
    LetterLast(Apply(s, SlotFilled(t.shortArgs["T"], a)), "T", b, "-T" + b);
    FillTwice(s, t.shortArgs["T"], a, b);
  }

  /** `-Wl<v>` (the comma form) and `-Wl=<w>` split their values at commas
      and append the non-empty pieces. */
  lemma WlExample(s: ParseState, v: string, w: string)
    requires v != [] && v[0] == ',' && '=' !in v
    ensures Run(StandardTables(), s, ["-Wl" + v, "-Wl=" + w]) ==
              Ok(s.(args := Extend(s.args, LinkerArgs, NonEmpty(Split(v, ',')) + NonEmpty(Split(w, ',')))))
  {
    var t := StandardTables();
    var wl := t.shortArgs["Wl"];
    WlInline(v);
    assert ["-Wl" + v, "-Wl=" + w] == ["-Wl" + v] + ["-Wl=" + w];
    RunThen(t, s, "-Wl" + v, ["-Wl=" + w], SlotFilled(wl, v));
    WlEquals(w);
    RunOne(t, Apply(s, SlotFilled(wl, v)), "-Wl=" + w, SlotFilled(wl, w));
    FillPiecesTwice(s, wl, v, w);
  }

  /** `p` and `q` joined by a comma split back into `p` and `q`. */
  lemma SplitPair(p: string, q: string)
    requires p != [] && q != [] && ',' !in p && ',' !in q
    ensures JoinWith([p, q], ',') == p + "," + q
    ensures Split(p + "," + q, ',') == [p, q]
    ensures NonEmpty([p, q]) == [p, q]
  {
    assert [p, q][1..] == [q];
    assert [q][1..] == [];
    assert NonEmpty([q]) == [q];
    SplitJoin([p, q], ',');
  }

  /** A comma-led value `,<p>,<q>` splits into `p` and `q`. */
  lemma SplitLeadingComma(p: string, q: string)
    requires p != [] && q != [] && ',' !in p && ',' !in q
    ensures NonEmpty(Split("," + p + "," + q, ',')) == [p, q]
  {
    var empty: string := [];
    JoinLeadingEmpty(p, q);
    SplitJoin([empty, p, q], ',');
    SplitPair(p, q);
    assert [empty, p, q][1..] == [p, q];
  }

  /** Joining an empty piece, `p` and `q` with commas gives `,<p>,<q>`. */
  lemma JoinLeadingEmpty(p: string, q: string)
    requires p != [] && q != [] && ',' !in p && ',' !in q
    ensures JoinWith([[], p, q], ',') == "," + p + "," + q
  {
    var empty: string := [];
    assert [empty, p, q][1..] == [p, q];
    SplitPair(p, q);
    assert JoinWith([empty, p, q], ',') == empty + [','] + JoinWith([p, q], ',');
  }

  /** A value `<p>,<q>` splits into `p` and `q`. */
  lemma SplitOneComma(p: string, q: string)
    requires p != [] && q != [] && ',' !in p && ',' !in q
    ensures NonEmpty(Split(p + "," + q, ',')) == [p, q]
  {
    SplitPair(p, q);
  }

  /** `-Wl,<a>,<b>` is `-Wl` with a comma-led value, `-Wl=<c>,<d>` is
      `-Wl=` with a plain one, and together their pieces are `a, b, c, d`. */
  lemma WlPieces(a: string, b: string, c: string, d: string)
    requires a != [] && b != [] && c != [] && d != []
    requires ',' !in a && ',' !in b && ',' !in c && ',' !in d
    requires '=' !in a && '=' !in b
    ensures var v, w := "," + a + "," + b, c + "," + d;
            && "-Wl," + a + "," + b == "-Wl" + v
            && "-Wl=" + c + "," + d == "-Wl=" + w
            && v != [] && v[0] == ',' && '=' !in v
            && NonEmpty(Split(v, ',')) + NonEmpty(Split(w, ',')) == [a, b, c, d]
  {
    var v, w := "," + a + "," + b, c + "," + d;
    assert "-Wl," + a + "," + b == "-Wl" + v;
    assert "-Wl=" + c + "," + d == "-Wl=" + w;
    assert v[0] == ',' && '=' !in v;
    SplitLeadingComma(a, b);
    SplitOneComma(c, d);
    assert [a, b] + [c, d] == [a, b, c, d];
  }

  /** `-Wl,<a>,<b> -Wl=<c>,<d>` appends the four pieces in order. */
  lemma WlFourPieces(s: ParseState, a: string, b: string, c: string, d: string)
    requires a != [] && b != [] && c != [] && d != []
    requires ',' !in a && ',' !in b && ',' !in c && ',' !in d
    requires '=' !in a && '=' !in b
    ensures Run(StandardTables(), s, ["-Wl," + a + "," + b, "-Wl=" + c + "," + d]) ==
              Ok(s.(args := Extend(s.args, LinkerArgs, [a, b, c, d])))
  {
    WlPieces(a, b, c, d);
    WlExample(s, "," + a + "," + b, c + "," + d);
  }

  /** The source's own `-Wl` test: `-Wl,-z,text -Wl=-z,now` appends
      `-z`, `text`, `-z`, `now`. */
  lemma WlSourceExample(s: ParseState)
    ensures Run(StandardTables(), s, ["-Wl,-z,text", "-Wl=-z,now"]) ==
              Ok(s.(args := Extend(s.args, LinkerArgs, ["-z", "text", "-z", "now"])))
  {
    assert "-Wl,-z,text" == "-Wl," + "-z" + "," + "text";
    assert "-Wl=-z,now" == "-Wl=" + "-z" + "," + "now";
    WlFourPieces(s, "-z", "text", "-z", "now");
  }

  /** The test's second parse: `-Xlinker -z,relro` then appends `-z,relro`
      whole after what the `-Wl` tokens left. */
  lemma WlThenXlinkerExample(s: ParseState)
    ensures Run(StandardTables(), s.(args := Extend(s.args, LinkerArgs, ["-z", "text", "-z", "now"])),
                ["-Xlinker", "-z,relro"]) ==
              Ok(s.(args := Extend(s.args, LinkerArgs, ["-z", "text", "-z", "now", "-z,relro"])))
  {
    var before := ["-z", "text", "-z", "now"];
    XlinkerExample(s.(args := Extend(s.args, LinkerArgs, before)), "-z,relro");
    ExtendTwice(s.args, LinkerArgs, before, ["-z,relro"]);
    assert before + ["-z,relro"] == ["-z", "text", "-z", "now", "-z,relro"];
  }

  /** `-Xlinker <x>` appends `x` whole, commas included. */
  lemma XlinkerExample(s: ParseState, x: string)
    ensures Run(StandardTables(), s, ["-Xlinker", x]) == Ok(s.(args := Extend(s.args, LinkerArgs, [x])))
  {
    BareLast(s, "Xlinker", x, "-Xlinker");
  }

  /** `-B<a> -B <b> -B<c>` appends all three, in order. */
  lemma CompilerBExample(s: ParseState, a: string, b: string, c: string)
    requires a != [] && '=' !in a && c != [] && '=' !in c
    ensures Run(StandardTables(), s, ["-B" + a, "-B", b, "-B" + c]) ==
              Ok(s.(args := Extend(s.args, CompilerBArgs, [a, b, c])))
  {
    var t := StandardTables();
    ShortB();
    var bArg := Arg(Multi(CompilerBArgs), None);
    var s1 := Apply(s, SlotFilled(bArg, a));
    var s2 := Apply(s1, SlotFilled(bArg, b));
    calc {
      Run(t, s, ["-B" + a, "-B", b, "-B" + c]);
      { SplitFour("-B" + a, "-B", b, "-B" + c);
        LetterThen(s, "B", a, "-B" + a, ["-B", b] + ["-B" + c]); }
      Run(t, s1, ["-B", b] + ["-B" + c]);
      { BareThen(s1, "B", b, "-B", ["-B" + c]); }
      Run(t, s2, ["-B" + c]);
      { LetterLast(s2, "B", c, "-B" + c); }
      Ok(Apply(s2, SlotFilled(bArg, c)));
      { FillThrice(s, bArg, a, b, c); }
      Ok(s.(args := Extend(s.args, CompilerBArgs, [a, b, c])));
    }
  }

  /** `-l<a> -l<b>` appends both libraries. */
  lemma LibsExample(s: ParseState, a: string, b: string)
    requires a != [] && '=' !in a && b != [] && '=' !in b
    ensures Run(StandardTables(), s, ["-l" + a, "-l" + b]) ==
              Ok(s.(args := Extend(s.args, AdditionalLibs, [a, b])))
  {
    var t := StandardTables();
    assert ["-l" + a, "-l" + b] == ["-l" + a] + ["-l" + b];
    LetterThen(s, "l", a, "-l" + a, ["-l" + b]);
    LetterLast(Apply(s, SlotFilled(t.shortArgs["l"], a)), "l", b, "-l" + b);
    FillTwice(s, t.shortArgs["l"], a, b);
  }

  /** `-L<a> -L <b>` appends both search paths. */
  lemma SearchPathsExample(s: ParseState, a: string, b: string)
    requires a != [] && '=' !in a
    ensures Run(StandardTables(), s, ["-L" + a, "-L", b]) ==
              Ok(s.(args := Extend(s.args, AdditionalSearchPaths, [a, b])))
  {
    var t := StandardTables();
    var path := t.shortArgs["L"];
    var s1 := Apply(s, SlotFilled(path, a));
    calc {
      Run(t, s, ["-L" + a, "-L", b]);
      { assert ["-L" + a, "-L", b] == ["-L" + a] + ["-L", b];
        LetterThen(s, "L", a, "-L" + a, ["-L", b]); }
      Run(t, s1, ["-L", b]);
      { BareLast(s1, "L", b, "-L"); }
      Ok(Apply(s1, SlotFilled(path, b)));
      { FillTwice(s, path, a, b); }
      Ok(s.(args := Extend(s.args, AdditionalSearchPaths, [a, b])));
    }
  }

  /** `--target=<v>` sets the target. */
  lemma TargetInlineExample(s: ParseState, value: string)
    ensures Run(StandardTables(), s, ["--target=" + value]) ==
              Ok(s.(args := SetSingle(s.args, Target, value)))
  {
    var t := StandardTables();
    var token := "--target=" + value;
    assert token == "--" + ("target=" + value) == "--" + "target" + "=" + value;
    assert ("target=" + value)[0] == 't';
    LongFlagMiss("target=" + value);
    MatchArgInline(t, true, "target", value);
    ClassifyInline(t, [token], t.longArgs["target"], value);
    RunOne(t, s, token, SlotFilled(t.longArgs["target"], value));
  }

  /** `-target <v>` sets it through the short name. */
  lemma TargetNextExample(s: ParseState, value: string)
    ensures Run(StandardTables(), s, ["-target", value]) ==
              Ok(s.(args := SetSingle(s.args, Target, value)))
  {
    BareLast(s, "target", value, "-target");
  }

  /** `--coverage` turns coverage on. */
  lemma CoverageExample(s: ParseState)
    ensures Run(StandardTables(), s, ["--coverage"]) == Ok(s.(args := SetFlag(s.args, Coverage, true)))
  {
    var t := StandardTables();
    assert "coverage"[0] != "no-"[0];
    assert "--coverage" == "--" + "coverage";
    FlagMatchLong(t, "coverage");
    RunOne(t, s, "--coverage", FlagSet(Coverage, true));
  }

  /** `--profile` turns profiling on. */
  lemma ProfileExample(s: ParseState)
    ensures Run(StandardTables(), s, ["--profile"]) == Ok(s.(args := SetFlag(s.args, Profile, true)))
  {
    ProfileByLongName();
    RunOne(StandardTables(), s, "--profile", FlagSet(Profile, true));
  }

  /** A name no declaration knows, with one dash or two, is kept verbatim
      in the unknown list, in order. */
  lemma UnknownExample(s: ParseState, name: string)
    requires name != [] && name[0] == 'a' && '=' !in name
    ensures Run(StandardTables(), s, ["-" + name, "--" + name]) ==
              Ok(s.(unknownArgs := s.unknownArgs + ["-" + name, "--" + name]))
  {
    UnknownShort(name);
    UnknownLong(name);
    RunTwoUnknown(StandardTables(), s, "-" + name, "--" + name);
  }

  /** `-pg` is declared with its dash as the short name `"-pg"`, so the
      token `-pg` strips to `pg` and matches nothing. */
  lemma PgMatchesNothing()
    ensures Classify(StandardTables(), ["-pg"]) == Ok((Unknown("-pg"), 1))
  {
    var t := StandardTables();
    assert "-pg" == "-" + "pg";
    assert "pg" !in t.shortFlags && "pg" !in t.shortArgs;
    assert !("no-" <= "pg");
    FlagMatchShort(t, "pg");
    MatchArgNoPrefix(t, "pg");
  }

  /** So the token `-pg` never sets profiling: it is kept as unknown. */
  lemma PgIsUnknown(s: ParseState)
    ensures Run(StandardTables(), s, ["-pg"]) == Ok(s.(unknownArgs := s.unknownArgs + ["-pg"]))
  {
    PgMatchesNothing();
    RunOne(StandardTables(), s, "-pg", Unknown("-pg"));
  }

  /** `-x <v>` sets the language. */
  lemma LanguageExample(s: ParseState, value: string)
    ensures Run(StandardTables(), s, ["-x", value]) == Ok(s.(args := SetSingle(s.args, Language, value)))
  {
    BareLast(s, "x", value, "-x");
  }

  /** `-x<v>` does the same: `-xc++` sets `c++`. */
  lemma LanguageInlineExample(s: ParseState, value: string)
    requires value != [] && '=' !in value
    ensures Run(StandardTables(), s, ["-x" + value]) == Ok(s.(args := SetSingle(s.args, Language, value)))
  {
    LetterLast(s, "x", value, "-x" + value);
  }

  /** Tokens without a dash are the objects and sources, in order. */
  lemma UnprefixedExample(s: ParseState)
    ensures Run(StandardTables(), s, ["foo.c", "bar.o", "baz.a"]) ==
              Ok(s.(args := s.args.(objectsAndSources := s.args.objectsAndSources + ["foo.c", "bar.o", "baz.a"])))
  {
    RunWithoutDashes(StandardTables(), s, ["foo.c", "bar.o", "baz.a"]);
  }

  /** `Wl,<a>` is not a declared short argument name. */
  lemma WlKeyUndeclared(a: string)
    ensures "Wl," + a !in StandardTables().shortArgs
  {
    var key := "Wl," + a;
    assert key[0] == 'W' && key[1] == 'l' && key[2] == ',';
  }

  /** `-Wl,<a>=<b>` is an unknown argument: the name before `=` is `Wl,<a>`. */
  lemma WlInlineUnknown(a: string, b: string)
    requires '=' !in a
    ensures Classify(StandardTables(), ["-Wl," + a + "=" + b]) == Ok((Unknown("-Wl," + a + "=" + b), 1))
  {
    var t := StandardTables();
    var key := "Wl," + a;
    var token := "-Wl," + a + "=" + b;
    assert token == "-" + (key + "=" + b) == "-" + key + "=" + b;
    assert key[0] == 'W' && key[2] == ',' && '=' !in key;
    ShortFlagMiss(key + "=" + b);
    MatchArgInline(t, false, key, b);
    WlKeyUndeclared(a);
  }

  /** `key=val` never falls back to a prefix match: `-Wl,<a>=<b>` (as in
      `-Wl,--version-script=foo.map`) looks up the key `Wl,<a>`, finds
      nothing, and the whole token goes to the unknown list. */
  lemma WlWithEqualsIsUnknown(s: ParseState, a: string, b: string)
    requires '=' !in a
    ensures Run(StandardTables(), s, ["-Wl," + a + "=" + b]) ==
              Ok(s.(unknownArgs := s.unknownArgs + ["-Wl," + a + "=" + b]))
  {
    WlInlineUnknown(a, b);
    RunOne(StandardTables(), s, "-Wl," + a + "=" + b, Unknown("-Wl," + a + "=" + b));
  }
}
