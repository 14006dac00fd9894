/** The declarative command-line parser of the compiler-driver proxy
    (libwild-proxy/src/arg_parser.rs): builders register flags and value
    arguments into four name tables, and `parse` walks the driver's tokens
    once, routing each to a flag, an argument slot, the unknown list or the
    list of objects and sources. */
module ArgParser {
  import opened Wrappers
  import opened Text

  // ----- The parsed arguments -------------------------------------------

  /** The boolean fields of `Args` a flag can be bound to. */
  datatype FlagField =
    | Pthread | Pie | Shared | StaticExe | StaticPie
    | NoDefaultLibs | NoStartFiles | NoStdLib | Coverage | Profile

  /** The `Option` fields of `Args` a `Value::Single` argument writes. */
  datatype SingleField = Sysroot | Target | Language

  /** The `Vec` fields of `Args` a `Value::Multi` argument appends to. */
  datatype MultiField = Scripts | LinkerArgs | AdditionalLibs | AdditionalSearchPaths | CompilerBArgs

  /** What an argument's binding hands back: `Value::Single` or `Value::Multi`. */
  datatype ArgField = Single(single: SingleField) | Multi(multi: MultiField)

  /** `Args`: everything the parser extracts from the command line. */
  datatype Args = Args(
    pthread: bool,
    sysroot: Option<string>,
    scripts: seq<string>,
    pie: bool,
    shared: bool,
    staticExe: bool,
    staticPie: bool,
    linkerArgs: seq<string>,
    additionalLibs: seq<string>,
    additionalSearchPaths: seq<string>,
    compilerBArgs: seq<string>,
    nodefaultlibs: bool,
    nostartfiles: bool,
    nostdlib: bool,
    coverage: bool,
    profile: bool,
    target: Option<string>,
    language: Option<string>,
    objectsAndSources: seq<string>)

  function GetFlag(a: Args, f: FlagField): bool
  {
    match f
    case Pthread => a.pthread
    case Pie => a.pie
    case Shared => a.shared
    case StaticExe => a.staticExe
    case StaticPie => a.staticPie
    case NoDefaultLibs => a.nodefaultlibs
    case NoStartFiles => a.nostartfiles
    case NoStdLib => a.nostdlib
    case Coverage => a.coverage
    case Profile => a.profile
  }

  function GetSingle(a: Args, f: SingleField): Option<string>
  {
    match f
    case Sysroot => a.sysroot
    case Target => a.target
    case Language => a.language
  }

  function GetMulti(a: Args, f: MultiField): seq<string>
  {
    match f
    case Scripts => a.scripts
    case LinkerArgs => a.linkerArgs
    case AdditionalLibs => a.additionalLibs
    case AdditionalSearchPaths => a.additionalSearchPaths
    case CompilerBArgs => a.compilerBArgs
  }

  /** All ten flags, in declaration order. */
  function FlagValues(a: Args): (bool, bool, bool, bool, bool, bool, bool, bool, bool, bool)
  {
    (a.pthread, a.pie, a.shared, a.staticExe, a.staticPie,
     a.nodefaultlibs, a.nostartfiles, a.nostdlib, a.coverage, a.profile)
  }

  function SingleValues(a: Args): (Option<string>, Option<string>, Option<string>)
  {
    (a.sysroot, a.target, a.language)
  }

  function MultiValues(a: Args): (seq<string>, seq<string>, seq<string>, seq<string>, seq<string>)
  {
    (a.scripts, a.linkerArgs, a.additionalLibs, a.additionalSearchPaths, a.compilerBArgs)
  }

  /** `impl Default for Args`: `pie` is on, everything else off or empty. */
  function DefaultArgs(): (a: Args)
    ensures a.pie
    ensures forall f: FlagField | f != Pie :: !GetFlag(a, f)
    ensures forall f: SingleField :: GetSingle(a, f) == None
    ensures forall f: MultiField :: GetMulti(a, f) == []
    ensures a.objectsAndSources == []
  {
    Args(false, None, [], true, false, false, false, [], [], [], [],
         false, false, false, false, false, None, None, [])
  }

  /** `*(flag.args_field)(&mut self.args) = value`. */
  function SetFlag(a: Args, f: FlagField, value: bool): (r: Args)
    ensures GetFlag(r, f) == value
    ensures SingleValues(r) == SingleValues(a) && MultiValues(r) == MultiValues(a)
    ensures r.objectsAndSources == a.objectsAndSources
  {
    match f
    case Pthread => a.(pthread := value)
    case Pie => a.(pie := value)
    case Shared => a.(shared := value)
    case StaticExe => a.(staticExe := value)
    case StaticPie => a.(staticPie := value)
    case NoDefaultLibs => a.(nodefaultlibs := value)
    case NoStartFiles => a.(nostartfiles := value)
    case NoStdLib => a.(nostdlib := value)
    case Coverage => a.(coverage := value)
    case Profile => a.(profile := value)
  }

  /** Setting one flag leaves every other flag as it was. */
  lemma SetFlagKeepsOthers(a: Args, f: FlagField, value: bool, g: FlagField)
    requires g != f
    ensures GetFlag(SetFlag(a, f, value), g) == GetFlag(a, g)
  {
  }

  /** `single_value.replace(value)`. */
  function SetSingle(a: Args, f: SingleField, value: string): (r: Args)
    ensures GetSingle(r, f) == Some(value)
    ensures forall g: SingleField | g != f :: GetSingle(r, g) == GetSingle(a, g)
    ensures FlagValues(r) == FlagValues(a) && MultiValues(r) == MultiValues(a)
    ensures r.objectsAndSources == a.objectsAndSources
  {
    match f
    case Sysroot => a.(sysroot := Some(value))
    case Target => a.(target := Some(value))
    case Language => a.(language := Some(value))
  }

  /** `multi_value.extend(values)`. */
  function Extend(a: Args, f: MultiField, values: seq<string>): (r: Args)
    ensures GetMulti(r, f) == GetMulti(a, f) + values
    ensures forall g: MultiField | g != f :: GetMulti(r, g) == GetMulti(a, g)
    ensures FlagValues(r) == FlagValues(a) && SingleValues(r) == SingleValues(a)
    ensures r.objectsAndSources == a.objectsAndSources
  {
    match f
    case Scripts => a.(scripts := a.scripts + values)
    case LinkerArgs => a.(linkerArgs := a.linkerArgs + values)
    case AdditionalLibs => a.(additionalLibs := a.additionalLibs + values)
    case AdditionalSearchPaths => a.(additionalSearchPaths := a.additionalSearchPaths + values)
    case CompilerBArgs => a.(compilerBArgs := a.compilerBArgs + values)
  }

  /** Two appends to one slot are one append of both. */
  lemma ExtendTwice(a: Args, f: MultiField, p: seq<string>, q: seq<string>)
    ensures Extend(Extend(a, f, p), f, q) == Extend(a, f, p + q)
  {
    assert GetMulti(a, f) + p + q == GetMulti(a, f) + (p + q);
  }

  // ----- Declarations -----------------------------------------------------

  /** A declared flag: the field it sets and whether `no-` may clear it. */
  datatype Flag = Flag(field: FlagField, supportsNegation: bool)

  /** A declared value argument: its slot and the separator that splits a
      value into several entries of a `Multi` slot. */
  datatype Arg = Arg(field: ArgField, separator: Option<char>)

  /** The entries one value adds to a `Multi` slot: the non-empty pieces
      between separators, or the whole value when there is no separator. */
  function Pieces(arg: Arg, value: string): seq<string>
  {
    match arg.separator
    case Some(c) => NonEmpty(Split(value, c))
    case None => [value]
  }

  /** Writing `value` through an argument's binding: a `Single` slot is
      replaced, a `Multi` slot gets the pieces appended. */
  function Write(a: Args, arg: Arg, value: string): (r: Args)
    ensures arg.field.Single? ==> GetSingle(r, arg.field.single) == Some(value)
    ensures arg.field.Multi? ==>
              GetMulti(r, arg.field.multi) == GetMulti(a, arg.field.multi) + Pieces(arg, value)
    ensures forall g: SingleField | arg.field != Single(g) :: GetSingle(r, g) == GetSingle(a, g)
    ensures forall g: MultiField | arg.field != Multi(g) :: GetMulti(r, g) == GetMulti(a, g)
    ensures FlagValues(r) == FlagValues(a) && r.objectsAndSources == a.objectsAndSources
  {
    match arg.field
    case Single(f) => SetSingle(a, f, value)
    case Multi(f) => Extend(a, f, Pieces(arg, value))
  }

  /** With a separator, the appended entries are non-empty, separator-free,
      and together hold exactly the value's text without its separators. */
  lemma PiecesKeepText(arg: Arg, value: string)
    requires arg.separator.Some?
    ensures forall i | 0 <= i < |Pieces(arg, value)| ::
              Pieces(arg, value)[i] != [] && arg.separator.value !in Pieces(arg, value)[i]
    ensures Concat(Pieces(arg, value)) == Without(value, arg.separator.value)
  {
    var c := arg.separator.value;
    SplitNonEmptyKeepsText(value, c);
    forall i | 0 <= i < |Pieces(arg, value)| ensures c !in Pieces(arg, value)[i] {
      var p := Pieces(arg, value)[i];
      assert p in Split(value, c);
    }
  }

  /** The four name tables: long/short names of value arguments and flags. */
  datatype Tables = Tables(
    shortArgs: map<string, Arg>,
    longArgs: map<string, Arg>,
    shortFlags: map<string, Flag>,
    longFlags: map<string, Flag>)

  /** `FlagBuilder` without its parser reference. */
  datatype FlagBuilder = FlagBuilder(
    longName: Option<string>,
    shortName: Option<string>,
    supportsNegation: bool,
    field: Option<FlagField>)
  {
    function Short(name: string): FlagBuilder { this.(shortName := Some(name)) }
    function Long(name: string): FlagBuilder { this.(longName := Some(name)) }
    function WithNegation(negation: bool): FlagBuilder { this.(supportsNegation := negation) }
    function Bind(f: FlagField): FlagBuilder { this.(field := Some(f)) }
  }

  /** `ArgBuilder` without its parser reference. */
  datatype ArgBuilder = ArgBuilder(
    longName: Option<string>,
    shortName: Option<string>,
    separator: Option<char>,
    field: Option<ArgField>)
  {
    function Short(name: string): ArgBuilder { this.(shortName := Some(name)) }
    function Long(name: string): ArgBuilder { this.(longName := Some(name)) }
    function WithSeparator(c: char): ArgBuilder { this.(separator := Some(c)) }
    function Bind(f: ArgField): ArgBuilder { this.(field := Some(f)) }
  }

  /** `declare_flag`: no names, no negation, no field. */
  function DeclareFlag(): FlagBuilder
  {
    FlagBuilder(None, None, false, None)
  }

  /** `declare_arg`: no names, no separator, no field. */
  function DeclareArg(): ArgBuilder
  {
    ArgBuilder(None, None, None, None)
  }

  /** The errors of `FlagBuilder::build` and `ArgBuilder::build`. */
  datatype BuildError = FlagUnbound | FlagNameMissing | ArgUnbound | ArgNameMissing

  /** `m` with `v` under `key`, if there is a key. */
  function Insert<V>(m: map<string, V>, key: Option<string>, v: V): map<string, V>
  {
    match key
    case Some(k) => m[k := v]
    case None => m
  }

  // ----- Matching one token -----------------------------------------------

  predicate StartsWithDash(token: string)
  {
    |token| > 0 && token[0] == '-'
  }

  /** The name after `--` (long) or `-` (short); `None` when the token has
      neither prefix. */
  function StripDashes(token: string): (r: Option<(string, bool)>)
    ensures r.None? <==> !StartsWithDash(token)
    ensures r.Some? && r.value.1 ==> token == "--" + r.value.0
    ensures r.Some? && !r.value.1 ==> token == "-" + r.value.0 && !StartsWithDash(r.value.0)
  {
    if |token| >= 2 && token[..2] == "--" then
      assert token == "--" + token[2..];
      Some((token[2..], true))
    else if StartsWithDash(token) then
      assert token == "-" + token[1..];
      Some((token[1..], false))
    else None
  }

  /** The flag name and the value a flag token sets: `no-<name>` clears. */
  function NegatedName(stripped: string): (string, bool)
  {
    if |stripped| >= 3 && stripped[..3] == "no-" then (stripped[3..], false) else (stripped, true)
  }

  /** What `parse_flag` does with a token: the field it sets and the value. */
  function FlagMatch(t: Tables, token: string): (r: Option<(FlagField, bool)>)
    ensures r.Some? ==> StartsWithDash(token)
  {
    match StripDashes(token)
    case None => None
    case Some((stripped, isLong)) =>
      var (name, value) := NegatedName(stripped);
      var flags := if isLong then t.longFlags else t.shortFlags;
      if name in flags && (value || flags[name].supportsNegation) then
        Some((flags[name].field, value))
      else None
  }

  /** The flag forms of a long name: `--name` sets its field, and `--no-name`
      clears it when the flag supports negation; nothing else happens. */
  lemma FlagMatchLong(t: Tables, name: string)
    ensures !("no-" <= name) ==>
              FlagMatch(t, "--" + name) ==
                (if name in t.longFlags then Some((t.longFlags[name].field, true)) else None)
    ensures FlagMatch(t, "--no-" + name) ==
              (if name in t.longFlags && t.longFlags[name].supportsNegation
               then Some((t.longFlags[name].field, false)) else None)
  {
    assert ("--" + name)[..2] == "--" && ("--" + name)[2..] == name;
    var neg := "--no-" + name;
    assert neg[..2] == "--" && neg[2..] == "no-" + name;
    assert ("no-" + name)[..3] == "no-" && ("no-" + name)[3..] == name;
  }

  /** The flag forms of a short name, which cannot begin with `-`. */
  lemma FlagMatchShort(t: Tables, name: string)
    requires !StartsWithDash(name)
    ensures !("no-" <= name) ==>
              FlagMatch(t, "-" + name) ==
                (if name in t.shortFlags then Some((t.shortFlags[name].field, true)) else None)
    ensures FlagMatch(t, "-no-" + name) ==
              (if name in t.shortFlags && t.shortFlags[name].supportsNegation
               then Some((t.shortFlags[name].field, false)) else None)
  {
    assert ("-" + name)[1..] == name;
    var neg := "-no-" + name;
    assert neg[1] == 'n' && neg[1..] == "no-" + name;
    assert ("no-" + name)[..3] == "no-" && ("no-" + name)[3..] == name;
  }

  /** No declared short name is a proper prefix of another one. */
  predicate PrefixFree(keys: set<string>)
  {
    forall a, b | a in keys && b in keys && a <= b :: a == b
  }

  /** Under `PrefixFree`, at most one declared name is a prefix of a token. */
  lemma PrefixUnique(keys: set<string>, s: string, k1: string, k2: string)
    requires PrefixFree(keys)
    requires k1 in keys && k2 in keys && k1 <= s && k2 <= s
    ensures k1 == k2
  {
    if |k1| <= |k2| {
      assert k1 <= k2;
    }
  }

  /** How a token matches a value argument. */
  datatype ArgMatch =
    | NoArg
    | Inline(arg: Arg, value: string)
    | NeedsNext(arg: Arg)

  /** What `parse_arg` does with a token: `key=val` looks `key` up exactly;
      a bare name takes the next token; a short token that is neither falls
      back to some declared short name it starts with (the first the hash
      map yields), the rest of the token being the value. */
  ghost function MatchArg(t: Tables, token: string): (r: ArgMatch)
    ensures r != NoArg ==> StartsWithDash(token)
  {
    match StripDashes(token)
    case None => NoArg
    case Some((stripped, isLong)) =>
      var args := if isLong then t.longArgs else t.shortArgs;
      match SplitOnce(stripped, '=')
      case Some((key, value)) =>
        if key in args then Inline(args[key], value) else NoArg
      case None =>
        if stripped in args then NeedsNext(args[stripped])
        else if !isLong && exists key :: key in args && key <= stripped then
          var key :| key in args && key <= stripped;
          Inline(args[key], stripped[|key|..])
        else NoArg
  }

  /** `--key=value` and `-key=value` look `key` up exactly, and the token is
      no argument at all when `key` is not declared. */
  lemma MatchArgInline(t: Tables, isLong: bool, key: string, value: string)
    requires '=' !in key
    requires !isLong ==> !StartsWithDash(key)
    ensures var args := if isLong then t.longArgs else t.shortArgs;
            MatchArg(t, (if isLong then "--" else "-") + key + "=" + value) ==
              (if key in args then Inline(args[key], value) else NoArg)
  {
    var stripped := key + "=" + value;
    var token := (if isLong then "--" else "-") + key + "=" + value;
    assert token == (if isLong then "--" else "-") + stripped;
    if isLong {
      assert token[..2] == "--" && token[2..] == stripped;
    } else {
      assert token[1..] == stripped;
      assert key != [] ==> stripped[0] == key[0];
    }
    assert stripped == key + ['='] + value;
    SplitOnceOfJoin(key, '=', value);
  }

  /** A bare declared name takes the next token as its value; a bare long
      name that is not declared is no argument. */
  lemma MatchArgBare(t: Tables, isLong: bool, name: string)
    requires '=' !in name
    requires !isLong ==> !StartsWithDash(name)
    ensures var args := if isLong then t.longArgs else t.shortArgs;
            name in args ==> MatchArg(t, (if isLong then "--" else "-") + name) == NeedsNext(args[name])
    ensures isLong && name !in t.longArgs ==> MatchArg(t, "--" + name) == NoArg
  {
    var token := (if isLong then "--" else "-") + name;
    if isLong {
      assert token[..2] == "--" && token[2..] == name;
    } else {
      assert token[1..] == name;
    }
  }

  /** A short token with no `=` that is not itself a declared name takes its
      value from after the declared name it starts with (unique when the
      names are prefix-free), and is no argument when there is none. */
  lemma MatchArgPrefix(t: Tables, key: string, rest: string)
    requires PrefixFree(t.shortArgs.Keys)
    requires key in t.shortArgs && !StartsWithDash(key + rest)
    requires '=' !in key + rest && key + rest !in t.shortArgs
    ensures MatchArg(t, "-" + key + rest) == Inline(t.shortArgs[key], rest)
  {
    var stripped := key + rest;
    var token := "-" + key + rest;
    assert token == "-" + stripped && token[1..] == stripped;
    assert key <= stripped;
    var k :| k in t.shortArgs && k <= stripped && MatchArg(t, token) == Inline(t.shortArgs[k], stripped[|k|..]);
    PrefixUnique(t.shortArgs.Keys, stripped, k, key);
  }

  lemma MatchArgNoPrefix(t: Tables, name: string)
    requires !StartsWithDash(name) && '=' !in name && name !in t.shortArgs
    requires forall key | key in t.shortArgs :: !(key <= name)
    ensures MatchArg(t, "-" + name) == NoArg
  {
    assert ("-" + name)[1..] == name;
  }

  // ----- Where each token lands -------------------------------------------

  /** The one place a token (or a name and the token after it) lands. */
  datatype Landing =
    | FlagSet(field: FlagField, on: bool)
    | SlotFilled(arg: Arg, value: string)
    | Unknown(token: string)
    | Free(token: string)

  /** The panic of `args_iter.next().unwrap()` when a bare name ends the
      command line. */
  datatype ParseError = MissingValue(option: string)

  /** One iteration of `parse`: try a flag, then a value argument, then the
      unknown list, else an object or source. Returns the landing and how many
      tokens it consumed. */
  ghost function Classify(t: Tables, tokens: seq<string>): (r: Result<(Landing, nat), ParseError>)
    requires tokens != []
    ensures r.Ok? ==> 1 <= r.value.1 <= |tokens|
    ensures r.Ok? && r.value.1 == 2 ==> r.value.0.SlotFilled? && r.value.0.value == tokens[1]
    ensures r.Ok? ==> (r.value.0.Free? <==> !StartsWithDash(tokens[0]))
    ensures r.Ok? && (r.value.0.Free? || r.value.0.Unknown?) ==> r.value.0.token == tokens[0]
    ensures r.Err? <==> |tokens| == 1 && MatchArg(t, tokens[0]).NeedsNext? && FlagMatch(t, tokens[0]).None?
    ensures r.Err? ==> r.error == MissingValue(tokens[0])
  {
    var token := tokens[0];
    match FlagMatch(t, token)
    case Some((f, on)) => Ok((FlagSet(f, on), 1))
    case None =>
      match MatchArg(t, token)
      case Inline(arg, value) => Ok((SlotFilled(arg, value), 1))
      case NeedsNext(arg) =>
        if |tokens| < 2 then Err(MissingValue(token)) else Ok((SlotFilled(arg, tokens[1]), 2))
      case NoArg =>
        if StartsWithDash(token) then Ok((Unknown(token), 1)) else Ok((Free(token), 1))
  }

  /** A landing together with the tokens it consumed. */
  datatype Landed = Landed(landing: Landing, tokens: seq<string>)

  predicate WellLanded(l: Landed)
  {
    && 1 <= |l.tokens| <= 2
    && (|l.tokens| == 2 ==> l.landing.SlotFilled? && l.landing.value == l.tokens[1])
    && (l.landing.Free? <==> !StartsWithDash(l.tokens[0]))
    && (l.landing.Free? || l.landing.Unknown? ==> l.landing.token == l.tokens[0])
  }

  function Flatten(ls: seq<Landed>): seq<string>
  {
    if ls == [] then [] else ls[0].tokens + Flatten(ls[1..])
  }

  /** The landings of a whole command line, in order, each with the tokens
      it consumed. */
  ghost function Landings(t: Tables, tokens: seq<string>): (r: Result<seq<Landed>, ParseError>)
    ensures r.Ok? ==> forall i | 0 <= i < |r.value| :: WellLanded(r.value[i])
    decreases |tokens|
  {
    if tokens == [] then Ok([])
    else
      var c :- Classify(t, tokens);
      var rest :- Landings(t, tokens[c.1..]);
      Ok([Landed(c.0, tokens[..c.1])] + rest)
  }

  /** Every token lands in exactly one place: the consumed groups,
      concatenated in order, are the command line. */
  lemma {:induction false} LandingsCover(t: Tables, tokens: seq<string>)
    requires Landings(t, tokens).Ok?
    ensures Flatten(Landings(t, tokens).value) == tokens
    decreases |tokens|
  {
    if tokens != [] {
      var c := Classify(t, tokens).value;
      var ls := Landings(t, tokens).value;
      LandingsCover(t, tokens[c.1..]);
      assert ls[1..] == Landings(t, tokens[c.1..]).value;
      assert tokens == tokens[..c.1] + tokens[c.1..];
    }
  }

  /** The parser's mutable output: the arguments and the unknown tokens. */
  datatype ParseState = ParseState(args: Args, unknownArgs: seq<string>)

  /** The effect of one landing on the state. */
  function Apply(s: ParseState, l: Landing): ParseState
  {
    match l
    case FlagSet(f, on) => s.(args := SetFlag(s.args, f, on))
    case SlotFilled(arg, value) => s.(args := Write(s.args, arg, value))
    case Unknown(token) => s.(unknownArgs := s.unknownArgs + [token])
    case Free(token) => s.(args := s.args.(objectsAndSources := s.args.objectsAndSources + [token]))
  }

  function FreeTokens(ls: seq<Landed>): (r: seq<string>)
    requires forall i | 0 <= i < |ls| :: WellLanded(ls[i])
    ensures forall i | 0 <= i < |r| :: !StartsWithDash(r[i])
  {
    if ls == [] then []
    else
      assert WellLanded(ls[0]);
      var head := if ls[0].landing.Free? then [ls[0].landing.token] else [];
      var tail := FreeTokens(ls[1..]);
      assert forall i | |head| <= i < |head + tail| :: (head + tail)[i] == tail[i - |head|];
      head + tail
  }

  function UnknownTokens(ls: seq<Landed>): (r: seq<string>)
    requires forall i | 0 <= i < |ls| :: WellLanded(ls[i])
    ensures forall i | 0 <= i < |r| :: StartsWithDash(r[i])
  {
    if ls == [] then []
    else
      assert WellLanded(ls[0]);
      var head := if ls[0].landing.Unknown? then [ls[0].landing.token] else [];
      var tail := UnknownTokens(ls[1..]);
      assert forall i | |head| <= i < |head + tail| :: (head + tail)[i] == tail[i - |head|];
      head + tail
  }

  /** Applying landings in order: free tokens are appended to the objects
      and sources and unknown ones to the unknown list, in input order, and
      no `Multi` slot ever loses an entry. */
  function ApplyAll(s: ParseState, ls: seq<Landed>): (r: ParseState)
    requires forall i | 0 <= i < |ls| :: WellLanded(ls[i])
    ensures r.args.objectsAndSources == s.args.objectsAndSources + FreeTokens(ls)
    ensures r.unknownArgs == s.unknownArgs + UnknownTokens(ls)
    ensures forall f: MultiField :: GetMulti(s.args, f) <= GetMulti(r.args, f)
    decreases |ls|
  {
    if ls == [] then s
    else
      var l := ls[0].landing;
      ApplyGrows(s, l);
      var r := ApplyAll(Apply(s, l), ls[1..]);
      Assoc(s.args.objectsAndSources, if l.Free? then [l.token] else [], FreeTokens(ls[1..]));
      Assoc(s.unknownArgs, if l.Unknown? then [l.token] else [], UnknownTokens(ls[1..]));
      r
  }

  /** One landing adds its token to at most one of the two token lists and
      only ever appends to `Multi` slots. */
  lemma ApplyGrows(s: ParseState, l: Landing)
    ensures Apply(s, l).args.objectsAndSources ==
              s.args.objectsAndSources + (if l.Free? then [l.token] else [])
    ensures Apply(s, l).unknownArgs == s.unknownArgs + (if l.Unknown? then [l.token] else [])
    ensures forall f: MultiField :: GetMulti(s.args, f) <= GetMulti(Apply(s, l).args, f)
  {
    forall f: MultiField ensures GetMulti(s.args, f) <= GetMulti(Apply(s, l).args, f) {
      if l.SlotFilled? && l.arg.field == Multi(f) {
        assert GetMulti(Apply(s, l).args, f) == GetMulti(s.args, f) + Pieces(l.arg, l.value);
      }
    }
  }

  /** `parse`: the state after a whole command line, or the panic. */
  ghost function Run(t: Tables, s: ParseState, tokens: seq<string>): Result<ParseState, ParseError>
  {
    var ls :- Landings(t, tokens);
    Ok(ApplyAll(s, ls))
  }

  /** Unfolding `Run` by one iteration of the loop. */
  lemma RunStep(t: Tables, s: ParseState, tokens: seq<string>, l: Landing, n: nat)
    requires tokens != [] && Classify(t, tokens) == Ok((l, n))
    ensures Run(t, s, tokens) == Run(t, Apply(s, l), tokens[n..])
  {
    match Landings(t, tokens[n..])
    case Err(_) =>
    case Ok(rest) =>
      var ls := Landings(t, tokens).value;
      assert ls == [Landed(l, tokens[..n])] + rest;
      assert ls[1..] == rest;
  }

  /** A bare name at the end of the command line ends the run in error. */
  lemma RunStepMissing(t: Tables, s: ParseState, tokens: seq<string>)
    requires tokens != [] && Classify(t, tokens).Err?
    ensures Run(t, s, tokens) == Err(Classify(t, tokens).error)
  {
  }

  /** A token that does not begin with `-` is an object or source. */
  lemma ClassifyWithoutDash(t: Tables, tokens: seq<string>)
    requires tokens != [] && !StartsWithDash(tokens[0])
    ensures Classify(t, tokens) == Ok((Free(tokens[0]), 1))
  {
  }

  /** A command line without a single `-` token is appended, as it is, to the
      objects and sources; nothing else changes. */
  lemma {:induction false} RunWithoutDashes(t: Tables, s: ParseState, tokens: seq<string>)
    requires forall i | 0 <= i < |tokens| :: !StartsWithDash(tokens[i])
    ensures Run(t, s, tokens) ==
              Ok(s.(args := s.args.(objectsAndSources := s.args.objectsAndSources + tokens)))
    decreases |tokens|
  {
    if tokens != [] {
      ClassifyWithoutDash(t, tokens);
      RunStep(t, s, tokens, Free(tokens[0]), 1);
      var next := Apply(s, Free(tokens[0]));
      RunWithoutDashes(t, next, tokens[1..]);
      assert next.args.objectsAndSources + tokens[1..] == s.args.objectsAndSources + tokens;
    }
  }

  /** Parsing only adds: the unknown list, the objects and sources and every
      `Multi` slot of the result extend those of the state it started from,
      so repeated `parse` calls accumulate. */
  lemma RunExtends(t: Tables, s: ParseState, tokens: seq<string>)
    requires Run(t, s, tokens).Ok?
    ensures s.unknownArgs <= Run(t, s, tokens).value.unknownArgs
    ensures s.args.objectsAndSources <= Run(t, s, tokens).value.args.objectsAndSources
    ensures forall f: MultiField :: GetMulti(s.args, f) <= GetMulti(Run(t, s, tokens).value.args, f)
  {
  }

  // ----- The proxy's declarations ----------------------------------------

  /** The tables `setup_parser` declares, in declaration order. */
  function StandardTables(): Tables
  {
    Tables(
      map[]["x" := Arg(Single(Language), None)]
           ["B" := Arg(Multi(CompilerBArgs), None)]
           ["l" := Arg(Multi(AdditionalLibs), None)]
           ["L" := Arg(Multi(AdditionalSearchPaths), None)]
           ["target" := Arg(Single(Target), None)]
           ["T" := Arg(Multi(Scripts), None)]
           ["Wl" := Arg(Multi(LinkerArgs), Some(','))]
           ["Xlinker" := Arg(Multi(LinkerArgs), None)],
      map[]["target" := Arg(Single(Target), None)]
           ["sysroot" := Arg(Single(Sysroot), None)],
      map[]["pie" := Flag(Pie, true)]
           ["shared" := Flag(Shared, false)]
           ["static" := Flag(StaticExe, false)]
           ["static-pie" := Flag(StaticPie, false)]
           ["pthread" := Flag(Pthread, true)]
           ["nodefaultlibs" := Flag(NoDefaultLibs, false)]
           ["coverage" := Flag(Coverage, false)]
           ["-pg" := Flag(Profile, false)],
      map[]["shared" := Flag(Shared, false)]
           ["static" := Flag(StaticExe, false)]
           ["pthread" := Flag(Pthread, true)]
           ["nostartfiles" := Flag(NoStartFiles, false)]
           ["nostdlib" := Flag(NoStdLib, false)]
           ["coverage" := Flag(Coverage, false)]
           ["profile" := Flag(Profile, false)])
  }

  /** No declared short argument name is a prefix of another (x, B, l, L,
      target, T, Wl, Xlinker), so the prefix fallback is deterministic. */
  lemma StandardTablesPrefixFree()
    ensures PrefixFree(StandardTables().shortArgs.Keys)
  {
    var keys := StandardTables().shortArgs.Keys;
    assert keys == {"x", "B", "l", "L", "target", "T", "Wl", "Xlinker"};
    forall a, b | a in keys && b in keys && a <= b ensures a == b {
      assert a[0] == b[0];
    }
  }

  /** `profile` is reached only by `--profile`: its short name `-pg` could
      only be reached by a short token whose name begins with `-`, which is
      a long token, and the flag does not support negation. */
  lemma ProfileOnlyByLongName(token: string, on: bool)
    ensures FlagMatch(StandardTables(), token) == Some((Profile, on)) <==> token == "--profile" && on
  {
    if token == "--profile" && on {
      ProfileByLongName();
    }
    if FlagMatch(StandardTables(), token) == Some((Profile, on)) {
      ProfileOnlyLong(token, on);
    }
  }

  lemma ProfileByLongName()
    ensures FlagMatch(StandardTables(), "--profile") == Some((Profile, true))
  {
    var t := StandardTables();
    assert "--profile" == "--" + "profile";
    assert "profile" in t.longFlags && t.longFlags["profile"] == Flag(Profile, false);
    assert "profile"[0] != "no-"[0];
    FlagMatchLong(t, "profile");
  }

  lemma ProfileOnlyLong(token: string, on: bool)
    requires FlagMatch(StandardTables(), token) == Some((Profile, on))
    ensures token == "--profile" && on
  {
    var t := StandardTables();
    var (stripped, isLong) := StripDashes(token).value;
    var (name, value) := NegatedName(stripped);
    var flags := if isLong then t.longFlags else t.shortFlags;
    assert name in flags && flags[name].field == Profile && !flags[name].supportsNegation;
    assert value && name == stripped && on;
    if isLong {
      assert name == "profile";
      assert token == "--" + "profile";
    } else {
      assert false;
    }
  }

  // ----- The parser object ------------------------------------------------

  /** What `parse_arg` reports: no match, filled (possibly with the next
      token), or a bare name with no token after it. */
  datatype ArgStep = NoMatch | Filled(usedNext: bool) | NextMissing

  class ArgParser {
    var args: Args
    /** Declared by the source and never read or written. */
    var unprefixedArgs: seq<string>
    var shortArgs: map<string, Arg>
    var longArgs: map<string, Arg>
    var shortFlags: map<string, Flag>
    var longFlags: map<string, Flag>
    var unknownArgs: seq<string>

    function DeclaredTables(): Tables
      reads this
    {
      Tables(shortArgs, longArgs, shortFlags, longFlags)
    }

    function State(): ParseState
      reads this
    {
      ParseState(args, unknownArgs)
    }

    /** `ArgParser::default()`. */
    constructor ()
      ensures args == DefaultArgs() && unprefixedArgs == [] && unknownArgs == []
      ensures DeclaredTables() == Tables(map[], map[], map[], map[])
    {
      args := DefaultArgs();
      unprefixedArgs := [];
      shortArgs, longArgs := map[], map[];
      shortFlags, longFlags := map[], map[];
      unknownArgs := [];
    }

    /** `FlagBuilder::build`: a bound field and at least one name are needed;
        on success the flag is entered under each name it has. */
    method BuildFlag(b: FlagBuilder) returns (r: Outcome<BuildError>)
      modifies this`shortFlags, this`longFlags
      ensures b.field.None? ==> r == Fail(FlagUnbound)
      ensures b.field.Some? && b.longName.None? && b.shortName.None? ==> r == Fail(FlagNameMissing)
      ensures r.Pass? <==> b.field.Some? && (b.longName.Some? || b.shortName.Some?)
      ensures r.Fail? ==> shortFlags == old(shortFlags) && longFlags == old(longFlags)
      ensures r.Pass? ==>
                && longFlags == Insert(old(longFlags), b.longName, Flag(b.field.value, b.supportsNegation))
                && shortFlags == Insert(old(shortFlags), b.shortName, Flag(b.field.value, b.supportsNegation))
    {
      if b.field.None? {
        return Fail(FlagUnbound);
      }
      if b.longName.None? && b.shortName.None? {
        return Fail(FlagNameMissing);
      }
      var flag := Flag(b.field.value, b.supportsNegation);
      if b.longName.Some? {
        longFlags := longFlags[b.longName.value := flag];
      }
      if b.shortName.Some? {
        shortFlags := shortFlags[b.shortName.value := flag];
      }
      return Pass;
    }

    /** `ArgBuilder::build`: the same rules for value arguments. */
    method BuildArg(b: ArgBuilder) returns (r: Outcome<BuildError>)
      modifies this`shortArgs, this`longArgs
      ensures b.field.None? ==> r == Fail(ArgUnbound)
      ensures b.field.Some? && b.longName.None? && b.shortName.None? ==> r == Fail(ArgNameMissing)
      ensures r.Pass? <==> b.field.Some? && (b.longName.Some? || b.shortName.Some?)
      ensures r.Fail? ==> shortArgs == old(shortArgs) && longArgs == old(longArgs)
      ensures r.Pass? ==>
                && longArgs == Insert(old(longArgs), b.longName, Arg(b.field.value, b.separator))
                && shortArgs == Insert(old(shortArgs), b.shortName, Arg(b.field.value, b.separator))
    {
      if b.field.None? {
        return Fail(ArgUnbound);
      }
      if b.longName.None? && b.shortName.None? {
        return Fail(ArgNameMissing);
      }
      var arg := Arg(b.field.value, b.separator);
      if b.longName.Some? {
        longArgs := longArgs[b.longName.value := arg];
      }
      if b.shortName.Some? {
        shortArgs := shortArgs[b.shortName.value := arg];
      }
      return Pass;
    }

    /** `parse_flag`: sets a declared flag's field and reports whether it did. */
    method ParseFlag(rawArg: string) returns (matched: bool)
      modifies this`args
      ensures matched <==> FlagMatch(DeclaredTables(), rawArg).Some?
      ensures matched ==>
                args == SetFlag(old(args), FlagMatch(DeclaredTables(), rawArg).value.0,
                                FlagMatch(DeclaredTables(), rawArg).value.1)
      ensures !matched ==> args == old(args)
    {
      var stripped: string, isLong: bool;
      if |rawArg| >= 2 && rawArg[..2] == "--" {
        stripped, isLong := rawArg[2..], true;
      } else if |rawArg| >= 1 && rawArg[0] == '-' {
        stripped, isLong := rawArg[1..], false;
      } else {
        return false;
      }
      var flagName: string, value: bool;
      if |stripped| >= 3 && stripped[..3] == "no-" {
        flagName, value := stripped[3..], false;
      } else {
        flagName, value := stripped, true;
      }
      var flagMap := if isLong then longFlags else shortFlags;
      if flagName in flagMap {
        var flag := flagMap[flagName];
        if value || flag.supportsNegation {
          args := SetFlag(args, flag.field, value);
          return true;
        }
      }
      return false;
    }

    /** `parse_arg`, with the token after `rawArg` (if any) as `next`. With
        prefix-free short names it does exactly what `MatchArg` describes. */
    method ParseArg(rawArg: string, next: Option<string>) returns (r: ArgStep)
      modifies this`args
      ensures r == NoMatch || r == NextMissing ==> args == old(args)
      ensures r == Filled(true) ==> next.Some?
      ensures PrefixFree(shortArgs.Keys) ==>
                match MatchArg(DeclaredTables(), rawArg)
                case NoArg => r == NoMatch
                case Inline(arg, value) => r == Filled(false) && args == Write(old(args), arg, value)
                case NeedsNext(arg) =>
                  if next.None? then r == NextMissing
                  else r == Filled(true) && args == Write(old(args), arg, next.value)
    {
      var stripped: string, isLong: bool;
      if |rawArg| >= 2 && rawArg[..2] == "--" {
        stripped, isLong := rawArg[2..], true;
      } else if |rawArg| >= 1 && rawArg[0] == '-' {
        stripped, isLong := rawArg[1..], false;
      } else {
        return NoMatch;
      }
      var argMap := if isLong then longArgs else shortArgs;
      var arg: Arg, value: string;
      var pair := SplitOnce(stripped, '=');
      if pair.Some? {
        var key := pair.value.0;
        if key !in argMap {
          return NoMatch;
        }
        arg, value, r := argMap[key], pair.value.1, Filled(false);
      } else if stripped in argMap {
        if next.None? {
          return NextMissing;
        }
        arg, value, r := argMap[stripped], next.value, Filled(true);
      } else if !isLong && exists key :: key in argMap && key <= stripped {
        var key :| key in argMap && key <= stripped;
        if PrefixFree(shortArgs.Keys) {
          forall k | k in argMap && k <= stripped ensures k == key {
            PrefixUnique(shortArgs.Keys, stripped, k, key);
          }
        }
        arg, value, r := argMap[key], stripped[|key|..], Filled(false);
      } else {
        return NoMatch;
      }
      args := Write(args, arg, value);
    }

    /** `handle_unknown_arg`: a `-` token that matched nothing is kept. */
    method HandleUnknownArg(arg: string) returns (kept: bool)
      modifies this`unknownArgs
      ensures kept <==> StartsWithDash(arg)
      ensures unknownArgs == if kept then old(unknownArgs) + [arg] else old(unknownArgs)
    {
      if |arg| > 0 && arg[0] == '-' {
        unknownArgs := unknownArgs + [arg];
        return true;
      }
      return false;
    }

    /** `parse`: one pass over the tokens. With prefix-free short names the
        outcome is exactly `Run`; a missing value ends parsing with the error
        the source's `unwrap` panics with. */
    method Parse(tokens: seq<string>) returns (r: Outcome<ParseError>)
      modifies this`args, this`unknownArgs
      ensures PrefixFree(shortArgs.Keys) ==>
                match Run(DeclaredTables(), old(State()), tokens)
                case Ok(s) => r == Pass && State() == s
                case Err(e) => r == Fail(e)
    {
      var i := 0;
      while i < |tokens|
        invariant 0 <= i <= |tokens|
        invariant PrefixFree(shortArgs.Keys) ==>
                    Run(DeclaredTables(), State(), tokens[i..]) == Run(DeclaredTables(), old(State()), tokens)
      {
        ghost var before := State();
        ghost var rest := tokens[i..];
        var arg := tokens[i];
        i := i + 1;
        var isFlag := ParseFlag(arg);
        if !isFlag {
          var next := if i < |tokens| then Some(tokens[i]) else None;
          var step := ParseArg(arg, next);
          if step == NextMissing {
            if PrefixFree(shortArgs.Keys) {
              RunStepMissing(DeclaredTables(), before, rest);
            }
            return Fail(MissingValue(arg));
          } else if step == Filled(true) {
            i := i + 1;
          } else if step == NoMatch {
            var isUnknown := HandleUnknownArg(arg);
            if !isUnknown {
              args := args.(objectsAndSources := args.objectsAndSources + [arg]);
            }
          }
        }
        if PrefixFree(shortArgs.Keys) {
          var c := Classify(DeclaredTables(), rest);
          assert c.Ok? && State() == Apply(before, c.value.0) && tokens[i..] == rest[c.value.1..];
          RunStep(DeclaredTables(), before, rest, c.value.0, c.value.1);
        }
      }
      assert tokens[i..] == [];
      return Pass;
    }

    /** `setup_parser`: the proxy's declarations. Each one binds a field and
        has a name, so every build succeeds and no `?` returns early; the
        parser holds exactly `StandardTables` and the default `Args`. */
    static method SetupParser() returns (parser: ArgParser)
      ensures fresh(parser)
      ensures parser.DeclaredTables() == StandardTables()
      ensures parser.State() == ParseState(DefaultArgs(), [])
    {
      parser := new ArgParser();
      parser.DeclareStandardFlags();
      parser.DeclareStandardArgs();
    }

    /** The flag half of `setup_parser`. */
    method DeclareStandardFlags()
      requires shortFlags == map[] && longFlags == map[]
      modifies this`shortFlags, this`longFlags
      ensures shortFlags == StandardTables().shortFlags && longFlags == StandardTables().longFlags
    {
      var _ := BuildFlag(DeclareFlag().Short("pie").WithNegation(true).Bind(Pie));
      var _ := BuildFlag(DeclareFlag().Long("shared").Short("shared").Bind(Shared));
      var _ := BuildFlag(DeclareFlag().Long("static").Short("static").Bind(StaticExe));
      var _ := BuildFlag(DeclareFlag().Short("static-pie").Bind(StaticPie));
      var _ := BuildFlag(DeclareFlag().Long("pthread").Short("pthread").WithNegation(true).Bind(Pthread));
      var _ := BuildFlag(DeclareFlag().Short("nodefaultlibs").Bind(NoDefaultLibs));
      var _ := BuildFlag(DeclareFlag().Long("nostartfiles").Bind(NoStartFiles));
      var _ := BuildFlag(DeclareFlag().Long("nostdlib").Bind(NoStdLib));
      var _ := BuildFlag(DeclareFlag().Long("coverage").Short("coverage").Bind(Coverage));
      var _ := BuildFlag(DeclareFlag().Long("profile").Short("-pg").Bind(Profile));
    }

    /** The argument half of `setup_parser`. */
    method DeclareStandardArgs()
      requires shortArgs == map[] && longArgs == map[]
      modifies this`shortArgs, this`longArgs
      ensures shortArgs == StandardTables().shortArgs && longArgs == StandardTables().longArgs
    {
      var _ := BuildArg(DeclareArg().Short("x").Bind(Single(Language)));
      var _ := BuildArg(DeclareArg().Short("B").Bind(Multi(CompilerBArgs)));
      var _ := BuildArg(DeclareArg().Short("l").Bind(Multi(AdditionalLibs)));
      var _ := BuildArg(DeclareArg().Short("L").Bind(Multi(AdditionalSearchPaths)));
      var _ := BuildArg(DeclareArg().Short("target").Long("target").Bind(Single(Target)));
      var _ := BuildArg(DeclareArg().Long("sysroot").Bind(Single(Sysroot)));
      var _ := BuildArg(DeclareArg().Short("T").Bind(Multi(Scripts)));
      var _ := BuildArg(DeclareArg().Short("Wl").WithSeparator(',').Bind(Multi(LinkerArgs)));
      var _ := BuildArg(DeclareArg().Short("Xlinker").Bind(Multi(LinkerArgs)));
    }
  }
}
