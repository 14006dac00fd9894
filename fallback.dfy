/** The fallback path's pure core (libwild-proxy/src/lib.rs): recognising the
    compiler the proxy stands in for from its own name, splitting the
    compiler's `-###` dump into build/assemble commands and one link command,
    and choosing which intermediate outputs to delete afterwards. The dump is
    given as its lines; running the compiler and the steps is not modelled. */
module Fallback {
  import opened Wrappers
  import opened Text
  import opened Paths

  // ----- parse_binary_name -------------------------------------------------

  /** The compilers the proxy can stand in for. */
  const CompilerNames: set<string> := {"cc", "c++", "gcc", "g++", "clang", "clang++"}

  datatype BinaryNameError = BadBinaryName(arg: string)

  /** The compiler named by the text after the last `wild-` in the proxy's
      own name (which may be a full path). */
  function ParseBinaryName(arg0: string): (r: Result<string, BinaryNameError>)
    ensures r.Ok? ==> r.value in CompilerNames && EndsWith(arg0, "wild-" + r.value)
    ensures r.Err? ==> r.error == BadBinaryName(arg0)
    ensures (forall q: nat :: !OccursAt(arg0, "wild-", q)) ==> r.Err?
  {
    match LastIndexOf(arg0, "wild-")
    case None => Err(BadBinaryName(arg0))
    case Some(p) =>
      var tail := arg0[p + |"wild-"|..];
      assert arg0[|arg0| - |"wild-" + tail|..] == arg0[p..p + |"wild-"|] + tail;
      if tail in CompilerNames then Ok(tail) else Err(BadBinaryName(arg0))
  }

  /** After `<prefix>wild-<name>`, where `name` has no `w`, the last `wild-`
      is the one in front of `name`. */
  lemma LastWild(prefix: string, name: string)
    requires 'w' !in name
    ensures LastIndexOf(prefix + "wild-" + name, "wild-") == Some(|prefix|)
  {
    var needle := "wild-";
    assert needle[0] !in needle[1..];
    LastOccurrence(prefix, needle, name);
  }

  /** A needle whose first character occurs nowhere after it is last found
      where it was put. */
  lemma LastOccurrence(prefix: string, needle: string, name: string)
    requires needle != [] && needle[0] !in needle[1..] && needle[0] !in name
    ensures LastIndexOf(prefix + needle + name, needle) == Some(|prefix|)
  {
    var s := prefix + needle + name;
    assert s[|prefix|..|prefix| + |needle|] == needle;
    assert OccursAt(s, needle, |prefix|);
    forall q: nat | |prefix| < q < |s| ensures s[q] != needle[0] {
      if q < |prefix| + |needle| {
        assert s[q] == needle[1..][q - |prefix| - 1];
      } else {
        assert s[q] == name[q - |prefix| - |needle|];
      }
    }
    forall q: nat | |prefix| < q ensures !OccursAt(s, needle, q) {
      if q + |needle| <= |s| {
        assert s[q..q + |needle|][0] == s[q];
      }
    }
  }

  /** Every compiler name, after any prefix and `wild-`, is recognised. */
  lemma ParseBinaryNameOf(prefix: string, name: string)
    requires name in CompilerNames
    ensures ParseBinaryName(prefix + "wild-" + name) == Ok(name)
  {
    LastWild(prefix, name);
    var s := prefix + "wild-" + name;
    assert s[|prefix| + 5..] == name;
  }

  /** Any other text after the last `wild-` is refused. */
  lemma ParseBinaryNameRefuses(prefix: string, name: string)
    requires name !in CompilerNames && 'w' !in name
    ensures ParseBinaryName(prefix + "wild-" + name) == Err(BadBinaryName(prefix + "wild-" + name))
  {
    LastWild(prefix, name);
    var s := prefix + "wild-" + name;
    assert s[|prefix| + 5..] == name;
  }

  // ----- The dump ------------------------------------------------------------

  /** The commands found in a dump: the build and assemble steps in order,
      then at most one link command. */
  datatype Commands = Commands(buildAndAssemble: seq<string>, link: Option<string>)

  /** The dump has no non-blank line; the compiler reported an error in its
      dump; or a command's program has no file stem (a panic in the source). */
  datatype DumpError = NoMoreLines | CompilerError(line: string) | NoFileStem(command: string)

  datatype Compiler = Clang | Gcc

  /** The prefix that marks clang: of the dump's first line, and of the
      program of each clang build step. */
  const ClangPrefix: string := "clang"

  /** The stem of the program gcc runs to link. */
  const GccLinker: string := "collect2"

  /** What gcc writes on a line reporting a compiler error. */
  const ErrorMarker: string := "error: "

  /** What clang writes after a step it runs without a new process. */
  const InProcess: string := "(in-process)"

  predicate Indented(line: string)
  {
    line != [] && line[0] == ' '
  }

  /** The program of a command: its text up to the first space. */
  function FirstWord(command: string): (r: string)
    ensures r <= command && ' ' !in r
    ensures |r| < |command| ==> command[|r|] == ' '
  {
    match SplitOnce(command, ' ')
    case None => command
    case Some((a, _)) => a
  }

  /** Whether a command is the link command, judged by the file stem of its
      program; `None` when the program has no file stem. */
  function IsLink(compiler: Compiler, command: string): (r: Option<bool>)
    ensures r.None? <==> FileStem(FirstWord(command)).None?
    ensures compiler == Gcc ==> (r == Some(true) <==> FileStem(FirstWord(command)) == Some(GccLinker))
    ensures compiler == Clang ==>
              (r == Some(true) <==> FileStem(FirstWord(command)).Some? && !(ClangPrefix <= FileStem(FirstWord(command)).value))
  {
    match FileStem(FirstWord(command))
    case None => None
    case Some(stem) =>
      match compiler
      case Clang => Some(!(ClangPrefix <= stem))
      case Gcc => Some(stem == GccLinker)
  }

  /** A clang dump line that holds a command: indented and not ending in
      `(in-process)`. */
  predicate ClangCommandLine(line: string)
  {
    Indented(line) && !EndsWith(line, InProcess)
  }

  /** The trimmed, non-empty command lines of a clang dump, in order. */
  function ClangCandidates(lines: seq<string>): (r: seq<string>)
    ensures |r| <= |lines|
    ensures forall i | 0 <= i < |r| :: r[i] != []
  {
    if lines == [] then []
    else
      var rest := ClangCandidates(lines[1..]);
      if ClangCommandLine(lines[0]) && Trim(lines[0]) != [] then [Trim(lines[0])] + rest else rest
  }

  /** The filter works line by line: the candidates of two runs of lines are
      the candidates of each, in order. */
  lemma {:induction false} ClangCandidatesAppend(a: seq<string>, b: seq<string>)
    ensures ClangCandidates(a + b) == ClangCandidates(a) + ClangCandidates(b)
  {
    if a == [] {
      assert a + b == b;
    } else {
      assert (a + b)[0] == a[0];
      assert (a + b)[1..] == a[1..] + b;
      ClangCandidatesAppend(a[1..], b);
    }
  }

  /** One line is a candidate exactly when it is a command line whose
      trimmed text is not empty. */
  lemma ClangCandidatesOne(line: string)
    ensures ClangCandidates([line]) == if ClangCommandLine(line) && !AllWhitespace(line) then [Trim(line)] else []
  {
    assert [line][1..] == [];
  }

  /** A gcc dump line reporting a compiler error: not indented, containing
      `error: `. */
  predicate GccErrorLine(line: string)
  {
    !Indented(line) && Contains(line, ErrorMarker)
  }

  /** The trimmed, non-empty indented lines of a gcc dump, in order. */
  function GccFilter(lines: seq<string>): (r: seq<string>)
    ensures |r| <= |lines|
    ensures forall i | 0 <= i < |r| :: r[i] != []
  {
    if lines == [] then []
    else
      var rest := GccFilter(lines[1..]);
      if Indented(lines[0]) && Trim(lines[0]) != [] then [Trim(lines[0])] + rest else rest
  }

  /** The first error line of a gcc dump, if any. */
  function FirstErrorLine(lines: seq<string>): (r: Option<string>)
    ensures r.Some? ==> GccErrorLine(r.value)
  {
    if lines == [] then None
    else if GccErrorLine(lines[0]) then Some(lines[0])
    else FirstErrorLine(lines[1..])
  }

  /** The gcc dump's candidates; the first error line ends the parse. The
      error check runs as lines are read, but an error discards everything
      collected, so checking first gives the same outcome. */
  function GccCandidates(lines: seq<string>): (r: Result<seq<string>, DumpError>)
    ensures r.Ok? ==> r.value == GccFilter(lines)
    ensures r.Err? ==> r.error.CompilerError? && GccErrorLine(r.error.line)
  {
    match FirstErrorLine(lines)
    case Some(line) => Err(CompilerError(line))
    case None => Ok(GccFilter(lines))
  }

  /** The dump's first error line is at `k`. */
  predicate FirstGccError(lines: seq<string>, k: int)
  {
    0 <= k < |lines| && GccErrorLine(lines[k]) && forall j | 0 <= j < k :: !GccErrorLine(lines[j])
  }

  /** The gcc parse fails exactly when some line reports an error, and then
      with the first such line. */
  lemma {:induction false} GccFirstError(lines: seq<string>)
    ensures GccCandidates(lines).Err? <==> exists k | 0 <= k < |lines| :: GccErrorLine(lines[k])
    ensures forall k | FirstGccError(lines, k) :: GccCandidates(lines) == Err(CompilerError(lines[k]))
  {
    if lines != [] {
      GccFirstError(lines[1..]);
      assert forall k | 1 <= k < |lines| :: lines[k] == lines[1..][k - 1];
      if !GccErrorLine(lines[0]) {
        assert forall k | FirstGccError(lines, k) :: k >= 1 && FirstGccError(lines[1..], k - 1);
      } else {
        assert forall k | FirstGccError(lines, k) :: k == 0;
      }
    }
  }

  /** The gcc filter works line by line: the candidates of two runs of
      lines are the candidates of each, in order. */
  lemma {:induction false} GccFilterAppend(a: seq<string>, b: seq<string>)
    ensures GccFilter(a + b) == GccFilter(a) + GccFilter(b)
  {
    if a == [] {
      assert a + b == b;
    } else {
      assert (a + b)[0] == a[0];
      assert (a + b)[1..] == a[1..] + b;
      GccFilterAppend(a[1..], b);
    }
  }

  /** One line is a candidate exactly when it is indented and its trimmed
      text is not empty. */
  lemma GccFilterOne(line: string)
    ensures GccFilter([line]) == if Indented(line) && !AllWhitespace(line) then [Trim(line)] else []
  {
    assert [line][1..] == [];
  }

  /** `pop_if` on the candidates: the last one becomes the link command when
      its program says so. At most one command moves, only from the end, and
      the order is kept. */
  function PopLink(compiler: Compiler, candidates: seq<string>): (r: Result<Commands, DumpError>)
    ensures r.Ok? ==> r.value.buildAndAssemble + OptionToSeq(r.value.link) == candidates
    ensures r.Ok? && r.value.link.Some? ==> IsLink(compiler, r.value.link.value) == Some(true)
    ensures r.Ok? && r.value.link.None? ==>
              candidates == [] || IsLink(compiler, candidates[|candidates| - 1]) == Some(false)
    ensures r.Err? <==> candidates != [] && IsLink(compiler, candidates[|candidates| - 1]) == None
    ensures r.Err? ==> r.error == NoFileStem(candidates[|candidates| - 1])
  {
    if candidates == [] then Ok(Commands([], None))
    else
      var init, last := candidates[..|candidates| - 1], candidates[|candidates| - 1];
      var decision := IsLink(compiler, last);
      if decision.None? then Err(NoFileStem(last))
      else if decision.value then
        InitLast(candidates);
        Ok(Commands(init, Some(last)))
      else
        assert candidates + [] == candidates;
        Ok(Commands(candidates, None))
  }

  /** `parse_clang`: the candidates, with a last command whose program's stem
      does not start with `clang` taken as the link command. */
  function ParseClang(lines: seq<string>): (r: Result<Commands, DumpError>)
    ensures r.Ok? ==> r.value.buildAndAssemble + OptionToSeq(r.value.link) == ClangCandidates(lines)
    ensures r.Ok? && r.value.link.Some? ==>
              exists stem :: FileStem(FirstWord(r.value.link.value)) == Some(stem) && !(ClangPrefix <= stem)
    ensures r.Err? ==> r.error.NoFileStem?
  {
    PopLink(Clang, ClangCandidates(lines))
  }

  /** `parse_gcc`: the candidates, with a last command whose program's stem
      is `collect2` taken as the link command. */
  function ParseGcc(lines: seq<string>): (r: Result<Commands, DumpError>)
    ensures r.Ok? ==> FirstErrorLine(lines).None? &&
                      r.value.buildAndAssemble + OptionToSeq(r.value.link) == GccFilter(lines)
    ensures r.Ok? && r.value.link.Some? ==> FileStem(FirstWord(r.value.link.value)) == Some(GccLinker)
    ensures r.Err? ==> r.error.CompilerError? || r.error.NoFileStem?
  {
    match GccCandidates(lines)
    case Err(e) => Err(e)
    case Ok(candidates) => PopLink(Gcc, candidates)
  }

  /** The dump's first non-blank line is at `k`. */
  predicate FirstRealLine(lines: seq<string>, k: int)
  {
    0 <= k < |lines| && !AllWhitespace(lines[k]) && forall j | 0 <= j < k :: AllWhitespace(lines[j])
  }

  /** The parser chosen by the first non-blank line, applied to the lines
      after it. */
  function Dispatch(first: string, rest: seq<string>): (r: Result<Commands, DumpError>)
    ensures r.Err? ==> !r.error.NoMoreLines?
  {
    if ClangPrefix <= first then ParseClang(rest) else ParseGcc(rest)
  }

  /** What `obtain_whole_command` computes: an error for a blank dump, and
      otherwise the parser chosen by the first non-blank line. */
  function WholeCommand(lines: seq<string>): (r: Result<Commands, DumpError>)
    ensures r == Err(NoMoreLines) <==> forall j | 0 <= j < |lines| :: AllWhitespace(lines[j])
    ensures forall k | FirstRealLine(lines, k) :: r == Dispatch(lines[k], lines[k + 1..])
  {
    if lines == [] then Err(NoMoreLines)
    else if AllWhitespace(lines[0]) then
      var later := WholeCommand(lines[1..]);
      assert forall j | 1 <= j < |lines| :: lines[j] == lines[1..][j - 1];
      assert forall k | FirstRealLine(lines, k) :: k >= 1 && FirstRealLine(lines[1..], k - 1) && lines[1..][k - 1 + 1..] == lines[k + 1..];
      later
    else
      assert forall k | FirstRealLine(lines, k) :: k == 0;
      Dispatch(lines[0], lines[1..])
  }

  /** `obtain_whole_command`: skip blank lines, then parse the rest with the
      parser the first non-blank line selects. */
  method ObtainWholeCommand(lines: seq<string>) returns (r: Result<Commands, DumpError>)
    ensures r == WholeCommand(lines)
  {
    var i := 0;
    while i < |lines| && AllWhitespace(lines[i])  // the trimmed line is empty
      invariant 0 <= i <= |lines|
      invariant forall j | 0 <= j < i :: AllWhitespace(lines[j])
    {
      i := i + 1;
    }
    if i == |lines| {
      assert WholeCommand(lines) == Err(NoMoreLines);
      return Err(NoMoreLines);
    }
    assert FirstRealLine(lines, i);
    assert WholeCommand(lines) == Dispatch(lines[i], lines[i + 1..]);
    var first := lines[i];
    if ClangPrefix <= first {
      r := ParseClang(lines[i + 1..]);
    } else {
      r := ParseGcc(lines[i + 1..]);
    }
  }

  // ----- Outputs of intermediate steps -------------------------------------

  /** The flag before a command's output file. */
  const OutputFlag: string := "-o"

  /** `i` is the first `-o` of `args`, and a token follows it. */
  predicate FirstDashO(args: seq<string>, i: int)
  {
    0 <= i < |args| - 1 && args[i] == OutputFlag && forall j | 0 <= j < i :: args[j] != OutputFlag
  }

  /** The token after the first `-o` that has a token after it. */
  function OutputAfterDashO(args: seq<string>): (r: Option<string>)
    ensures r.None? <==> forall i | 0 <= i < |args| - 1 :: args[i] != OutputFlag
    ensures r.Some? ==> exists i :: FirstDashO(args, i) && args[i + 1] == r.value
  {
    if |args| < 2 then None
    else if args[0] == OutputFlag then
      assert FirstDashO(args, 0);
      Some(args[1])
    else
      var later := OutputAfterDashO(args[1..]);
      assert forall i | 1 <= i < |args| :: args[i] == args[1..][i - 1];
      assert later.Some? ==> exists i :: FirstDashO(args, i) && args[i + 1] == later.value by {
        if later.Some? {
          var i :| FirstDashO(args[1..], i) && args[1..][i + 1] == later.value;
          assert FirstDashO(args, i + 1);
        }
      }
      later
  }

  /** Step `i` is followed by another step, or by the link command. */
  predicate Scheduled(steps: seq<seq<string>>, hasLink: bool, i: int)
  {
    0 <= i < |steps| && (i < |steps| - 1 || hasLink)
  }

  /** The outputs scheduled for deletion: that of every step followed by
      another step, or by the link command when there is one. */
  function Intermediates(steps: seq<seq<string>>, hasLink: bool): (r: seq<string>)
    ensures |r| <= |steps|
  {
    if steps == [] then []
    else
      (if |steps| > 1 || hasLink then OptionToSeq(OutputAfterDashO(steps[0])) else [])
      + Intermediates(steps[1..], hasLink)
  }

  /** The scheduled files are exactly the outputs of the steps followed by
      another step or by the link command. */
  lemma {:induction false} IntermediatesOutputs(steps: seq<seq<string>>, hasLink: bool)
    ensures forall x | x in Intermediates(steps, hasLink) ::
              exists i :: Scheduled(steps, hasLink, i) && OutputAfterDashO(steps[i]) == Some(x)
    ensures forall i | Scheduled(steps, hasLink, i) && OutputAfterDashO(steps[i]).Some? ::
              OutputAfterDashO(steps[i]).value in Intermediates(steps, hasLink)
  {
    if steps != [] {
      var rest := steps[1..];
      IntermediatesOutputs(rest, hasLink);
      var head := if |steps| > 1 || hasLink then OptionToSeq(OutputAfterDashO(steps[0])) else [];
      var r := Intermediates(steps, hasLink);
      assert r == head + Intermediates(rest, hasLink);
      forall x | x in r
        ensures exists i :: Scheduled(steps, hasLink, i) && OutputAfterDashO(steps[i]) == Some(x)
      {
        if x in head {
          assert Scheduled(steps, hasLink, 0) && OutputAfterDashO(steps[0]) == Some(x);
        } else {
          var j :| Scheduled(rest, hasLink, j) && OutputAfterDashO(rest[j]) == Some(x);
          assert Scheduled(steps, hasLink, j + 1) && steps[j + 1] == rest[j];
        }
      }
      forall i | Scheduled(steps, hasLink, i) && OutputAfterDashO(steps[i]).Some?
        ensures OutputAfterDashO(steps[i]).value in r
      {
        if i > 0 {
          assert Scheduled(rest, hasLink, i - 1) && steps[i] == rest[i - 1];
        }
      }
    }
  }

  /** Without a link command the last step's output is the final product and
      is kept: only the steps before it contribute. */
  lemma {:induction false} LastOutputKept(steps: seq<seq<string>>)
    requires steps != []
    ensures Intermediates(steps, false) == Intermediates(steps[..|steps| - 1], true)
  {
    if |steps| == 1 {
      assert steps[..0] == [];
    } else {
      var init := steps[..|steps| - 1];
      assert init[0] == steps[0];
      assert init[1..] == steps[1..][..|steps[1..]| - 1];
      LastOutputKept(steps[1..]);
    }
  }

  /** One step of the scheduling: the outputs from step `i` on are those of
      step `i`, when it is followed by something, then those after it. */
  lemma IntermediatesStep(steps: seq<seq<string>>, i: nat, hasLink: bool)
    requires i < |steps|
    ensures Intermediates(steps[i..], hasLink) ==
              (if i + 1 < |steps| || hasLink then OptionToSeq(OutputAfterDashO(steps[i])) else [])
              + Intermediates(steps[i + 1..], hasLink)
  {
    assert steps[i..][0] == steps[i] && steps[i..][1..] == steps[i + 1..];
  }

  /** The step loop of `fallback`, keeping only its bookkeeping: after each
      step that is followed by another step or by a link command, the token
      after `-o`, when there is one, is scheduled for deletion. */
  method TrackIntermediates(steps: seq<seq<string>>, hasLink: bool) returns (files: seq<string>)
    ensures files == Intermediates(steps, hasLink)
  {
    files := [];
    var i := 0;
    while i < |steps|
      invariant 0 <= i <= |steps|
      invariant files + Intermediates(steps[i..], hasLink) == Intermediates(steps, hasLink)
    {
      var more := i + 1 < |steps| || hasLink;
      IntermediatesStep(steps, i, hasLink);
      ghost var rest := Intermediates(steps[i + 1..], hasLink);
      if more {
        var output := OutputAfterDashO(steps[i]);
        if output.Some? {
          Regroup(files, output.value, rest);
          files := files + [output.value];
        }
      }
      i := i + 1;
    }
    assert steps[i..] == [];
  }
}
