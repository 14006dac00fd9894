/** Worked dumps for the fallback parser, in the shape of the unit tests of
    libwild-proxy/src/lib.rs: a header line naming the compiler, then the
    indented commands it would run. Commands are kept abstract; each example
    states what the dump must look like and what the parse returns. */
module FallbackExamples {
  import opened Wrappers
  import opened Text
  import opened Paths
  import opened Fallback

  /** A command's text as the dump shows it: neither starting nor ending
      with whitespace, so that trimming the indented line gives it back. */
  predicate Shown(command: string)
  {
    command != [] && !IsWhitespace(command[0]) && !IsWhitespace(command[|command| - 1])
  }

  /** The program of `word + " " + rest` is `word`. */
  lemma FirstWordOf(word: string, rest: string)
    requires ' ' !in word
    ensures FirstWord(word + " " + rest) == word
  {
    SplitOnceOfJoin(word, ' ', rest);
  }

  /** `collect2`, wherever it is installed, is gcc's link command. */
  lemma Collect2Links(dir: string, rest: string)
    requires ' ' !in dir
    ensures IsLink(Gcc, dir + "/" + GccLinker + " " + rest) == Some(true)
  {
    var program := dir + "/" + GccLinker;
    assert ' ' !in program;
    FirstWordOf(program, rest);
    FileStemOfJoin(dir, GccLinker);
  }

  /** A program named `clang…` builds; any other program links. */
  lemma ClangProgramBuilds(dir: string, name: string, rest: string)
    requires ' ' !in dir && name != [] && name != ".." && '/' !in name && '.' !in name && ' ' !in name
    ensures IsLink(Clang, dir + "/" + name + " " + rest) == Some(!(ClangPrefix <= name))
  {
    var program := dir + "/" + name;
    assert ' ' !in program;
    FirstWordOf(program, rest);
    FileStemOfJoin(dir, name);
  }

  /** A dump whose first line is not blank is parsed by the parser that
      line chooses, on the lines after it. */
  lemma HeaderChooses(header: string, rest: seq<string>)
    requires !AllWhitespace(header)
    ensures WholeCommand([header] + rest) == Dispatch(header, rest)
  {
    var lines := [header] + rest;
    assert FirstRealLine(lines, 0);
    assert lines[1..] == rest;
  }

  /** A last candidate that is a link command is taken off the end. */
  lemma PopLinkTakes(compiler: Compiler, init: seq<string>, last: string)
    requires IsLink(compiler, last) == Some(true)
    ensures PopLink(compiler, init + [last]) == Ok(Commands(init, Some(last)))
  {
    var candidates := init + [last];
    assert candidates[..|candidates| - 1] == init;
  }

  /** A last candidate that builds leaves every candidate in place. */
  lemma PopLinkKeeps(compiler: Compiler, init: seq<string>, last: string)
    requires IsLink(compiler, last) == Some(false)
    ensures PopLink(compiler, init + [last]) == Ok(Commands(init + [last], None))
  {
  }

  /** One indented command line gives back its command. */
  lemma ClangLine(command: string)
    requires Shown(command) && !EndsWith(" " + command, InProcess)
    ensures ClangCandidates([" " + command]) == [command]
  {
    TrimIndented(command);
    ClangCandidatesOne(" " + command);
  }

  /** Two indented clang commands are both candidates, in order. */
  lemma ClangTwoLines(compile: string, link: string)
    requires Shown(compile) && !EndsWith(" " + compile, InProcess)
    requires Shown(link) && !EndsWith(" " + link, InProcess)
    ensures ClangCandidates([" " + compile, " " + link]) == [compile, link]
  {
    assert [" " + compile, " " + link] == [" " + compile] + [" " + link];
    ClangCandidatesAppend([" " + compile], [" " + link]);
    ClangLine(compile);
    ClangLine(link);
  }

  /** The clang parse of a compile step followed by a link step. */
  lemma ParseClangTwo(compile: string, link: string)
    requires Shown(compile) && !EndsWith(" " + compile, InProcess)
    requires Shown(link) && !EndsWith(" " + link, InProcess) && IsLink(Clang, link) == Some(true)
    ensures ParseClang([" " + compile, " " + link]) == Ok(Commands([compile], Some(link)))
  {
    ClangTwoLines(compile, link);
    assert [compile, link] == [compile] + [link];
    PopLinkTakes(Clang, [compile], link);
  }

  /** A clang dump that compiles and then links: the compile step is kept
      and the last command, not run by a `clang` program, is the link. */
  lemma ClangCompileAndLink(header: string, compile: string, link: string)
    requires ClangPrefix <= header
    requires Shown(compile) && !EndsWith(" " + compile, InProcess) && IsLink(Clang, compile) == Some(false)
    requires Shown(link) && !EndsWith(" " + link, InProcess) && IsLink(Clang, link) == Some(true)
    ensures WholeCommand([header, " " + compile, " " + link]) == Ok(Commands([compile], Some(link)))
  {
    ClangHeader(header, " " + compile, " " + link);
    ParseClangTwo(compile, link);
  }

  /** A two-step dump whose first line starts with `clang` is parsed as
      clang's. */
  lemma ClangHeader(header: string, first: string, second: string)
    requires ClangPrefix <= header
    ensures WholeCommand([header, first, second]) == ParseClang([first, second])
  {
    assert [header, first, second] == [header] + [first, second];
    assert header[0] == 'c';
    HeaderChooses(header, [first, second]);
  }

  /** Steps clang runs in its own process are dropped, and when the last
      step is run by a `clang` program there is no link command. */
  lemma ClangCompileOnly(header: string, inProcess: string, compile: string)
    requires ClangPrefix <= header
    requires EndsWith(inProcess, InProcess)
    requires Shown(compile) && !EndsWith(" " + compile, InProcess) && IsLink(Clang, compile) == Some(false)
    ensures WholeCommand([header, inProcess, " " + compile]) == Ok(Commands([compile], None))
  {
    var lines := [header, inProcess, " " + compile];
    assert header[0] == 'c';
    assert FirstRealLine(lines, 0);
    assert lines[1..] == [inProcess] + [" " + compile];
    ClangCandidatesAppend([inProcess], [" " + compile]);
    ClangCandidatesOne(inProcess);
    ClangLine(compile);
    assert ClangCandidates(lines[1..]) == [compile];
  }

  /** One indented gcc command line gives back its command. */
  lemma GccLine(command: string)
    requires Shown(command)
    ensures GccFilter([" " + command]) == [command]
  {
    TrimIndented(command);
    GccFilterOne(" " + command);
  }

  /** An indented line never reports an error. */
  lemma IndentedNoError(command: string, rest: seq<string>)
    ensures FirstErrorLine([" " + command] + rest) == FirstErrorLine(rest)
  {
    assert ([" " + command] + rest)[1..] == rest;
  }

  /** Unindented chatter is skipped and the indented commands are kept in
      order. */
  lemma GccFilterSteps(note: string, compile: string, assemble: string, link: string)
    requires !Indented(note)
    requires Shown(compile) && Shown(assemble) && Shown(link)
    ensures GccFilter([note] + ([" " + compile] + ([" " + assemble] + [" " + link]))) == [compile, assemble, link]
  {
    var tail := [" " + assemble] + [" " + link];
    GccFilterAppend([" " + assemble], [" " + link]);
    GccFilterAppend([" " + compile], tail);
    GccFilterAppend([note], [" " + compile] + tail);
    GccFilterOne(note);
    GccLine(compile);
    GccLine(assemble);
    GccLine(link);
  }

  /** With no line reporting an error, the gcc candidates are the indented
      commands in order. */
  lemma GccSteps(note: string, compile: string, assemble: string, link: string)
    requires !Indented(note) && !Contains(note, ErrorMarker)
    requires Shown(compile) && Shown(assemble) && Shown(link)
    ensures GccCandidates([note, " " + compile, " " + assemble, " " + link]) == Ok([compile, assemble, link])
  {
    var rest := [note, " " + compile, " " + assemble, " " + link];
    assert rest == [note] + ([" " + compile] + ([" " + assemble] + [" " + link]));
    GccFilterSteps(note, compile, assemble, link);
    IndentedNoError(link, []);
    IndentedNoError(assemble, [" " + link]);
    IndentedNoError(compile, [" " + assemble] + [" " + link]);
    assert rest[1..] == [" " + compile] + ([" " + assemble] + [" " + link]);
    assert FirstErrorLine(rest) == None;
  }

  /** A gcc dump: unindented chatter is skipped, the compile and assemble
      steps are kept in order, and the last command is the link. */
  lemma GccCompileAssembleLink(header: string, note: string, compile: string, assemble: string, link: string)
    requires !AllWhitespace(header) && !(ClangPrefix <= header)
    requires !Indented(note) && !Contains(note, ErrorMarker)
    requires Shown(compile) && Shown(assemble) && Shown(link)
    requires IsLink(Gcc, link) == Some(true)
    ensures WholeCommand([header, note, " " + compile, " " + assemble, " " + link])
            == Ok(Commands([compile, assemble], Some(link)))
  {
    var lines := [header, note, " " + compile, " " + assemble, " " + link];
    assert FirstRealLine(lines, 0);
    assert lines[1..] == [note, " " + compile, " " + assemble, " " + link];
    GccSteps(note, compile, assemble, link);
    var candidates := [compile, assemble, link];
    assert candidates[..2] == [compile, assemble];
  }

  /** A gcc dump reporting an error ends the parse with that line. */
  lemma GccReportsError(header: string, compile: string, error: string)
    requires !AllWhitespace(header) && !(ClangPrefix <= header)
    requires Shown(compile) && GccErrorLine(error)
    ensures WholeCommand([header, " " + compile, error]) == Err(CompilerError(error))
  {
    var lines := [header, " " + compile, error];
    assert FirstRealLine(lines, 0);
    var rest := lines[1..];
    GccFirstError(rest);
    assert FirstGccError(rest, 1);
  }

  /** Clang banner lines, which are not indented, hold no command. */
  lemma {:induction false} ClangBannerSkipped(lines: seq<string>)
    requires forall i | 0 <= i < |lines| :: !Indented(lines[i])
    ensures ClangCandidates(lines) == []
  {
    if lines != [] {
      ClangBannerSkipped(lines[1..]);
    }
  }

  /** A gcc banner line: not indented and reporting no error. */
  predicate Chatter(line: string)
  {
    !Indented(line) && !Contains(line, ErrorMarker)
  }

  /** The clang candidates of a link-only dump body: the banner, the
      in-process note and the trailing blank line are all dropped. */
  lemma ClangLinkOnlyCandidates(banner: seq<string>, inProcess: string, link: string, tail: string)
    requires forall i | 0 <= i < |banner| :: !Indented(banner[i])
    requires EndsWith(inProcess, InProcess)
    requires Shown(link) && !EndsWith(" " + link, InProcess)
    requires AllWhitespace(tail)
    ensures ClangCandidates(banner + [inProcess, " " + link, tail]) == [link]
  {
    var body := [inProcess] + ([" " + link] + [tail]);
    assert [inProcess, " " + link, tail] == body;
    ClangCandidatesAppend(banner, body);
    ClangBannerSkipped(banner);
    ClangCandidatesAppend([inProcess], [" " + link] + [tail]);
    ClangCandidatesAppend([" " + link], [tail]);
    ClangCandidatesOne(inProcess);
    ClangCandidatesOne(tail);
    ClangLine(link);
  }

  /** A dump that opens with a blank line and then a header is parsed by
      the parser the header chooses, on the lines after the header. */
  lemma BlankThenHeader(blank: string, header: string, rest: seq<string>)
    requires AllWhitespace(blank) && !AllWhitespace(header)
    ensures WholeCommand([blank, header] + rest) == Dispatch(header, rest)
  {
    var lines := [blank, header] + rest;
    assert lines[0] == blank && lines[1] == header;
    assert FirstRealLine(lines, 1);
    assert lines[2..] == rest;
  }

  /** The clang parse of a link-only dump body. */
  lemma ClangLinkOnlyBody(banner: seq<string>, inProcess: string, link: string, tail: string)
    requires forall i | 0 <= i < |banner| :: !Indented(banner[i])
    requires EndsWith(inProcess, InProcess)
    requires Shown(link) && !EndsWith(" " + link, InProcess) && IsLink(Clang, link) == Some(true)
    requires AllWhitespace(tail)
    ensures ParseClang(banner + [inProcess, " " + link, tail]) == Ok(Commands([], Some(link)))
  {
    ClangLinkOnlyCandidates(banner, inProcess, link, tail);
    assert [link] == [] + [link];
    PopLinkTakes(Clang, [], link);
  }

  /** A clang dump that only links, laid out as clang prints it: a blank
      line, the version line, the unindented banner, the in-process note,
      the link command and a trailing blank indented line. */
  lemma ClangLinkOnly(blank: string, header: string, banner: seq<string>, inProcess: string, link: string, tail: string)
    requires AllWhitespace(blank) && ClangPrefix <= header
    requires forall i | 0 <= i < |banner| :: !Indented(banner[i])
    requires EndsWith(inProcess, InProcess)
    requires Shown(link) && !EndsWith(" " + link, InProcess) && IsLink(Clang, link) == Some(true)
    requires Indented(tail) && AllWhitespace(tail)
    ensures WholeCommand([blank, header] + (banner + [inProcess, " " + link, tail])) == Ok(Commands([], Some(link)))
  {
    assert header[0] == 'c';
    BlankThenHeader(blank, header, banner + [inProcess, " " + link, tail]);
    ClangLinkOnlyBody(banner, inProcess, link, tail);
  }

  /** The first error of two pieces of a dump is the first piece's, if it
      has one, and otherwise the second's. */
  lemma {:induction false} FirstErrorLineAppend(a: seq<string>, b: seq<string>)
    ensures FirstErrorLine(a + b) == if FirstErrorLine(a).Some? then FirstErrorLine(a) else FirstErrorLine(b)
  {
    if a != [] {
      assert (a + b)[0] == a[0];
      assert (a + b)[1..] == a[1..] + b;
      FirstErrorLineAppend(a[1..], b);
    } else {
      assert a + b == b;
    }
  }

  /** Gcc banner lines add no candidate and report no error. */
  lemma {:induction false} ChatterQuiet(lines: seq<string>)
    requires forall i | 0 <= i < |lines| :: Chatter(lines[i])
    ensures GccFilter(lines) == [] && FirstErrorLine(lines) == None
  {
    if lines != [] {
      ChatterQuiet(lines[1..]);
    }
  }

  /** An indented gcc command is a candidate and reports no error. */
  lemma GccCommandAlone(command: string)
    requires Shown(command)
    ensures GccFilter([" " + command]) == [command] && FirstErrorLine([" " + command]) == None
  {
    GccLine(command);
    IndentedNoError(command, []);
    assert [" " + command] + [] == [" " + command];
  }

  /** The trailing blank indented line of a gcc dump adds nothing. */
  lemma GccBlankTail(tail: string)
    requires Indented(tail) && AllWhitespace(tail)
    ensures GccFilter([tail]) == [] && FirstErrorLine([tail]) == None
  {
    GccFilterOne(tail);
    assert [tail][1..] == [];
  }

  /** The gcc candidates of a dump body with one indented command among
      banner lines, ending in a trailing blank indented line. */
  lemma GccOneCommand(banner: seq<string>, command: string, after: seq<string>, tail: string)
    requires forall i | 0 <= i < |banner| :: Chatter(banner[i])
    requires forall i | 0 <= i < |after| :: Chatter(after[i])
    requires Shown(command) && Indented(tail) && AllWhitespace(tail)
    ensures GccCandidates(banner + [" " + command] + after + [tail]) == Ok([command])
  {
    QuietAround(banner, [" " + command], after, tail);
    GccCommandAlone(command);
  }

  /** Banner lines around a dump body, and the trailing blank indented line
      after it, change neither its candidates nor its first error. */
  lemma QuietAround(banner: seq<string>, body: seq<string>, after: seq<string>, tail: string)
    requires forall i | 0 <= i < |banner| :: Chatter(banner[i])
    requires forall i | 0 <= i < |after| :: Chatter(after[i])
    requires Indented(tail) && AllWhitespace(tail)
    ensures GccFilter(banner + body + after + [tail]) == GccFilter(body)
    ensures FirstErrorLine(banner + body + after + [tail]) == FirstErrorLine(body)
  {
    QuietFilter(banner, body, after, tail);
    QuietError(banner, body, after, tail);
  }

  /** The candidates half of `QuietAround`. */
  lemma QuietFilter(banner: seq<string>, body: seq<string>, after: seq<string>, tail: string)
    requires forall i | 0 <= i < |banner| :: Chatter(banner[i])
    requires forall i | 0 <= i < |after| :: Chatter(after[i])
    requires Indented(tail) && AllWhitespace(tail)
    ensures GccFilter(banner + body + after + [tail]) == GccFilter(body)
  {
    GccFilterAppend(banner + body + after, [tail]);
    GccFilterAppend(banner + body, after);
    GccFilterAppend(banner, body);
    ChatterQuiet(banner);
    ChatterQuiet(after);
    GccBlankTail(tail);
    EmptyAround(GccFilter(body));
  }

  /** The first-error half of `QuietAround`. */
  lemma QuietError(banner: seq<string>, body: seq<string>, after: seq<string>, tail: string)
    requires forall i | 0 <= i < |banner| :: Chatter(banner[i])
    requires forall i | 0 <= i < |after| :: Chatter(after[i])
    requires Indented(tail) && AllWhitespace(tail)
    ensures FirstErrorLine(banner + body + after + [tail]) == FirstErrorLine(body)
  {
    FirstErrorLineAppend(banner + body + after, [tail]);
    FirstErrorLineAppend(banner + body, after);
    FirstErrorLineAppend(banner, body);
    ChatterQuiet(banner);
    ChatterQuiet(after);
    GccBlankTail(tail);
  }

  /** Empty sequences around `s` leave it unchanged. */
  lemma EmptyAround<T>(s: seq<T>)
    ensures [] + s + [] + [] == s
  {
  }

  /** A gcc dump that only links: the banner, the `collect2` command, more
      banner lines and a trailing blank indented line. */
  lemma GccLinkOnly(blank: string, header: string, banner: seq<string>, link: string, after: seq<string>, tail: string)
    requires AllWhitespace(blank) && !AllWhitespace(header) && !(ClangPrefix <= header)
    requires forall i | 0 <= i < |banner| :: Chatter(banner[i])
    requires forall i | 0 <= i < |after| :: Chatter(after[i])
    requires Shown(link) && IsLink(Gcc, link) == Some(true)
    requires Indented(tail) && AllWhitespace(tail)
    ensures WholeCommand([blank, header] + (banner + [" " + link] + after + [tail])) == Ok(Commands([], Some(link)))
  {
    BlankThenHeader(blank, header, banner + [" " + link] + after + [tail]);
    GccOneCommand(banner, link, after, tail);
    assert [link] == [] + [link];
    PopLinkTakes(Gcc, [], link);
  }

  /** Two indented gcc commands with a banner line between them. */
  lemma GccTwoSteps(first: string, note: string, second: string)
    requires Chatter(note) && Shown(first) && Shown(second)
    ensures GccFilter([" " + first, note, " " + second]) == [first, second]
    ensures FirstErrorLine([" " + first, note, " " + second]) == None
  {
    var lines := [" " + first, note, " " + second];
    assert lines == [" " + first] + [note] + [" " + second];
    GccFilterAppend([" " + first] + [note], [" " + second]);
    GccFilterAppend([" " + first], [note]);
    FirstErrorLineAppend([" " + first] + [note], [" " + second]);
    FirstErrorLineAppend([" " + first], [note]);
    GccCommandAlone(first);
    GccCommandAlone(second);
    ChatterQuiet([note]);
  }

  /** The gcc candidates of a dump body with two indented commands. */
  lemma GccTwoCommands(banner: seq<string>, first: string, note: string, second: string, after: seq<string>, tail: string)
    requires forall i | 0 <= i < |banner| :: Chatter(banner[i])
    requires forall i | 0 <= i < |after| :: Chatter(after[i])
    requires Chatter(note) && Shown(first) && Shown(second) && Indented(tail) && AllWhitespace(tail)
    ensures GccCandidates(banner + [" " + first, note, " " + second] + after + [tail]) == Ok([first, second])
  {
    QuietAround(banner, [" " + first, note, " " + second], after, tail);
    GccTwoSteps(first, note, second);
  }

  /** The gcc parse of a dump body whose last command assembles. */
  lemma GccWithoutLinkBody(banner: seq<string>, compile: string, note: string, assemble: string, after: seq<string>, tail: string)
    requires forall i | 0 <= i < |banner| :: Chatter(banner[i])
    requires forall i | 0 <= i < |after| :: Chatter(after[i])
    requires Chatter(note) && Shown(compile) && Shown(assemble) && IsLink(Gcc, assemble) == Some(false)
    requires Indented(tail) && AllWhitespace(tail)
    ensures ParseGcc(banner + [" " + compile, note, " " + assemble] + after + [tail]) == Ok(Commands([compile, assemble], None))
  {
    GccTwoCommands(banner, compile, note, assemble, after, tail);
    assert [compile, assemble] == [compile] + [assemble];
    PopLinkKeeps(Gcc, [compile], assemble);
  }

  /** A gcc dump that compiles and assembles but does not link: the last
      command is `as`, not `collect2`, so there is no link command. */
  lemma GccWithoutLink(blank: string, header: string, banner: seq<string>, compile: string, note: string,
                       assemble: string, after: seq<string>, tail: string)
    requires AllWhitespace(blank) && !AllWhitespace(header) && !(ClangPrefix <= header)
    requires forall i | 0 <= i < |banner| :: Chatter(banner[i])
    requires forall i | 0 <= i < |after| :: Chatter(after[i])
    requires Chatter(note) && Shown(compile) && Shown(assemble) && IsLink(Gcc, assemble) == Some(false)
    requires Indented(tail) && AllWhitespace(tail)
    ensures WholeCommand([blank, header] + (banner + [" " + compile, note, " " + assemble] + after + [tail]))
            == Ok(Commands([compile, assemble], None))
  {
    BlankThenHeader(blank, header, banner + [" " + compile, note, " " + assemble] + after + [tail]);
    GccWithoutLinkBody(banner, compile, note, assemble, after, tail);
  }

  /** A dump of blank lines has no command at all. */
  lemma BlankDump(a: string, b: string)
    requires AllWhitespace(a) && AllWhitespace(b)
    ensures WholeCommand([a, b]) == Err(NoMoreLines)
  {
  }
}
