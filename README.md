# wild-proxy core, modelled in Dafny

wild-proxy stands in for a C/C++ compiler driver (`cc`, `c++`, `gcc`, `g++`,
`clang`, `clang++`) so that the Wild linker does the linking. This project
models the four pure and imperative pieces at its core:

- **The argument parser** (`arg_parser.dfy`, `ArgParser`). It is a
  declarative parser: flags (`--name`, `-name`, `--no-name` where negation
  is declared) and value arguments (`--key=v`, `--key v`, `-Kv`, `-K v`)
  are declared through builders into four name tables. One `parse` pass then
  sends every token to exactly one place:
  - a boolean field;
  - a single slot, where the last write wins;
  - a list slot, which optionally splits the value on a separator and keeps
    the non-empty pieces;
  - the unknown list, for tokens that begin with `-`;
  - the objects-and-sources list.

  The class `ArgParser.ArgParser` keeps the source's mutable fields. Its
  methods are proved against the ghost functions `FlagMatch`, `MatchArg`,
  `Classify` and `Run`. `setup_parser`'s tables are the constant
  `StandardTables`. The source's unit tests are lemmas in
  `arg_parser_examples.dfy`.
- **The fallback dump parser** (`fallback.dfy`, `Fallback`). It does the
  following:
  - recognises the proxy's own name `…wild-<compiler>`;
  - reads the compiler's `-###` dump, given as a sequence of lines: it skips
    blank lines, picks the clang or the gcc rules from the first real line,
    keeps the indented command lines, and pops the last one as the link
    command when its program is not a `clang…` binary (clang) or is
    `collect2` (gcc);
  - keeps the bookkeeping of which step outputs are intermediate files.

  Worked dumps in the shape of the source's tests are in
  `fallback_examples.dfy`.
- **The link line** (`link.dfy`, `Link`). It picks the C runtime start files
  from the first system directory that holds `crti.o`. It picks the GCC
  begin and end objects from the newest version directory under the first
  existing GCC directory. It then builds the final linker argument vector in
  the order the source pushes it. The filesystem is a value: a set of
  existing paths and the listing of each directory.
- **The architecture catalogue** (`arch.dfy`, `Arch`). It holds the three
  supported architectures, their names, linker emulations and dynamic
  linkers, `from_str`, and `target_arch` on `<arch>-linux-gnu` and
  `<arch>-pc-linux-gnu` triples.

Supporting modules:
- `wrappers.dfy`: `Option`, `Result`, `Outcome` and generic sequence lemmas.
- `text.dfy`: the Rust string operations the core uses (trim, `split`,
  `split_once`, `rfind`, `contains`).
- `paths.dfy`: the part of `Path` the core relies on (`join`, `file_name`,
  `file_stem`).

A runtime panic in the source (`unwrap` on a missing value, a missing file
stem, an empty version map) is modelled as an error value. The model shows
where each one can happen.

Five behaviours of the source are easy to misread; the model follows the code:
- **Empty clang dump.** A clang dump with no command line gives an empty
  `Commands` value, not an error (libwild-proxy/src/lib.rs:142-166).
- **In-process marker.** A clang line is dropped whenever it *ends with*
  `(in-process)` (libwild-proxy/src/lib.rs:145).
- **`key=value` tokens.** They are looked up exactly and never fall back to
  a prefix match (libwild-proxy/src/arg_parser.rs:223-224). So
  `-Wl,--version-script=foo.map` goes to the unknown list
  (`WlWithEqualsIsUnknown`).
- **`-pg`.** The profile flag's short name is declared with its dash, as
  `"-pg"` (libwild-proxy/src/arg_parser.rs:396). The token `-pg` strips to
  `pg`, matches nothing and goes to the unknown list (`PgIsUnknown`); only
  `--profile` sets profiling (`ProfileOnlyByLongName`).
- **`Args` fields.** `Args` holds only the fields declared at
  libwild-proxy/src/arg_parser.rs:281-302: ten flags, three single slots,
  five lists and the objects and sources.

## Model

| member | source | states |
|---|---|---|
| Arch.Display | libwild-proxy/src/arch.rs:11-19 | every architecture name is non-empty and has no `-`, so it can head a triple |
| Arch.ArchNamesDistinct | libwild-proxy/src/arch.rs:11-37 | distinct architectures have distinct names, emulations and dynamic linkers |
| Arch.Emulation | libwild-proxy/src/arch.rs:22-29 | the `-m` value of each architecture is one non-empty word that does not start with a dash; `ArchNamesDistinct` shows the three differ |
| Arch.DynamicLinker | libwild-proxy/src/arch.rs:31-37 | each architecture's program interpreter is an absolute path without spaces; `ArchNamesDistinct` shows the three differ |
| Arch.FromStr | libwild-proxy/src/arch.rs:40-50 | a success is the architecture displayed as the input; every displayed name parses to its architecture; any other text is an unsupported-architecture error naming it |
| Arch.FromStrDisplay | libwild-proxy/src/arch.rs:40-50 | round trip: parsing an architecture's displayed name gives it back |
| Arch.TargetArch | libwild-proxy/src/arch.rs:54-63 | every error names the whole triple and is a triple error, never a bare from_str error |
| Arch.TargetArchAccepts | libwild-proxy/src/arch.rs:54-63 | a triple yields architecture `a` if and only if it is `a`'s name, `-`, then `linux-gnu` or `pc-linux-gnu` |
| Arch.TargetArchOfTriple | libwild-proxy/src/arch.rs:54-63 | every supported architecture with either accepted tail is recognised |
| Arch.TargetArchOkShape | libwild-proxy/src/arch.rs:54-63 | a recognised triple splits into the architecture's name and an accepted tail |
| Arch.JoinedTriple | libwild-proxy/src/arch.rs:55-57 | `split_once('-')` of `name-rest`, with no `-` in name, is `(name, rest)` |
| Arch.TargetArchUnsupported | libwild-proxy/src/arch.rs:58-62 | a well-formed triple with an unknown architecture fails with from_str's error wrapped in the triple context |
| Arch.TargetArchAarch64Example | libwild-proxy/src/arch.rs:54-63 | `aarch64-pc-linux-gnu` is aarch64 |
| Arch.TargetArchShortAarch64Example | libwild-proxy/src/arch.rs:54-63 | `aarch64-linux-gnu` is aarch64 |
| Arch.TargetArchVendorExample | libwild-proxy/src/arch.rs:58-60 | another vendor (`x86_64-unknown-linux-gnu`) is an unsupported triple |
| Arch.TargetArchUnsupportedExample | libwild-proxy/src/arch.rs:61-62 | `mips-linux-gnu` fails inside from_str |
| ArgParser.DefaultArgs | libwild-proxy/src/arg_parser.rs:304-328 | `pie` is on; every other flag is off; every single slot is empty; every list is empty |
| ArgParser.SetFlag | libwild-proxy/src/arg_parser.rs:196-198 | the bound flag takes the value; slots, lists and objects are unchanged |
| ArgParser.SetFlagKeepsOthers | libwild-proxy/src/arg_parser.rs:196-198 | setting one flag leaves every other flag as it was |
| ArgParser.SetSingle | libwild-proxy/src/arg_parser.rs:240-242 | the slot holds the new value (last write wins); all other state is unchanged |
| ArgParser.Extend | libwild-proxy/src/arg_parser.rs:243-249 | the list gains the values at its end; all other state is unchanged |
| ArgParser.ExtendTwice | libwild-proxy/src/arg_parser.rs:243-249 | two appends to one list are one append of both, in order |
| ArgParser.Write | libwild-proxy/src/arg_parser.rs:239-250 | a single slot holds the value; a list gains the value, split at the separator into its non-empty pieces when there is one; nothing else changes |
| ArgParser.PiecesKeepText | libwild-proxy/src/arg_parser.rs:245-247 | the appended pieces are non-empty and separator-free, and together they hold the whole value minus its separators |
| ArgParser.StripDashes | libwild-proxy/src/arg_parser.rs:173-180 | `--x` strips two dashes and `-x` one; a token without a dash has no name |
| ArgParser.FlagMatchLong | libwild-proxy/src/arg_parser.rs:173-202 | `--name` sets a declared long flag; `--no-name` clears it only when negation is declared, and otherwise means nothing |
| ArgParser.FlagMatchShort | libwild-proxy/src/arg_parser.rs:173-202 | the same for short flags with one dash |
| ArgParser.PrefixUnique | libwild-proxy/src/arg_parser.rs:229-233 | with prefix-free short names, at most one declared name is a prefix of a token, so the HashMap search is deterministic |
| ArgParser.MatchArgInline | libwild-proxy/src/arg_parser.rs:209-224 | `key=value` looks `key` up exactly in the long or short table; the value is inline; an undeclared key means no argument |
| ArgParser.MatchArgBare | libwild-proxy/src/arg_parser.rs:225-236 | a bare declared name takes the next token; a bare undeclared long name means no argument |
| ArgParser.MatchArgPrefix | libwild-proxy/src/arg_parser.rs:229-233 | a short token that is not itself declared takes its value from after the declared name it starts with |
| ArgParser.MatchArgNoPrefix | libwild-proxy/src/arg_parser.rs:229-237 | a short token that no declared name prefixes means no argument |
| ArgParser.Classify | libwild-proxy/src/arg_parser.rs:266-278 | one loop iteration consumes one or two tokens; a second token is the value; a token is free exactly when it has no dash; free and unknown tokens are kept as they are; the only error is a bare name at the end |
| ArgParser.Landings | libwild-proxy/src/arg_parser.rs:266-278 | every group of tokens the loop consumes is well formed |
| ArgParser.LandingsCover | libwild-proxy/src/arg_parser.rs:266-278 | the consumed groups, concatenated, are the whole command line: every token lands once, in order |
| ArgParser.FreeTokens | libwild-proxy/src/arg_parser.rs:273-275 | the objects and sources collected never begin with `-` |
| ArgParser.UnknownTokens | libwild-proxy/src/arg_parser.rs:258-264 | the unknown tokens collected all begin with `-` |
| ArgParser.ApplyAll | libwild-proxy/src/arg_parser.rs:266-278 | after the landings, the objects list is the old one plus the free tokens in order, the unknown list is the old one plus the unknown tokens in order, and no list shrinks |
| ArgParser.ApplyGrows | libwild-proxy/src/arg_parser.rs:266-278 | one landing adds its token to at most one of the two token lists and no list shrinks |
| ArgParser.RunStep | libwild-proxy/src/arg_parser.rs:268-277 | the parse continues after one iteration from the state it leaves |
| ArgParser.RunStepMissing | libwild-proxy/src/arg_parser.rs:227-228 | a bare name as the last token stops the parse with the missing-value error |
| ArgParser.ClassifyWithoutDash | libwild-proxy/src/arg_parser.rs:266-278 | a token without a dash is an object or source whatever is declared |
| ArgParser.RunWithoutDashes | libwild-proxy/src/arg_parser.rs:266-278 | a command line with no dash tokens is appended, as it is, to the objects and sources |
| ArgParser.RunExtends | libwild-proxy/src/arg_parser.rs:266-278 | parsing only appends: the unknown list, the objects and every list keep their old contents as a prefix |
| ArgParser.StandardTablesPrefixFree | libwild-proxy/src/arg_parser.rs:400-454 | no declared short argument name is a prefix of another |
| ArgParser.ProfileOnlyByLongName | libwild-proxy/src/arg_parser.rs:393-398 | a token sets `profile` if and only if it is `--profile` (its short name `-pg` is not reachable) |
| ArgParser.ProfileByLongName | libwild-proxy/src/arg_parser.rs:393-398 | `--profile` sets `profile` |
| ArgParser.ProfileOnlyLong | libwild-proxy/src/arg_parser.rs:393-398 | nothing but `--profile` sets `profile` |
| ArgParser.ArgParser.constructor | libwild-proxy/src/arg_parser.rs:304-328 | a fresh parser has default arguments, empty token lists and empty tables |
| ArgParser.ArgParser.BuildFlag | libwild-proxy/src/arg_parser.rs:69-91 | fails without a bound field or without any name, changing nothing; otherwise enters the flag under each name it has |
| ArgParser.ArgParser.BuildArg | libwild-proxy/src/arg_parser.rs:127-149 | the same rules for value arguments, with their separator |
| ArgParser.ArgParser.ParseFlag | libwild-proxy/src/arg_parser.rs:173-202 | reports a match exactly when the token names a declared flag (or its declared negation), and then sets that field to that value; otherwise nothing changes |
| ArgParser.ArgParser.ParseArg | libwild-proxy/src/arg_parser.rs:204-256 | with prefix-free short names it does what `MatchArg` says: no match changes nothing; an inline or next-token value is written through the binding; a missing next token is reported |
| ArgParser.ArgParser.HandleUnknownArg | libwild-proxy/src/arg_parser.rs:258-264 | keeps a token exactly when it begins with `-`, appending it to the unknown list |
| ArgParser.ArgParser.Parse | libwild-proxy/src/arg_parser.rs:266-278 | with prefix-free short names, the new state is `Run` of the old one over the tokens, or the missing-value error |
| ArgParser.ArgParser.SetupParser | libwild-proxy/src/arg_parser.rs:330-457 | every declaration builds; the tables are the standard ones and the state is the default |
| ArgParser.ArgParser.DeclareStandardFlags | libwild-proxy/src/arg_parser.rs:333-398 | the flag tables become the standard flag tables |
| ArgParser.ArgParser.DeclareStandardArgs | libwild-proxy/src/arg_parser.rs:400-454 | the argument tables become the standard argument tables |
| ArgParserExamples.PthreadOnExample | libwild-proxy/src/arg_parser.rs:463-471 | `--pthread` turns pthread on |
| ArgParserExamples.PthreadOffExample | libwild-proxy/src/arg_parser.rs:463-471 | `-no-pthread` turns it off |
| ArgParserExamples.SysrootInlineExample | libwild-proxy/src/arg_parser.rs:473-481 | `--sysroot=v` sets the sysroot to v |
| ArgParserExamples.SysrootNextExample | libwild-proxy/src/arg_parser.rs:473-481 | `--sysroot v` sets it from the next token |
| ArgParserExamples.ScriptsExample | libwild-proxy/src/arg_parser.rs:483-489 | `-T a -Tb` appends both scripts in order |
| ArgParserExamples.WlExample | libwild-proxy/src/arg_parser.rs:491-501 | `-Wl,…` and `-Wl=…` split at commas and append the non-empty pieces |
| ArgParserExamples.XlinkerExample | libwild-proxy/src/arg_parser.rs:491-501 | `-Xlinker x` appends x unsplit |
| ArgParserExamples.WlFourPieces | libwild-proxy/src/arg_parser.rs:493-495 | `-Wl,a,b` then `-Wl=c,d` appends `a`, `b`, `c`, `d` in that order |
| ArgParserExamples.WlSourceExample | libwild-proxy/src/arg_parser.rs:493-495 | `-Wl,-z,text -Wl=-z,now` appends exactly `-z`, `text`, `-z`, `now` |
| ArgParserExamples.WlThenXlinkerExample | libwild-proxy/src/arg_parser.rs:496-500 | a second parse of `-Xlinker -z,relro` appends `-z,relro` unsplit after the four earlier pieces |
| ArgParserExamples.CompilerBExample | libwild-proxy/src/arg_parser.rs:503-508 | `-Ba -B b -Bc` appends all three in order |
| ArgParserExamples.LibsExample | libwild-proxy/src/arg_parser.rs:510-515 | `-la -lb` appends both libraries |
| ArgParserExamples.SearchPathsExample | libwild-proxy/src/arg_parser.rs:517-525 | `-La -L b` appends both search paths |
| ArgParserExamples.TargetInlineExample | libwild-proxy/src/arg_parser.rs:527-534 | `--target=v` sets the target |
| ArgParserExamples.TargetNextExample | libwild-proxy/src/arg_parser.rs:527-534 | `-target v` sets it from the next token |
| ArgParserExamples.CoverageExample | libwild-proxy/src/arg_parser.rs:536-542 | `--coverage` turns coverage on |
| ArgParserExamples.ProfileExample | libwild-proxy/src/arg_parser.rs:544-550 | `--profile` turns profile on |
| ArgParserExamples.UnknownExample | libwild-proxy/src/arg_parser.rs:552-561 | undeclared names with one or two dashes go to the unknown list verbatim, in order |
| ArgParserExamples.PgIsUnknown | libwild-proxy/src/arg_parser.rs:393-398 | the token `-pg` matches no declaration (the short name is declared as `"-pg"`) and is kept in the unknown list |
| ArgParserExamples.LanguageExample | libwild-proxy/src/arg_parser.rs:563-570 | `-x v` sets the language |
| ArgParserExamples.LanguageInlineExample | libwild-proxy/src/arg_parser.rs:563-570 | `-xv` sets it inline |
| ArgParserExamples.UnprefixedExample | libwild-proxy/src/arg_parser.rs:572-578 | plain file names go to the objects and sources in order |
| ArgParserExamples.WlWithEqualsIsUnknown | libwild-proxy/src/arg_parser.rs:223-224 | `-Wl,a=b` looks up the key `Wl,a`, finds nothing, and goes to the unknown list whole |
| Fallback.ParseBinaryName | libwild-proxy/src/lib.rs:102-115 | a success is one of the six compiler names and ends the program name after `wild-`; without `wild-` the name is refused |
| Fallback.LastWild | libwild-proxy/src/lib.rs:105 | the last `wild-` of `prefix wild- name` is the one before `name` |
| Fallback.ParseBinaryNameOf | libwild-proxy/src/lib.rs:102-115 | every compiler name after any prefix and `wild-` is recognised |
| Fallback.ParseBinaryNameRefuses | libwild-proxy/src/lib.rs:107-112 | any other text without a `w` after the last `wild-` is refused with the whole name |
| Fallback.FirstWord | libwild-proxy/src/lib.rs:152 | the program of a command is its prefix up to the first space |
| Fallback.ClangCandidates | libwild-proxy/src/lib.rs:143-149 | clang candidates are non-empty and at most one per line |
| Fallback.ClangCandidatesAppend | libwild-proxy/src/lib.rs:143-149 | the filter works line by line: the candidates of two runs of lines are concatenated |
| Fallback.ClangCandidatesOne | libwild-proxy/src/lib.rs:144-148 | one line is a candidate exactly when it is indented, does not end with `(in-process)` and is not blank, and the candidate is the trimmed line |
| Fallback.GccFilter | libwild-proxy/src/lib.rs:170-182 | gcc candidates are non-empty and at most one per line |
| Fallback.GccFilterAppend | libwild-proxy/src/lib.rs:170-182 | the gcc filter works line by line |
| Fallback.GccFilterOne | libwild-proxy/src/lib.rs:172-173 | one line is a candidate exactly when it is indented and not blank, and the candidate is the trimmed line |
| Fallback.FirstErrorLine | libwild-proxy/src/lib.rs:174-177 | a line found is an unindented line containing `error: ` |
| Fallback.GccCandidates | libwild-proxy/src/lib.rs:170-182 | either the filtered commands, or the error of an error line |
| Fallback.GccFirstError | libwild-proxy/src/lib.rs:174-177 | the gcc parse fails if and only if some line reports an error, and then with the first such line |
| Fallback.PopLink | libwild-proxy/src/lib.rs:151-159 | the steps plus the link are the candidates in order; a link is taken only when it passes the compiler's link test, and otherwise the last candidate fails it; the only error is a last command without a file stem |
| Fallback.IsLink | libwild-proxy/src/lib.rs:151-159 | none exactly when the program has no file stem (the `unwrap` panic); for clang, a link exactly when the stem does not start with `clang`; for gcc, exactly when the stem is `collect2` (as at lib.rs:184-188) |
| Fallback.ParseClang | libwild-proxy/src/lib.rs:142-167 | the steps plus the link are the clang candidates; a link's program stem does not start with `clang` |
| Fallback.ParseGcc | libwild-proxy/src/lib.rs:169-196 | success means no error line; a link's program stem is `collect2`; errors are the compiler's error line or a missing stem |
| Fallback.Dispatch | libwild-proxy/src/lib.rs:133-137 | the parser chosen by the first line never reports an empty dump |
| Fallback.WholeCommand | libwild-proxy/src/lib.rs:123-140 | the dump is empty if and only if every line is blank; otherwise the first real line chooses the parser for the lines after it |
| Fallback.ObtainWholeCommand | libwild-proxy/src/lib.rs:123-140 | the skipping loop computes `WholeCommand` |
| Fallback.OutputAfterDashO | libwild-proxy/src/lib.rs:74-76 | none exactly when no `-o` has a token after it; otherwise the token after the first such `-o` |
| Fallback.LastOutputKept | libwild-proxy/src/lib.rs:72-80 | without a link command the last step's output is kept and every earlier one is scheduled |
| Fallback.IntermediatesStep | libwild-proxy/src/lib.rs:72-80 | the files scheduled from step i on are step i's (when it is followed by a step or a link) then the rest's |
| Fallback.Intermediates | libwild-proxy/src/lib.rs:72-80 | at most one file is scheduled per step |
| Fallback.IntermediatesOutputs | libwild-proxy/src/lib.rs:72-80 | the scheduled files are exactly the `-o` outputs of the steps followed by another step or by the link command |
| Fallback.TrackIntermediates | libwild-proxy/src/lib.rs:56-81 | the step loop schedules exactly `Intermediates`: the `-o` output of every step followed by another step or by a link |
| FallbackExamples.Collect2Links | libwild-proxy/src/lib.rs:184-188 | gcc's link test accepts `collect2` wherever it is installed |
| FallbackExamples.ClangProgramBuilds | libwild-proxy/src/lib.rs:151-159 | clang's link test rejects programs named `clang…` and accepts all others |
| FallbackExamples.HeaderChooses | libwild-proxy/src/lib.rs:123-137 | a non-blank first line chooses the parser for the rest |
| FallbackExamples.PopLinkTakes | libwild-proxy/src/lib.rs:151-159 | a last candidate that links is popped as the link command |
| FallbackExamples.PopLinkKeeps | libwild-proxy/src/lib.rs:151-159 | a last candidate that builds stays among the steps |
| FallbackExamples.ClangCompileAndLink | libwild-proxy/src/lib.rs:203-222 | a clang dump with a compile and a link gives one step and that link |
| FallbackExamples.ClangCompileOnly | libwild-proxy/src/lib.rs:224-241 | an `(in-process)` line is dropped and a last `clang` step is no link |
| FallbackExamples.GccCompileAssembleLink | libwild-proxy/src/lib.rs:319-350 | a gcc dump gives compile and assemble in order and the `collect2` link, skipping unindented chatter |
| FallbackExamples.GccReportsError | libwild-proxy/src/lib.rs:174-177 | a gcc error line ends the parse with that line |
| FallbackExamples.BlankDump | libwild-proxy/src/lib.rs:124-131 | a dump of blank lines is the empty-dump error |
| FallbackExamples.BlankThenHeader | libwild-proxy/src/lib.rs:123-137 | a leading blank line is skipped and the header after it chooses the parser for the lines that follow |
| FallbackExamples.ClangBannerSkipped | libwild-proxy/src/lib.rs:143-150 | unindented clang banner lines yield no candidate |
| FallbackExamples.FirstErrorLineAppend | libwild-proxy/src/lib.rs:170-181 | the first gcc error line of two pieces is the first piece's, else the second's |
| FallbackExamples.ChatterQuiet | libwild-proxy/src/lib.rs:170-181 | unindented gcc lines without `error: ` yield no candidate and no error |
| FallbackExamples.ClangLinkOnly | libwild-proxy/src/lib.rs:300-317 | a clang dump of a blank line, header, banner, in-process note, link and trailing blank line gives no step and that link |
| FallbackExamples.GccWithoutLink | libwild-proxy/src/lib.rs:352-378 | a gcc dump whose last command is `as` gives compile and assemble in order and no link |
| FallbackExamples.GccLinkOnly | libwild-proxy/src/lib.rs:453-477 | a gcc dump whose only command is `collect2`, among banner lines, gives no step and that link |
| Link.FirstIndex | libwild-proxy/src/link.rs:37-40 | none exactly when no path exists; otherwise the first existing path |
| Link.Crt1Name | libwild-proxy/src/link.rs:26-31 | every output kind has a start object except a shared object |
| Link.SystemLibraryPaths | libwild-proxy/src/link.rs:16-56 | fails if and only if no probe directory holds `crti.o`; otherwise all start files are in the first that does, and every probe directory is a search path |
| Link.Newest | libwild-proxy/src/link.rs:95-104 | none exactly when no entry is a version; otherwise the entry a version-ordered map pops last |
| Link.UnversionedSnoc | libwild-proxy/src/link.rs:95-102 | a listing grown by one entry is unversioned exactly when both parts are |
| Link.NewestAfter | libwild-proxy/src/link.rs:95-104 | a later entry whose version is not older than the best so far replaces it |
| Link.NewestKept | libwild-proxy/src/link.rs:95-104 | an older or unversioned later entry leaves the newest in place |
| Link.VersionDir | libwild-proxy/src/link.rs:83-104 | no GCC directory if and only if none exists; a listing error, naming the directory, exactly when the first existing one cannot be listed; no version exactly when its listing has no version entry; success exactly when it is listed with a version, and then the newest version under it |
| Link.GccObjectsFor | libwild-proxy/src/link.rs:64-113 | the begin object of the kind and `crtend.o` in the chosen version directory, or that choice's error |
| Link.BeginObjectName | libwild-proxy/src/link.rs:75-79 | `crtbeginS.o` exactly for PIE and shared outputs, `crtbeginT.o` exactly for a static executable, `crtbegin.o` exactly for a dynamic one |
| Link.OutputKindArgs | libwild-proxy/src/link.rs:132-138 | `-pie` exactly for the two PIE kinds, `-static` exactly for the two static kinds, `-shared` exactly for a shared object, and the dynamic linker, after `--dynamic-linker`, exactly for the two dynamic kinds |
| Link.BuiltinArchIsX86_64 | libwild-proxy/src/link.rs:123-138 | the `-m elf_x86_64` and the program interpreter written into every link line are x86-64's emulation and dynamic linker from the architecture table |
| Link.FirstInUnique | libwild-proxy/src/link.rs:37-40 | only one path can be the first existing one |
| Link.DefaultLibs | libwild-proxy/src/link.rs:154-165 | empty exactly without default libraries; C++ mode adds `-lstdc++ -lm` first; static kinds end with the static libraries; every list ends with `-lc` |
| Link.SearchFlags | libwild-proxy/src/link.rs:148-151 | one `-L<dir>` per directory, in order |
| Link.Link | libwild-proxy/src/link.rs:115-167 | the start-file error, then the GCC error, else the link line built from both |
| Link.BuildLine | libwild-proxy/src/link.rs:140-167 | the pushes build exactly the link line |
| Link.PushSearchFlags | libwild-proxy/src/link.rs:149-151 | the loop appends the search flags of every directory in order |
| Link.SearchFlagsSnoc | libwild-proxy/src/link.rs:149-151 | one more directory adds one more flag at the end |
| Link.LinkLineEnds | libwild-proxy/src/link.rs:123-167 | the vector starts with `--hash-style=gnu` and ends with the end object then `crtn.o` |
| Link.LinkLine | libwild-proxy/src/link.rs:140-167 | nothing else is pushed: the length is exactly that of the head, the start objects and search flags, the driver's inputs, the linker arguments, the default libraries and the two end objects (`LinkLineStart`, `LinkLineInputs` and `LinkLineEnds` place each part) |
| Link.LinkLineGrouped | libwild-proxy/src/link.rs:140-151 | the vector is the head, then the objects and search flags, then the rest |
| Link.LinkLineStart | libwild-proxy/src/link.rs:142-151 | the output follows `-o`; then come the start object, `crti.o`, the begin object, the GCC directory and the system directories, in order |
| Link.LinkLineInputs | libwild-proxy/src/link.rs:152-167 | the driver's objects and libraries, then the linker arguments, come right after the search flags; the default libraries sit just before the end objects |
| Link.LinkLineStartObject | libwild-proxy/src/link.rs:143-146 | the first start object is `crt1` when there is one, and `crti.o` otherwise |
| Link.LinkStartObjects | libwild-proxy/src/link.rs:143-147 | in a finished line the first start object is the kind's `crt1` (none for a shared object), taken from the directory holding `crti.o` |
| Text.Trim | libwild-proxy/src/lib.rs:145-147 | the result is a slice of the input; it is empty exactly when the input is blank, and otherwise has no whitespace at either end |
| Text.LastIndexOf | libwild-proxy/src/lib.rs:105 | `rfind`: the found position holds the needle and no later one does; none when it occurs nowhere |
| Text.SplitOnce | libwild-proxy/src/arch.rs:55-57 | splits at the first occurrence, and gives none exactly when there is none |
| Text.Split | libwild-proxy/src/arg_parser.rs:245-247 | the pieces have no separator and join back to the input |
| Text.SplitJoin | libwild-proxy/src/arg_parser.rs:245-247 | round trip: splitting a separator-free join gives the pieces back |
| Text.SplitNonEmptyKeepsText | libwild-proxy/src/arg_parser.rs:245-247 | dropping empty pieces loses no text: the kept pieces hold the input minus its separators |
| Paths.FileStem | libwild-proxy/src/lib.rs:152-158 | a stem exists exactly when a file name does; it is a non-empty prefix of the file name, cut at the last dot when there is one |
| Paths.FileStemOfJoin | libwild-proxy/src/lib.rs:152-158 | the stem of `dir/name` with a dot-free name is the name |
| Paths.Join | libwild-proxy/src/link.rs:46-48 | an absolute name replaces the directory; otherwise the name is added after a separator |

## Left out

- The process side of `fallback` (lib.rs 21-54 and 82-100) is not modelled, because it is I/O:
  - reading `argv`;
  - the `--help`/`--version`/`-###` pass-through;
  - running the compiler and each step;
  - exit codes and error printing;
  - `shell_words` splitting;
  - the `libwild` calls.
  `TrackIntermediates` keeps only the `-o` bookkeeping of the step loop, with each step given as its already-split arguments.
- `outputs_cleanup.rs` (the deletion of scheduled files), `main.rs` and the driver's `args.rs` are not part of this model. This includes how `OutputKind` and `DriverArgs` are derived; `link` takes them as inputs.
- `str::lines` is not modelled: dumps are given as a sequence of lines.
- `Path` is reduced to `/`-separated text: non-UTF-8 names (and the lossy conversion of `to_string_lossy`) are not modelled.
  - Paths.Join: it does not normalise repeated separators.
- `link` returns the argument vector and does not hand it to `libwild` (link.rs 169-170), because that is a foreign call. Its `x86_64` constants are kept as the source hardcodes them; `arch.rs` is not used by `link`.
- Directory listing is a value in the model:
  - Per-entry `read_dir` errors, which the source skips, are not modelled: a listing holds only the entries that were read.
  - A listing that cannot be read at all is the `CannotList` error.
  - Version parsing is given per entry as an optional `(major, minor, patch)`. Semver pre-release and build metadata are not modelled, so versions that differ only in those count as equal.
- Panics are modelled as error values:
  - `unwrap` of a missing value token;
  - a missing file stem;
  - an empty version map.
- The `parse_gcc` `exit(1)` on an error line is modelled as the error `CompilerError(line)`. `GccCandidates` checks for an error line before filtering; the outcome is the same because the exit discards all candidates. Printing the line is not modelled.
- ArgParser.ArgParser.ParseArg: its `ensures` is conditional on prefix-free short names. The source picks a prefix match from a `HashMap` in an unspecified order, so with overlapping names the result is not determined; the standard tables are proved prefix-free (`StandardTablesPrefixFree`).
- ArgParser.ArgParser.Parse: conditional on prefix-free short names, for the same reason.
- ArgParser.ArgParser.SetupParser: the `Result` of `setup_parser` is not returned, because every declaration provably builds (each `BuildFlag`/`BuildArg` call passes), so the `?` never fires.
- The `unprefixed_args` field of the parser is declared and kept empty; the source never reads or writes it.
- Fallback.ClangCandidates and Fallback.GccFilter: their own contracts state only sizes and non-emptiness. Their contents are stated per line by `ClangCandidatesOne`/`GccFilterOne` together with the append lemmas.
- The builder methods `short`, `long`, `with_negation`, `with_separator`, `bind`, `declare_flag` and `declare_arg` are datatype updates without contracts of their own; their effect is stated through `BuildFlag`/`BuildArg` and the standard tables.
