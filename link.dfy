/** The link line the proxy builds itself (libwild-proxy/src/link.rs): the C
    runtime objects for the output kind, found by probing the system library
    directories and the newest GCC directory, and the final linker argument
    vector. The filesystem is given as data; parsing the vector and running
    the linker on it are not modelled. */
module Link {
  import opened Wrappers
  import opened Paths
  import Arch

  // ----- Inputs ------------------------------------------------------------

  datatype OutputKind = DynamicPie | StaticPie | Dynamic | Static | SharedObject

  /** The driver arguments the link line reads. */
  datatype DriverArgs = DriverArgs(
    outputKind: OutputKind,
    output: string,
    objectsAndLibs: seq<string>,
    defaultLibs: bool)

  /** A version parsed from a directory name. */
  datatype Version = Version(major: nat, minor: nat, patch: nat)

  /** Versions are ordered by major, then minor, then patch number. */
  predicate Older(a: Version, b: Version)
  {
    a.major < b.major
    || (a.major == b.major && a.minor < b.minor)
    || (a.major == b.major && a.minor == b.minor && a.patch < b.patch)
  }

  /** A directory entry: its name and the version its name parses as, if any. */
  datatype DirEntry = DirEntry(name: string, version: Option<Version>)

  /** What the link line sees of the filesystem: the paths that exist, and
      the entries of each directory that can be listed. */
  datatype FileSystem = FileSystem(existing: set<string>, listings: map<string, seq<DirEntry>>)

  /** No probe directory holds `crti.o`; no GCC directory exists; the GCC
      directory cannot be listed; it has no version entry (a panic in the
      source). */
  datatype LinkError = NoSystemLibraryDir | NoGccDir | CannotList(dir: string) | NoGccVersion

  // ----- Probing -----------------------------------------------------------

  /** `i` is the first index of `paths` whose path exists. */
  predicate FirstIn(paths: seq<string>, existing: set<string>, i: int)
  {
    0 <= i < |paths| && paths[i] in existing && forall j | 0 <= j < i :: paths[j] !in existing
  }

  /** `find(|p| p.exists())` over a list of paths, as an index. */
  function FirstIndex(paths: seq<string>, existing: set<string>): (r: Option<nat>)
    ensures r.None? <==> forall j | 0 <= j < |paths| :: paths[j] !in existing
    ensures r.Some? ==> FirstIn(paths, existing, r.value)
  {
    if paths == [] then None
    else if paths[0] in existing then Some(0)
    else
      var later := FirstIndex(paths[1..], existing);
      assert forall j | 1 <= j < |paths| :: paths[j] == paths[1..][j - 1];
      match later
      case None => None
      case Some(i) => Some(i + 1)
  }

  /** Every directory of `dirs` joined with `name`. */
  function JoinAll(dirs: seq<string>, name: string): (r: seq<string>)
    ensures |r| == |dirs| && forall i | 0 <= i < |dirs| :: r[i] == Join(dirs[i], name)
  {
    seq(|dirs|, i requires 0 <= i < |dirs| => Join(dirs[i], name))
  }

  // ----- system_library_paths ----------------------------------------------

  const CrtiName: string := "crti.o"
  const CrtnName: string := "crtn.o"

  /** The directories probed for the C library's start files, in order; all
      of them are also library search paths. */
  const SystemDirs: seq<string> := ["/usr/lib64", "/lib64", "/lib", "/usr/lib"]

  /** The start object for each output kind; a shared object has none. */
  function Crt1Name(kind: OutputKind): (r: Option<string>)
    ensures r.None? <==> kind == SharedObject
  {
    match kind
    case DynamicPie => Some("Scrt1.o")
    case StaticPie => Some("rcrt1.o")
    case Dynamic => Some("crt1.o")
    case Static => Some("crt1.o")
    case SharedObject => None
  }

  datatype SystemPaths = SystemPaths(crt1: Option<string>, crti: string, crtn: string, libraryPaths: seq<string>)

  /** The start files of `kind` all sit in `dir`. */
  predicate StartFilesIn(p: SystemPaths, dir: string, kind: OutputKind)
  {
    && p.crti == Join(dir, CrtiName)
    && p.crtn == Join(dir, CrtnName)
    && p.crt1 == match Crt1Name(kind) case None => None case Some(n) => Some(Join(dir, n))
  }

  /** `system_library_paths`: the start files from the first probe directory
      holding `crti.o`. */
  function SystemLibraryPaths(kind: OutputKind, fs: FileSystem): (r: Result<SystemPaths, LinkError>)
    ensures r.Err? <==> forall j | 0 <= j < |SystemDirs| :: Join(SystemDirs[j], CrtiName) !in fs.existing
    ensures r.Err? ==> r.error == NoSystemLibraryDir
    ensures r.Ok? ==> exists i :: FirstIn(JoinAll(SystemDirs, CrtiName), fs.existing, i)
                                  && StartFilesIn(r.value, SystemDirs[i], kind)
    ensures r.Ok? ==> r.value.libraryPaths == SystemDirs
    ensures r.Ok? ==> (r.value.crt1.None? <==> kind == SharedObject)
  {
    var probes := JoinAll(SystemDirs, CrtiName);
    match FirstIndex(probes, fs.existing)
    case None => Err(NoSystemLibraryDir)
    case Some(i) =>
      var dir := SystemDirs[i];
      var crt1 := match Crt1Name(kind) case None => None case Some(n) => Some(Join(dir, n));
      Ok(SystemPaths(crt1, Join(dir, CrtiName), Join(dir, CrtnName), SystemDirs))
  }

  // ----- gcc_objects -------------------------------------------------------

  const GccDirName: string := "gcc"
  const GccTriple: string := "x86_64-pc-linux-gnu"

  /** The roots under which the GCC directory is looked for, in order. */
  const GccRoots: seq<string> := ["/usr/lib64", "/usr/lib"]

  /** `<root>/gcc/x86_64-pc-linux-gnu` for each root. */
  function GccDirs(): seq<string>
  {
    JoinAll(JoinAll(GccRoots, GccDirName), GccTriple)
  }

  /** The GCC begin object: the position-independent `crtbeginS.o` for PIE
      and shared outputs, `crtbeginT.o` for a static executable and
      `crtbegin.o` otherwise. */
  function BeginObjectName(kind: OutputKind): (r: string)
    ensures r == "crtbeginS.o" <==> kind in {DynamicPie, StaticPie, SharedObject}
    ensures r == "crtbeginT.o" <==> kind == Static
    ensures r == "crtbegin.o" <==> kind == Dynamic
  {
    match kind
    case DynamicPie => "crtbeginS.o"
    case StaticPie => "crtbeginS.o"
    case SharedObject => "crtbeginS.o"
    case Dynamic => "crtbegin.o"
    case Static => "crtbeginT.o"
  }

  const EndObjectName: string := "crtend.o"

  /** No entry of the listing is a version. */
  predicate Unversioned(entries: seq<DirEntry>)
  {
    forall i | 0 <= i < |entries| :: entries[i].version.None?
  }

  /** Entry `k` is the one a version-ordered map keeps last: its version is
      not older than any other, and every later entry's is older (a later
      entry with an equal version would replace it). */
  predicate NewestAt(entries: seq<DirEntry>, k: int)
  {
    && 0 <= k < |entries|
    && entries[k].version.Some?
    && (forall i | 0 <= i < |entries| && entries[i].version.Some? ::
          !Older(entries[k].version.value, entries[i].version.value))
    && (forall i | k < i < |entries| && entries[i].version.Some? ::
          Older(entries[i].version.value, entries[k].version.value))
  }

  /** Collecting the versioned entries into a map ordered by version and
      popping the last one, as the index of the entry popped. */
  function Newest(entries: seq<DirEntry>): (r: Option<nat>)
    ensures r.None? <==> Unversioned(entries)
    ensures r.Some? ==> NewestAt(entries, r.value)
  {
    if entries == [] then None
    else
      var init, last := entries[..|entries| - 1], entries[|entries| - 1];
      var best := Newest(init);
      assert init + [last] == entries;
      UnversionedSnoc(init, last);
      match best
      case None =>
        if last.version.None? then None
        else
          NewestAfter(init, last, None);
          Some(|init|)
      case Some(k) =>
        if last.version.Some? && !Older(last.version.value, init[k].version.value) then
          NewestAfter(init, last, Some(k));
          Some(|init|)
        else
          NewestKept(init, last, k);
          Some(k)
  }

  /** A listing with one more entry is unversioned when both parts are. */
  lemma UnversionedSnoc(init: seq<DirEntry>, last: DirEntry)
    ensures Unversioned(init + [last]) <==> Unversioned(init) && last.version.None?
  {
    if Unversioned(init) && last.version.None? {
      forall i | 0 <= i < |init| + 1 ensures (init + [last])[i].version.None? {
        if i < |init| {
          assert (init + [last])[i] == init[i];
        }
      }
    }
    if Unversioned(init + [last]) {
      assert (init + [last])[|init|] == last;
      forall i | 0 <= i < |init| ensures init[i].version.None? {
        assert (init + [last])[i] == init[i];
      }
    }
  }

  /** A last entry whose version is not older than the best one so far (or
      the first version seen) becomes the newest. */
  lemma NewestAfter(init: seq<DirEntry>, last: DirEntry, k: Option<nat>)
    requires last.version.Some?
    requires k.None? ==> Unversioned(init)
    requires k.Some? ==> NewestAt(init, k.value) && !Older(last.version.value, init[k.value].version.value)
    ensures NewestAt(init + [last], |init|)
  {
    var entries := init + [last];
    forall i | 0 <= i < |entries| && entries[i].version.Some?
      ensures !Older(last.version.value, entries[i].version.value)
    {
      if i < |init| {
        assert entries[i] == init[i];
      }
    }
  }

  /** A last entry that is unversioned or older leaves the newest where it
      was. */
  lemma NewestKept(init: seq<DirEntry>, last: DirEntry, k: nat)
    requires NewestAt(init, k)
    requires last.version.Some? ==> Older(last.version.value, init[k].version.value)
    ensures NewestAt(init + [last], k) && (init + [last])[k] == init[k]
  {
    var entries := init + [last];
    forall i | 0 <= i < |entries| && entries[i].version.Some?
      ensures !Older(entries[k].version.value, entries[i].version.value)
    {
      if i < |init| {
        assert entries[i] == init[i];
      }
    }
    forall i | k < i < |entries| && entries[i].version.Some?
      ensures Older(entries[i].version.value, entries[k].version.value)
    {
      if i < |init| {
        assert entries[i] == init[i];
      }
    }
  }

  datatype GccObjects = GccObjects(beginObject: string, endObject: string, libDir: string)

  /** `libDir` is the newest version entry `k` of the first existing
      directory `i` of `dirs`. */
  predicate ChosenDir(dirs: seq<string>, fs: FileSystem, i: int, k: int, libDir: string)
  {
    && FirstIn(dirs, fs.existing, i)
    && dirs[i] in fs.listings
    && NewestAt(fs.listings[dirs[i]], k)
    && libDir == Join(dirs[i], fs.listings[dirs[i]][k].name)
  }

  /** The newest version directory under the first existing directory of
      `dirs`. */
  function VersionDir(dirs: seq<string>, fs: FileSystem): (r: Result<string, LinkError>)
    ensures r == Err(NoGccDir) <==> forall j | 0 <= j < |dirs| :: dirs[j] !in fs.existing
    ensures r.Ok? ==> exists i, k :: ChosenDir(dirs, fs, i, k, r.value)
    ensures r == Err(NoGccVersion) <==>
              exists i :: FirstIn(dirs, fs.existing, i) && dirs[i] in fs.listings
                          && Unversioned(fs.listings[dirs[i]])
    ensures r.Err? && r.error.CannotList? <==>
              exists i :: FirstIn(dirs, fs.existing, i) && dirs[i] !in fs.listings && r == Err(CannotList(dirs[i]))
    ensures r.Ok? <==>
              exists i :: FirstIn(dirs, fs.existing, i) && dirs[i] in fs.listings
                          && !Unversioned(fs.listings[dirs[i]])
  {
    match FirstIndex(dirs, fs.existing)
    case None =>
      assert forall i :: !FirstIn(dirs, fs.existing, i);
      Err(NoGccDir)
    case Some(i) =>
      assert forall j | FirstIn(dirs, fs.existing, j) :: j == i by {
        forall j | FirstIn(dirs, fs.existing, j) ensures j == i {
          FirstInUnique(dirs, fs.existing, i, j);
        }
      }
      var dir := dirs[i];
      if dir !in fs.listings then Err(CannotList(dir))
      else
        match Newest(fs.listings[dir])
        case None => Err(NoGccVersion)
        case Some(k) =>
          var libDir := Join(dir, fs.listings[dir][k].name);
          assert ChosenDir(dirs, fs, i, k, libDir);
          Ok(libDir)
  }

  /** `gcc_objects`: the begin and end objects of `kind` in the newest
      version directory under the first existing GCC directory. */
  function GccObjectsFor(kind: OutputKind, fs: FileSystem): (r: Result<GccObjects, LinkError>)
    ensures r.Ok? ==> VersionDir(GccDirs(), fs) == Ok(r.value.libDir)
                      && r.value.beginObject == Join(r.value.libDir, BeginObjectName(kind))
                      && r.value.endObject == Join(r.value.libDir, EndObjectName)
    ensures r.Err? ==> VersionDir(GccDirs(), fs).Err? && r.error == VersionDir(GccDirs(), fs).error
  {
    var libDir :- VersionDir(GccDirs(), fs);
    Ok(GccObjects(Join(libDir, BeginObjectName(kind)), Join(libDir, EndObjectName), libDir))
  }

  /** Only one directory can be the first existing one. */
  lemma FirstInUnique(paths: seq<string>, existing: set<string>, i: int, j: int)
    requires FirstIn(paths, existing, i) && FirstIn(paths, existing, j)
    ensures i == j
  {
  }

  // ----- The argument vector -----------------------------------------------

  /** The arguments every link line starts with. */
  const BuiltinArgs: seq<string> := ["--hash-style=gnu", "--build-id", "--eh-frame-hdr", "-m", "elf_x86_64"]

  const DynamicLinker: string := "/lib64/ld-linux-x86-64.so.2"

  /** The emulation and program interpreter written into every link line
      are those of x86-64 in the architecture table. */
  lemma BuiltinArchIsX86_64()
    ensures BuiltinArgs[3] == "-m" && BuiltinArgs[4] == Arch.Emulation(Arch.X86_64)
    ensures DynamicLinker == Arch.DynamicLinker(Arch.X86_64)
  {
  }

  /** The arguments that say what kind of output to produce. */
  function OutputKindArgs(kind: OutputKind): (r: seq<string>)
    ensures "-pie" in r <==> kind in {DynamicPie, StaticPie}
    ensures "-static" in r <==> IsStatic(kind)
    ensures "-shared" in r <==> kind == SharedObject
    ensures DynamicLinker in r <==> kind in {DynamicPie, Dynamic}
    ensures DynamicLinker in r ==> |r| >= 2 && r[|r| - 2] == "--dynamic-linker" && r[|r| - 1] == DynamicLinker
  {
    match kind
    case DynamicPie => ["-pie", "--dynamic-linker", DynamicLinker]
    case StaticPie => ["-static", "-pie"]
    case Dynamic => ["--dynamic-linker", DynamicLinker]
    case Static => ["-static"]
    case SharedObject => ["-shared"]
  }

  const CxxLibs: seq<string> := ["-lstdc++", "-lm"]
  const StaticSystemLibs: seq<string> := ["-lgcc", "-lgcc_eh", "-lc"]
  const SharedSystemLibs: seq<string> := ["-lgcc", "--as-needed", "-lgcc_s", "--no-as-needed", "-lc"]

  predicate IsStatic(kind: OutputKind)
  {
    kind == Static || kind == StaticPie
  }

  /** The libraries added when the driver links the default libraries. */
  function DefaultLibs(kind: OutputKind, defaultLibs: bool, cppMode: bool): (r: seq<string>)
    ensures r == [] <==> !defaultLibs
    ensures defaultLibs ==> |r| >= 3 && r[|r| - 1] == "-lc"
    ensures defaultLibs ==> (r[..2] == CxxLibs <==> cppMode)
    ensures defaultLibs ==> (r[|r| - 3..] == StaticSystemLibs <==> IsStatic(kind))
  {
    if !defaultLibs then []
    else
      var cxx := if cppMode then CxxLibs else [];
      var system := if IsStatic(kind) then StaticSystemLibs else SharedSystemLibs;
      var r := cxx + system;
      assert r[|r| - |system|..] == system;
      assert r[|r| - 3] == if IsStatic(kind) then "-lgcc" else "-lgcc_s";
      assert r[0] == if cppMode then "-lstdc++" else "-lgcc";
      assert cppMode ==> r[..2] == CxxLibs;
      r
  }

  /** The `-L` argument for a search directory. */
  function SearchFlag(dir: string): string
  {
    SearchPrefix + dir
  }

  const SearchPrefix: string := "-L"

  /** The `-L` arguments for `dirs`, in order. */
  function SearchFlags(dirs: seq<string>): (r: seq<string>)
    ensures |r| == |dirs| && forall i | 0 <= i < |dirs| :: r[i] == SearchFlag(dirs[i])
  {
    if dirs == [] then [] else [SearchFlag(dirs[0])] + SearchFlags(dirs[1..])
  }

  /** The vector up to and including the output file. */
  function Head(kind: OutputKind, output: string): seq<string>
  {
    BuiltinArgs + OutputKindArgs(kind) + ["-o", output]
  }

  /** The final linker argument vector, piece by piece in the order `link`
      pushes them. */
  function LinkLine(sys: SystemPaths, gcc: GccObjects, driver: DriverArgs, linkerArgs: seq<string>, cppMode: bool): (r: seq<string>)
    ensures |r| == |Head(driver.outputKind, driver.output)| + |Objects(sys, gcc)| + |driver.objectsAndLibs|
                   + |linkerArgs| + |DefaultLibs(driver.outputKind, driver.defaultLibs, cppMode)| + 2
  {
    Head(driver.outputKind, driver.output)
    + OptionToSeq(sys.crt1) + [sys.crti] + [gcc.beginObject] + [SearchFlag(gcc.libDir)]
    + SearchFlags(sys.libraryPaths)
    + driver.objectsAndLibs + linkerArgs
    + DefaultLibs(driver.outputKind, driver.defaultLibs, cppMode)
    + [gcc.endObject] + [sys.crtn]
  }

  /** What `link` hands to the linker, or the error that stops it first. */
  function LinkResult(linkerArgs: seq<string>, driver: DriverArgs, cppMode: bool, fs: FileSystem): Result<seq<string>, LinkError>
  {
    match SystemLibraryPaths(driver.outputKind, fs)
    case Err(e) => Err(e)
    case Ok(sys) =>
      match GccObjectsFor(driver.outputKind, fs)
      case Err(e) => Err(e)
      case Ok(gcc) => Ok(LinkLine(sys, gcc, driver, linkerArgs, cppMode))
  }

  /** `link`, up to the vector it hands to the linker: built by pushing and
      extending in the order above. */
  method Link(linkerArgs: seq<string>, driver: DriverArgs, cppMode: bool, fs: FileSystem)
    returns (r: Result<seq<string>, LinkError>)
    ensures r == LinkResult(linkerArgs, driver, cppMode, fs)
  {
    var sys :- SystemLibraryPaths(driver.outputKind, fs);
    var gcc :- GccObjectsFor(driver.outputKind, fs);
    var line := BuildLine(sys, gcc, driver, linkerArgs, cppMode);
    return Ok(line);
  }

  /** The body of `link` that fills `final_linker_args`: pushes and extends
      in the order of the link line. */
  method BuildLine(sys: SystemPaths, gcc: GccObjects, driver: DriverArgs, linkerArgs: seq<string>, cppMode: bool)
    returns (line: seq<string>)
    ensures line == LinkLine(sys, gcc, driver, linkerArgs, cppMode)
  {
    line := BuiltinArgs;
    line := line + OutputKindArgs(driver.outputKind);
    line := line + ["-o", driver.output];
    ghost var head := line;
    if sys.crt1.Some? {
      line := line + [sys.crt1.value];
    } else {
      assert line == head + [];
    }
    line := line + [sys.crti];
    line := line + [gcc.beginObject];
    line := line + [SearchFlag(gcc.libDir)];
    line := PushSearchFlags(line, sys.libraryPaths);
    line := line + driver.objectsAndLibs;
    line := line + linkerArgs;
    ghost var beforeLibs := line;
    if driver.defaultLibs {
      if cppMode {
        line := line + CxxLibs;
      }
      if driver.outputKind == Static || driver.outputKind == StaticPie {
        line := line + StaticSystemLibs;
      } else {
        line := line + SharedSystemLibs;
      }
    }
    assert line == beforeLibs + DefaultLibs(driver.outputKind, driver.defaultLibs, cppMode);
    line := line + [gcc.endObject];
    line := line + [sys.crtn];
  }

  /** The loop that pushes `-L<dir>` for each system directory. */
  method PushSearchFlags(start: seq<string>, dirs: seq<string>) returns (line: seq<string>)
    ensures line == start + SearchFlags(dirs)
  {
    line := start;
    for i := 0 to |dirs|
      invariant line == start + SearchFlags(dirs[..i])
    {
      SearchFlagsSnoc(dirs, i);
      line := line + [SearchFlag(dirs[i])];
    }
    assert dirs[..|dirs|] == dirs;
  }

  /** The search flags of one more directory. */
  lemma SearchFlagsSnoc(dirs: seq<string>, i: nat)
    requires i < |dirs|
    ensures SearchFlags(dirs[..i + 1]) == SearchFlags(dirs[..i]) + [SearchFlag(dirs[i])]
  {
    var a, b := SearchFlags(dirs[..i + 1]), SearchFlags(dirs[..i]) + [SearchFlag(dirs[i])];
    assert |a| == |b|;
    assert forall j | 0 <= j < |a| :: a[j] == b[j];
  }

  // ----- Properties of the link line -----------------------------------------

  /** The vector always starts with `--hash-style=gnu` and ends with the end
      object, then `crtn.o`. */
  lemma LinkLineEnds(sys: SystemPaths, gcc: GccObjects, driver: DriverArgs, linkerArgs: seq<string>, cppMode: bool)
    ensures var line := LinkLine(sys, gcc, driver, linkerArgs, cppMode);
            |line| >= 2 && line[0] == "--hash-style=gnu" && line[|line| - 2..] == [gcc.endObject, sys.crtn]
  {
    var line := LinkLine(sys, gcc, driver, linkerArgs, cppMode);
    var body := line[..|line| - 2];
    assert line == body + [gcc.endObject, sys.crtn];
    assert line[0] == Head(driver.outputKind, driver.output)[0] == BuiltinArgs[0];
  }

  /** Where the start objects begin: right after `-o <output>`. */
  function StartIndex(driver: DriverArgs): nat
  {
    |Head(driver.outputKind, driver.output)|
  }

  /** Where the driver's objects and libraries begin. */
  function InputsIndex(sys: SystemPaths, driver: DriverArgs): nat
  {
    StartIndex(driver) + |OptionToSeq(sys.crt1)| + 3 + |sys.libraryPaths|
  }

  /** The start objects, `crti.o`, the begin object and the search flags. */
  function Objects(sys: SystemPaths, gcc: GccObjects): seq<string>
  {
    OptionToSeq(sys.crt1) + [sys.crti, gcc.beginObject, SearchFlag(gcc.libDir)] + SearchFlags(sys.libraryPaths)
  }

  /** The vector is the head, the objects, and the rest. */
  lemma LinkLineGrouped(sys: SystemPaths, gcc: GccObjects, driver: DriverArgs, linkerArgs: seq<string>, cppMode: bool)
    ensures LinkLine(sys, gcc, driver, linkerArgs, cppMode)
            == Head(driver.outputKind, driver.output) + Objects(sys, gcc) + Rest(sys, gcc, driver, linkerArgs, cppMode)
  {
    LinkLineFront(sys, gcc, driver);
    LinkLineSplit(sys, gcc, driver, linkerArgs, cppMode);
  }

  /** Everything a link line holds after the system search flags. */
  function Rest(sys: SystemPaths, gcc: GccObjects, driver: DriverArgs, linkerArgs: seq<string>, cppMode: bool): seq<string>
  {
    driver.objectsAndLibs + linkerArgs + DefaultLibs(driver.outputKind, driver.defaultLibs, cppMode)
    + [gcc.endObject] + [sys.crtn]
  }

  /** The front of a link line, as `link` pushes it. */
  function Front(sys: SystemPaths, gcc: GccObjects, driver: DriverArgs): seq<string>
  {
    Head(driver.outputKind, driver.output) + OptionToSeq(sys.crt1) + [sys.crti] + [gcc.beginObject]
    + [SearchFlag(gcc.libDir)] + SearchFlags(sys.libraryPaths)
  }

  /** The front is the head and then the objects. */
  lemma LinkLineFront(sys: SystemPaths, gcc: GccObjects, driver: DriverArgs)
    ensures Front(sys, gcc, driver) == Head(driver.outputKind, driver.output) + Objects(sys, gcc)
  {
    GroupObjects(Head(driver.outputKind, driver.output), OptionToSeq(sys.crt1), sys.crti, gcc.beginObject,
                 SearchFlag(gcc.libDir), SearchFlags(sys.libraryPaths));
  }

  /** The front ends where the driver's objects and libraries begin. */
  lemma FrontLength(sys: SystemPaths, gcc: GccObjects, driver: DriverArgs)
    ensures |Front(sys, gcc, driver)| == InputsIndex(sys, driver)
  {
  }

  /** A link line is its front and then everything else. */
  lemma LinkLineSplit(sys: SystemPaths, gcc: GccObjects, driver: DriverArgs, linkerArgs: seq<string>, cppMode: bool)
    ensures LinkLine(sys, gcc, driver, linkerArgs, cppMode)
            == Front(sys, gcc, driver) + Rest(sys, gcc, driver, linkerArgs, cppMode)
  {
    GroupAfter(Front(sys, gcc, driver), driver.objectsAndLibs, linkerArgs,
               DefaultLibs(driver.outputKind, driver.defaultLibs, cppMode), [gcc.endObject], [sys.crtn]);
  }

  /** Regrouping the start objects of a link line. */
  lemma GroupObjects<T>(h: seq<T>, c: seq<T>, x: T, y: T, z: T, f: seq<T>)
    ensures h + c + [x] + [y] + [z] + f == h + (c + [x, y, z] + f)
  {
  }

  /** Regrouping everything after a prefix. */
  lemma GroupAfter<T>(a: seq<T>, p: seq<T>, q: seq<T>, r: seq<T>, s: seq<T>, t: seq<T>)
    ensures a + p + q + r + s + t == a + (p + q + r + s + t)
  {
  }

  /** The output file follows `-o`, and the start object (if any), `crti.o`,
      the begin object, the GCC directory and the system directories follow
      it in that order. */
  lemma LinkLineStart(sys: SystemPaths, gcc: GccObjects, driver: DriverArgs, linkerArgs: seq<string>, cppMode: bool)
    ensures var line, k := LinkLine(sys, gcc, driver, linkerArgs, cppMode), StartIndex(driver);
            && line[k - 2..k] == ["-o", driver.output]
            && line[k..InputsIndex(sys, driver)] == Objects(sys, gcc)
  {
    var line, k := LinkLine(sys, gcc, driver, linkerArgs, cppMode), StartIndex(driver);
    var head, objects := Head(driver.outputKind, driver.output), Objects(sys, gcc);
    LinkLineGrouped(sys, gcc, driver, linkerArgs, cppMode);
    var rest := Rest(sys, gcc, driver, linkerArgs, cppMode);
    Halves(head + objects, rest);
    Halves(head, objects);
    Halves(BuiltinArgs + OutputKindArgs(driver.outputKind), ["-o", driver.output]);
  }

  /** In `s == p + a + b + m + x + y` with one-element `x` and `y`, `a + b`
      and `m` sit where their lengths say. */
  lemma Middle<T>(s: seq<T>, p: seq<T>, a: seq<T>, b: seq<T>, m: seq<T>, x: seq<T>, y: seq<T>)
    requires s == p + a + b + m + x + y && |x| == 1 && |y| == 1
    ensures |p| + |a| + |b| <= |s| - 2
    ensures s[|p|..|p| + |a| + |b|] == a + b
    ensures s[|p| + |a| + |b|..|s| - 2] == m
  {
    var k := |p|;
    assert s[k..k + |a| + |b|] == a + b by {
      forall i | 0 <= i < |a| + |b| ensures s[k + i] == (a + b)[i] {
        if i < |a| { assert s[k + i] == a[i]; } else { assert s[k + i] == b[i - |a|]; }
      }
    }
    assert s[k + |a| + |b|..|s| - 2] == m by {
      forall i | 0 <= i < |m| ensures s[k + |a| + |b| + i] == m[i] {
      }
    }
  }

  /** The driver's objects and libraries, then the linker arguments, appear
      unchanged and in order; after them come the default libraries and the
      two end objects. */
  lemma LinkLineInputs(sys: SystemPaths, gcc: GccObjects, driver: DriverArgs, linkerArgs: seq<string>, cppMode: bool)
    ensures var line, k := LinkLine(sys, gcc, driver, linkerArgs, cppMode), InputsIndex(sys, driver);
            var n := |driver.objectsAndLibs| + |linkerArgs|;
            && k + n <= |line| - 2
            && line[k..k + n] == driver.objectsAndLibs + linkerArgs
            && line[k + n..|line| - 2] == DefaultLibs(driver.outputKind, driver.defaultLibs, cppMode)
  {
    var before, libs := Front(sys, gcc, driver), DefaultLibs(driver.outputKind, driver.defaultLibs, cppMode);
    FrontLength(sys, gcc, driver);
    Middle(LinkLine(sys, gcc, driver, linkerArgs, cppMode), before, driver.objectsAndLibs, linkerArgs, libs, [gcc.endObject], [sys.crtn]);
  }

  /** The first start object is `crt1` when there is one and `crti.o`
      otherwise; the system search flags come right after the GCC
      directory's. */
  lemma LinkLineStartObject(sys: SystemPaths, gcc: GccObjects, driver: DriverArgs, linkerArgs: seq<string>, cppMode: bool)
    ensures var line, k := LinkLine(sys, gcc, driver, linkerArgs, cppMode), StartIndex(driver);
            && line[k] == (if sys.crt1.None? then sys.crti else sys.crt1.value)
            && line[k + |OptionToSeq(sys.crt1)| + 3..InputsIndex(sys, driver)] == SearchFlags(sys.libraryPaths)
  {
    LinkLineStart(sys, gcc, driver, linkerArgs, cppMode);
    var c := OptionToSeq(sys.crt1);
    var objects := Objects(sys, gcc);
    assert objects[0] == if sys.crt1.None? then sys.crti else sys.crt1.value;
    Halves(c + [sys.crti, gcc.beginObject, SearchFlag(gcc.libDir)], SearchFlags(sys.libraryPaths));
  }

  /** In a finished link line the first start object is the kind's `crt1`
      object, or `crti.o` for a shared object, and the system search flags
      name all four probe directories in probe order, whichever held
      `crti.o`. */
  lemma LinkStartObjects(linkerArgs: seq<string>, driver: DriverArgs, cppMode: bool, fs: FileSystem)
    requires LinkResult(linkerArgs, driver, cppMode, fs).Ok?
    ensures var sys, line := SystemLibraryPaths(driver.outputKind, fs).value, LinkResult(linkerArgs, driver, cppMode, fs).value;
            var k := StartIndex(driver) + |OptionToSeq(sys.crt1)|;
            && line[StartIndex(driver)] == (if driver.outputKind == SharedObject then sys.crti else sys.crt1.value)
            && line[k + 3..InputsIndex(sys, driver)] == SearchFlags(SystemDirs)
  {
    LinkResultLine(linkerArgs, driver, cppMode, fs);
    var sys, gcc := SystemLibraryPaths(driver.outputKind, fs).value, GccObjectsFor(driver.outputKind, fs).value;
    LinkLineStartObject(sys, gcc, driver, linkerArgs, cppMode);
  }

  /** A finished link line is the line built from the start files and the
      GCC objects that were found. */
  lemma LinkResultLine(linkerArgs: seq<string>, driver: DriverArgs, cppMode: bool, fs: FileSystem)
    requires LinkResult(linkerArgs, driver, cppMode, fs).Ok?
    ensures SystemLibraryPaths(driver.outputKind, fs).Ok? && GccObjectsFor(driver.outputKind, fs).Ok?
    ensures LinkResult(linkerArgs, driver, cppMode, fs).value
            == LinkLine(SystemLibraryPaths(driver.outputKind, fs).value, GccObjectsFor(driver.outputKind, fs).value,
                        driver, linkerArgs, cppMode)
  {
  }
}
