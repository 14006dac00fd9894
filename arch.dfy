/** The architecture catalogue: the three supported CPU architectures, their
    names, linker emulations and dynamic linkers, and the target-triple
    parser (libwild-proxy/src/arch.rs). */
module Arch {
  import opened Wrappers
  import opened Text

  datatype Arch = X86_64 | Aarch64 | Riscv64

  /** The errors `from_str` and `target_arch` report. */
  datatype ArchError =
    | UnsupportedArchitecture(name: string)
    | UnknownTargetTriple(triple: string)
    | UnsupportedTargetTriple(triple: string)
    | WhileParsingTriple(triple: string, cause: ArchError)

  /** `impl Display for Arch`. */
  function Display(a: Arch): (s: string)
    ensures s != [] && '-' !in s
  {
    match a
    case X86_64 => "x86_64"
    case Aarch64 => "aarch64"
    case Riscv64 => "riscv64"
  }

  /** `Arch::emulation`: the value the linker takes after `-m`, a single
      word that cannot be read as an option. */
  function Emulation(a: Arch): (r: string)
    ensures r != [] && r[0] != '-' && ' ' !in r
  {
    match a
    case X86_64 => "elf_x86_64"
    case Aarch64 => "aarch64linux"
    case Riscv64 => "elf64lriscv"
  }

  /** `Arch::dynamic_linker`: the program interpreter of dynamic executables,
      an absolute path to a shared object. */
  function DynamicLinker(a: Arch): (r: string)
    ensures r != [] && r[0] == '/' && ' ' !in r
  {
    match a
    case X86_64 => "/lib64/ld-linux-x86-64.so.2"
    case Aarch64 => "/lib/ld-linux-aarch64.so.1"
    case Riscv64 => "/lib/ld-linux-riscv64-lp64d.so.1"
  }

  /** The three architectures differ in name, emulation and dynamic linker. */
  lemma ArchNamesDistinct(a: Arch, b: Arch)
    ensures a != b ==> Display(a) != Display(b)
    ensures a != b ==> Emulation(a) != Emulation(b)
    ensures a != b ==> DynamicLinker(a) != DynamicLinker(b)
  {
  }

  /** `impl FromStr for Arch`: accepts exactly the three displayed names. */
  function FromStr(s: string): (r: Result<Arch, ArchError>)
    ensures r.Ok? ==> Display(r.value) == s
    ensures r.Err? ==> r.error == UnsupportedArchitecture(s)
    ensures forall a: Arch :: Display(a) == s ==> r == Ok(a)
  {
    if s == Display(X86_64) then Ok(X86_64)
    else if s == Display(Aarch64) then Ok(Aarch64)
    else if s == Display(Riscv64) then Ok(Riscv64)
    else Err(UnsupportedArchitecture(s))
  }

  /** Round trip: parsing the displayed name gives the architecture back. */
  lemma FromStrDisplay(a: Arch)
    ensures FromStr(Display(a)) == Ok(a)
  {
  }

  /** The vendor-and-system part of a triple that `target_arch` accepts. */
  predicate IsGnuTail(rest: string)
  {
    rest == "linux-gnu" || rest == "pc-linux-gnu"
  }

  /** `target_arch`: the architecture of a triple `<arch>-linux-gnu` or
      `<arch>-pc-linux-gnu`; the arch is the text before the first `-`. */
  function TargetArch(triple: string): (r: Result<Arch, ArchError>)
    ensures r.Err? ==> !r.error.UnsupportedArchitecture? && r.error.triple == triple
  {
    match SplitOnce(triple, '-')
    case None => Err(UnknownTargetTriple(triple))
    case Some((arch, rest)) =>
      if !IsGnuTail(rest) then
        Err(UnsupportedTargetTriple(triple))
      else
        match FromStr(arch)
        case Ok(a) => Ok(a)
        case Err(e) => Err(WhileParsingTriple(triple, e))
  }

  /** Exactly the triples `<arch>-linux-gnu` and `<arch>-pc-linux-gnu` of a
      supported architecture are accepted, and they give that architecture. */
  lemma TargetArchAccepts(triple: string, a: Arch)
    ensures TargetArch(triple) == Ok(a) <==>
              exists rest :: IsGnuTail(rest) && triple == Display(a) + "-" + rest
  {
    if TargetArch(triple) == Ok(a) {
      var rest := TargetArchOkShape(triple, a);
    }
    if rest :| IsGnuTail(rest) && triple == Display(a) + "-" + rest {
      TargetArchOfTriple(a, rest);
    }
  }

  lemma TargetArchOfTriple(a: Arch, rest: string)
    requires IsGnuTail(rest)
    ensures TargetArch(Display(a) + "-" + rest) == Ok(a)
  {
    JoinedTriple(Display(a), rest);
  }

  lemma TargetArchOkShape(triple: string, a: Arch) returns (rest: string)
    requires TargetArch(triple) == Ok(a)
    ensures IsGnuTail(rest) && triple == Display(a) + "-" + rest
  {
    var arch;
    arch, rest := SplitOnce(triple, '-').value.0, SplitOnce(triple, '-').value.1;
    assert triple == arch + ['-'] + rest;
  }

  lemma JoinedTriple(name: string, rest: string)
    requires '-' !in name
    ensures SplitOnce(name + "-" + rest, '-') == Some((name, rest))
  {
    assert name + "-" + rest == name + ['-'] + rest;
    SplitOnceOfJoin(name, '-', rest);
  }

  /** A well-formed triple whose architecture is not supported is rejected
      with the name that failed to parse. */
  lemma TargetArchUnsupported(name: string, rest: string)
    requires '-' !in name && IsGnuTail(rest) && FromStr(name).Err?
    ensures TargetArch(name + "-" + rest) ==
              Err(WhileParsingTriple(name + "-" + rest, UnsupportedArchitecture(name)))
  {
    JoinedTriple(name, rest);
  }

  /** The triples of the source's own tests: both spellings of aarch64. */
  lemma TargetArchAarch64Example()
    ensures TargetArch("aarch64-pc-linux-gnu") == Ok(Aarch64)
  {
    assert "aarch64-pc-linux-gnu" == Display(Aarch64) + "-" + "pc-linux-gnu";
    TargetArchOfTriple(Aarch64, "pc-linux-gnu");
  }

  lemma TargetArchShortAarch64Example()
    ensures TargetArch("aarch64-linux-gnu") == Ok(Aarch64)
  {
    assert "aarch64-linux-gnu" == Display(Aarch64) + "-" + "linux-gnu";
    TargetArchOfTriple(Aarch64, "linux-gnu");
  }

  /** A triple with another vendor is rejected. */
  lemma TargetArchVendorExample()
    ensures TargetArch("x86_64-unknown-linux-gnu") == Err(UnsupportedTargetTriple("x86_64-unknown-linux-gnu"))
  {
    assert "x86_64-unknown-linux-gnu" == "x86_64" + "-" + "unknown-linux-gnu";
    JoinedTriple("x86_64", "unknown-linux-gnu");
  }

  /** A triple of an unsupported architecture is rejected by `from_str`. */
  lemma TargetArchUnsupportedExample()
    ensures TargetArch("mips-linux-gnu") ==
              Err(WhileParsingTriple("mips-linux-gnu", UnsupportedArchitecture("mips")))
  {
    assert "mips-linux-gnu" == "mips" + "-" + "linux-gnu";
    assert |"mips"| == 4;
    TargetArchUnsupported("mips", "linux-gnu");
  }
}
