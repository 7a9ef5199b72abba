/**
 * Conversions between the binfmt enumerations and their printable names,
 * and the text of a loader status code.
 */
module BinfmtStrings {
  import opened BinfmtTypes

  /** The names an architecture can be selected by. */
  const ArchNames: set<string> := {"x86", "x86-64", "arm", "arm64"}

  /** Text of a loader status code. */
  function GetErr(err: BinfmtErr): (msg: string)
    ensures msg == "OK" <==> err == Ok
    ensures err != Ok ==> |msg| > 0
  {
    match err
    case Ok => "OK"
    case Unrecognized => "unrecognized file format"
    case NotSupported => "not yet supported"
    case MalformedFile => "malformed file (3vil or obfuscated file ?!)"
  }

  /** Parses an architecture name; any other string is Undef. */
  function StringToArch(s: string): (a: Arch)
    ensures a != Arch.Undef <==> s in ArchNames
    ensures a != Arch.Undef ==> ArchToString(a) == s
    ensures a != Arch.Mips && a != Arch.Mips64
  {
    if s == "x86" then Arch.X86
    else if s == "x86-64" then Arch.X86_64
    else if s == "arm" then Arch.Arm
    else if s == "arm64" then Arch.Arm64
    else Arch.Undef
  }

  /** Printable name of an architecture. */
  function ArchToString(a: Arch): (s: string)
    ensures s == "unknown" <==> a == Arch.Undef
    ensures |s| > 0
  {
    match a
    case X86 => "x86"
    case X86_64 => "x86-64"
    case Arm => "arm"
    case Arm64 => "arm64"
    case Mips => "mips"
    case Mips64 => "mips64"
    case Undef => "unknown"
  }

  /** Printable name of a container type. */
  function TypeToString(t: BinType): (s: string)
    ensures s == "unkown" <==> t == BinType.Undef
    ensures |s| > 0
  {
    match t
    case Elf32 => "ELF32"
    case Elf64 => "ELF64"
    case Pe => "PE"
    case MachO32 => "Mach-O (32 bits)"
    case MachO64 => "Mach-O (64 bits)"
    case Raw => "raw"
    case Undef => "unkown"
  }

  /** Printable name of a byte order. */
  function EndianToString(e: Endian): (s: string)
    ensures s == "unkown" <==> e == Endian.Undef
    ensures |s| > 0
  {
    match e
    case Big => "big endian"
    case Little => "little endian"
    case Undef => "unkown"
  }

  /**
   * Printing an architecture and parsing the text back gives the same
   * architecture for the four selectable ones, and Undef for the others:
   * "mips" and "mips64" are printed but not parsed.
   */
  lemma ArchRoundTrip(a: Arch)
    ensures a in {Arch.X86, Arch.X86_64, Arch.Arm, Arch.Arm64} ==> StringToArch(ArchToString(a)) == a
    ensures a !in {Arch.X86, Arch.X86_64, Arch.Arm, Arch.Arm64} ==> StringToArch(ArchToString(a)) == Arch.Undef
  {
  }

  /** Distinct architectures print differently, so the printed name identifies the architecture. */
  lemma ArchToStringInjective(a: Arch, b: Arch)
    ensures ArchToString(a) == ArchToString(b) ==> a == b
  {
  }

  /** Distinct container types print differently. */
  lemma TypeToStringInjective(t: BinType, u: BinType)
    ensures TypeToString(t) == TypeToString(u) ==> t == u
  {
  }

  /** Distinct byte orders print differently. */
  lemma EndianToStringInjective(e: Endian, f: Endian)
    ensures EndianToString(e) == EndianToString(f) ==> e == f
  {
  }

  /** Distinct status codes have distinct texts. */
  lemma GetErrInjective(e: BinfmtErr, f: BinfmtErr)
    ensures GetErr(e) == GetErr(f) ==> e == f
  {
  }
}
