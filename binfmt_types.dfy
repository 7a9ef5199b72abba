/**
 * The unified binary model of rop-tool's binfmt layer: the enumerations a
 * loaded file is described by, and the segment, section and symbol records
 * that the format loaders produce.
 */
module BinfmtTypes {
  newtype byte = x: int | 0 <= x < 0x100
  newtype u32 = x: int | 0 <= x < 0x1_0000_0000
  newtype u64 = x: int | 0 <= x < 0x1_0000_0000_0000_0000

  /** The largest value of a C `long` on an LP64 platform. */
  const LONG_MAX: int := 0x7FFF_FFFF_FFFF_FFFF

  /** Container type of a loaded file. */
  datatype BinType = Undef | Elf32 | Elf64 | Pe | MachO32 | MachO64 | Raw

  /** CPU architecture of a loaded file. */
  datatype Arch = Undef | X86 | X86_64 | Arm | Arm64 | Mips | Mips64

  /** Byte order of a loaded file. */
  datatype Endian = Undef | Big | Little

  /** Status codes a format loader returns. */
  datatype BinfmtErr = Ok | Unrecognized | NotSupported | MalformedFile

  /** One loadable memory region; `flags` is the protection bit set. */
  datatype Segment = Segment(addr: u64, length: u64, flags: u32)

  /** One named region, kept for reporting. */
  datatype Section = Section(name: string, addr: u64, size: u64)

  /** One named address of interest. */
  datatype Symbol = Symbol(addr: u64, name: string)

  /** Everything a loader writes into a binary: its metadata and its three lists. */
  datatype Image = Image(
    binType: BinType,
    arch: Arch,
    endian: Endian,
    entry: u64,
    segments: seq<Segment>,
    sections: seq<Section>,
    syms: seq<Symbol>)
}
