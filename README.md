# rop-tool binary loading layer, in Dafny

This project models the format-agnostic loading layer of rop-tool (`api/src/binfmt/bin.c`).
That layer maps a file into memory. It either hands the file to a raw loader, when the caller
names an architecture, or tries the format loaders in table order: ELF32, ELF64, PE, Mach-O 32,
Mach-O 64. On a successful detection it checks the result and sorts the symbols by address.
The model also covers the small helpers of the same file:

- the conversions between the architecture, container type and byte order enumerations and their
  printable names, and the texts of the loader status codes;
- the address width of an architecture and the bad-address test, which looks for forbidden bytes
  in a gadget's address;
- the lookup of the first segment with given protection flags.

Modules:

- `Wrappers`: `Option` and `Result`.
- `BinfmtTypes`: the enumerations, the segment, section and symbol records, and `Image`.
  `Image` holds what a loader fills in.
- `BinfmtStrings`: the string tables and `GetErr`.
- `BinfmtAddr`: `AddrSize` and `IsBadAddr`.
- `BinfmtSyms`: ordering symbols by address.
- `BinfmtDispatch`: the loader table and the check of a parsed image. It also holds the
  specification `Detect` of format detection, the loop `DetectFormat` proved equal to it, and the
  lemmas about detection.
- `Binfmt`: the class `Binary`, which `Load` fills in place, and `GetSegment`.

The format loaders and the raw loader are function-valued parameters. Their bodies are not part of
this model. A format loader is a function from the mapped bytes to a status code and the image it
fills in. The fatal `R_UTILS_ERR` exits of the source become `LoadError` values.

Two behaviours of the code are worth stating:

- After a successful parse (`api/src/binfmt/bin.c:62-68`) the code checks the byte order and the container type, not the
  architecture. An image with an undefined architecture is accepted.
- In raw mode (`api/src/binfmt/bin.c:114-117`) the code returns straight after the raw loader. It neither checks the result nor
  sorts the symbols.

## Model

| member | source | states |
|---|---|---|
| `BinfmtStrings.GetErr` | api/src/binfmt/bin.c:47-59 | Only the Ok code reads "OK"; every other code has a non-empty text |
| `BinfmtStrings.GetErrInjective` | api/src/binfmt/bin.c:47-59 | Distinct status codes have distinct texts |
| `BinfmtStrings.StringToArch` | api/src/binfmt/bin.c:174-186 | A string parses to a defined architecture iff it is "x86", "x86-64", "arm" or "arm64"; a parsed architecture prints back as the same string; MIPS is never the result |
| `BinfmtStrings.ArchRoundTrip` | api/src/binfmt/bin.c:174-207 | Printing then parsing gives back x86, x86-64, ARM and ARM64; MIPS, MIPS64 and Undef come back as Undef |
| `BinfmtStrings.ArchToString` | api/src/binfmt/bin.c:189-207 | Prints each architecture by the source's name; only Undef prints as "unknown", and no name is empty |
| `BinfmtStrings.TypeToString` | api/src/binfmt/bin.c:210-228 | Prints each container type by the source's name; only Undef prints as "unkown", as the source spells it |
| `BinfmtStrings.EndianToString` | api/src/binfmt/bin.c:231-241 | Prints "big endian" or "little endian"; only Undef prints as "unkown", as the source spells it |
| `BinfmtStrings.ArchToStringInjective` | api/src/binfmt/bin.c:189-207 | Distinct architectures have distinct printable names |
| `BinfmtStrings.TypeToStringInjective` | api/src/binfmt/bin.c:210-228 | Distinct container types have distinct printable names |
| `BinfmtStrings.EndianToStringInjective` | api/src/binfmt/bin.c:231-241 | Distinct byte orders have distinct printable names |
| `BinfmtAddr.AddrSize` | api/src/binfmt/bin.c:244-254 | The width is always 4 or 8, and it is 4 exactly for x86 and ARM |
| `BinfmtAddr.IsBadAddr` | api/src/binfmt/bin.c:257-267 | An empty forbidden-byte list never marks an address bad |
| `BinfmtAddr.IsBadAddrMeansForbiddenByte` | api/src/binfmt/bin.c:257-267 | An address is bad iff one of its low AddrSize(arch) bytes is in the forbidden list |
| `BinfmtAddr.LowBytesKept` | api/src/binfmt/bin.c:261 | Keeping the k low bytes of an address (k up to 4) leaves each of those bytes unchanged |
| `BinfmtAddr.LowBytesSurviveTruncation` | api/src/binfmt/bin.c:261 | The (u32) cast keeps the four low bytes of the address unchanged |
| `BinfmtAddr.HighBitsIgnoredOn32Bit` | api/src/binfmt/bin.c:259-261 | On a 4-byte architecture, two addresses with the same low 32 bits get the same verdict |
| `BinfmtSyms.SortSyms` | api/src/binfmt/bin.c:134 | The result is sorted by address and holds the same symbols |
| `BinfmtDispatch.Message` | api/src/binfmt/bin.c:127-128 | The message of a loader failure ends with GetErr of that loader's status |
| `BinfmtDispatch.Check` | api/src/binfmt/bin.c:62-68 | A parsed image passes iff its byte order and container type are defined, and then it passes unchanged; an undefined byte order fails with "Endianess not supported", and a defined byte order with an undefined type fails with "File format not recognized" |
| `BinfmtDispatch.FirstRecognized` | api/src/binfmt/bin.c:120-129 | The index found is the first loader from the starting point not to answer Unrecognized, or the table end |
| `BinfmtDispatch.Tried` | api/src/binfmt/bin.c:37-44 | Loaders are called in table order, and loader k runs only if every earlier one answered Unrecognized; the last one called is the deciding one unless all answered Unrecognized |
| `BinfmtDispatch.DetectFormat` | api/src/binfmt/bin.c:119-132 | The loop returns the outcome Detect specifies and calls exactly the loaders Tried lists |
| `BinfmtDispatch.DecidesUnique` | api/src/binfmt/bin.c:120-129 | Only the first loader not answering Unrecognized decides the outcome |
| `BinfmtDispatch.DetectSucceeds` | api/src/binfmt/bin.c:120-125 | Detection yields an image iff the deciding loader answered Ok with it and its byte order and type are defined |
| `BinfmtDispatch.DetectAborts` | api/src/binfmt/bin.c:127-128 | Detection fails with a loader's error iff that loader decides with a non-Ok status; that status is NotSupported or MalformedFile |
| `BinfmtDispatch.DetectUnsupported` | api/src/binfmt/bin.c:131-132 | "Format not supported" is the outcome iff every loader answers Unrecognized |
| `BinfmtDispatch.DetectRejectsUnresolved` | api/src/binfmt/bin.c:122-124 | When the deciding loader answers Ok, detection fails iff the image's byte order or type is undefined |
| `Binfmt.Binary.constructor` | api/src/binfmt/bin.c:94 | A new record is zero-filled: empty buffer and lists, undefined enumerations |
| `Binfmt.Binary.Load` | api/src/binfmt/bin.c:84-137 | Loading gives the error LoadSpec gives, or fills the record with LoadSpec's image, the mapped bytes, size and file name; it calls exactly the format loaders LoadTried lists |
| `Binfmt.Binary.GetSegment` | api/src/binfmt/bin.c:160-171 | Gives the first segment in list order whose flags equal the requested flags exactly, or None when no segment matches; the list is not changed |
| `Binfmt.RawModeBypassesDetection` | api/src/binfmt/bin.c:114-117 | In raw mode the result is the raw loader's image unchecked and unsorted, and no format loader is called |
| `Binfmt.DetectedLoadIsSortedAndResolved` | api/src/binfmt/bin.c:119-134 | A successful detection-mode load returns the deciding loader's image with resolved byte order and type, and the same symbols sorted by address |
| `Binfmt.UnrecognizedFileFails` | api/src/binfmt/bin.c:119-132 | A file every loader answers Unrecognized to fails with "Format not supported" after all five loaders are called |

## Left out

- File I/O is not modelled. `fopen`, `fseek`, `ftell` and `fread` become two inputs of `Load`: the size `ftell` reported and the bytes `fread` delivered. A size of LONG_MAX is the "directory" error. A read that delivers fewer bytes than the size is the read error. A negative size is not treated apart from that; it ends in the read error. `LONG_MAX` is taken as 2^63-1, as on LP64 platforms.
- `r_binfmt_write`, `r_binfmt_free` and every `r_binfmt_print_*` function are left out: they are file output, memory release and terminal printing.
- The closing of the file descriptor is left out. The source closes it only on the detection path.
- The ELF, PE and Mach-O loaders and `r_binfmt_raw_load` are parameters of `Load`. Their bodies are not part of this model.
- A loader can only return an image. It cannot leave fields of the record half written for the next loader to see. The format-specific hardening fields (NX, SSP, RELRO, RPATH, RUNPATH, PIE) are not modelled.
- `SortSyms` is a stable insertion sort of this model's own. The body of `r_binfmt_syms_sort` is not part of this model, so only "sorted by address, same symbols" is claimed of the source.
- `BinfmtAddr.BytesAreInAddr` stands for `r_utils_bytes_are_in_addr32` and `r_utils_bytes_are_in_addr64`. Their bodies are not part of this model. They are assumed to test whether some byte of the 4- or 8-byte address is in the forbidden list.
- The zero-filling `memset` is modelled by setting every enumeration to Undef. This assumes each Undef value is 0 in the enumerations, whose header is not part of this model.
- Binfmt.Binary.GetSegment returns the index of the segment instead of a pointer into the list. It does not model the list's internal iterator cursor, which the source advances.
- The unreachable fall-through returns are not modelled: "Unknown error" in `r_binfmt_get_err`, and the final "unknown" returns after the switches. The enumerations are closed datatypes here. The default texts "unknown" and "unkown" are kept as the source spells them.
- `tools/src/gadget/gadget.c` is not modelled. It is command-line parsing with process exits, including the depth range 1 to 50 with default 5. The gadget search engine it calls is not part of this model.
