/**
 * The loaded binary: a record filled in place by Load, either from one
 * detected format loader or, when the caller names an architecture, by the
 * raw loader; and the lookup of a segment by its protection flags.
 */
module Binfmt {
  import opened Wrappers
  import opened BinfmtTypes
  import opened BinfmtSyms
  import opened BinfmtDispatch

  /** The raw loader: builds an image from the mapped bytes and a caller-given architecture and byte order. */
  type RawLoader = (seq<byte>, Arch, Endian) -> Image

  /** The outcome of loading a file of reported size `size` whose read returned `data`. */
  function LoadSpec(size: int, data: seq<byte>, arch: Arch, endian: Endian,
                    load: Loaders, rawLoad: RawLoader): (r: Result<Image, LoadError>)
  {
    if size == LONG_MAX then Failure(IsDirectory)
    else if |data| != size then Failure(ReadFailed)
    else if arch != Arch.Undef then Success(rawLoad(data, arch, endian))
    else
      match Detect(load, data)
      case Failure(e) => Failure(e)
      case Success(img) => Success(img.(syms := SortSyms(img.syms)))
  }

  /** The format loaders Load calls: none in raw mode or when reading fails. */
  function LoadTried(size: int, data: seq<byte>, arch: Arch, load: Loaders): (t: seq<FormatLoader>)
  {
    if size == LONG_MAX || |data| != size || arch != Arch.Undef then []
    else Tried(load, data)
  }

  class Binary {
    var mapped: seq<byte>
    var mappedSize: int
    var filename: string
    var binType: BinType
    var arch: Arch
    var endian: Endian
    var entry: u64
    var segments: seq<Segment>
    var sections: seq<Section>
    var syms: seq<Symbol>

    /** What the loader wrote: metadata and the three lists. */
    function View(): (img: Image)
      reads this
    {
      Image(binType, arch, endian, entry, segments, sections, syms)
    }

    /** A zero-filled record. */
    constructor ()
      ensures mapped == [] && mappedSize == 0 && filename == []
      ensures View() == Image(BinType.Undef, Arch.Undef, Endian.Undef, 0, [], [], [])
    {
      mapped, mappedSize, filename := [], 0, [];
      binType, arch, endian, entry := BinType.Undef, Arch.Undef, Endian.Undef, 0;
      segments, sections, syms := [], [], [];
    }

    /** Stores what a loader produced. */
    method SetImage(img: Image)
      modifies this
      ensures View() == img
      ensures mapped == old(mapped) && mappedSize == old(mappedSize) && filename == old(filename)
    {
      binType, arch, endian, entry := img.binType, img.arch, img.endian, img.entry;
      segments, sections, syms := img.segments, img.sections, img.syms;
    }

    /**
     * Loads a file whose size was reported as `size` and whose read returned
     * `data`. With an architecture given the raw loader builds the record and
     * Load returns at once; otherwise the format loaders are tried in table
     * order and, on success, the symbols are sorted by address.
     */
    method Load(name: string, size: int, data: seq<byte>, a: Arch, e: Endian,
                load: Loaders, rawLoad: RawLoader)
      returns (err: Option<LoadError>, tried: seq<FormatLoader>)
      modifies this
      ensures var spec := LoadSpec(size, data, a, e, load, rawLoad);
              (spec.Failure? ==> err == Some(spec.error)) &&
              (spec.Success? ==> err == None && View() == spec.value &&
                                 mapped == data && mappedSize == size && filename == name)
      ensures tried == LoadTried(size, data, a, load)
    {
      mapped, mappedSize, filename := [], 0, [];
      binType, arch, endian, entry := BinType.Undef, Arch.Undef, Endian.Undef, 0;
      segments, sections, syms := [], [], [];
      tried := [];

      if size == LONG_MAX {
        return Some(IsDirectory), tried;
      }
      mapped, mappedSize, filename := data, size, name;
      if |data| != size {
        return Some(ReadFailed), tried;
      }

      if a != Arch.Undef {
        SetImage(rawLoad(data, a, e));
        return None, tried;
      }

      var r;
      r, tried := DetectFormat(load, data);
      if r.Failure? {
        return Some(r.error), tried;
      }
      SetImage(r.value);
      syms := SortSyms(syms);
      err := None;
    }

    /**
     * Index of the first segment, in list order, whose flags equal `flags`
     * exactly, or None when there is none.
     */
    method GetSegment(flags: u32) returns (at: Option<nat>)
      ensures at.Some? ==> at.value < |segments| && segments[at.value].flags == flags
      ensures at.Some? ==> forall j :: 0 <= j < at.value ==> segments[j].flags != flags
      ensures at.None? ==> forall j :: 0 <= j < |segments| ==> segments[j].flags != flags
    {
      var i := 0;
      while i < |segments|
        invariant 0 <= i <= |segments|
        invariant forall j :: 0 <= j < i ==> segments[j].flags != flags
      {
        if segments[i].flags == flags {
          return Some(i);
        }
        i := i + 1;
      }
      return None;
    }
  }

  /** Raw mode calls the raw loader only: no detection, no check and no symbol sort. */
  lemma RawModeBypassesDetection(size: int, data: seq<byte>, arch: Arch, endian: Endian,
                                 load: Loaders, rawLoad: RawLoader)
    requires size != LONG_MAX && |data| == size && arch != Arch.Undef
    ensures LoadSpec(size, data, arch, endian, load, rawLoad) == Success(rawLoad(data, arch, endian))
    ensures LoadTried(size, data, arch, load) == []
  {
  }

  /**
   * A load in detection mode that succeeds returns the image of the loader
   * that decided, with a defined byte order and container type, and with
   * the same symbols sorted by address.
   */
  lemma DetectedLoadIsSortedAndResolved(size: int, data: seq<byte>, endian: Endian,
                                        load: Loaders, rawLoad: RawLoader)
    requires LoadSpec(size, data, Arch.Undef, endian, load, rawLoad).Success?
    ensures var img := LoadSpec(size, data, Arch.Undef, endian, load, rawLoad).value;
            img.endian != Endian.Undef && img.binType != BinType.Undef && SortedByAddr(img.syms) &&
            exists k :: Decides(load, data, k) && load(LoaderTable[k], data).err == Ok &&
                        img == load(LoaderTable[k], data).image.(syms := img.syms) &&
                        multiset(img.syms) == multiset(load(LoaderTable[k], data).image.syms)
  {
    var found := Detect(load, data).value;
    DetectSucceeds(load, data, found);
  }

  /** A file no format loader recognises is never loaded in detection mode. */
  lemma UnrecognizedFileFails(size: int, data: seq<byte>, endian: Endian,
                              load: Loaders, rawLoad: RawLoader)
    requires size != LONG_MAX && |data| == size
    requires forall k :: 0 <= k < |LoaderTable| ==> load(LoaderTable[k], data).err == Unrecognized
    ensures LoadSpec(size, data, Arch.Undef, endian, load, rawLoad) == Failure(FormatNotSupported)
    ensures LoadTried(size, data, Arch.Undef, load) == LoaderTable
  {
  }
}
