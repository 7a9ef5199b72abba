/**
 * Format detection: the fixed loader table, the check applied to a
 * successful parse, and the loop that tries each loader in turn.
 */
module BinfmtDispatch {
  import opened Wrappers
  import opened BinfmtTypes
  import opened BinfmtStrings

  /** The format loaders of the loader table. */
  datatype FormatLoader = Elf32Loader | Elf64Loader | PeLoader | MachO32Loader | MachO64Loader
  {
    function Name(): (s: string)
    {
      match this
      case Elf32Loader => "elf32"
      case Elf64Loader => "elf64"
      case PeLoader => "pe"
      case MachO32Loader => "macho32"
      case MachO64Loader => "macho64"
    }
  }

  /** The loader table, in the order the loaders are tried. */
  const LoaderTable: seq<FormatLoader> :=
    [Elf32Loader, Elf64Loader, PeLoader, MachO32Loader, MachO64Loader]

  /** What one format loader reports: its status, and what it filled in (meaningful when the status is Ok). */
  datatype LoaderReply = LoaderReply(err: BinfmtErr, image: Image)

  /** The behaviour of the format loaders on a mapped file. */
  type Loaders = (FormatLoader, seq<byte>) -> LoaderReply

  /** The fatal errors of loading a file. */
  datatype LoadError =
    | IsDirectory
    | ReadFailed
    | LoaderFailed(loader: FormatLoader, code: BinfmtErr)
    | EndianUndefined
    | TypeUndefined
    | FormatNotSupported

  /** The text reported for a fatal load error; a loader failure ends with that loader's status text. */
  function Message(e: LoadError): (msg: string)
    ensures e.LoaderFailed? ==>
              |msg| >= |GetErr(e.code)| && msg[|msg| - |GetErr(e.code)|..] == GetErr(e.code)
  {
    match e
    case IsDirectory => "File seem to be a directory"
    case ReadFailed => "Error while read binary file"
    case LoaderFailed(loader, code) => "Error in " + loader.Name() + " loader : " + GetErr(code)
    case EndianUndefined => "Endianess not supported"
    case TypeUndefined => "File format not recognized"
    case FormatNotSupported => "Format not supported"
  }

  /**
   * The check applied to the image of the loader that succeeded: the byte
   * order and the container type must be defined. The architecture is not checked.
   */
  function Check(img: Image): (r: Result<Image, LoadError>)
    ensures r.Success? <==> img.endian != Endian.Undef && img.binType != BinType.Undef
    ensures r.Success? ==> r.value == img
    ensures r == Failure(EndianUndefined) <==> img.endian == Endian.Undef
    ensures r == Failure(TypeUndefined) <==> img.endian != Endian.Undef && img.binType == BinType.Undef
  {
    if img.endian == Endian.Undef then Failure(EndianUndefined)
    else if img.binType == BinType.Undef then Failure(TypeUndefined)
    else Success(img)
  }

  /** Loader `k` of the table is the first one not to answer Unrecognized. */
  predicate Decides(load: Loaders, mapped: seq<byte>, k: int)
  {
    0 <= k < |LoaderTable| &&
    load(LoaderTable[k], mapped).err != Unrecognized &&
    forall j :: 0 <= j < k ==> load(LoaderTable[j], mapped).err == Unrecognized
  }

  /** Index of the first loader at or after `from` that does not answer Unrecognized, or |LoaderTable| if none. */
  function FirstRecognized(load: Loaders, mapped: seq<byte>, from: nat): (k: nat)
    requires from <= |LoaderTable|
    ensures from <= k <= |LoaderTable|
    ensures forall j :: from <= j < k ==> load(LoaderTable[j], mapped).err == Unrecognized
    ensures k < |LoaderTable| ==> load(LoaderTable[k], mapped).err != Unrecognized
    decreases |LoaderTable| - from
  {
    if from == |LoaderTable| then from
    else if load(LoaderTable[from], mapped).err != Unrecognized then from
    else FirstRecognized(load, mapped, from + 1)
  }

  /** The outcome of format detection on a mapped file. */
  function Detect(load: Loaders, mapped: seq<byte>): (r: Result<Image, LoadError>)
  {
    var k := FirstRecognized(load, mapped, 0);
    if k == |LoaderTable| then Failure(FormatNotSupported)
    else
      var reply := load(LoaderTable[k], mapped);
      if reply.err == Ok then Check(reply.image)
      else Failure(LoaderFailed(LoaderTable[k], reply.err))
  }

  /**
   * The loaders that detection calls, in order: a prefix of the table that
   * ends with the deciding loader, where every loader but the last answered Unrecognized.
   */
  function Tried(load: Loaders, mapped: seq<byte>): (t: seq<FormatLoader>)
    ensures 0 < |t| <= |LoaderTable| && t == LoaderTable[..|t|]
    ensures forall i :: 0 <= i < |t| - 1 ==> load(t[i], mapped).err == Unrecognized
    ensures |t| < |LoaderTable| ==> load(t[|t| - 1], mapped).err != Unrecognized
  {
    var k := FirstRecognized(load, mapped, 0);
    if k == |LoaderTable| then LoaderTable else LoaderTable[..k + 1]
  }

  /**
   * Tries each loader of the table in order. The first loader that answers
   * Ok ends the search and its image is checked; one that answers
   * NotSupported or MalformedFile aborts the load; if all answer
   * Unrecognized the format is not supported.
   */
  method DetectFormat(load: Loaders, mapped: seq<byte>)
    returns (r: Result<Image, LoadError>, tried: seq<FormatLoader>)
    ensures r == Detect(load, mapped)
    ensures tried == Tried(load, mapped)
  {
    r := Failure(FormatNotSupported);
    tried := [];
    var i := 0;
    while i < |LoaderTable|
      invariant 0 <= i <= |LoaderTable|
      invariant tried == LoaderTable[..i]
      invariant forall j :: 0 <= j < i ==> load(LoaderTable[j], mapped).err == Unrecognized
    {
      var reply := load(LoaderTable[i], mapped);
      tried := tried + [LoaderTable[i]];
      if reply.err == Ok {
        r := Check(reply.image);
        break;
      }
      if reply.err != Unrecognized {
        r := Failure(LoaderFailed(LoaderTable[i], reply.err));
        return;
      }
      i := i + 1;
    }
    if i == |LoaderTable| {
      r := Failure(FormatNotSupported);
    }
  }

  /**
   * Detection succeeds with `img` exactly when some loader decides, answers
   * Ok with `img`, and `img` has a defined byte order and container type.
   */
  lemma DetectSucceeds(load: Loaders, mapped: seq<byte>, img: Image)
    ensures Detect(load, mapped) == Success(img) <==>
              exists k :: Decides(load, mapped, k) && load(LoaderTable[k], mapped) == LoaderReply(Ok, img) &&
                          img.endian != Endian.Undef && img.binType != BinType.Undef
  {
  }

  /** Only the first loader not to answer Unrecognized decides. */
  lemma DecidesUnique(load: Loaders, mapped: seq<byte>, k: int)
    requires Decides(load, mapped, k)
    ensures FirstRecognized(load, mapped, 0) == k
  {
  }

  /**
   * Detection aborts with the error of loader `f` and status `code` exactly
   * when `f` decides with a status other than Ok; no later loader is consulted.
   */
  lemma DetectAborts(load: Loaders, mapped: seq<byte>, f: FormatLoader, code: BinfmtErr)
    ensures Detect(load, mapped) == Failure(LoaderFailed(f, code)) <==>
              exists k :: Decides(load, mapped, k) && LoaderTable[k] == f &&
                          load(f, mapped).err == code && code != Ok
    ensures Detect(load, mapped) == Failure(LoaderFailed(f, code)) ==>
              code == NotSupported || code == MalformedFile
  {
  }

  /** Detection reports an unsupported format exactly when every loader answers Unrecognized. */
  lemma DetectUnsupported(load: Loaders, mapped: seq<byte>)
    ensures Detect(load, mapped) == Failure(FormatNotSupported) <==>
              forall k :: 0 <= k < |LoaderTable| ==> load(LoaderTable[k], mapped).err == Unrecognized
  {
  }

  /**
   * A loader that answers Ok with an undefined byte order or container
   * type makes detection fail rather than return an unchecked image.
   */
  lemma DetectRejectsUnresolved(load: Loaders, mapped: seq<byte>, k: int)
    requires Decides(load, mapped, k) && load(LoaderTable[k], mapped).err == Ok
    ensures Detect(load, mapped).Failure? <==>
              load(LoaderTable[k], mapped).image.endian == Endian.Undef ||
              load(LoaderTable[k], mapped).image.binType == BinType.Undef
  {
  }
}
