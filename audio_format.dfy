/** The format and codec descriptions of the file layer (FormatInfo,
    CodecInfo) and the FormatManager's registry of them: two lists filled
    once, libsndfile's entries first and the MPEG entries last, searched
    front to back for the first entry with a given key. */
module AudioFormats {
  import opened Wrappers

  /** FormatId, as its enumerator's position: FORMAT_UNKNOWN = 0, ...,
      FORMAT_MPEG = 11, ..., FORMAT_COUNT = 27. */
  const FormatUnknown: nat := 0
  const FormatMpeg: nat := 11

  /** CodecId, likewise: CODEC_UNKNOWN = 0, ..., CODEC_MP3 = 26,
      CODEC_COUNT = 27. The MPEG reader names a CODEC_MPEG that the
      enumeration does not list; it is given a code of its own here. */
  const CodecUnknown: nat := 0
  const CodecMpeg: nat := 28

  datatype FormatInfo = FormatInfo(id: nat, idPrivate: int, name: string, extension: string,
                                   description: string)

  datatype CodecInfo = CodecInfo(id: nat, idPrivate: int, name: string, description: string)

  /** FormatInfo() and CodecInfo(): unknown id, private id 0, empty strings. */
  const NoFormat := FormatInfo(FormatUnknown, 0, "", "", "")
  const NoCodec := CodecInfo(CodecUnknown, 0, "", "")

  /** MpegFile::initFormatInfos and initCodecInfos. */
  const MpegFormat := FormatInfo(FormatMpeg, -1, "MPEG", "mp3", "MPEG Layer 1/2/3 lossy audio compression")
  const MpegCodec := CodecInfo(CodecMpeg, -1, "MPEG", "MPEG Layer 1/2/3")

  /** The lookup failures: "Unknown format" and "Unknown codec". */
  datatype LookupError = UnknownFormat | UnknownCodec

  /** formatInfos_ and codecInfos_. */
  datatype Registry = Registry(formats: seq<FormatInfo>, codecs: seq<CodecInfo>)

  /** The FormatManager initializer: libsndfile's entries (queried through
      sf_command, so given here), then the MPEG entries. */
  function Initialized(sndFormats: seq<FormatInfo>, sndCodecs: seq<CodecInfo>): (r: Registry)
    ensures |r.formats| == |sndFormats| + 1 && r.formats[|sndFormats|] == MpegFormat
    ensures |r.codecs| == |sndCodecs| + 1 && r.codecs[|sndCodecs|] == MpegCodec
    ensures r.formats[..|sndFormats|] == sndFormats && r.codecs[..|sndCodecs|] == sndCodecs
  {
    Registry(sndFormats + [MpegFormat], sndCodecs + [MpegCodec])
  }

  /** std::find_if: the index of the first element satisfying `p`. */
  function FindFirst<T>(s: seq<T>, p: T -> bool): (r: Option<nat>)
    ensures r.None? <==> forall j :: 0 <= j < |s| ==> !p(s[j])
    ensures r.Some? ==> r.value < |s| && p(s[r.value]) && forall j :: 0 <= j < r.value ==> !p(s[j])
  {
    if s == [] then None
    else if p(s[0]) then Some(0)
    else match FindFirst(s[1..], p)
      case None => None
      case Some(i) => Some(i + 1)
  }

  /** `x` is the first element of `s` satisfying `p`. */
  ghost predicate FirstWith<T>(s: seq<T>, p: T -> bool, x: T) {
    exists i :: 0 <= i < |s| && s[i] == x && p(x) && forall j :: 0 <= j < i ==> !p(s[j])
  }

  /** A first match in a prefix is the first match of the whole. */
  lemma {:induction false} FindFirstInPrefix<T>(a: seq<T>, b: seq<T>, p: T -> bool)
    requires FindFirst(a, p).Some?
    ensures FindFirst(a + b, p) == FindFirst(a, p)
  {
    if !p(a[0]) {
      assert (a + b)[1..] == a[1..] + b;
      FindFirstInPrefix(a[1..], b, p);
    }
  }

  /** Without a match in a prefix, the first match lies in the rest. */
  lemma {:induction false} FindFirstPastPrefix<T>(a: seq<T>, b: seq<T>, p: T -> bool)
    requires FindFirst(a, p).None?
    ensures FindFirst(a + b, p) == match FindFirst(b, p)
      case None => None
      case Some(i) => Some(|a| + i)
  {
    if a != [] {
      assert (a + b)[1..] == a[1..] + b;
      FindFirstPastPrefix(a[1..], b, p);
    } else {
      assert a + b == b;
    }
  }

  /** getFormat(FormatId), getFormat(int idPrivate), getFormat(name). */
  function FormatById(reg: Registry, id: nat): (r: Result<FormatInfo, LookupError>)
    ensures r.Err? <==> forall j :: 0 <= j < |reg.formats| ==> reg.formats[j].id != id
    ensures r.Err? ==> r.error == UnknownFormat
    ensures r.Ok? ==> FirstWith(reg.formats, (f: FormatInfo) => f.id == id, r.value)
  {
    match FindFirst(reg.formats, (f: FormatInfo) => f.id == id)
    case Some(i) => Ok(reg.formats[i])
    case None => Err(UnknownFormat)
  }

  function FormatByPrivateId(reg: Registry, idPrivate: int): (r: Result<FormatInfo, LookupError>)
    ensures r.Err? <==> forall j :: 0 <= j < |reg.formats| ==> reg.formats[j].idPrivate != idPrivate
    ensures r.Err? ==> r.error == UnknownFormat
    ensures r.Ok? ==> FirstWith(reg.formats, (f: FormatInfo) => f.idPrivate == idPrivate, r.value)
  {
    match FindFirst(reg.formats, (f: FormatInfo) => f.idPrivate == idPrivate)
    case Some(i) => Ok(reg.formats[i])
    case None => Err(UnknownFormat)
  }

  function FormatByName(reg: Registry, name: string): (r: Result<FormatInfo, LookupError>)
    ensures r.Err? <==> forall j :: 0 <= j < |reg.formats| ==> reg.formats[j].name != name
    ensures r.Err? ==> r.error == UnknownFormat
    ensures r.Ok? ==> FirstWith(reg.formats, (f: FormatInfo) => f.name == name, r.value)
  {
    match FindFirst(reg.formats, (f: FormatInfo) => f.name == name)
    case Some(i) => Ok(reg.formats[i])
    case None => Err(UnknownFormat)
  }

  /** getCodec(CodecId), getCodec(int idPrivate), getCodec(name). */
  function CodecById(reg: Registry, id: nat): (r: Result<CodecInfo, LookupError>)
    ensures r.Err? <==> forall j :: 0 <= j < |reg.codecs| ==> reg.codecs[j].id != id
    ensures r.Err? ==> r.error == UnknownCodec
    ensures r.Ok? ==> FirstWith(reg.codecs, (c: CodecInfo) => c.id == id, r.value)
  {
    match FindFirst(reg.codecs, (c: CodecInfo) => c.id == id)
    case Some(i) => Ok(reg.codecs[i])
    case None => Err(UnknownCodec)
  }

  function CodecByPrivateId(reg: Registry, idPrivate: int): (r: Result<CodecInfo, LookupError>)
    ensures r.Err? <==> forall j :: 0 <= j < |reg.codecs| ==> reg.codecs[j].idPrivate != idPrivate
    ensures r.Err? ==> r.error == UnknownCodec
    ensures r.Ok? ==> FirstWith(reg.codecs, (c: CodecInfo) => c.idPrivate == idPrivate, r.value)
  {
    match FindFirst(reg.codecs, (c: CodecInfo) => c.idPrivate == idPrivate)
    case Some(i) => Ok(reg.codecs[i])
    case None => Err(UnknownCodec)
  }

  function CodecByName(reg: Registry, name: string): (r: Result<CodecInfo, LookupError>)
    ensures r.Err? <==> forall j :: 0 <= j < |reg.codecs| ==> reg.codecs[j].name != name
    ensures r.Err? ==> r.error == UnknownCodec
    ensures r.Ok? ==> FirstWith(reg.codecs, (c: CodecInfo) => c.name == name, r.value)
  {
    match FindFirst(reg.codecs, (c: CodecInfo) => c.name == name)
    case Some(i) => Ok(reg.codecs[i])
    case None => Err(UnknownCodec)
  }

  /** In the initialised registry the MPEG lookups the reader performs
      always succeed: they find the MPEG entries unless a libsndfile entry
      with the same id comes first, which then wins. */
  lemma MpegLookups(sndFormats: seq<FormatInfo>, sndCodecs: seq<CodecInfo>)
    ensures FormatById(Initialized(sndFormats, sndCodecs), FormatMpeg).Ok?
    ensures CodecById(Initialized(sndFormats, sndCodecs), CodecMpeg).Ok?
    ensures (forall j :: 0 <= j < |sndFormats| ==> sndFormats[j].id != FormatMpeg) ==>
      FormatById(Initialized(sndFormats, sndCodecs), FormatMpeg) == Ok(MpegFormat)
    ensures (forall j :: 0 <= j < |sndCodecs| ==> sndCodecs[j].id != CodecMpeg) ==>
      CodecById(Initialized(sndFormats, sndCodecs), CodecMpeg) == Ok(MpegCodec)
  {
    var reg := Initialized(sndFormats, sndCodecs);
    assert reg.formats[|sndFormats|].id == FormatMpeg;
    assert reg.codecs[|sndCodecs|].id == CodecMpeg;
  }

  /** Entries registered earlier shadow later ones: a key that some
      libsndfile format carries is answered from the libsndfile list. */
  lemma {:induction false} SndFormatsFirst(sndFormats: seq<FormatInfo>, sndCodecs: seq<CodecInfo>, name: string)
    requires exists j :: 0 <= j < |sndFormats| && sndFormats[j].name == name
    ensures FormatByName(Initialized(sndFormats, sndCodecs), name)
      == FormatByName(Registry(sndFormats, sndCodecs), name)
  {
    var p := (f: FormatInfo) => f.name == name;
    var j :| 0 <= j < |sndFormats| && sndFormats[j].name == name;
    assert p(sndFormats[j]);
    FindFirstInPrefix(sndFormats, [MpegFormat], p);
  }
}
