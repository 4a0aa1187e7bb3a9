/** FormatManager: chooses the reader class for a file name and answers
    whether a format/codec pair is supported by either backend. The
    registry lookups live with the registry in AudioFormats. */
module FormatManagerModel {
  import opened Wrappers
  import AudioFormats
  import MpegFileModel

  /** The two AudioFile classes createFile can return. */
  datatype FileKind = MpegKind | MultiFormatKind

  const Mp3Extension := ".mp3"

  /** The position of the last `c` in `s`. */
  function LastIndex(s: string, c: char): (r: Option<nat>)
    ensures r.None? <==> c !in s
    ensures r.Some? ==> r.value < |s| && s[r.value] == c && c !in s[r.value + 1..]
  {
    if s == [] then None
    else if s[|s| - 1] == c then Some(|s| - 1)
    else
      var r := LastIndex(s[..|s| - 1], c);
      if r.Some? then
        assert s[r.value + 1..] == s[..|s| - 1][r.value + 1..] + [s[|s| - 1]];
        r
      else r
  }

  /** The last `c` is the only `c` with none after it. */
  lemma LastIndexUnique(s: string, c: char, i: nat)
    requires i < |s| && s[i] == c && c !in s[i + 1..]
    ensures LastIndex(s, c) == Some(i)
  {
    var j := LastIndex(s, c).value;
    assert forall k :: j < k < |s| ==> s[k] == s[j + 1..][k - j - 1];
    assert forall k :: i < k < |s| ==> s[k] == s[i + 1..][k - i - 1];
  }

  /** path::filename(): the part after the last separator. */
  function FileName(path: string): (r: string)
    ensures '/' !in r
  {
    match LastIndex(path, '/')
    case None => path
    case Some(i) => path[i + 1..]
  }

  /** path::extension(): the file name from its last dot on; empty when it
      has no dot and for the names "." and "..". */
  function Extension(path: string): (r: string)
    ensures r == [] || (r[0] == '.' && '.' !in r[1..] && '/' !in r)
  {
    var name := FileName(path);
    if name == "." || name == ".." then ""
    else match LastIndex(name, '.')
      case None => ""
      case Some(i) =>
        assert name[i..][1..] == name[i + 1..];
        name[i..]
  }

  /** createFile(filename): an MpegFile exactly for the extension ".mp3",
      compared case-sensitively; a MultiFormatAudioFile otherwise. */
  function CreateFile(path: string): (r: FileKind)
    ensures r == MpegKind <==> Extension(path) == Mp3Extension
  {
    if Extension(path) == Mp3Extension then MpegKind else MultiFormatKind
  }

  /** A suffix without a separator stays in the file name. */
  lemma FileNameOfSuffix(stem: string, ext: string)
    requires '/' !in ext
    ensures FileName(stem + ext) == FileName(stem) + ext
  {
    var path := stem + ext;
    match LastIndex(stem, '/')
    case None =>
      assert forall k :: 0 <= k < |path| ==> path[k] == if k < |stem| then stem[k] else ext[k - |stem|];
      assert '/' !in path;
    case Some(i) =>
      assert path[i + 1..] == stem[i + 1..] + ext;
      LastIndexUnique(path, '/', i);
  }

  /** A name ending in a dot-led extension without further dots has that
      extension, whatever precedes it. */
  lemma ExtensionOfSuffix(stem: string, ext: string)
    requires |ext| >= 2 && ext[0] == '.' && '.' !in ext[1..] && '/' !in ext
    ensures Extension(stem + ext) == ext
  {
    FileNameOfSuffix(stem, ext);
    var head := FileName(stem);
    var name := head + ext;
    assert name != "." && name != ".." by {
      assert name[|name| - 1] == ext[1..][|ext| - 2] != '.';
    }
    assert name[|head| + 1..] == ext[1..];
    ExtensionAt(stem + ext, name, |head|);
    assert name[|head|..] == ext;
  }

  /** The extension of a path whose file name has its last dot at i. */
  lemma ExtensionAt(path: string, name: string, i: nat)
    requires FileName(path) == name && name != "." && name != ".."
    requires i < |name| && name[i] == '.' && '.' !in name[i + 1..]
    ensures Extension(path) == name[i..]
  {
    LastIndexUnique(name, '.', i);
  }

  /** Every ".mp3" file gets the MPEG reader; ".MP3" does not. */
  lemma Mp3GoesToMpegFile(stem: string)
    ensures CreateFile(stem + ".mp3") == MpegKind
    ensures CreateFile(stem + ".MP3") == MultiFormatKind
  {
    ExtensionOfSuffix(stem, ".mp3");
    ExtensionOfSuffix(stem, ".MP3");
  }

  /** A name without a dot is not an MPEG file. */
  lemma NoDotNoMpeg(path: string)
    requires '.' !in path
    ensures CreateFile(path) == MultiFormatKind
  {
    var name := FileName(path);
    if LastIndex(path, '/').Some? {
      var i := LastIndex(path, '/').value;
      assert forall k :: 0 <= k < |name| ==> name[k] == path[i + 1 + k];
    }
    assert '.' !in name;
  }

  /** isSupported(format, codec, ...): either backend accepts the pair.
      `sndSupported` is what the libsndfile backend answers. */
  function IsSupported(format: AudioFormats.FormatInfo, codec: AudioFormats.CodecInfo, sndSupported: bool): (r: bool)
    ensures r <==> sndSupported || (format.id == AudioFormats.FormatMpeg && codec.id == AudioFormats.CodecMpeg)
  {
    sndSupported || MpegFileModel.IsFormatSupported(format, codec)
  }

  /** The MPEG pair the MPEG reader registers is supported, and without
      the libsndfile backend nothing else is. */
  lemma MpegPairSupported(sndSupported: bool)
    ensures IsSupported(AudioFormats.MpegFormat, AudioFormats.MpegCodec, sndSupported)
    ensures forall f: AudioFormats.FormatInfo, c: AudioFormats.CodecInfo ::
      IsSupported(f, c, false) ==> f.id == AudioFormats.FormatMpeg
  {
  }
}
