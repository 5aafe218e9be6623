/** The libsndfile backend (src/ad_soundfile.c): its filename scorer, the
    bit-depth table, the info filler and the NULL/failure handling of its
    open, close, seek and read. */
module Soundfile {

  import opened AudecApi
  import opened CStrings
  import opened Libraries

  /** Sub-format codes of libsndfile's sndfile.h (that header is not part of
      this model; these are its published values). */
  const SF_FORMAT_PCM_S8: int := 0x0001
  const SF_FORMAT_PCM_16: int := 0x0002
  const SF_FORMAT_PCM_24: int := 0x0003
  const SF_FORMAT_PCM_32: int := 0x0004
  const SF_FORMAT_PCM_U8: int := 0x0005
  const SF_FORMAT_FLOAT: int := 0x0006
  const SF_FORMAT_DOUBLE: int := 0x0007

  /** `format & 0x0f` on a two's-complement int: its value modulo 16. */
  function LowNibble(format: int): (n: int)
    ensures 0 <= n < 16
  {
    format % 16
  }

  /** parse_bit_depth: the sample width of the sub-format in the low four
      bits of `format`. */
  function ParseBitDepth(format: int): (bits: int)
    ensures bits == 8 <==> LowNibble(format) == SF_FORMAT_PCM_S8 || LowNibble(format) == SF_FORMAT_PCM_U8
    ensures bits == 16 <==> LowNibble(format) == SF_FORMAT_PCM_16
    ensures bits == 24 <==> LowNibble(format) == SF_FORMAT_PCM_24
    ensures bits == 32 <==> LowNibble(format) == SF_FORMAT_PCM_32 || LowNibble(format) == SF_FORMAT_FLOAT
    ensures bits == 64 <==> LowNibble(format) == SF_FORMAT_DOUBLE
    ensures bits == 0 <==> !(1 <= LowNibble(format) <= 7)
  {
    match LowNibble(format)
    case 1 => 8
    case 2 => 16
    case 3 => 24
    case 4 => 32
    case 5 => 8
    case 6 => 32
    case 7 => 64
    case _ => 0
  }

  /** Adding whole multiples of 16 to the format code, that is changing only
      its major-format bits, never changes the reported depth. */
  lemma BitDepthIgnoresMajorFormat(format: int, major: int)
    ensures ParseBitDepth(format + 16 * major) == ParseBitDepth(format)
  {
    assert LowNibble(format + 16 * major) == LowNibble(format);
  }

  /** The duration the info filler computes: frames * 1000 / samplerate
      (integer division), or 0 when the sample rate is 0. */
  function LengthMs(frames: nat, samplerate: nat): (ms: nat)
    ensures samplerate == 0 ==> ms == 0
    ensures samplerate > 0 ==> ms * samplerate <= frames * 1000 < (ms + 1) * samplerate
  {
    if samplerate != 0 then (frames * 1000) / samplerate else 0
  }

  /** The eighteen formats libsndfile reads natively, by extension. */
  const NativeExtensions: seq<string> :=
    [".wav", ".aiff", ".aifc", ".snd", ".au", ".paf", ".iff", ".svx", ".sf",
     ".vcc", ".w64", ".mat4", ".mat5", ".pvf5", ".xi", ".htk", ".pvf", ".sd2"]

  /** The score of an extension, compared case-insensitively with each
      lower-case literal in the order the code tests them; strcasecmp against a
      lower-case literal is equality of the folded extension with it.
      `haveMp3` is the LIBSNDFILE_HAVE_MP3 build option. */
  function ScoreExtension(ext: string, haveMp3: bool): int
  {
    var e := Lower(ext);
    if e == ".wav" then 100
    else if e == ".aiff" then 100
    else if e == ".aifc" then 100
    else if e == ".snd" then 100
    else if e == ".au" then 100
    else if e == ".paf" then 100
    else if e == ".iff" then 100
    else if e == ".svx" then 100
    else if e == ".sf" then 100
    else if e == ".vcc" then 100
    else if e == ".w64" then 100
    else if e == ".mat4" then 100
    else if e == ".mat5" then 100
    else if e == ".pvf5" then 100
    else if e == ".xi" then 100
    else if e == ".htk" then 100
    else if e == ".pvf" then 100
    else if e == ".sd2" then 100
    else if e == ".flac" then 80
    else if e == ".ogg" then 80
    else if haveMp3 && e == ".mp3" then 80
    else 0
  }

  /** ad_eval_sndfile: 0 for a URL, 5 for a name without '.', otherwise the
      score of the extension. */
  function EvalSndfile(f: string, haveMp3: bool): (score: int)
    ensures score == 0 || score == 5 || score == 80 || score == 100
    ensures Contains(f, "://") ==> score == 0
    ensures !Contains(f, "://") && '.' !in f ==> score == 5
    ensures !Contains(f, "://") && '.' in f ==> score == ScoreExtension(Extension(f).value, haveMp3)
  {
    if Contains(f, "://") then 0
    else match Extension(f)
      case None => 5
      case Some(ext) => ScoreExtension(ext, haveMp3)
  }

  lemma NoUrlInDottedPath()
    ensures !Contains("a.d/file", "://")
  {
    var s := "a.d/file";
    ContainsIff(s, "://");
    assert ':' !in s;
    forall i | 0 <= i && i + 3 <= |s|
      ensures !OccursAt(s, "://", i)
    {
      assert s[i..i + 3][0] == s[i];
    }
  }

  lemma DottedPathExtension()
    ensures Extension("a.d/file") == Some(".d/file")
  {
    assert "a.d/file"[1..] == ".d/file";
  }

  lemma BogusExtensionScoresZero(haveMp3: bool)
    ensures ScoreExtension(".d/file", haveMp3) == 0
  {
    LowerOfLowerCase(".d/file");
  }

  /** The extension runs from the last '.', even across a '/': a file
      without extension inside a directory with a '.' in its name is scored
      by the bogus extension ".d/file" and gets 0, not the 5 of a dotless name. */
  lemma DotInDirectoryName(haveMp3: bool)
    ensures EvalSndfile("a.d/file", haveMp3) == 0
  {
    NoUrlInDottedPath();
    DottedPathExtension();
    BogusExtensionScoresZero(haveMp3);
  }

  /** Score 100 is given exactly to the native extensions, in any letter case. */
  lemma NativeScoresHundred(ext: string, haveMp3: bool)
    ensures ScoreExtension(ext, haveMp3) == 100 <==>
      exists k :: 0 <= k < |NativeExtensions| && EqualsIgnoreCase(ext, NativeExtensions[k])
  {
    ScoresHundredIffNative(ext, haveMp3);
    NativeAreFolded();
    var e := Lower(ext);
    if e in NativeExtensions {
      var k :| 0 <= k < |NativeExtensions| && e == NativeExtensions[k];
      assert EqualsIgnoreCase(ext, NativeExtensions[k]);
    }
  }

  /** Only the native extensions score 100, compared after folding. */
  lemma ScoresHundredIffNative(ext: string, haveMp3: bool)
    ensures ScoreExtension(ext, haveMp3) == 100 <==> Lower(ext) in NativeExtensions
  {
  }

  /** Every native extension is written in lower case, so it is its own
      folding. */
  lemma NativeAreFolded()
    ensures forall k :: 0 <= k < |NativeExtensions| ==> Lower(NativeExtensions[k]) == NativeExtensions[k]
  {
    forall k | 0 <= k < |NativeExtensions|
      ensures Lower(NativeExtensions[k]) == NativeExtensions[k]
    {
      LowerOfLowerCase(NativeExtensions[k]);
    }
  }

  /** A ".mp3" extension, in any letter case, scores 80 only in a build
      with MP3 support. */
  lemma ScoreOfMp3(ext: string, haveMp3: bool)
    requires Lower(ext) == ".mp3"
    ensures ScoreExtension(ext, haveMp3) == if haveMp3 then 80 else 0
  {
  }

  /** A name that is no URL and whose extension folds to ".mp3" scores as
      that extension does. */
  lemma EvalOfMp3Name(f: string, haveMp3: bool)
    requires !Contains(f, "://") && Extension(f).Some? && Lower(Extension(f).value) == ".mp3"
    ensures EvalSndfile(f, haveMp3) == if haveMp3 then 80 else 0
  {
    ScoreOfMp3(Extension(f).value, haveMp3);
  }

  /** Score 80 is given to .flac and .ogg in any letter case, and to .mp3 only
      in a build with MP3 support; any other extension outside the native
      list scores 0. */
  lemma CompressedScoresEighty(ext: string, haveMp3: bool)
    ensures ScoreExtension(ext, haveMp3) == 80 <==>
      EqualsIgnoreCase(ext, ".flac") || EqualsIgnoreCase(ext, ".ogg")
      || (haveMp3 && EqualsIgnoreCase(ext, ".mp3"))
  {
    ScoresEightyIffCompressed(ext, haveMp3);
    CompressedAreFolded();
  }

  /** Only .flac, .ogg and (with MP3 support) .mp3 score 80, compared after
      folding. */
  lemma ScoresEightyIffCompressed(ext: string, haveMp3: bool)
    ensures ScoreExtension(ext, haveMp3) == 80 <==>
      Lower(ext) == ".flac" || Lower(ext) == ".ogg" || (haveMp3 && Lower(ext) == ".mp3")
  {
  }

  /** The compressed formats' extensions are written in lower case. */
  lemma CompressedAreFolded()
    ensures Lower(".flac") == ".flac" && Lower(".ogg") == ".ogg" && Lower(".mp3") == ".mp3"
  {
    LowerOfLowerCase(".flac");
    LowerOfLowerCase(".ogg");
    LowerOfLowerCase(".mp3");
  }

  /** The decoder's private state: the SF_INFO and the SNDFILE handle. */
  class SndfileDecoder {
    const sfinfo: SfInfo
    const sffile: LibStream
    const loopBpm: Option<real>
    const closeError: int
    /** False once the decoder has been freed. */
    ghost var live: bool

    ghost predicate Valid()
      reads this, sffile
    {
      live && sffile.Valid()
    }

    constructor (file: SfFile)
      ensures Valid() && fresh(sffile)
      ensures sfinfo == file.info && sffile.items == file.items && sffile.cursor == 0
      ensures loopBpm == file.loopBpm && closeError == file.closeError
    {
      sfinfo := file.info;
      sffile := new LibStream(file.items);
      loopBpm := file.loopBpm;
      closeError := file.closeError;
      live := true;
    }
  }

  /** ad_info_sndfile: -1 without a decoder; otherwise fills `nfo` (when
      given) from the SF_INFO and returns 0. The bpm is written only when the
      file carries loop information. */
  method Info(priv: SndfileDecoder?, nfo: AudecInfo?) returns (r: int)
    modifies if nfo != null then {nfo} else {}
    ensures r == if priv == null then -1 else 0
    ensures nfo != null && priv == null ==> unchanged(nfo)
    ensures nfo != null && priv != null ==>
      && nfo.channels == priv.sfinfo.channels
      && nfo.frames == priv.sfinfo.frames
      && nfo.sampleRate == priv.sfinfo.samplerate
      && nfo.length == LengthMs(priv.sfinfo.frames, priv.sfinfo.samplerate)
      && nfo.bitDepth == ParseBitDepth(priv.sfinfo.format)
      && nfo.bitRate == nfo.bitDepth * nfo.channels * nfo.sampleRate
      && nfo.metaData == None
      && nfo.bpm == (if priv.loopBpm.Some? then priv.loopBpm.value else old(nfo.bpm))
      && nfo.metaReleased == old(nfo.metaReleased)
  {
    if priv == null {
      return -1;
    }
    if nfo != null {
      nfo.channels := priv.sfinfo.channels;
      nfo.frames := priv.sfinfo.frames;
      nfo.sampleRate := priv.sfinfo.samplerate;
      nfo.length := LengthMs(priv.sfinfo.frames, priv.sfinfo.samplerate);
      nfo.bitDepth := ParseBitDepth(priv.sfinfo.format);
      nfo.bitRate := nfo.bitDepth * nfo.channels * nfo.sampleRate;
      nfo.metaData := None;
      if priv.loopBpm.Some? {
        nfo.bpm := priv.loopBpm.value;
      }
    }
    return 0;
  }

  /** ad_open_sndfile: NULL when sf_open fails (`file` is what sf_open finds
      at the path); otherwise a fresh decoder, with `nfo` filled by Info. */
  method Open(nfo: AudecInfo?, file: Option<SfFile>) returns (priv: SndfileDecoder?)
    modifies if nfo != null then {nfo} else {}
    ensures priv == null <==> file.None?
    ensures priv == null && nfo != null ==> unchanged(nfo)
    ensures priv != null ==> fresh(priv) && fresh(priv.sffile) && priv.Valid() && priv.sffile.cursor == 0
    ensures priv != null ==> priv.sfinfo == file.value.info && priv.sffile.items == file.value.items
    ensures priv != null ==> priv.loopBpm == file.value.loopBpm && priv.closeError == file.value.closeError
    ensures priv != null && nfo != null ==>
      && nfo.channels == priv.sfinfo.channels
      && nfo.frames == priv.sfinfo.frames
      && nfo.sampleRate == priv.sfinfo.samplerate
      && nfo.length == LengthMs(priv.sfinfo.frames, priv.sfinfo.samplerate)
      && nfo.bitDepth == ParseBitDepth(priv.sfinfo.format)
      && nfo.bitRate == nfo.bitDepth * nfo.channels * nfo.sampleRate
      && nfo.metaData == None
      && nfo.bpm == (if priv.loopBpm.Some? then priv.loopBpm.value else old(nfo.bpm))
      && nfo.metaReleased == old(nfo.metaReleased)
  {
    if file.None? {
      return null;
    }
    priv := new SndfileDecoder(file.value);
    var _ := Info(priv, nfo);
  }

  /** ad_close_sndfile: -1 without a decoder; -1 when sf_close fails, in
      which case the decoder is not freed; otherwise frees it and returns 0. */
  method Close(priv: SndfileDecoder?) returns (r: int)
    modifies if priv != null then {priv} else {}
    ensures priv == null ==> r == -1
    ensures priv != null ==> (r == 0 <==> priv.closeError == 0) && (r == 0 || r == -1)
    ensures priv != null ==> priv.live == (old(priv.live) && r != 0)
  {
    if priv == null {
      return -1;
    }
    if priv.closeError != 0 {
      return -1;
    }
    priv.live := false;
    return 0;
  }

  /** ad_seek_sndfile: -1 without a decoder; otherwise sf_seek to frame
      `pos` from the start, which answers the new position or -1. */
  method Seek(priv: SndfileDecoder?, pos: int) returns (r: int)
    requires priv != null ==> priv.Valid()
    modifies if priv != null then {priv.sffile} else {}
    ensures priv == null ==> r == -1
    ensures priv != null ==> priv.Valid()
    ensures priv != null ==> r == if 0 <= pos * priv.sfinfo.channels <= |priv.sffile.items| then pos else -1
    ensures priv != null ==>
      priv.sffile.cursor == if 0 <= pos * priv.sfinfo.channels <= |priv.sffile.items|
                            then pos * priv.sfinfo.channels else old(priv.sffile.cursor)
  {
    if priv == null {
      return -1;
    }
    var ok := priv.sffile.SeekSample(pos * priv.sfinfo.channels);
    r := if ok then pos else -1;
  }

  /** ad_read_sndfile: -1 without a decoder; otherwise sf_read_float of up
      to `len` samples (items, not frames). */
  method Read(priv: SndfileDecoder?, d: array<Sample>, len: nat) returns (r: int)
    requires len <= d.Length
    requires priv != null ==> priv.Valid()
    modifies d, if priv != null then {priv.sffile} else {}
    ensures priv == null ==> r == -1 && unchanged(d)
    ensures priv != null ==> priv.Valid() && 0 <= r <= len
    ensures priv != null ==> r == PluginApi.Min(len, |priv.sffile.items| - old(priv.sffile.cursor))
    ensures priv != null ==> priv.sffile.cursor == old(priv.sffile.cursor) + r
    ensures priv != null ==> d[..r] == priv.sffile.items[old(priv.sffile.cursor)..priv.sffile.cursor]
    ensures priv != null ==> d[r..] == old(d[r..])
  {
    if priv == null {
      return -1;
    }
    r := priv.sffile.Read(d, len);
  }
}
