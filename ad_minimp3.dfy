/** The minimp3 backend (src/ad_minimp3.c): its filename scorer, the error
    texts, the info filler and the NULL/failure handling of its open, close,
    seek and read. */
module Minimp3 {

  import opened AudecApi
  import opened CStrings
  import opened Libraries

  /** Error codes of minimp3_ex.h (that header is not part of this model;
      these are its published values). */
  const MP3D_E_PARAM: int := -1
  const MP3D_E_MEMORY: int := -2
  const MP3D_E_IOERROR: int := -3
  const MP3D_E_USER: int := -4
  const MP3D_E_DECODE: int := -5

  /** ad_eval_minimp3: 0 for a URL, 5 for a name without '.', 50 for a
      ".mp3" extension in any letter case, 0 otherwise. */
  function EvalMinimp3(f: string): (score: int)
    ensures score == 0 || score == 5 || score == 50
    ensures Contains(f, "://") ==> score == 0
    ensures !Contains(f, "://") && '.' !in f ==> score == 5
    ensures !Contains(f, "://") && '.' in f ==>
      score != 5 && (score == 50 <==> EqualsIgnoreCase(Extension(f).value, ".mp3"))
  {
    if Contains(f, "://") then 0
    else match Extension(f)
      case None => 5
      case Some(ext) => if EqualsIgnoreCase(ext, ".mp3") then 50 else 0
  }

  /** A name that is no URL and whose extension is ".mp3" in any letter
      case scores 50. */
  lemma ScoresMp3(f: string)
    requires !Contains(f, "://") && Extension(f).Some? && EqualsIgnoreCase(Extension(f).value, ".mp3")
    ensures EvalMinimp3(f) == 50
  {
  }

  /** The message err_to_string copies for each error code. */
  function ErrorMessage(code: int): string
  {
    if code == MP3D_E_PARAM then "Parameter error"
    else if code == MP3D_E_MEMORY then "Memory error"
    else if code == MP3D_E_IOERROR then "IO error"
    else if code == MP3D_E_USER then "User error"
    else if code == MP3D_E_DECODE then "Decode error"
    else "Unknown error"
  }

  /** Each of the five known codes has its own message, and none of them is
      the message every other code gets. */
  lemma {:induction false} ErrorMessagesDistinct(a: int, b: int)
    requires MP3D_E_DECODE <= a <= MP3D_E_PARAM
    ensures ErrorMessage(a) != "Unknown error"
    ensures ErrorMessage(a) == ErrorMessage(b) <==> a == b
  {
  }

  /** err_to_string: copies the message for `errCode`, with its terminating
      NUL, to the start of `buf`. */
  method ErrToString(errCode: int, buf: array<char>)
    requires |ErrorMessage(errCode)| < buf.Length
    modifies buf
    ensures buf[..|ErrorMessage(errCode)|] == ErrorMessage(errCode)
    ensures buf[|ErrorMessage(errCode)|] == '\0'
    ensures buf[|ErrorMessage(errCode)| + 1..] == old(buf[|ErrorMessage(errCode)| + 1..])
  {
    var msg := ErrorMessage(errCode);
    forall i | 0 <= i < |msg| {
      buf[i] := msg[i];
    }
    buf[|msg|] := '\0';
  }

  /** The info filler divides by the channel count unconditionally and
      guards the duration by the frame count, not by the sample rate: both
      divisions are defined only for a decoder that satisfies this. */
  predicate InfoDefined(dec: Mp3Decoder)
  {
    dec.info.channels > 0 && (dec.samples / dec.info.channels == 0 || dec.info.hz > 0)
  }

  /** frames = samples / channels: the whole frames among the samples. */
  function Frames(samples: nat, channels: nat): (frames: nat)
    requires channels > 0
    ensures frames * channels <= samples < (frames + 1) * channels
  {
    samples / channels
  }

  /** The duration the info filler computes: frames * 1000 / rate, or 0 for
      an empty stream. */
  function LengthMs(frames: nat, hz: nat): (ms: nat)
    requires frames == 0 || hz > 0
    ensures frames == 0 ==> ms == 0
    ensures frames > 0 ==> ms * hz <= frames * 1000 < (ms + 1) * hz
  {
    if frames != 0 then (frames * 1000) / hz else 0
  }

  /** The decoder's private state: the mp3dec_ex_t. */
  class Minimp3Decoder {
    const dec: Mp3Decoder
    const stream: LibStream
    /** False once the decoder has been freed. */
    ghost var live: bool

    ghost predicate Valid()
      reads this, stream
    {
      live && stream.Valid() && InfoDefined(dec)
    }

    constructor (dec: Mp3Decoder)
      requires InfoDefined(dec)
      ensures Valid() && fresh(stream) && this.dec == dec
      ensures stream.items == dec.items && stream.cursor == 0
    {
      this.dec := dec;
      stream := new LibStream(dec.items);
      live := true;
    }
  }

  /** ad_info_minimp3: -1 without a decoder; otherwise fills `nfo` (when
      given) and returns 0. The depth, bpm and meta-data are always cleared. */
  method Info(priv: Minimp3Decoder?, nfo: AudecInfo?) returns (r: int)
    requires priv != null ==> InfoDefined(priv.dec)
    modifies if nfo != null then {nfo} else {}
    ensures r == if priv == null then -1 else 0
    ensures nfo != null && priv == null ==> unchanged(nfo)
    ensures nfo != null && priv != null ==>
      && nfo.channels == priv.dec.info.channels
      && nfo.frames == Frames(priv.dec.samples, priv.dec.info.channels)
      && nfo.sampleRate == priv.dec.info.hz
      && nfo.length == LengthMs(nfo.frames, nfo.sampleRate)
      && nfo.bitDepth == 0 && nfo.bpm == 0.0 && nfo.metaData == None
      && nfo.bitRate == priv.dec.info.bitrateKbps
      && nfo.metaReleased == old(nfo.metaReleased)
  {
    if priv == null {
      return -1;
    }
    if nfo != null {
      nfo.channels := priv.dec.info.channels;
      nfo.frames := Frames(priv.dec.samples, nfo.channels);
      nfo.sampleRate := priv.dec.info.hz;
      nfo.length := LengthMs(nfo.frames, nfo.sampleRate);
      nfo.bitDepth := 0;
      nfo.bitRate := priv.dec.info.bitrateKbps;
      nfo.metaData := None;
      nfo.bpm := 0.0;
    }
    return 0;
  }

  /** ad_open_minimp3: NULL when mp3dec_ex_open reports an error (`attempt` is
      what it reports for the path); otherwise a fresh decoder, with `nfo`
      filled by Info. */
  method Open(nfo: AudecInfo?, attempt: Mp3Open) returns (priv: Minimp3Decoder?)
    requires attempt.res == 0 ==> InfoDefined(attempt.dec)
    modifies if nfo != null then {nfo} else {}
    ensures priv == null <==> attempt.res != 0
    ensures priv == null && nfo != null ==> unchanged(nfo)
    ensures priv != null ==> fresh(priv) && fresh(priv.stream) && priv.Valid()
    ensures priv != null ==> priv.dec == attempt.dec && priv.stream.items == attempt.dec.items
    ensures priv != null ==> priv.stream.cursor == 0
    ensures priv != null && nfo != null ==>
      && nfo.channels == priv.dec.info.channels
      && nfo.frames == Frames(priv.dec.samples, priv.dec.info.channels)
      && nfo.sampleRate == priv.dec.info.hz
      && nfo.length == LengthMs(nfo.frames, nfo.sampleRate)
      && nfo.bitDepth == 0 && nfo.bpm == 0.0 && nfo.metaData == None
      && nfo.bitRate == priv.dec.info.bitrateKbps
      && nfo.metaReleased == old(nfo.metaReleased)
  {
    if attempt.res != 0 {
      var errStr := new char[600];
      ErrToString(attempt.res, errStr);
      return null;
    }
    priv := new Minimp3Decoder(attempt.dec);
    var _ := Info(priv, nfo);
  }

  /** ad_close_minimp3: -1 without a decoder; otherwise closes and frees it
      and returns 0. */
  method Close(priv: Minimp3Decoder?) returns (r: int)
    modifies if priv != null then {priv} else {}
    ensures r == if priv == null then -1 else 0
    ensures priv != null ==> !priv.live
  {
    if priv == null {
      return -1;
    }
    priv.live := false;
    return 0;
  }

  /** ad_seek_minimp3: -1 without a decoder; otherwise mp3dec_ex_seek to
      `pos`, which minimp3 counts in samples, answering 0 on success. */
  method Seek(priv: Minimp3Decoder?, pos: int) returns (r: int)
    requires priv != null ==> priv.Valid()
    modifies if priv != null then {priv.stream} else {}
    ensures priv == null ==> r == -1
    ensures priv != null ==> priv.Valid()
    ensures priv != null ==> r == if 0 <= pos <= |priv.stream.items| then 0 else MP3D_E_PARAM
    ensures priv != null ==> priv.stream.cursor == if 0 <= pos <= |priv.stream.items| then pos else old(priv.stream.cursor)
  {
    if priv == null {
      return -1;
    }
    var ok := priv.stream.SeekSample(pos);
    r := if ok then 0 else MP3D_E_PARAM;
  }

  /** ad_read_minimp3: -1 without a decoder; otherwise mp3dec_ex_read of up
      to `len` samples. */
  method Read(priv: Minimp3Decoder?, d: array<Sample>, len: nat) returns (r: int)
    requires len <= d.Length
    requires priv != null ==> priv.Valid()
    modifies d, if priv != null then {priv.stream} else {}
    ensures priv == null ==> r == -1 && unchanged(d)
    ensures priv != null ==> priv.Valid() && 0 <= r <= len
    ensures priv != null ==> r == PluginApi.Min(len, |priv.stream.items| - old(priv.stream.cursor))
    ensures priv != null ==> priv.stream.cursor == old(priv.stream.cursor) + r
    ensures priv != null ==> d[..r] == priv.stream.items[old(priv.stream.cursor)..priv.stream.cursor]
    ensures priv != null ==> d[r..] == old(d[r..])
  {
    if priv == null {
      return -1;
    }
    r := priv.stream.Read(d, len);
  }
}
