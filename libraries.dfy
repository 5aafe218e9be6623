/** What the core sees of the foreign libraries it calls: libsndfile and
    minimp3 (open files that deliver interleaved samples) and libsamplerate
    (a pull-based converter). Their internals are not modelled; each is
    reduced to the answers it gives the backends. */
module Libraries {

  import opened AudecApi
  import opened PluginApi

  lemma MulLeq(a: nat, b: nat, c: nat)
    requires a <= b
    ensures a * c <= b * c
  {
  }

  lemma DivMulLeq(a: nat, c: nat)
    requires c >= 1
    ensures (a / c) * c <= a
  {
  }

  /** An open file inside a decoding library (libsndfile's SNDFILE or
      minimp3's mp3dec_ex_t): the interleaved samples it can still deliver
      and its read position, counted in samples. */
  class LibStream {
    const items: seq<Sample>
    var cursor: nat

    ghost predicate Valid()
      reads this
    {
      cursor <= |items|
    }

    constructor (items: seq<Sample>)
      ensures Valid() && this.items == items && cursor == 0
    {
      this.items := items;
      cursor := 0;
    }

    /** sf_read_float / mp3dec_ex_read: copies up to `len` samples from the
        read position into `d` and reports how many it copied. */
    method Read(d: array<Sample>, len: nat) returns (n: nat)
      requires Valid() && len <= d.Length
      modifies this, d
      ensures Valid() && n <= len
      ensures n == Min(len, |items| - old(cursor)) && cursor == old(cursor) + n
      ensures d[..n] == items[old(cursor)..cursor]
      ensures d[n..] == old(d[n..])
    {
      n := Min(len, |items| - cursor);
      forall i | 0 <= i < n {
        d[i] := items[cursor + i];
      }
      cursor := cursor + n;
    }

    /** Moves the read position to sample `pos`; fails, leaving the position
        alone, when `pos` lies outside the stream. */
    method SeekSample(pos: int) returns (ok: bool)
      requires Valid()
      modifies this
      ensures Valid()
      ensures ok <==> 0 <= pos <= |items|
      ensures cursor == if ok then pos else old(cursor)
    {
      ok := 0 <= pos <= |items|;
      if ok {
        cursor := pos;
      }
    }
  }

  /** libsndfile's SF_INFO for an opened file. */
  datatype SfInfo = SfInfo(frames: nat, samplerate: nat, channels: nat, format: int)

  /** What sf_open finds at a path: the SF_INFO, the samples it will decode,
      the loop information sf_command(SFC_GET_LOOP_INFO) reports, if any, and
      the code sf_close will return (0 on success). */
  datatype SfFile = SfFile(info: SfInfo, items: seq<Sample>, loopBpm: Option<real>, closeError: int)

  /** minimp3's mp3dec_frame_info_t fields the backend reads. */
  datatype Mp3Info = Mp3Info(channels: nat, hz: nat, bitrateKbps: int)

  /** An mp3dec_ex_t after opening: the frame info, the total sample count it
      declares, and the samples it will decode. */
  datatype Mp3Decoder = Mp3Decoder(info: Mp3Info, samples: nat, items: seq<Sample>)

  /** mp3dec_ex_open's result code (0 on success) and the decoder it filled. */
  datatype Mp3Open = Mp3Open(res: int, dec: Mp3Decoder)

  /** What each library finds at the path being opened. */
  datatype Media = Media(sndfile: Option<SfFile>, minimp3: Mp3Open)

  /** One reply of the converter to src_callback_read: converted frames
      (interleaved), the -1 end-of-data answer, or an internal error that
      src_error reports afterwards. */
  datatype Step = Deliver(data: seq<Sample>) | EndOfData | Fault(code: int)

  /** libsamplerate as the read pipeline uses it: the ratio domain of
      src_is_valid_ratio, the error src_callback_new reports (0 when it
      succeeds), and the replies its converter will give, in order. */
  datatype SrcLib = SrcLib(validRatio: real -> bool, newError: int, replies: seq<Step>)

  /** src_callback_new returns a converter: it refuses a channel count below
      one, and otherwise fails exactly when the library reports an error. */
  predicate ConverterCreated(lib: SrcLib, channels: nat)
  {
    channels >= 1 && lib.newError == 0
  }

  /** The frame count the next reply answers to a request for `request`
      frames: never more than requested, or -1. An exhausted converter
      answers 0. */
  function ReplyFrames(replies: seq<Step>, request: nat, channels: nat): (n: int)
    requires channels >= 1
    ensures n == -1 || 0 <= n <= request
    ensures n > 0 ==> replies != [] && replies[0].Deliver? && n * channels <= |replies[0].data|
  {
    if replies == [] then 0
    else match replies[0]
      case Deliver(data) =>
        var n := Min(request, |data| / channels);
        DivMulLeq(|data|, channels);
        MulLeq(n, |data| / channels, channels);
        n
      case EndOfData => -1
      case Fault(_) => 0
  }

  /** The error code src_error reports after the next reply. */
  function ReplyError(replies: seq<Step>, error: int): int
  {
    if replies != [] && replies[0].Fault? then replies[0].code else error
  }

  /** A libsamplerate converter state (SRC_STATE) created in callback mode. */
  class Converter {
    const channels: nat
    var replies: seq<Step>
    var error: int

    constructor (channels: nat, replies: seq<Step>)
      requires channels >= 1
      ensures this.channels == channels && this.replies == replies && error == 0
    {
      this.channels := channels;
      this.replies := replies;
      error := 0;
    }

    /** src_callback_read: converts up to `frames` frames into `out` starting
        at sample `offset`; the caller guarantees room for all of them. */
    method CallbackRead(ratio: real, frames: nat, out: array<Sample>, offset: nat) returns (n: int)
      requires channels >= 1 && offset + frames * channels <= out.Length
      modifies this, out
      ensures n == ReplyFrames(old(replies), frames, channels)
      ensures error == ReplyError(old(replies), old(error))
      ensures replies == if old(replies) == [] then [] else old(replies)[1..]
      ensures n > 0 ==> offset + n * channels <= out.Length
      ensures n > 0 ==> out[offset..offset + n * channels] == old(replies)[0].data[..n * channels]
      ensures n > 0 ==> out[offset + n * channels..] == old(out[offset + n * channels..])
      ensures n <= 0 ==> out[..] == old(out[..])
      ensures out[..offset] == old(out[..offset])
    {
      n := ReplyFrames(replies, frames, channels);
      if replies != [] {
        if n > 0 {
          MulLeq(n, frames, channels);
          var data := replies[0].data;
          forall i | 0 <= i < n * channels {
            out[offset + i] := data[i];
          }
        }
        error := ReplyError(replies, error);
        replies := replies[1..];
      }
    }
  }
}
