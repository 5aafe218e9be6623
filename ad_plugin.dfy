/** The dispatch layer of src/ad_plugin.c: backend selection by score, the
    decoder handle binding one backend to its private state, the public
    open/info/seek/read/close/finfo calls, and the log filter. */
module AdPlugin {

  import opened AudecApi
  import opened PluginApi
  import opened CStrings
  import opened Libraries
  import Soundfile
  import Minimp3
  import Resample

  /** A backend's eval callback; the null stub scores every name -1.
      `haveMp3` is libsndfile's LIBSNDFILE_HAVE_MP3 build option. */
  function Eval(p: Plugin, fn: string, haveMp3: bool): int
  {
    match p
    case Sndfile => Soundfile.EvalSndfile(fn, haveMp3)
    case Minimp3 => Minimp3.EvalMinimp3(fn)
    case NullBackend => -1
  }

  /** The order choose_backend asks the backends in (ffmpeg is compiled out). */
  const Registry: seq<Plugin> := [Sndfile, Minimp3]

  /** The scores the backends of `order` give `fn`, in the order asked. */
  function Scores(order: seq<Plugin>, fn: string, haveMp3: bool): (scores: seq<int>)
    ensures |scores| == |order|
  {
    seq(|order|, j requires 0 <= j < |order| => Eval(order[j], fn, haveMp3))
  }

  /** The running maximum of choose_backend over `scores` from position `i`
      on: a backend replaces the current choice `best` (an index) only when
      it scores strictly more than `max`. */
  function ScanFrom(scores: seq<int>, i: nat, max: int, best: Option<nat>): (r: Option<nat>)
    requires i <= |scores| && (best.Some? ==> best.value < i)
    ensures r.Some? ==> r.value < |scores|
    decreases |scores| - i
  {
    if i == |scores| then best
    else if scores[i] > max then ScanFrom(scores, i + 1, scores[i], Some(i))
    else ScanFrom(scores, i + 1, max, best)
  }

  /** The position of the backend chosen for `fn` among `order`, starting
      from max 0 and no backend. */
  function ChooseIndex(order: seq<Plugin>, fn: string, haveMp3: bool): (r: Option<nat>)
    ensures r.Some? ==> r.value < |order|
  {
    ScanFrom(Scores(order, fn, haveMp3), 0, 0, None)
  }

  function Choose(order: seq<Plugin>, fn: string, haveMp3: bool): Option<Plugin>
  {
    match ChooseIndex(order, fn, haveMp3)
    case None => None
    case Some(k) => Some(order[k])
  }

  /** What the scan knows after the first `i` scores: no choice and max 0
      while none was above 0, otherwise the first one with the strictly
      largest score so far, which is `max`. */
  ghost predicate ScanState(scores: seq<int>, i: nat, max: int, best: Option<nat>)
  {
    && i <= |scores|
    && (best.None? ==> max == 0 && forall j :: 0 <= j < i ==> scores[j] <= 0)
    && (best.Some? ==>
          && best.value < i && max > 0 && scores[best.value] == max
          && (forall j :: 0 <= j < i ==> scores[j] <= max)
          && (forall j :: 0 <= j < best.value ==> scores[j] < max))
  }

  lemma {:induction false} ScanFromFindsFirstMaximum(scores: seq<int>, i: nat, max: int, best: Option<nat>)
    requires ScanState(scores, i, max, best)
    ensures ScanFrom(scores, i, max, best).None? <==> forall j :: 0 <= j < |scores| ==> scores[j] <= 0
    ensures ScanFrom(scores, i, max, best).Some? ==>
      var k := ScanFrom(scores, i, max, best).value;
      && scores[k] > 0
      && (forall j :: 0 <= j < |scores| ==> scores[j] <= scores[k])
      && (forall j :: 0 <= j < k ==> scores[j] < scores[k])
    decreases |scores| - i
  {
    if i < |scores| {
      if scores[i] > max {
        ScanFromFindsFirstMaximum(scores, i + 1, scores[i], Some(i));
      } else {
        ScanFromFindsFirstMaximum(scores, i + 1, max, best);
      }
    }
  }

  /** choose_backend chooses nothing exactly when no backend scores above 0,
      and otherwise the first backend with the strictly largest score, which
      is positive: an earlier backend keeps the win on a tie. */
  lemma ChooseIsFirstPositiveMaximum(order: seq<Plugin>, fn: string, haveMp3: bool)
    ensures ChooseIndex(order, fn, haveMp3).None? <==>
      forall j :: 0 <= j < |order| ==> Eval(order[j], fn, haveMp3) <= 0
    ensures ChooseIndex(order, fn, haveMp3).Some? ==>
      var k := ChooseIndex(order, fn, haveMp3).value;
      && Eval(order[k], fn, haveMp3) > 0
      && (forall j :: 0 <= j < |order| ==> Eval(order[j], fn, haveMp3) <= Eval(order[k], fn, haveMp3))
      && (forall j :: 0 <= j < k ==> Eval(order[j], fn, haveMp3) < Eval(order[k], fn, haveMp3))
  {
    var scores := Scores(order, fn, haveMp3);
    assert forall j :: 0 <= j < |order| ==> scores[j] == Eval(order[j], fn, haveMp3);
    ScanFromFindsFirstMaximum(scores, 0, 0, None);
  }

  /** A backend that scores 0 or less, such as the null stub, is never chosen. */
  lemma NonPositiveNeverChosen(order: seq<Plugin>, fn: string, haveMp3: bool)
    ensures Choose(order, fn, haveMp3).Some? ==> Eval(Choose(order, fn, haveMp3).value, fn, haveMp3) > 0
    ensures Choose(order, fn, haveMp3) != Some(NullBackend)
  {
    ChooseIsFirstPositiveMaximum(order, fn, haveMp3);
  }

  /** choose_backend: asks sndfile, then minimp3, keeping a strict running
      maximum that starts at 0. */
  method ChooseBackend(fn: string, haveMp3: bool) returns (plugin: Option<Plugin>)
    ensures plugin == Choose(Registry, fn, haveMp3)
    ensures plugin.None? <==> Eval(Sndfile, fn, haveMp3) <= 0 && Eval(Minimp3, fn, haveMp3) <= 0
    ensures plugin == Some(Sndfile) <==>
      Eval(Sndfile, fn, haveMp3) > 0 && Eval(Sndfile, fn, haveMp3) >= Eval(Minimp3, fn, haveMp3)
  {
    var max := 0;
    plugin := None;
    var val := Eval(Sndfile, fn, haveMp3);
    if val > max {
      max := val;
      plugin := Some(Sndfile);
    }
    val := Eval(Minimp3, fn, haveMp3);
    if val > max {
      max := val;
      plugin := Some(Minimp3);
    }
    RegistryChoice(fn, haveMp3);
  }

  /** A URL is never opened: both backends score it 0. */
  lemma UrlChoosesNothing(fn: string, haveMp3: bool)
    requires Contains(fn, "://")
    ensures Choose(Registry, fn, haveMp3) == None
  {
    RegistryChoice(fn, haveMp3);
  }

  /** A name without '.' scores 5 with both backends, and sndfile, asked
      first, keeps the tie. */
  lemma DotlessChoosesSndfile(fn: string, haveMp3: bool)
    requires !Contains(fn, "://") && '.' !in fn
    ensures Choose(Registry, fn, haveMp3) == Some(Sndfile)
  {
    RegistryChoice(fn, haveMp3);
  }

  /** An .mp3 file goes to sndfile (80 against 50) in a build with MP3
      support, and to minimp3 otherwise. */
  lemma Mp3Choice(fn: string, haveMp3: bool)
    requires !Contains(fn, "://") && Extension(fn).Some? && EqualsIgnoreCase(Extension(fn).value, ".mp3")
    ensures Choose(Registry, fn, haveMp3) == Some(if haveMp3 then Sndfile else Minimp3)
  {
    SndfileScoresMp3(fn, haveMp3);
    Minimp3.ScoresMp3(fn);
    RegistryChoice(fn, haveMp3);
  }

  /** The sndfile score of a name whose extension folds to ".mp3". */
  lemma SndfileScoresMp3(fn: string, haveMp3: bool)
    requires !Contains(fn, "://") && Extension(fn).Some? && EqualsIgnoreCase(Extension(fn).value, ".mp3")
    ensures Eval(Sndfile, fn, haveMp3) == if haveMp3 then 80 else 0
  {
    FoldsToMp3(Extension(fn).value);
    Soundfile.EvalOfMp3Name(fn, haveMp3);
  }

  /** choose_backend over the registry, in terms of the two scores: minimp3
      only when it beats both 0 and sndfile, which is asked first. */
  lemma RegistryChoice(fn: string, haveMp3: bool)
    ensures Choose(Registry, fn, haveMp3) ==
      var s := Eval(Sndfile, fn, haveMp3);
      var m := Eval(Minimp3, fn, haveMp3);
      if m > s && m > 0 then Some(Minimp3) else if s > 0 then Some(Sndfile) else None
  {
    ScanOfTwo(Scores(Registry, fn, haveMp3));
  }

  /** The scan over two scores: the second wins only when it beats both 0
      and the first. */
  lemma ScanOfTwo(scores: seq<int>)
    requires |scores| == 2
    ensures ScanFrom(scores, 0, 0, None) ==
      if scores[1] > scores[0] && scores[1] > 0 then Some(1) else if scores[0] > 0 then Some(0) else None
  {
    var max := if scores[0] > 0 then scores[0] else 0;
    var best: Option<nat> := if scores[0] > 0 then Some(0) else None;
    assert ScanFrom(scores, 0, 0, None) == ScanFrom(scores, 1, max, best);
    assert ScanFrom(scores, 1, max, best) == if scores[1] > max then Some(1) else best;
  }

  /** The private state a decoder handle points at: one backend's decoder. */
  datatype Data = SfData(sf: Soundfile.SndfileDecoder) | Mp3Data(mp3: Minimp3.Minimp3Decoder)

  /** The backend a private state belongs to. */
  function PluginOf(d: Data): Plugin
  {
    match d
    case SfData(_) => Sndfile
    case Mp3Data(_) => Minimp3
  }

  /** The decoding library's read position inside the private state. */
  function Stream(d: Data): LibStream
  {
    match d
    case SfData(sf) => sf.sffile
    case Mp3Data(m) => m.stream
  }

  function Priv(d: Data): object
  {
    match d
    case SfData(sf) => sf
    case Mp3Data(m) => m
  }

  /** The fields a backend's info callback writes into `nfo` (meta-data is
      always NULL); `bpm` is None when the callback leaves the bpm as it was. */
  datatype Report = Report(frames: nat, channels: nat, sampleRate: nat, length: int,
                           bitDepth: int, bitRate: int, bpm: Option<real>)

  /** What ad_info_sndfile reports for a file with this SF_INFO and loop
      information. */
  function SndfileReport(info: SfInfo, loopBpm: Option<real>): Report
  {
    var depth := Soundfile.ParseBitDepth(info.format);
    Report(info.frames, info.channels, info.samplerate, Soundfile.LengthMs(info.frames, info.samplerate),
           depth, depth * info.channels * info.samplerate, loopBpm)
  }

  /** What ad_info_minimp3 reports for an opened decoder; the guards only
      matter for a decoder its divisions are not defined on. */
  function Minimp3Report(dec: Mp3Decoder): Report
  {
    var frames := if dec.info.channels > 0 then Minimp3.Frames(dec.samples, dec.info.channels) else 0;
    var length := if frames == 0 || dec.info.hz > 0 then Minimp3.LengthMs(frames, dec.info.hz) else 0;
    Report(frames, dec.info.channels, dec.info.hz, length, 0, dec.info.bitrateKbps, Some(0.0))
  }

  /** What the backend of an open handle reports. */
  function ReportOf(d: Data): Report
  {
    match d
    case SfData(sf) => SndfileReport(sf.sfinfo, sf.loopBpm)
    case Mp3Data(m) => Minimp3Report(m.dec)
  }

  /** What backend `p` reports once it has opened what it finds at the path. */
  function MediaReport(p: Plugin, media: Media): Report
    requires Opens(p, media)
  {
    match p
    case Sndfile => SndfileReport(media.sndfile.value.info, media.sndfile.value.loopBpm)
    case Minimp3 => Minimp3Report(media.minimp3.dec)
  }

  /** The samples backend `p` will decode once it has opened what it finds
      at the path. */
  function MediaItems(p: Plugin, media: Media): seq<Sample>
    requires Opens(p, media)
  {
    match p
    case Sndfile => media.sndfile.value.items
    case Minimp3 => media.minimp3.dec.items
  }

  function FramesOf(d: Data): nat
  {
    ReportOf(d).frames
  }

  function ChannelsOf(d: Data): nat
  {
    ReportOf(d).channels
  }

  function RateOf(d: Data): nat
  {
    ReportOf(d).sampleRate
  }

  ghost predicate DataValid(d: Data)
    reads Priv(d), Stream(d)
  {
    match d
    case SfData(sf) => sf.Valid()
    case Mp3Data(m) => m.Valid()
  }

  /** `nfo` holds every field of a report, with NULL meta-data. */
  ghost predicate Holds(nfo: AudecInfo, r: Report)
    reads nfo
  {
    && nfo.frames == r.frames && nfo.channels == r.channels && nfo.sampleRate == r.sampleRate
    && nfo.length == r.length && nfo.bitDepth == r.bitDepth && nfo.bitRate == r.bitRate
    && nfo.metaData == None && (r.bpm.Some? ==> nfo.bpm == r.bpm.value)
  }

  /** `nfo` holds what the backend reports about its file. */
  ghost predicate Describes(d: Data, nfo: AudecInfo)
    reads nfo
  {
    Holds(nfo, ReportOf(d))
  }

  /** An open decoder handle (struct adecoder): its backend and that
      backend's private state. */
  class Decoder {
    const plugin: Plugin
    const data: Data
    /** False once audec_close has freed the handle. */
    ghost var valid: bool

    ghost predicate Valid()
      reads this, Priv(data), Stream(data)
    {
      valid && plugin == PluginOf(data) && DataValid(data)
    }

    constructor (data: Data)
      requires DataValid(data)
      ensures Valid() && this.data == data && plugin == PluginOf(data)
    {
      plugin := PluginOf(data);
      this.data := data;
      valid := true;
    }
  }

  /** Whether a backend's open callback succeeds on what the decoding
      libraries find at the path. */
  predicate Opens(p: Plugin, media: Media)
  {
    match p
    case Sndfile => media.sndfile.Some?
    case Minimp3 => media.minimp3.res == 0
    case NullBackend => false
  }

  /** ad_info_minimp3 divides without a guard: when minimp3 is the backend
      chosen for the path and opens it, its decoder must allow the divisions. */
  predicate Mp3Defined(filename: string, media: Media, haveMp3: bool)
  {
    (Choose(Registry, filename, haveMp3) == Some(Minimp3) && media.minimp3.res == 0) ==>
      Minimp3.InfoDefined(media.minimp3.dec)
  }

  /** audec_open: clears `nfo`, chooses a backend and opens the file with it
      only; NULL when no backend is chosen or its open fails. */
  method Open(filename: string, nfo: AudecInfo, media: Media, haveMp3: bool) returns (handle: Decoder?)
    requires Mp3Defined(filename, media, haveMp3)
    modifies nfo
    ensures handle == null <==>
      Choose(Registry, filename, haveMp3).None? || !Opens(Choose(Registry, filename, haveMp3).value, media)
    ensures handle == null ==> nfo.Cleared() && nfo.metaReleased == old(nfo.metaReleased)
    ensures handle != null ==>
      && fresh(handle) && fresh(Priv(handle.data)) && fresh(Stream(handle.data))
      && handle.Valid() && Stream(handle.data).cursor == 0
      && Some(handle.plugin) == Choose(Registry, filename, haveMp3)
      && Describes(handle.data, nfo)
      && ReportOf(handle.data) == MediaReport(handle.plugin, media)
      && Stream(handle.data).items == MediaItems(handle.plugin, media)
      && (ReportOf(handle.data).bpm.None? ==> nfo.bpm == 0.0)
      && (CloseAnswer(handle.data) == 0 <==> CloseSucceeds(handle.plugin, media))
  {
    nfo.Clear();
    var chosen := ChooseBackend(filename, haveMp3);
    if chosen.None? {
      return null;
    }
    match chosen.value
    case Sndfile =>
      var priv := Soundfile.Open(nfo, media.sndfile);
      if priv == null {
        return null;
      }
      handle := new Decoder(SfData(priv));
    case Minimp3 =>
      var priv := Minimp3.Open(nfo, media.minimp3);
      if priv == null {
        return null;
      }
      handle := new Decoder(Mp3Data(priv));
    case NullBackend =>
      return null;
  }

  /** audec_info: -1 for a NULL handle, otherwise the backend's info, which
      succeeds for an open decoder. */
  method Info(handle: Decoder?, nfo: AudecInfo?) returns (r: int)
    requires handle != null ==> handle.Valid()
    modifies if nfo != null then {nfo} else {}
    ensures handle == null ==> r == -1
    ensures handle == null && nfo != null ==> unchanged(nfo)
    ensures handle != null ==> r == 0
    ensures handle != null && nfo != null ==> Describes(handle.data, nfo)
    ensures handle != null && nfo != null && ReportOf(handle.data).bpm.None? ==> nfo.bpm == old(nfo.bpm)
  {
    if handle == null {
      return -1;
    }
    match handle.data
    case SfData(sf) =>
      r := Soundfile.Info(sf, nfo);
    case Mp3Data(m) =>
      r := Minimp3.Info(m, nfo);
  }

  /** The answer of the backend's seek callback: sndfile seeks by frames and
      answers the position; minimp3 passes the position on as a sample index
      and answers 0 or MP3D_E_PARAM. */
  function SeekAnswer(d: Data, pos: int): int
  {
    match d
    case SfData(sf) => if 0 <= pos * sf.sfinfo.channels <= |sf.sffile.items| then pos else -1
    case Mp3Data(m) => if 0 <= pos <= |m.stream.items| then 0 else Minimp3.MP3D_E_PARAM
  }

  /** Where the backend's seek callback leaves the read position (an item
      index) that was at `cursor`: sndfile moves to the frame, minimp3 to the
      sample, and neither moves on failure. */
  function SeekCursor(d: Data, pos: int, cursor: int): int
  {
    match d
    case SfData(sf) =>
      if 0 <= pos * sf.sfinfo.channels <= |sf.sffile.items| then pos * sf.sfinfo.channels else cursor
    case Mp3Data(m) => if 0 <= pos <= |m.stream.items| then pos else cursor
  }

  /** audec_seek: -1 for a NULL handle, otherwise the backend's answer. */
  method Seek(handle: Decoder?, pos: int) returns (r: int)
    requires handle != null ==> handle.Valid()
    modifies if handle != null then {Stream(handle.data)} else {}
    ensures handle == null ==> r == -1
    ensures handle != null ==> handle.Valid() && r == SeekAnswer(handle.data, pos)
    ensures handle != null ==>
      Stream(handle.data).cursor == SeekCursor(handle.data, pos, old(Stream(handle.data).cursor))
  {
    if handle == null {
      return -1;
    }
    match handle.data
    case SfData(sf) =>
      r := Soundfile.Seek(sf, pos);
    case Mp3Data(m) =>
      r := Minimp3.Seek(m, pos);
  }

  /** The answer of the backend's close callback: sndfile reports a failing
      sf_close as -1, minimp3 always succeeds. */
  function CloseAnswer(d: Data): int
  {
    match d
    case SfData(sf) => if sf.closeError == 0 then 0 else -1
    case Mp3Data(_) => 0
  }

  /** Whether the backend's private state has not been freed yet. */
  ghost function Live(d: Data): bool
    reads Priv(d)
  {
    match d
    case SfData(sf) => sf.live
    case Mp3Data(m) => m.live
  }

  /** audec_close: -1 for a NULL handle; otherwise the backend's answer, and
      the handle is freed whatever that answer is. The backend's private
      state is freed only when its close succeeds: a failing sf_close leaves
      it allocated. */
  method Close(handle: Decoder?) returns (r: int)
    requires handle != null ==> handle.Valid()
    modifies if handle != null then {handle, Priv(handle.data)} else {}
    ensures handle == null ==> r == -1
    ensures handle != null ==> r == CloseAnswer(handle.data) && !handle.valid
    ensures handle != null ==> Live(handle.data) == (r != 0)
  {
    if handle == null {
      return -1;
    }
    match handle.data {
      case SfData(sf) =>
        r := Soundfile.Close(sf);
      case Mp3Data(m) =>
        r := Minimp3.Close(m);
    }
    handle.valid := false;
  }

  /** The number of items the backend can still deliver. */
  ghost function Remaining(d: Data): int
    reads Stream(d)
  {
    |Stream(d).items| - Stream(d).cursor
  }

  /** The number of items audec_read's bulk read receives: as many as
      requested (frames × channels) if the file still holds them. */
  ghost function BulkRead(d: Data): int
    reads Stream(d)
  {
    Min(FramesOf(d) * ChannelsOf(d), Remaining(d))
  }

  /** The bulk read of audec_read: the backend's read callback asked for
      frames × channels items into `input`. */
  method BulkReadInto(handle: Decoder, input: array<Sample>) returns (got: int)
    requires handle.Valid() && input.Length == FramesOf(handle.data) * ChannelsOf(handle.data)
    modifies Stream(handle.data), input
    ensures handle.Valid()
    ensures got == old(BulkRead(handle.data)) && got >= 0
    ensures Stream(handle.data).cursor == old(Stream(handle.data).cursor) + got
    ensures input[..got] == Stream(handle.data).items[old(Stream(handle.data).cursor)..Stream(handle.data).cursor]
  {
    match handle.data
    case SfData(sf) =>
      got := Soundfile.Read(sf, input, input.Length);
    case Mp3Data(m) =>
      got := Minimp3.Read(m, input, input.Length);
  }

  /** What audec_read does with an open handle and a NULL `*out`: the
      info, the bulk read, and the conversion. */
  method ReadOpen(handle: Decoder, sampleRate: int, lib: SrcLib) returns (ret: int, result: array?<Sample>)
    requires handle.Valid()
    modifies Stream(handle.data)
    ensures handle.Valid()
    ensures Stream(handle.data).cursor == old(Stream(handle.data).cursor) + old(BulkRead(handle.data))
    ensures
      var spec := Resample.ReadSpec(FramesOf(handle.data), ChannelsOf(handle.data), RateOf(handle.data),
                                    old(BulkRead(handle.data)), sampleRate, lib);
      && ret == Resample.Returned(spec)
      && (spec.ReadFailed? ==> result == null)
      && (spec.Unconverted? ==>
            && result != null && fresh(result)
            && result.Length == FramesOf(handle.data) * ChannelsOf(handle.data)
            && result[..old(BulkRead(handle.data))]
               == Stream(handle.data).items[old(Stream(handle.data).cursor)..Stream(handle.data).cursor])
      && (spec.Resampled? ==>
            && result != null
            && ret * ChannelsOf(handle.data) <= result.Length
            && result[..ret * ChannelsOf(handle.data)] == spec.samples)
  {
    var nfo := new AudecInfo();
    var _ := Info(handle, nfo);
    var frames: nat := nfo.frames;
    var channels := nfo.channels;
    var rate := nfo.sampleRate;
    assert frames == FramesOf(handle.data) && channels == ChannelsOf(handle.data) && rate == RateOf(handle.data);
    var inLen := frames * channels;
    var input := new Sample[inLen];
    var got := BulkReadInto(handle, input);
    ret, result := Resample.ConvertRead(input, frames, channels, rate, got, sampleRate, lib);
  }

  /** audec_read. `out` is what the caller's `*out` holds on entry and
      `result` what it holds on return; `sampleRate` is the target rate and
      `lib` what libsamplerate does for this conversion. A NULL handle or a
      non-NULL `*out` fails before anything is allocated or read. */
  method Read(handle: Decoder?, out: array?<Sample>, sampleRate: int, lib: SrcLib)
    returns (ret: int, result: array?<Sample>)
    requires handle != null ==> handle.Valid()
    modifies if handle != null then {Stream(handle.data)} else {}
    ensures handle == null || out != null ==> ret == -1 && result == out
    ensures handle != null && out != null ==> unchanged(Stream(handle.data))
    ensures handle != null ==> handle.Valid()
    ensures handle != null && out == null ==>
      var spec := Resample.ReadSpec(FramesOf(handle.data), ChannelsOf(handle.data), RateOf(handle.data),
                                    old(BulkRead(handle.data)), sampleRate, lib);
      && Stream(handle.data).cursor == old(Stream(handle.data).cursor) + old(BulkRead(handle.data))
      && ret == Resample.Returned(spec)
      && (spec.ReadFailed? ==> result == null)
      && (spec.Unconverted? ==>
            && result != null && fresh(result)
            && result.Length == FramesOf(handle.data) * ChannelsOf(handle.data)
            && result[..old(BulkRead(handle.data))]
               == Stream(handle.data).items[old(Stream(handle.data).cursor)..Stream(handle.data).cursor])
      && (spec.Resampled? ==>
            && result != null
            && ret * ChannelsOf(handle.data) <= result.Length
            && result[..ret * ChannelsOf(handle.data)] == spec.samples)
  {
    if handle == null {
      return -1, out;
    }
    if out != null {
      return -1, out;
    }
    ret, result := ReadOpen(handle, sampleRate, lib);
  }

  /** audec_finfo: clears `nfo`, opens and closes the file; 0 exactly when
      the open succeeded and the backend's close reported success. `nfo`
      keeps what the open filled in, whatever the close answers. */
  method FileInfo(filename: string, nfo: AudecInfo, media: Media, haveMp3: bool) returns (r: int)
    requires Mp3Defined(filename, media, haveMp3)
    modifies nfo
    ensures r == 0 || r == 1
    ensures r == 0 <==>
      && Choose(Registry, filename, haveMp3).Some?
      && Opens(Choose(Registry, filename, haveMp3).value, media)
      && CloseSucceeds(Choose(Registry, filename, haveMp3).value, media)
    ensures Choose(Registry, filename, haveMp3).Some? && Opens(Choose(Registry, filename, haveMp3).value, media) ==>
      var report := MediaReport(Choose(Registry, filename, haveMp3).value, media);
      Holds(nfo, report) && (report.bpm.None? ==> nfo.bpm == 0.0)
    ensures !(Choose(Registry, filename, haveMp3).Some? && Opens(Choose(Registry, filename, haveMp3).value, media)) ==>
      nfo.Cleared()
  {
    nfo.Clear();
    var sf := Open(filename, nfo, media, haveMp3);
    var closed := Close(sf);
    r := if closed != 0 then 1 else 0;
  }

  /** Whether closing a freshly opened file succeeds. */
  predicate CloseSucceeds(p: Plugin, media: Media)
  {
    match p
    case Sndfile => media.sndfile.Some? && media.sndfile.value.closeError == 0
    case Minimp3 => true
    case NullBackend => false
  }

  /** Where audec_log sends a message. */
  datatype LogRoute = ToSink | ToStderr | Dropped

  /** audec_log's decision: every message goes to the installed log
      function; without one, a message is printed when its level is at most
      the current log level. */
  function Route(hasSink: bool, level: int, threshold: int): (r: LogRoute)
    ensures r == ToSink <==> hasSink
    ensures r == ToStderr <==> !hasSink && level <= threshold
  {
    if hasSink then ToSink
    else if level <= threshold then ToStderr
    else Dropped
  }

  /** Raising the log level never hides a message that was printed, and a
      more important (lower) level is printed whenever a less important
      one is. */
  lemma RouteMonotone(level: int, level2: int, threshold: int, threshold2: int)
    requires level2 <= level && threshold <= threshold2
    ensures Route(false, level, threshold) == ToStderr ==> Route(false, level2, threshold2) == ToStderr
    ensures Route(true, level, threshold) == ToSink
    ensures Route(false, level, threshold) != ToSink
  {
  }

  /** The library's log configuration: the global audec_log_level and
      log_fn (modelled only as present or absent). */
  class LogConfig {
    var level: int
    var hasSink: bool

    constructor ()
      ensures level == LOG_LEVEL_ERROR && !hasSink
    {
      level := LOG_LEVEL_ERROR;
      hasSink := false;
    }

    /** audec_set_log_level. */
    method SetLogLevel(lvl: int)
      modifies this
      ensures level == lvl && hasSink == old(hasSink)
    {
      level := lvl;
    }

    /** audec_set_log_func; passing NULL removes the sink. */
    method SetLogFunc(present: bool)
      modifies this
      ensures hasSink == present && level == old(level)
    {
      hasSink := present;
    }
  }
}
