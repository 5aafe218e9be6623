/** The read pipeline of audec_read after the bulk read (src/ad_plugin.c):
    the over-read check, the passthrough path, the output-buffer sizing of
    get_buf_size_for_sample_rate, and the chunked loop that drives the
    sample-rate converter. */
module Resample {

  import opened AudecApi
  import opened PluginApi
  import opened Libraries

  /** The largest number of frames one converter request asks for. */
  const MaxChunk: nat := 6000

  /** The tolerance get_buf_size_for_sample_rate allows around ratio 1. */
  const Epsilon: real := 0.00000000000000000001

  /** Largest value of a C `unsigned int`: sample rates are stored as one. */
  const UINT_MAX: nat := 0xFFFF_FFFF

  function Abs(x: real): real
  {
    if x < 0.0 then -x else x
  }

  lemma RealMulNonneg(a: real, b: real)
    requires a >= 0.0 && b >= 0.0
    ensures a * b >= 0.0
  {
  }

  lemma RatioNonneg(t: real, s: real)
    requires t >= 0.0 && s > 0.0
    ensures t / s >= 0.0
  {
  }

  lemma MulMonotone(a: real, b: real, c: real)
    requires a <= b && c >= 0.0
    ensures a * c <= b * c
  {
    assert b * c - a * c == (b - a) * c;
    RealMulNonneg(b - a, c);
  }

  /** get_buf_size_for_sample_rate: the number of samples the resampled
      output needs, or -1 when the converter rejects the ratio. A source rate
      of 0 makes the C ratio infinite, which no converter accepts. */
  function GetBufSize(frames: nat, channels: nat, srcRate: nat, target: nat,
                      validRatio: real -> bool): (size: int)
    ensures size == -1 || size >= 0
    ensures target == srcRate ==> size == frames * channels
    ensures target != srcRate && srcRate == 0 ==> size == -1
    ensures size == -1 ==> target != srcRate && (srcRate == 0 || !validRatio(target as real / srcRate as real))
    ensures target != srcRate && 0 < srcRate <= UINT_MAX && !validRatio(target as real / srcRate as real) ==>
      size == -1
  {
    if target == srcRate then frames * channels
    else if srcRate == 0 then -1
    else
      var ratio := target as real / srcRate as real;
      if Abs(ratio - 1.0) < Epsilon then
        if srcRate <= UINT_MAX then EpsilonBranchUnreachable(srcRate, target); frames * channels
        else frames * channels
      else if !validRatio(ratio) then -1
      else
        RatioNonneg(target as real, srcRate as real);
        RealMulNonneg(frames as real, ratio);
        RealMulNonneg(frames as real * ratio, channels as real);
        (frames as real * ratio * channels as real).Floor
  }

  /** The frame count the test program expects after resampling: the
      declared count scaled by the ratio, truncated. */
  function ExpectedFrames(frames: nat, target: nat, srcRate: nat): (n: nat)
    requires srcRate > 0
    ensures n as real <= frames as real * (target as real / srcRate as real) < n as real + 1.0
  {
    RatioNonneg(target as real, srcRate as real);
    RealMulNonneg(frames as real, target as real / srcRate as real);
    (frames as real * (target as real / srcRate as real)).Floor
  }

  lemma ScaledGap(t: real, s: real)
    requires s > 0.0
    ensures Abs(t / s - 1.0) * s == Abs(t - s)
  {
    var d := t / s - 1.0;
    assert d * s == t - s;
    if d < 0.0 {
      assert Abs(d) * s == -(d * s);
    }
  }

  lemma GapAtLeastOne(a: nat, b: nat)
    requires a != b
    ensures Abs(a as real - b as real) >= 1.0
  {
    assert a as real - b as real == (a - b) as real;
  }

  lemma SmallTimesBounded(a: real, s: real)
    requires 0.0 <= a < Epsilon && 0.0 < s <= UINT_MAX as real
    ensures a * s < 1.0
  {
    MulMonotone(a, Epsilon, s);
    MulMonotone(s, UINT_MAX as real, Epsilon);
  }

  lemma GapForcesSize(a: real, s: real, g: real)
    requires 0.0 <= a && 0.0 < s <= UINT_MAX as real && a * s == g && g >= 1.0
    ensures a >= Epsilon
  {
    if a < Epsilon {
      SmallTimesBounded(a, s);
    }
  }

  /** Two different rates that fit an unsigned int never give a ratio within
      the tolerance of 1, so the second "no change" branch cannot be reached
      from audec_read, which only sizes the buffer when the rates differ. */
  lemma EpsilonBranchUnreachable(srcRate: nat, target: nat)
    requires 0 < srcRate <= UINT_MAX && target != srcRate
    ensures Abs(target as real / srcRate as real - 1.0) >= Epsilon
  {
    var s := srcRate as real;
    var t := target as real;
    ScaledGap(t, s);
    GapAtLeastOne(target, srcRate);
    GapForcesSize(Abs(t / s - 1.0), s, Abs(t - s));
  }

  lemma FloorMonotone(x: real, n: int)
    requires n as real <= x
    ensures n <= x.Floor
  {
  }

  lemma DivBetween(m: nat, c: nat, k: nat)
    requires c >= 1 && k * c <= m < (k + 1) * c
    ensures m / c == k
  {
    var q, r := m / c, m % c;
    assert m == q * c + r && 0 <= r < c;
    if q < k {
      MulLeq(q, k - 1, c);
      assert false;
    } else if q > k {
      assert false;
    }
  }

  /** Truncating x·c and then dividing by c truncates x. */
  lemma FloorScaledBelow(x: real, c: nat, k: int, m: int)
    requires x >= 0.0 && c >= 1 && k == x.Floor && m == (x * c as real).Floor
    ensures m < (k + 1) * c
  {
    assert x < k as real + 1.0;
    MulMonotone(x, k as real + 1.0, c as real);
    assert x * c as real != (k as real + 1.0) * c as real;
    assert (k as real + 1.0) * c as real == ((k + 1) * c) as real;
    assert (m as real) < ((k + 1) * c) as real;
  }

  /** Truncating x·c and then dividing by c truncates x. */
  lemma FloorScaledDiv(x: real, c: nat)
    requires x >= 0.0 && c >= 1
    ensures (x * c as real).Floor / c == x.Floor
  {
    var k := x.Floor;
    var m := (x * c as real).Floor;
    MulMonotone(k as real, x, c as real);
    assert (k * c) as real == k as real * c as real;
    FloorMonotone(x * c as real, k * c);
    FloorScaledBelow(x, c, k, m);
    DivBetween(m, c, k);
  }

  /** Per channel, the buffer holds exactly the frame count the test
      program expects. */
  lemma {:induction false} BufSizePerChannel(frames: nat, channels: nat, srcRate: nat, target: nat,
                                             validRatio: real -> bool)
    requires channels >= 1 && 0 < srcRate <= UINT_MAX && target != srcRate
    requires validRatio(target as real / srcRate as real)
    ensures GetBufSize(frames, channels, srcRate, target, validRatio) / channels
            == ExpectedFrames(frames, target, srcRate)
  {
    EpsilonBranchUnreachable(srcRate, target);
    var x := frames as real * (target as real / srcRate as real);
    RatioNonneg(target as real, srcRate as real);
    RealMulNonneg(frames as real, target as real / srcRate as real);
    assert GetBufSize(frames, channels, srcRate, target, validRatio) == (x * channels as real).Floor;
    FloorScaledDiv(x, channels);
  }

  /** What one run of the converter loop produces, starting after `total`
      frames: Failed when the converter reports an error or answers -1,
      otherwise the final frame count and the samples written after `total`.
      The loop stops at the first reply of 0 frames. */
  datatype Outcome = Failed | Converted(frames: nat, samples: seq<Sample>)

  function Prefixed(prefix: seq<Sample>, o: Outcome): Outcome
  {
    match o
    case Failed => Failed
    case Converted(f, s) => Converted(f, prefix + s)
  }

  lemma Distributes(a: nat, b: nat, c: nat)
    ensures (a + b) * c == a * c + b * c
  {
  }

  lemma PrefixedTwice(a: seq<Sample>, b: seq<Sample>, o: Outcome)
    ensures Prefixed(a, Prefixed(b, o)) == Prefixed(a + b, o)
  {
    if o.Converted? {
      assert a + (b + o.samples) == (a + b) + o.samples;
    }
  }

  /** The converter loop as a function of the converter's replies: each
      request asks for MIN(6000, numOut - total) frames. */
  function Drive(replies: seq<Step>, channels: nat, numOut: nat, total: nat): (o: Outcome)
    requires channels >= 1 && total <= numOut
    ensures o.Converted? ==> total <= o.frames <= numOut
    ensures o.Converted? ==> |o.samples| == (o.frames - total) * channels
    decreases |replies|
  {
    var n := ReplyFrames(replies, Min(MaxChunk, numOut - total), channels);
    if ReplyError(replies, 0) != 0 then Failed
    else if n == -1 then Failed
    else if n == 0 then Converted(total, [])
    else
      var rest := Drive(replies[1..], channels, numOut, total + n);
      assert rest.Converted? ==> (rest.frames - total) * channels == n * channels + (rest.frames - total - n) * channels;
      Prefixed(replies[0].data[..n * channels], rest)
  }

  lemma DriveFails(replies: seq<Step>, channels: nat, numOut: nat, total: nat)
    requires channels >= 1 && total <= numOut
    requires ReplyError(replies, 0) != 0 || ReplyFrames(replies, Min(MaxChunk, numOut - total), channels) == -1
    ensures Drive(replies, channels, numOut, total) == Failed
  {
  }

  lemma DriveStops(replies: seq<Step>, channels: nat, numOut: nat, total: nat)
    requires channels >= 1 && total <= numOut
    requires ReplyError(replies, 0) == 0 && ReplyFrames(replies, Min(MaxChunk, numOut - total), channels) == 0
    ensures Drive(replies, channels, numOut, total) == Converted(total, [])
  {
  }

  lemma DriveContinues(replies: seq<Step>, channels: nat, numOut: nat, total: nat, n: nat)
    requires channels >= 1 && total <= numOut
    requires ReplyError(replies, 0) == 0 && n > 0
    requires n == ReplyFrames(replies, Min(MaxChunk, numOut - total), channels)
    ensures replies != [] && total + n <= numOut && n * channels <= |replies[0].data|
    ensures Drive(replies, channels, numOut, total)
            == Prefixed(replies[0].data[..n * channels], Drive(replies[1..], channels, numOut, total + n))
  {
  }

  /** A reply that ends the loop in failure: an error src_error reports, or
      the -1 answer. */
  predicate Breaks(s: Step)
  {
    s.EndOfData? || (s.Fault? && s.code != 0)
  }

  /** How many of the leading replies deliver frames before the loop meets
      a reply that does not, and the frame total they reach. */
  function Advance(replies: seq<Step>, channels: nat, numOut: nat, total: nat): (a: (nat, nat))
    requires channels >= 1 && total <= numOut
    ensures a.0 <= |replies| && total <= a.1 <= numOut
    ensures forall j :: 0 <= j < a.0 ==> replies[j].Deliver?
    decreases |replies|
  {
    var n := ReplyFrames(replies, Min(MaxChunk, numOut - total), channels);
    if n <= 0 then (0, total)
    else
      var rest := Advance(replies[1..], channels, numOut, total + n);
      (rest.0 + 1, rest.1)
  }

  /** The loop fails exactly when the first reply that delivers no frames
      is an error or the -1 answer; otherwise it ends with the total the
      delivering replies reached. */
  lemma {:induction false} DriveFailsIff(replies: seq<Step>, channels: nat, numOut: nat, total: nat)
    requires channels >= 1 && total <= numOut
    ensures Drive(replies, channels, numOut, total).Failed? <==>
      var a := Advance(replies, channels, numOut, total);
      a.0 < |replies| && Breaks(replies[a.0])
    ensures Drive(replies, channels, numOut, total).Converted? ==>
      Drive(replies, channels, numOut, total).frames == Advance(replies, channels, numOut, total).1
    decreases |replies|
  {
    var n := ReplyFrames(replies, Min(MaxChunk, numOut - total), channels);
    if n > 0 {
      DriveFailsIff(replies[1..], channels, numOut, total + n);
      DeliveringReplyAdvances(replies, channels, numOut, total, n);
    } else {
      FirstReplyDecides(replies, channels, numOut, total);
    }
  }

  /** When the first reply delivers no frames, it alone decides the loop. */
  lemma FirstReplyDecides(replies: seq<Step>, channels: nat, numOut: nat, total: nat)
    requires channels >= 1 && total <= numOut
    requires ReplyFrames(replies, Min(MaxChunk, numOut - total), channels) <= 0
    ensures Advance(replies, channels, numOut, total) == (0, total)
    ensures Drive(replies, channels, numOut, total).Failed? <==> replies != [] && Breaks(replies[0])
    ensures Drive(replies, channels, numOut, total).Converted? ==>
      Drive(replies, channels, numOut, total).frames == total
  {
    if replies != [] && Breaks(replies[0]) {
      DriveFails(replies, channels, numOut, total);
    } else {
      DriveStops(replies, channels, numOut, total);
    }
  }

  /** A reply that delivers `n` frames moves both the loop and the count on
      to the next reply. */
  lemma DeliveringReplyAdvances(replies: seq<Step>, channels: nat, numOut: nat, total: nat, n: nat)
    requires channels >= 1 && total <= numOut && n > 0
    requires n == ReplyFrames(replies, Min(MaxChunk, numOut - total), channels)
    ensures replies != [] && total + n <= numOut
    ensures Advance(replies, channels, numOut, total).0 == Advance(replies[1..], channels, numOut, total + n).0 + 1
    ensures Advance(replies, channels, numOut, total).1 == Advance(replies[1..], channels, numOut, total + n).1
    ensures Drive(replies, channels, numOut, total).Failed? <==> Drive(replies[1..], channels, numOut, total + n).Failed?
    ensures Drive(replies, channels, numOut, total).Converted? ==>
      Drive(replies, channels, numOut, total).frames == Drive(replies[1..], channels, numOut, total + n).frames
  {
    DriveContinues(replies, channels, numOut, total, n);
  }

  /** Writing the next chunk after the samples already in `out` extends
      the converted prefix. */
  lemma ExtendPrefix(before: seq<Sample>, after: seq<Sample>, offset: nat, k: nat, chunk: seq<Sample>,
                     rest: Outcome, whole: Outcome)
    requires |before| == offset && offset + k <= |after| && |chunk| == k
    requires after[..offset] == before && after[offset..offset + k] == chunk
    requires Prefixed(before, Prefixed(chunk, rest)) == whole
    ensures Prefixed(after[..offset + k], rest) == whole
  {
    assert after[..offset + k] == before + chunk;
    PrefixedTwice(before, chunk, rest);
  }

  /** A converter that answers every request in full (each reply holds at
      least a whole chunk) and has replies for every chunk fills the whole
      output. */
  lemma {:induction false} DriveFillsOutput(replies: seq<Step>, channels: nat, numOut: nat, total: nat)
    requires channels >= 1 && total <= numOut
    requires forall i :: 0 <= i < |replies| ==> replies[i].Deliver? && |replies[i].data| >= MaxChunk * channels
    requires numOut - total <= MaxChunk * |replies|
    ensures Drive(replies, channels, numOut, total).Converted?
    ensures Drive(replies, channels, numOut, total).frames == numOut
    decreases |replies|
  {
    var req := Min(MaxChunk, numOut - total);
    if total < numOut {
      assert replies != [];
      var d := replies[0].data;
      DivBetweenLower(|d|, channels, MaxChunk);
      assert ReplyFrames(replies, req, channels) == req;
      DriveFillsOutput(replies[1..], channels, numOut, total + req);
    }
  }

  lemma DivBetweenLower(m: nat, c: nat, k: nat)
    requires c >= 1 && k * c <= m
    ensures m / c >= k
  {
    var q, r := m / c, m % c;
    assert m == q * c + r && 0 <= r < c;
    if q < k {
      MulLeq(q, k - 1, c);
      assert false;
    }
  }

  /** How audec_read ends once the backend has been read. */
  datatype ReadOutcome = ReadFailed | Unconverted(frames: nat) | Resampled(frames: nat, samples: seq<Sample>)

  /** The value audec_read returns for an outcome. */
  function Returned(o: ReadOutcome): int
  {
    match o
    case ReadFailed => -1
    case Unconverted(f) => f
    case Resampled(f, _) => f
  }

  /** The outcome of audec_read for a stream declaring `frames` frames of
      `channels` channels at `srcRate`, after the backend reported `got`
      items for the frames×channels it was asked for. */
  function ReadSpec(frames: nat, channels: nat, srcRate: nat, got: int, target: int, lib: SrcLib): ReadOutcome
  {
    if got > frames * channels then ReadFailed
    else if !(target > 0 && target != srcRate) then Unconverted(frames)
    else
      var size := GetBufSize(frames, channels, srcRate, target, lib.validRatio);
      if size < 0 || !ConverterCreated(lib, channels) then ReadFailed
      else match Drive(lib.replies, channels, size / channels, 0)
        case Failed => ReadFailed
        case Converted(f, s) => Resampled(f, s)
  }

  /** The conversion loop, run from no frames towards `numOut`, meets an
      error or the -1 answer before a reply of 0 frames. */
  predicate ConverterBreaks(replies: seq<Step>, channels: nat, numOut: nat)
  {
    channels >= 1 &&
    var a := Advance(replies, channels, numOut, 0);
    a.0 < |replies| && Breaks(replies[a.0])
  }

  /** How audec_read's result depends on the bulk read and the target:
      an over-read fails, a target of 0 or below or equal to the source
      rate returns the declared frame count whatever was read, and a
      resampled result never exceeds the expected frame count and fills
      exactly that many frames of the output. */
  lemma {:induction false} ReadResult(frames: nat, channels: nat, srcRate: nat, got: int, target: int, lib: SrcLib)
    requires srcRate <= UINT_MAX
    ensures got > frames * channels ==> ReadSpec(frames, channels, srcRate, got, target, lib) == ReadFailed
    ensures got <= frames * channels && 0 < target && target != srcRate ==>
      (ReadSpec(frames, channels, srcRate, got, target, lib) == ReadFailed <==>
         || srcRate == 0
         || !lib.validRatio(target as real / srcRate as real)
         || !ConverterCreated(lib, channels)
         || ConverterBreaks(lib.replies, channels,
                            GetBufSize(frames, channels, srcRate, target, lib.validRatio) / channels))
    ensures got <= frames * channels && (target <= 0 || target == srcRate) ==>
      ReadSpec(frames, channels, srcRate, got, target, lib) == Unconverted(frames)
    ensures ReadSpec(frames, channels, srcRate, got, target, lib).Resampled? ==>
      && 0 < target && 0 < srcRate && target != srcRate
      && ReadSpec(frames, channels, srcRate, got, target, lib).frames <= ExpectedFrames(frames, target, srcRate)
      && |ReadSpec(frames, channels, srcRate, got, target, lib).samples|
         == ReadSpec(frames, channels, srcRate, got, target, lib).frames * channels
  {
    var o := ReadSpec(frames, channels, srcRate, got, target, lib);
    if got <= frames * channels && 0 < target && target != srcRate && srcRate > 0 {
      EpsilonBranchUnreachable(srcRate, target);
      var size := GetBufSize(frames, channels, srcRate, target, lib.validRatio);
      if size >= 0 && channels >= 1 {
        DriveFailsIff(lib.replies, channels, size / channels, 0);
      }
    }
    if o.Resampled? {
      assert srcRate > 0;
      EpsilonBranchUnreachable(srcRate, target);
      assert lib.validRatio(target as real / srcRate as real);
      BufSizePerChannel(frames, channels, srcRate, target, lib.validRatio);
    }
  }

  /** A converter that answers every request in full delivers exactly the
      frame count the test program expects. */
  lemma {:induction false} FullConverterMeetsExpectation(frames: nat, channels: nat, srcRate: nat, got: int,
                                                        target: int, lib: SrcLib)
    requires got <= frames * channels && 0 < target && target != srcRate && 0 < srcRate <= UINT_MAX
    requires lib.validRatio(target as real / srcRate as real) && ConverterCreated(lib, channels)
    requires forall i :: 0 <= i < |lib.replies| ==>
      lib.replies[i].Deliver? && |lib.replies[i].data| >= MaxChunk * channels
    requires ExpectedFrames(frames, target, srcRate) <= MaxChunk * |lib.replies|
    ensures ReadSpec(frames, channels, srcRate, got, target, lib).Resampled?
    ensures ReadSpec(frames, channels, srcRate, got, target, lib).frames == ExpectedFrames(frames, target, srcRate)
  {
    BufSizePerChannel(frames, channels, srcRate, target, lib.validRatio);
    var size := GetBufSize(frames, channels, srcRate, target, lib.validRatio);
    DriveFillsOutput(lib.replies, channels, size / channels, 0);
  }

  /** The test program's stereo 48 kHz file of 164571 frames, read at
      44.1 kHz: 302399 samples are allocated and 151199 frames expected. */
  lemma TestWavAt44100(validRatio: real -> bool)
    requires validRatio(44100.0 / 48000.0)
    ensures GetBufSize(164571, 2, 48000, 44100, validRatio) == 302399
    ensures ExpectedFrames(164571, 44100, 48000) == 151199
  {
    EpsilonBranchUnreachable(48000, 44100);
  }

  /** One request of the conversion loop: asks the converter for
      MIN(6000, numOut - total) frames, written after the `total` frames
      already in `out`. */
  method Pull(state: Converter, ratio: real, out: array<Sample>, numOut: nat, total: nat)
    returns (framesRead: int)
    requires state.channels >= 1 && state.error == 0
    requires total <= numOut && numOut * state.channels <= out.Length
    modifies state, out
    ensures framesRead >= -1
    ensures state.error != 0 || framesRead == -1 ==>
      Drive(old(state.replies), state.channels, numOut, total) == Failed
    ensures state.error == 0 && framesRead == 0 ==>
      && Drive(old(state.replies), state.channels, numOut, total) == Converted(total, [])
      && out[..total * state.channels] == old(out[..total * state.channels])
    ensures state.error == 0 && framesRead > 0 ==>
      && total + framesRead <= numOut
      && (total + framesRead) * state.channels <= out.Length
      && Prefixed(old(out[..total * state.channels]), Drive(old(state.replies), state.channels, numOut, total))
         == Prefixed(out[..(total + framesRead) * state.channels],
                     Drive(state.replies, state.channels, numOut, total + framesRead))
  {
    var channels := state.channels;
    var framesToRead := Min(MaxChunk, numOut - total);
    var offset := total * channels;
    MulLeq(total + framesToRead, numOut, channels);
    Distributes(total, framesToRead, channels);
    ghost var before := out[..offset];
    ghost var replies := state.replies;
    framesRead := state.CallbackRead(ratio, framesToRead, out, offset);
    if state.error != 0 || framesRead == -1 {
      DriveFails(replies, channels, numOut, total);
    } else if framesRead == 0 {
      DriveStops(replies, channels, numOut, total);
    } else {
      DriveContinues(replies, channels, numOut, total, framesRead);
      Distributes(total, framesRead, channels);
      ghost var rest := Drive(state.replies, channels, numOut, total + framesRead);
      ExtendPrefix(before, out[..], offset, framesRead * channels,
                   replies[0].data[..framesRead * channels], rest,
                   Prefixed(before, Drive(replies, channels, numOut, total)));
    }
  }

  /** The conversion loop of audec_read: requests chunks into `out`,
      stopping at the first error, at a reply of -1 (both fail the read)
      or at a reply of 0 frames. */
  method RunConverter(state: Converter, ratio: real, out: array<Sample>, numOut: nat)
    returns (failed: bool, total: nat)
    requires state.channels >= 1 && state.error == 0 && numOut * state.channels <= out.Length
    modifies state, out
    ensures failed <==> Drive(old(state.replies), state.channels, numOut, 0).Failed?
    ensures !failed ==> total * state.channels <= out.Length
    ensures !failed ==> Drive(old(state.replies), state.channels, numOut, 0) == Converted(total, out[..total * state.channels])
  {
    var channels := state.channels;
    var totalRead := 0;
    ghost var whole := Drive(state.replies, channels, numOut, 0);
    while true
      invariant 0 <= totalRead <= numOut && totalRead * channels <= out.Length
      invariant state.error == 0
      invariant Prefixed(out[..totalRead * channels], Drive(state.replies, channels, numOut, totalRead)) == whole
      decreases numOut - totalRead
    {
      var framesRead := Pull(state, ratio, out, numOut, totalRead);
      var errRet := state.error;
      if errRet != 0 || framesRead == -1 {
        return true, 0;
      }
      if framesRead == 0 {
        assert out[..totalRead * channels] + [] == out[..totalRead * channels];
        break;
      }
      totalRead := totalRead + framesRead;
    }
    failed, total := false, totalRead;
  }

  /** audec_read from the over-read check on: `input` holds the bulk read of
      frames×channels items, of which the backend reported `got`. */
  method ConvertRead(input: array<Sample>, frames: nat, channels: nat, srcRate: nat, got: int,
                     target: int, lib: SrcLib)
    returns (ret: int, out: array?<Sample>)
    requires input.Length == frames * channels
    ensures ret == Returned(ReadSpec(frames, channels, srcRate, got, target, lib))
    ensures ReadSpec(frames, channels, srcRate, got, target, lib).ReadFailed? ==> out == null
    ensures ReadSpec(frames, channels, srcRate, got, target, lib).Unconverted? ==> out == input
    ensures ReadSpec(frames, channels, srcRate, got, target, lib).Resampled? ==>
      && out != null
      && out.Length == GetBufSize(frames, channels, srcRate, target as nat, lib.validRatio)
      && ret * channels <= out.Length
      && out[..ret * channels] == ReadSpec(frames, channels, srcRate, got, target, lib).samples
  {
    if got > input.Length {
      return -1, null;
    }
    if target > 0 && target != srcRate {
      var outBufSize := GetBufSize(frames, channels, srcRate, target, lib.validRatio);
      if outBufSize < 0 {
        return -1, null;
      }
      if !ConverterCreated(lib, channels) {
        return -1, null;
      }
      var state := new Converter(channels, lib.replies);
      var ratio := target as real / srcRate as real;
      var buf := new Sample[outBufSize];
      var numOutFrames := outBufSize / channels;
      DivMulLeq(outBufSize, channels);
      var failed, totalRead := RunConverter(state, ratio, buf, numOutFrames);
      if failed {
        return -1, null;
      }
      ret, out := totalRead, buf;
    } else {
      out := input;
      ret := frames;
    }
  }
}
