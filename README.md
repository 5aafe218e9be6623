# libaudec in Dafny

A model of the core of libaudec, a small C library that opens an audio file, picks a decoding backend for it and returns the whole file as interleaved float samples, resampled to a requested rate when asked.

What the model covers:

- **Backend selection.** Each backend (libsndfile, minimp3) scores a file name from its extension. `choose_backend` keeps a strict running maximum that starts at 0, so the first backend with the largest positive score wins.
- **The decoder session.** A handle binds the chosen backend to its private state. `audec_open`, `audec_info`, `audec_seek`, `audec_close` and `audec_finfo` forward to that backend. A NULL handle gives -1.
- **The read pipeline of `audec_read`:**
  - the checks done on entry;
  - a bulk read of frames × channels items;
  - the over-read check;
  - the passthrough path;
  - the sizing of the output buffer;
  - the loop that drives libsamplerate in chunks of at most 6000 frames.
- **The backends' own code:**
  - the scorers;
  - `parse_bit_depth`;
  - the info-filling arithmetic;
  - `err_to_string`;
  - the NULL and failure handling of open, close, seek and read.
- **Smaller pieces:**
  - the `MIN`/`MAX` macros;
  - `audec_clear_nfo` and `audec_free_nfo`;
  - the log filter and its two setters;
  - the test programs' `str_endswith`.

Modules, one per source file:

| module | file | source |
|---|---|---|
| `AudecApi` | audec_api.dfy | `AudecInfo` and the log levels (inc/audec/audec.h) |
| `PluginApi` | plugin_api.dfy | `MIN`, `MAX` and the backend record (inc/ad_plugin.h) |
| `CStrings` | c_strings.dfy | `strstr`, `strrchr` and `strcasecmp`, on strings without NUL |
| `Libraries` | libraries.dfy | what the core relies on from libsndfile, minimp3 and libsamplerate, as small concrete models |
| `Soundfile` | ad_soundfile.dfy | src/ad_soundfile.c |
| `Minimp3` | ad_minimp3.dfy | src/ad_minimp3.c |
| `Resample` | resample.dfy | `audec_read` after the bulk read, and `get_buf_size_for_sample_rate` (src/ad_plugin.c) |
| `AdPlugin` | ad_plugin.dfy | the rest of src/ad_plugin.c |
| `TestHelper` | helper_h.dfy | tests/helper.h |

How things are represented:

- The backend record becomes `datatype Plugin = Sndfile | Minimp3 | NullBackend`, with dispatch by `match`. The ffmpeg slot is compiled out in the source, so it has no variant.
- `AudecInfo`, the decoders' private structs, the decoder handle and the log configuration are classes whose fields the methods update in place. On the classes the library frees (`AudecInfo`'s meta-data, the decoders' private structs, the handle), a ghost flag records that `free` has happened. The log configuration is never freed and has no such flag.
- What the foreign libraries find or answer is passed in as data:
  - `Media` holds what `sf_open` and `mp3dec_ex_open` find at the path.
  - `SrcLib` holds the ratio check of `src_is_valid_ratio`, the error of `src_callback_new`, and the replies `src_callback_read` gives, one per request.
- The read/resample loop is proved against the specification functions `Resample.Drive` and `Resample.ReadSpec`. The properties promised by the code and by the test program are proved about those functions.

## Model

| member | source | states |
|---|---|---|
| AudecApi.AudecInfo.Clear | src/ad_plugin.c:452-457 | every field becomes zero/empty, and meta-data is not freed |
| AudecApi.AudecInfo.FreeMeta | src/ad_plugin.c:459-465 | meta-data counts as freed exactly when it was present; no field changes |
| PluginApi.Min | inc/ad_plugin.h:47 | the result is at most both arguments and equals one of them |
| PluginApi.Max | inc/ad_plugin.h:48 | the result is at least both arguments and equals one of them |
| CStrings.ContainsIff | src/ad_soundfile.c:140 | the recursive `strstr` test holds iff the needle occurs at some index |
| CStrings.LastIndexOf | src/ad_soundfile.c:139 | `strrchr`: None iff the character is absent, otherwise its last index |
| CStrings.Extension | src/ad_soundfile.c:139 | None iff there is no '.'; otherwise a suffix starting with '.' with no other '.' in it |
| CStrings.Lower | src/ad_soundfile.c:143 | case folding keeps the length |
| CStrings.LowerAt | src/ad_soundfile.c:143 | each character is folded on its own |
| CStrings.EqualsIgnoreCaseIff | src/ad_minimp3.c:180 | `strcasecmp` equality is equal length plus equality after folding at every position |
| CStrings.LowerOfLowerCase | src/ad_soundfile.c:143-166 | comparing with a lower-case literal is equality of the folded name with that literal |
| Libraries.LibStream.Read | src/ad_soundfile.c:135 | a library read delivers min(len, remaining) samples from the cursor, advances the cursor by that much, and leaves the rest of the buffer alone |
| Libraries.LibStream.SeekSample | src/ad_soundfile.c:125 | an absolute seek succeeds iff the target lies within the stream |
| Libraries.ReplyFrames | src/ad_plugin.c:339-343 | a converter reply is -1 or at most the frames requested, and a positive count is backed by that much delivered data |
| Libraries.Converter.CallbackRead | src/ad_plugin.c:339-348 | `src_callback_read` writes exactly the frames it reports, from the write offset on, and leaves everything before the offset and after those frames untouched; it records its error and consumes one reply |
| Soundfile.LowNibble | src/ad_soundfile.c:38 | `format & 0x0f` lies in 0..15 |
| Soundfile.ParseBitDepth | src/ad_soundfile.c:36-49 | depth 8/16/24/32/64 iff the low nibble is the matching SF_FORMAT subtype, 0 iff it is none of them |
| Soundfile.BitDepthIgnoresMajorFormat | src/ad_soundfile.c:38 | the major-format bits never change the depth |
| Soundfile.LengthMs | src/ad_soundfile.c:65-69 | 0 for rate 0; otherwise the largest ms with ms·rate ≤ frames·1000 |
| Soundfile.EvalSndfile | src/ad_soundfile.c:138-168 | the score is one of 0, 5, 80, 100; any URL scores 0; a name without '.' scores 5; any other name scores what its extension after the last '.' scores (100 native, 80 compressed, else 0) |
| Soundfile.DottedPathExtension | src/ad_soundfile.c:139 | the extension of "a.d/file" is ".d/file" |
| Soundfile.DotInDirectoryName | src/ad_soundfile.c:139-167 | "a.d/file" scores 0, not 5 |
| Soundfile.NativeScoresHundred | src/ad_soundfile.c:143-160 | an extension scores 100 iff it equals one of the eighteen native extensions, ignoring case |
| Soundfile.ScoresHundredIffNative | src/ad_soundfile.c:143-160 | a score of 100 is exactly a folded extension in the native list |
| Soundfile.ScoreOfMp3 | src/ad_soundfile.c:164-167 | ".mp3" scores 80 with MP3 support and 0 without |
| Soundfile.CompressedScoresEighty | src/ad_soundfile.c:162-167 | an extension scores 80 iff it is .flac, .ogg, or .mp3 in a build with MP3 support, ignoring case |
| Soundfile.ScoresEightyIffCompressed | src/ad_soundfile.c:162-167 | a score of 80 is exactly a folded extension of .flac or .ogg, or .mp3 with MP3 support |
| Soundfile.Info | src/ad_soundfile.c:51-84 | -1 without a decoder and `nfo` untouched; otherwise 0 and `nfo` filled: length, bit depth, bit rate = depth·channels·rate, meta-data NULL, bpm only when loop info exists |
| Soundfile.Open | src/ad_soundfile.c:86-109 | NULL iff `sf_open` fails, leaving `nfo` untouched; otherwise a fresh decoder and `nfo` filled as by Info |
| Soundfile.Close | src/ad_soundfile.c:111-120 | -1 without a decoder; -1 with the decoder still live when `sf_close` fails; otherwise 0 and the decoder freed |
| Soundfile.Seek | src/ad_soundfile.c:122-126 | -1 without a decoder; otherwise the frame position if it lies inside the file, else -1; the read position moves to that frame's first sample, and stays put on failure |
| Soundfile.Read | src/ad_soundfile.c:128-136 | -1 without a decoder; otherwise at most `len` items, copied from the file's read position |
| Minimp3.EvalMinimp3 | src/ad_minimp3.c:175-182 | the score is one of 0, 5, 50; any URL scores 0; a name without '.' scores 5; any other name scores 50 iff its extension is .mp3 ignoring case, and never 5 |
| Minimp3.ScoresMp3 | src/ad_minimp3.c:180 | a name that is no URL, with an .mp3 extension in any letter case, scores 50 |
| Minimp3.ErrorMessagesDistinct | src/ad_minimp3.c:64-84 | each of the five error codes has its own message, never "Unknown error" |
| Minimp3.ErrToString | src/ad_minimp3.c:59-85 | the buffer receives the code's message followed by NUL |
| Minimp3.Frames | src/ad_minimp3.c:99 | frames = samples / channels, truncated |
| Minimp3.LengthMs | src/ad_minimp3.c:101-103 | 0 when there are no frames; otherwise the largest ms with ms·hz ≤ frames·1000 |
| Minimp3.Info | src/ad_minimp3.c:87-111 | -1 without a decoder; otherwise 0 and `nfo` filled: frames from samples, depth 0, bpm 0, meta-data NULL, bit rate = kbps |
| Minimp3.Open | src/ad_minimp3.c:113-139 | NULL iff `mp3dec_ex_open` reports an error, leaving `nfo` untouched; otherwise a fresh decoder and `nfo` filled as by Info |
| Minimp3.Close | src/ad_minimp3.c:141-155 | -1 without a decoder; otherwise 0 and the decoder freed |
| Minimp3.Seek | src/ad_minimp3.c:157-164 | -1 without a decoder; otherwise the library's answer, 0 or MP3D_E_PARAM; the position is taken as a sample index, and the read position moves there only when it lies inside the stream |
| Minimp3.Read | src/ad_minimp3.c:166-173 | -1 without a decoder; otherwise at most `len` items, copied from the read position |
| Resample.GetBufSize | src/ad_plugin.c:181-215 | the buffer size is -1 or non-negative; equal rates give frames × channels; -1 only for different rates whose ratio `src_is_valid_ratio` rejects, always so for a source rate of 0, and always so for a rejected ratio between different rates that fit an unsigned int |
| Resample.ExpectedFrames | tests/test.c:49-53 | the test's expected count is the truncation of frames × (rate / source rate) |
| Resample.EpsilonBranchUnreachable | src/ad_plugin.c:192-200 | two different rates that fit an unsigned int never fall inside the 1e-20 tolerance |
| Resample.BufSizePerChannel | src/ad_plugin.c:331-332 | buffer size / channels equals the frame count the test program expects |
| Resample.Drive | src/ad_plugin.c:333-367 | a finished conversion ends between the start count and `num_out_frames` and holds exactly channels samples per new frame |
| Resample.DriveFailsIff | src/ad_plugin.c:333-367 | the loop fails iff, after the run of replies that deliver frames, the next reply is -1 (end of data) or a non-zero error; when it does not fail, the frame count is the total those replies delivered |
| Resample.DriveFillsOutput | src/ad_plugin.c:333-367 | a converter that answers every request in full fills all `num_out_frames` frames |
| Resample.ReadResult | src/ad_plugin.c:274-402 | an over-read fails; a target ≤ 0 or equal to the source rate returns the declared frames whatever was read; a resampled result never exceeds the expected count and fills channels samples per frame; a resampled read fails iff the source rate is 0, the ratio is rejected, the converter cannot be created or its replies break the loop |
| Resample.FullConverterMeetsExpectation | tests/test.c:76-77 | with a converter that keeps up, the returned count is the test's expected count |
| Resample.TestWavAt44100 | tests/test.c:35-53 | the test's 48 kHz stereo file of 164571 frames read at 44.1 kHz gets 302399 samples and 151199 expected frames |
| Resample.Pull | src/ad_plugin.c:335-365 | one chunk request of at most MIN(6000, remaining) frames stays inside the buffer and advances the loop exactly as `Drive` does |
| Resample.RunConverter | src/ad_plugin.c:327-367 | the loop fails iff `Drive` fails; otherwise the output prefix equals `Drive`'s samples and `total_read` its frame count |
| Resample.ConvertRead | src/ad_plugin.c:274-410 | the return value, and whether `*out` is NULL, the raw buffer or a resampled buffer with these samples, are those of `ReadSpec` |
| AdPlugin.ScanFromFindsFirstMaximum | src/ad_plugin.c:86-113 | the running maximum ends on the first backend with the largest score above the start, or keeps its start if none beats it |
| AdPlugin.ChooseIsFirstPositiveMaximum | src/ad_plugin.c:86-113 | nothing is chosen iff no backend scores above 0; otherwise the choice scores above 0, at least every other backend, and strictly more than every earlier one |
| AdPlugin.NonPositiveNeverChosen | src/ad_plugin.c:58-63 | a backend scoring ≤ 0, such as the null stub, is never chosen |
| AdPlugin.ChooseBackend | src/ad_plugin.c:82-114 | the result is the scan over (sndfile, minimp3); None iff both score ≤ 0; sndfile iff it scores > 0 and at least as much as minimp3 |
| AdPlugin.RegistryChoice | src/ad_plugin.c:82-114 | over (sndfile, minimp3): minimp3 only when it scores above 0 and above sndfile; otherwise sndfile when it scores above 0; otherwise nothing |
| AdPlugin.UrlChoosesNothing | src/ad_plugin.c:88-113 | a name containing "://" gets no backend |
| AdPlugin.DotlessChoosesSndfile | src/ad_plugin.c:90-111 | a dotless name ties at 5 and sndfile, asked first, wins |
| AdPlugin.Mp3Choice | src/ad_minimp3.c:180 | an .mp3 name goes to sndfile with MP3 support and to minimp3 without |
| AdPlugin.Open | src/ad_plugin.c:116-141 | `nfo` is cleared first; NULL iff no backend is chosen or the chosen one fails to open (no fallback); otherwise a fresh valid handle on the chosen backend at read position 0, over exactly the samples that backend decodes from the media, whose report is what that backend reports for the media, and `nfo` holds every field of it (frames, channels, rate, length, depth, bit rate, NULL meta-data, bpm or 0) |
| AdPlugin.Info | src/ad_plugin.c:143-152 | -1 for a NULL handle, `nfo` untouched; 0 for an open one, with every field of the backend's report in `nfo` and the bpm kept when the file has no loop information |
| AdPlugin.Seek | src/ad_plugin.c:166-174 | -1 for a NULL handle; otherwise the bound backend's seek answer, and the read position moves as that backend moves it (to the frame for sndfile, the sample for minimp3, nowhere on failure) |
| AdPlugin.Close | src/ad_plugin.c:154-164 | for a valid handle (no second close) the backend's close answer, and the handle is freed whatever it is; the backend's private state is freed exactly when that answer is 0, so a failing `sf_close` leaves it allocated; -1 for a NULL handle |
| AdPlugin.BulkReadInto | src/ad_plugin.c:256-262 | the backend is asked for frames × channels items and delivers min(that, remaining) |
| AdPlugin.ReadOpen | src/ad_plugin.c:252-410 | for an open handle, the result of `audec_read` is `ReadSpec` of the file's frames, channels and rate and of what the bulk read received |
| AdPlugin.Read | src/ad_plugin.c:233-411 | a NULL handle or a non-NULL `*out` gives -1 with nothing read or allocated; otherwise as ReadOpen |
| AdPlugin.FileInfo | src/ad_plugin.c:443-450 | 0 iff a backend is chosen, opens the file and closes it successfully; 1 otherwise, including when open failed; after an open `nfo` holds every field the backend reports, whatever the close answers, and otherwise it is cleared |
| AdPlugin.Route | src/ad_plugin.c:492-497 | a message goes to the sink iff one is installed; it is printed iff there is none and its level is at most the log level; otherwise it is dropped |
| AdPlugin.RouteMonotone | src/ad_plugin.c:492-497 | with a sink every message goes to it; without one, a printed message stays printed at a higher log level or a lower message level |
| AdPlugin.LogConfig.constructor | src/ad_plugin.c:52-55 | the log level starts at ERROR with no sink |
| AdPlugin.LogConfig.SetLogLevel | src/ad_plugin.c:512-517 | sets the level and keeps the sink |
| AdPlugin.LogConfig.SetLogFunc | src/ad_plugin.c:505-510 | sets or removes the sink and keeps the level |
| TestHelper.StrEndsWith | tests/helper.h:49-61 | the answer is 0 or 1, and 0 whenever t is longer than s |
| TestHelper.EndsWithIffSuffix | tests/helper.h:53-58 | 1 exactly when s is some string followed by t |
| TestHelper.EmptyIsSuffix | tests/helper.h:58 | the empty string ends every string |
| TestHelper.EndsWithItself | tests/helper.h:55-58 | every string ends with itself |
| TestHelper.EndsWithAppended | tests/helper.h:55-58 | u + t ends with t |

Points where the code does less or other than it suggests, which the model follows:

- The conversion loop (src/ad_plugin.c:333-367) does not stop when the output is full. Its `do … while (frames_read > 0)` asks once more, for `MIN(6000, 0)` = 0 frames, and stops on that reply. `Resample.Drive` follows the loop.
- The branch for a ratio within 1e-20 of 1 (src/ad_plugin.c:194-200) says "no sample rate change needed", but it only sizes the buffer as frames × channels; `audec_read` still runs the converter. The model does the same. `Resample.EpsilonBranchUnreachable` shows the branch cannot be reached from `audec_read` with 32-bit rates.
- The header (inc/audec/audec.h:103) says `audec_close` releases the decoder structures. When `sf_close` fails, `ad_close_sndfile` returns -1 before its `free` (src/ad_soundfile.c:114-118), and `audec_close` still frees the handle (src/ad_plugin.c:161-163), so the backend's private state leaks. `AdPlugin.Close` states this through `AdPlugin.Live`.
- The header (inc/audec/audec.h:112-121) promises that `audec_seek` returns the new frame position. The minimp3 backend (src/ad_minimp3.c:157-164) returns whatever `mp3dec_ex_seek` answers (0 or an error code) and passes the position on as a sample index.

## Left out

- The foreign libraries (libsndfile, minimp3, libsamplerate) are not part of this model. The core relies on these assumptions about them:
  - a library read delivers min(requested, remaining) samples;
  - `sf_seek` succeeds iff the target sample lies inside the file and answers the frame position;
  - `mp3dec_ex_seek` answers 0 or MP3D_E_PARAM;
  - `src_callback_new` fails iff channels < 1 or the library reports an error;
  - `src_callback_read` never delivers more than requested.
- `src_cb` (src/ad_plugin.c:217-231), the callback that hands the converter its input: the converter's replies are given as data, so its input is not modelled. The callback always offers the declared `nfo.frames` frames rather than the count the bulk read returned, and the model does not capture that.
- Sample values and the conversion itself: samples are opaque `real`s, and only lengths, positions and copies are modelled.
- IEEE double rounding: the ratio and the buffer size are exact reals truncated with `Floor`.
- Integer widths: all integers are unbounded. The `(int)` cast of the source rate in `audec_read` and the `size_t`/`ssize_t` conversions are not modelled. The lemmas that need it assume rates fit an unsigned int.
- Resample.GetBufSize: a source rate of 0 makes the C ratio infinite. The model assumes `src_is_valid_ratio` rejects it and returns -1.
- Allocation failure: `calloc`/`malloc` are assumed to succeed. The handle is created only once a backend has opened the file. Freeing is recorded only by ghost flags. Freeing the raw and output buffers on error paths, and `src_delete`, are not tracked.
- AdPlugin.Read: in the resampled case the output buffer is not stated to be fresh.
- `audec_read_mono_dbl`: it averages doubles through a function-static buffer.
- `audec_dump_info`, the formatting and printing done by `audec_log`, the `va_list` passed to a sink, and `audec_init`, which does nothing. The log sink is modelled only as present or absent, and the globals as fields of `AdPlugin.LogConfig`.
- `ad_open_null`, `ad_close_null`, `ad_info_null`, `ad_seek_null`, `ad_read_null`: a handle never carries the null backend, because a backend scoring -1 is never chosen (`AdPlugin.NonPositiveNeverChosen`). Only `ad_eval_null` (score -1) is modelled.
- The `handle` field of `AudecInfo`, which nothing in the core reads or writes.
- The stale header's `AudecDebugLevel` names: the model uses the `AudecLogLevel` values the code uses (SILENT -1 … TRACE 3).
- Minimp3.Info: requires channels > 0 and (frames = 0 or hz > 0), because `ad_info_minimp3` divides by both without a guard. Minimp3.Open carries the same requirement for a file that opens. AdPlugin.Open and AdPlugin.FileInfo carry it only when minimp3 is the backend chosen for the name and the file opens (`AdPlugin.Mp3Defined`).
- C strings are modelled as character sequences without NUL. `strlen` is their length.
- The ffmpeg backend, which is compiled out of `choose_backend`.
