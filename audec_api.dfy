/** The public types of libaudec (inc/audec/audec.h): the stream description
    that open and info fill in, and the log levels. */
module AudecApi {

  datatype Option<+T> = None | Some(value: T)

  /** One interleaved float sample. Sample values are opaque to the model:
      only counts, offsets and which buffer holds what matter. */
  type Sample = real

  /** Log levels as the code numbers them (AudecLogLevel; the shipped header
      still calls the same enumeration AudecDebugLevel). */
  const LOG_LEVEL_SILENT: int := -1
  const LOG_LEVEL_ERROR: int := 0
  const LOG_LEVEL_INFO: int := 1
  const LOG_LEVEL_DEBUG: int := 2
  const LOG_LEVEL_TRACE: int := 3

  /** The caller-owned AudecInfo record that the backends write field by
      field. `bpm` is written by the code although the header does not declare
      it; its value is opaque. */
  class AudecInfo {
    var sampleRate: nat
    var channels: nat
    /** Duration in milliseconds. */
    var length: int
    /** Number of frames (one sample per channel). */
    var frames: int
    var bitRate: int
    var bitDepth: int
    var metaData: Option<string>
    var bpm: real
    /** Whether the text `metaData` refers to has been released. */
    ghost var metaReleased: bool

    ghost predicate Cleared()
      reads this
    {
      && sampleRate == 0 && channels == 0 && length == 0 && frames == 0
      && bitRate == 0 && bitDepth == 0 && metaData == None && bpm == 0.0
    }

    constructor ()
      ensures Cleared() && !metaReleased
    {
      sampleRate, channels, length, frames := 0, 0, 0, 0;
      bitRate, bitDepth, metaData, bpm := 0, 0, None, 0.0;
      metaReleased := false;
    }

    /** audec_clear_nfo: every field becomes zero; a meta-data text the record
        referred to is dropped, not released. */
    method Clear()
      modifies this
      ensures Cleared() && metaReleased == old(metaReleased)
    {
      sampleRate, channels, length, frames := 0, 0, 0, 0;
      bitRate, bitDepth, metaData, bpm := 0, 0, None, 0.0;
    }

    /** audec_free_nfo: releases the meta-data text when there is one; the
        field itself keeps referring to it. */
    method FreeMeta()
      modifies this
      ensures metaReleased == (old(metaReleased) || metaData.Some?)
      ensures metaData == old(metaData) && sampleRate == old(sampleRate)
      ensures channels == old(channels) && length == old(length) && frames == old(frames)
      ensures bitRate == old(bitRate) && bitDepth == old(bitDepth) && bpm == old(bpm)
    {
      if metaData.Some? {
        metaReleased := true;
      }
    }
  }
}
