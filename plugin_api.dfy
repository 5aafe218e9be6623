/** The backend capability record of inc/ad_plugin.h and its helper macros. */
module PluginApi {

  /** MIN(A,B): A when A < B, else B. */
  function Min(a: int, b: int): (m: int)
    ensures m <= a && m <= b
    ensures m == a || m == b
  {
    if a < b then a else b
  }

  /** MAX(A,B): A when A > B, else B. */
  function Max(a: int, b: int): (m: int)
    ensures m >= a && m >= b
    ensures m == a || m == b
  {
    if a > b then a else b
  }

  /** The backends an `ad_plugin` record can stand for. Each offers the same
      six operations (eval, open, close, info, seek, read); AdPlugin dispatches
      on this tag. The ffmpeg backend is compiled out of the registry and the
      null stubs are never registered. */
  datatype Plugin = Sndfile | Minimp3 | NullBackend
}
