/** The string helper of the test programs (tests/helper.h). */
module TestHelper {

  /** str_endswith: 1 when the last |t| characters of `s` are `t`, 0
      otherwise, including whenever `t` is longer than `s`. */
  function StrEndsWith(s: string, t: string): (r: int)
    ensures r == 0 || r == 1
    ensures |t| > |s| ==> r == 0
  {
    if |s| >= |t| then
      if s[|s| - |t|..] == t then 1 else 0
    else 0
  }

  /** str_endswith answers 1 exactly when `t` is a suffix of `s`. */
  lemma EndsWithIffSuffix(s: string, t: string)
    ensures StrEndsWith(s, t) == 1 <==> exists u :: s == u + t
  {
    if StrEndsWith(s, t) == 1 {
      var u := s[..|s| - |t|];
      assert s == u + t;
    }
    if u :| s == u + t {
      assert s[|s| - |t|..] == t;
    }
  }

  /** The empty string ends every string: zero bytes are compared. */
  lemma EmptyIsSuffix(s: string)
    ensures StrEndsWith(s, "") == 1
  {
    assert s[|s|..] == "";
  }

  /** Every string ends with itself. */
  lemma EndsWithItself(s: string)
    ensures StrEndsWith(s, s) == 1
  {
    assert s[0..] == s;
  }

  /** Appending `t` to anything gives a string that ends with `t`. */
  lemma EndsWithAppended(u: string, t: string)
    ensures StrEndsWith(u + t, t) == 1
  {
    EndsWithIffSuffix(u + t, t);
  }
}
