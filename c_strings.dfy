/** The C library string functions the backends' scorers use (strstr, strrchr,
    strcasecmp), on names modelled as `seq<char>` without a terminating NUL. */
module CStrings {

  import opened AudecApi

  /** `t` occurs in `s` starting at index `i`. */
  predicate OccursAt(s: string, t: string, i: int)
  {
    0 <= i && i + |t| <= |s| && s[i..i + |t|] == t
  }

  /** strstr(s, t) != NULL: scans `s` from the left for `t`. */
  function Contains(s: string, t: string): bool
    decreases |s|
  {
    if |t| > |s| then false
    else if s[..|t|] == t then true
    else Contains(s[1..], t)
  }

  lemma {:induction false} ContainsIff(s: string, t: string)
    ensures Contains(s, t) <==> exists i :: OccursAt(s, t, i)
    decreases |s|
  {
    if |t| > |s| {
    } else if s[..|t|] == t {
      assert OccursAt(s, t, 0);
    } else {
      ContainsIff(s[1..], t);
      if Contains(s[1..], t) {
        var i :| OccursAt(s[1..], t, i);
        assert s[1..][i..i + |t|] == s[i + 1..i + 1 + |t|];
        assert OccursAt(s, t, i + 1);
      } else {
        forall i | OccursAt(s, t, i)
          ensures false
        {
          if i > 0 {
            assert s[1..][i - 1..i - 1 + |t|] == s[i..i + |t|];
            assert OccursAt(s[1..], t, i - 1);
          }
        }
      }
    }
  }

  /** strrchr(s, c): the index of the last occurrence of `c`, if any. */
  function LastIndexOf(s: string, c: char): (r: Option<nat>)
    ensures r.Some? ==> r.value < |s| && s[r.value] == c
    ensures r.Some? ==> forall j :: r.value < j < |s| ==> s[j] != c
    ensures r.None? ==> forall j :: 0 <= j < |s| ==> s[j] != c
    decreases |s|
  {
    if s == [] then None
    else if s[|s| - 1] == c then Some(|s| - 1)
    else LastIndexOf(s[..|s| - 1], c)
  }

  /** The extension as the scorers take it: everything from the last '.' on,
      or nothing when the name has no '.'. */
  function Extension(s: string): (ext: Option<string>)
    ensures ext.None? <==> '.' !in s
    ensures ext.Some? ==> |ext.value| >= 1 && ext.value[0] == '.' && '.' !in ext.value[1..]
    ensures ext.Some? ==> |ext.value| <= |s| && s[|s| - |ext.value|..] == ext.value
  {
    match LastIndexOf(s, '.')
    case None => None
    case Some(i) => Some(s[i..])
  }

  /** tolower in the C locale: only ASCII upper-case letters change. */
  function ToLower(c: char): char
  {
    if 'A' <= c <= 'Z' then (c as int + 32) as char else c
  }

  /** A name with every ASCII upper-case letter folded to lower case. */
  function Lower(s: string): (r: string)
    ensures |r| == |s|
  {
    if s == [] then [] else [ToLower(s[0])] + Lower(s[1..])
  }

  /** strcasecmp(a, b) == 0: equal after ASCII case folding. */
  predicate EqualsIgnoreCase(a: string, b: string)
  {
    Lower(a) == Lower(b)
  }

  /** Folding the whole name is folding it character by character. */
  lemma {:induction false} LowerAt(s: string, i: nat)
    requires i < |s|
    ensures Lower(s)[i] == ToLower(s[i])
  {
    if i > 0 {
      LowerAt(s[1..], i - 1);
    }
  }

  /** strcasecmp compares position by position: the names have the same
      length and agree at every index up to case. */
  lemma EqualsIgnoreCaseIff(a: string, b: string)
    ensures EqualsIgnoreCase(a, b) <==>
      |a| == |b| && forall i :: 0 <= i < |a| ==> ToLower(a[i]) == ToLower(b[i])
  {
    if |a| == |b| {
      forall i | 0 <= i < |a|
        ensures Lower(a)[i] == ToLower(a[i]) && Lower(b)[i] == ToLower(b[i])
      {
        LowerAt(a, i);
        LowerAt(b, i);
      }
    }
  }

  /** A name without upper-case letters is its own folding, so comparing a
      name case-insensitively with it is comparing the folded name. */
  lemma {:induction false} LowerOfLowerCase(s: string)
    requires forall i :: 0 <= i < |s| ==> !('A' <= s[i] <= 'Z')
    ensures Lower(s) == s
    ensures forall t :: EqualsIgnoreCase(t, s) <==> Lower(t) == s
  {
    if s != [] {
      LowerOfLowerCase(s[1..]);
    }
  }

  /** A name equal, ignoring case, to a lower-case literal folds to it. */
  lemma FoldsToLowerCase(t: string, s: string)
    requires forall i :: 0 <= i < |s| ==> !('A' <= s[i] <= 'Z')
    requires EqualsIgnoreCase(t, s)
    ensures Lower(t) == s
  {
    LowerOfLowerCase(s);
  }

  /** ".mp3" is its own folding, so any name equal to it ignoring case folds
      to it. */
  lemma FoldsToMp3(t: string)
    requires EqualsIgnoreCase(t, ".mp3")
    ensures Lower(t) == ".mp3"
  {
    var s := ".mp3";
    assert s[0] == '.' && s[1] == 'm' && s[2] == 'p' && s[3] == '3';
    FoldsToLowerCase(t, s);
  }
}
