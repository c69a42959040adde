/**
 * The C-library string primitives the server is built from, over `string`
 * (each `char` stands for one octet of a C `char` buffer).
 */
module CString {
  import opened Wrappers

  /** `isspace` in the C locale. */
  predicate IsSpace(c: char) {
    c == ' ' || c == '\t' || c == '\n' || c == '\U{B}' || c == '\U{C}' || c == '\r'
  }

  /** `tolower` in the C locale: only the ASCII capitals change. */
  function ToLower(c: char): char {
    if 'A' <= c <= 'Z' then (c as int + 32) as char else c
  }

  /** `tolower` applied to every character. */
  function Lower(s: string): (r: string)
    ensures |r| == |s|
  {
    if s == [] then [] else [ToLower(s[0])] + Lower(s[1..])
  }

  lemma {:induction false} LowerAt(s: string, i: nat)
    requires i < |s|
    ensures Lower(s)[i] == ToLower(s[i])
  {
    if i > 0 {
      LowerAt(s[1..], i - 1);
    }
  }

  /** A string that agrees with `tolower` of `s` at every position is `Lower(s)`. */
  lemma {:induction false} LowerPointwise(s: string, t: string)
    requires |s| == |t| && forall i :: 0 <= i < |s| ==> ToLower(s[i]) == t[i]
    ensures Lower(s) == t
  {
    if s != [] {
      LowerPointwise(s[1..], t[1..]);
      assert t == [t[0]] + t[1..];
    }
  }

  /** `strncasecmp(s, prefix, |prefix|) == 0`. */
  predicate HasPrefixIgnoreCase(s: string, prefix: string) {
    |prefix| <= |s| && Lower(s[..|prefix|]) == Lower(prefix)
  }

  /** `strcasecmp(a, b) == 0`. */
  predicate EqualsIgnoreCase(a: string, b: string) {
    |a| == |b| && HasPrefixIgnoreCase(a, b)
  }

  /** `strncmp(s, prefix, |prefix|) == 0` for a NUL-free `s`. */
  predicate HasPrefix(s: string, prefix: string) {
    |prefix| <= |s| && s[..|prefix|] == prefix
  }

  /** Everything before the first `c`, the whole string when there is none (`strchr`). */
  function UpTo(s: string, c: char): string {
    if s == [] || s[0] == c then [] else [s[0]] + UpTo(s[1..], c)
  }

  /** `UpTo` gives a prefix free of `c` that stops exactly at the first `c`, if any. */
  lemma {:induction false} UpToSpec(s: string, c: char)
    ensures var r := UpTo(s, c);
      |r| <= |s| && r == s[..|r|] && c !in r && (|r| < |s| ==> s[|r|] == c)
  {
    if s != [] && s[0] != c {
      UpToSpec(s[1..], c);
    }
  }

  /** A string free of `c` followed by a `c` (or by nothing) is cut exactly at its end. */
  lemma {:induction false} UpToConcat(a: string, b: string, c: char)
    requires c !in a && (b == [] || b[0] == c)
    ensures UpTo(a + b, c) == a
  {
    if a == [] {
      assert a + b == b;
    } else {
      assert (a + b)[1..] == a[1..] + b;
      UpToConcat(a[1..], b, c);
    }
  }

  /** The C string a buffer holds: everything before its first NUL. */
  function CStr(s: string): string {
    UpTo(s, '\0')
  }

  /** `%.*s` with precision `n` stops at a NUL or after `n` characters, whichever comes first. */
  lemma {:induction false} CStrOfPrefix(s: string, n: nat)
    requires n <= |s|
    ensures CStr(s[..n]) == Truncate(CStr(s), n)
  {
    UpToSpec(s, '\0');
    if n > 0 && s[0] != '\0' {
      CStrOfPrefix(s[1..], n - 1);
      assert s[..n][1..] == s[1..][..n - 1];
    }
  }

  /** A string without a NUL is its own C string. */
  lemma CStrNoNul(s: string)
    requires '\0' !in s
    ensures CStr(s) == s
  {
    UpToConcat(s, [], '\0');
    assert s + [] == s;
  }

  /** What survives `snprintf(dst, cap + 1, "%.*s", ...)` of a NUL-free string. */
  function Truncate(s: string, cap: nat): (r: string)
    ensures |r| == if |s| <= cap then |s| else cap
  {
    if |s| <= cap then s else s[..cap]
  }

  /** The suffix left after the leading `isspace` characters. */
  function SkipSpace(s: string): string {
    if s != [] && IsSpace(s[0]) then SkipSpace(s[1..]) else s
  }

  /** `SkipSpace` removes exactly the leading blanks: a suffix that does not start with one. */
  lemma {:induction false} SkipSpaceSpec(s: string)
    ensures var r := SkipSpace(s);
      |r| <= |s| && r == s[|s| - |r|..] && (r == [] || !IsSpace(r[0]))
      && forall i :: 0 <= i < |s| - |r| ==> IsSpace(s[i])
  {
    if s != [] && IsSpace(s[0]) {
      var t := s[1..];
      var r := SkipSpace(t);
      assert SkipSpace(s) == r;
      assert r == t[|t| - |r|..] && (r == [] || !IsSpace(r[0])) && |r| <= |t|
        && forall i :: 0 <= i < |t| - |r| ==> IsSpace(t[i]) by {
        SkipSpaceSpec(t);
      }
      assert r == s[|s| - |r|..] by {
        assert t[|t| - |r|..] == s[|s| - |r|..];
      }
      forall i | 0 <= i < |s| - |r| ensures IsSpace(s[i]) {
        if i > 0 {
          assert s[i] == t[i - 1];
        }
      }
    }
  }

  /** Blanks in front of a string that does not start with a blank are all that `SkipSpace` removes. */
  lemma {:induction false} SkipSpacePrefix(ws: string, s: string)
    requires forall i :: 0 <= i < |ws| ==> IsSpace(ws[i])
    requires s == [] || !IsSpace(s[0])
    ensures SkipSpace(ws + s) == s
  {
    if ws != [] {
      assert (ws + s)[1..] == ws[1..] + s;
      SkipSpacePrefix(ws[1..], s);
    } else {
      assert ws + s == s;
    }
  }

  /** `needle` occurs in `h` starting at offset `i`. */
  predicate OccursAt(h: string, needle: string, i: nat) {
    i + |needle| <= |h| && h[i..i + |needle|] == needle
  }

  /** The first occurrence of `needle` in `h` at an offset not below `i`. */
  function FindFrom(h: string, needle: string, i: nat): (r: Option<nat>)
    requires i <= |h|
    decreases |h| - i
    ensures r.Some? ==> i <= r.value && OccursAt(h, needle, r.value)
  {
    if i + |needle| > |h| then None
    else if h[i..i + |needle|] == needle then Some(i)
    else FindFrom(h, needle, i + 1)
  }

  /** The first occurrence of `needle` in `h`: `strstr`, and `strnstr_local` on `h[..len]`. */
  function Find(h: string, needle: string): (r: Option<nat>)
    ensures r.Some? ==> OccursAt(h, needle, r.value)
  {
    FindFrom(h, needle, 0)
  }

  /** `FindFrom` finds nothing it skips over: no occurrence lies between `i` and its result. */
  lemma {:induction false} FindFromFirst(h: string, needle: string, i: nat)
    requires i <= |h|
    ensures FindFrom(h, needle, i).Some? ==>
      forall k :: i <= k < FindFrom(h, needle, i).value ==> !OccursAt(h, needle, k)
    ensures FindFrom(h, needle, i).None? ==> forall k :: i <= k ==> !OccursAt(h, needle, k)
    decreases |h| - i
  {
    if i + |needle| <= |h| && h[i..i + |needle|] != needle {
      FindFromFirst(h, needle, i + 1);
    }
  }

  /** `Find` returns the leftmost occurrence, and `None` only when there is none at all. */
  lemma FindFirst(h: string, needle: string)
    ensures Find(h, needle).Some? ==> forall k: nat :: k < Find(h, needle).value ==> !OccursAt(h, needle, k)
    ensures Find(h, needle).None? ==> forall k: nat :: !OccursAt(h, needle, k)
  {
    FindFromFirst(h, needle, 0);
  }

  /** A needle placed after `pre` is found there when it occurs nowhere earlier. */
  lemma FindAfter(pre: string, needle: string, tail: string)
    requires forall k: nat :: k < |pre| ==> !OccursAt(pre + needle + tail, needle, k)
    ensures Find(pre + needle + tail, needle) == Some(|pre|)
  {
    var h := pre + needle + tail;
    assert h[|pre|..|pre| + |needle|] == needle;
    assert OccursAt(h, needle, |pre|);
    FindFirst(h, needle);
  }

  /** An empty needle is found at the very start, whatever the haystack. */
  lemma FindEmptyNeedle(h: string)
    ensures Find(h, "") == Some(0)
  {
  }
}
