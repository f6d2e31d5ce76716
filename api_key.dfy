/**
 * The API key carried in the `Authorization` header, as every API route reads it:
 * the first occurrence of the literal "Bearer " is removed (wherever it stands),
 * the rest is trimmed of JavaScript white space, and an empty result counts as
 * no key at all. This follows the Bearer scheme of section 2.1 of RFC 6750 only
 * loosely: the scheme name is neither required nor matched case-insensitively.
 */
module ApiKey {
  import opened Wrappers

  const BearerPrefix: string := "Bearer "

  /** White space and line terminators as `String.prototype.trim` removes them. */
  predicate IsJsWhitespace(c: char)
  {
    c == '\t' || c == '\n' || c == '\U{B}' || c == '\U{C}' || c == '\r' || c == ' '
    || c == '\U{A0}' || c == '\U{1680}' || ('\U{2000}' <= c <= '\U{200A}')
    || c == '\U{2028}' || c == '\U{2029}' || c == '\U{202F}' || c == '\U{205F}'
    || c == '\U{3000}' || c == '\U{FEFF}'
  }

  /** Neither end of `s` is white space (vacuously true of the empty string). */
  predicate Trimmed(s: string)
  {
    |s| > 0 ==> !IsJsWhitespace(s[0]) && !IsJsWhitespace(s[|s| - 1])
  }

  predicate OccursAt(s: string, pat: string, i: nat)
  {
    i + |pat| <= |s| && s[i..i + |pat|] == pat
  }

  /** The first position at or after `from` where `pat` occurs, if any. */
  function IndexFrom(s: string, pat: string, from: nat): (r: Option<nat>)
    ensures r.Some? ==> from <= r.value && OccursAt(s, pat, r.value)
    ensures r.Some? ==> forall j: nat :: from <= j < r.value ==> !OccursAt(s, pat, j)
    ensures r.None? ==> forall j: nat :: from <= j ==> !OccursAt(s, pat, j)
    decreases |s| - from
  {
    if from + |pat| > |s| then None
    else if OccursAt(s, pat, from) then Some(from)
    else IndexFrom(s, pat, from + 1)
  }

  /** `s.indexOf(pat)`: the first position where `pat` occurs, if any. */
  function IndexOf(s: string, pat: string): (r: Option<nat>)
    ensures r.Some? ==> OccursAt(s, pat, r.value)
    ensures r.Some? ==> forall j: nat :: j < r.value ==> !OccursAt(s, pat, j)
    ensures r.None? ==> forall j: nat :: !OccursAt(s, pat, j)
  {
    IndexFrom(s, pat, 0)
  }

  /** `s.replace(pat, rep)` with a string pattern: only the first occurrence is replaced. */
  function ReplaceFirst(s: string, pat: string, rep: string): (r: string)
    ensures IndexOf(s, pat).None? ==> r == s
    ensures IndexOf(s, pat).Some? ==>
      var i := IndexOf(s, pat).value;
      && |r| == |s| - |pat| + |rep|
      && r[..i] == s[..i]
      && r[i..i + |rep|] == rep
      && r[i + |rep|..] == s[i + |pat|..]
  {
    match IndexOf(s, pat)
    case None => s
    case Some(i) => s[..i] + rep + s[i + |pat|..]
  }

  /** The first position at or after `i` that is not white space, or `|s|`. */
  function SkipSpace(s: string, i: nat): (k: nat)
    requires i <= |s|
    ensures i <= k <= |s|
    ensures forall j :: i <= j < k ==> IsJsWhitespace(s[j])
    ensures k < |s| ==> !IsJsWhitespace(s[k])
    decreases |s| - i
  {
    if i < |s| && IsJsWhitespace(s[i]) then SkipSpace(s, i + 1) else i
  }

  /** The end of `s[..j]` once its trailing white space is dropped. */
  function SkipSpaceBack(s: string, j: nat): (k: nat)
    requires j <= |s|
    ensures k <= j
    ensures forall i :: k <= i < j ==> IsJsWhitespace(s[i])
    ensures k > 0 ==> !IsJsWhitespace(s[k - 1])
    decreases j
  {
    if j > 0 && IsJsWhitespace(s[j - 1]) then SkipSpaceBack(s, j - 1) else j
  }

  /** `s.trim()`: white space removed from both ends. */
  function Trim(s: string): (r: string)
    ensures |r| <= |s| && Trimmed(r)
  {
    var a, b := SkipSpace(s, 0), SkipSpaceBack(s, |s|);
    if b <= a then [] else s[a..b]
  }

  /** Trimming drops only white space, and only at the ends: the result is the
      slice `s[a..b]` and everything outside it is white space. */
  lemma TrimIsSlice(s: string) returns (a: nat, b: nat)
    ensures a <= b <= |s| && Trim(s) == s[a..b]
    ensures forall i :: 0 <= i < a ==> IsJsWhitespace(s[i])
    ensures forall i :: b <= i < |s| ==> IsJsWhitespace(s[i])
  {
    a, b := SkipSpace(s, 0), SkipSpaceBack(s, |s|);
    if b <= a {
      a, b := |s|, |s|;
    }
  }

  lemma TrimKeepsTrimmed(s: string)
    requires Trimmed(s)
    ensures Trim(s) == s
  {
  }

  /** The key the routes extract from the `Authorization` header; `None` when the
      header is absent or leaves nothing after stripping and trimming. */
  function ParseApiKey(authorization: Option<string>): (key: Option<string>)
    ensures authorization.None? ==> key.None?
    ensures key.Some? ==> key.value != [] && Trimmed(key.value)
  {
    match authorization
    case None => None
    case Some(header) =>
      var k := Trim(ReplaceFirst(header, BearerPrefix, ""));
      if k == [] then None else Some(k)
  }

  /** What the upload component sends ("Bearer " + key) is read back as the same key,
      for every key that is non-empty and has no white space at its ends. */
  lemma BearerRoundTrip(key: string)
    requires key != [] && Trimmed(key)
    ensures ParseApiKey(Some(BearerPrefix + key)) == Some(key)
  {
    var header := BearerPrefix + key;
    assert OccursAt(header, BearerPrefix, 0) by {
      assert header[0..|BearerPrefix|] == BearerPrefix;
    }
    assert IndexOf(header, BearerPrefix) == Some(0);
    assert ReplaceFirst(header, BearerPrefix, "") == key by {
      assert header[|BearerPrefix|..] == key;
    }
    TrimKeepsTrimmed(key);
  }

  /** A header that never mentions "Bearer " is taken as the key itself, trimmed:
      the scheme name is not required. */
  lemma SchemeNotRequired(header: string)
    requires IndexOf(header, BearerPrefix).None?
    requires header != [] && Trimmed(header)
    ensures ParseApiKey(Some(header)) == Some(header)
  {
    TrimKeepsTrimmed(header);
  }
}
