/**
  The handful of Python `str` operations the webhook handler relies on, stated
  over `string`, a sequence of Unicode scalar values (a Python 3 `str` can
  also hold lone surrogates, which a Dafny `char` cannot):
  `startswith`, `replace`, `count`, `lower` (ASCII letters only) and `strip`.
  `Result` stands for a Python call that either returns a value or raises an
  exception, the exception being represented by its `str()` text.
 */
module PyStr {

  datatype Result<T> = Ok(value: T) | Err(message: string)

  /** `s.startswith(prefix)` */
  predicate StartsWith(s: string, prefix: string) {
    |prefix| <= |s| && s[..|prefix|] == prefix
  }

  /** `pat` occurs in `s` starting at index `i`. */
  predicate OccursAt(s: string, pat: string, i: nat) {
    i + |pat| <= |s| && s[i..i + |pat|] == pat
  }

  /** `pat in s` */
  ghost predicate Occurs(s: string, pat: string) {
    exists i: nat :: OccursAt(s, pat, i)
  }

  /** `s.replace(pat, rep)` for a non-empty `pat`: the occurrences of `pat` are
      found from left to right, without overlap, and each is replaced by `rep`. */
  function Replace(s: string, pat: string, rep: string): string
    requires pat != []
    decreases |s|
  {
    if |s| < |pat| then s
    else if s[..|pat|] == pat then rep + Replace(s[|pat|..], pat, rep)
    else [s[0]] + Replace(s[1..], pat, rep)
  }

  /** `s.count(pat)` for a non-empty `pat`: the number of occurrences `Replace`
      replaces. */
  function Count(s: string, pat: string): nat
    requires pat != []
    decreases |s|
  {
    if |s| < |pat| then 0
    else if s[..|pat|] == pat then 1 + Count(s[|pat|..], pat)
    else Count(s[1..], pat)
  }

  /** Every replaced occurrence changes the length by `|rep| - |pat|`. */
  lemma {:induction false} ReplaceLength(s: string, pat: string, rep: string)
    requires pat != []
    ensures |Replace(s, pat, rep)| == |s| + Count(s, pat) * (|rep| - |pat|)
    decreases |s|
  {
    if |s| < |pat| {
    } else if s[..|pat|] == pat {
      ReplaceLength(s[|pat|..], pat, rep);
      Distribute(Count(s[|pat|..], pat), |rep| - |pat|);
    } else {
      ReplaceLength(s[1..], pat, rep);
    }
  }

  lemma Distribute(c: int, d: int)
    ensures (1 + c) * d == d + c * d
  {
  }

  /** `s.count(pat) > 0` exactly when `pat in s`. */
  lemma {:induction false} CountPositiveIffOccurs(s: string, pat: string)
    requires pat != []
    ensures Count(s, pat) > 0 <==> Occurs(s, pat)
    decreases |s|
  {
    if |s| < |pat| {
    } else if s[..|pat|] == pat {
      assert OccursAt(s, pat, 0);
    } else {
      CountPositiveIffOccurs(s[1..], pat);
      if Occurs(s, pat) {
        var i: nat :| OccursAt(s, pat, i);
        assert i != 0;
        assert s[1..][i - 1..i - 1 + |pat|] == s[i..i + |pat|];
        assert OccursAt(s[1..], pat, i - 1);
      }
      if Occurs(s[1..], pat) {
        var i: nat :| OccursAt(s[1..], pat, i);
        assert s[1..][i..i + |pat|] == s[i + 1..i + 1 + |pat|];
        assert OccursAt(s, pat, i + 1);
      }
    }
  }

  /** Where `pat` does not occur, `replace` leaves the text as it is. */
  lemma {:induction false} ReplaceAbsent(s: string, pat: string, rep: string)
    requires pat != []
    requires !Occurs(s, pat)
    ensures Replace(s, pat, rep) == s
    decreases |s|
  {
    if |s| >= |pat| {
      assert !OccursAt(s, pat, 0);
      if Occurs(s[1..], pat) {
        var i: nat :| OccursAt(s[1..], pat, i);
        assert s[1..][i..i + |pat|] == s[i + 1..i + 1 + |pat|];
        assert OccursAt(s, pat, i + 1);
      }
      ReplaceAbsent(s[1..], pat, rep);
    }
  }

  /** A leading occurrence is replaced and the scan resumes right after it. */
  lemma ReplaceLeading(s: string, pat: string, rep: string)
    requires pat != []
    ensures Replace(pat + s, pat, rep) == rep + Replace(s, pat, rep)
  {
    assert (pat + s)[..|pat|] == pat;
    assert (pat + s)[|pat|..] == s;
  }

  /** Where no occurrence starts at the first character, it is kept and the
      scan moves on by one. */
  lemma ReplaceNoLeading(c: char, s: string, pat: string, rep: string)
    requires pat != []
    requires !StartsWith([c] + s, pat)
    ensures Replace([c] + s, pat, rep) == [c] + Replace(s, pat, rep)
  {
    assert ([c] + s)[1..] == s;
  }

  /** A front part at none of whose positions an occurrence starts is kept as
      it is. */
  lemma {:induction false} ReplaceKeepsFront(front: string, t: string, pat: string, rep: string)
    requires pat != []
    requires forall k :: 0 <= k < |front| ==> !StartsWith(front[k..] + t, pat)
    ensures Replace(front + t, pat, rep) == front + Replace(t, pat, rep)
    decreases |front|
  {
    if front != [] {
      assert front[1..] + t == (front + t)[1..];
      forall k | 0 <= k < |front[1..]|
        ensures !StartsWith(front[1..][k..] + t, pat)
      {
        assert front[1..][k..] == front[k + 1..];
      }
      ReplaceKeepsFront(front[1..], t, pat, rep);
      assert front[0..] == front;
      assert front + t == [front[0]] + (front[1..] + t);
      ReplaceNoLeading(front[0], front[1..] + t, pat, rep);
      assert [front[0]] + (front[1..] + Replace(t, pat, rep)) == front + Replace(t, pat, rep);
    } else {
      assert front + t == t;
    }
  }

  /** `replace` introduces no character that is in neither `s` nor `rep`. */
  lemma {:induction false} ReplaceChars(s: string, pat: string, rep: string)
    requires pat != []
    ensures forall c :: c in Replace(s, pat, rep) ==> c in s || c in rep
    decreases |s|
  {
    if |s| < |pat| {
    } else if s[..|pat|] == pat {
      ReplaceChars(s[|pat|..], pat, rep);
      assert forall c :: c in s[|pat|..] ==> c in s;
    } else {
      ReplaceChars(s[1..], pat, rep);
      assert forall c :: c in s[1..] ==> c in s;
    }
  }

  /** Replacing one character by another is a per-position substitution. */
  lemma {:induction false} ReplaceOneChar(s: string, a: char, b: char)
    ensures |Replace(s, [a], [b])| == |s|
    ensures forall i :: 0 <= i < |s| ==>
              Replace(s, [a], [b])[i] == if s[i] == a then b else s[i]
    decreases |s|
  {
    if s != [] {
      ReplaceOneChar(s[1..], a, b);
      var r := Replace(s, [a], [b]);
      var tail := Replace(s[1..], [a], [b]);
      assert s[..1] == [s[0]];
      assert r == [if s[0] == a then b else s[0]] + tail;
      forall i | 0 <= i < |s|
        ensures r[i] == if s[i] == a then b else s[i]
      {
        if i > 0 {
          assert r[i] == tail[i - 1];
          assert s[1..][i - 1] == s[i];
        }
      }
    }
  }

  predicate IsAsciiUpper(c: char) {
    'A' <= c <= 'Z'
  }

  /** `c.lower()` restricted to ASCII: `A`..`Z` become `a`..`z`, nothing else changes. */
  function LowerChar(c: char): (r: char)
    ensures !IsAsciiUpper(r)
    ensures IsAsciiUpper(c) ==> r as int == c as int + 32
    ensures !IsAsciiUpper(c) ==> r == c
  {
    if IsAsciiUpper(c) then (c as int + 32) as char else c
  }

  /** `s.lower()` restricted to ASCII letters, character by character. */
  function Lower(s: string): (r: string)
    ensures |r| == |s|
    ensures forall i :: 0 <= i < |s| ==> r[i] == LowerChar(s[i])
  {
    seq(|s|, i requires 0 <= i < |s| => LowerChar(s[i]))
  }

  /** `c.isspace()`: the code points Python 3 treats as white space. */
  predicate IsSpace(c: char) {
    ('\t' <= c <= '\r') || ('\U{1C}' <= c <= ' ') || c == '\U{85}' || c == '\U{A0}'
    || c == '\U{1680}' || ('\U{2000}' <= c <= '\U{200A}') || c == '\U{2028}' || c == '\U{2029}'
    || c == '\U{202F}' || c == '\U{205F}' || c == '\U{3000}'
  }

  /** How many white-space characters `s` starts with: where the scan from
      the left that `strip()` and `lstrip()` make stops. */
  function LeadingSpaces(s: string): (n: nat)
    ensures n <= |s|
    ensures forall k :: 0 <= k < n ==> IsSpace(s[k])
    ensures n < |s| ==> !IsSpace(s[n])
    decreases |s|
  {
    if s != [] && IsSpace(s[0]) then
      var m := LeadingSpaces(s[1..]);
      assert forall k :: 1 <= k < 1 + m ==> s[k] == s[1..][k - 1];
      1 + m
    else 0
  }

  /** How many white-space characters `s` ends with: where the scan from the
      right that `strip()` and `rstrip()` make stops. */
  function TrailingSpaces(s: string): (n: nat)
    ensures n <= |s|
    ensures forall k :: |s| - n <= k < |s| ==> IsSpace(s[k])
    ensures n < |s| ==> !IsSpace(s[|s| - n - 1])
    decreases |s|
  {
    if s != [] && IsSpace(s[|s| - 1]) then
      var m := TrailingSpaces(s[..|s| - 1]);
      assert forall k :: |s| - 1 - m <= k < |s| - 1 ==> s[k] == s[..|s| - 1][k];
      1 + m
    else 0
  }

  /** `s.lstrip()`: the suffix of `s` left after dropping its leading white space. */
  function StripLeft(s: string): (r: string)
    ensures |r| <= |s| && r == s[|s| - |r|..]
    ensures forall k :: 0 <= k < |s| - |r| ==> IsSpace(s[k])
    ensures r != [] ==> !IsSpace(r[0])
  {
    s[LeadingSpaces(s)..]
  }

  /** `s.rstrip()`: the prefix of `s` left after dropping its trailing white space. */
  function StripRight(s: string): (r: string)
    ensures |r| <= |s| && r == s[..|r|]
    ensures forall k :: |r| <= k < |s| ==> IsSpace(s[k])
    ensures r != [] ==> !IsSpace(r[|r| - 1])
  {
    s[..|s| - TrailingSpaces(s)]
  }

  /** `r` is `s[i..j]`, and only white space lies outside that slice. */
  predicate StrippedSlice(s: string, r: string, i: int, j: int) {
    && 0 <= i <= j <= |s| && r == s[i..j]
    && (forall k :: 0 <= k < i ==> IsSpace(s[k]))
    && (forall k :: j <= k < |s| ==> IsSpace(s[k]))
  }

  /** `s.strip()`: the text between the leading white space and the trailing
      white space that follows it. */
  function Strip(s: string): (r: string)
    ensures StrippedSlice(s, r, LeadingSpaces(s), LeadingSpaces(s) + |r|)
    ensures forall c :: c in r ==> c in s
    ensures r != [] ==> !IsSpace(r[0]) && !IsSpace(r[|r| - 1])
  {
    var i := LeadingSpaces(s);
    var t := TrailingSpaces(s[i..]);
    assert forall k :: |s| - t <= k < |s| ==> s[k] == s[i..][k - i];
    s[i..|s| - t]
  }

  /** `strip()` is `rstrip()` applied to what `lstrip()` leaves. */
  lemma StripIsBothSides(s: string)
    ensures Strip(s) == StripRight(StripLeft(s))
  {
    var i := LeadingSpaces(s);
    var t := TrailingSpaces(s[i..]);
    assert s[i..][..|s| - i - t] == s[i..|s| - t];
  }

  /** Text that neither starts nor ends with white space is left as it is. */
  lemma StripUnpadded(s: string)
    requires s != [] ==> !IsSpace(s[0]) && !IsSpace(s[|s| - 1])
    ensures Strip(s) == s
  {
  }
}
