/** Shared wrappers and the handful of Python string operations the bots rely on. */
module Common {

  datatype Option<+T> = None | Some(value: T)

  /** The result of an operation that may raise: Pass, or Fail carrying the exception raised. */
  datatype Outcome<+E> = Pass | Fail(error: E) {
    predicate IsFailure() { Fail? }
    function PropagateFailure(): Outcome<E>
      requires Fail?
    {
      this
    }
  }

  /** A value-carrying result: Success(value), or Failure carrying the exception raised. */
  datatype Result<+T, +E> = Success(value: T) | Failure(error: E) {
    predicate IsFailure() { Failure? }
    function PropagateFailure<U>(): Result<U, E>
      requires Failure?
    {
      Failure(error)
    }
    function Extract(): T
      requires Success?
    {
      value
    }
  }

  // ---------------------------------------------------------------
  // Digits: str.isdigit, int(...) and str(...) on natural numbers
  // ---------------------------------------------------------------

  predicate IsDigit(c: char) { '0' <= c <= '9' }

  /** str.isdigit(): non-empty and made only of decimal digits (ASCII digits only). */
  predicate IsDigits(s: string) {
    |s| > 0 && forall i :: 0 <= i < |s| ==> IsDigit(s[i])
  }

  function DigitValue(c: char): (d: nat)
    requires IsDigit(c)
    ensures d < 10
  {
    c as int - '0' as int
  }

  function DigitChar(d: nat): (c: char)
    requires d < 10
    ensures IsDigit(c) && DigitValue(c) == d
  {
    ('0' as int + d) as char
  }

  /** The number a string of decimal digits denotes, as int(s) computes it. */
  function DigitsValue(s: string): (n: nat)
    requires forall i :: 0 <= i < |s| ==> IsDigit(s[i])
    ensures n == 0 <==> forall i :: 0 <= i < |s| ==> s[i] == '0'
  {
    if s == [] then 0 else DigitsValue(s[..|s| - 1]) * 10 + DigitValue(s[|s| - 1])
  }

  /** The decimal text of a natural number, as str(n) or an f-string renders it. */
  function NatToString(n: nat): (s: string)
    ensures IsDigits(s)
    ensures DigitsValue(s) == n
    ensures s[0] == '0' ==> n == 0
    decreases n
  {
    if n < 10 then [DigitChar(n)]
    else
      var prefix := NatToString(n / 10);
      var s := prefix + [DigitChar(n % 10)];
      assert s[..|s| - 1] == prefix;
      s
  }

  /** str(n) is injective: the decimal text determines the number. */
  lemma NatToStringInjective(a: nat, b: nat)
    requires NatToString(a) == NatToString(b)
    ensures a == b
  {
  }

  /** A digit string without a leading zero has positive value. */
  lemma {:induction false} LeadingDigitPositive(s: string)
    requires IsDigits(s) && s[0] != '0'
    ensures DigitsValue(s) > 0
  {
    if |s| > 1 {
      var p := s[..|s| - 1];
      assert p[0] == s[0];
      LeadingDigitPositive(p);
    }
  }

  /** str(int(s)) == s for a digit string in canonical form (no leading zero unless it is "0"). */
  lemma {:induction false} DigitsRoundTrip(s: string)
    requires IsDigits(s) && (|s| == 1 || s[0] != '0')
    ensures NatToString(DigitsValue(s)) == s
  {
    var c := s[|s| - 1];
    DigitCharValue(c);
    if |s| == 1 {
      assert s == [c];
    } else {
      var p := s[..|s| - 1];
      assert p[0] == s[0];
      LeadingDigitPositive(p);
      DigitsRoundTrip(p);
      var q := DigitsValue(p);
      assert DigitsValue(s) == q * 10 + DigitValue(c);
      LastDigit(q, DigitValue(c));
      assert NatToString(DigitsValue(s)) == NatToString(q) + [DigitChar(DigitValue(c))];
      assert s == p + [c];
    }
  }

  lemma DigitCharValue(c: char)
    requires IsDigit(c)
    ensures DigitChar(DigitValue(c)) == c
  {
  }

  lemma LastDigit(q: nat, d: nat)
    requires d < 10
    ensures (q * 10 + d) / 10 == q && (q * 10 + d) % 10 == d
  {
  }

  // ---------------------------------------------------------------
  // Case: str.lower and str.capitalize (ASCII letters)
  // ---------------------------------------------------------------

  function LowerChar(c: char): char {
    if 'A' <= c <= 'Z' then (c as int + 32) as char else c
  }

  function UpperChar(c: char): char {
    if 'a' <= c <= 'z' then (c as int - 32) as char else c
  }

  /** str.lower() */
  function Lower(s: string): (r: string)
    ensures |r| == |s|
    ensures forall i :: 0 <= i < |r| ==> !('A' <= r[i] <= 'Z')
    ensures forall i :: 0 <= i < |s| && !('A' <= s[i] <= 'Z') ==> r[i] == s[i]
    ensures forall i :: 0 <= i < |s| && 'A' <= s[i] <= 'Z' ==> r[i] as int == s[i] as int + 32
  {
    seq(|s|, i requires 0 <= i < |s| => LowerChar(s[i]))
  }

  /** str.capitalize(): first character upper case, the rest lower case. The result spells
      the same text up to case, and together with the case pattern that fixes it. */
  function Capitalize(s: string): (r: string)
    ensures |r| == |s|
    ensures Lower(r) == Lower(s)
    ensures r != [] ==> !('a' <= r[0] <= 'z')
    ensures forall i :: 1 <= i < |r| ==> !('A' <= r[i] <= 'Z')
  {
    if s == [] then []
    else
      CapitalizedLower(s);
      [UpperChar(s[0])] + Lower(s[1..])
  }

  /** Upper-casing the first character and lower-casing the rest keeps the lower-case spelling. */
  lemma CapitalizedLower(s: string)
    requires s != []
    ensures Lower([UpperChar(s[0])] + Lower(s[1..])) == Lower(s)
  {
    var c := [UpperChar(s[0])] + Lower(s[1..]);
    forall i | 0 <= i < |s|
      ensures LowerChar(c[i]) == LowerChar(s[i])
    {
      if i > 0 {
        assert c[i] == LowerChar(s[i]);
      }
    }
  }

  /** The contract of Capitalize pins it down: any text with its length, its lower-case spelling
      and its case pattern is Capitalize's result. */
  lemma CapitalizeUnique(s: string, r: string)
    requires |r| == |s| && Lower(r) == Lower(s)
    requires r != [] ==> !('a' <= r[0] <= 'z')
    requires forall i :: 1 <= i < |r| ==> !('A' <= r[i] <= 'Z')
    ensures r == Capitalize(s)
  {
    var c := Capitalize(s);
    forall i | 0 <= i < |s|
      ensures r[i] == c[i]
    {
      assert LowerChar(r[i]) == Lower(r)[i] == Lower(s)[i] == LowerChar(s[i]);
      if i > 0 {
        assert c[i] == LowerChar(s[i]);
      }
    }
  }

  /** Capitalize only looks at the letters, not at how they were cased: two texts that
      agree in lower case capitalize to the same text. */
  lemma CapitalizeIgnoresCase(a: string, b: string)
    requires Lower(a) == Lower(b)
    ensures Capitalize(a) == Capitalize(b)
  {
    if a != [] {
      assert LowerChar(a[0]) == Lower(a)[0] == Lower(b)[0] == LowerChar(b[0]);
      assert UpperChar(a[0]) == UpperChar(b[0]);
      assert Lower(a[1..]) == Lower(a)[1..] == Lower(b)[1..] == Lower(b[1..]);
    }
  }

  /** Capitalizing twice changes nothing more. */
  lemma CapitalizeIdempotent(s: string)
    ensures Capitalize(Capitalize(s)) == Capitalize(s)
  {
    if s != [] {
      var c := Capitalize(s);
      assert c[1..] == Lower(s[1..]);
      assert Lower(c[1..]) == c[1..];
    }
  }

  // ---------------------------------------------------------------
  // Whitespace: str.strip
  // ---------------------------------------------------------------

  /** str.isspace() for one character: the characters Python treats as whitespace. */
  predicate IsSpace(c: char) {
    c == ' ' || '\t' <= c <= '\r' || '\U{1C}' <= c <= '\U{1F}' || c == '\U{85}' || c == '\U{A0}'
    || c == '\U{1680}' || '\U{2000}' <= c <= '\U{200A}' || c == '\U{2028}' || c == '\U{2029}'
    || c == '\U{202F}' || c == '\U{205F}' || c == '\U{3000}'
  }

  predicate AllSpace(s: string) {
    forall i :: 0 <= i < |s| ==> IsSpace(s[i])
  }

  /** str.lstrip() */
  function TrimStart(s: string): (r: string)
    ensures r == [] || !IsSpace(r[0])
    ensures |r| <= |s| && r == s[|s| - |r|..]
    ensures AllSpace(s[..|s| - |r|])
  {
    if s != [] && IsSpace(s[0]) then
      var r := TrimStart(s[1..]);
      assert s[1..][..|s| - 1 - |r|] == s[1..|s| - |r|];
      r
    else s
  }

  /** str.rstrip() */
  function TrimEnd(s: string): (r: string)
    ensures r == [] || !IsSpace(r[|r| - 1])
    ensures |r| <= |s| && r == s[..|r|]
    ensures AllSpace(s[|r|..])
  {
    if s != [] && IsSpace(s[|s| - 1]) then
      var r := TrimEnd(s[..|s| - 1]);
      SpaceTailGrows(s, |r|);
      r
    else s
  }

  /** A whitespace run before a final whitespace character extends to the end. */
  lemma SpaceTailGrows(s: string, k: nat)
    requires s != [] && IsSpace(s[|s| - 1]) && k <= |s| - 1 && AllSpace(s[..|s| - 1][k..])
    ensures AllSpace(s[k..])
  {
    forall i | 0 <= i < |s| - k
      ensures IsSpace(s[k..][i])
    {
      if k + i < |s| - 1 {
        assert s[k..][i] == s[..|s| - 1][k..][i];
      }
    }
  }

  /** str.strip(): the text without its leading and trailing whitespace. */
  function Strip(s: string): (r: string)
    ensures r == [] || (!IsSpace(r[0]) && !IsSpace(r[|r| - 1]))
    ensures r == [] <==> AllSpace(s)
  {
    var t := TrimStart(s);
    var r := TrimEnd(t);
    assert r != [] ==> r[0] == t[0];
    assert t == s[|s| - |t|..];
    assert t != [] ==> t[0] == s[|s| - |t|];
    assert t == [] ==> s == s[..|s| - |t|];
    r
  }

  lemma {:induction false} TrimStartPadded(w: string, t: string)
    requires AllSpace(w)
    ensures TrimStart(w + t) == TrimStart(t)
  {
    if w == [] {
      assert w + t == t;
    } else {
      assert IsSpace((w + t)[0]) by { assert (w + t)[0] == w[0]; }
      assert TrimStart(w + t) == TrimStart((w + t)[1..]);
      assert (w + t)[1..] == w[1..] + t;
      TrimStartPadded(w[1..], t);
    }
  }

  lemma {:induction false} TrimEndPadded(t: string, w: string)
    requires AllSpace(w)
    ensures TrimEnd(t + w) == TrimEnd(t)
  {
    if w == [] {
      assert t + w == t;
    } else {
      assert IsSpace((t + w)[|t + w| - 1]) by { assert (t + w)[|t + w| - 1] == w[|w| - 1]; }
      assert TrimEnd(t + w) == TrimEnd((t + w)[..|t + w| - 1]);
      assert (t + w)[..|t + w| - 1] == t + w[..|w| - 1];
      TrimEndPadded(t, w[..|w| - 1]);
    }
  }

  /** Trailing whitespace passes through lstrip untouched unless nothing else is left. */
  lemma {:induction false} TrimStartThenSpace(s: string, w: string)
    requires AllSpace(w)
    ensures TrimStart(s + w) == if TrimStart(s) == [] then TrimStart(w) else TrimStart(s) + w
  {
    if s == [] {
      assert s + w == w;
    } else if IsSpace(s[0]) {
      assert (s + w)[1..] == s[1..] + w;
      TrimStartThenSpace(s[1..], w);
    }
  }

  lemma AllSpaceTrimStart(w: string)
    requires AllSpace(w)
    ensures TrimStart(w) == []
  {
  }

  /** Whitespace added around a text does not change what strip() returns. */
  lemma StripPadded(w1: string, s: string, w2: string)
    requires AllSpace(w1) && AllSpace(w2)
    ensures Strip(w1 + s + w2) == Strip(s)
  {
    AppendAssoc(w1, s, w2);
    PaddedTrimStart(w1, s, w2);
    if TrimStart(s) != [] {
      TrimEndPadded(TrimStart(s), w2);
    }
  }

  lemma AppendAssoc(a: string, b: string, c: string)
    ensures a + b + c == a + (b + c)
  {
  }

  /** lstrip() of a padded text: the padding in front goes, the padding behind stays unless
      nothing else is left. */
  lemma PaddedTrimStart(w1: string, s: string, w2: string)
    requires AllSpace(w1) && AllSpace(w2)
    ensures TrimStart(w1 + (s + w2)) == if TrimStart(s) == [] then [] else TrimStart(s) + w2
  {
    TrimStartPadded(w1, s + w2);
    TrimStartThenSpace(s, w2);
    AllSpaceTrimStart(w2);
  }

  /** A text that neither starts nor ends with whitespace is left as it is by strip(). */
  lemma StripUnpadded(s: string)
    requires s != [] && !IsSpace(s[0]) && !IsSpace(s[|s| - 1])
    ensures Strip(s) == s
  {
  }

  /** strip() is idempotent. */
  lemma StripIdempotent(s: string)
    ensures Strip(Strip(s)) == Strip(s)
  {
  }

  // ---------------------------------------------------------------
  // Substrings: `sub in s`, str.find and str.split(sep)[-1]
  // ---------------------------------------------------------------

  predicate OccursAt(s: string, sub: string, i: int) {
    0 <= i && i + |sub| <= |s| && s[i..i + |sub|] == sub
  }

  /** The first position at or after k where sub occurs in s (str.find from k). */
  function IndexFrom(s: string, sub: string, k: nat): Option<nat>
    requires k <= |s|
    decreases |s| - k
  {
    if k + |sub| > |s| then None
    else if s[k..k + |sub|] == sub then Some(k)
    else IndexFrom(s, sub, k + 1)
  }

  /** IndexFrom finds an occurrence at or after k, the first one there, and reports None only
      when there is none. */
  lemma {:induction false} IndexFromFinds(s: string, sub: string, k: nat)
    requires k <= |s|
    ensures IndexFrom(s, sub, k).Some? ==> k <= IndexFrom(s, sub, k).value && OccursAt(s, sub, IndexFrom(s, sub, k).value)
    ensures IndexFrom(s, sub, k).Some? ==> forall j :: k <= j < IndexFrom(s, sub, k).value ==> !OccursAt(s, sub, j)
    ensures IndexFrom(s, sub, k).None? ==> forall j :: k <= j ==> !OccursAt(s, sub, j)
    decreases |s| - k
  {
    if k + |sub| <= |s| && s[k..k + |sub|] != sub {
      IndexFromFinds(s, sub, k + 1);
    }
  }

  /** str.find: the first position where sub occurs in s. */
  function IndexOf(s: string, sub: string): (r: Option<nat>)
    ensures r.Some? ==> OccursAt(s, sub, r.value) && forall j :: 0 <= j < r.value ==> !OccursAt(s, sub, j)
    ensures r.None? ==> forall j :: !OccursAt(s, sub, j)
  {
    IndexFromFinds(s, sub, 0);
    IndexFrom(s, sub, 0)
  }

  /** Python's `sub in s`. */
  predicate Contains(s: string, sub: string)
    ensures Contains(s, sub) <==> exists i :: OccursAt(s, sub, i)
  {
    IndexOf(s, sub).Some?
  }

  lemma ContainsAt(s: string, sub: string, i: int)
    requires OccursAt(s, sub, i)
    ensures Contains(s, sub)
  {
  }

  /** An occurrence in a suffix of s is an occurrence in s, shifted by where the suffix starts. */
  lemma OccursInSuffix(s: string, k: nat, sub: string, j: int)
    requires k <= |s| && OccursAt(s[k..], sub, j)
    ensures OccursAt(s, sub, k + j)
  {
    assert s[k..][j..j + |sub|] == s[k + j..k + j + |sub|];
  }

  /** Where split(sep) starts its last piece when it scans s from position k: past every
      separator found, each search resuming right after the previous one (str.find from k). */
  function LastCut(s: string, sep: string, k: nat): (c: nat)
    requires sep != [] && k <= |s|
    ensures k <= c <= |s|
    decreases |s| - k
  {
    IndexFromFinds(s, sep, k);
    match IndexFrom(s, sep, k)
    case None => k
    case Some(i) => LastCut(s, sep, i + |sep|)
  }

  /** No separator starts at or after the last cut. */
  lemma {:induction false} LastCutClear(s: string, sep: string, k: nat)
    requires sep != [] && k <= |s|
    ensures forall j :: LastCut(s, sep, k) <= j ==> !OccursAt(s, sep, j)
    decreases |s| - k
  {
    IndexFromFinds(s, sep, k);
    match IndexFrom(s, sep, k)
    case None =>
    case Some(i) =>
      LastCutClear(s, sep, i + |sep|);
  }

  /** When a separator is found from k, the last cut comes right after one. */
  lemma {:induction false} LastCutAfterSeparator(s: string, sep: string, k: nat)
    requires sep != [] && k <= |s| && IndexFrom(s, sep, k).Some?
    ensures k + |sep| <= LastCut(s, sep, k) && OccursAt(s, sep, LastCut(s, sep, k) - |sep|)
    decreases |s| - k
  {
    IndexFromFinds(s, sep, k);
    var i := IndexFrom(s, sep, k).value;
    var next := i + |sep|;
    IndexFromFinds(s, sep, next);
    if IndexFrom(s, sep, next).Some? {
      LastCutAfterSeparator(s, sep, next);
    } else {
      assert LastCut(s, sep, k) - |sep| == i;
    }
  }

  /** s.split(sep)[-1]: the text after the last separator found scanning from the left,
      or the whole of s when sep does not occur. */
  function SplitLast(s: string, sep: string): (r: string)
    requires sep != []
    ensures |r| <= |s| && r == s[|s| - |r|..]
  {
    s[LastCut(s, sep, 0)..]
  }

  /** When s holds no separator, split(sep)[-1] is all of s. */
  lemma SplitLastAbsent(s: string, sep: string)
    requires sep != [] && !Contains(s, sep)
    ensures SplitLast(s, sep) == s
  {
    assert LastCut(s, sep, 0) == 0;
  }

  /** split(sep)[-1] holds no separator. */
  lemma SplitLastHasNoSeparator(s: string, sep: string)
    requires sep != []
    ensures !Contains(SplitLast(s, sep), sep)
  {
    var c := LastCut(s, sep, 0);
    LastCutClear(s, sep, 0);
    var idx := IndexOf(s[c..], sep);
    if idx.Some? {
      OccursInSuffix(s, c, sep, idx.value);
    }
  }

  /** When s holds the separator, split(sep)[-1] is preceded by an occurrence of it. */
  lemma SplitLastFollowsSeparator(s: string, sep: string)
    requires sep != [] && Contains(s, sep)
    ensures OccursAt(s, sep, |s| - |SplitLast(s, sep)| - |sep|)
  {
    LastCutAfterSeparator(s, sep, 0);
    assert |s| - |SplitLast(s, sep)| - |sep| == LastCut(s, sep, 0) - |sep|;
  }
}
