/** ASCII character classes and the few Python string operations the
    classifier is built from: `isdigit`, `isalnum`, `lower`, `strip`,
    `startswith`, `endswith`, the substring test `in`, `count` and `str(n)`.
    Characters outside ASCII are treated as neither letters, digits nor
    whitespace, and `lower` leaves them alone. */
module Text {

  predicate IsDigit(c: char) { '0' <= c <= '9' }
  predicate IsUpper(c: char) { 'A' <= c <= 'Z' }
  predicate IsLowerLetter(c: char) { 'a' <= c <= 'z' }
  predicate IsAlpha(c: char) { IsUpper(c) || IsLowerLetter(c) }
  predicate IsAlnum(c: char) { IsAlpha(c) || IsDigit(c) }
  predicate IsVowel(c: char) { c == 'a' || c == 'e' || c == 'i' || c == 'o' || c == 'u' }

  /** Python's `str.isspace` on ASCII: space, \t \n \v \f \r and the four
      separators \x1c..\x1f. */
  predicate IsSpace(c: char) { c == ' ' || '\t' <= c <= '\r' || '\U{1C}' <= c <= '\U{1F}' }

  function LowerChar(c: char): (d: char)
    ensures !IsUpper(d)
    ensures IsUpper(c) ==> IsLowerLetter(d) && d as int == c as int + 32
    ensures !IsUpper(c) ==> d == c
    ensures IsSpace(d) == IsSpace(c) && IsDigit(d) == IsDigit(c) && IsAlnum(d) == IsAlnum(c)
  {
    if IsUpper(c) then (c as int + 32) as char else c
  }

  /** `s.lower()` */
  function Lower(s: string): (r: string)
    ensures |r| == |s|
    ensures forall k :: 0 <= k < |s| ==> r[k] == LowerChar(s[k])
  {
    seq(|s|, k requires 0 <= k < |s| => LowerChar(s[k]))
  }

  predicate NoUpper(s: string) { forall k :: 0 <= k < |s| ==> !IsUpper(s[k]) }

  predicate AllSpace(s: string) { forall k :: 0 <= k < |s| ==> IsSpace(s[k]) }

  /** Neither end of `s` is whitespace. */
  predicate Trimmed(s: string) { s == [] || (!IsSpace(s[0]) && !IsSpace(s[|s| - 1])) }

  lemma LowerKeepsNoUpper(s: string)
    requires NoUpper(s)
    ensures Lower(s) == s
  {
  }

  lemma {:induction false} LowerIdempotent(s: string)
    ensures NoUpper(Lower(s)) && Lower(Lower(s)) == Lower(s)
  {
    LowerKeepsNoUpper(Lower(s));
  }

  lemma LowerKeepsTrimmed(s: string)
    requires Trimmed(s)
    ensures Trimmed(Lower(s))
  {
  }

  function TrimStart(s: string): (r: string)
    ensures |r| <= |s| && r == s[|s| - |r|..]
    ensures AllSpace(s[..|s| - |r|])
    ensures r == [] || !IsSpace(r[0])
  {
    if s != [] && IsSpace(s[0]) then
      var r := TrimStart(s[1..]);
      assert s[..|s| - |r|] == [s[0]] + s[1..][..|s| - 1 - |r|];
      r
    else s
  }

  function TrimEnd(s: string): (r: string)
    ensures |r| <= |s| && r == s[..|r|]
    ensures AllSpace(s[|r|..])
    ensures r == [] || !IsSpace(r[|r| - 1])
  {
    if s != [] && IsSpace(s[|s| - 1]) then
      var r := TrimEnd(s[..|s| - 1]);
      assert s[|r|..] == s[..|s| - 1][|r|..] + [s[|s| - 1]];
      r
    else s
  }

  /** `r` is the slice of `s` at offset `i` with only whitespace before
      and after it. */
  predicate StrippedAt(s: string, r: string, i: nat)
  {
    i + |r| <= |s| && r == s[i..i + |r|] && AllSpace(s[..i]) && AllSpace(s[i + |r|..])
  }

  /** `s.strip()`: the result is the slice of `s` that is left once the
      whitespace at both ends is removed, and it is itself trimmed. */
  function Strip(s: string): (r: string)
    ensures Trimmed(r)
    ensures exists i: nat :: StrippedAt(s, r, i)
  {
    var a := TrimStart(s);
    var r := TrimEnd(a);
    TrimmedSlice(s, a, r);
    r
  }

  /** Cutting whitespace from the front of `s` to get `a`, then from the
      back of `a` to get `r`, leaves `r` trimmed and stripped out of `s`. */
  lemma TrimmedSlice(s: string, a: string, r: string)
    requires |a| <= |s| && a == s[|s| - |a|..] && AllSpace(s[..|s| - |a|]) && (a == [] || !IsSpace(a[0]))
    requires |r| <= |a| && r == a[..|r|] && AllSpace(a[|r|..]) && (r == [] || !IsSpace(r[|r| - 1]))
    ensures Trimmed(r) && StrippedAt(s, r, |s| - |a|)
  {
    var i := |s| - |a|;
    if r != [] { assert r[0] == a[0]; }
    assert r == s[i..i + |r|];
    assert s[i + |r|..] == a[|r|..];
  }

  lemma StripTrimmed(s: string)
    requires Trimmed(s)
    ensures Strip(s) == s
  {
  }

  /** Stripping a lower-cased string again, or lower-casing it again,
      changes nothing. */
  lemma {:induction false} NormalizeIdempotent(s: string)
    ensures Strip(Lower(Strip(Lower(s)))) == Strip(Lower(s))
  {
    var t := Lower(s);
    LowerIdempotent(s);
    StripKeepsNoUpper(t);
    var r := Strip(t);
    LowerKeepsNoUpper(r);
    StripTrimmed(r);
  }

  lemma StripKeepsNoUpper(s: string)
    requires NoUpper(s)
    ensures NoUpper(Strip(s))
  {
    var r := Strip(s);
    var i: nat :| StrippedAt(s, r, i);
    SliceKeepsNoUpper(s, r, i);
  }

  lemma SliceKeepsNoUpper(s: string, r: string, i: nat)
    requires NoUpper(s) && i + |r| <= |s| && r == s[i..i + |r|]
    ensures NoUpper(r)
  {
    forall k | 0 <= k < |r| ensures !IsUpper(r[k]) {
      assert r[k] == s[i + k];
    }
  }

  predicate StartsWith(s: string, p: string) { p <= s }

  predicate EndsWith(s: string, t: string) { |t| <= |s| && s[|s| - |t|..] == t }

  /** `any(s.endswith(t) for t in suffixes)` */
  predicate EndsWithAny(s: string, suffixes: seq<string>)
  {
    suffixes != [] && (EndsWith(s, suffixes[0]) || EndsWithAny(s, suffixes[1..]))
  }

  lemma {:induction false} EndsWithAnyIff(s: string, suffixes: seq<string>)
    ensures EndsWithAny(s, suffixes) <==> exists t :: t in suffixes && EndsWith(s, t)
  {
    if suffixes != [] {
      EndsWithAnyIff(s, suffixes[1..]);
      assert forall t :: t in suffixes <==> t == suffixes[0] || t in suffixes[1..];
    }
  }

  predicate OccursAt(s: string, w: string, i: nat) { i + |w| <= |s| && s[i..i + |w|] == w }

  /** Python's `w in s`. */
  predicate Contains(s: string, w: string) { exists i: nat | i <= |s| :: OccursAt(s, w, i) }

  /** `any(w in s for w in words)` */
  predicate ContainsAny(s: string, words: seq<string>)
  {
    words != [] && (Contains(s, words[0]) || ContainsAny(s, words[1..]))
  }

  lemma {:induction false} ContainsAnyIff(s: string, words: seq<string>)
    ensures ContainsAny(s, words) <==> exists w :: w in words && Contains(s, w)
  {
    if words != [] {
      ContainsAnyIff(s, words[1..]);
      assert forall w :: w in words <==> w == words[0] || w in words[1..];
    }
  }

  lemma ContainsChar(s: string, w: string, k: nat)
    requires Contains(s, w) && k < |w|
    ensures w[k] in s
  {
    var i: nat :| i <= |s| && OccursAt(s, w, i);
    assert s[i + k] == s[i..i + |w|][k];
  }

  /** `s` holds `x` immediately followed by `y`. */
  predicate HasPair(s: string, x: char, y: char)
  {
    exists j :: 0 <= j < |s| - 1 && s[j] == x && s[j + 1] == y
  }

  /** An occurrence of `w` brings every adjacent pair of `w` into `s`. */
  lemma ContainsPair(s: string, w: string, k: nat)
    requires Contains(s, w) && k + 1 < |w|
    ensures HasPair(s, w[k], w[k + 1])
  {
    var i: nat :| i <= |s| && OccursAt(s, w, i);
    assert s[i + k] == s[i..i + |w|][k] && s[i + k + 1] == s[i..i + |w|][k + 1];
  }

  /** A word with a character `s` lacks does not occur in `s`. */
  lemma NotContainsByChar(s: string, w: string, k: nat)
    requires k < |w| && w[k] !in s
    ensures !Contains(s, w)
  {
    if Contains(s, w) { ContainsChar(s, w, k); }
  }

  /** A word with two neighbouring characters that never stand side by side
      in `s` does not occur in `s`. */
  lemma NotContainsByPair(s: string, w: string, k: nat)
    requires k + 1 < |w| && !HasPair(s, w[k], w[k + 1])
    ensures !Contains(s, w)
  {
    if Contains(s, w) { ContainsPair(s, w, k); }
  }

  /** A word that does not hold the character `c` occurs in `a + [c] + b`
      only inside `a` or inside `b`. */
  lemma ContainsSplit(a: string, c: char, b: string, w: string)
    requires c !in w && Contains(a + [c] + b, w)
    ensures Contains(a, w) || Contains(b, w)
  {
    var s := a + [c] + b;
    var i: nat :| i <= |s| && OccursAt(s, w, i);
    if i + |w| <= |a| {
      assert s[i..i + |w|] == a[i..i + |w|];
      assert OccursAt(a, w, i);
    } else if i > |a| {
      assert s[i..i + |w|] == b[i - |a| - 1..i - |a| - 1 + |w|];
      assert OccursAt(b, w, i - |a| - 1);
    } else {
      OccurrenceChar(s, w, i, |a| - i);
      assert false;
    }
  }

  lemma OccurrenceChar(s: string, w: string, i: nat, k: nat)
    requires OccursAt(s, w, i) && k < |w|
    ensures s[i + k] == w[k]
  {
    assert s[i + k] == s[i..i + |w|][k];
  }

  lemma ContainsInPrefix(a: string, b: string, w: string)
    requires Contains(a, w)
    ensures Contains(a + b, w)
  {
    var i: nat :| i <= |a| && OccursAt(a, w, i);
    assert (a + b)[i..i + |w|] == a[i..i + |w|];
    assert OccursAt(a + b, w, i);
  }

  lemma ContainsInSuffix(a: string, b: string, w: string)
    requires Contains(b, w)
    ensures Contains(a + b, w)
  {
    var i: nat :| i <= |b| && OccursAt(b, w, i);
    assert (a + b)[|a| + i..|a| + i + |w|] == b[i..i + |w|];
    assert OccursAt(a + b, w, |a| + i);
  }

  lemma {:induction false} TrimStartKeepsOccurrence(s: string, w: string)
    requires Contains(s, w) && w != [] && !IsSpace(w[0])
    ensures Contains(TrimStart(s), w)
  {
    if s != [] && IsSpace(s[0]) {
      var j: nat :| j <= |s| && OccursAt(s, w, j);
      OccurrenceChar(s, w, j, 0);
      assert j > 0;
      assert s[1..][j - 1..j - 1 + |w|] == s[j..j + |w|];
      assert OccursAt(s[1..], w, j - 1);
      TrimStartKeepsOccurrence(s[1..], w);
    }
  }

  lemma {:induction false} TrimEndKeepsOccurrence(s: string, w: string)
    requires Contains(s, w) && w != [] && !IsSpace(w[|w| - 1])
    ensures Contains(TrimEnd(s), w)
  {
    if s != [] && IsSpace(s[|s| - 1]) {
      var j: nat :| j <= |s| && OccursAt(s, w, j);
      OccurrenceChar(s, w, j, |w| - 1);
      assert j + |w| < |s|;
      assert s[..|s| - 1][j..j + |w|] == s[j..j + |w|];
      assert OccursAt(s[..|s| - 1], w, j);
      TrimEndKeepsOccurrence(s[..|s| - 1], w);
    }
  }

  /** Stripping whitespace never removes an occurrence of a word whose ends
      are not whitespace. */
  lemma StripKeepsOccurrence(s: string, w: string)
    requires Contains(s, w) && w != [] && !IsSpace(w[0]) && !IsSpace(w[|w| - 1])
    ensures Contains(Strip(s), w)
  {
    TrimStartKeepsOccurrence(s, w);
    TrimEndKeepsOccurrence(TrimStart(s), w);
  }

  /** `any(c.isdigit() for c in s)` */
  predicate AnyDigit(s: string)
  {
    s != [] && (IsDigit(s[0]) || AnyDigit(s[1..]))
  }

  lemma {:induction false} AnyDigitIff(s: string)
    ensures AnyDigit(s) <==> exists k :: 0 <= k < |s| && IsDigit(s[k])
  {
    if s != [] {
      AnyDigitIff(s[1..]);
      if AnyDigit(s[1..]) {
        var k :| 0 <= k < |s| - 1 && IsDigit(s[1..][k]);
        assert IsDigit(s[k + 1]);
      }
      if exists k :: 0 <= k < |s| && IsDigit(s[k]) {
        var k :| 0 <= k < |s| && IsDigit(s[k]);
        if k > 0 { assert IsDigit(s[1..][k - 1]); }
      }
    }
  }

  lemma AnyDigitConcat(a: string, b: string)
    ensures AnyDigit(a + b) <==> AnyDigit(a) || AnyDigit(b)
  {
    AnyDigitIff(a);
    AnyDigitIff(b);
    AnyDigitIff(a + b);
    if AnyDigit(a + b) {
      var k :| 0 <= k < |a + b| && IsDigit((a + b)[k]);
      if k >= |a| { assert IsDigit(b[k - |a|]); }
    }
    if AnyDigit(a) {
      var k :| 0 <= k < |a| && IsDigit(a[k]);
      assert IsDigit((a + b)[k]);
    }
    if AnyDigit(b) {
      var k :| 0 <= k < |b| && IsDigit(b[k]);
      assert IsDigit((a + b)[|a| + k]);
    }
  }

  /** A word holding a digit occurs only in a string holding a digit. */
  lemma ContainsDigit(s: string, w: string)
    requires Contains(s, w) && AnyDigit(w)
    ensures AnyDigit(s)
  {
    AnyDigitIff(w);
    var k :| 0 <= k < |w| && IsDigit(w[k]);
    ContainsChar(s, w, k);
    var m :| 0 <= m < |s| && s[m] == w[k];
    AnyDigitIff(s);
  }

  /** Lower-case ASCII letters only, as `string.ascii_lowercase` offers. */
  predicate AllLowerLetters(s: string) { forall k :: 0 <= k < |s| ==> IsLowerLetter(s[k]) }

  lemma LowerLettersHaveNoDigit(s: string)
    requires AllLowerLetters(s)
    ensures !AnyDigit(s) && NoUpper(s)
  {
    AnyDigitIff(s);
  }

  /** `sum(c.isdigit() for c in s)` */
  function CountDigits(s: string): (n: nat)
    ensures n <= |s|
    ensures n == 0 <==> !AnyDigit(s)
  {
    if s == [] then 0 else (if IsDigit(s[0]) then 1 else 0) + CountDigits(s[1..])
  }

  /** `sum(not c.isalnum() for c in s)` */
  function CountSpecial(s: string): (n: nat)
    ensures n <= |s|
  {
    if s == [] then 0 else (if IsAlnum(s[0]) then 0 else 1) + CountSpecial(s[1..])
  }

  /** `s.count(c)` for a single character `c` */
  function CountChar(s: string, c: char): (n: nat)
    ensures n <= |s|
    ensures n == 0 <==> c !in s
  {
    if s == [] then 0 else (if s[0] == c then 1 else 0) + CountChar(s[1..], c)
  }

  /** A character is a digit, or not alphanumeric, but never both. */
  lemma {:induction false} DigitsAndSpecialsDisjoint(s: string)
    ensures CountDigits(s) + CountSpecial(s) <= |s|
  {
    if s != [] {
      DigitsAndSpecialsDisjoint(s[1..]);
    }
  }

  /** Every occurrence of a non-alphanumeric character is counted as special. */
  lemma {:induction false} CharCountedAsSpecial(s: string, c: char)
    requires !IsAlnum(c)
    ensures CountChar(s, c) <= CountSpecial(s)
  {
    if s != [] {
      CharCountedAsSpecial(s[1..], c);
    }
  }

  function DigitChar(d: nat): (c: char)
    requires d < 10
    ensures IsDigit(c)
  {
    ('0' as int + d) as char
  }

  function DigitValue(c: char): (d: nat)
    requires IsDigit(c)
    ensures d < 10 && DigitChar(d) == c
  {
    c as int - '0' as int
  }

  /** `str(n)` for a natural number: decimal digits, most significant first,
      no leading zero. */
  function Decimal(n: nat): (r: string)
    ensures 1 <= |r|
    ensures forall k :: 0 <= k < |r| ==> IsDigit(r[k])
    ensures (n < 10 ==> |r| == 1) && (n < 100 ==> |r| <= 2) && (n < 1000 ==> |r| <= 3)
    ensures n > 0 ==> r[0] != '0'
  {
    if n < 10 then [DigitChar(n)] else Decimal(n / 10) + [DigitChar(n % 10)]
  }

  /** `int(s)` for a string of decimal digits. */
  function DecimalValue(s: string): nat
    requires forall k :: 0 <= k < |s| ==> IsDigit(s[k])
  {
    if s == [] then 0 else DecimalValue(s[..|s| - 1]) * 10 + DigitValue(s[|s| - 1])
  }

  /** `int(str(n)) == n` */
  lemma {:induction false} DecimalRoundTrip(n: nat)
    ensures DecimalValue(Decimal(n)) == n
  {
    if n >= 10 {
      DecimalRoundTrip(n / 10);
      var s := Decimal(n);
      assert s[..|s| - 1] == Decimal(n / 10);
    }
  }
}
