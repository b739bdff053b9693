/** The two regular expressions the classifier searches with, written out
    as the strings they accept: the IPv4-shaped `(\d{1,3}\.){3}\d{1,3}` and
    the per-brand pattern that lets a digit or any vowel stand in for each
    vowel of the brand name. */
module Patterns {
  import opened Text

  /** The first `n` characters of `s` are digits. */
  predicate DigitRun(s: string, n: nat)
  {
    n <= |s| && forall k :: 0 <= k < n ==> IsDigit(s[k])
  }

  /** `s` begins with exactly `n` digits (as one `\d{1,3}` group takes them)
      and then, if `dots > 0`, a `.` and `dots - 1` further such groups. */
  predicate GroupThen(s: string, n: nat, dots: nat)
    ensures GroupThen(s, n, dots) ==> n + 2 * dots <= |s|
    decreases dots, 0
  {
    DigitRun(s, n) && (dots == 0 || (n < |s| && s[n] == '.' && DottedDigits(s[n + 1..], dots - 1)))
  }

  /** `(\d{1,3}\.){dots}\d{1,3}` matches at the start of `s`. */
  predicate DottedDigits(s: string, dots: nat)
    ensures DottedDigits(s, dots) ==> 2 * dots + 1 <= |s| && IsDigit(s[0])
    decreases dots, 1
  {
    GroupThen(s, 1, dots) || GroupThen(s, 2, dots) || GroupThen(s, 3, dots)
  }

  /** `re.search(r'(\d{1,3}\.){3}\d{1,3}', s)` finds a match: some position
      starts one to three digits, a dot, three times over, then one to
      three digits. The digits are not range-checked. */
  predicate HasIpShape(s: string)
    ensures HasIpShape(s) ==> 7 <= |s|
  {
    exists i :: 0 <= i <= |s| && DottedDigits(s[i..], 3)
  }

  /** A match needs a digit, so a string without digits has no IPv4 shape. */
  lemma IpShapeNeedsDigit(s: string)
    ensures HasIpShape(s) ==> AnyDigit(s)
  {
    if HasIpShape(s) {
      var i :| 0 <= i <= |s| && DottedDigits(s[i..], 3);
      assert IsDigit(s[i]);
      AnyDigitIff(s);
    }
  }

  lemma NoDigitNoIpShape(s: string)
    requires forall k :: 0 <= k < |s| ==> !IsDigit(s[k])
    ensures !HasIpShape(s)
  {
    AnyDigitIff(s);
    IpShapeNeedsDigit(s);
  }

  /** One more group of one to three digits in front of a dot and a match
      with one dot fewer is a match. */
  lemma {:induction false} GroupInFront(g: string, t: string, dots: nat)
    requires 1 <= |g| <= 3 && forall k :: 0 <= k < |g| ==> IsDigit(g[k])
    requires dots == 0 || (t != [] && t[0] == '.' && DottedDigits(t[1..], dots - 1))
    ensures DottedDigits(g + t, dots)
  {
    var s := g + t;
    assert DigitRun(s, |g|) by {
      forall k | 0 <= k < |g| ensures IsDigit(s[k]) { assert s[k] == g[k]; }
    }
    if dots > 0 {
      assert s[|g|] == t[0];
      assert s[|g| + 1..] == t[1..];
    }
    assert GroupThen(s, |g|, dots);
  }

  /** One more group of digits and a dot in front of a match. */
  lemma DotGroup(g: string, s: string, dots: nat)
    requires 1 <= |g| <= 3 && (forall k :: 0 <= k < |g| ==> IsDigit(g[k])) && DottedDigits(s, dots)
    ensures DottedDigits(g + "." + s, dots + 1)
  {
    assert ("." + s)[1..] == s;
    GroupInFront(g, "." + s, dots + 1);
    assert g + "." + s == g + ("." + s);
  }

  /** A shape matched at position `k` is found by the search. */
  lemma IpShapeAt(s: string, k: nat)
    requires k <= |s| && DottedDigits(s[k..], 3)
    ensures HasIpShape(s)
  {
  }

  /** A shape matched at the start of a suffix is found by the search. */
  lemma IpShapeInSuffix(a: string, t: string)
    requires DottedDigits(t, 3)
    ensures HasIpShape(a + t)
  {
    assert (a + t)[|a|..] == t;
  }

  /** The alternatives a brand pattern allows at one position: the literal
      consonant, or `[aeiou0-9]` where the brand has a vowel. */
  datatype Atom = Literal(c: char) | VowelOrDigit

  predicate AtomMatches(a: Atom, c: char)
  {
    match a
    case Literal(x) => c == x
    case VowelOrDigit => IsVowel(c) || IsDigit(c)
  }

  /** `re.sub(r"[aeiou]", "[aeiou0-9]", brand)`: every vowel of the brand
      becomes the class `[aeiou0-9]`, every other character stays literal. */
  function BrandPattern(brand: string): (p: seq<Atom>)
    ensures |p| == |brand|
  {
    seq(|brand|, k requires 0 <= k < |brand| => if IsVowel(brand[k]) then VowelOrDigit else Literal(brand[k]))
  }

  predicate MatchesAt(p: seq<Atom>, s: string, i: nat)
  {
    i + |p| <= |s| && forall k :: 0 <= k < |p| ==> AtomMatches(p[k], s[i + k])
  }

  /** `re.search(pattern, s)` finds a match. */
  predicate Search(p: seq<Atom>, s: string)
  {
    exists i: nat | i <= |s| :: MatchesAt(p, s, i)
  }

  /** `t` looks like `brand` to the eye the pattern models: same length, the
      same consonants in the same places, and each vowel of the brand
      replaced by a vowel or a digit. */
  predicate Resembles(t: string, brand: string)
  {
    |t| == |brand| &&
    forall k :: 0 <= k < |t| ==>
      if IsVowel(brand[k]) then IsVowel(t[k]) || IsDigit(t[k]) else t[k] == brand[k]
  }

  /** The brand pattern matches exactly the strings that resemble the brand. */
  lemma BrandPatternMeaning(brand: string, s: string, i: nat)
    requires i + |brand| <= |s|
    ensures MatchesAt(BrandPattern(brand), s, i) <==> Resembles(s[i..i + |brand|], brand)
  {
    var p := BrandPattern(brand);
    var t := s[i..i + |brand|];
    assert forall k :: 0 <= k < |brand| ==> t[k] == s[i + k];
    if MatchesAt(p, s, i) {
      forall k | 0 <= k < |brand|
        ensures if IsVowel(brand[k]) then IsVowel(t[k]) || IsDigit(t[k]) else t[k] == brand[k]
      {
        assert AtomMatches(p[k], s[i + k]);
      }
    }
  }

  /** The unaltered brand always matches its own pattern. */
  lemma BrandMatchesItself(brand: string, s: string, i: nat)
    requires OccursAt(s, brand, i)
    ensures MatchesAt(BrandPattern(brand), s, i)
  {
    forall k | 0 <= k < |brand| ensures AtomMatches(BrandPattern(brand)[k], s[i + k]) {
      OccurrenceChar(s, brand, i, k);
    }
  }
}
