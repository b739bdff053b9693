/** The training script's pure parts: the synthetic URL generators, with
    every random choice passed in as an argument, the script's own copy of
    the feature extractor, and the label encoding. */
module Train {
  import opened Text
  import opened Schema
  import opened Patterns

  const SafeDomains: seq<string> :=
    ["google", "amazon", "wikipedia", "github", "mit", "harvard", "stackoverflow", "microsoft", "apple", "netflix"]
  const SafeTlds: seq<string> := [".com", ".org", ".edu", ".in", ".net"]
  const MaliciousWords: seq<string> := ["login", "secure", "update", "bank", "verify", "account", "password"]
  const BadTlds: seq<string> := [".xyz", ".click", ".ru", ".info", ".top"]

  /** `string.ascii_lowercase` */
  const AsciiLowercase: string := "abcdefghijklmnopqrstuvwxyz"

  /** An index into `string.ascii_lowercase`, as `random.choices` draws it. */
  type LetterChoice = k: nat | k < 26

  /** A value `random.randint(1, 255)` can return. */
  type Octet = n: nat | 1 <= n <= 255 witness 1

  /** `random_string(n)`: `n` letters drawn from `string.ascii_lowercase`;
      `picks` holds the `n` indices drawn. */
  function RandomString(n: nat, picks: seq<LetterChoice>): (r: string)
    requires |picks| == n
    ensures |r| == n && AllLowerLetters(r)
  {
    assert forall k :: 0 <= k < |AsciiLowercase| ==> IsLowerLetter(AsciiLowercase[k]);
    seq(n, k requires 0 <= k < n => AsciiLowercase[picks[k]])
  }

  /** `".".join(str(o) for o in (a, b, c, d))`: four octets 1..255 in
      decimal, separated by dots. */
  function DottedQuad(a: Octet, b: Octet, c: Octet, d: Octet): (q: string)
    ensures q != [] && IsDigit(q[0])
    ensures forall k :: 0 <= k < |q| ==> IsDigit(q[k]) || q[k] == '.'
    ensures !HasPair(q, '.', '0')
  {
    var q := Decimal(a) + "." + (Decimal(b) + "." + (Decimal(c) + "." + Decimal(d)));
    OctetHasNoDotZero(d);
    DotJoinNoDotZero(Decimal(c), Decimal(d));
    OctetHasNoDotZero(c);
    DotJoinNoDotZero(Decimal(b), Decimal(c) + "." + Decimal(d));
    OctetHasNoDotZero(b);
    OctetHasNoDotZero(a);
    DotJoinNoDotZero(Decimal(a), Decimal(b) + "." + (Decimal(c) + "." + Decimal(d)));
    q
  }

  lemma OctetHasNoDotZero(o: Octet)
    ensures !HasPair(Decimal(o), '.', '0')
  {
  }

  /** Joining two dot-free-before-zero strings with a dot keeps the property
      when the right one does not start with `0`. */
  lemma DotJoinNoDotZero(x: string, y: string)
    requires !HasPair(x, '.', '0') && !HasPair(y, '.', '0') && y != [] && y[0] != '0'
    ensures !HasPair(x + "." + y, '.', '0')
  {
    var s := x + "." + y;
    forall j | 0 <= j < |s| - 1 ensures !(s[j] == '.' && s[j + 1] == '0') {
      if j + 1 < |x| {
        assert s[j] == x[j] && s[j + 1] == x[j + 1];
      } else if j + 1 == |x| {
        assert s[j + 1] == '.';
      } else if j == |x| {
        assert s[j + 1] == y[0];
      } else {
        assert s[j] == y[j - |x| - 1] && s[j + 1] == y[j - |x|];
      }
    }
  }

  /** `generate_safe_url()`: `coin` is `random.random() < 0.5`, `domain`
      and `tld` are the indices `random.choice` drew. */
  function GenerateSafeUrl(coin: bool, domain: nat, tld: nat): (u: string)
    requires domain < |SafeDomains| && tld < |SafeTlds|
    ensures coin ==> StartsWith(u, "https://")
    ensures !coin ==> StartsWith(u, "www.")
    ensures EndsWith(u, SafeTlds[tld])
  {
    if coin then "https://" + SafeDomains[domain] + SafeTlds[tld]
    else "www." + SafeDomains[domain] + SafeTlds[tld]
  }

  /** `generate_malicious_url()`: `useIp` is `random.random() < 0.3`; the
      IP branch draws the four octets and a word, the other branch six
      letters, a word and a bad TLD. */
  function GenerateMaliciousUrl(
    useIp: bool, a: Octet, b: Octet, c: Octet, d: Octet,
    letters: seq<LetterChoice>, word: nat, badTld: nat): (u: string)
    requires word < |MaliciousWords| && badTld < |BadTlds|
    requires !useIp ==> |letters| == 6
    ensures StartsWith(u, "http://")
    ensures !useIp ==> EndsWith(u, BadTlds[badTld])
  {
    if useIp then "http://" + DottedQuad(a, b, c, d) + "/" + MaliciousWords[word]
    else "http://" + RandomString(6, letters) + "-" + MaliciousWords[word] + BadTlds[badTld]
  }

  /** The training script's own `extract_features`, over its own word
      list. */
  function ExtractFeatures(url: string): (f: FeatureRecord)
    ensures f.length == |url|
    ensures f.numDigits + f.numSpecial <= f.length
    ensures f.numSubdomains <= f.numSpecial
    ensures f.hasHttps <= 1 && f.hasIp <= 1 && f.hasSuspiciousWords <= 1
    ensures f.hasHttps == 1 <==> StartsWith(url, "https")
    ensures f.hasIp == 1 ==> f.numDigits > 0
    ensures f.hasSuspiciousWords == 1 <==> exists w :: w in MaliciousWords && Contains(Lower(url), w)
    ensures url == [] ==> f == FeatureRecord(0, 0, 0, 0, 0, 0, 0)
  {
    DigitsAndSpecialsDisjoint(url);
    CharCountedAsSpecial(url, '.');
    ContainsAnyIff(Lower(url), MaliciousWords);
    IpShapeNeedsDigit(url);
    FeatureRecord(
      |url|,
      CountDigits(url),
      CountSpecial(url),
      CountChar(url, '.'),
      Flag(StartsWith(url, "https")),
      Flag(HasIpShape(url)),
      Flag(ContainsAny(Lower(url), MaliciousWords)))
  }

  /** `df["label"].map({"safe": 0, "malicious": 1})` */
  function LabelCode(l: Label): (n: nat)
    ensures n <= 1 && (n == 1 <==> l == Malicious)
  {
    match l
    case Safe => 0
    case Malicious => 1
  }

  /** Every word the generators use is four to eight lower-case letters. */
  lemma WordIsLowerCase(i: nat)
    requires i < |MaliciousWords|
    ensures AllLowerLetters(MaliciousWords[i]) && 4 <= |MaliciousWords[i]| <= 8
  {
    var w := MaliciousWords[i];
    assert w in MaliciousWords;
  }

  /** Every safe domain is lower-case letters. */
  lemma DomainIsLowerCase(i: nat)
    requires i < |SafeDomains|
    ensures AllLowerLetters(SafeDomains[i])
  {
    var w := SafeDomains[i];
    assert w in SafeDomains;
  }

  /** Every TLD the generators append is a dot and one to five letters. */
  lemma TldIsLowerCase(t: string)
    requires t in SafeTlds || t in BadTlds
    ensures 2 <= |t| <= 6 && t[0] == '.'
    ensures forall k :: 1 <= k < |t| ==> IsLowerLetter(t[k])
  {
  }
}
