/** The serving side of the phishing detector: feature extraction, the
    typosquat heuristic, the ordered rule list and the decision logic of the
    `/predict` endpoint. The trained classifier is a parameter: a function
    from the one-row feature frame to a class index (and, separately, to the
    confidence it reports). */
module App {
  import opened Text
  import opened Wrappers
  import opened Schema
  import opened Patterns

  /** Known safe top-level-domain suffixes. */
  const SafeTlds: seq<string> := [".com", ".org", ".edu", ".in", ".net", ".gov"]
  /** Words commonly seen in phishing URLs. */
  const MaliciousWords: seq<string> := ["login", "secure", "update", "bank", "verify", "account", "password"]
  /** Brands checked for typosquatting, in the order they are tried. */
  const BrandNames: seq<string> := ["google", "paypal", "microsoft", "amazon", "facebook", "apple"]

  /** The confidence every rule verdict carries (`100.0`). */
  const RuleConfidence: real := 100.0

  // ---------------------------------------------------------------------
  // Feature extraction

  /** `extract_features(url)`: the seven features, computed from the URL as
      given (only the suspicious-word test lower-cases it). */
  function ExtractFeatures(url: string): (f: FeatureRecord)
    ensures f.length == |url|
    ensures f.numDigits + f.numSpecial <= f.length
    ensures f.numSubdomains <= f.numSpecial
    ensures f.hasHttps <= 1 && f.hasIp <= 1 && f.hasSuspiciousWords <= 1
    ensures f.hasHttps == 1 <==> StartsWith(url, "https")
    ensures f.hasIp == 1 ==> f.numDigits > 0
    ensures f.hasSuspiciousWords == 1 <==> exists w :: w in MaliciousWords && Contains(Lower(url), w)
    ensures url == [] ==> f == FeatureRecord(0, 0, 0, 0, 0, 0, 0)
  {
    DigitsAndSpecialsDisjoint(url);
    CharCountedAsSpecial(url, '.');
    ContainsAnyIff(Lower(url), MaliciousWords);
    IpShapeNeedsDigit(url);
    FeatureRecord(
      |url|,
      CountDigits(url),
      CountSpecial(url),
      CountChar(url, '.'),
      Flag(StartsWith(url, "https")),
      Flag(HasIpShape(url)),
      Flag(ContainsAny(Lower(url), MaliciousWords)))
  }

  /** The suspicious-word feature ignores case. */
  lemma SuspiciousWordsIgnoreCase(url: string)
    ensures ExtractFeatures(Lower(url)).hasSuspiciousWords == ExtractFeatures(url).hasSuspiciousWords
  {
    LowerIdempotent(url);
  }

  /** The https feature does not ignore case. */
  lemma HttpsFeatureIsCaseSensitive()
    ensures ExtractFeatures("HTTPS://example.com").hasHttps == 0
    ensures ExtractFeatures(Lower("HTTPS://example.com")).hasHttps == 1
  {
    var u := "HTTPS://example.com";
    assert u[0] == 'H';
    assert Lower(u)[..5] == "https";
  }

  /** The IPv4 feature on `http://192.168.1.1/login` (1) and `https://example.com` (0). */
  lemma IpFeatureExamples()
    ensures ExtractFeatures("http://192.168.1.1/login").hasIp == 1
    ensures ExtractFeatures("https://example.com").hasIp == 0
  {
    IpShapeFound();
    IpShapeAbsent();
  }

  lemma IpShapeAbsent()
    ensures !HasIpShape("https://example.com")
  {
    var e := "https://example.com";
    assert forall k :: 0 <= k < |e| ==> !IsDigit(e[k]);
    NoDigitNoIpShape(e);
  }

  lemma IpTailMatches()
    ensures DottedDigits("1.1/login", 1)
  {
    var s := "1.1/login";
    assert DigitRun(s[2..], 1) && !IsDigit(s[3]);
    assert GroupThen(s[2..], 1, 0);
    assert GroupThen(s, 1, 1);
  }

  lemma IpMiddleMatches()
    ensures DottedDigits("168.1.1/login", 2)
  {
    var s := "168.1.1/login";
    IpTailMatches();
    assert s[4..] == "1.1/login";
    assert DigitRun(s, 3) && s[3] == '.';
    assert GroupThen(s, 3, 2);
  }

  lemma IpAddressMatches()
    ensures DottedDigits("192.168.1.1/login", 3)
  {
    var s := "192.168.1.1/login";
    IpMiddleMatches();
    assert s[4..] == "168.1.1/login";
    assert DigitRun(s, 3) && s[3] == '.';
    assert GroupThen(s, 3, 3);
  }

  lemma IpUrlTail()
    ensures "http://192.168.1.1/login"[7..] == "192.168.1.1/login"
  {
  }

  lemma IpShapeFound()
    ensures HasIpShape("http://192.168.1.1/login")
  {
    IpAddressMatches();
    IpUrlTail();
    IpShapeAt("http://192.168.1.1/login", 7);
  }

  // ---------------------------------------------------------------------
  // Typosquatting

  /** The `for brand in BRAND_NAMES` loop with its early return: some brand's
      pattern is found in `url` and `url` holds a digit anywhere. */
  predicate TyposquatAmong(url: string, brands: seq<string>)
    ensures TyposquatAmong(url, brands) ==>
      AnyDigit(url) && exists b :: b in brands && Search(BrandPattern(b), url)
  {
    brands != [] &&
    ((Search(BrandPattern(brands[0]), url) && AnyDigit(url)) || TyposquatAmong(url, brands[1..]))
  }

  /** `looks_like_typosquat(url)`; it does not lower-case its argument. */
  predicate LooksLikeTyposquat(url: string)
    ensures LooksLikeTyposquat(url) ==>
      AnyDigit(url) && exists b :: b in BrandNames && Search(BrandPattern(b), url)
  {
    TyposquatAmong(url, BrandNames)
  }

  lemma {:induction false} TyposquatAmongIff(url: string, brands: seq<string>)
    ensures TyposquatAmong(url, brands) <==> AnyDigit(url) && exists b :: b in brands && Search(BrandPattern(b), url)
  {
    if brands != [] {
      TyposquatAmongIff(url, brands[1..]);
      assert forall b :: b in brands <==> b == brands[0] || b in brands[1..];
    }
  }

  /** The window of `url` at position `i` resembles `brand`. */
  predicate ResemblesAt(url: string, brand: string, i: nat)
  {
    i + |brand| <= |url| && Resembles(url[i..i + |brand|], brand)
  }

  /** The heuristic flags `url` exactly when it holds a digit and some
      window of it resembles one of the brands. The digit need not be inside
      that window. */
  lemma TyposquatCharacterization(url: string)
    ensures LooksLikeTyposquat(url) <==>
      AnyDigit(url) &&
      exists b, i :: b in BrandNames && ResemblesAt(url, b, i)
  {
    TyposquatAmongIff(url, BrandNames);
    if LooksLikeTyposquat(url) {
      var b :| b in BrandNames && Search(BrandPattern(b), url);
      var i: nat :| i <= |url| && MatchesAt(BrandPattern(b), url, i);
      BrandPatternMeaning(b, url, i);
      assert ResemblesAt(url, b, i);
    }
    if exists b, i :: b in BrandNames && ResemblesAt(url, b, i) {
      var b, i :| b in BrandNames && ResemblesAt(url, b, i);
      BrandPatternMeaning(b, url, i);
      assert MatchesAt(BrandPattern(b), url, i);
    }
  }

  /** An unaltered brand name is flagged as soon as any digit appears in the
      URL. */
  lemma BrandWithDigitFlagged(url: string, brand: string)
    requires brand in BrandNames && Contains(url, brand) && AnyDigit(url)
    ensures LooksLikeTyposquat(url)
  {
    var i: nat :| i <= |url| && OccursAt(url, brand, i);
    BrandMatchesItself(brand, url, i);
    TyposquatAmongIff(url, BrandNames);
  }

  /** A URL without digits is never flagged. */
  lemma NoDigitNeverFlagged(url: string)
    requires !AnyDigit(url)
    ensures !LooksLikeTyposquat(url)
  {
    TyposquatAmongIff(url, BrandNames);
  }

  // ---------------------------------------------------------------------
  // Rule engine

  /** `url.lower().strip()` */
  function Normalize(url: string): (u: string)
    ensures NoUpper(u) && Trimmed(u)
    ensures exists i: nat :: StrippedAt(Lower(url), u, i)
  {
    StripKeepsNoUpper(Lower(url));
    Strip(Lower(url))
  }

  predicate HasLoopback(u: string) { Contains(u, "127.0.0.1") || Contains(u, "localhost") }

  predicate HasWebPrefix(u: string) { StartsWith(u, "http://") || StartsWith(u, "https://") || StartsWith(u, "www.") }

  /** `rule_based_check(url)`: the ordered rules, first match wins; `None`
      stands for `(None, None)`, leaving the decision to the model. */
  function RuleBasedCheck(url: string): (r: Option<(Label, real)>)
    ensures r.Some? ==> r.value.1 == RuleConfidence
  {
    var u := Normalize(url);
    if HasLoopback(u) then Some((Safe, RuleConfidence))
    else if !HasWebPrefix(u) then Some((Malicious, RuleConfidence))
    else if !EndsWithAny(u, SafeTlds) then Some((Malicious, RuleConfidence))
    else if LooksLikeTyposquat(u) then Some((Malicious, RuleConfidence))
    else if StartsWith(u, "https://") then Some((Safe, RuleConfidence))
    else if StartsWith(u, "www.") && EndsWithAny(u, SafeTlds) then Some((Safe, RuleConfidence))
    else None
  }

  /** The rule list read as a decision table: what the engine answers once
      the redundant second TLD test and the order of the prefix tests are
      taken into account. */
  function RuleTable(u: string): Option<(Label, real)>
  {
    if HasLoopback(u) then Some((Safe, RuleConfidence))
    else if !HasWebPrefix(u) || !EndsWithAny(u, SafeTlds) || LooksLikeTyposquat(u) then Some((Malicious, RuleConfidence))
    else if StartsWith(u, "http://") then None
    else Some((Safe, RuleConfidence))
  }

  lemma PrefixesExclusive(u: string)
    ensures StartsWith(u, "http://") ==> !StartsWith(u, "https://") && !StartsWith(u, "www.")
  {
    if StartsWith(u, "http://") {
      assert u[0] == "http://"[0] == 'h' && u[4] == "http://"[4] == ':';
      assert "https://"[4] == 's' && "www."[0] == 'w';
    }
  }

  lemma RuleEngineIsTable(url: string)
    ensures RuleBasedCheck(url) == RuleTable(Normalize(url))
  {
    PrefixesExclusive(Normalize(url));
  }

  /** The engine defers exactly on a lower-cased, stripped URL that has no
      loopback address, starts with plain `http://`, ends with a safe TLD
      and is not a typosquat. */
  lemma DeferralCharacterization(url: string)
    ensures RuleBasedCheck(url) == None <==>
      var u := Normalize(url);
      !HasLoopback(u) && StartsWith(u, "http://") && EndsWithAny(u, SafeTlds) && !LooksLikeTyposquat(u)
  {
    RuleEngineIsTable(url);
  }

  lemma DeferredStartsWithHttp(url: string)
    requires RuleBasedCheck(url) == None
    ensures StartsWith(Normalize(url), "http://")
  {
    RuleEngineIsTable(url);
  }

  /** Rule priority: a loopback address anywhere in the URL, in any case,
      makes it safe whatever else it holds. */
  lemma LoopbackAlwaysSafe(url: string)
    requires Contains(Lower(url), "127.0.0.1") || Contains(Lower(url), "localhost")
    ensures RuleBasedCheck(url) == Some((Safe, 100.0))
  {
    if Contains(Lower(url), "127.0.0.1") {
      StripKeepsOccurrence(Lower(url), "127.0.0.1");
    } else {
      StripKeepsOccurrence(Lower(url), "localhost");
    }
  }

  lemma BadPrefixMalicious(url: string)
    requires !HasLoopback(Normalize(url)) && !HasWebPrefix(Normalize(url))
    ensures RuleBasedCheck(url) == Some((Malicious, 100.0))
  {
  }

  lemma UnsafeTldMalicious(url: string)
    requires !HasLoopback(Normalize(url))
    requires forall t :: t in SafeTlds ==> !EndsWith(Normalize(url), t)
    ensures RuleBasedCheck(url) == Some((Malicious, 100.0))
  {
    EndsWithAnyIff(Normalize(url), SafeTlds);
  }

  /** A typosquat with a web prefix is malicious, whatever its TLD. */
  lemma TyposquatMalicious(url: string)
    requires !HasLoopback(Normalize(url)) && HasWebPrefix(Normalize(url)) && LooksLikeTyposquat(Normalize(url))
    ensures RuleBasedCheck(url) == Some((Malicious, 100.0))
  {
  }

  /** An `https://` URL with a safe TLD that no earlier rule catches is safe. */
  lemma HttpsSafe(url: string)
    requires !HasLoopback(Normalize(url)) && !LooksLikeTyposquat(Normalize(url))
    requires StartsWith(Normalize(url), "https://") && EndsWithAny(Normalize(url), SafeTlds)
    ensures RuleBasedCheck(url) == Some((Safe, 100.0))
  {
  }

  /** Normalising first changes nothing: the engine normalises itself. */
  lemma RuleEngineNormalizes(url: string)
    ensures RuleBasedCheck(Normalize(url)) == RuleBasedCheck(url)
  {
    RuleEngineIsTable(url);
    RuleEngineIsTable(Normalize(url));
    NormalizeIdempotent(url);
  }

  /** A URL that is already lower-case and trimmed is checked as it is. */
  lemma NormalizedAlready(u: string)
    requires NoUpper(u) && Trimmed(u)
    ensures Normalize(u) == u
  {
    LowerKeepsNoUpper(u);
    StripTrimmed(u);
  }

  /** A URL that is already lower-case and trimmed is decided by the table
      on the URL itself. */
  lemma DecidedByTable(u: string)
    requires NoUpper(u) && Trimmed(u)
    ensures RuleBasedCheck(u) == RuleTable(u)
  {
    RuleEngineIsTable(u);
    NormalizedAlready(u);
  }

  // Scenarios. Each fact about a literal URL is its own small lemma; the
  // scenario lemma then applies the rule it exercises.

  lemma HttpsNormal()
    ensures NoUpper("https://google.com") && Trimmed("https://google.com")
  {
  }

  lemma HttpsNoLoopback()
    ensures !HasLoopback("https://google.com")
  {
    NotContainsByChar("https://google.com", "localhost", 3);
    NotContainsByChar("https://google.com", "127.0.0.1", 0);
  }

  lemma HttpsNoDigit()
    ensures !AnyDigit("https://google.com")
  {
    var g := "https://google.com";
    assert forall k :: 0 <= k < |g| ==> !IsDigit(g[k]);
    AnyDigitIff(g);
  }

  lemma HttpsSafeTld()
    ensures StartsWith("https://google.com", "https://") && EndsWithAny("https://google.com", SafeTlds)
  {
    assert EndsWith("https://google.com", SafeTlds[0]);
  }

  /** Scenario: an https URL with a safe TLD is safe by rule. */
  lemma HttpsExample()
    ensures RuleBasedCheck("https://google.com") == Some((Safe, 100.0))
  {
    HttpsNormal();
    NormalizedAlready("https://google.com");
    HttpsNoLoopback();
    HttpsNoDigit();
    NoDigitNeverFlagged("https://google.com");
    HttpsSafeTld();
    HttpsSafe("https://google.com");
  }

  lemma NoPrefixFacts()
    ensures var f := "ftp://badsite.xyz";
      NoUpper(f) && Trimmed(f) && !HasWebPrefix(f)
  {
  }

  lemma NoPrefixNoLoopback()
    ensures !HasLoopback("ftp://badsite.xyz")
  {
    NotContainsByChar("ftp://badsite.xyz", "localhost", 0);
    NotContainsByChar("ftp://badsite.xyz", "127.0.0.1", 0);
  }

  /** Scenario: a URL without a web prefix is malicious by rule. */
  lemma NoPrefixExample()
    ensures RuleBasedCheck("ftp://badsite.xyz") == Some((Malicious, 100.0))
  {
    NoPrefixFacts();
    NormalizedAlready("ftp://badsite.xyz");
    NoPrefixNoLoopback();
    BadPrefixMalicious("ftp://badsite.xyz");
  }

  lemma UnknownTldNormal()
    ensures NoUpper("http://secure-bank-login.ru") && Trimmed("http://secure-bank-login.ru")
  {
  }

  lemma UnknownTldNoLoopback()
    ensures !HasLoopback("http://secure-bank-login.ru")
  {
    NotContainsByPair("http://secure-bank-login.ru", "localhost", 1);
    NotContainsByChar("http://secure-bank-login.ru", "127.0.0.1", 0);
  }

  lemma UnknownTldNotSafe()
    ensures forall t :: t in SafeTlds ==> !EndsWith("http://secure-bank-login.ru", t)
  {
  }

  /** Scenario: a URL with an unknown TLD is malicious by rule. */
  lemma UnknownTldExample()
    ensures RuleBasedCheck("http://secure-bank-login.ru") == Some((Malicious, 100.0))
  {
    UnknownTldNormal();
    NormalizedAlready("http://secure-bank-login.ru");
    UnknownTldNoLoopback();
    UnknownTldNotSafe();
    UnsafeTldMalicious("http://secure-bank-login.ru");
  }

  lemma DeferredNormal()
    ensures NoUpper("http://paypal-login.com") && Trimmed("http://paypal-login.com")
  {
  }

  lemma DeferredNoLoopback()
    ensures !HasLoopback("http://paypal-login.com")
  {
    NotContainsByChar("http://paypal-login.com", "localhost", 7);
    NotContainsByChar("http://paypal-login.com", "127.0.0.1", 0);
  }

  lemma DeferredNoDigit()
    ensures !AnyDigit("http://paypal-login.com")
  {
    var p := "http://paypal-login.com";
    assert forall k :: 0 <= k < |p| ==> !IsDigit(p[k]);
    AnyDigitIff(p);
  }

  lemma DeferredSafeTld()
    ensures StartsWith("http://paypal-login.com", "http://") && EndsWithAny("http://paypal-login.com", SafeTlds)
  {
    assert EndsWith("http://paypal-login.com", SafeTlds[0]);
  }

  lemma SuspiciousWordFound()
    ensures ExtractFeatures("http://paypal-login.com").hasSuspiciousWords == 1
  {
    var p := "http://paypal-login.com";
    DeferredNormal();
    LowerKeepsNoUpper(p);
    assert OccursAt(p, "login", 14);
    assert "login" in MaliciousWords;
  }

  /** Scenario: a plain http URL with a safe TLD and no digits goes to the
      model, with the suspicious-word feature set. */
  lemma DeferredExample()
    ensures RuleBasedCheck("http://paypal-login.com") == None
    ensures ExtractFeatures("http://paypal-login.com").hasSuspiciousWords == 1
  {
    DeferredNormal();
    NormalizedAlready("http://paypal-login.com");
    DeferredNoLoopback();
    DeferredNoDigit();
    NoDigitNeverFlagged("http://paypal-login.com");
    DeferredSafeTld();
    DeferralCharacterization("http://paypal-login.com");
    SuspiciousWordFound();
  }

  lemma TyposquatNormal()
    ensures NoUpper("http://g00gle.com") && Trimmed("http://g00gle.com") && HasWebPrefix("http://g00gle.com")
  {
  }

  lemma TyposquatNoLoopback()
    ensures !HasLoopback("http://g00gle.com")
  {
    NotContainsByChar("http://g00gle.com", "localhost", 3);
    NotContainsByChar("http://g00gle.com", "127.0.0.1", 1);
  }

  lemma TyposquatFlagged()
    ensures LooksLikeTyposquat("http://g00gle.com")
  {
    var t := "http://g00gle.com";
    assert MatchesAt(BrandPattern(BrandNames[0]), t, 7);
    assert IsDigit(t[8]);
    AnyDigitIff(t);
  }

  /** Scenario: a digit standing in for a vowel of a brand is malicious by
      the typosquat rule. */
  lemma TyposquatExample()
    ensures RuleBasedCheck("http://g00gle.com") == Some((Malicious, 100.0))
  {
    TyposquatNormal();
    NormalizedAlready("http://g00gle.com");
    TyposquatNoLoopback();
    TyposquatFlagged();
    TyposquatMalicious("http://g00gle.com");
  }

  lemma TrailingDigitNormal()
    ensures NoUpper("http://g00gle.com1") && Trimmed("http://g00gle.com1")
  {
  }

  lemma TrailingDigitNoLoopback()
    ensures !HasLoopback("http://g00gle.com1")
  {
    NotContainsByChar("http://g00gle.com1", "localhost", 3);
    NotContainsByChar("http://g00gle.com1", "127.0.0.1", 1);
  }

  lemma TrailingDigitNotSafe()
    ensures forall t :: t in SafeTlds ==> !EndsWith("http://g00gle.com1", t)
  {
  }

  /** Scenario: with a digit after the TLD, a digit-substituted brand is
      caught by the TLD rule, before the typosquat rule is reached. */
  lemma TrailingDigitExample()
    ensures !EndsWithAny("http://g00gle.com1", SafeTlds)
    ensures RuleBasedCheck("http://g00gle.com1") == Some((Malicious, 100.0))
  {
    TrailingDigitNormal();
    NormalizedAlready("http://g00gle.com1");
    TrailingDigitNoLoopback();
    TrailingDigitNotSafe();
    EndsWithAnyIff("http://g00gle.com1", SafeTlds);
    UnsafeTldMalicious("http://g00gle.com1");
  }

  lemma DigitElsewhereNormal()
    ensures NoUpper("https://news1.google.com") && Trimmed("https://news1.google.com")
    ensures HasWebPrefix("https://news1.google.com")
  {
  }

  lemma DigitElsewhereNoLoopback()
    ensures !HasLoopback("https://news1.google.com")
  {
    NotContainsByChar("https://news1.google.com", "localhost", 3);
    NotContainsByChar("https://news1.google.com", "127.0.0.1", 1);
  }

  lemma DigitElsewhereFlagged()
    ensures LooksLikeTyposquat("https://news1.google.com")
  {
    var g := "https://news1.google.com";
    assert OccursAt(g, "google", 14);
    assert IsDigit(g[12]);
    AnyDigitIff(g);
    BrandWithDigitFlagged(g, "google");
  }

  /** Scenario: the brand's own host name is flagged once a digit appears
      anywhere else in the URL, even over `https://` with a safe TLD. */
  lemma DigitElsewhereExample()
    ensures EndsWithAny("https://news1.google.com", SafeTlds)
    ensures RuleBasedCheck("https://news1.google.com") == Some((Malicious, 100.0))
  {
    assert EndsWith("https://news1.google.com", SafeTlds[0]);
    DigitElsewhereNormal();
    NormalizedAlready("https://news1.google.com");
    DigitElsewhereNoLoopback();
    DigitElsewhereFlagged();
    TyposquatMalicious("https://news1.google.com");
  }

  // ---------------------------------------------------------------------
  // The /predict decision logic

  datatype RequestError = NoUrlProvided

  /** The JSON response: the stripped URL, the label, the confidence and the
      feature dictionary (empty when a rule decided). */
  datatype Verdict = Verdict(url: string, prediction: Label, confidence: real, features: map<string, nat>)

  /** `"malicious" if prediction == 1 else "safe"` */
  function LabelOfClass(prediction: nat): (l: Label)
    ensures l == Malicious <==> prediction == 1
  {
    if prediction == 1 then Malicious else Safe
  }

  /** `predict()` on the request's JSON object `data`. `classify` stands for
      `model.predict(df)[0]` and `confidenceOf` for the rounded percentage
      `model.predict_proba(df)[0][prediction] * 100`, both on the one-row
      frame built from the features. */
  function Predict(data: map<string, string>, classify: seq<nat> -> nat, confidenceOf: seq<nat> -> real)
    : (r: Result<Verdict, RequestError>)
    ensures r.Failure? <==> "url" !in data
    ensures r.Success? ==> r.value.url == Strip(data["url"])
    ensures r.Success? ==> (r.value.features == map[] <==> RuleBasedCheck(r.value.url).Some?)
  {
    if "url" !in data then Failure(NoUrlProvided)
    else
      var url := Strip(data["url"]);
      match RuleBasedCheck(url)
      case Some(decided) => Success(Verdict(url, decided.0, decided.1, map[]))
      case None =>
        var features := ExtractFeatures(url);
        var row := Row(features);
        assert "length" in AsMap(features) by { assert FeatureNames[0] == "length"; }
        Success(Verdict(url, LabelOfClass(classify(row)), confidenceOf(row), AsMap(features)))
  }

  /** A rule verdict is returned as it is, with confidence 100 and no
      features. */
  lemma PredictRulePath(data: map<string, string>, classify: seq<nat> -> nat, confidenceOf: seq<nat> -> real)
    requires "url" in data && RuleBasedCheck(Strip(data["url"])).Some?
    ensures Predict(data, classify, confidenceOf) ==
      Success(Verdict(Strip(data["url"]), RuleBasedCheck(Strip(data["url"])).value.0, 100.0, map[]))
  {
  }

  /** Otherwise the features are those of the stripped (not lower-cased)
      URL, and the label is malicious exactly when the class index is 1. */
  lemma PredictModelPath(data: map<string, string>, classify: seq<nat> -> nat, confidenceOf: seq<nat> -> real)
    requires "url" in data && RuleBasedCheck(Strip(data["url"])).None?
    ensures var f := ExtractFeatures(Strip(data["url"]));
      var v := Predict(data, classify, confidenceOf).value;
      v.features == AsMap(f) && (v.prediction == Malicious <==> classify(Row(f)) == 1) &&
      v.confidence == confidenceOf(Row(f))
  {
  }

  /** On the model path `has_https` is always 0: the engine only defers on
      URLs that start with `http://`, and the stripped URL differs from its
      lower-cased form only in letters. */
  lemma ModelPathHasNoHttps(raw: string)
    requires RuleBasedCheck(Strip(raw)).None?
    ensures ExtractFeatures(Strip(raw)).hasHttps == 0
  {
    var url := Strip(raw);
    DeferredStartsWithHttp(url);
    LowerKeepsTrimmed(url);
    StripTrimmed(Lower(url));
    LowerHttpPrefix(url);
  }

  /** Lower-casing maps only letters to letters, so a string whose
      lower-cased form starts with `http://` does not start with `https`. */
  lemma LowerHttpPrefix(url: string)
    requires StartsWith(Lower(url), "http://")
    ensures !StartsWith(url, "https")
  {
    var low := Lower(url);
    assert low[4] == "http://"[4];
    assert low[4] == LowerChar(url[4]);
  }
}
