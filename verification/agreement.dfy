/** How the training script and the serving code fit together: the two
    copies of the feature extractor compute the same record, the label
    encodings are inverse, and every URL the generators can produce is
    decided by the rule engine with the label the generator gave it. */
module Agreement {
  import opened Wrappers
  import opened Text
  import opened Schema
  import opened Patterns
  import App
  import Train

  // ---------------------------------------------------------------------
  // Shared vocabulary

  lemma WordListsAgree()
    ensures Train.MaliciousWords == App.MaliciousWords
  {
  }

  /** The model is trained on exactly the features it is queried with. */
  lemma FeatureParity(url: string)
    ensures Train.ExtractFeatures(url) == App.ExtractFeatures(url)
    ensures Row(Train.ExtractFeatures(url)) == Row(App.ExtractFeatures(url))
  {
  }

  /** Every TLD a safe training URL ends with passes the serving TLD rule,
      and no bad one does; the serving list also accepts `.gov`, which
      training never produces. */
  lemma TrainingTldsServed()
    ensures forall t :: t in Train.SafeTlds ==> t in App.SafeTlds
    ensures ".gov" in App.SafeTlds && ".gov" !in Train.SafeTlds
    ensures forall b :: b in Train.BadTlds ==> b !in App.SafeTlds
  {
  }

  /** Encoding a label for training and decoding the model's class at
      serving time give back the label. */
  lemma LabelRoundTrip(l: Label)
    ensures App.LabelOfClass(Train.LabelCode(l)) == l
  {
  }

  lemma ClassRoundTrip(prediction: nat)
    requires prediction <= 1
    ensures Train.LabelCode(App.LabelOfClass(prediction)) == prediction
  {
  }

  // ---------------------------------------------------------------------
  // The characters a generated URL is made of

  /** Lower-case letters, digits and the punctuation `.`, `/`, `:`, `-`. */
  predicate Plain(s: string)
  {
    forall k :: 0 <= k < |s| ==> IsLowerLetter(s[k]) || IsDigit(s[k]) || s[k] in "./:-"
  }

  lemma {:induction false} PlainConcat(a: string, b: string)
    requires Plain(a) && Plain(b)
    ensures Plain(a + b)
  {
    forall k | 0 <= k < |a + b|
      ensures IsLowerLetter((a + b)[k]) || IsDigit((a + b)[k]) || (a + b)[k] in "./:-"
    {
      if k < |a| { assert (a + b)[k] == a[k]; } else { assert (a + b)[k] == b[k - |a|]; }
    }
  }

  /** Two plain strings without digits join into one. */
  lemma JoinPlain(a: string, b: string)
    requires Plain(a) && !AnyDigit(a) && Plain(b) && !AnyDigit(b)
    ensures Plain(a + b) && !AnyDigit(a + b)
  {
    PlainConcat(a, b);
    AnyDigitConcat(a, b);
  }

  /** The URL prefixes the generators write are plain, digit-free and start
      with a letter. */
  lemma PrefixPlain(p: string)
    requires p == "https://" || p == "www." || p == "http://"
    ensures Plain(p) && !AnyDigit(p) && p != [] && IsAlnum(p[0])
  {
    AnyDigitIff(p);
    if p == "https://" {
      assert forall k :: 0 <= k < |p| ==> p[k] in "htps:/";
    } else if p == "http://" {
      assert forall k :: 0 <= k < |p| ==> p[k] in "htp:/";
    }
  }

  lemma DashPlain()
    ensures Plain("-") && !AnyDigit("-")
  {
  }

  /** A plain string has nothing for `lower()` to change, and if it starts
      and ends with a letter or digit, nothing for `strip()` to remove. */
  lemma PlainIsNormal(s: string)
    requires Plain(s) && s != [] && IsAlnum(s[0]) && IsAlnum(s[|s| - 1])
    ensures NoUpper(s) && Trimmed(s)
  {
  }

  lemma LettersArePlain(s: string)
    requires AllLowerLetters(s)
    ensures Plain(s) && !AnyDigit(s)
  {
    LowerLettersHaveNoDigit(s);
  }

  /** A dot followed by letters, as every TLD the generators use is. */
  lemma TldIsPlain(t: string)
    requires 2 <= |t| <= 6 && t[0] == '.' && forall k :: 1 <= k < |t| ==> IsLowerLetter(t[k])
    ensures Plain(t) && !AnyDigit(t) && IsAlnum(t[|t| - 1]) && |t[1..]| < 9 && t == ['.'] + t[1..]
  {
    AnyDigitIff(t);
  }

  /** A loopback address holds a digit; a string without one has none. */
  lemma NoDigitNoLoopbackAddress(s: string)
    requires !AnyDigit(s)
    ensures !Contains(s, "127.0.0.1")
  {
    if Contains(s, "127.0.0.1") {
      ContainsDigit(s, "127.0.0.1");
    }
  }

  /** None of the safe domains contains `localhost`: all but two lack an
      `h`, and those two lack an `l`. */
  lemma DomainHasNoLocalhost(domain: nat)
    requires domain < |Train.SafeDomains|
    ensures !Contains(Train.SafeDomains[domain], "localhost")
  {
    var d := Train.SafeDomains[domain];
    if domain == 3 || domain == 5 {
      assert 'l' !in d;
      NotContainsByChar(d, "localhost", 0);
    } else {
      assert 'h' !in d by {
        if domain == 0 { assert d == "google"; }
        else if domain == 1 { assert d == "amazon"; }
        else if domain == 2 { assert d == "wikipedia"; }
        else if domain == 4 { assert d == "mit"; }
        else if domain == 6 { assert d == "stackoverflow"; }
        else if domain == 7 { assert d == "microsoft"; }
        else if domain == 8 { assert d == "apple"; }
        else { assert d == "netflix"; }
      }
      NotContainsByChar(d, "localhost", 5);
    }
  }

  /** `localhost` holds none of the separators a generated URL is cut at,
      so it occurs across a separator only if it occurs on one side. */
  lemma SplitAvoidsLocalhost(a: string, c: char, b: string)
    requires c in "./-" && !Contains(a, "localhost") && !Contains(b, "localhost")
    ensures !Contains(a + [c] + b, "localhost")
  {
    if Contains(a + [c] + b, "localhost") {
      ContainsSplit(a, c, b, "localhost");
    }
  }

  // ---------------------------------------------------------------------
  // Safe training URLs

  lemma SafeUrlIsPlain(p: string, d: string, t: string)
    requires p == "https://" || p == "www."
    requires AllLowerLetters(d) && (t in Train.SafeTlds || t in Train.BadTlds)
    ensures Plain(p + d + t) && !AnyDigit(p + d + t) && NoUpper(p + d + t) && Trimmed(p + d + t)
  {
    LettersArePlain(d);
    Train.TldIsLowerCase(t);
    TldIsPlain(t);
    PrefixPlain(p);
    JoinPlain(p, d);
    JoinPlain(p + d, t);
    var u := p + d + t;
    assert u[0] == p[0] && u[|u| - 1] == t[|t| - 1];
    PlainIsNormal(u);
  }

  lemma SafeHostHasNoLocalhost(domain: nat, tld: nat)
    requires domain < |Train.SafeDomains| && tld < |Train.SafeTlds|
    ensures !Contains(Train.SafeDomains[domain] + Train.SafeTlds[tld], "localhost")
  {
    var d := Train.SafeDomains[domain];
    var t := Train.SafeTlds[tld];
    Train.TldIsLowerCase(t);
    TldIsPlain(t);
    DomainHasNoLocalhost(domain);
    SplitAvoidsLocalhost(d, '.', t[1..]);
    assert d + t == d + ['.'] + t[1..];
  }

  /** Neither safe-URL prefix brings `localhost` in front of a host
      without one. */
  lemma SafePrefixNoLocalhost(p: string, h: string)
    requires p == "https://" || p == "www."
    requires !Contains(h, "localhost")
    ensures !Contains(p + h, "localhost")
  {
    if p == "https://" {
      SplitAvoidsLocalhost("https:/", '/', h);
      assert p + h == "https:/" + ['/'] + h;
    } else {
      SplitAvoidsLocalhost("www", '.', h);
      assert p + h == "www" + ['.'] + h;
    }
  }

  lemma SafeUrlHasNoLocalhost(coin: bool, domain: nat, tld: nat)
    requires domain < |Train.SafeDomains| && tld < |Train.SafeTlds|
    ensures !Contains(Train.GenerateSafeUrl(coin, domain, tld), "localhost")
  {
    var p := if coin then "https://" else "www.";
    var d := Train.SafeDomains[domain];
    var t := Train.SafeTlds[tld];
    SafeHostHasNoLocalhost(domain, tld);
    SafePrefixNoLocalhost(p, d + t);
    assert Train.GenerateSafeUrl(coin, domain, tld) == p + (d + t);
  }

  /** Every URL `generate_safe_url` can produce is judged safe by the rule
      engine, so the classifier is never asked about one. */
  lemma GeneratedSafeUrlRuledSafe(coin: bool, domain: nat, tld: nat)
    requires domain < |Train.SafeDomains| && tld < |Train.SafeTlds|
    ensures App.RuleBasedCheck(Train.GenerateSafeUrl(coin, domain, tld)) == Some((Safe, 100.0))
  {
    var u := Train.GenerateSafeUrl(coin, domain, tld);
    Train.DomainIsLowerCase(domain);
    SafeUrlIsPlain(if coin then "https://" else "www.", Train.SafeDomains[domain], Train.SafeTlds[tld]);
    NoDigitNoLoopbackAddress(u);
    SafeUrlHasNoLocalhost(coin, domain, tld);
    App.DecidedByTable(u);
    EndsWithAnyIff(u, App.SafeTlds);
    assert Train.SafeTlds[tld] in App.SafeTlds;
    App.NoDigitNeverFlagged(u);
    App.PrefixesExclusive(u);
  }

  // ---------------------------------------------------------------------
  // Malicious training URLs

  lemma LeadCharDiffers(u: string, t: string)
    requires t != [] && |t| <= |u| && u[|u| - |t|] != t[0]
    ensures !EndsWith(u, t)
  {
    assert u[|u| - |t|..][0] == u[|u| - |t|];
  }

  lemma EndCharsDiffer(u: string, t: string)
    requires 2 <= |t| && 2 <= |u| && (u[|u| - 1] != t[|t| - 1] || u[|u| - 2] != t[|t| - 2])
    ensures !EndsWith(u, t)
  {
    if |t| <= |u| {
      assert u[|u| - |t|..][|t| - 1] == u[|u| - 1];
      assert u[|u| - |t|..][|t| - 2] == u[|u| - 2];
    }
  }

  /** A URL ending in a word of at least four letters ends in no safe TLD:
      every safe TLD is at most four characters and starts with a dot. */
  lemma WordEndingNotSafeTld(x: string, w: string)
    requires AllLowerLetters(w) && 4 <= |w|
    ensures !EndsWithAny(x + w, App.SafeTlds)
  {
    var u := x + w;
    EndsWithAnyIff(u, App.SafeTlds);
    forall t | t in App.SafeTlds ensures !EndsWith(u, t) {
      assert 2 <= |t| <= 4 && t[0] == '.';
      assert u[|u| - |t|] == w[|w| - |t|];
      LeadCharDiffers(u, t);
    }
  }

  /** The last two characters of a bad TLD are the last two of no safe
      TLD, so a URL ending in a bad TLD ends in no safe one. */
  lemma BadTldNotSafeTld(x: string, b: string)
    requires b in Train.BadTlds
    ensures !EndsWithAny(x + b, App.SafeTlds)
  {
    var u := x + b;
    BadTldEndings(b);
    assert u[|u| - 1] == b[|b| - 1] && u[|u| - 2] == b[|b| - 2];
    NoSafeTldEnding(u);
  }

  /** Bad TLDs end in `z`, `k`, `o`, `p`, or `u` after an `r`. */
  lemma BadTldEndings(b: string)
    requires b in Train.BadTlds
    ensures 2 <= |b|
    ensures BadEnding(b[|b| - 1], b[|b| - 2])
  {
  }

  predicate BadEnding(e: char, f: char)
  {
    e == 'z' || e == 'k' || e == 'o' || e == 'p' || (e == 'u' && f == 'r')
  }

  /** Safe TLDs end in `m`, `g`, `n`, `t`, `v`, or `u` after a `d`, so a
      URL ending in a bad TLD's last two characters ends in none of them. */
  lemma NoSafeTldEnding(u: string)
    requires 2 <= |u| && BadEnding(u[|u| - 1], u[|u| - 2])
    ensures !EndsWithAny(u, App.SafeTlds)
  {
    forall i | 0 <= i < |App.SafeTlds| ensures !EndsWith(u, App.SafeTlds[i]) {
      EndCharsDiffer(u, App.SafeTlds[i]);
    }
    NoneEndsWith(u, App.SafeTlds);
  }

  lemma {:induction false} NoneEndsWith(u: string, ts: seq<string>)
    requires forall i :: 0 <= i < |ts| ==> !EndsWith(u, ts[i])
    ensures !EndsWithAny(u, ts)
  {
    if ts != [] {
      NoneEndsWith(u, ts[1..]);
    }
  }

  /** The IP branch, `http://` + address + `/` + word, is already
      normalised. */
  lemma IpUrlIsNormal(q: string, w: string)
    requires Plain(q) && AllLowerLetters(w) && w != []
    ensures NoUpper("http://" + q + "/" + w) && Trimmed("http://" + q + "/" + w)
  {
    LettersArePlain(w);
    PlainConcat("http://", q);
    PlainConcat("http://" + q, "/");
    PlainConcat("http://" + q + "/", w);
    var u := "http://" + q + "/" + w;
    assert u[0] == 'h' && u[|u| - 1] == w[|w| - 1];
    PlainIsNormal(u);
  }

  /** A dotted quad without a `.0` pair holds neither loopback name. */
  lemma AddressHasNoLoopback(q: string)
    requires forall k :: 0 <= k < |q| ==> IsDigit(q[k]) || q[k] == '.'
    requires !HasPair(q, '.', '0')
    ensures !App.HasLoopback("http:/" + ['/'] + q)
  {
    assert 'l' !in q;
    NotContainsByChar(q, "localhost", 0);
    NotContainsByPair(q, "127.0.0.1", 3);
    SplitAvoidsLocalhost("http:/", '/', q);
    if Contains("http:/" + ['/'] + q, "127.0.0.1") { ContainsSplit("http:/", '/', q, "127.0.0.1"); }
  }

  lemma IpUrlNoLoopback(q: string, w: string)
    requires forall k :: 0 <= k < |q| ==> IsDigit(q[k]) || q[k] == '.'
    requires !HasPair(q, '.', '0')
    requires AllLowerLetters(w) && |w| < 9
    ensures !App.HasLoopback("http://" + q + "/" + w)
  {
    AddressHasNoLoopback(q);
    assert "http://" + q == "http:/" + ['/'] + q;
    LettersArePlain(w);
    NoDigitNoLoopbackAddress(w);
    var u := "http://" + q + "/" + w;
    assert u == ("http://" + q) + ['/'] + w;
    if Contains(u, "localhost") { ContainsSplit("http://" + q, '/', w, "localhost"); }
    if Contains(u, "127.0.0.1") { ContainsSplit("http://" + q, '/', w, "127.0.0.1"); }
  }

  /** The IP branch: `http://a.b.c.d/word`. */
  lemma IpUrlFacts(a: Train.Octet, b: Train.Octet, c: Train.Octet, d: Train.Octet, word: nat)
    requires word < |Train.MaliciousWords|
    ensures var u := "http://" + Train.DottedQuad(a, b, c, d) + "/" + Train.MaliciousWords[word];
      NoUpper(u) && Trimmed(u) && !App.HasLoopback(u) && !EndsWithAny(u, App.SafeTlds)
  {
    var q := Train.DottedQuad(a, b, c, d);
    var w := Train.MaliciousWords[word];
    Train.WordIsLowerCase(word);
    assert Plain(q);
    IpUrlIsNormal(q, w);
    IpUrlNoLoopback(q, w);
    WordEndingNotSafeTld("http://" + q + "/", w);
  }

  /** The other branch, `http://` + letters + `-` + word + bad TLD, is
      already lower-case and trimmed and holds no digit. */
  lemma WordUrlPlain(r: string, w: string, t: string)
    requires AllLowerLetters(r) && AllLowerLetters(w) && t in Train.BadTlds
    ensures var u := "http://" + r + "-" + w + t;
      NoUpper(u) && Trimmed(u) && !AnyDigit(u)
  {
    LettersArePlain(r);
    LettersArePlain(w);
    Train.TldIsLowerCase(t);
    TldIsPlain(t);
    PrefixPlain("http://");
    DashPlain();
    JoinPlain("http://", r);
    JoinPlain("http://" + r, "-");
    JoinPlain("http://" + r + "-", w);
    JoinPlain("http://" + r + "-" + w, t);
    var u := "http://" + r + "-" + w + t;
    assert u[0] == 'h' && u[|u| - 1] == t[|t| - 1];
    PlainIsNormal(u);
  }

  lemma WordUrlNoLocalhost(r: string, w: string, t: string)
    requires |r| < 9 && |w| < 9 && t in Train.BadTlds
    ensures !Contains("http://" + r + "-" + w + t, "localhost")
  {
    Train.TldIsLowerCase(t);
    TldIsPlain(t);
    SplitAvoidsLocalhost("http:/", '/', r);
    assert "http://" + r == "http:/" + ['/'] + r;
    SplitAvoidsLocalhost(w, '.', t[1..]);
    assert w + t == w + ['.'] + t[1..];
    SplitAvoidsLocalhost("http://" + r, '-', w + t);
    assert "http://" + r + "-" + w + t == ("http://" + r) + ['-'] + (w + t);
  }

  /** The other branch: `http://letters-word.badtld`. */
  lemma WordUrlFacts(letters: seq<Train.LetterChoice>, word: nat, badTld: nat)
    requires |letters| == 6 && word < |Train.MaliciousWords| && badTld < |Train.BadTlds|
    ensures var u := "http://" + Train.RandomString(6, letters) + "-" + Train.MaliciousWords[word] + Train.BadTlds[badTld];
      NoUpper(u) && Trimmed(u) && !App.HasLoopback(u) && !EndsWithAny(u, App.SafeTlds)
  {
    var r := Train.RandomString(6, letters);
    var w := Train.MaliciousWords[word];
    var t := Train.BadTlds[badTld];
    Train.WordIsLowerCase(word);
    WordUrlPlain(r, w, t);
    NoDigitNoLoopbackAddress("http://" + r + "-" + w + t);
    WordUrlNoLocalhost(r, w, t);
    BadTldNotSafeTld("http://" + r + "-" + w, t);
  }

  /** Every URL `generate_malicious_url` can produce is judged malicious by
      the rule engine: an IP-address URL ends in a word rather than a safe
      TLD, and the other kind ends in a bad TLD. */
  lemma GeneratedMaliciousUrlRuledMalicious(
    useIp: bool, a: Train.Octet, b: Train.Octet, c: Train.Octet, d: Train.Octet,
    letters: seq<Train.LetterChoice>, word: nat, badTld: nat)
    requires word < |Train.MaliciousWords| && badTld < |Train.BadTlds|
    requires !useIp ==> |letters| == 6
    ensures App.RuleBasedCheck(Train.GenerateMaliciousUrl(useIp, a, b, c, d, letters, word, badTld))
      == Some((Malicious, 100.0))
  {
    var u := Train.GenerateMaliciousUrl(useIp, a, b, c, d, letters, word, badTld);
    if useIp {
      IpUrlFacts(a, b, c, d, word);
    } else {
      WordUrlFacts(letters, word, badTld);
    }
    App.DecidedByTable(u);
  }

  lemma DotAssoc(x: string, y: string, t: string)
    ensures x + "." + y + t == x + "." + (y + t)
  {
  }

  /** A dotted quad followed by anything is what the IPv4 pattern matches. */
  lemma DottedQuadMatches(a: Train.Octet, b: Train.Octet, c: Train.Octet, d: Train.Octet, t: string)
    ensures DottedDigits(Train.DottedQuad(a, b, c, d) + t, 3)
  {
    var da, db, dc, dd := Decimal(a), Decimal(b), Decimal(c), Decimal(d);
    GroupInFront(dd, t, 0);
    DotGroup(dc, dd + t, 0);
    DotGroup(db, dc + "." + (dd + t), 1);
    DotGroup(da, db + "." + (dc + "." + (dd + t)), 2);
    DotAssoc(dc, dd, t);
    DotAssoc(db, dc + "." + dd, t);
    DotAssoc(da, db + "." + (dc + "." + dd), t);
  }

  /** The IP branch matches the IPv4 pattern right after `http://`. */
  lemma IpUrlHasIpShape(a: Train.Octet, b: Train.Octet, c: Train.Octet, d: Train.Octet, w: string)
    ensures HasIpShape("http://" + Train.DottedQuad(a, b, c, d) + "/" + w)
  {
    var q := Train.DottedQuad(a, b, c, d);
    DottedQuadMatches(a, b, c, d, "/" + w);
    assert "http://" + q + "/" + w == "http://" + (q + ("/" + w));
    IpShapeInSuffix("http://", q + ("/" + w));
  }

  lemma IpUrlFeatures(a: Train.Octet, b: Train.Octet, c: Train.Octet, d: Train.Octet, word: nat)
    requires word < |Train.MaliciousWords|
    ensures var f := App.ExtractFeatures("http://" + Train.DottedQuad(a, b, c, d) + "/" + Train.MaliciousWords[word]);
      f.hasHttps == 0 && f.hasSuspiciousWords == 1 && f.hasIp == 1
  {
    var q := Train.DottedQuad(a, b, c, d);
    var w := Train.MaliciousWords[word];
    var u := "http://" + q + "/" + w;
    IpUrlFacts(a, b, c, d, word);
    assert u[4] == ':';
    IpUrlHasIpShape(a, b, c, d, w);
    assert OccursAt(w, w, 0);
    ContainsInSuffix("http://" + q + "/", w, w);
    LowerKeepsNoUpper(u);
    assert w in App.MaliciousWords;
  }

  lemma WordUrlFeatures(letters: seq<Train.LetterChoice>, word: nat, badTld: nat)
    requires |letters| == 6 && word < |Train.MaliciousWords| && badTld < |Train.BadTlds|
    ensures var f := App.ExtractFeatures("http://" + Train.RandomString(6, letters) + "-" + Train.MaliciousWords[word] + Train.BadTlds[badTld]);
      f.hasHttps == 0 && f.hasSuspiciousWords == 1
  {
    var r := Train.RandomString(6, letters);
    var w := Train.MaliciousWords[word];
    var t := Train.BadTlds[badTld];
    var u := "http://" + r + "-" + w + t;
    WordUrlFacts(letters, word, badTld);
    assert u[4] == ':';
    assert OccursAt(w, w, 0);
    ContainsInSuffix("http://" + r + "-", w, w);
    ContainsInPrefix("http://" + r + "-" + w, t, w);
    LowerKeepsNoUpper(u);
    assert w in App.MaliciousWords;
  }

  /** What the served feature extractor reports on a malicious training
      URL: no `https`, a suspicious word, and for the IP branch the IPv4
      flag. */
  lemma MaliciousUrlFeatures(
    useIp: bool, a: Train.Octet, b: Train.Octet, c: Train.Octet, d: Train.Octet,
    letters: seq<Train.LetterChoice>, word: nat, badTld: nat)
    requires word < |Train.MaliciousWords| && badTld < |Train.BadTlds|
    requires !useIp ==> |letters| == 6
    ensures var f := App.ExtractFeatures(Train.GenerateMaliciousUrl(useIp, a, b, c, d, letters, word, badTld));
      f.hasHttps == 0 && f.hasSuspiciousWords == 1 && (useIp ==> f.hasIp == 1)
  {
    if useIp {
      IpUrlFeatures(a, b, c, d, word);
    } else {
      WordUrlFeatures(letters, word, badTld);
    }
  }
}
