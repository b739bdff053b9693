# Phishing URL detector — a Dafny model

This project models the URL classifier of the phishing detector: the Flask
service `phishing_detector/backend/app.py` and the training script
`phishing_detector/backend/train.py`. Everything modelled is pure, so the
model is made of datatypes, functions and lemmas.

The serving side has four parts:

- **`extract_features`** maps a URL to seven numbers:
  - the length;
  - the counts of digits, of non-alphanumeric characters and of dots;
  - three 0/1 flags: the URL starts with `https`, it holds a dotted
    IPv4-like shape, it holds a suspicious word.
- **`looks_like_typosquat`** flags a URL when some brand name appears in
  it with its vowels possibly replaced by vowels or digits, and the URL
  holds a digit anywhere.
- **`rule_based_check`** lower-cases and strips the URL, then runs an
  ordered, first-match-wins list of rules: loopback, web prefix, safe TLD,
  typosquat, `https://`, `www.`. When no rule fires it defers to the
  trained model.
- **`predict`** strips the request's URL. A rule verdict is returned with
  confidence 100 and no features. Otherwise the classifier is asked about
  the feature row.

The training side has the synthetic URL generators, a second copy of the
feature extractor, and the label encoding. Every random choice a generator
makes is an argument of the Dafny function: the coin flip, the list
indices, the six letters and the four octets.

Modules, one per file:

- `Wrappers` (`wrappers.dfy`): `Option` and `Result`.
- `Text` (`text.dfy`): the Python string operations the code uses, on
  ASCII: `isdigit`, `isalnum`, `lower`, `strip`, `startswith`, `endswith`,
  `in`, `count`, `str(n)`.
- `Schema` (`schema.dfy`): the labels and the seven-field feature record,
  with its dictionary and one-row frame forms.
- `Patterns` (`patterns.dfy`): the two regular expressions, written out as
  the strings they match. These are the IPv4 shape `(\d{1,3}\.){3}\d{1,3}`
  and the per-brand pattern `[aeiou]` → `[aeiou0-9]`.
- `App` (`app.dfy`): the serving code.
- `Train` (`train.dfy`): the training script's pure functions.
- `Agreement` (`agreement.dfy`): how the two sides fit together. The
  feature extractors agree, the label maps are inverse, and the rule
  engine decides every generated URL with the label the training script
  gives it.

The main results:

- `App.RuleEngineIsTable` turns the ordered rules into a four-way
  decision table. It shows that the TLD test in the `www.` rule is always
  true when reached. It also shows that the engine defers exactly on plain
  `http://` URLs with a safe TLD, no loopback name and no typosquat
  (`App.DeferralCharacterization`).
- `App.TyposquatCharacterization` characterises the typosquat heuristic.
  The digit that corroborates a brand match may sit anywhere in the URL:
  `App.DigitElsewhereExample` shows `https://news1.google.com` judged
  malicious.
- `Agreement.GeneratedSafeUrlRuledSafe` and
  `Agreement.GeneratedMaliciousUrlRuledMalicious` show that the rule
  engine decides every URL the generators can produce, with the
  generator's own label. The classifier is never consulted on a URL from
  the training distribution.

## Model

| member | source | states |
|---|---|---|
| Text.Lower | phishing_detector/backend/app.py:46 | `lower()` keeps the length and maps each character by ASCII lower-casing |
| Text.LowerIdempotent | phishing_detector/backend/app.py:46 | a lower-cased string has no upper case and lower-casing it again changes nothing |
| Text.Strip | phishing_detector/backend/app.py:81 | `strip()` returns the contiguous slice left after removing whitespace at both ends, and that slice starts and ends with non-whitespace |
| Text.StripTrimmed | phishing_detector/backend/app.py:81 | stripping a string that already has no whitespace at either end returns it unchanged |
| Text.NormalizeIdempotent | phishing_detector/backend/app.py:46 | `url.lower().strip()` applied twice gives the same string as applied once |
| Text.EndsWithAny | phishing_detector/backend/app.py:57 | `any(url.endswith(t) for t in tlds)`, defined as the generator runs: the first suffix ends the URL or one of the rest does; its meaning is proved in `Text.EndsWithAnyIff` |
| Text.EndsWithAnyIff | phishing_detector/backend/app.py:57 | `any(url.endswith(t) for t in tlds)` holds iff some listed suffix ends the URL |
| Text.ContainsAny | phishing_detector/backend/app.py:30 | `any(w in s for w in words)`, defined as the generator runs: the first word occurs or one of the rest does; its meaning is proved in `Text.ContainsAnyIff` |
| Text.ContainsAnyIff | phishing_detector/backend/app.py:30 | `any(w in s for w in words)` holds iff some listed word occurs in `s` |
| Text.ContainsSplit | phishing_detector/backend/app.py:49 | a word without the character `c` occurs in `a + c + b` only inside `a` or inside `b` |
| Text.StripKeepsOccurrence | phishing_detector/backend/app.py:46-49 | stripping keeps every occurrence of a word that starts and ends with non-whitespace |
| Text.AnyDigit | phishing_detector/backend/app.py:40 | `any(c.isdigit() for c in s)`, defined as the generator runs: the first character is a digit or one of the rest is; its meaning is proved in `Text.AnyDigitIff` |
| Text.AnyDigitIff | phishing_detector/backend/app.py:40 | `any(c.isdigit() for c in s)` holds iff some position of `s` is a digit |
| Text.AnyDigitConcat | phishing_detector/backend/app.py:40 | a concatenation holds a digit iff one of its parts does |
| Text.ContainsDigit | phishing_detector/backend/app.py:49 | a string containing a word that holds a digit holds a digit itself |
| Text.CountDigits | phishing_detector/backend/app.py:25 | the digit count is at most the length and is zero iff there is no digit |
| Text.CountSpecial | phishing_detector/backend/app.py:26 | the count of non-alphanumeric characters is at most the length |
| Text.CountChar | phishing_detector/backend/app.py:27 | `url.count('.')` is at most the length and is zero iff there is no `.` |
| Text.DigitsAndSpecialsDisjoint | phishing_detector/backend/app.py:25-26 | no character is counted both as a digit and as special: the two counts add up to at most the length |
| Text.CharCountedAsSpecial | phishing_detector/backend/app.py:26-27 | every dot is also counted as special, so `num_subdomains <= num_special` |
| Text.Decimal | phishing_detector/backend/train.py:28 | `str(n)` is one or more digits, at most three below 1000, with no leading zero for positive `n` |
| Text.DecimalRoundTrip | phishing_detector/backend/train.py:28 | reading the decimal string back gives the number |
| Schema.Flag | phishing_detector/backend/app.py:28-30 | `int(b)` is 0 or 1 and is 1 exactly when `b` holds |
| Schema.Row | phishing_detector/backend/app.py:95 | the one-row frame has seven columns, each field at its own key's position: length, num_digits, num_special, num_subdomains, has_https, has_ip, has_suspicious_words |
| Schema.AsMap | phishing_detector/backend/app.py:23-31 | the feature dictionary's keys are exactly the seven names, and each name maps to its own field (the value at that name's position in `Schema.Row`) |
| Patterns.GroupThen | phishing_detector/backend/app.py:29 | a group of exactly `n` digits, then `dots` more dot-and-group steps, needs at least `n + 2 * dots` characters |
| Patterns.DottedDigits | phishing_detector/backend/app.py:29 | `(\d{1,3}\.){dots}\d{1,3}` anchored at the start: a match begins with a digit and needs at least `2 * dots + 1` characters |
| Patterns.HasIpShape | phishing_detector/backend/app.py:29 | `re.search` of the IPv4 regex: some suffix starts a three-dot match, so a match needs at least seven characters |
| Patterns.IpShapeNeedsDigit | phishing_detector/backend/app.py:29 | a string the IPv4 regex matches holds a digit |
| Patterns.GroupInFront | phishing_detector/backend/app.py:29 | one to three digits followed by a dot and a shorter dotted-digit match form a match |
| Patterns.DotGroup | phishing_detector/backend/app.py:29 | a group of one to three digits and a dot in front of a dotted-digit match is a match with one more dot |
| Patterns.IpShapeInSuffix | phishing_detector/backend/app.py:29 | `re.search` finds a shape that starts anywhere in the string |
| Patterns.BrandPattern | phishing_detector/backend/app.py:37 | the pattern built from a brand has one position per brand character |
| Patterns.BrandPatternMeaning | phishing_detector/backend/app.py:37-38 | the brand pattern matches a window iff the window has the brand's consonants in place and a vowel or digit at each vowel position |
| Patterns.MatchesAt | phishing_detector/backend/app.py:38 | the pattern matches the window of its own length at position `i`, atom by atom; `Patterns.BrandPatternMeaning` says which windows those are |
| Patterns.Search | phishing_detector/backend/app.py:38 | `re.search(pattern, url)`: the pattern matches at some position; `App.TyposquatCharacterization` restates it over resembling windows |
| Patterns.BrandMatchesItself | phishing_detector/backend/app.py:37-38 | the unaltered brand matches its own pattern |
| App.ExtractFeatures | phishing_detector/backend/app.py:22-31 | length equals the URL length; digits + specials fit in the length; dots are at most specials; the flags are 0/1; `has_https` iff the URL starts with `https`; `has_ip` implies a digit; `has_suspicious_words` iff a listed word occurs in the lower-cased URL; the empty URL gives all zeros |
| App.SuspiciousWordsIgnoreCase | phishing_detector/backend/app.py:30 | `has_suspicious_words` is the same for a URL and its lower-cased form |
| App.HttpsFeatureIsCaseSensitive | phishing_detector/backend/app.py:28 | `HTTPS://example.com` has `has_https` 0 while its lower-cased form has 1 |
| App.IpFeatureExamples | phishing_detector/backend/app.py:29 | `http://192.168.1.1/login` has `has_ip` 1 and `https://example.com` has 0 |
| App.TyposquatAmong | phishing_detector/backend/app.py:35-42 | the brand loop with its early return: when it returns true the URL holds a digit and some brand's pattern is found in it |
| App.LooksLikeTyposquat | phishing_detector/backend/app.py:34-42 | `looks_like_typosquat(url)` is true only when the URL holds a digit and some brand's pattern is found; the converse is in `App.TyposquatCharacterization` |
| App.TyposquatAmongIff | phishing_detector/backend/app.py:35-42 | the loop over brands with early return is true iff the URL holds a digit and some brand's pattern is found |
| App.TyposquatCharacterization | phishing_detector/backend/app.py:34-42 | a URL is flagged iff it holds a digit and some window of it resembles a brand; the digit need not be in that window |
| App.BrandWithDigitFlagged | phishing_detector/backend/app.py:38-41 | an unaltered brand name plus any digit anywhere is flagged |
| App.NoDigitNeverFlagged | phishing_detector/backend/app.py:40-42 | a URL without digits is never flagged |
| App.Normalize | phishing_detector/backend/app.py:46 | `url.lower().strip()` has no upper case, does not start or end with whitespace, and is a slice of the lower-cased URL with only whitespace cut from either end |
| App.HasLoopback | phishing_detector/backend/app.py:49 | rule 0's test: `127.0.0.1` or `localhost` occurs in the URL; its consequence is `App.LoopbackAlwaysSafe` |
| App.HasWebPrefix | phishing_detector/backend/app.py:53 | rule 1's test: the URL starts with `http://`, `https://` or `www.`; its consequence is `App.BadPrefixMalicious` |
| App.RuleBasedCheck | phishing_detector/backend/app.py:45-72 | every rule verdict carries confidence 100 |
| App.PrefixesExclusive | phishing_detector/backend/app.py:53 | a URL starting with `http://` starts with neither `https://` nor `www.` |
| App.RuleEngineIsTable | phishing_detector/backend/app.py:45-72 | the ordered rules equal a decision table on the normalised URL: loopback → safe; no prefix, no safe TLD or typosquat → malicious; `http://` → defer; otherwise → safe |
| App.DeferralCharacterization | phishing_detector/backend/app.py:45-72 | the engine defers iff the normalised URL has no loopback name, starts with `http://`, ends with a safe TLD and is not a typosquat |
| App.DeferredStartsWithHttp | phishing_detector/backend/app.py:53-72 | a deferred URL starts with `http://` once normalised |
| App.LoopbackAlwaysSafe | phishing_detector/backend/app.py:46-50 | a URL whose lower-cased form contains `127.0.0.1` or `localhost` is safe whatever else it holds |
| App.BadPrefixMalicious | phishing_detector/backend/app.py:52-54 | without a loopback name, a URL lacking all three prefixes is malicious |
| App.UnsafeTldMalicious | phishing_detector/backend/app.py:56-58 | without a loopback name, a URL ending in no safe TLD is malicious |
| App.TyposquatMalicious | phishing_detector/backend/app.py:60-62 | without a loopback name, a web-prefixed URL that looks like a typosquat is malicious whichever TLD it ends in |
| App.HttpsSafe | phishing_detector/backend/app.py:64-66 | an `https://` URL with a safe TLD that is neither loopback nor typosquat is safe |
| App.RuleEngineNormalizes | phishing_detector/backend/app.py:46 | checking `url.lower().strip()` gives the same answer as checking `url` |
| App.NormalizedAlready | phishing_detector/backend/app.py:46 | normalising a URL without upper case or outer whitespace returns it unchanged |
| App.DecidedByTable | phishing_detector/backend/app.py:46-72 | a URL without upper case or outer whitespace is decided by the table on the URL itself |
| App.HttpsExample | phishing_detector/backend/app.py:64-66 | `https://google.com` is safe by rule |
| App.NoPrefixExample | phishing_detector/backend/app.py:52-54 | `ftp://badsite.xyz` is malicious by rule |
| App.UnknownTldExample | phishing_detector/backend/app.py:56-58 | `http://secure-bank-login.ru` is malicious by rule |
| App.DeferredExample | phishing_detector/backend/app.py:72 | `http://paypal-login.com` goes to the model, with `has_suspicious_words` 1 |
| App.SuspiciousWordFound | phishing_detector/backend/app.py:30 | `http://paypal-login.com` has `has_suspicious_words` 1 |
| App.TyposquatExample | phishing_detector/backend/app.py:60-62 | `http://g00gle.com` is malicious by the typosquat rule |
| App.TrailingDigitExample | phishing_detector/backend/app.py:56-58 | `http://g00gle.com1` ends in no safe TLD, so the TLD rule decides it before the typosquat rule |
| App.DigitElsewhereExample | phishing_detector/backend/app.py:38-41 | `https://news1.google.com` is malicious: the genuine brand plus a digit elsewhere |
| App.LabelOfClass | phishing_detector/backend/app.py:99 | the label is malicious iff the class index is 1 |
| App.Predict | phishing_detector/backend/app.py:76-106 | an error exactly when the request has no `url`; the reported URL is the stripped one; the feature map is empty iff a rule decided |
| App.PredictRulePath | phishing_detector/backend/app.py:84-91 | a rule verdict is returned with the stripped URL, its label, confidence 100 and no features |
| App.PredictModelPath | phishing_detector/backend/app.py:93-105 | otherwise the features are those of the stripped URL, the label is malicious iff the class index is 1, and the confidence is the classifier's |
| App.ModelPathHasNoHttps | phishing_detector/backend/app.py:94 | on the model path `has_https` is always 0 |
| Train.RandomString | phishing_detector/backend/train.py:17-18 | `random_string(n)` has length `n` and only lower-case ASCII letters |
| Train.DottedQuad | phishing_detector/backend/train.py:28 | the joined octets start with a digit, hold only digits and dots, and never a dot followed by `0` |
| Train.DotJoinNoDotZero | phishing_detector/backend/train.py:28 | joining with a dot in front of a part without a leading zero keeps out the pair `.0` |
| Train.GenerateSafeUrl | phishing_detector/backend/train.py:20-24 | the URL starts with `https://` (coin) or `www.` (otherwise) and ends with the chosen safe TLD |
| Train.GenerateMaliciousUrl | phishing_detector/backend/train.py:26-31 | the URL starts with `http://`, and outside the IP branch it ends with the chosen bad TLD |
| Train.ExtractFeatures | phishing_detector/backend/train.py:43-52 | the training copy of `extract_features`, with the same seven properties as `App.ExtractFeatures` over its own word list; `Agreement.FeatureParity` proves the two copies agree on every URL |
| Train.LabelCode | phishing_detector/backend/train.py:56 | safe → 0, malicious → 1 |
| Train.WordIsLowerCase | phishing_detector/backend/train.py:14 | every suspicious word is four to eight lower-case letters |
| Train.DomainIsLowerCase | phishing_detector/backend/train.py:11 | every safe domain is lower-case letters |
| Train.TldIsLowerCase | phishing_detector/backend/train.py:12-15 | every TLD used is a dot followed by one to five lower-case letters |
| Agreement.WordListsAgree | phishing_detector/backend/train.py:14 | the training and serving suspicious-word lists are identical |
| Agreement.FeatureParity | phishing_detector/backend/train.py:43-52 | both copies of `extract_features` return the same record in the same column order for every URL |
| Agreement.TrainingTldsServed | phishing_detector/backend/train.py:12-15 | every training safe TLD is a serving safe TLD, no bad TLD is, and `.gov` is served but never generated |
| Agreement.LabelRoundTrip | phishing_detector/backend/train.py:56 | decoding the encoded label gives the label back |
| Agreement.ClassRoundTrip | phishing_detector/backend/train.py:56 | encoding the decoded class index 0 or 1 gives it back |
| Agreement.DomainHasNoLocalhost | phishing_detector/backend/train.py:11 | no safe domain contains `localhost` |
| Agreement.SafeUrlIsPlain | phishing_detector/backend/train.py:20-24 | a safe URL holds no digit, no upper case and no outer whitespace |
| Agreement.SafeUrlHasNoLocalhost | phishing_detector/backend/train.py:20-24 | a safe URL contains no `localhost` |
| Agreement.GeneratedSafeUrlRuledSafe | phishing_detector/backend/train.py:20-24 | every generated safe URL is judged safe by the rule engine |
| Agreement.WordEndingNotSafeTld | phishing_detector/backend/train.py:29 | a URL ending in a word of four or more letters ends in no safe TLD |
| Agreement.BadTldNotSafeTld | phishing_detector/backend/train.py:15 | a URL ending in a bad TLD ends in no safe TLD |
| Agreement.NoSafeTldEnding | phishing_detector/backend/app.py:56-58 | a URL whose last two characters end a bad TLD ends in none of the safe TLDs |
| Agreement.AddressHasNoLoopback | phishing_detector/backend/train.py:28 | `http://` plus a dotted quad of octets 1..255 contains neither `127.0.0.1` nor `localhost` |
| Agreement.IpUrlFacts | phishing_detector/backend/train.py:27-29 | an IP-branch URL is lower-case, trimmed, without a loopback name and ends in no safe TLD |
| Agreement.WordUrlFacts | phishing_detector/backend/train.py:30-31 | a word-branch URL is lower-case, trimmed, without a loopback name and ends in no safe TLD |
| Agreement.GeneratedMaliciousUrlRuledMalicious | phishing_detector/backend/train.py:26-31 | every generated malicious URL is judged malicious by the rule engine |
| Agreement.DottedQuadMatches | phishing_detector/backend/train.py:28 | the joined octets, followed by anything, match the IPv4 regex |
| Agreement.IpUrlHasIpShape | phishing_detector/backend/train.py:27-29 | every IP-branch training URL matches the IPv4 regex |
| Agreement.IpUrlFeatures | phishing_detector/backend/train.py:27-29 | an IP-branch URL has `has_https` 0, `has_suspicious_words` 1 and `has_ip` 1 |
| Agreement.WordUrlFeatures | phishing_detector/backend/train.py:30-31 | a word-branch URL has `has_https` 0 and `has_suspicious_words` 1 |
| Agreement.MaliciousUrlFeatures | phishing_detector/backend/train.py:26-31 | every generated malicious URL has `has_https` 0 and `has_suspicious_words` 1, and `has_ip` 1 in the IP branch |

## Left out

- Flask routing, CORS, JSON parsing and serialisation (`app.py` lines 1-8, 75-79, 86-91, 101-109) are left out. A request body is a map from strings to strings. The HTTP 400 reply is the `Failure(NoUrlProvided)` result. A missing or non-object body and non-string values are not modelled.
- The pickled scikit-learn model and the pandas frame (`app.py` lines 11-12, 95-97) are not modelled. The classifier is two function parameters of `App.Predict`: `classify` gives the class index of the feature row, and `confidenceOf` gives the percentage reported for it.
- App.Predict: the confidence on the model path is whatever `confidenceOf` returns. The floating-point `predict_proba(...) * 100` and `round(..., 2)` (`app.py` lines 97, 104) are not modelled. Rule confidences are the exact value `100.0`.
- App.RuleBasedCheck: its own contract only fixes the confidence. What it decides is stated by `App.RuleEngineIsTable` and the lemmas after it.
- The random number generator, the dataset build, `random.shuffle`, the train/test split, training, the report and the model file (`train.py` lines 33-40, 54-55, 58-73) are not modelled. The generators take their random choices as arguments.
- `phishing_detector/frontend/script.js` is not part of this model. It is browser DOM code and a network call.
- Text: characters are Unicode code points, but only ASCII is interpreted. `isdigit`, `isalnum`, `\d`, `lower` and `strip` treat every non-ASCII character as neither a digit, a letter nor whitespace, and `lower` leaves it unchanged. Python's non-ASCII `lower()` can change a string's length, and that is not modelled.
- Train.RandomString: the default length 8 of `random_string` is never used by the script; the model takes the length as an argument.
