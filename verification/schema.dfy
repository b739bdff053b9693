/** The vocabulary shared by the serving code and the training script: the
    two labels and the seven-field feature record, in the column order the
    classifier is trained and queried with. */
module Schema {

  datatype Label = Safe | Malicious

  /** The dictionary `extract_features` returns, field by field in its
      insertion order. The three flags are Python's `int(bool)`: 0 or 1. */
  datatype FeatureRecord = FeatureRecord(
    length: nat,
    numDigits: nat,
    numSpecial: nat,
    numSubdomains: nat,
    hasHttps: nat,
    hasIp: nat,
    hasSuspiciousWords: nat)

  /** The dictionary keys, in insertion order: the DataFrame's columns. */
  const FeatureNames: seq<string> :=
    ["length", "num_digits", "num_special", "num_subdomains", "has_https", "has_ip", "has_suspicious_words"]

  /** `int(b)` for a Python bool. */
  function Flag(b: bool): (n: nat)
    ensures n <= 1 && (n == 1 <==> b)
  {
    if b then 1 else 0
  }

  /** The one-row DataFrame `pd.DataFrame([features])` hands to the model. */
  function Row(f: FeatureRecord): (r: seq<nat>)
    ensures |r| == |FeatureNames|
    ensures r[0] == f.length && r[1] == f.numDigits && r[2] == f.numSpecial && r[3] == f.numSubdomains
    ensures r[4] == f.hasHttps && r[5] == f.hasIp && r[6] == f.hasSuspiciousWords
  {
    [f.length, f.numDigits, f.numSpecial, f.numSubdomains, f.hasHttps, f.hasIp, f.hasSuspiciousWords]
  }

  /** The feature dictionary as it is returned in the response: one entry
      per column, each column's name mapped to that column's value. */
  function AsMap(f: FeatureRecord): (m: map<string, nat>)
    ensures forall name :: name in m ==> name in FeatureNames
    ensures forall k :: 0 <= k < |FeatureNames| ==> FeatureNames[k] in m && m[FeatureNames[k]] == Row(f)[k]
  {
    map["length" := f.length, "num_digits" := f.numDigits, "num_special" := f.numSpecial,
        "num_subdomains" := f.numSubdomains, "has_https" := f.hasHttps, "has_ip" := f.hasIp,
        "has_suspicious_words" := f.hasSuspiciousWords]
  }
}
