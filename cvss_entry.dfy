/**
 * What the two entry points, `calculate_base_score` and `vector_string`,
 * promise about raw input: when they fail and with which error, what they
 * compute otherwise, and that the vector string parses back to the
 * normalised metric map.
 */
module CvssEntry {
  import opened Wrappers
  import opened Text
  import opened Cvss
  import opened CvssScores

  /** Normalising an already normalised value changes nothing. */
  lemma NormOfNorm(v: Option<string>)
    ensures Norm(Some(Norm(v))) == Norm(v)
  {
    NormalizeIdempotent(v.GetOr(""));
  }

  /** The validator gives the same verdict, and the same error, on the normalised dictionary. */
  lemma {:induction false} ValidateKeysOnNormalized(m: RawMetrics, n: RawMetrics, keys: seq<string>)
    requires forall j :: 0 <= j < |keys| ==> keys[j] in m && keys[j] in n && n[keys[j]] == Some(Norm(m[keys[j]]))
    ensures ValidateKeys(n, keys) == ValidateKeys(m, keys)
  {
    if keys != [] {
      NormOfNorm(m[keys[0]]);
      ValidateKeysOnNormalized(m, n, keys[1..]);
    }
  }

  /** A valid mapping has every key, so the normalising comprehension succeeds on it. */
  lemma ValidHasAllKeys(m: RawMetrics)
    requires IsValid(m)
    ensures FirstMissing(m, MetricFields).None?
  {
    IsValidOverFields(m);
  }

  /** The normalised dictionary agrees with the caller's mapping on every normalised value. */
  lemma NormalizedAgrees(m: RawMetrics)
    requires NormalizeMetrics(m).Success?
    ensures var n := NormalizeMetrics(m).value;
      && ValidateMetrics(n) == ValidateMetrics(m)
      && (IsValid(m) ==> ParseMetricSet(n) == ParseMetricSet(m))
  {
    var n := NormalizeMetrics(m).value;
    NormalizedEntries(m);
    ValidateKeysOnNormalized(m, n, MetricFields);
    if IsValid(m) {
      AgreeingParse(m, n);
    }
  }

  /** Each key of the normalised dictionary holds the normalised value, which normalises to itself. */
  lemma NormalizedEntries(m: RawMetrics)
    requires NormalizeMetrics(m).Success?
    ensures var n := NormalizeMetrics(m).value;
      forall j :: 0 <= j < |MetricFields| ==>
        && MetricFields[j] in m && MetricFields[j] in n
        && n[MetricFields[j]] == Some(Norm(m[MetricFields[j]]))
        && Norm(n[MetricFields[j]]) == Norm(m[MetricFields[j]])
  {
    var n := NormalizeMetrics(m).value;
    forall j | 0 <= j < |MetricFields|
      ensures MetricFields[j] in m && MetricFields[j] in n && n[MetricFields[j]] == Some(Norm(m[MetricFields[j]]))
      ensures Norm(n[MetricFields[j]]) == Norm(m[MetricFields[j]])
    {
      NormOfNorm(m[MetricFields[j]]);
    }
  }

  /** A mapping whose values normalise like those of a valid one is valid and denotes the same metric set. */
  lemma AgreeingParse(m: RawMetrics, n: RawMetrics)
    requires IsValid(m)
    requires forall j :: 0 <= j < |MetricFields| ==>
      MetricFields[j] in m && MetricFields[j] in n && Norm(n[MetricFields[j]]) == Norm(m[MetricFields[j]])
    ensures IsValid(n) && ParseMetricSet(n) == ParseMetricSet(m)
  {
    FieldsAt();
  }

  /**
   * `calculate_base_score` succeeds exactly on valid mappings. A missing key
   * raises `KeyError` for the first missing key in `METRIC_FIELDS` order,
   * before any value is checked; with every key present it raises the
   * validator's error; otherwise it returns the score of the parsed metric set.
   */
  lemma CalculateOutcome(m: RawMetrics)
    ensures CalculateBaseScore(m).Success? <==> IsValid(m)
    ensures FirstMissing(m, MetricFields).Some? ==>
      CalculateBaseScore(m) == Failure(KeyLookup(FirstMissing(m, MetricFields).value))
    ensures FirstMissing(m, MetricFields).None? && !IsValid(m) ==>
      CalculateBaseScore(m) == Failure(ValidateMetrics(m).error)
    ensures IsValid(m) ==> CalculateBaseScore(m) == Success(BaseScore(ParseMetricSet(m)))
  {
    if IsValid(m) {
      ValidHasAllKeys(m);
    }
    if NormalizeMetrics(m).Success? {
      NormalizedAgrees(m);
    }
  }

  /** `vector_string` fails exactly when `calculate_base_score` fails, and with the same error. */
  lemma VectorOutcome(m: RawMetrics)
    ensures VectorString(m).Success? <==> IsValid(m)
    ensures VectorString(m).Failure? ==> CalculateBaseScore(m).Failure? && VectorString(m).error == CalculateBaseScore(m).error
  {
    CalculateOutcome(m);
    if NormalizeMetrics(m).Success? {
      NormalizedAgrees(m);
    }
  }

  /** A code that is already stripped and upper-case normalises to itself. */
  lemma NormOfCode(v: string)
    requires IsStripped(v)
    requires forall i :: 0 <= i < |v| ==> !('a' <= v[i] <= 'z')
    ensures Norm(Some(v)) == v
  {
    StripOfStripped(v);
    UpperAt(v);
  }

  /** `" n "` normalises to `"N"`. */
  lemma NormPaddedLower()
    ensures Norm(Some(" n ")) == "N"
  {
    assert TrimStart(" n ") == "n " by { assert " n "[1..] == "n "; }
    assert TrimEnd("n ") == "n" by { assert "n "[..1] == "n"; }
    UpperAt("n");
  }

  /** `"z"` normalises to `"Z"`. */
  lemma NormLowerZ()
    ensures Norm(Some("z")) == "Z"
  {
    StripOfStripped("z");
    UpperAt("z");
  }

  /** Every key present, with the normalised values of the worked example AV:N/AC:L/PR:N/UI:N/S:U/C:H/I:H/A:H. */
  predicate NormalisesToCritical(m: RawMetrics) {
    && "AV" in m && "AC" in m && "PR" in m && "UI" in m && "S" in m && "C" in m && "I" in m && "A" in m
    && Norm(m["AV"]) == "N" && Norm(m["AC"]) == "L" && Norm(m["PR"]) == "N" && Norm(m["UI"]) == "N"
    && Norm(m["S"]) == "U" && Norm(m["C"]) == "H" && Norm(m["I"]) == "H" && Norm(m["A"]) == "H"
  }

  /** Padding and lower case do not matter: `" n "` counts as `N`. */
  lemma PaddedNormalisesToCritical(m: RawMetrics)
    requires "AV" in m && "AC" in m && "PR" in m && "UI" in m && "S" in m && "C" in m && "I" in m && "A" in m
    requires m["AV"] == Some(" n ") && m["AC"] == Some("L") && m["PR"] == Some("N") && m["UI"] == Some("N")
    requires m["S"] == Some("U") && m["C"] == Some("H") && m["I"] == Some("H") && m["A"] == Some("H")
    ensures NormalisesToCritical(m)
  {
    assert Norm(m["AV"]) == "N" by { NormPaddedLower(); }
    assert Norm(m["AC"]) == "L" by { NormOfCode("L"); }
    assert Norm(m["PR"]) == "N" && Norm(m["UI"]) == "N" by { NormOfCode("N"); }
    assert Norm(m["S"]) == "U" by { NormOfCode("U"); }
    assert Norm(m["C"]) == "H" && Norm(m["I"]) == "H" && Norm(m["A"]) == "H" by { NormOfCode("H"); }
  }

  /** Any such mapping scores 9.8, Critical, through the raw entry point. */
  lemma CriticalExampleScore(m: RawMetrics)
    requires NormalisesToCritical(m)
    ensures CalculateBaseScore(m) == Success(CvssResult(9.8, "Critical", 5.9, 3.9))
  {
    CriticalParses(m);
    CalculateOutcome(m);
    WorkedExampleCritical();
  }

  /** The C, I and A keys have the same legal codes. */
  lemma CiaTablesAgree()
    ensures Allowed("I") == Allowed("C") && Allowed("A") == Allowed("C")
  {
  }

  /** Such a mapping is valid and denotes the worked example's metric set. */
  lemma CriticalParses(m: RawMetrics)
    requires NormalisesToCritical(m)
    ensures IsValid(m)
    ensures ParseMetricSet(m) == MetricSet(Network, AcLow, PrNone, UiNone, Unchanged, CiaHigh, CiaHigh, CiaHigh)
  {
    assert KeyOk(m, "AV") by { assert ParseAv("N").Some?; }
    assert KeyOk(m, "AC") by { assert ParseAc("L").Some?; }
    assert KeyOk(m, "PR") by { assert ParsePr("N").Some?; }
    assert KeyOk(m, "UI") by { assert ParseUi("N").Some?; }
    assert KeyOk(m, "S") by { assert ParseScope("U").Some?; }
    assert "H" in Allowed("C") by { assert ParseCia("H").Some?; }
    assert KeyOk(m, "C") && KeyOk(m, "I") && KeyOk(m, "A") by { CiaTablesAgree(); }
    var ms := ParseMetricSet(m);
    assert ms.av == Network by { assert AvCode(ms.av) == "N"; }
    assert ms.ac == AcLow by { assert AcCode(ms.ac) == "L"; }
    assert ms.pr == PrNone by { assert PrCode(ms.pr) == "N"; }
    assert ms.ui == UiNone by { assert UiCode(ms.ui) == "N"; }
    assert ms.s == Unchanged by { assert ScopeCode(ms.s) == "U"; }
    assert ms.c == CiaHigh && ms.i == CiaHigh && ms.a == CiaHigh by {
      assert CiaCode(ms.c) == "H" && CiaCode(ms.i) == "H" && CiaCode(ms.a) == "H";
    }
  }

  /** An illegal code is reported upper-cased, with the sorted legal codes. */
  lemma RejectsUnknownCode()
    ensures ValidateMetrics(map["AV" := Some("z"), "AC" := Some("L")]) == Fail(InvalidValue("AV", "Z", ["A", "L", "N", "P"]))
  {
    var m := map["AV" := Some("z"), "AC" := Some("L")];
    NormLowerZ();
    assert !KeyOk(m, MetricFields[0]);
  }

  /** A `None` value is reported as the empty string. */
  lemma RejectsNoneValue()
    ensures ValidateMetrics(map["AV" := Some("N"), "AC" := None]) == Fail(InvalidValue("AC", "", ["H", "L"]))
  {
    var m := map["AV" := Some("N"), "AC" := None];
    NormOfCode("N");
    assert Norm(None) == "";
    assert KeyOk(m, MetricFields[0]) && !KeyOk(m, MetricFields[1]);
  }

  /** With AV, AC and PR acceptable and UI absent, the validator reports UI as missing. */
  lemma RejectsMissingKey(m: RawMetrics)
    requires KeyOk(m, "AV") && KeyOk(m, "AC") && KeyOk(m, "PR") && "UI" !in m
    ensures ValidateMetrics(m) == Fail(MissingMetric("UI"))
  {
    var k1 := MetricFields[1..];
    var k2 := k1[1..];
    var k3 := k2[1..];
    assert MetricFields[0] == "AV" && k1[0] == "AC" && k2[0] == "PR" && k3[0] == "UI";
    assert ValidateKeys(m, k3) == Fail(MissingMetric("UI"));
    assert ValidateKeys(m, k1) == ValidateKeys(m, k2) == ValidateKeys(m, k3);
  }

  // ---------------------------------------------------------------------
  // Parsing a vector string back
  // ---------------------------------------------------------------------

  /** The normalised codes of `keys`, as a dictionary. */
  function CodesOf(n: RawMetrics, keys: seq<string>): (r: map<string, string>)
    requires forall j :: 0 <= j < |keys| ==> keys[j] in n
    ensures forall k :: k in r <==> k in keys
    ensures forall k :: k in r ==> r[k] == Norm(n[k])
  {
    if keys == [] then map[]
    else
      var rest := CodesOf(n, keys[1..]);
      assert forall k :: k in keys <==> k == keys[0] || k in keys[1..];
      map[keys[0] := Norm(n[keys[0]])] + rest
  }

  /** One `"K:V"` segment split on `':'`. */
  function SegmentPair(segment: string): Option<(string, string)> {
    var kv := Split(segment, ':');
    if |kv| == 2 then Some((kv[0], kv[1])) else None
  }

  /** The segments as a dictionary; a later segment overrides an earlier one with the same key. */
  function PairsToMap(segments: seq<string>): Option<map<string, string>> {
    if segments == [] then Some(map[])
    else
      match SegmentPair(segments[0])
      case None => None
      case Some(kv) =>
        match PairsToMap(segments[1..])
        case None => None
        case Some(rest) => Some(map[kv.0 := kv.1] + rest)
  }

  /** Split a vector string on `'/'`, check the `CVSS:3.1` prefix and eight segments, split each on `':'`. */
  function ParseVector(v: string): Option<map<string, string>> {
    var parts := Split(v, '/');
    if |parts| != 9 || parts[0] != "CVSS:3.1" then None
    else PairsToMap(parts[1..])
  }

  /** Every legal code is a single letter, so neither separator can occur in it. */
  lemma CodeHasNoSeparator(k: string, v: string)
    requires v in Allowed(k)
    ensures |v| == 1 && '/' !in v && ':' !in v
  {
  }

  /** A `K:V` segment whose parts hold no `':'` splits back into `(K, V)`. */
  lemma SegmentSplits(k: string, v: string)
    requires ':' !in k && ':' !in v
    ensures SegmentPair(k + ":" + v) == Some((k, v))
  {
    SplitAfterPiece(k, v, ':');
    SplitWithoutSep(v, ':');
    assert k + ":" + v == k + [':'] + v;
  }

  /** The segments of `keys` parse back to the codes of `keys`. */
  lemma {:induction false} SegmentsParse(n: RawMetrics, keys: seq<string>)
    requires forall j :: 0 <= j < |keys| ==> keys[j] in n && ':' !in keys[j] && ':' !in Norm(n[keys[j]])
    ensures PairsToMap(Segments(n, keys)) == Some(CodesOf(n, keys))
  {
    if keys != [] {
      SegmentsParse(n, keys[1..]);
      SegmentSplits(keys[0], Norm(n[keys[0]]));
      assert Segments(n, keys)[1..] == Segments(n, keys[1..]);
    }
  }

  /** The normalised value of every key of a valid mapping is a legal code, so it holds neither separator. */
  lemma ValidCodesClean(m: RawMetrics)
    requires IsValid(m)
    ensures forall j :: 0 <= j < |MetricFields| ==>
      MetricFields[j] in m && ':' !in Norm(m[MetricFields[j]]) && '/' !in Norm(m[MetricFields[j]])
  {
    IsValidOverFields(m);
    forall j | 0 <= j < |MetricFields|
      ensures ':' !in Norm(m[MetricFields[j]]) && '/' !in Norm(m[MetricFields[j]])
    {
      assert KeyOk(m, MetricFields[j]);
      CodeHasNoSeparator(MetricFields[j], Norm(m[MetricFields[j]]));
    }
  }

  /** Reading segments from the normalised dictionary gives the segments of the caller's mapping. */
  lemma NormalizedSegments(m: RawMetrics)
    requires NormalizeMetrics(m).Success?
    ensures forall j :: 0 <= j < |MetricFields| ==> MetricFields[j] in m
    ensures Segments(NormalizeMetrics(m).value, MetricFields) == Segments(m, MetricFields)
    ensures CodesOf(NormalizeMetrics(m).value, MetricFields) == CodesOf(m, MetricFields)
  {
    var n := NormalizeMetrics(m).value;
    NormalizedEntries(m);
    AgreeingSegments(m, n, MetricFields);
  }

  /** Two mappings whose values normalise alike on `keys` give the same segments and codes. */
  lemma {:induction false} AgreeingSegments(m: RawMetrics, n: RawMetrics, keys: seq<string>)
    requires forall j :: 0 <= j < |keys| ==> keys[j] in m && keys[j] in n && Norm(n[keys[j]]) == Norm(m[keys[j]])
    ensures Segments(n, keys) == Segments(m, keys)
    ensures CodesOf(n, keys) == CodesOf(m, keys)
  {
    if keys != [] {
      AgreeingSegments(m, n, keys[1..]);
    }
  }

  /** For a valid mapping the vector string joins the prefix and the caller's segments with `'/'`. */
  lemma VectorValue(m: RawMetrics)
    requires IsValid(m)
    ensures forall j :: 0 <= j < |MetricFields| ==> MetricFields[j] in m
    ensures VectorString(m) == Success(Join(["CVSS:3.1"] + Segments(m, MetricFields), '/'))
  {
    VectorOutcome(m);
    ValidHasAllKeys(m);
    NormalizedSegments(m);
  }

  /** No segment holds a `'/'` when neither its key nor its value does. */
  lemma SegmentsWithoutSlash(m: RawMetrics, keys: seq<string>)
    requires forall j :: 0 <= j < |keys| ==> keys[j] in m && '/' !in keys[j] && '/' !in Norm(m[keys[j]])
    ensures forall p :: p in Segments(m, keys) ==> '/' !in p
  {
    var segs := Segments(m, keys);
    forall p | p in segs ensures '/' !in p {
      var j :| 0 <= j < |segs| && segs[j] == p;
      assert p == keys[j] + ":" + Norm(m[keys[j]]);
    }
  }

  /** No metric key holds a separator. */
  lemma FieldsWithoutSeparators()
    ensures forall j :: 0 <= j < |MetricFields| ==> '/' !in MetricFields[j] && ':' !in MetricFields[j]
  {
    FieldsAt();
  }

  /** The version prefix holds no `'/'`. */
  lemma PrefixWithoutSlash()
    ensures '/' !in "CVSS:3.1"
  {
    assert "CVSS:3.1" == ['C', 'V', 'S', 'S', ':', '3', '.', '1'];
  }

  /** Splitting the vector string on `'/'` gives the prefix and the eight segments. */
  lemma VectorSplitsIntoParts(m: RawMetrics)
    requires IsValid(m)
    ensures VectorString(m).Success?
    ensures Split(VectorString(m).value, '/') == ["CVSS:3.1"] + Segments(m, MetricFields)
  {
    VectorValue(m);
    ValidCodesClean(m);
    FieldsWithoutSeparators();
    SegmentsWithoutSlash(m, MetricFields);
    PrefixWithoutSlash();
    JoinedSplits("CVSS:3.1", Segments(m, MetricFields));
  }

  /** Joining a slash-free prefix and slash-free segments with `'/'` and splitting again gives them back. */
  lemma JoinedSplits(prefix: string, segs: seq<string>)
    requires '/' !in prefix
    requires forall p :: p in segs ==> '/' !in p
    ensures Split(Join([prefix] + segs, '/'), '/') == [prefix] + segs
  {
    SplitJoin([prefix] + segs, '/');
  }

  /**
   * For a valid mapping, the vector string is `CVSS:3.1` and the eight
   * `K:V` segments in `METRIC_FIELDS` order, and splitting it back on `'/'`
   * and `':'` gives exactly the normalised metric map.
   */
  lemma VectorRoundTrip(m: RawMetrics)
    requires IsValid(m)
    ensures VectorString(m).Success?
    ensures ParseVector(VectorString(m).value) == Some(CodesOf(m, MetricFields))
  {
    VectorSplitsIntoParts(m);
    ValidCodesClean(m);
    FieldsWithoutSeparators();
    SegmentsParse(m, MetricFields);
    ParsePrefixed(VectorString(m).value, Segments(m, MetricFields));
  }

  /** A string that splits into the prefix and eight segments parses as those segments. */
  lemma ParsePrefixed(v: string, segs: seq<string>)
    requires |segs| == 8
    requires Split(v, '/') == ["CVSS:3.1"] + segs
    ensures ParseVector(v) == PairsToMap(segs)
  {
    assert (["CVSS:3.1"] + segs)[1..] == segs;
  }

  /** A missing key wins over an earlier invalid value: AV:z with AC absent raises `KeyError('AC')`. */
  lemma MissingKeyBeforeInvalidValue()
    ensures CalculateBaseScore(map["AV" := Some("z")]) == Failure(KeyLookup("AC"))
  {
    var m := map["AV" := Some("z")];
    assert MetricFields[0] in m && MetricFields[1] !in m;
  }
}
