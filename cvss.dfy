/**
 * The CVSS v3.1 Base Score engine: metric validation, the Base Metrics
 * Equations of section 7.1 of the CVSS v3.1 Specification Document with the
 * weights of section 7.4, the Roundup function of its Appendix A as the
 * engine writes it, the qualitative rating scale of section 5 and the vector
 * string of section 6.
 *
 * Arithmetic is over exact reals; the engine's epsilon is kept as the exact
 * constant 1/1000000000.
 */
module Cvss {
  import opened Wrappers
  import opened Text

  // ---------------------------------------------------------------------
  // Metric values
  // ---------------------------------------------------------------------

  datatype AttackVector = Network | Adjacent | Local | Physical
  datatype AttackComplexity = AcLow | AcHigh
  datatype PrivilegesRequired = PrNone | PrLow | PrHigh
  datatype UserInteraction = UiNone | UiRequired
  datatype Scope = Unchanged | Changed
  datatype CiaImpact = CiaHigh | CiaLow | CiaNone

  /** A validated metric mapping, one variant per base metric. */
  datatype MetricSet = MetricSet(
    av: AttackVector, ac: AttackComplexity, pr: PrivilegesRequired, ui: UserInteraction,
    s: Scope, c: CiaImpact, i: CiaImpact, a: CiaImpact)

  /** The record the calculator returns. */
  datatype CvssResult = CvssResult(score: real, severity: string, impact: real, exploitability: real)

  /** The caller's mapping from metric key to raw value; `None` is Python's `None`. */
  type RawMetrics = map<string, Option<string>>

  datatype MetricError =
    /** The validator's error for a key that is absent. */
    | MissingMetric(key: string)
    /** The validator's error for an illegal value, with the normalised value and the sorted legal codes. */
    | InvalidValue(key: string, value: string, allowed: seq<string>)
    /** The lookup error the entry points raise for an absent key, before validation runs. */
    | KeyLookup(key: string)
  {
    function Key(): string {
      match this
      case MissingMetric(k) => k
      case InvalidValue(k, _, _) => k
      case KeyLookup(k) => k
    }
  }

  /** The eight base metric keys, in the order they are checked and serialised. */
  const MetricFields: seq<string> := ["AV", "AC", "PR", "UI", "S", "C", "I", "A"]

  /** The legal codes per key; only ever consulted for a key of `MetricFields`. */
  function Allowed(k: string): set<string> {
    match k
    case "AV" => {"N", "A", "L", "P"}
    case "AC" => {"L", "H"}
    case "PR" => {"N", "L", "H"}
    case "UI" => {"N", "R"}
    case "S" => {"U", "C"}
    case "C" => {"H", "L", "N"}
    case "I" => {"H", "L", "N"}
    case "A" => {"H", "L", "N"}
    case _ => {}
  }

  /** The legal codes of `k` in ascending order, as the invalid-value message lists them. */
  function AllowedSorted(k: string): (r: seq<string>)
    ensures forall j :: 0 <= j < |r| ==> r[j] in Allowed(k)
    ensures forall v :: v in Allowed(k) ==> v in r
    ensures forall j :: 0 <= j < |r| ==> |r[j]| == 1
    ensures forall j :: 0 < j < |r| ==> r[j - 1][0] < r[j][0]
  {
    match k
    case "AV" => ["A", "L", "N", "P"]
    case "AC" => ["H", "L"]
    case "PR" => ["H", "L", "N"]
    case "UI" => ["N", "R"]
    case "S" => ["C", "U"]
    case "C" => ["H", "L", "N"]
    case "I" => ["H", "L", "N"]
    case "A" => ["H", "L", "N"]
    case _ => []
  }

  // ---------------------------------------------------------------------
  // Codes: parsing a normalised code into a variant, and back
  // ---------------------------------------------------------------------

  function AvCode(v: AttackVector): string {
    match v
    case Network => "N"
    case Adjacent => "A"
    case Local => "L"
    case Physical => "P"
  }

  function ParseAv(code: string): (r: Option<AttackVector>)
    ensures r.Some? <==> code in Allowed("AV")
    ensures r.Some? ==> AvCode(r.value) == code
  {
    if code == "N" then Some(Network)
    else if code == "A" then Some(Adjacent)
    else if code == "L" then Some(Local)
    else if code == "P" then Some(Physical)
    else None
  }

  function AcCode(v: AttackComplexity): string {
    match v
    case AcLow => "L"
    case AcHigh => "H"
  }

  function ParseAc(code: string): (r: Option<AttackComplexity>)
    ensures r.Some? <==> code in Allowed("AC")
    ensures r.Some? ==> AcCode(r.value) == code
  {
    if code == "L" then Some(AcLow)
    else if code == "H" then Some(AcHigh)
    else None
  }

  function PrCode(v: PrivilegesRequired): string {
    match v
    case PrNone => "N"
    case PrLow => "L"
    case PrHigh => "H"
  }

  function ParsePr(code: string): (r: Option<PrivilegesRequired>)
    ensures r.Some? <==> code in Allowed("PR")
    ensures r.Some? ==> PrCode(r.value) == code
  {
    if code == "N" then Some(PrNone)
    else if code == "L" then Some(PrLow)
    else if code == "H" then Some(PrHigh)
    else None
  }

  function UiCode(v: UserInteraction): string {
    match v
    case UiNone => "N"
    case UiRequired => "R"
  }

  function ParseUi(code: string): (r: Option<UserInteraction>)
    ensures r.Some? <==> code in Allowed("UI")
    ensures r.Some? ==> UiCode(r.value) == code
  {
    if code == "N" then Some(UiNone)
    else if code == "R" then Some(UiRequired)
    else None
  }

  function ScopeCode(v: Scope): string {
    match v
    case Unchanged => "U"
    case Changed => "C"
  }

  function ParseScope(code: string): (r: Option<Scope>)
    ensures r.Some? <==> code in Allowed("S")
    ensures r.Some? ==> ScopeCode(r.value) == code
  {
    if code == "U" then Some(Unchanged)
    else if code == "C" then Some(Changed)
    else None
  }

  function CiaCode(v: CiaImpact): string {
    match v
    case CiaHigh => "H"
    case CiaLow => "L"
    case CiaNone => "N"
  }

  /** The C, I and A keys share one table of codes. */
  function ParseCia(code: string): (r: Option<CiaImpact>)
    ensures r.Some? <==> code in Allowed("C")
    ensures r.Some? ==> CiaCode(r.value) == code
  {
    if code == "H" then Some(CiaHigh)
    else if code == "L" then Some(CiaLow)
    else if code == "N" then Some(CiaNone)
    else None
  }

  // ---------------------------------------------------------------------
  // Validation (validate_metrics)
  // ---------------------------------------------------------------------

  /** A metric value as the validator reads it: a missing value counts as "", then it is stripped and upper-cased. */
  function Norm(v: Option<string>): string {
    Normalize(v.GetOr(""))
  }

  /** Key `k` is present and its normalised value is one of its legal codes. */
  predicate KeyOk(m: RawMetrics, k: string) {
    k in m && Norm(m[k]) in Allowed(k)
  }

  /** What the validator raises for a key that is not ok. */
  function ValidatorError(m: RawMetrics, k: string): MetricError {
    if k !in m then MissingMetric(k) else InvalidValue(k, Norm(m[k]), AllowedSorted(k))
  }

  /** Every one of the eight keys is ok. */
  predicate IsValid(m: RawMetrics) {
    && KeyOk(m, "AV") && KeyOk(m, "AC") && KeyOk(m, "PR") && KeyOk(m, "UI")
    && KeyOk(m, "S") && KeyOk(m, "C") && KeyOk(m, "I") && KeyOk(m, "A")
  }

  /** The eight keys of `MetricFields`, position by position. */
  lemma FieldsAt()
    ensures |MetricFields| == 8
    ensures MetricFields[0] == "AV" && MetricFields[1] == "AC" && MetricFields[2] == "PR" && MetricFields[3] == "UI"
    ensures MetricFields[4] == "S" && MetricFields[5] == "C" && MetricFields[6] == "I" && MetricFields[7] == "A"
    ensures "AV" in MetricFields && "AC" in MetricFields && "PR" in MetricFields && "UI" in MetricFields
    ensures "S" in MetricFields && "C" in MetricFields && "I" in MetricFields && "A" in MetricFields
  {
  }

  /** `IsValid` is the key-by-key check over `MetricFields`. */
  lemma IsValidOverFields(m: RawMetrics)
    ensures IsValid(m) <==> forall j :: 0 <= j < |MetricFields| ==> KeyOk(m, MetricFields[j])
  {
    FieldsAt();
    if IsValid(m) {
      forall j | 0 <= j < |MetricFields| ensures KeyOk(m, MetricFields[j]) {
        assert j == 0 || j == 1 || j == 2 || j == 3 || j == 4 || j == 5 || j == 6 || j == 7;
      }
    }
  }

  /**
   * The validator's loop over `keys`: it passes exactly when every key is ok,
   * and otherwise raises the error of the first key that is not.
   */
  function ValidateKeys(m: RawMetrics, keys: seq<string>): (r: Outcome<MetricError>)
    ensures r.Pass? <==> forall j :: 0 <= j < |keys| ==> KeyOk(m, keys[j])
    ensures r.Fail? ==>
      exists j :: 0 <= j < |keys| && !KeyOk(m, keys[j]) && r.error == ValidatorError(m, keys[j]) &&
        forall i :: 0 <= i < j ==> KeyOk(m, keys[i])
  {
    if keys == [] then Pass
    else if !KeyOk(m, keys[0]) then Fail(ValidatorError(m, keys[0]))
    else
      var r := ValidateKeys(m, keys[1..]);
      assert forall j :: 1 <= j < |keys| ==> keys[j] == keys[1..][j - 1];
      r
  }

  /** `validate_metrics`: the loop over `METRIC_FIELDS`. */
  function ValidateMetrics(m: RawMetrics): (r: Outcome<MetricError>)
    ensures r.Pass? <==> IsValid(m)
    ensures r.Fail? ==>
      exists j :: 0 <= j < |MetricFields| && !KeyOk(m, MetricFields[j]) && r.error == ValidatorError(m, MetricFields[j]) &&
        forall i :: 0 <= i < j ==> KeyOk(m, MetricFields[i])
  {
    IsValidOverFields(m);
    ValidateKeys(m, MetricFields)
  }

  // ---------------------------------------------------------------------
  // The normalising dictionary comprehension of the two entry points
  // ---------------------------------------------------------------------

  /** The first of `keys` absent from `m`: the key whose lookup fails. */
  function FirstMissing(m: RawMetrics, keys: seq<string>): (r: Option<string>)
    ensures r.None? <==> forall j :: 0 <= j < |keys| ==> keys[j] in m
    ensures r.Some? ==>
      exists j :: 0 <= j < |keys| && r.value == keys[j] && keys[j] !in m &&
        forall i :: 0 <= i < j ==> keys[i] in m
  {
    if keys == [] then None
    else if keys[0] !in m then Some(keys[0])
    else
      var r := FirstMissing(m, keys[1..]);
      assert forall j :: 1 <= j < |keys| ==> keys[j] == keys[1..][j - 1];
      r
  }

  /** The dictionary both entry points build: each of the eight keys with its normalised value; it fails on the first key the caller's mapping lacks. */
  function NormalizeMetrics(m: RawMetrics): (r: Result<RawMetrics, MetricError>)
    ensures r.Failure? <==> FirstMissing(m, MetricFields).Some?
    ensures r.Failure? ==> r.error == KeyLookup(FirstMissing(m, MetricFields).value)
    ensures r.Success? ==> forall k :: k in r.value <==> k in MetricFields
    ensures r.Success? ==> forall k :: k in r.value ==> k in m && r.value[k] == Some(Norm(m[k]))
  {
    match FirstMissing(m, MetricFields)
    case Some(k) => Failure(KeyLookup(k))
    case None => Success(map k | k in MetricFields :: Some(Norm(m[k])))
  }

  function AvOf(m: RawMetrics): (v: AttackVector)
    requires KeyOk(m, "AV")
    ensures AvCode(v) == Norm(m["AV"])
  {
    ParseAv(Norm(m["AV"])).value
  }

  function AcOf(m: RawMetrics): (v: AttackComplexity)
    requires KeyOk(m, "AC")
    ensures AcCode(v) == Norm(m["AC"])
  {
    ParseAc(Norm(m["AC"])).value
  }

  function PrOf(m: RawMetrics): (v: PrivilegesRequired)
    requires KeyOk(m, "PR")
    ensures PrCode(v) == Norm(m["PR"])
  {
    ParsePr(Norm(m["PR"])).value
  }

  function UiOf(m: RawMetrics): (v: UserInteraction)
    requires KeyOk(m, "UI")
    ensures UiCode(v) == Norm(m["UI"])
  {
    ParseUi(Norm(m["UI"])).value
  }

  function ScopeOf(m: RawMetrics): (v: Scope)
    requires KeyOk(m, "S")
    ensures ScopeCode(v) == Norm(m["S"])
  {
    ParseScope(Norm(m["S"])).value
  }

  /** The C, I and A keys share one table of codes. */
  function CiaOf(m: RawMetrics, k: string): (v: CiaImpact)
    requires k in m && Norm(m[k]) in Allowed("C")
    ensures CiaCode(v) == Norm(m[k])
  {
    ParseCia(Norm(m[k])).value
  }

  /** The metric set a valid mapping denotes, read from its normalised values. */
  function ParseMetricSet(m: RawMetrics): (ms: MetricSet)
    requires IsValid(m)
    ensures AvCode(ms.av) == Norm(m["AV"]) && AcCode(ms.ac) == Norm(m["AC"])
    ensures PrCode(ms.pr) == Norm(m["PR"]) && UiCode(ms.ui) == Norm(m["UI"])
    ensures ScopeCode(ms.s) == Norm(m["S"]) && CiaCode(ms.c) == Norm(m["C"])
    ensures CiaCode(ms.i) == Norm(m["I"]) && CiaCode(ms.a) == Norm(m["A"])
  {
    MetricSet(AvOf(m), AcOf(m), PrOf(m), UiOf(m), ScopeOf(m), CiaOf(m, "C"), CiaOf(m, "I"), CiaOf(m, "A"))
  }

  // ---------------------------------------------------------------------
  // Weight tables (section 7.4 of the CVSS v3.1 Specification Document)
  // ---------------------------------------------------------------------

  function AvWeight(v: AttackVector): (w: real)
    ensures 0.2 <= w <= 0.85
  {
    match v
    case Network => 0.85
    case Adjacent => 0.62
    case Local => 0.55
    case Physical => 0.20
  }

  function AcWeight(v: AttackComplexity): (w: real)
    ensures 0.44 <= w <= 0.77
  {
    match v
    case AcLow => 0.77
    case AcHigh => 0.44
  }

  function UiWeight(v: UserInteraction): (w: real)
    ensures 0.62 <= w <= 0.85
  {
    match v
    case UiNone => 0.85
    case UiRequired => 0.62
  }

  function CiaWeight(v: CiaImpact): (w: real)
    ensures 0.0 <= w <= 0.56
    ensures w == 0.0 <==> v == CiaNone
  {
    match v
    case CiaHigh => 0.56
    case CiaLow => 0.22
    case CiaNone => 0.00
  }

  /** The privileges weight, read from the Changed-scope table or the Unchanged-scope table as Scope selects. */
  function PrWeight(v: PrivilegesRequired, s: Scope): (w: real)
    ensures 0.27 <= w <= 0.85
  {
    match (s, v)
    case (Changed, PrNone) => 0.85
    case (Changed, PrLow) => 0.68
    case (Changed, PrHigh) => 0.50
    case (Unchanged, PrNone) => 0.85
    case (Unchanged, PrLow) => 0.62
    case (Unchanged, PrHigh) => 0.27
  }

  /** A Changed scope never lowers the privileges weight, and raises it for Low and High. */
  lemma PrChangedNotLower(v: PrivilegesRequired)
    ensures PrWeight(v, Unchanged) <= PrWeight(v, Changed)
    ensures v != PrNone ==> PrWeight(v, Unchanged) < PrWeight(v, Changed)
  {
  }

  // ---------------------------------------------------------------------
  // Rounding (Appendix A of the CVSS v3.1 Specification Document, as the engine writes it)
  // ---------------------------------------------------------------------

  /** The epsilon subtracted from the scaled value before taking the ceiling. */
  const Epsilon: real := 0.000000001

  /** `math.ceil`. */
  function Ceil(y: real): (k: int)
    ensures y <= k as real < y + 1.0
  {
    -((-y).Floor)
  }

  /** A multiple of 0.1. */
  predicate IsTenth(x: real) {
    (x * 10.0).Floor as real == x * 10.0
  }

  /**
   * `round_up_1_decimal`: `ceil(x * 10 - 1e-9) / 10`, which is the smallest
   * tenth not below `x - 1e-10`.
   */
  function RoundUp1Decimal(x: real): (r: real)
    ensures IsTenth(r)
    ensures x - Epsilon / 10.0 <= r < x - Epsilon / 10.0 + 0.1
  {
    var k := Ceil(x * 10.0 - Epsilon);
    assert (k as real / 10.0) * 10.0 == k as real;
    k as real / 10.0
  }

  // ---------------------------------------------------------------------
  // Severity (section 5 of the CVSS v3.1 Specification Document, Table 14)
  // ---------------------------------------------------------------------

  /** The five severity names. */
  predicate IsSeverityName(s: string) {
    s == "None" || s == "Low" || s == "Medium" || s == "High" || s == "Critical"
  }

  /** `severity`: inclusive bands, anything outside them falls through to "Critical". */
  function Severity(score: real): (s: string)
    ensures IsSeverityName(s)
    ensures s == "None" <==> score == 0.0
  {
    if score == 0.0 then "None"
    else if 0.1 <= score <= 3.9 then "Low"
    else if 4.0 <= score <= 6.9 then "Medium"
    else if 7.0 <= score <= 8.9 then "High"
    else "Critical"
  }

  // ---------------------------------------------------------------------
  // Base Metrics Equations (section 7.1 of the CVSS v3.1 Specification Document)
  // ---------------------------------------------------------------------

  /** `x` raised to a natural exponent. */
  function Pow(x: real, n: nat): real {
    if n == 0 then 1.0 else x * Pow(x, n - 1)
  }

  function Min(x: real, y: real): (r: real)
    ensures r <= x && r <= y && (r == x || r == y)
  {
    if x <= y then x else y
  }

  function Max(x: real, y: real): (r: real)
    ensures r >= x && r >= y && (r == x || r == y)
  {
    if x >= y then x else y
  }

  /** Raw exploitability: 8.22 times the four weights, PR weighted by the Scope-selected table. */
  function ExploitabilityRaw(ms: MetricSet): real {
    8.22 * AvWeight(ms.av) * AcWeight(ms.ac) * PrWeight(ms.pr, ms.s) * UiWeight(ms.ui)
  }

  /** The impact sub-score base: one minus the product of one minus each impact weight. */
  function IscBase(ms: MetricSet): real {
    1.0 - ((1.0 - CiaWeight(ms.c)) * (1.0 - CiaWeight(ms.i)) * (1.0 - CiaWeight(ms.a)))
  }

  /** The unrounded impact sub-score, by Scope. */
  function ImpactRaw(ms: MetricSet): real {
    var isc := IscBase(ms);
    if ms.s == Unchanged then 6.42 * isc
    else 7.52 * (isc - 0.029) - 3.25 * Pow(isc - 0.02, 15)
  }

  /** The unrounded base score: zero without impact, otherwise capped at 10. */
  function ScoreRaw(ms: MetricSet): real {
    var impact := ImpactRaw(ms);
    var exploitability := ExploitabilityRaw(ms);
    if impact <= 0.0 then 0.0
    else if ms.s == Unchanged then Min(impact + exploitability, 10.0)
    else Min(1.08 * (impact + exploitability), 10.0)
  }

  /** The three rounded sub-scores and the severity of the rounded score. */
  function BaseScore(ms: MetricSet): CvssResult {
    var score := RoundUp1Decimal(ScoreRaw(ms));
    CvssResult(
      score,
      Severity(score),
      RoundUp1Decimal(Max(ImpactRaw(ms), 0.0)),
      RoundUp1Decimal(ExploitabilityRaw(ms)))
  }

  // ---------------------------------------------------------------------
  // Entry points
  // ---------------------------------------------------------------------

  /** `calculate_base_score`: normalise (failing on an absent key), validate, score. */
  function CalculateBaseScore(m: RawMetrics): Result<CvssResult, MetricError> {
    match NormalizeMetrics(m)
    case Failure(e) => Failure(e)
    case Success(n) =>
      match ValidateMetrics(n)
      case Fail(e) => Failure(e)
      case Pass => Success(BaseScore(ParseMetricSet(n)))
  }

  /** The segment of key `k` in the vector string: the key, a colon, and its normalised value. */
  function Segment(n: RawMetrics, k: string): string
    requires k in n
  {
    k + ":" + Norm(n[k])
  }

  /** The `"K:V"` segments for `keys`, read from the normalised mapping, in order. */
  function Segments(n: RawMetrics, keys: seq<string>): (r: seq<string>)
    requires forall j :: 0 <= j < |keys| ==> keys[j] in n
    ensures |r| == |keys|
    ensures forall j :: 0 <= j < |keys| ==> r[j] == Segment(n, keys[j])
  {
    if keys == [] then []
    else
      var rest := Segments(n, keys[1..]);
      assert forall j :: 1 <= j < |keys| ==> keys[j] == keys[1..][j - 1];
      [Segment(n, keys[0])] + rest
  }

  /** `vector_string`: normalise (failing on an absent key), validate, then join the prefix and the segments with `/`. */
  function VectorString(m: RawMetrics): Result<string, MetricError> {
    match NormalizeMetrics(m)
    case Failure(e) => Failure(e)
    case Success(n) =>
      match ValidateMetrics(n)
      case Fail(e) => Failure(e)
      case Pass => Success(Join(["CVSS:3.1"] + Segments(n, MetricFields), '/'))
  }
}
