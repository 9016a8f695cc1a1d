/**
 * What the engine's arithmetic guarantees: the rounding rule, the severity
 * bands, the ranges of the three sub-scores, the zero-impact case,
 * monotonicity of exploitability and the worked example of the standard.
 */
module CvssScores {
  import opened Cvss

  // ---------------------------------------------------------------------
  // Rounding
  // ---------------------------------------------------------------------

  /** An exact tenth rounds to itself: 4.0 stays 4.0, 0.0 stays 0.0. */
  lemma RoundUpOfTenth(k: int)
    ensures RoundUp1Decimal(k as real / 10.0) == k as real / 10.0
  {
    var x := k as real / 10.0;
    assert x * 10.0 == k as real;
    var c := Ceil(x * 10.0 - Epsilon);
    assert k as real - Epsilon <= c as real < k as real - Epsilon + 1.0;
    assert c == k;
  }

  /** A value passing `IsTenth` is `k / 10` for the integer `k` it scales to. */
  lemma TenthIsScaledInteger(x: real)
    requires IsTenth(x)
    ensures x == (x * 10.0).Floor as real / 10.0
  {
  }

  /** Rounding is idempotent. */
  lemma RoundUpIdempotent(x: real)
    ensures RoundUp1Decimal(RoundUp1Decimal(x)) == RoundUp1Decimal(x)
  {
    var r := RoundUp1Decimal(x);
    TenthIsScaledInteger(r);
    RoundUpOfTenth((r * 10.0).Floor);
  }

  /** Rounding is monotone. */
  lemma RoundUpMonotone(x: real, y: real)
    requires x <= y
    ensures RoundUp1Decimal(x) <= RoundUp1Decimal(y)
  {
    var a := Ceil(x * 10.0 - Epsilon);
    var b := Ceil(y * 10.0 - Epsilon);
    assert (a as real) < x * 10.0 - Epsilon + 1.0 <= y * 10.0 - Epsilon + 1.0 <= b as real + 1.0;
    assert a <= b;
  }

  /** The result is the least tenth not below `x - 1e-10`: no smaller tenth qualifies. */
  lemma RoundUpIsLeast(x: real, t: real)
    requires IsTenth(t) && x - Epsilon / 10.0 <= t
    ensures RoundUp1Decimal(x) <= t
  {
    var r := RoundUp1Decimal(x);
    TenthIsScaledInteger(r);
    TenthIsScaledInteger(t);
    var kr := (r * 10.0).Floor;
    var kt := (t * 10.0).Floor;
    assert (kr - 1) as real / 10.0 < kt as real / 10.0;
    assert kr <= kt;
  }

  /** The examples of the rounding rule, and one the epsilon does not absorb. */
  lemma RoundUpExamples()
    ensures RoundUp1Decimal(4.02) == 4.1
    ensures RoundUp1Decimal(4.0) == 4.0
    ensures RoundUp1Decimal(0.0) == 0.0
    ensures RoundUp1Decimal(4.000000001) == 4.1
  {
    RoundUpOfTenth(40);
    RoundUpOfTenth(0);
    var a := Ceil(4.02 * 10.0 - Epsilon);
    assert 40.0 < a as real < 42.0;
    var b := Ceil(4.000000001 * 10.0 - Epsilon);
    assert 40.0 < b as real < 42.0;
  }

  // ---------------------------------------------------------------------
  // Severity
  // ---------------------------------------------------------------------

  /** On tenths the bands leave no gap: k tenths fall in exactly the band its integer range names. */
  lemma SeverityOfTenths(k: int)
    requires 0 <= k
    ensures Severity(k as real / 10.0) ==
      if k == 0 then "None"
      else if k <= 39 then "Low"
      else if k <= 69 then "Medium"
      else if k <= 89 then "High"
      else "Critical"
  {
  }

  /** Off the tenths the bands have gaps, and a value in one falls through to "Critical". */
  lemma SeverityBetweenBands()
    ensures Severity(3.95) == "Critical"
    ensures Severity(6.95) == "Critical"
  {
  }

  // ---------------------------------------------------------------------
  // Ranges of the sub-scores
  // ---------------------------------------------------------------------

  lemma MulBounds(x: real, y: real, xl: real, xh: real, yl: real, yh: real)
    requires 0.0 <= xl <= x <= xh && 0.0 <= yl <= y <= yh
    ensures xl * yl <= x * y <= xh * yh
  {
    assert xl * yl <= x * yl;
    assert x * yl <= x * y;
    assert x * y <= xh * y;
    assert xh * y <= xh * yh;
  }

  /** The raw exploitability lies between its value for P/H/H/R and for N/L/N/N. */
  lemma ExploitabilityRawRange(ms: MetricSet)
    ensures 0.12 <= ExploitabilityRaw(ms) <= 3.8871
  {
    var av, ac, pr, ui := AvWeight(ms.av), AcWeight(ms.ac), PrWeight(ms.pr, ms.s), UiWeight(ms.ui);
    MulBounds(8.22, av, 8.22, 8.22, 0.2, 0.85);
    MulBounds(8.22 * av, ac, 8.22 * 0.2, 8.22 * 0.85, 0.44, 0.77);
    MulBounds(8.22 * av * ac, pr, 8.22 * 0.2 * 0.44, 8.22 * 0.85 * 0.77, 0.27, 0.85);
    MulBounds(8.22 * av * ac * pr, ui, 8.22 * 0.2 * 0.44 * 0.27, 8.22 * 0.85 * 0.77 * 0.85, 0.62, 0.85);
  }

  /** For every metric set: score in [0, 10], impact at least 0, exploitability in (0, 3.9], all tenths. */
  lemma BaseScoreBounds(ms: MetricSet)
    ensures var r := BaseScore(ms);
      && 0.0 <= r.score <= 10.0 && IsTenth(r.score)
      && 0.0 <= r.impact && IsTenth(r.impact)
      && 0.0 < r.exploitability <= 3.9 && IsTenth(r.exploitability)
      && r.severity == Severity(r.score) && IsSeverityName(r.severity)
  {
    ExploitabilityRawRange(ms);
    var raw := ScoreRaw(ms);
    assert 0.0 <= raw <= 10.0;
    RoundUpMonotone(0.0, raw);
    RoundUpMonotone(raw, 10.0);
    RoundUpOfTenth(0);
    RoundUpOfTenth(100);
    RoundUpMonotone(0.0, Max(ImpactRaw(ms), 0.0));
    RoundUpMonotone(0.1, ExploitabilityRaw(ms));
    RoundUpMonotone(ExploitabilityRaw(ms), 3.9);
    RoundUpOfTenth(1);
    RoundUpOfTenth(39);
  }

  // ---------------------------------------------------------------------
  // No impact, no score
  // ---------------------------------------------------------------------

  /** Confidentiality, Integrity and Availability impact are all None. */
  predicate NoImpact(ms: MetricSet) {
    ms.c == CiaNone && ms.i == CiaNone && ms.a == CiaNone
  }

  /** The impact sub-score base is 0 without impact, and between 0.22 and 0.914816 otherwise. */
  lemma IscBaseRange(ms: MetricSet)
    ensures NoImpact(ms) ==> IscBase(ms) == 0.0
    ensures !NoImpact(ms) ==> 0.22 <= IscBase(ms) <= 0.914816
  {
    var c, i, a := 1.0 - CiaWeight(ms.c), 1.0 - CiaWeight(ms.i), 1.0 - CiaWeight(ms.a);
    MulBounds(c, i, 0.44, 1.0, 0.44, 1.0);
    MulBounds(c * i, a, 0.44 * 0.44, 1.0, 0.44, 1.0);
    if !NoImpact(ms) {
      if ms.c != CiaNone {
        MulBounds(c, i, 0.44, 0.78, 0.44, 1.0);
        MulBounds(c * i, a, 0.44 * 0.44, 0.78, 0.44, 1.0);
      } else if ms.i != CiaNone {
        MulBounds(c, i, 0.44, 1.0, 0.44, 0.78);
        MulBounds(c * i, a, 0.44 * 0.44, 0.78, 0.44, 1.0);
      } else {
        MulBounds(c * i, a, 1.0, 1.0, 0.44, 0.78);
      }
    }
  }

  function Abs(x: real): real {
    if x < 0.0 then -x else x
  }

  /** A power of a number in [-1, 1] is no larger in magnitude than the number itself. */
  lemma {:induction false} PowShrinks(y: real, n: nat)
    requires -1.0 <= y <= 1.0 && n >= 1
    ensures Abs(Pow(y, n)) <= Abs(y)
  {
    if n > 1 {
      PowShrinks(y, n - 1);
      ShrinkStep(y, Pow(y, n - 1));
    }
  }

  /** Multiplying by a number in [-1, 1] gives no more than that number's magnitude when the other factor is smaller. */
  lemma ShrinkStep(y: real, p: real)
    requires -1.0 <= y <= 1.0 && Abs(p) <= Abs(y)
    ensures Abs(y * p) <= Abs(y)
  {
    AbsMul(y, p);
    assert Abs(y * p) == Abs(y) * Abs(p);
    MulBounds(Abs(y), Abs(p), 0.0, 1.0, 0.0, Abs(y));
    assert Abs(y) * Abs(p) <= 1.0 * Abs(y);
  }

  /** The magnitude of a product is the product of the magnitudes. */
  lemma AbsMul(x: real, y: real)
    ensures Abs(x * y) == Abs(x) * Abs(y)
  {
    if x < 0.0 && y < 0.0 {
      assert x * y == (-x) * (-y);
    } else if x < 0.0 {
      assert -(x * y) == (-x) * y;
    } else if y < 0.0 {
      assert -(x * y) == x * (-y);
    }
  }

  /** The raw impact is positive exactly when some impact metric is not None, under either Scope. */
  lemma ImpactPositiveIff(ms: MetricSet)
    ensures ImpactRaw(ms) > 0.0 <==> !NoImpact(ms)
  {
    IscBaseRange(ms);
    var isc := IscBase(ms);
    if ms.s == Changed {
      PowShrinks(isc - 0.02, 15);
      var p := Pow(isc - 0.02, 15);
      assert -Abs(isc - 0.02) <= p <= Abs(isc - 0.02);
    }
  }

  /** Score 0.0 and severity "None" happen exactly when there is no impact. */
  lemma ScoreZeroIffNoImpact(ms: MetricSet)
    ensures ImpactRaw(ms) <= 0.0 ==> BaseScore(ms).score == 0.0 && BaseScore(ms).severity == "None"
    ensures BaseScore(ms).score == 0.0 <==> NoImpact(ms)
    ensures BaseScore(ms).severity == "None" <==> NoImpact(ms)
  {
    ImpactPositiveIff(ms);
    ExploitabilityRawRange(ms);
    RoundUpOfTenth(0);
    RoundUpOfTenth(1);
    var raw := ScoreRaw(ms);
    if ImpactRaw(ms) > 0.0 {
      assert raw >= 0.1;
      RoundUpMonotone(0.1, raw);
    }
  }

  // ---------------------------------------------------------------------
  // Monotonicity of exploitability
  // ---------------------------------------------------------------------

  /** The order P, L, A, N of Attack Vector. */
  function AvRank(v: AttackVector): nat {
    match v
    case Physical => 0
    case Local => 1
    case Adjacent => 2
    case Network => 3
  }

  /** The order H, L of Attack Complexity. */
  function AcRank(v: AttackComplexity): nat {
    match v
    case AcHigh => 0
    case AcLow => 1
  }

  /** The order H, L, N of Privileges Required. */
  function PrRank(v: PrivilegesRequired): nat {
    match v
    case PrHigh => 0
    case PrLow => 1
    case PrNone => 2
  }

  /** The order R, N of User Interaction. */
  function UiRank(v: UserInteraction): nat {
    match v
    case UiRequired => 0
    case UiNone => 1
  }

  /** A product of non-negative factors never drops when every factor grows. */
  lemma ProductMono(k: real, a: real, b: real, c: real, d: real, a2: real, b2: real, c2: real, d2: real)
    requires 0.0 <= k && 0.0 <= a <= a2 && 0.0 <= b <= b2 && 0.0 <= c <= c2 && 0.0 <= d <= d2
    ensures k * a * b * c * d <= k * a2 * b2 * c2 * d2
  {
    MulBounds(k, a, k, k, 0.0, a2);
    MulBounds(k * a, b, 0.0, k * a2, 0.0, b2);
    MulBounds(k * a * b, c, 0.0, k * a2 * b2, 0.0, c2);
    MulBounds(k * a * b * c, d, 0.0, k * a2 * b2 * c2, 0.0, d2);
  }

  /** Rounding keeps the order of two raw exploitability values. */
  lemma RoundedExploitability(a: MetricSet, b: MetricSet)
    requires ExploitabilityRaw(a) <= ExploitabilityRaw(b)
    ensures BaseScore(a).exploitability <= BaseScore(b).exploitability
  {
    RoundUpMonotone(ExploitabilityRaw(a), ExploitabilityRaw(b));
  }

  /** Exploitability never drops along P, L, A, N, raw or rounded. */
  lemma ExploitabilityMonotoneAv(ms: MetricSet, v: AttackVector)
    requires AvRank(ms.av) <= AvRank(v)
    ensures ExploitabilityRaw(ms) <= ExploitabilityRaw(ms.(av := v))
    ensures BaseScore(ms).exploitability <= BaseScore(ms.(av := v)).exploitability
  {
    var t := ms.(av := v);
    ProductMono(8.22, AvWeight(ms.av), AcWeight(ms.ac), PrWeight(ms.pr, ms.s), UiWeight(ms.ui),
      AvWeight(t.av), AcWeight(t.ac), PrWeight(t.pr, t.s), UiWeight(t.ui));
    RoundedExploitability(ms, t);
  }

  /** Exploitability never drops from AC:H to AC:L, raw or rounded. */
  lemma ExploitabilityMonotoneAc(ms: MetricSet, v: AttackComplexity)
    requires AcRank(ms.ac) <= AcRank(v)
    ensures ExploitabilityRaw(ms) <= ExploitabilityRaw(ms.(ac := v))
    ensures BaseScore(ms).exploitability <= BaseScore(ms.(ac := v)).exploitability
  {
    var t := ms.(ac := v);
    ProductMono(8.22, AvWeight(ms.av), AcWeight(ms.ac), PrWeight(ms.pr, ms.s), UiWeight(ms.ui),
      AvWeight(t.av), AcWeight(t.ac), PrWeight(t.pr, t.s), UiWeight(t.ui));
    RoundedExploitability(ms, t);
  }

  /** Exploitability never drops along PR H, L, N, with the table the Scope selects. */
  lemma ExploitabilityMonotonePr(ms: MetricSet, v: PrivilegesRequired)
    requires PrRank(ms.pr) <= PrRank(v)
    ensures ExploitabilityRaw(ms) <= ExploitabilityRaw(ms.(pr := v))
    ensures BaseScore(ms).exploitability <= BaseScore(ms.(pr := v)).exploitability
  {
    var t := ms.(pr := v);
    ProductMono(8.22, AvWeight(ms.av), AcWeight(ms.ac), PrWeight(ms.pr, ms.s), UiWeight(ms.ui),
      AvWeight(t.av), AcWeight(t.ac), PrWeight(t.pr, t.s), UiWeight(t.ui));
    RoundedExploitability(ms, t);
  }

  /** Exploitability never drops from UI:R to UI:N, raw or rounded. */
  lemma ExploitabilityMonotoneUi(ms: MetricSet, v: UserInteraction)
    requires UiRank(ms.ui) <= UiRank(v)
    ensures ExploitabilityRaw(ms) <= ExploitabilityRaw(ms.(ui := v))
    ensures BaseScore(ms).exploitability <= BaseScore(ms.(ui := v)).exploitability
  {
    var t := ms.(ui := v);
    ProductMono(8.22, AvWeight(ms.av), AcWeight(ms.ac), PrWeight(ms.pr, ms.s), UiWeight(ms.ui),
      AvWeight(t.av), AcWeight(t.ac), PrWeight(t.pr, t.s), UiWeight(t.ui));
    RoundedExploitability(ms, t);
  }

  // ---------------------------------------------------------------------
  // Worked examples
  // ---------------------------------------------------------------------

  /** AV:N/AC:L/PR:N/UI:N/S:U/C:H/I:H/A:H scores 9.8, Critical, impact 5.9, exploitability 3.9. */
  lemma WorkedExampleCritical()
    ensures BaseScore(MetricSet(Network, AcLow, PrNone, UiNone, Unchanged, CiaHigh, CiaHigh, CiaHigh))
      == CvssResult(9.8, "Critical", 5.9, 3.9)
  {
    var ms := MetricSet(Network, AcLow, PrNone, UiNone, Unchanged, CiaHigh, CiaHigh, CiaHigh);
    assert ExploitabilityRaw(ms) == 3.887042775;
    assert IscBase(ms) == 0.914816;
    assert ImpactRaw(ms) == 5.87311872;
    assert ScoreRaw(ms) == 9.760161495;
    var e := Ceil(3.887042775 * 10.0 - Epsilon);
    assert 38.0 < e as real < 40.0;
    var i := Ceil(5.87311872 * 10.0 - Epsilon);
    assert 58.0 < i as real < 60.0;
    var s := Ceil(9.760161495 * 10.0 - Epsilon);
    assert 97.0 < s as real < 99.0;
  }

  /** AV:P/AC:H/PR:H/UI:R/S:U/C:N/I:N/A:N scores 0.0, severity None. */
  lemma WorkedExampleNone()
    ensures BaseScore(MetricSet(Physical, AcHigh, PrHigh, UiRequired, Unchanged, CiaNone, CiaNone, CiaNone)).score == 0.0
    ensures BaseScore(MetricSet(Physical, AcHigh, PrHigh, UiRequired, Unchanged, CiaNone, CiaNone, CiaNone)).severity == "None"
  {
    ScoreZeroIffNoImpact(MetricSet(Physical, AcHigh, PrHigh, UiRequired, Unchanged, CiaNone, CiaNone, CiaNone));
  }
}
