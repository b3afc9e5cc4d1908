/** The goto_conversion of bookmaker odds into outcome probabilities: validate the odds,
    take their inverses, and unless the book is already (almost) fair, shrink every
    inverse by a share of the margin that grows with its variance weight and its
    favourite-longshot bias multiplier, then renormalise. Any arithmetic failure after
    validation falls back to plain normalisation of the inverses. */
module GotoConversion {
  import opened Wrappers

  datatype ConversionError =
    | NullOdds
    | TooFewOdds
    | OddNotAboveOne(index: nat)
    | OddTooHigh(index: nat)
    | NonPositiveSum
    | ArithmeticFailure

  // ---------------------------------------------------------------------------
  // Validation (`ValidateOdds`)

  const MinimumOutcomes: nat := 2
  const MaximumOdd: real := 1000.0

  predicate ValidOdd(o: real) {
    1.0 < o <= MaximumOdd
  }

  predicate ValidOdds(odds: seq<real>) {
    |odds| >= MinimumOutcomes && forall i :: 0 <= i < |odds| ==> ValidOdd(odds[i])
  }

  /** The first odd from index `i` on that the loop rejects, with the reason. */
  function FirstInvalidOdd(odds: seq<real>, i: nat): (r: Outcome<ConversionError>)
    requires i <= |odds|
    ensures r.Pass? <==> forall k :: i <= k < |odds| ==> ValidOdd(odds[k])
    ensures r.Fail? ==> r.error.OddNotAboveOne? || r.error.OddTooHigh?
    ensures r.Fail? && r.error.OddNotAboveOne? ==>
      var k := r.error.index; i <= k < |odds| && odds[k] <= 1.0 && forall j :: i <= j < k ==> ValidOdd(odds[j])
    ensures r.Fail? && r.error.OddTooHigh? ==>
      var k := r.error.index; i <= k < |odds| && 1.0 < odds[k] && odds[k] > MaximumOdd && forall j :: i <= j < k ==> ValidOdd(odds[j])
    decreases |odds| - i
  {
    if i == |odds| then Pass
    else if odds[i] <= 1.0 then Fail(OddNotAboveOne(i))
    else if odds[i] > MaximumOdd then Fail(OddTooHigh(i))
    else FirstInvalidOdd(odds, i + 1)
  }

  /** What `ValidateOdds` throws, if anything: a null array, fewer than two odds, or the
      first odd that is not in (1, 1000]. */
  function Validation(odds: Option<seq<real>>): (r: Outcome<ConversionError>)
    ensures r.Pass? <==> odds.Some? && ValidOdds(odds.value)
    ensures r == Fail(NullOdds) <==> odds.None?
    ensures r == Fail(TooFewOdds) <==> odds.Some? && |odds.value| < MinimumOutcomes
  {
    match odds
    case None => Fail(NullOdds)
    case Some(o) => if |o| < MinimumOutcomes then Fail(TooFewOdds) else FirstInvalidOdd(o, 0)
  }

  function Contents(odds: array?<real>): Option<seq<real>>
    reads odds
  {
    if odds == null then None else Some(odds[..])
  }

  method ValidateOdds(odds: array?<real>) returns (r: Outcome<ConversionError>)
    ensures r == Validation(Contents(odds))
  {
    if odds == null {
      return Fail(NullOdds);
    }
    if odds.Length < MinimumOutcomes {
      return Fail(TooFewOdds);
    }
    for i := 0 to odds.Length
      invariant FirstInvalidOdd(odds[..], 0) == FirstInvalidOdd(odds[..], i)
    {
      if odds[i] <= 1.0 {
        return Fail(OddNotAboveOne(i));
      }
      if odds[i] > MaximumOdd {
        return Fail(OddTooHigh(i));
      }
    }
    return Pass;
  }

  // ---------------------------------------------------------------------------
  // Sums and normalisation

  /** `Enumerable.Sum`. */
  function Sum(s: seq<real>): real {
    if s == [] then 0.0 else s[0] + Sum(s[1..])
  }

  predicate AllPositive(s: seq<real>) {
    forall i :: 0 <= i < |s| ==> s[i] > 0.0
  }

  lemma {:induction false} SumOfPositives(s: seq<real>)
    requires AllPositive(s)
    ensures s != [] ==> Sum(s) > 0.0
    ensures s == [] ==> Sum(s) == 0.0
  {
    if s != [] {
      SumOfPositives(s[1..]);
    }
  }

  /** With at least two positive entries, every entry is strictly below the sum. */
  lemma {:induction false} EntryBelowSum(s: seq<real>, k: nat)
    requires AllPositive(s) && |s| >= 2 && k < |s|
    ensures s[k] < Sum(s)
  {
    SumOfPositives(s[1..]);
    if k > 0 {
      assert s[k] == s[1..][k - 1];
      if |s| > 2 {
        EntryBelowSum(s[1..], k - 1);
      } else {
        assert s[1..][1..] == [];
      }
    }
  }

  function Divided(s: seq<real>, c: real): (r: seq<real>)
    requires c != 0.0
    ensures |r| == |s| && forall i :: 0 <= i < |s| ==> r[i] == s[i] / c
  {
    seq(|s|, i requires 0 <= i < |s| => s[i] / c)
  }

  lemma {:induction false} SumDivided(s: seq<real>, c: real)
    requires c != 0.0
    ensures Sum(Divided(s, c)) == Sum(s) / c
  {
    if s != [] {
      assert Divided(s, c)[1..] == Divided(s[1..], c);
      SumDivided(s[1..], c);
      assert s[0] / c + Sum(s[1..]) / c == (s[0] + Sum(s[1..])) / c;
    }
  }

  lemma QuotientTimesDivisor(a: real, c: real)
    requires c != 0.0
    ensures (a / c) * c == a
  {
  }

  lemma ProductSign(x: real, c: real)
    requires c > 0.0
    ensures x <= 0.0 ==> x * c <= 0.0
  {
  }

  lemma QuotientBetweenZeroAndOne(a: real, c: real)
    requires 0.0 < a < c
    ensures 0.0 < a / c < 1.0
  {
    var q := a / c;
    QuotientTimesDivisor(a, c);
    ProductSign(q, c);
    ProductSign(1.0 - q, c);
    assert (1.0 - q) * c == c - q * c;
  }

  /** `NormalizeProbabilities`: every entry divided by the sum; a sum that is not positive
      is an error. */
  function Normalize(p: seq<real>): (r: Result<seq<real>, ConversionError>)
    ensures r.Failure? <==> Sum(p) <= 0.0
    ensures r.Failure? ==> r.error == NonPositiveSum
    ensures r.Success? ==> |r.value| == |p| && Sum(r.value) == 1.0
    ensures r.Success? ==> forall i :: 0 <= i < |p| ==> r.value[i] * Sum(p) == p[i]
  {
    var sum := Sum(p);
    if sum <= 0.0 then Failure(NonPositiveSum)
    else
      var q := Divided(p, sum);
      SumDivided(p, sum);
      QuotientTimesDivisor(sum, sum);
      assert forall i :: 0 <= i < |p| ==> q[i] * sum == p[i] by {
        forall i | 0 <= i < |p| ensures q[i] * sum == p[i] {
          QuotientTimesDivisor(p[i], sum);
        }
      }
      Success(q)
  }

  /** Normalising positive entries gives entries in (0, 1) when there are at least two. */
  lemma NormalizePositive(p: seq<real>)
    requires AllPositive(p) && |p| >= 2
    ensures Normalize(p).Success?
    ensures forall i :: 0 <= i < |p| ==> 0.0 < Normalize(p).value[i] < 1.0
  {
    SumOfPositives(p);
    var q := Normalize(p).value;
    forall i | 0 <= i < |p| ensures 0.0 < q[i] < 1.0 {
      EntryBelowSum(p, i);
      assert q[i] == p[i] / Sum(p);
      QuotientBetweenZeroAndOne(p[i], Sum(p));
    }
  }

  function Inverses(odds: seq<real>): (r: seq<real>)
    requires forall i :: 0 <= i < |odds| ==> odds[i] != 0.0
    ensures |r| == |odds| && forall i :: 0 <= i < |odds| ==> r[i] * odds[i] == 1.0
  {
    seq(|odds|, i requires 0 <= i < |odds| => 1.0 / odds[i])
  }

  lemma InversesOfValidOdds(odds: seq<real>)
    requires ValidOdds(odds)
    ensures AllPositive(Inverses(odds))
    ensures forall i :: 0 <= i < |odds| ==> Inverses(odds)[i] < 1.0
  {
    var inv := Inverses(odds);
    forall i | 0 <= i < |odds| ensures 0.0 < inv[i] < 1.0 {
      assert inv[i] * odds[i] == 1.0;
    }
  }

  /** `FallbackNormalization`: the naive normalised inverse odds. */
  function Fallback(odds: seq<real>): Result<seq<real>, ConversionError>
    requires forall i :: 0 <= i < |odds| ==> odds[i] != 0.0
  {
    Normalize(Inverses(odds))
  }

  lemma FallbackOfValidOdds(odds: seq<real>)
    requires ValidOdds(odds)
    ensures Fallback(odds).Success?
    ensures |Fallback(odds).value| == |odds| && Sum(Fallback(odds).value) == 1.0
    ensures forall i :: 0 <= i < |odds| ==> 0.0 < Fallback(odds).value[i] < 1.0
  {
    InversesOfValidOdds(odds);
    NormalizePositive(Inverses(odds));
  }

  // ---------------------------------------------------------------------------
  // The adjustment (`ApplyGotoConversion`, `CalculateBiasCorrection`)

  /** `CalculateBiasCorrection`: favourites get a smaller share of the margin, longshots a
      larger one. */
  function BiasCorrection(odd: real): (r: real)
    ensures 0.7 <= r <= 1.6
    ensures odd <= 2.0 ==> r == 0.7
    ensures 2.0 < odd <= 4.0 ==> r == 1.0
    ensures 4.0 < odd <= 10.0 ==> r == 1.3
    ensures 10.0 < odd ==> r == 1.6
  {
    if odd <= 2.0 then 0.7
    else if odd <= 4.0 then 1.0
    else if odd <= 10.0 then 1.3
    else 1.6
  }

  lemma BiasCorrectionMonotone(o1: real, o2: real)
    requires o1 <= o2
    ensures BiasCorrection(o1) <= BiasCorrection(o2)
  {
  }

  function Variance(p: real, odd: real): real {
    p * (1.0 - p) * odd
  }

  /** The share of the margin taken off one outcome. */
  function Reduction(margin: real, weight: real, totalWeight: real, bias: real): real
    requires totalWeight != 0.0
  {
    margin * (weight / totalWeight) * bias
  }

  /** An outcome with both a larger weight and a larger multiplier loses more. */
  lemma ReductionMonotone(margin: real, totalWeight: real, w1: real, b1: real, w2: real, b2: real)
    requires margin >= 0.0 && totalWeight > 0.0
    requires 0.0 <= w1 <= w2 && 0.0 <= b1 <= b2
    ensures Reduction(margin, w1, totalWeight, b1) <= Reduction(margin, w2, totalWeight, b2)
    ensures margin > 0.0 && w1 < w2 && b2 > 0.0 ==>
      Reduction(margin, w1, totalWeight, b1) < Reduction(margin, w2, totalWeight, b2)
    ensures margin > 0.0 && w1 > 0.0 && b1 < b2 ==>
      Reduction(margin, w1, totalWeight, b1) < Reduction(margin, w2, totalWeight, b2)
  {
    var r1, r2 := w1 / totalWeight, w2 / totalWeight;
    assert 0.0 <= r1 <= r2 && (w1 < w2 ==> r1 < r2) && (w1 > 0.0 ==> r1 > 0.0) by {
      assert r1 * totalWeight == w1 && r2 * totalWeight == w2;
    }
    assert margin * r1 <= margin * r2;
    assert 0.0 <= margin * r1;
    assert margin * r1 * b1 <= margin * r1 * b2;
    assert margin * r1 * b2 <= margin * r2 * b2;
    if margin > 0.0 && w1 < w2 && b2 > 0.0 {
      assert margin * r1 < margin * r2;
      assert margin * r1 * b2 < margin * r2 * b2;
    }
    if margin > 0.0 && w1 > 0.0 && b1 < b2 {
      assert margin * r1 > 0.0;
      assert margin * r1 * b1 < margin * r1 * b2;
    }
  }

  const ProbabilityFloor: real := 0.001

  function Max(x: real, y: real): real {
    if x >= y then x else y
  }

  function Variances(inverseProbs: seq<real>, odds: seq<real>): (r: seq<real>)
    requires |inverseProbs| == |odds|
    ensures |r| == |odds| && forall i :: 0 <= i < |odds| ==> r[i] == Variance(inverseProbs[i], odds[i])
  {
    seq(|odds|, i requires 0 <= i < |odds| => Variance(inverseProbs[i], odds[i]))
  }

  function Weights(variances: seq<real>, sqrt: real -> real): (r: seq<real>)
    ensures |r| == |variances| && forall i :: 0 <= i < |variances| ==> r[i] == sqrt(variances[i])
  {
    seq(|variances|, i requires 0 <= i < |variances| => sqrt(variances[i]))
  }

  function Adjustments(inverseProbs: seq<real>, odds: seq<real>, margin: real, weights: seq<real>, totalWeight: real): (r: seq<real>)
    requires |inverseProbs| == |odds| == |weights| && totalWeight != 0.0
    ensures |r| == |odds|
    ensures forall i :: 0 <= i < |odds| ==>
      r[i] == Max(ProbabilityFloor, inverseProbs[i] - Reduction(margin, weights[i], totalWeight, BiasCorrection(odds[i])))
  {
    seq(|odds|, i requires 0 <= i < |odds| =>
      Max(ProbabilityFloor, inverseProbs[i] - Reduction(margin, weights[i], totalWeight, BiasCorrection(odds[i]))))
  }

  /** The adjusted probabilities; `sqrt` stands for `Math.Sqrt` on doubles. A negative
      variance (whose square root is NaN and cannot be cast back to decimal) and a zero
      total weight (a division by zero) are arithmetic failures. */
  function GotoAdjust(inverseProbs: seq<real>, odds: seq<real>, margin: real, sqrt: real -> real): (r: Result<seq<real>, ConversionError>)
    requires |inverseProbs| == |odds|
    ensures r.Failure? ==> r.error == ArithmeticFailure
    ensures r.Success? ==> |r.value| == |odds| && forall i :: 0 <= i < |odds| ==> r.value[i] >= ProbabilityFloor
  {
    var variances := Variances(inverseProbs, odds);
    if exists i :: 0 <= i < |odds| && variances[i] < 0.0 then Failure(ArithmeticFailure)
    else
      var weights := Weights(variances, sqrt);
      var totalWeight := Sum(weights);
      if |odds| > 0 && totalWeight == 0.0 then Failure(ArithmeticFailure)
      else if |odds| == 0 then Success([])
      else Success(Adjustments(inverseProbs, odds, margin, weights, totalWeight))
  }

  /** `ApplyGotoConversion`: fills the weights array, then the adjusted array. */
  method ApplyGotoConversion(inverseProbs: seq<real>, odds: seq<real>, margin: real, sqrt: real -> real)
    returns (r: Result<seq<real>, ConversionError>)
    requires |inverseProbs| == |odds|
    ensures r == GotoAdjust(inverseProbs, odds, margin, sqrt)
  {
    var n := |inverseProbs|;
    var adjustedProbs := new real[n];
    var weights := new real[n];
    ghost var variances := Variances(inverseProbs, odds);
    for i := 0 to n
      invariant forall k :: 0 <= k < i ==> variances[k] >= 0.0 && weights[k] == sqrt(variances[k])
    {
      var p := inverseProbs[i];
      var variance := Variance(p, odds[i]);
      if variance < 0.0 {
        return Failure(ArithmeticFailure);
      }
      weights[i] := sqrt(variance);
    }
    ghost var w := weights[..];
    assert w == Weights(variances, sqrt);
    var totalWeight := Sum(weights[..]);
    if n == 0 {
      return Success([]);
    }
    if totalWeight == 0.0 {
      // the first `weights[i] / totalWeight` divides by zero
      return Failure(ArithmeticFailure);
    }
    ghost var adjusted := Adjustments(inverseProbs, odds, margin, w, totalWeight);
    for i := 0 to n
      invariant weights[..] == w
      invariant forall k :: 0 <= k < i ==> adjustedProbs[k] == adjusted[k]
    {
      var biasCorrection := BiasCorrection(odds[i]);
      var totalReduction := Reduction(margin, weights[i], totalWeight, biasCorrection);
      adjustedProbs[i] := Max(ProbabilityFloor, inverseProbs[i] - totalReduction);
    }
    assert adjustedProbs[..] == adjusted;
    return Success(adjustedProbs[..]);
  }

  // ---------------------------------------------------------------------------
  // The conversion (`ConvertOddsToProbabilities`)

  const FairMarginThreshold: real := 0.001

  function Margin(odds: seq<real>): real
    requires forall i :: 0 <= i < |odds| ==> odds[i] != 0.0
  {
    Sum(Inverses(odds)) - 1.0
  }

  /** The guarded part of the conversion, whose failures are caught. */
  function Attempt(odds: seq<real>, sqrt: real -> real): Result<seq<real>, ConversionError>
    requires ValidOdds(odds)
  {
    var inverseProbs := Inverses(odds);
    var margin := Sum(inverseProbs) - 1.0;
    if margin < FairMarginThreshold then Normalize(inverseProbs)
    else
      match GotoAdjust(inverseProbs, odds, margin, sqrt)
      case Failure(e) => Failure(e)
      case Success(adjusted) => Normalize(adjusted)
  }

  /** Validation errors propagate; after validation a failed attempt falls back to the
      naive normalisation. */
  function Conversion(odds: Option<seq<real>>, sqrt: real -> real): Result<seq<real>, ConversionError> {
    var v := Validation(odds);
    if v.Fail? then Failure(v.error)
    else
      var attempt := Attempt(odds.value, sqrt);
      if attempt.Success? then attempt else Fallback(odds.value)
  }

  method ConvertOddsToProbabilities(odds: array?<real>, sqrt: real -> real)
    returns (r: Result<seq<real>, ConversionError>)
    ensures r == Conversion(Contents(odds), sqrt)
  {
    var valid := ValidateOdds(odds);
    if valid.Fail? {
      return Failure(valid.error);
    }
    var o := odds[..];
    var inverseProbs := Inverses(o);
    var totalInverse := Sum(inverseProbs);
    var margin := totalInverse - 1.0;
    var attempt: Result<seq<real>, ConversionError>;
    if margin < FairMarginThreshold {
      attempt := Normalize(inverseProbs);
    } else {
      var adjusted := ApplyGotoConversion(inverseProbs, o, margin, sqrt);
      attempt := if adjusted.Success? then Normalize(adjusted.value) else Failure(adjusted.error);
    }
    if attempt.Success? {
      return attempt;
    }
    return Fallback(o);
  }

  /** Invalid input is rejected with the validation error, before any computation. */
  lemma ConversionRejectsInvalid(odds: Option<seq<real>>, sqrt: real -> real)
    ensures Conversion(odds, sqrt).Failure? <==> Validation(odds).Fail?
    ensures Validation(odds).Fail? ==> Conversion(odds, sqrt).error == Validation(odds).error
  {
    if Validation(odds).Pass? {
      var o := odds.value;
      if Attempt(o, sqrt).Failure? {
        FallbackOfValidOdds(o);
      }
    }
  }

  /** Valid odds give as many probabilities as odds, each in (0, 1), summing to one. */
  lemma ConversionOfValidOdds(odds: seq<real>, sqrt: real -> real)
    requires ValidOdds(odds)
    ensures var r := Conversion(Some(odds), sqrt);
      && r.Success?
      && |r.value| == |odds|
      && Sum(r.value) == 1.0
      && forall i :: 0 <= i < |odds| ==> 0.0 < r.value[i] < 1.0
  {
    var inv := Inverses(odds);
    InversesOfValidOdds(odds);
    FallbackOfValidOdds(odds);
    var margin := Sum(inv) - 1.0;
    if margin < FairMarginThreshold {
      NormalizePositive(inv);
    } else {
      var adj := GotoAdjust(inv, odds, margin, sqrt);
      if adj.Success? {
        assert AllPositive(adj.value);
        NormalizePositive(adj.value);
      }
    }
  }

  /** A book whose margin is below 0.001 is only normalised. */
  lemma NearFairBookIsNormalised(odds: seq<real>, sqrt: real -> real)
    requires ValidOdds(odds) && Margin(odds) < FairMarginThreshold
    ensures Conversion(Some(odds), sqrt) == Fallback(odds)
  {
    InversesOfValidOdds(odds);
    SumOfPositives(Inverses(odds));
  }

  /** When the square root keeps positive numbers positive (as `Math.Sqrt` does), an
      unfair book never falls back: the result is the renormalised adjustment. */
  lemma AdjustmentPathTaken(odds: seq<real>, sqrt: real -> real)
    requires ValidOdds(odds) && Margin(odds) >= FairMarginThreshold
    requires forall x: real :: x > 0.0 ==> sqrt(x) > 0.0
    ensures GotoAdjust(Inverses(odds), odds, Margin(odds), sqrt).Success?
    ensures Conversion(Some(odds), sqrt) == Normalize(GotoAdjust(Inverses(odds), odds, Margin(odds), sqrt).value)
  {
    var inv := Inverses(odds);
    InversesOfValidOdds(odds);
    var variances := Variances(inv, odds);
    forall i | 0 <= i < |odds| ensures variances[i] > 0.0 {
      var p := inv[i];
      assert 0.0 < p < 1.0;
      assert 0.0 < p * (1.0 - p);
      assert variances[i] == p * (1.0 - p) * odds[i];
    }
    var weights := Weights(variances, sqrt);
    SumOfPositives(weights);
    var adj := GotoAdjust(inv, odds, Margin(odds), sqrt);
    assert adj.Success?;
    assert AllPositive(adj.value);
    SumOfPositives(adj.value);
  }

  /** `CompareConversionMethods`: the conversion paired with the naive normalisation; an
      invalid input makes the first call throw. */
  method CompareConversionMethods(odds: array?<real>, sqrt: real -> real)
    returns (r: Result<(seq<real>, seq<real>), ConversionError>)
    ensures r.Failure? <==> Validation(Contents(odds)).Fail?
    ensures r.Failure? ==> r.error == Validation(Contents(odds)).error
    ensures r.Success? ==> Conversion(Contents(odds), sqrt).Success? && r.value.0 == Conversion(Contents(odds), sqrt).value
    ensures r.Success? ==> Fallback(odds[..]).Success? && r.value.1 == Fallback(odds[..]).value
  {
    var gotoResult := ConvertOddsToProbabilities(odds, sqrt);
    ConversionRejectsInvalid(Contents(odds), sqrt);
    if gotoResult.Failure? {
      return Failure(gotoResult.error);
    }
    FallbackOfValidOdds(odds[..]);
    var simpleResult := Fallback(odds[..]);
    return Success((gotoResult.value, simpleResult.value));
  }
}
