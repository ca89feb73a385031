/**
 * The risk-scoring engine of app.py: the AHI estimate, the severity and
 * weight-category ladders, the sleep-quality score and its percentage table,
 * the doctor's recommendation ladder and the BMI the route derives from
 * weight and height.  Python floats are modelled as exact reals.
 */
module RiskScoring {
  import opened Wrappers
  import opened Rounding

  // ---------------------------------------------------------------------
  // Position of a label in an ordered table of labels
  // ---------------------------------------------------------------------

  function IndexFrom(xs: seq<string>, x: string, k: nat): (i: int)
    requires k <= |xs|
    ensures x in xs[k..] ==> k <= i < |xs| && xs[i] == x && x !in xs[k..i]
    ensures x !in xs[k..] ==> i == -1
    decreases |xs| - k
  {
    if k == |xs| then -1
    else if xs[k] == x then k
    else
      assert xs[k..] == [xs[k]] + xs[k + 1..];
      IndexFrom(xs, x, k + 1)
  }

  /** The first position of `x` in `xs`, or -1 when it is absent. */
  function IndexOf(xs: seq<string>, x: string): (i: int)
    ensures x in xs ==> 0 <= i < |xs| && xs[i] == x && x !in xs[..i]
    ensures x !in xs ==> i == -1
  {
    assert xs[0..] == xs;
    IndexFrom(xs, x, 0)
  }

  ghost predicate Distinct(xs: seq<string>)
  {
    forall i, j :: 0 <= i < j < |xs| ==> xs[i] != xs[j]
  }

  /** In a table without repeats, the position of the k-th entry is k. */
  lemma IndexOfDistinct(xs: seq<string>, k: nat)
    requires Distinct(xs) && k < |xs|
    ensures IndexOf(xs, xs[k]) == k
  {
  }

  // ---------------------------------------------------------------------
  // predict_ahi
  // ---------------------------------------------------------------------

  /** `base_ahi`: the BMI ladder. */
  function BmiFactor(bmi: real): (f: nat)
    ensures f in {3, 8, 15, 25, 35}
  {
    if bmi >= 40.0 then 35
    else if bmi >= 35.0 then 25
    else if bmi >= 30.0 then 15
    else if bmi >= 25.0 then 8
    else 3
  }

  /** `oxygen_factor`: the desaturation penalty ladder. */
  function OxygenFactor(oxygenSaturation: real): (f: nat)
    ensures f in {0, 4, 8, 12}
  {
    if oxygenSaturation < 90.0 then 12
    else if oxygenSaturation < 93.0 then 8
    else if oxygenSaturation < 95.0 then 4
    else 0
  }

  /** `snoring_factor`: proportional to the score, so it has the score's sign. */
  function SnoringFactor(snoreScore: real): (f: real)
    ensures f >= 0.0 <==> snoreScore >= 0.0
    ensures f == 0.0 <==> snoreScore == 0.0
  {
    snoreScore * 1.5
  }

  /** `age_factor`. */
  function AgeFactor(age: real): (f: nat)
    ensures f in {0, 1, 2, 4}
  {
    if age >= 60.0 then 4
    else if age >= 50.0 then 2
    else if age >= 40.0 then 1
    else 0
  }

  /** `pulse_factor`. */
  function PulseFactor(pulseRate: real): (f: nat)
    ensures f in {0, 1, 2}
  {
    if pulseRate >= 90.0 then 2
    else if pulseRate >= 80.0 then 1
    else 0
  }

  /** The BMI ladder's breakpoints are inclusive lower bounds at 25, 30, 35 and 40. */
  lemma BmiFactorBreakpoints(bmi: real)
    ensures BmiFactor(bmi) >= 8 <==> bmi >= 25.0
    ensures BmiFactor(bmi) >= 15 <==> bmi >= 30.0
    ensures BmiFactor(bmi) >= 25 <==> bmi >= 35.0
    ensures BmiFactor(bmi) == 35 <==> bmi >= 40.0
  {
  }

  /** The oxygen ladder's breakpoints are strict upper bounds at 95, 93 and 90. */
  lemma OxygenFactorBreakpoints(oxygenSaturation: real)
    ensures OxygenFactor(oxygenSaturation) >= 4 <==> oxygenSaturation < 95.0
    ensures OxygenFactor(oxygenSaturation) >= 8 <==> oxygenSaturation < 93.0
    ensures OxygenFactor(oxygenSaturation) == 12 <==> oxygenSaturation < 90.0
  {
  }

  lemma AgeFactorBreakpoints(age: real)
    ensures AgeFactor(age) >= 1 <==> age >= 40.0
    ensures AgeFactor(age) >= 2 <==> age >= 50.0
    ensures AgeFactor(age) == 4 <==> age >= 60.0
  {
  }

  lemma PulseFactorBreakpoints(pulseRate: real)
    ensures PulseFactor(pulseRate) >= 1 <==> pulseRate >= 80.0
    ensures PulseFactor(pulseRate) == 2 <==> pulseRate >= 90.0
  {
  }

  /** Each factor moves with its input: up with BMI, age, pulse and snoring, down with saturation. */
  lemma FactorsMonotone(lo: real, hi: real)
    requires lo <= hi
    ensures BmiFactor(lo) <= BmiFactor(hi)
    ensures OxygenFactor(lo) >= OxygenFactor(hi)
    ensures SnoringFactor(lo) <= SnoringFactor(hi)
    ensures AgeFactor(lo) <= AgeFactor(hi)
    ensures PulseFactor(lo) <= PulseFactor(hi)
  {
  }

  /**
   * The weighted sum of the five factors (app.py:130-136). Apart from the
   * snoring term 0.15 * snoreScore, it lies between 1.5 (every ladder at its
   * lowest step) and 21.4 (every ladder at its highest).
   */
  function WeightedSum(bmi: real, oxygenSaturation: real, snoreScore: real, age: real, pulseRate: real): (s: real)
    ensures 1.5 <= s - 0.15 * snoreScore <= 21.4
  {
    BmiFactor(bmi) as real * 0.5
    + OxygenFactor(oxygenSaturation) as real * 0.3
    + SnoringFactor(snoreScore) * 0.1
    + AgeFactor(age) as real * 0.05
    + PulseFactor(pulseRate) as real * 0.05
  }

  /** The diminishing-returns step `x * (1 - 0.1 * (x / 100))`. */
  function Damp(x: real): real
  {
    x * (1.0 - 0.1 * (x / 100.0))
  }

  /** `max(0, min(100, x))`. */
  function Clamp(x: real): (r: real)
    ensures 0.0 <= r <= 100.0
    ensures 0.0 <= x <= 100.0 ==> r == x
  {
    if x > 100.0 then 100.0 else if x < 0.0 then 0.0 else x
  }

  lemma NonNegativeProduct(a: real, b: real)
    requires 0.0 <= a && 0.0 <= b
    ensures 0.0 <= a * b
  {
  }

  /** Damping never raises a non-negative sum and keeps sums up to 1000 non-negative. */
  lemma DampShrinks(x: real)
    requires 0.0 <= x
    ensures Damp(x) <= x
    ensures x <= 1000.0 ==> 0.0 <= Damp(x)
  {
    NonNegativeProduct(x, x);
    if x <= 1000.0 {
      NonNegativeProduct(x, 1.0 - 0.1 * (x / 100.0));
    }
  }

  /** Damping is increasing up to 500, where `x - x^2/1000` peaks. */
  lemma DampMonotone(x: real, y: real)
    requires x <= y <= 500.0
    ensures Damp(x) <= Damp(y)
  {
    assert Damp(y) - Damp(x) == (y - x) * (1.0 - (x + y) / 1000.0);
    assert (y - x) * (1.0 - (x + y) / 1000.0) >= 0.0;
  }

  /** `final_ahi` just before the final rounding (app.py:139-142). */
  function AhiBeforeRounding(bmi: real, oxygenSaturation: real, snoreScore: real, age: real, pulseRate: real): (r: real)
    ensures 0.0 <= r <= 100.0
  {
    Clamp(Damp(WeightedSum(bmi, oxygenSaturation, snoreScore, age, pulseRate)))
  }

  /** `predict_ahi`: the estimate always lies in [0, 100], whatever the inputs, with at most one decimal. */
  function PredictAhi(bmi: real, oxygenSaturation: real, snoreScore: real, age: real, pulseRate: real): (ahi: real)
    ensures 0.0 <= ahi <= 100.0
    ensures (ahi * 10.0).Floor as real == ahi * 10.0
  {
    var raw := AhiBeforeRounding(bmi, oxygenSaturation, snoreScore, age, pulseRate);
    RoundWithin(raw, 0, 100, 1);
    RoundTenthOnGrid(raw);
    assert Scale(1) == 10;
    Round(raw, 1)
  }

  /** The estimate is the unrounded value rounded to the nearest tenth: it moves by at most 0.05. */
  lemma PredictAhiNearest(bmi: real, oxygenSaturation: real, snoreScore: real, age: real, pulseRate: real)
    ensures var raw := AhiBeforeRounding(bmi, oxygenSaturation, snoreScore, age, pulseRate);
      -1.0 / 2.0 <= (PredictAhi(bmi, oxygenSaturation, snoreScore, age, pulseRate) - raw) * 10.0 <= 1.0 / 2.0
  {
  }

  /**
   * The estimate never falls when BMI, snoring, age or pulse rise or when the
   * saturation falls, as long as the sum stays below the damping's peak
   * (any snore score up to 3000 keeps it there).
   */
  lemma PredictAhiMonotone(bmi: real, bmi': real, oxygen: real, oxygen': real, snore: real, snore': real,
                           age: real, age': real, pulse: real, pulse': real)
    requires bmi <= bmi' && oxygen' <= oxygen && snore <= snore' <= 3000.0 && age <= age' && pulse <= pulse'
    ensures PredictAhi(bmi, oxygen, snore, age, pulse) <= PredictAhi(bmi', oxygen', snore', age', pulse')
  {
    FactorsMonotone(bmi, bmi');
    FactorsMonotone(oxygen', oxygen);
    FactorsMonotone(snore, snore');
    FactorsMonotone(age, age');
    FactorsMonotone(pulse, pulse');
    var s := WeightedSum(bmi, oxygen, snore, age, pulse);
    var s' := WeightedSum(bmi', oxygen', snore', age', pulse');
    assert s <= s' <= 500.0;
    DampMonotone(s, s');
    RoundMonotone(Clamp(Damp(s)), Clamp(Damp(s')), 1);
  }

  /** Worked example: BMI 42, saturation 85, no snoring, age 65, pulse 95. */
  lemma PredictAhiExample()
    ensures WeightedSum(42.0, 85.0, 0.0, 65.0, 95.0) == 21.4
    ensures AhiBeforeRounding(42.0, 85.0, 0.0, 65.0, 95.0) == 20.94204
    ensures PredictAhi(42.0, 85.0, 0.0, 65.0, 95.0) == 20.9
    ensures SeverityLevel(20.9) == "Moderate"
  {
    assert Damp(21.4) == 20.94204;
    assert Scale(1) == 10;
    assert (20.94204 * 10.0).Floor == 209;
    assert RoundHalfEvenInt(20.94204 * 10.0) == 209;
  }

  /**
   * Past the damping's peak the estimate falls as snoring rises: a large
   * enough snore score drives the damped sum negative and the clamp makes
   * it 0. This is why `PredictAhiMonotone` bounds the snore scores.
   */
  lemma PredictAhiFallsPastPeak()
    ensures PredictAhi(20.0, 98.0, 0.0, 30.0, 70.0) == 1.5
    ensures PredictAhi(20.0, 98.0, 10000.0, 30.0, 70.0) == 0.0
  {
    assert WeightedSum(20.0, 98.0, 0.0, 30.0, 70.0) == 1.5;
    assert Damp(1.5) == 1.49775;
    assert Scale(1) == 10;
    assert (1.49775 * 10.0).Floor == 14;
    assert RoundHalfEvenInt(1.49775 * 10.0) == 15;
    assert WeightedSum(20.0, 98.0, 10000.0, 30.0, 70.0) == 1501.5;
    assert Damp(1501.5) < 0.0;
    assert RoundHalfEvenInt(0.0 * 10.0) == 0;
  }

  // ---------------------------------------------------------------------
  // get_severity_level and get_weight_category
  // ---------------------------------------------------------------------

  /** The severity labels, mildest first. */
  const SeverityLabels: seq<string> := ["Normal", "Mild", "Moderate", "Severe"]

  /** `get_severity_level`: total over all reals, always one of four labels. */
  function SeverityLevel(ahi: real): (s: string)
    ensures s in SeverityLabels
  {
    if ahi >= 30.0 then "Severe"
    else if ahi >= 15.0 then "Moderate"
    else if ahi >= 5.0 then "Mild"
    else "Normal"
  }

  /** Each severity label covers exactly one AHI band, closed below. */
  lemma SeverityBands(ahi: real)
    ensures SeverityLevel(ahi) == "Severe" <==> 30.0 <= ahi
    ensures SeverityLevel(ahi) == "Moderate" <==> 15.0 <= ahi < 30.0
    ensures SeverityLevel(ahi) == "Mild" <==> 5.0 <= ahi < 15.0
    ensures SeverityLevel(ahi) == "Normal" <==> ahi < 5.0
  {
  }

  /** A larger AHI never gets a milder severity. */
  lemma SeverityMonotone(ahi: real, ahi': real)
    requires ahi <= ahi'
    ensures IndexOf(SeverityLabels, SeverityLevel(ahi)) <= IndexOf(SeverityLabels, SeverityLevel(ahi'))
  {
    assert IndexOf(SeverityLabels, "Normal") == 0;
    assert IndexOf(SeverityLabels, "Mild") == 1;
    assert IndexOf(SeverityLabels, "Moderate") == 2;
    assert IndexOf(SeverityLabels, "Severe") == 3;
  }

  /** The weight categories, lightest first. */
  const WeightCategories: seq<string> :=
    ["Normal Weight", "Overweight", "Mild Obesity", "Moderate Obesity", "Severe Obesity"]

  /** `get_weight_category`: total over all reals, always one of five labels. */
  function WeightCategory(bmi: real): (c: string)
    ensures c in WeightCategories
  {
    if bmi >= 40.0 then "Severe Obesity"
    else if bmi >= 35.0 then "Moderate Obesity"
    else if bmi >= 30.0 then "Mild Obesity"
    else if bmi >= 25.0 then "Overweight"
    else "Normal Weight"
  }

  /** Each weight category covers exactly one BMI band, closed below. */
  lemma WeightCategoryBands(bmi: real)
    ensures WeightCategory(bmi) == "Severe Obesity" <==> 40.0 <= bmi
    ensures WeightCategory(bmi) == "Moderate Obesity" <==> 35.0 <= bmi < 40.0
    ensures WeightCategory(bmi) == "Mild Obesity" <==> 30.0 <= bmi < 35.0
    ensures WeightCategory(bmi) == "Overweight" <==> 25.0 <= bmi < 30.0
    ensures WeightCategory(bmi) == "Normal Weight" <==> bmi < 25.0
  {
  }

  /** The category's position in the table counts the breakpoints at or below the BMI. */
  lemma WeightCategoryPosition(bmi: real)
    ensures IndexOf(WeightCategories, WeightCategory(bmi))
            == (if bmi >= 25.0 then 1 else 0) + (if bmi >= 30.0 then 1 else 0)
             + (if bmi >= 35.0 then 1 else 0) + (if bmi >= 40.0 then 1 else 0)
  {
    assert Distinct(WeightCategories);
    var k := (if bmi >= 25.0 then 1 else 0) + (if bmi >= 30.0 then 1 else 0)
           + (if bmi >= 35.0 then 1 else 0) + (if bmi >= 40.0 then 1 else 0);
    assert WeightCategory(bmi) == WeightCategories[k];
    IndexOfDistinct(WeightCategories, k);
  }

  /** A larger BMI never gets a lighter category. */
  lemma WeightCategoryMonotone(bmi: real, bmi': real)
    requires bmi <= bmi'
    ensures IndexOf(WeightCategories, WeightCategory(bmi)) <= IndexOf(WeightCategories, WeightCategory(bmi'))
  {
    WeightCategoryPosition(bmi);
    WeightCategoryPosition(bmi');
  }

  // ---------------------------------------------------------------------
  // calculate_sleep_quality and sleep_quality_map
  // ---------------------------------------------------------------------

  /** `ahi_score`. */
  function AhiScore(ahi: real): (r: real)
    ensures 0.0 <= r
    ensures 0.0 <= ahi ==> r <= 100.0
  {
    if 100.0 - ahi * 2.0 > 0.0 then 100.0 - ahi * 2.0 else 0.0
  }

  /** `snoring_score_norm`. */
  function SnoringScore(snoreScore: real): (r: real)
    ensures 0.0 <= r
    ensures 0.0 <= snoreScore ==> r <= 100.0
  {
    if 100.0 - snoreScore * 10.0 > 0.0 then 100.0 - snoreScore * 10.0 else 0.0
  }

  /** `oxygen_score`: not clamped; over saturations in [0, 100] it spans [-400, 100]. */
  function OxygenScore(oxygenSaturation: real): (r: real)
    ensures 0.0 <= oxygenSaturation <= 100.0 ==> -400.0 <= r <= 100.0
    ensures r < 0.0 <==> oxygenSaturation < 80.0
  {
    (oxygenSaturation - 80.0) * 5.0
  }

  /** `pulse_score`: in [0, 100] for every pulse, 100 only at exactly 60. */
  function PulseScore(pulse: real): (r: real)
    ensures 0.0 <= r <= 100.0
    ensures r == 100.0 <==> pulse == 60.0
  {
    var deviation := if pulse >= 60.0 then pulse - 60.0 else 60.0 - pulse;
    if 100.0 - deviation * 2.0 > 0.0 then 100.0 - deviation * 2.0 else 0.0
  }

  /**
   * `total_score` (app.py:52-58): at most 100 for a non-negative AHI and snore
   * score and a saturation up to 100, and never below -80 for a saturation of
   * at least 0.
   */
  function SleepQualityTotal(ahi: real, snoreScore: real, oxygenSaturation: real, pulse: real): (total: real)
    ensures 0.0 <= ahi && 0.0 <= snoreScore && oxygenSaturation <= 100.0 ==> total <= 100.0
    ensures 0.0 <= oxygenSaturation ==> -80.0 <= total
  {
    AhiScore(ahi) * 0.4 + SnoringScore(snoreScore) * 0.3 + OxygenScore(oxygenSaturation) * 0.2 + PulseScore(pulse) * 0.1
  }

  /** The sleep-quality labels, worst first. */
  const QualityLabels: seq<string> :=
    ["Extremely Poor", "Very Poor", "Poor", "Moderately Poor", "Moderate", "Mild", "Very Mild", "Good"]

  /** The label ladder at the end of `calculate_sleep_quality`. */
  function QualityLabel(total: real): (s: string)
    ensures s in QualityLabels
  {
    if total >= 90.0 then "Good"
    else if total >= 80.0 then "Very Mild"
    else if total >= 70.0 then "Mild"
    else if total >= 60.0 then "Moderate"
    else if total >= 50.0 then "Moderately Poor"
    else if total >= 40.0 then "Poor"
    else if total >= 30.0 then "Very Poor"
    else "Extremely Poor"
  }

  /** `calculate_sleep_quality`. */
  function CalculateSleepQuality(ahi: real, snoreScore: real, oxygenSaturation: real, pulse: real): (s: string)
    ensures s in QualityLabels
  {
    QualityLabel(SleepQualityTotal(ahi, snoreScore, oxygenSaturation, pulse))
  }

  /** Label thresholds are inclusive lower bounds: exactly 90 is "Good", anything below 30 "Extremely Poor". */
  lemma QualityLabelBands(total: real)
    ensures QualityLabel(total) == "Good" <==> 90.0 <= total
    ensures QualityLabel(total) == "Very Mild" <==> 80.0 <= total < 90.0
    ensures QualityLabel(total) == "Mild" <==> 70.0 <= total < 80.0
    ensures QualityLabel(total) == "Moderate" <==> 60.0 <= total < 70.0
    ensures QualityLabel(total) == "Moderately Poor" <==> 50.0 <= total < 60.0
    ensures QualityLabel(total) == "Poor" <==> 40.0 <= total < 50.0
    ensures QualityLabel(total) == "Very Poor" <==> 30.0 <= total < 40.0
    ensures QualityLabel(total) == "Extremely Poor" <==> total < 30.0
  {
  }

  /** The label → percentage table `sleep_quality_map`. */
  const SleepQualityMap: map<string, int> := map[
    "Extremely Poor" := 20,
    "Very Poor" := 40,
    "Poor" := 50,
    "Moderately Poor" := 60,
    "Moderate" := 70,
    "Mild" := 80,
    "Very Mild" := 90,
    "Good" := 100
  ]

  /** `sleep_quality_map.get(label, 50)`: a table value, or 50 for a label the table lacks. */
  function SleepQualityPercentage(quality: string): (p: int)
    ensures p in {20, 40, 50, 60, 70, 80, 90, 100}
    ensures quality !in SleepQualityMap ==> p == 50
  {
    if quality in SleepQualityMap then SleepQualityMap[quality] else 50
  }

  /**
   * Every label the scorer produces is a key of the table, so the default 50
   * is never what decides the percentage, and the percentage is one of eight values.
   */
  lemma SleepQualityPercentageTotal(ahi: real, snoreScore: real, oxygenSaturation: real, pulse: real)
    ensures CalculateSleepQuality(ahi, snoreScore, oxygenSaturation, pulse) in SleepQualityMap
    ensures SleepQualityPercentage(CalculateSleepQuality(ahi, snoreScore, oxygenSaturation, pulse))
              in {20, 40, 50, 60, 70, 80, 90, 100}
  {
    var quality := CalculateSleepQuality(ahi, snoreScore, oxygenSaturation, pulse);
    assert quality in QualityLabels;
  }

  /** A higher total never gives a lower percentage. */
  lemma PercentageMonotone(total: real, total': real)
    requires total <= total'
    ensures SleepQualityPercentage(QualityLabel(total)) <= SleepQualityPercentage(QualityLabel(total'))
  {
  }

  /** Holding the other inputs fixed, a larger AHI never improves the sleep-quality percentage. */
  lemma SleepQualityNonIncreasingInAhi(ahi: real, ahi': real, snoreScore: real, oxygenSaturation: real, pulse: real)
    requires ahi <= ahi'
    ensures SleepQualityPercentage(CalculateSleepQuality(ahi', snoreScore, oxygenSaturation, pulse))
            <= SleepQualityPercentage(CalculateSleepQuality(ahi, snoreScore, oxygenSaturation, pulse))
  {
    assert AhiScore(ahi') <= AhiScore(ahi);
    PercentageMonotone(SleepQualityTotal(ahi', snoreScore, oxygenSaturation, pulse),
                       SleepQualityTotal(ahi, snoreScore, oxygenSaturation, pulse));
  }

  // ---------------------------------------------------------------------
  // The doctor's recommendation ladder in the `predict` route
  // ---------------------------------------------------------------------

  const UrgentAdvice := "🚨 URGENT: Immediate specialist consultation required. Severe sleep apnea detected with high risk of complications."
  const CriticalAdvice := "⚠️ Critical: Severe condition detected. Medical intervention is necessary. Consider CPAP therapy."
  const SevereAdvice := "⚠️ Severe: Strongly recommended to consult a sleep specialist. Lifestyle changes and medical treatment may be needed."
  const HighRiskAdvice := "🔶 High Risk: Lifestyle changes & medical guidance suggested. Consider weight management and sleep position therapy."
  const ModerateRiskAdvice := "🟡 Moderate Risk: Medical consultation advised. Focus on sleep hygiene and weight management."
  const MildAdvice := "🟢 Mild: Consider lifestyle changes & monitor symptoms. Maintain healthy sleep habits."
  const NoApneaAdvice := "✅ No sleep apnea detected. Continue maintaining healthy sleep habits."

  /** The seven messages, least urgent first. */
  const Recommendations: seq<string> :=
    [NoApneaAdvice, MildAdvice, ModerateRiskAdvice, HighRiskAdvice, SevereAdvice, CriticalAdvice, UrgentAdvice]

  /** The recommendation ladder: total, always one of the seven messages. */
  function DoctorRecommendation(ahi: real): (m: string)
    ensures m in Recommendations
  {
    if ahi >= 30.0 then UrgentAdvice
    else if ahi >= 20.0 then CriticalAdvice
    else if ahi >= 15.0 then SevereAdvice
    else if ahi >= 10.0 then HighRiskAdvice
    else if ahi >= 5.0 then ModerateRiskAdvice
    else if ahi >= 3.0 then MildAdvice
    else NoApneaAdvice
  }

  /** The seven messages are distinct, so each band picks exactly one of them. */
  lemma RecommendationsDistinct()
    ensures forall i, j :: 0 <= i < j < |Recommendations| ==> Recommendations[i] != Recommendations[j]
  {
  }

  /** Each message covers exactly one AHI band, closed below. */
  lemma RecommendationBands(ahi: real)
    ensures DoctorRecommendation(ahi) == UrgentAdvice <==> 30.0 <= ahi
    ensures DoctorRecommendation(ahi) == CriticalAdvice <==> 20.0 <= ahi < 30.0
    ensures DoctorRecommendation(ahi) == SevereAdvice <==> 15.0 <= ahi < 20.0
    ensures DoctorRecommendation(ahi) == HighRiskAdvice <==> 10.0 <= ahi < 15.0
    ensures DoctorRecommendation(ahi) == ModerateRiskAdvice <==> 5.0 <= ahi < 10.0
    ensures DoctorRecommendation(ahi) == MildAdvice <==> 3.0 <= ahi < 5.0
    ensures DoctorRecommendation(ahi) == NoApneaAdvice <==> ahi < 3.0
  {
    RecommendationsDistinct();
  }

  /** The message's position in the table counts the breakpoints at or below the AHI. */
  lemma RecommendationPosition(ahi: real)
    ensures IndexOf(Recommendations, DoctorRecommendation(ahi))
            == (if ahi >= 3.0 then 1 else 0) + (if ahi >= 5.0 then 1 else 0) + (if ahi >= 10.0 then 1 else 0)
             + (if ahi >= 15.0 then 1 else 0) + (if ahi >= 20.0 then 1 else 0) + (if ahi >= 30.0 then 1 else 0)
  {
    RecommendationsDistinct();
    var k := (if ahi >= 3.0 then 1 else 0) + (if ahi >= 5.0 then 1 else 0) + (if ahi >= 10.0 then 1 else 0)
           + (if ahi >= 15.0 then 1 else 0) + (if ahi >= 20.0 then 1 else 0) + (if ahi >= 30.0 then 1 else 0);
    assert DoctorRecommendation(ahi) == Recommendations[k];
    IndexOfDistinct(Recommendations, k);
  }

  /** A larger AHI never gets a less urgent message. */
  lemma RecommendationMonotone(ahi: real, ahi': real)
    requires ahi <= ahi'
    ensures IndexOf(Recommendations, DoctorRecommendation(ahi)) <= IndexOf(Recommendations, DoctorRecommendation(ahi'))
  {
    RecommendationPosition(ahi);
    RecommendationPosition(ahi');
  }

  // ---------------------------------------------------------------------
  // BMI from the submitted weight (kg) and height (cm)
  // ---------------------------------------------------------------------

  /** weight / height^2 with the height in metres. */
  function ExactBmi(weightKg: real, heightM: real): (bmi: real)
    requires heightM != 0.0
    ensures bmi * (heightM * heightM) == weightKg
  {
    weightKg / (heightM * heightM)
  }

  /**
   * `round(weight / (height ** 2), 2)` after `height = height_cm / 100`; a zero
   * height raises ZeroDivisionError in Python, modelled as None.
   */
  function Bmi(weightKg: real, heightCm: real): (r: Option<real>)
    ensures r.None? <==> heightCm == 0.0
    ensures r.Some? ==> -1.0 / 2.0 <= (r.value - ExactBmi(weightKg, heightCm / 100.0)) * 100.0 <= 1.0 / 2.0
  {
    var heightM := heightCm / 100.0;
    if heightM == 0.0 then None
    else
      var exact := ExactBmi(weightKg, heightM);
      RoundIsNearest(exact, 2);
      assert Scale(2) == 100;
      Some(Round(exact, 2))
  }

  // ---------------------------------------------------------------------
  // Category codes handed to the advice model
  // ---------------------------------------------------------------------

  /**
   * `LabelEncoder().fit_transform([category])[0]` as the route calls it: fitted on
   * the one label alone, whose only class is that label, so the code is always 0.
   */
  function SingletonLabelCode(category: string): (code: int)
    ensures code == IndexOf([category], category)
  {
    0
  }

  /** Every severity, and every weight category, gets the same code: the encoding carries nothing. */
  lemma SingletonCodesCollide()
    ensures SingletonLabelCode(SeverityLevel(0.0)) == SingletonLabelCode(SeverityLevel(30.0))
    ensures SeverityLevel(0.0) != SeverityLevel(30.0)
    ensures SingletonLabelCode(WeightCategory(20.0)) == SingletonLabelCode(WeightCategory(45.0))
    ensures WeightCategory(20.0) != WeightCategory(45.0)
  {
  }

  /** The severity classes as a LabelEncoder fitted on all four sorts them. */
  const SortedSeverityLabels: seq<string> := ["Mild", "Moderate", "Normal", "Severe"]

  /** The weight classes as a LabelEncoder fitted on all five sorts them. */
  const SortedWeightCategories: seq<string> :=
    ["Mild Obesity", "Moderate Obesity", "Normal Weight", "Overweight", "Severe Obesity"]

  /** The code of a severity under a fixed encoder fitted on every severity label. */
  function SeverityCode(severity: string): int
  {
    IndexOf(SortedSeverityLabels, severity)
  }

  /** The code of a weight category under a fixed encoder fitted on every category. */
  function WeightCategoryCode(category: string): int
  {
    IndexOf(SortedWeightCategories, category)
  }

  /** The fixed encoding tells different severities and categories apart. */
  lemma CodesDistinguishLabels(ahi: real, ahi': real, bmi: real, bmi': real)
    ensures 0 <= SeverityCode(SeverityLevel(ahi)) < 4
    ensures SeverityLevel(ahi) != SeverityLevel(ahi') ==> SeverityCode(SeverityLevel(ahi)) != SeverityCode(SeverityLevel(ahi'))
    ensures 0 <= WeightCategoryCode(WeightCategory(bmi)) < 5
    ensures WeightCategory(bmi) != WeightCategory(bmi') ==> WeightCategoryCode(WeightCategory(bmi)) != WeightCategoryCode(WeightCategory(bmi'))
  {
    assert forall s :: s in SeverityLabels ==> s in SortedSeverityLabels;
    assert forall c :: c in WeightCategories ==> c in SortedWeightCategories;
  }

  // ---------------------------------------------------------------------
  // The assessment the `predict` route assembles
  // ---------------------------------------------------------------------

  datatype RiskAssessment = RiskAssessment(
    bmi: real,
    ahi: real,
    severity: string,
    weightCategory: string,
    sleepQuality: string,
    sleepQualityPercentage: int,
    recommendation: string,
    severityCode: int,
    weightCategoryCode: int)

  /**
   * The numeric part of the `predict` route: None where Python raises (a zero
   * height); otherwise the labels are the ones the ladders give for the
   * estimate and the BMI, and every field lies in its documented range.
   */
  function Assess(age: real, weightKg: real, heightCm: real, oxygenSaturation: real, pulseRate: real, snoreScore: real)
    : (r: Option<RiskAssessment>)
    ensures r.None? <==> heightCm == 0.0
    ensures r.Some? ==>
      && Bmi(weightKg, heightCm) == Some(r.value.bmi)
      && r.value.severity == SeverityLevel(r.value.ahi)
      && r.value.weightCategory == WeightCategory(r.value.bmi)
      && r.value.recommendation == DoctorRecommendation(r.value.ahi)
      && 0.0 <= r.value.ahi <= 100.0
      && r.value.severity in SeverityLabels
      && r.value.weightCategory in WeightCategories
      && r.value.sleepQuality == CalculateSleepQuality(r.value.ahi, snoreScore, oxygenSaturation, pulseRate)
      && r.value.sleepQuality in SleepQualityMap
      && r.value.sleepQualityPercentage == SleepQualityMap[r.value.sleepQuality]
      && r.value.sleepQualityPercentage in {20, 40, 50, 60, 70, 80, 90, 100}
      && r.value.recommendation in Recommendations
      && r.value.severityCode == SeverityCode(r.value.severity)
      && r.value.weightCategoryCode == WeightCategoryCode(r.value.weightCategory)
      && 0 <= r.value.severityCode < 4
      && 0 <= r.value.weightCategoryCode < 5
  {
    match Bmi(weightKg, heightCm)
    case None => None
    case Some(bmi) =>
      var ahi := PredictAhi(bmi, oxygenSaturation, snoreScore, age, pulseRate);
      var severity := SeverityLevel(ahi);
      var category := WeightCategory(bmi);
      var quality := CalculateSleepQuality(ahi, snoreScore, oxygenSaturation, pulseRate);
      SleepQualityPercentageTotal(ahi, snoreScore, oxygenSaturation, pulseRate);
      CodesDistinguishLabels(ahi, ahi, bmi, bmi);
      Some(RiskAssessment(bmi, ahi, severity, category, quality, SleepQualityPercentage(quality),
                          DoctorRecommendation(ahi), SeverityCode(severity), WeightCategoryCode(category)))
  }

  /**
   * The AHI an assessment reports is the model's estimate for the assessment's
   * own BMI, so it lies within 0.05 of the unrounded formula.
   */
  lemma AssessReportsEstimate(age: real, weightKg: real, heightCm: real, oxygenSaturation: real, pulseRate: real, snoreScore: real)
    ensures var r := Assess(age, weightKg, heightCm, oxygenSaturation, pulseRate, snoreScore);
      r.Some? ==>
        && r.value.ahi == PredictAhi(r.value.bmi, oxygenSaturation, snoreScore, age, pulseRate)
        && -1.0 / 2.0 <= (r.value.ahi - AhiBeforeRounding(r.value.bmi, oxygenSaturation, snoreScore, age, pulseRate)) * 10.0 <= 1.0 / 2.0
  {
  }
}
