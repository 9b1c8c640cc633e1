/** The relative strength index over 14 days, with Wilder's smoothing, over exact prices. */
module Rsi {
  import opened Options

  const PERIOD: nat := 14

  function Gain(delta: real): (g: real) ensures g >= 0.0 { if delta > 0.0 then delta else 0.0 }
  function Loss(delta: real): (l: real) ensures l >= 0.0 { if delta < 0.0 then -delta else 0.0 }

  function Delta(closes: seq<real>, i: nat): real
    requires i + 1 < |closes|
  {
    closes[i + 1] - closes[i]
  }

  /** The gains or losses of the first n price changes. */
  datatype Side = Up | Down

  function Move(side: Side, closes: seq<real>, i: nat): (m: real)
    requires i + 1 < |closes|
    ensures m >= 0.0
  {
    if side.Up? then Gain(Delta(closes, i)) else Loss(Delta(closes, i))
  }

  function Sum(side: Side, closes: seq<real>, n: nat): (sum: real)
    requires n < |closes|
    ensures sum >= 0.0
  {
    if n == 0 then 0.0 else Sum(side, closes, n - 1) + Move(side, closes, n - 1)
  }

  /** The smoothed average after n changes: the plain mean of the first 14, then one step per change. */
  function Average(side: Side, closes: seq<real>, n: nat): (average: real)
    requires PERIOD <= n < |closes|
    ensures average >= 0.0
  {
    if n == PERIOD then Sum(side, closes, n) / 14.0
    else (Average(side, closes, n - 1) * 13.0 + Move(side, closes, n - 1)) / 14.0
  }

  function Index(averageGain: real, averageLoss: real): (index: real)
    requires averageGain >= 0.0 && averageLoss >= 0.0
  {
    if averageLoss == 0.0 then 100.0 else 100.0 - 100.0 / (1.0 + averageGain / averageLoss)
  }

  /** The index before rounding. */
  function RsiOf(closes: seq<real>): (index: real)
    requires |closes| > PERIOD
  {
    Index(Average(Up, closes, |closes| - 1), Average(Down, closes, |closes| - 1))
  }

  /** To four decimals, halves upwards. */
  function Round(value: real): real { (value * 10000.0 + 0.5).Floor as real / 10000.0 }

  // ---------------------------------------------------------------- the averages are weighted means

  function Decay(k: nat): (w: real)
    ensures w > 0.0
  {
    if k == 0 then 1.0 / 14.0 else Decay(k - 1) * 13.0 / 14.0
  }

  /** The weight of change i after n changes: the first 14 share theirs, later ones fade with age. */
  function Weight(i: nat, n: nat): real
    requires i < n && n >= PERIOD
  {
    Decay(n - if i < PERIOD then PERIOD else i + 1)
  }

  /** The weighted sum of the first m of n changes. */
  function WeightedSum(side: Side, closes: seq<real>, m: nat, n: nat): real
    requires m <= n && PERIOD <= n < |closes|
  {
    if m == 0 then 0.0 else WeightedSum(side, closes, m - 1, n) + Weight(m - 1, n) * Move(side, closes, m - 1)
  }

  function WeightTotal(m: nat, n: nat): real
    requires m <= n && n >= PERIOD
  {
    if m == 0 then 0.0 else WeightTotal(m - 1, n) + Weight(m - 1, n)
  }

  lemma {:induction false} OlderChangesFade(side: Side, closes: seq<real>, m: nat, n: nat)
    requires m <= n && PERIOD <= n && n + 1 < |closes|
    ensures WeightedSum(side, closes, m, n + 1) == WeightedSum(side, closes, m, n) * 13.0 / 14.0
    ensures WeightTotal(m, n + 1) == WeightTotal(m, n) * 13.0 / 14.0
  {
    hide Move, Weight;
    if m > 0 {
      OlderChangesFade(side, closes, m - 1, n);
      WeightFades(m - 1, n);
      FadeOne(WeightedSum(side, closes, m - 1, n), Weight(m - 1, n), Move(side, closes, m - 1));
      FadeOne(WeightTotal(m - 1, n), Weight(m - 1, n), 1.0);
    }
  }

  lemma WeightFades(i: nat, n: nat)
    requires i < n && n >= PERIOD
    ensures Weight(i, n + 1) == Weight(i, n) * 13.0 / 14.0
  {}

  lemma FadeOne(sum: real, w: real, move: real)
    ensures sum * 13.0 / 14.0 + (w * 13.0 / 14.0) * move == (sum + w * move) * 13.0 / 14.0
  {
    assert (w * 13.0 / 14.0) * move == (w * move) * 13.0 / 14.0;
  }

  lemma {:induction false} FirstPeriodIsAPlainMean(side: Side, closes: seq<real>, m: nat)
    requires m <= PERIOD < |closes|
    ensures WeightedSum(side, closes, m, PERIOD) == Sum(side, closes, m) / 14.0
    ensures WeightTotal(m, PERIOD) == m as real / 14.0
  {
    if m > 0 {
      FirstPeriodIsAPlainMean(side, closes, m - 1);
      assert Weight(m - 1, PERIOD) == 1.0 / 14.0;
    }
  }

  /** The smoothed average is a weighted mean of all changes: its weights are positive and add up to one. */
  lemma {:induction false} AverageIsAWeightedMean(side: Side, closes: seq<real>, n: nat)
    requires PERIOD <= n < |closes|
    ensures Average(side, closes, n) == WeightedSum(side, closes, n, n)
    ensures WeightTotal(n, n) == 1.0
  {
    if n == PERIOD {
      FirstPeriodIsAPlainMean(side, closes, n);
    } else {
      AverageIsAWeightedMean(side, closes, n - 1);
      OlderChangesFade(side, closes, n - 1, n - 1);
      assert Weight(n - 1, n) == 1.0 / 14.0;
    }
  }

  // ---------------------------------------------------------------- laws of the index

  /** The index is the share of gains in all movement, in percent; without losses it is 100. */
  lemma IndexIsTheShareOfGains(g: real, l: real)
    requires g >= 0.0 && l >= 0.0
    ensures g + l > 0.0 ==> Index(g, l) == 100.0 * g / (g + l)
    ensures 0.0 <= Index(g, l) <= 100.0
  {
    if l > 0.0 {
      var ratio := g / l;
      assert ratio * l == g && ratio >= 0.0;
      assert (1.0 + ratio) * l == l + g;
      var part := 100.0 / (1.0 + ratio);
      assert part * (1.0 + ratio) == 100.0;
      assert part * (g + l) == 100.0 * l by { assert part * ((1.0 + ratio) * l) == (part * (1.0 + ratio)) * l; }
      assert (100.0 - part) * (g + l) == 100.0 * g;
      Quotient(100.0 - part, g + l, 100.0 * g);
      assert 0.0 <= part <= 100.0;
    } else if g > 0.0 {
      Quotient(100.0, g, 100.0 * g);
    }
  }

  lemma Quotient(q: real, d: real, n: real)
    requires d > 0.0 && q * d == n
    ensures q == n / d
  {}

  lemma RoundKeepsTheRange(value: real)
    requires 0.0 <= value <= 100.0
    ensures 0.0 <= Round(value) <= 100.0 && -0.00005 <= Round(value) - value <= 0.00005
  {
    var scaled := value * 10000.0 + 0.5;
    assert scaled - 1.0 < scaled.Floor as real <= scaled;
    assert 0 <= scaled.Floor <= 1000000;
  }

  function Scaled(closes: seq<real>, k: real): (s: seq<real>)
    ensures |s| == |closes|
  {
    seq(|closes|, i requires 0 <= i < |closes| => k * closes[i])
  }

  function Mirrored(closes: seq<real>, around: real): (s: seq<real>)
    ensures |s| == |closes|
  {
    seq(|closes|, i requires 0 <= i < |closes| => around - closes[i])
  }

  function Other(side: Side): Side { if side.Up? then Down else Up }

  lemma ScaledMove(side: Side, closes: seq<real>, k: real, i: nat)
    requires k > 0.0 && i + 1 < |closes|
    ensures Move(side, Scaled(closes, k), i) == k * Move(side, closes, i)
  {
    ScaledDelta(closes, k, i);
    GainScales(k, Delta(closes, i), Delta(Scaled(closes, k), i));
  }

  lemma ScaledDelta(closes: seq<real>, k: real, i: nat)
    requires i + 1 < |closes|
    ensures Delta(Scaled(closes, k), i) == k * Delta(closes, i)
  {
    Distribute(k, closes[i + 1], -closes[i]);
    assert k * -closes[i] == -(k * closes[i]);
  }

  lemma GainScales(k: real, d: real, scaled: real)
    requires k > 0.0 && scaled == k * d
    ensures Gain(scaled) == k * Gain(d) && Loss(scaled) == k * Loss(d)
  {
    if d > 0.0 {
      assert k * d > 0.0;
    } else if d < 0.0 {
      assert k * d < 0.0;
      assert k * -d == -(k * d);
    } else {
      assert k * d == 0.0;
    }
  }

  lemma Distribute(k: real, a: real, b: real)
    ensures k * a + k * b == k * (a + b)
  {}

  lemma StepScales(k: real, average: real, move: real)
    ensures (k * average * 13.0 + k * move) / 14.0 == k * ((average * 13.0 + move) / 14.0)
  {
    assert k * average * 13.0 == k * (average * 13.0);
    Distribute(k, average * 13.0, move);
    Fourteenth(k, average * 13.0 + move);
  }

  lemma Fourteenth(k: real, x: real)
    ensures (k * x) / 14.0 == k * (x / 14.0)
  {}

  lemma {:induction false} ScaledSum(side: Side, closes: seq<real>, k: real, n: nat)
    requires k > 0.0 && n < |closes|
    ensures Sum(side, Scaled(closes, k), n) == k * Sum(side, closes, n)
  {
    hide Move;
    if n > 0 {
      ScaledSum(side, closes, k, n - 1);
      ScaledMove(side, closes, k, n - 1);
      Distribute(k, Sum(side, closes, n - 1), Move(side, closes, n - 1));
    }
  }

  lemma {:induction false} ScaledAverage(side: Side, closes: seq<real>, k: real, n: nat)
    requires k > 0.0 && PERIOD <= n < |closes|
    ensures Average(side, Scaled(closes, k), n) == k * Average(side, closes, n)
  {
    hide Move, Sum;
    if n == PERIOD {
      ScaledSum(side, closes, k, n);
      Fourteenth(k, Sum(side, closes, n));
    } else {
      ScaledAverage(side, closes, k, n - 1);
      ScaledMove(side, closes, k, n - 1);
      StepScales(k, Average(side, closes, n - 1), Move(side, closes, n - 1));
    }
  }

  /** Quoting the prices in another unit does not change the index. */
  lemma ScalingPricesKeepsTheIndex(closes: seq<real>, k: real)
    requires k > 0.0 && |closes| > PERIOD
    ensures RsiOf(Scaled(closes, k)) == RsiOf(closes)
  {
    hide Average, Scaled;
    var n := |closes| - 1;
    var g, l := Average(Up, closes, n), Average(Down, closes, n);
    ScaledAverage(Up, closes, k, n);
    ScaledAverage(Down, closes, k, n);
    if l > 0.0 {
      assert k * l > 0.0;
      RatioScales(g, l, k);
    }
  }

  lemma RatioScales(g: real, l: real, k: real)
    requires l > 0.0 && k > 0.0 && k * l > 0.0
    ensures (k * g) / (k * l) == g / l
  {
    var q := g / l;
    assert q * l == g;
    assert q * (k * l) == k * g;
    Quotient(q, k * l, k * g);
  }

  lemma {:induction false} MirroredSum(side: Side, closes: seq<real>, around: real, n: nat)
    requires n < |closes|
    ensures Sum(side, Mirrored(closes, around), n) == Sum(Other(side), closes, n)
  {
    if n > 0 {
      MirroredSum(side, closes, around, n - 1);
    }
  }

  lemma {:induction false} MirroredAverage(side: Side, closes: seq<real>, around: real, n: nat)
    requires PERIOD <= n < |closes|
    ensures Average(side, Mirrored(closes, around), n) == Average(Other(side), closes, n)
  {
    if n == PERIOD {
      MirroredSum(side, closes, around, n);
    } else {
      MirroredAverage(side, closes, around, n - 1);
      assert Delta(Mirrored(closes, around), n - 1) == -Delta(closes, n - 1);
    }
  }

  /** Turning the chart upside down gives the complement, exactly when the price has moved at all. */
  lemma MirroringComplementsTheIndexIff(closes: seq<real>, around: real)
    requires |closes| > PERIOD
    ensures var n := |closes| - 1;
            RsiOf(Mirrored(closes, around)) == 100.0 - RsiOf(closes)
            <==> !(Average(Up, closes, n) == 0.0 && Average(Down, closes, n) == 0.0)
  {
    hide Average, Mirrored, Index;
    var n := |closes| - 1;
    MirroredAverage(Up, closes, around, n);
    MirroredAverage(Down, closes, around, n);
    SharesAddUp(Average(Up, closes, n), Average(Down, closes, n));
  }

  lemma SharesAddUp(g: real, l: real)
    requires g >= 0.0 && l >= 0.0
    ensures Index(l, g) == 100.0 - Index(g, l) <==> !(g == 0.0 && l == 0.0)
  {
    IndexIsTheShareOfGains(g, l);
    IndexIsTheShareOfGains(l, g);
    if g + l > 0.0 {
      hide Index;
      ShareSum(g, l, g + l);
    }
  }

  lemma ShareSum(g: real, l: real, total: real)
    requires total == g + l > 0.0
    ensures 100.0 * g / total + 100.0 * l / total == 100.0
  {
    var a, b := 100.0 * g / total, 100.0 * l / total;
    assert a * total == 100.0 * g && b * total == 100.0 * l;
    Distribute(total, a, b);
    Quotient(a + b, total, 100.0 * total);
    Quotient(100.0, total, 100.0 * total);
  }

  // ---------------------------------------------------------------- rising and falling prices

  /** By how much the price rose or fell from day i to day i + 1. */
  function Rise(closes: seq<real>, i: nat): real
    requires i + 1 < |closes|
  {
    if closes[i] < closes[i + 1] then closes[i + 1] - closes[i] else 0.0
  }

  function Fall(closes: seq<real>, i: nat): real
    requires i + 1 < |closes|
  {
    if closes[i + 1] < closes[i] then closes[i] - closes[i + 1] else 0.0
  }

  lemma MovesAreRisesAndFalls(closes: seq<real>, i: nat)
    requires i + 1 < |closes|
    ensures Move(Up, closes, i) == Rise(closes, i) && Move(Down, closes, i) == Fall(closes, i)
  {}

  lemma {:induction false} NoMovesNoSum(side: Side, closes: seq<real>, n: nat)
    requires n < |closes|
    ensures Sum(side, closes, n) == 0.0 <==> forall i :: 0 <= i < n ==> Move(side, closes, i) == 0.0
  {
    if n > 0 {
      NoMovesNoSum(side, closes, n - 1);
    }
  }

  lemma {:induction false} NoMovesNoAverage(side: Side, closes: seq<real>, n: nat)
    requires PERIOD <= n < |closes|
    ensures Average(side, closes, n) == 0.0 <==> forall i :: 0 <= i < n ==> Move(side, closes, i) == 0.0
  {
    hide Move;
    if n == PERIOD {
      NoMovesNoSum(side, closes, n);
    } else {
      NoMovesNoAverage(side, closes, n - 1);
      assert Average(side, closes, n) == 0.0 <==> Average(side, closes, n - 1) == 0.0 && Move(side, closes, n - 1) == 0.0;
    }
  }

  ghost predicate NeverFell(closes: seq<real>) { forall i :: 0 <= i < |closes| - 1 ==> closes[i] <= closes[i + 1] }
  ghost predicate NeverRose(closes: seq<real>) { forall i :: 0 <= i < |closes| - 1 ==> closes[i + 1] <= closes[i] }

  /** The index is 100 exactly when the price never fell, and 0 exactly when it never rose but fell. */
  lemma ExtremesTellTheDirection(closes: seq<real>)
    requires |closes| >= 15
    ensures RsiOf(closes) == 100.0 <==> NeverFell(closes)
    ensures RsiOf(closes) == 0.0 <==> NeverRose(closes) && !NeverFell(closes)
  {
    var n := |closes| - 1;
    NoMovesNoAverage(Up, closes, n);
    NoMovesNoAverage(Down, closes, n);
    forall i | 0 <= i < n
      ensures Move(Up, closes, i) == 0.0 <==> closes[i + 1] <= closes[i]
      ensures Move(Down, closes, i) == 0.0 <==> closes[i] <= closes[i + 1]
    {
      MovesAreRisesAndFalls(closes, i);
    }
    hide Average, Move;
    IndexAtTheExtremes(Average(Up, closes, n), Average(Down, closes, n));
  }

  lemma IndexAtTheExtremes(g: real, l: real)
    requires g >= 0.0 && l >= 0.0
    ensures Index(g, l) == 100.0 <==> l == 0.0
    ensures Index(g, l) == 0.0 <==> g == 0.0 && l > 0.0
  {
    IndexIsTheShareOfGains(g, l);
    if l > 0.0 {
      var share := Index(g, l);
      ShareOfTotal(share, g, l);
    }
  }

  lemma ShareOfTotal(share: real, g: real, l: real)
    requires g >= 0.0 && l > 0.0 && share == 100.0 * g / (g + l)
    ensures share != 100.0 && (share == 0.0 <==> g == 0.0)
  {
    assert share * (g + l) == 100.0 * g;
    assert share * (g + l) != 100.0 * (g + l);
  }

  /** Fourteen rises by one and then a fall by fourteen. */
  function OneFall(): seq<real> { seq(16, i requires 0 <= i < 16 => if i <= 14 then i as real else 0.0) }

  lemma {:induction false} RisesAddUp(n: nat)
    requires n <= 14
    ensures Sum(Up, OneFall(), n) == n as real && Sum(Down, OneFall(), n) == 0.0
  {
    if n > 0 {
      RisesAddUp(n - 1);
      MovesAreRisesAndFalls(OneFall(), n - 1);
    }
  }

  /** The first average is over 14 days, and each later day counts one fourteenth: 13/14 of a rise against a fall of one. */
  lemma OneFallAfterFourteenRises()
    ensures Average(Up, OneFall(), 15) == 13.0 / 14.0 && Average(Down, OneFall(), 15) == 1.0
    ensures RsiOf(OneFall()) == 1300.0 / 27.0
  {
    RisesAddUp(14);
    MovesAreRisesAndFalls(OneFall(), 14);
    assert Average(Up, OneFall(), 14) == 1.0 && Average(Down, OneFall(), 14) == 0.0;
    assert Average(Up, OneFall(), 15) == 13.0 / 14.0;
    IndexIsTheShareOfGains(13.0 / 14.0, 1.0);
  }

  // ---------------------------------------------------------------- the computation

  predicate HasNull(closes: seq<Option<real>>) { exists i :: 0 <= i < |closes| && closes[i].None? }

  function Values(closes: seq<Option<real>>): (values: seq<real>)
    requires !HasNull(closes)
    ensures |values| == |closes|
  {
    seq(|closes|, i requires 0 <= i < |closes| => closes[i].value)
  }

  /** The index at a bar: none for the first 14 bars or when a close up to it is missing. */
  method ComputeRsi14At(closes: seq<Option<real>>, index: nat) returns (rsi: Option<real>)
    requires index < |closes|
    ensures rsi.None? <==> index < 14 || exists i :: 0 <= i <= index && closes[i] == None
    ensures rsi.Some? ==> rsi.value == Round(RsiOf(Values(closes[..index + 1]))) && 0.0 <= rsi.value <= 100.0
    ensures rsi.Some? ==> -0.00005 <= rsi.value - RsiOf(Values(closes[..index + 1])) <= 0.00005
    ensures rsi.Some? && NeverFell(Values(closes[..index + 1])) ==> rsi.value == 100.0
    ensures rsi.Some? && NeverRose(Values(closes[..index + 1])) && !NeverFell(Values(closes[..index + 1])) ==> rsi.value == 0.0
  {
    if index < PERIOD {
      return None;
    }
    var upToIndex := closes[..index + 1];
    if HasNull(upToIndex) {
      return None;
    }
    var numericCloses := Values(upToIndex);
    var avgGain, avgLoss := SmoothedAverages(numericCloses);
    ExtremesTellTheDirection(numericCloses);
    var value := FromAverages(avgGain, avgLoss);
    return Some(value);
  }

  /** Its two loops: the sums over the first 14 changes, then one step of smoothing per change. */
  method SmoothedAverages(numericCloses: seq<real>) returns (avgGain: real, avgLoss: real)
    requires |numericCloses| > PERIOD
    ensures avgGain == Average(Up, numericCloses, |numericCloses| - 1) && avgLoss == Average(Down, numericCloses, |numericCloses| - 1)
  {
    var index := |numericCloses| - 1;
    var gain, loss := 0.0, 0.0;
    var i := 0;
    while i < PERIOD
      invariant 0 <= i <= PERIOD
      invariant gain == Sum(Up, numericCloses, i) && loss == Sum(Down, numericCloses, i)
    {
      var delta := numericCloses[i + 1] - numericCloses[i];
      if delta >= 0.0 {
        gain := gain + delta;
      } else {
        loss := loss - delta;
      }
      i := i + 1;
    }
    avgGain, avgLoss := gain / 14.0, loss / 14.0;
    while i < index
      invariant PERIOD <= i <= index
      invariant avgGain == Average(Up, numericCloses, i) && avgLoss == Average(Down, numericCloses, i)
    {
      var delta := numericCloses[i + 1] - numericCloses[i];
      var currentGain := if delta > 0.0 then delta else 0.0;
      var currentLoss := if delta < 0.0 then -delta else 0.0;
      assert currentGain == Move(Up, numericCloses, i) && currentLoss == Move(Down, numericCloses, i);
      avgGain := (avgGain * 13.0 + currentGain) / 14.0;
      avgLoss := (avgLoss * 13.0 + currentLoss) / 14.0;
      i := i + 1;
    }
  }

  method FromAverages(avgGain: real, avgLoss: real) returns (rsi: real)
    requires avgGain >= 0.0 && avgLoss >= 0.0
    ensures rsi == Round(Index(avgGain, avgLoss)) && 0.0 <= rsi <= 100.0
    ensures -0.00005 <= rsi - Index(avgGain, avgLoss) <= 0.00005
    ensures Index(avgGain, avgLoss) == 100.0 ==> rsi == 100.0
    ensures Index(avgGain, avgLoss) == 0.0 ==> rsi == 0.0
  {
    IndexIsTheShareOfGains(avgGain, avgLoss);
    if avgLoss == 0.0 {
      RoundKeepsTheRange(100.0);
      assert (100.0 * 10000.0 + 0.5).Floor == 1000000;
      return 100.0;
    }
    var rs := avgGain / avgLoss;
    assert Round(0.0) == 0.0 && Round(100.0) == 100.0;
    RoundKeepsTheRange(100.0 - 100.0 / (1.0 + rs));
    return Round(100.0 - 100.0 / (1.0 + rs));
  }
}
