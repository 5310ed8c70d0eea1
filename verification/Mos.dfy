/** The simplified E-model score over the reals: a clamped R factor, the ITU-T G.107 cubic,
    a second clamp, and rounding to three decimals. */
module Mos {

  function Clamp(x: real, lo: real, hi: real): real { if x < lo then lo else if x > hi then hi else x }

  /** The R factor before clamping. */
  function RFactor(loss: real, jitter: real, latency: real): real {
    94.2 - loss * 2.5 - jitter * 0.1 - Delay(latency)
  }

  function Delay(latency: real): real {
    if latency > 177.3 then 0.024 * latency + 0.11 * (latency - 177.3) else 0.0
  }

  /** The G.107 conversion. It dips below 1 near R = 0. */
  function Cubic(r: real): real { 1.0 + 0.035 * r + r * (r - 60.0) * (100.0 - r) * 0.000007 }

  /** math.Round(x*1000)/1000 for non-negative x. */
  function Round3(x: real): real { (x * 1000.0 + 0.5).Floor as real / 1000.0 }

  function Score(loss: real, jitter: real, latency: real): real {
    Round3(Clamp(Cubic(Clamp(RFactor(loss, jitter, latency), 0.0, 100.0)), 1.0, 4.5))
  }

  /** ComputeMOS, step by step on its two locals. */
  method ComputeMOS(packetLossPct: real, jitterMs: real, latencyMs: real) returns (mos: real)
    ensures mos == Score(packetLossPct, jitterMs, latencyMs)
    ensures 1.0 <= mos <= 4.5
  {
    var r := 94.2;
    r := r - packetLossPct * 2.5;
    r := r - jitterMs * 0.1;
    if latencyMs > 177.3 {
      r := r - (0.024 * latencyMs + 0.11 * (latencyMs - 177.3));
    }
    assert r == RFactor(packetLossPct, jitterMs, latencyMs);
    if r < 0.0 {
      r := 0.0;
    }
    if r > 100.0 {
      r := 100.0;
    }
    ghost var factor := Clamp(RFactor(packetLossPct, jitterMs, latencyMs), 0.0, 100.0);
    assert r == factor;
    mos := 1.0 + 0.035 * r + r * (r - 60.0) * (100.0 - r) * 0.000007;
    ghost var raw := Cubic(factor);
    assert mos == raw;
    if mos < 1.0 {
      mos := 1.0;
    }
    if mos > 4.5 {
      mos := 4.5;
    }
    assert mos == Clamp(raw, 1.0, 4.5);
    mos := Round3(mos);
    assert mos == Round3(Clamp(raw, 1.0, 4.5));
    ScoreInRange(packetLossPct, jitterMs, latencyMs);
  }

  lemma RoundMonotone(x: real, y: real)
    requires x <= y
    ensures Round3(x) <= Round3(y)
  {
    assert (x * 1000.0 + 0.5).Floor <= (y * 1000.0 + 0.5).Floor;
  }

  /** The score always lies between 1 and 4.5. */
  lemma ScoreInRange(loss: real, jitter: real, latency: real)
    ensures 1.0 <= Score(loss, jitter, latency) <= 4.5
  {
    var m := Clamp(Cubic(Clamp(RFactor(loss, jitter, latency), 0.0, 100.0)), 1.0, 4.5);
    RoundMonotone(1.0, m);
    RoundMonotone(m, 4.5);
    assert (1.0 * 1000.0 + 0.5).Floor == 1000 && (4.5 * 1000.0 + 0.5).Floor == 4500;
  }

  // ----- calibration

  /** What loss, jitter and delay cost: 2.5 per percent, 1 per 10 ms, nothing up to 177.3 ms
      of delay, then 0.024 per ms of all and 0.11 per ms of the excess. */
  lemma Impairments(loss: real, jitter: real, latency: real)
    ensures RFactor(0.0, 0.0, 0.0) == 94.2
    ensures RFactor(loss, jitter, latency) - RFactor(loss + 1.0, jitter, latency) == 2.5
    ensures RFactor(loss, jitter, latency) - RFactor(loss, jitter + 10.0, latency) == 1.0
    ensures latency <= 177.3 ==> RFactor(loss, jitter, latency) == RFactor(loss, jitter, 0.0)
    ensures latency > 177.3 ==>
              RFactor(loss, jitter, 0.0) - RFactor(loss, jitter, latency) == 0.024 * latency + 0.11 * (latency - 177.3)
  {
  }

  /** The points of the G.107 curve: 1, 2.575, 3.1 and 4.5 at R = 0, 50, 60 and 100, which
      is the score of a perfect call's 94.2 and of a hopeless one. */
  lemma CurvePoints()
    ensures Cubic(0.0) == 1.0 && Cubic(50.0) == 2.575 && Cubic(60.0) == 3.1 && Cubic(100.0) == 4.5
    ensures Score(0.0, 0.0, 0.0) == 4.428 && Score(100.0, 0.0, 0.0) == 1.0
  {
    assert RFactor(0.0, 0.0, 0.0) == 94.2 && RFactor(100.0, 0.0, 0.0) < 0.0;
    assert Cubic(94.2) == 4.427798584;
    assert (4.427798584 * 1000.0 + 0.5).Floor == 4428 && (1.0 * 1000.0 + 0.5).Floor == 1000;
  }

  // ----- monotonicity

  /** The quadratic factor of Cubic(r) - 1. */
  function Quad(r: real): real { 160.0 * r - r * r - 1000.0 }

  lemma CubicFactored(r: real)
    ensures Cubic(r) - 1.0 == r * Quad(r) * 0.000007
  {
    calc {
      r * (r - 60.0) * (100.0 - r) * 0.000007 + 0.035 * r;
      r * ((r - 60.0) * (100.0 - r)) * 0.000007 + r * 5000.0 * 0.000007;
      { assert (r - 60.0) * (100.0 - r) == 160.0 * r - r * r - 6000.0; }
      r * (160.0 * r - r * r - 6000.0 + 5000.0) * 0.000007;
    }
  }

  /** Above 1 the argument is past the dip. */
  lemma PastTheDip(r: real)
    requires 0.0 <= r <= 6.5
    ensures Cubic(r) <= 1.0
  {
    CubicFactored(r);
    assert Quad(r) <= 0.0 by {
      assert r * (160.0 - r) <= 6.5 * (160.0 - r) by {
        assert (6.5 - r) * (160.0 - r) >= 0.0;
      }
    }
    NonNegative(r, -Quad(r));
    assert r * Quad(r) == -(r * -Quad(r));
  }

  /** The slope of the chord between r and s, scaled. */
  function Chord(r: real, s: real): real { 160.0 * (r + s) - r * r - r * s - s * s - 1000.0 }

  lemma CubicChord(r: real, s: real)
    ensures Cubic(s) - Cubic(r) == (s - r) * Chord(r, s) * 0.000007
  {
    CubicFactored(r);
    CubicFactored(s);
    assert s * Quad(s) - r * Quad(r) == (s - r) * Chord(r, s) by {
      assert s * Quad(s) == 160.0 * (s * s) - s * s * s - 1000.0 * s;
      assert r * Quad(r) == 160.0 * (r * r) - r * r * r - 1000.0 * r;
      assert (s - r) * (r + s) == s * s - r * r;
      assert (s - r) * (r * r + r * s + s * s) == s * s * s - r * r * r;
    }
  }

  lemma NonNegative(a: real, b: real)
    requires a >= 0.0 && b >= 0.0
    ensures a * b >= 0.0
  {
  }

  lemma ChordPositive(r: real, s: real)
    requires 6.5 <= r <= s <= 100.0
    ensures Chord(r, s) >= 0.0
  {
    NonNegative(r - 6.5, s - r);
    var line := r * (153.5 - 2.0 * s) + s * (166.5 - s) - 1000.0;
    assert Chord(r, s) == (r - 6.5) * (s - r) + line;
    assert line >= 0.0 by {
      if s <= 76.75 {
        NonNegative(r - 6.5, 153.5 - 2.0 * s);
        NonNegative(s - 6.5, 147.0 - s);
      } else {
        NonNegative(s - r, 2.0 * s - 153.5);
        NonNegative(100.0 - s, 3.0 * s - 20.0);
      }
    }
  }

  /** Clamped at 1, the cubic never falls on [0, 100], although it does on its own. */
  lemma ClampedCubicMonotone(r: real, s: real)
    requires 0.0 <= r <= s <= 100.0
    ensures Clamp(Cubic(r), 1.0, 4.5) <= Clamp(Cubic(s), 1.0, 4.5)
  {
    if r <= 6.5 {
      PastTheDip(r);
    } else {
      ChordPositive(r, s);
      CubicChord(r, s);
      assert (s - r) * Chord(r, s) >= 0.0;
    }
  }

  /** The bare cubic is not monotone: it starts at 1 and dips. */
  lemma CubicDips()
    ensures Cubic(1.0) < Cubic(0.0)
  {
  }

  lemma DelayMonotone(a: real, b: real)
    requires a <= b
    ensures Delay(a) <= Delay(b)
  {
  }

  /** Main score theorem: the score never rises when loss, jitter or latency grows. */
  lemma ScoreMonotone(loss: real, jitter: real, latency: real, loss': real, jitter': real, latency': real)
    requires loss <= loss' && jitter <= jitter' && latency <= latency'
    ensures Score(loss', jitter', latency') <= Score(loss, jitter, latency)
  {
    DelayMonotone(latency, latency');
    var r := Clamp(RFactor(loss', jitter', latency'), 0.0, 100.0);
    var s := Clamp(RFactor(loss, jitter, latency), 0.0, 100.0);
    assert RFactor(loss', jitter', latency') <= RFactor(loss, jitter, latency);
    ClampedCubicMonotone(r, s);
    RoundMonotone(Clamp(Cubic(r), 1.0, 4.5), Clamp(Cubic(s), 1.0, 4.5));
  }

  // ----- labels and the QoS rule

  datatype Quality = Excellent | Good | Fair | Poor | Bad

  function QualityFromMOS(mos: real): Quality {
    if mos >= 4.0 then Excellent
    else if mos >= 3.6 then Good
    else if mos >= 3.1 then Fair
    else if mos >= 2.6 then Poor
    else Bad
  }

  /** The labels are consecutive intervals that begin at 4, 3.6, 3.1 and 2.6. */
  lemma LabelIntervals(mos: real)
    ensures QualityFromMOS(mos) == Excellent <==> mos >= 4.0
    ensures QualityFromMOS(mos) == Good <==> 3.6 <= mos < 4.0
    ensures QualityFromMOS(mos) == Fair <==> 3.1 <= mos < 3.6
    ensures QualityFromMOS(mos) == Poor <==> 2.6 <= mos < 3.1
    ensures QualityFromMOS(mos) == Bad <==> mos < 2.6
  {
  }

  predicate FairOrWorse(q: Quality) { q == Fair || q == Poor || q == Bad }

  /** The QoS rule's own estimate, which is neither clamped below nor rounded. */
  function RuleMos(loss: real, jitter: real): real {
    Cubic(Clamp(94.2 - loss * 2.5 - jitter * 0.1, 0.0, 100.0))
  }

  predicate RuleAlerts(loss: real, jitter: real) { RuleMos(loss, jitter) < 3.6 }

  lemma RoundBelow(x: real)
    ensures Round3(x) < 3.6 <==> x < 3.5995
  {
    var f := (x * 1000.0 + 0.5).Floor;
    assert Round3(x) < 3.6 <==> f < 3600;
  }

  /** Main label theorem: without latency, a label is fair or worse exactly when the rule's
      estimate is below 3.5995; so every such label comes with an alert, and the two
      disagree exactly on the half thousandth below 3.6. */
  lemma LabelsAndAlerts(loss: real, jitter: real)
    ensures FairOrWorse(QualityFromMOS(Score(loss, jitter, 0.0))) <==> RuleMos(loss, jitter) < 3.5995
    ensures FairOrWorse(QualityFromMOS(Score(loss, jitter, 0.0))) ==> RuleAlerts(loss, jitter)
    ensures RuleAlerts(loss, jitter) && !FairOrWorse(QualityFromMOS(Score(loss, jitter, 0.0)))
            <==> 3.5995 <= RuleMos(loss, jitter) < 3.6
  {
    assert RFactor(loss, jitter, 0.0) == 94.2 - loss * 2.5 - jitter * 0.1;
    RoundBelow(Clamp(RuleMos(loss, jitter), 1.0, 4.5));
  }

  /** That sliver is not empty: 9.656 percent loss is labelled good and raises an alert. */
  lemma GoodLabelWithAlert()
    ensures RuleAlerts(9.656, 0.0) && !FairOrWorse(QualityFromMOS(Score(9.656, 0.0, 0.0)))
  {
    assert RuleMos(9.656, 0.0) == Cubic(70.06);
    LabelsAndAlerts(9.656, 0.0);
  }
}
