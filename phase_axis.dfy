/** The annotation of the Bode phase plot: the phase axis is padded by 10°
    and rounded outward to multiples of 45°, a reference line is drawn at
    every multiple of 45° in that range, every crossing of the phase curve
    with a reference line gets a short marker at the linearly interpolated
    crossing frequency, and the quadrant labels Q1..Q4 are placed at their
    angles when these lie in the range. The phase (in degrees) and the
    frequency grid are given sequences of reals. */
module PhaseAnnotator {

  /** `padding`, in degrees. */
  const Padding: real := 10.0

  /** `np.ceil`, from Dafny's floor. */
  function Ceil(x: real): (c: int)
    ensures x <= c as real < x + 1.0
  {
    -((-x).Floor)
  }

  /** `round_down_45`: the largest multiple of 45 at or below x − 10. */
  function RoundDown45(x: real): (r: int)
    ensures r % 45 == 0
    ensures r as real <= x - Padding < r as real + 45.0
  {
    var f := ((x - Padding) / 45.0).Floor;
    assert f as real <= (x - Padding) / 45.0 < f as real + 1.0;
    45 * f
  }

  /** `round_up_45`: the smallest multiple of 45 at or above x + 10. */
  function RoundUp45(x: real): (r: int)
    ensures r % 45 == 0
    ensures r as real - 45.0 < x + Padding <= r as real
  {
    var c := Ceil((x + Padding) / 45.0);
    assert (x + Padding) / 45.0 <= c as real < (x + Padding) / 45.0 + 1.0;
    45 * c
  }

  /** `np.nanmin` of a NaN-free, non-empty sequence. */
  function SeqMin(s: seq<real>): (m: real)
    requires |s| > 0
    ensures m in s
    ensures forall k :: 0 <= k < |s| ==> m <= s[k]
  {
    if |s| == 1 then s[0]
    else
      var rest := SeqMin(s[1..]);
      if s[0] <= rest then s[0] else rest
  }

  /** `np.nanmax` of a NaN-free, non-empty sequence. */
  function SeqMax(s: seq<real>): (m: real)
    requires |s| > 0
    ensures m in s
    ensures forall k :: 0 <= k < |s| ==> s[k] <= m
  {
    if |s| == 1 then s[0]
    else
      var rest := SeqMax(s[1..]);
      if s[0] >= rest then s[0] else rest
  }

  /** The limits of the phase axis keep every sample at least 10° inside,
      and are at least one 45° step apart. */
  lemma LimitsEnclosePhase(phase: seq<real>)
    requires |phase| > 0
    ensures forall k :: 0 <= k < |phase| ==>
              RoundDown45(SeqMin(phase)) as real + Padding <= phase[k] <= RoundUp45(SeqMax(phase)) as real - Padding
    ensures RoundDown45(SeqMin(phase)) + 45 <= RoundUp45(SeqMax(phase))
  {
    var lo, hi := RoundDown45(SeqMin(phase)), RoundUp45(SeqMax(phase));
    assert SeqMin(phase) <= phase[0] <= SeqMax(phase);
    assert lo < hi;
    NextMultipleOf45(lo, hi);
  }

  /** Two distinct multiples of 45 are at least 45 apart. */
  lemma NextMultipleOf45(lo: int, hi: int)
    requires lo % 45 == 0 && hi % 45 == 0 && lo < hi
    ensures lo + 45 <= hi
  {
    var a, b := lo / 45, hi / 45;
    assert lo == 45 * a && hi == 45 * b;
  }

  // ---------------------------------------------------------------------
  // Reference lines

  /** `np.arange(lo, stop, 45)`. */
  function Arange(lo: int, stop: int): (r: seq<int>)
    ensures forall v :: v in r ==> lo <= v < stop && (v - lo) % 45 == 0
    decreases stop - lo
  {
    if lo >= stop then [] else [lo] + Arange(lo + 45, stop)
  }

  /** `yticks = np.arange(ymin, ymax + 1, 45)`. */
  function Ticks(ymin: int, ymax: int): (r: seq<int>)
    ensures forall v :: v in r ==> ymin <= v <= ymax && (v - ymin) % 45 == 0
  {
    Arange(ymin, ymax + 1)
  }

  lemma {:induction false} ArangeElements(lo: int, stop: int)
    ensures forall k :: 0 <= k < |Arange(lo, stop)| ==> Arange(lo, stop)[k] == lo + 45 * k
    ensures lo < stop ==> |Arange(lo, stop)| > 0 && stop - 45 <= lo + 45 * (|Arange(lo, stop)| - 1) < stop
    decreases stop - lo
  {
    if lo < stop {
      ArangeElements(lo + 45, stop);
      var r := Arange(lo, stop);
      assert r == [lo] + Arange(lo + 45, stop);
      forall k | 0 < k < |r| ensures r[k] == lo + 45 * k {
        assert r[k] == Arange(lo + 45, stop)[k - 1];
      }
    }
  }

  /** The reference lines are exactly the multiples of 45 from ymin to
      ymax, both included, in ascending order. */
  lemma TicksAreMultiplesOf45(ymin: int, ymax: int)
    requires ymin % 45 == 0 && ymax % 45 == 0 && ymin <= ymax
    ensures |Ticks(ymin, ymax)| == (ymax - ymin) / 45 + 1
    ensures Ticks(ymin, ymax)[0] == ymin && Ticks(ymin, ymax)[|Ticks(ymin, ymax)| - 1] == ymax
    ensures forall k :: 0 <= k < |Ticks(ymin, ymax)| ==> Ticks(ymin, ymax)[k] == ymin + 45 * k
    ensures forall t :: t in Ticks(ymin, ymax) <==> ymin <= t <= ymax && t % 45 == 0
  {
    var ts := Ticks(ymin, ymax);
    ArangeElements(ymin, ymax + 1);
    var n := |ts|;
    var d := (ymax - ymin) / 45;
    assert ymax == ymin + 45 * d;
    assert ymax - 44 <= ymin + 45 * (n - 1) <= ymax;
    assert n - 1 == d;
    forall t ensures t in ts <==> ymin <= t <= ymax && t % 45 == 0 {
      if ymin <= t <= ymax && t % 45 == 0 {
        var k := (t - ymin) / 45;
        assert t == ymin + 45 * k;
        assert 0 <= k < n;
        assert ts[k] == t;
      }
    }
  }

  // ---------------------------------------------------------------------
  // Crossing markers

  /** `(p1 - target) * (p2 - target) < 0`. */
  predicate SignChange(p1: real, p2: real, t: real) {
    (p1 - t) * (p2 - t) < 0.0
  }

  /** A sign change means the level lies strictly between the two samples. */
  lemma SignChangeMeansBetween(p1: real, p2: real, t: real)
    ensures SignChange(p1, p2, t) <==> (p1 < t < p2 || p2 < t < p1)
  {
    NegativeProduct(p1 - t, p2 - t);
  }

  lemma NegativeProduct(a: real, b: real)
    ensures a * b < 0.0 <==> (a < 0.0 < b || b < 0.0 < a)
  {
  }

  /** `alpha = (target - p1) / (p2 - p1)`. */
  function Alpha(p1: real, p2: real, t: real): (a: real)
    requires p1 != p2
    ensures a * (p2 - p1) == t - p1
  {
    (t - p1) / (p2 - p1)
  }

  /** `w_cross = w1 + alpha * (w2 - w1)`. */
  function CrossFrequency(p1: real, p2: real, w1: real, w2: real, t: real): (w: real)
    requires p1 != p2
    ensures (w - w1) * (p2 - p1) == (t - p1) * (w2 - w1)
  {
    var a := Alpha(p1, p2, t);
    assert (a * (w2 - w1)) * (p2 - p1) == (a * (p2 - p1)) * (w2 - w1);
    w1 + a * (w2 - w1)
  }

  /** The interpolation stays strictly inside the sample interval: alpha
      lies in (0, 1) and the crossing frequency strictly between the two
      sample frequencies. */
  lemma InterpolationBounds(p1: real, p2: real, w1: real, w2: real, t: real)
    requires SignChange(p1, p2, t)
    ensures p1 != p2
    ensures 0.0 < Alpha(p1, p2, t) < 1.0
    ensures w1 < w2 ==> w1 < CrossFrequency(p1, p2, w1, w2, t) < w2
    ensures w2 < w1 ==> w2 < CrossFrequency(p1, p2, w1, w2, t) < w1
  {
    SignChangeMeansBetween(p1, p2, t);
    var a := Alpha(p1, p2, t);
    Fraction(t - p1, p2 - p1);
    var wc := CrossFrequency(p1, p2, w1, w2, t);
    assert wc == w1 + a * (w2 - w1);
    if w1 < w2 {
      ScaleInside(a, w2 - w1);
    }
    if w2 < w1 {
      ScaleInside(a, w1 - w2);
      assert a * (w2 - w1) == -(a * (w1 - w2));
    }
  }

  /** A quotient of two numbers of the same sign, the numerator the smaller
      in magnitude, lies in (0, 1). */
  lemma Fraction(x: real, d: real)
    requires 0.0 < x < d || d < x < 0.0
    ensures 0.0 < x / d < 1.0
  {
    var q := x / d;
    assert q * d == x;
    if d > 0.0 {
      PositiveFactor(q, d);
      assert (1.0 - q) * d == d - x;
      PositiveFactor(1.0 - q, d);
    } else {
      assert q * (-d) == -x;
      PositiveFactor(q, -d);
      assert (1.0 - q) * (-d) == x - d;
      PositiveFactor(1.0 - q, -d);
    }
  }

  lemma PositiveFactor(a: real, b: real)
    requires b > 0.0 && a * b > 0.0
    ensures a > 0.0
  {
  }

  lemma ScaleInside(a: real, d: real)
    requires 0.0 < a < 1.0 && d > 0.0
    ensures 0.0 < a * d < d
  {
    assert d - a * d == (1.0 - a) * d;
  }

  /** `ax2.hlines(target_phase, w_cross * 0.98, w_cross * 1.02)`: a
      horizontal segment at height `level` from `from` to `to`. */
  datatype Marker = Marker(level: int, from: real, to: real)

  /** Number of consecutive sample pairs: `range(len(phase_deg) - 1)`. */
  function Pairs(phase: seq<real>): nat {
    if |phase| == 0 then 0 else |phase| - 1
  }

  /** The marker for level t between samples i and i + 1. */
  function MarkerAt(t: int, phase: seq<real>, omega: seq<real>, i: nat): (m: Marker)
    requires i + 1 < |phase| && |omega| == |phase|
    requires SignChange(phase[i], phase[i + 1], t as real)
    ensures m.level == t
    ensures var wc := (m.from + m.to) / 2.0;
            (wc - omega[i]) * (phase[i + 1] - phase[i]) == (t as real - phase[i]) * (omega[i + 1] - omega[i])
            && m.to - m.from == 0.04 * wc
  {
    SignChangeMeansBetween(phase[i], phase[i + 1], t as real);
    var wc := CrossFrequency(phase[i], phase[i + 1], omega[i], omega[i + 1], t as real);
    Marker(t, wc * 0.98, wc * 1.02)
  }

  /** The markers for level t over the first n sample pairs, in index order. */
  function ScanLevel(t: int, phase: seq<real>, omega: seq<real>, n: nat): (r: seq<Marker>)
    requires n <= Pairs(phase) && |omega| == |phase|
    ensures |r| <= n
    ensures forall k :: 0 <= k < |r| ==> r[k].level == t
  {
    if n == 0 then []
    else
      ScanLevel(t, phase, omega, n - 1)
      + if SignChange(phase[n - 1], phase[n], t as real) then [MarkerAt(t, phase, omega, n - 1)] else []
  }

  /** The markers for every level, level by level. */
  function ScanLevels(ticks: seq<int>, phase: seq<real>, omega: seq<real>): (r: seq<Marker>)
    requires |omega| == |phase|
    ensures forall k :: 0 <= k < |r| ==> r[k].level in ticks
  {
    if ticks == [] then []
    else ScanLevels(ticks[..|ticks| - 1], phase, omega) + ScanLevel(ticks[|ticks| - 1], phase, omega, Pairs(phase))
  }

  /** The indices i < n where the curve crosses level t, ascending. */
  function CrossingIndices(t: real, phase: seq<real>, n: nat): (r: seq<nat>)
    requires n <= Pairs(phase)
    ensures forall k :: 0 <= k < |r| ==> r[k] < n && SignChange(phase[r[k]], phase[r[k] + 1], t)
    ensures forall i :: 0 <= i < n && SignChange(phase[i], phase[i + 1], t) ==> i in r
    ensures forall a, b :: 0 <= a < b < |r| ==> r[a] < r[b]
  {
    if n == 0 then []
    else
      var prev := CrossingIndices(t, phase, n - 1);
      var r := prev + if SignChange(phase[n - 1], phase[n], t) then [n - 1] else [];
      assert forall k :: 0 <= k < |prev| ==> r[k] == prev[k];
      r
  }

  /** The scan of one level emits one marker per crossing index, in the
      order of the indices, and nothing else. */
  lemma {:induction false} ScanLevelFollowsCrossings(t: int, phase: seq<real>, omega: seq<real>, n: nat)
    requires n <= Pairs(phase) && |omega| == |phase|
    ensures |ScanLevel(t, phase, omega, n)| == |CrossingIndices(t as real, phase, n)|
    ensures forall k :: 0 <= k < |ScanLevel(t, phase, omega, n)| ==>
              ScanLevel(t, phase, omega, n)[k] == MarkerAt(t, phase, omega, CrossingIndices(t as real, phase, n)[k])
  {
    if n > 0 {
      ScanLevelFollowsCrossings(t, phase, omega, n - 1);
    }
  }

  /** The scan of one level emits a marker exactly for the sample pairs
      the curve crosses that level between. */
  lemma {:induction false} ScanLevelMembers(t: int, phase: seq<real>, omega: seq<real>, n: nat, m: Marker)
    requires n <= Pairs(phase) && |omega| == |phase|
    ensures m in ScanLevel(t, phase, omega, n) <==>
              m.level == t &&
              exists i :: 0 <= i < n && SignChange(phase[i], phase[i + 1], t as real) && m == MarkerAt(t, phase, omega, i)
  {
    if n > 0 {
      ScanLevelMembers(t, phase, omega, n - 1, m);
    }
  }

  /** The scan of all levels emits, for each level, that level's markers. */
  lemma {:induction false} ScanLevelsMembers(ticks: seq<int>, phase: seq<real>, omega: seq<real>, m: Marker)
    requires |omega| == |phase|
    ensures m in ScanLevels(ticks, phase, omega) <==>
              m.level in ticks && m in ScanLevel(m.level, phase, omega, Pairs(phase))
  {
    if ticks != [] {
      var init, t := ticks[..|ticks| - 1], ticks[|ticks| - 1];
      assert ticks == init + [t];
      ScanLevelsMembers(init, phase, omega, m);
      ScanLevelMembers(t, phase, omega, Pairs(phase), m);
    }
  }

  /** Every marker sits on one of the levels, at a crossing that the phase
      curve really makes there, and no crossing is missed. */
  lemma ScanLevelsExact(ticks: seq<int>, phase: seq<real>, omega: seq<real>, m: Marker)
    requires |omega| == |phase|
    ensures m in ScanLevels(ticks, phase, omega) <==>
              m.level in ticks &&
              exists i :: 0 <= i < Pairs(phase) && SignChange(phase[i], phase[i + 1], m.level as real)
                          && m == MarkerAt(m.level, phase, omega, i)
  {
    ScanLevelsMembers(ticks, phase, omega, m);
    ScanLevelMembers(m.level, phase, omega, Pairs(phase), m);
  }

  /** On an increasing, positive frequency grid every marker is a segment
      from 98% to 102% of a crossing frequency that lies strictly between
      the two neighbouring sample frequencies. */
  lemma MarkerGeometry(t: int, phase: seq<real>, omega: seq<real>, i: nat)
    requires i + 1 < |phase| && |omega| == |phase|
    requires SignChange(phase[i], phase[i + 1], t as real)
    requires 0.0 < omega[i] < omega[i + 1]
    ensures var m := MarkerAt(t, phase, omega, i);
            var wc := (m.from + m.to) / 2.0;
            m.level == t && omega[i] < wc < omega[i + 1]
            && m.from == 0.98 * wc && m.to == 1.02 * wc && 0.0 < m.from < wc < m.to
  {
    InterpolationBounds(phase[i], phase[i + 1], omega[i], omega[i + 1], t as real);
  }

  /** A level that receives a marker lies strictly inside the phase range. */
  lemma MarkedLevelInsideRange(ticks: seq<int>, phase: seq<real>, omega: seq<real>, m: Marker)
    requires |omega| == |phase|
    requires m in ScanLevels(ticks, phase, omega)
    ensures |phase| > 0 && SeqMin(phase) < m.level as real < SeqMax(phase)
  {
    ScanLevelsExact(ticks, phase, omega, m);
    var i :| 0 <= i < Pairs(phase) && SignChange(phase[i], phase[i + 1], m.level as real)
             && m == MarkerAt(m.level, phase, omega, i);
    SignChangeMeansBetween(phase[i], phase[i + 1], m.level as real);
    assert SeqMin(phase) <= phase[i] && SeqMin(phase) <= phase[i + 1];
    assert phase[i] <= SeqMax(phase) && phase[i + 1] <= SeqMax(phase);
  }

  /** The inner loop: every consecutive sample pair is tested against one
      level, and a marker is appended for each crossing. */
  method ScanOneLevel(target: int, phase: seq<real>, omega: seq<real>, before: seq<Marker>)
    returns (markers: seq<Marker>)
    requires |omega| == |phase|
    ensures markers == before + ScanLevel(target, phase, omega, Pairs(phase))
  {
    markers := before;
    for i := 0 to Pairs(phase)
      invariant markers == before + ScanLevel(target, phase, omega, i)
    {
      var p1, p2 := phase[i], phase[i + 1];
      if (p1 - target as real) * (p2 - target as real) < 0.0 {
        SignChangeMeansBetween(p1, p2, target as real);
        var w1, w2 := omega[i], omega[i + 1];
        var alpha := (target as real - p1) / (p2 - p1);
        assert alpha == Alpha(p1, p2, target as real);
        var wCross := w1 + alpha * (w2 - w1);
        assert wCross == CrossFrequency(p1, p2, w1, w2, target as real);
        markers := markers + [Marker(target, wCross * 0.98, wCross * 1.02)];
      }
    }
  }

  /** The outer loop over the reference levels, in ascending order. */
  method CrossingMarkers(ticks: seq<int>, phase: seq<real>, omega: seq<real>) returns (markers: seq<Marker>)
    requires |omega| == |phase|
    ensures markers == ScanLevels(ticks, phase, omega)
  {
    markers := [];
    for j := 0 to |ticks|
      invariant markers == ScanLevels(ticks[..j], phase, omega)
    {
      markers := ScanOneLevel(ticks[j], phase, omega, markers);
      assert ticks[..j + 1][..j] == ticks[..j];
    }
    assert ticks[..|ticks|] == ticks;
  }

  // ---------------------------------------------------------------------
  // Quadrant labels

  /** `ax2.text(x_middle, phi, q)`. */
  datatype Label = Label(name: string, x: real, phi: int)

  /** `quartal_labels`, in its insertion order. */
  const Quadrants: seq<(string, int)> := [("Q1", 45), ("Q2", 135), ("Q3", -135), ("Q4", -45)]

  /** The labels of `qs` whose angle lies in [ymin, ymax], in order. */
  function LabelsInRange(qs: seq<(string, int)>, ymin: int, ymax: int, x: real): (r: seq<Label>)
    ensures |r| <= |qs|
    ensures forall k :: 0 <= k < |r| ==> ymin <= r[k].phi <= ymax && r[k].x == x
  {
    if qs == [] then []
    else
      (if ymin <= qs[0].1 <= ymax then [Label(qs[0].0, x, qs[0].1)] else [])
      + LabelsInRange(qs[1..], ymin, ymax, x)
  }

  /** A label is placed exactly for the entries whose angle lies within the
      axis limits, at the given frequency. */
  lemma {:induction false} LabelsInRangeExact(qs: seq<(string, int)>, ymin: int, ymax: int, x: real, l: Label)
    ensures l in LabelsInRange(qs, ymin, ymax, x) <==> (l.name, l.phi) in qs && ymin <= l.phi <= ymax && l.x == x
  {
    if qs != [] {
      LabelsInRangeExact(qs[1..], ymin, ymax, x, l);
      assert qs == [qs[0]] + qs[1..];
    }
  }

  /** The labels of `quartal_labels` placed at x, in the dictionary's order. */
  function QuadrantLabels(ymin: int, ymax: int, x: real): (r: seq<Label>)
    ensures |r| <= 4
    ensures forall k :: 0 <= k < |r| ==> ymin <= r[k].phi <= ymax && r[k].x == x
  {
    LabelsInRange(Quadrants, ymin, ymax, x)
  }

  /** Q1 at 45°, Q2 at 135°, Q3 at −135° and Q4 at −45° each appear iff
      their angle lies in [ymin, ymax]. */
  lemma QuadrantLabelShownIffInRange(ymin: int, ymax: int, x: real, q: nat)
    requires q < |Quadrants|
    ensures (Label(Quadrants[q].0, x, Quadrants[q].1) in QuadrantLabels(ymin, ymax, x))
              <==> ymin <= Quadrants[q].1 <= ymax
    ensures |QuadrantLabels(ymin, ymax, x)| <= 4
  {
    LabelsInRangeExact(Quadrants, ymin, ymax, x, Label(Quadrants[q].0, x, Quadrants[q].1));
  }

  // ---------------------------------------------------------------------
  // The whole annotation

  datatype PhaseAxis = PhaseAxis(ymin: int, ymax: int, ticks: seq<int>, markers: seq<Marker>, labels: seq<Label>)

  /** The phase-plot annotation of one Bode diagram, from the phase in
      degrees and the frequency grid of the same length. */
  method AnnotatePhase(phase: seq<real>, omega: seq<real>) returns (axis: PhaseAxis)
    requires |phase| > 0 && |omega| == |phase|
    ensures axis.ymin == RoundDown45(SeqMin(phase)) && axis.ymax == RoundUp45(SeqMax(phase))
    ensures forall k :: 0 <= k < |phase| ==> axis.ymin as real + Padding <= phase[k] <= axis.ymax as real - Padding
    ensures axis.ticks == Ticks(axis.ymin, axis.ymax)
    ensures forall t :: t in axis.ticks <==> axis.ymin <= t <= axis.ymax && t % 45 == 0
    ensures axis.markers == ScanLevels(axis.ticks, phase, omega)
    ensures axis.labels == QuadrantLabels(axis.ymin, axis.ymax, omega[|omega| / 2])
  {
    var ymin := RoundDown45(SeqMin(phase));
    var ymax := RoundUp45(SeqMax(phase));
    LimitsEnclosePhase(phase);
    var ticks := Ticks(ymin, ymax);
    TicksAreMultiplesOf45(ymin, ymax);
    var markers := CrossingMarkers(ticks, phase, omega);
    var xMiddle := omega[|omega| / 2];
    axis := PhaseAxis(ymin, ymax, ticks, markers, QuadrantLabels(ymin, ymax, xMiddle));
  }
}
