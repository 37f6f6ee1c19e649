/** The two verdicts shown under the plots, computed from the closed-loop
    poles. The pole list comes from the control library's root finder and
    is an input here; each pole is a pair (re, im). */
module StabilityClassifier {
  import opened ComplexNumbers

  /** `all(np.real(p) < 0 for p in pole_list)`: every pole lies strictly in
      the left half-plane. A pole on the imaginary axis (marginal
      stability) counts as unstable, and an empty list as stable. */
  function IsStable(poles: seq<Complex>): (r: bool)
    ensures r <==> forall k :: 0 <= k < |poles| ==> poles[k].re < 0.0
  {
    poles == [] || (poles[0].re < 0.0 && IsStable(poles[1..]))
  }

  /** `any(np.real(p) < 0 and np.imag(p) != 0 for p in pole_list)`: some
      pole is a decaying oscillation. */
  function IsOscillatory(poles: seq<Complex>): (r: bool)
    ensures r <==> exists k :: 0 <= k < |poles| && poles[k].re < 0.0 && poles[k].im != 0.0
  {
    poles != [] && ((poles[0].re < 0.0 && poles[0].im != 0.0) || IsOscillatory(poles[1..]))
  }

  /** An empty pole list is stable and not oscillatory. */
  lemma EmptyPoleList()
    ensures IsStable([]) && !IsOscillatory([])
  {
  }

  /** A pole on the imaginary axis or to its right makes the system
      unstable, whatever the other poles are. */
  lemma PoleOutsideLeftHalfPlane(poles: seq<Complex>, k: nat)
    requires k < |poles| && poles[k].re >= 0.0
    ensures !IsStable(poles)
  {
  }

  /** The verdicts depend only on which poles there are, not on the order
      or multiplicity in which the root finder reports them. */
  lemma VerdictsDependOnPoleSetOnly(a: seq<Complex>, b: seq<Complex>)
    requires forall p :: p in a <==> p in b
    ensures IsStable(a) == IsStable(b)
    ensures IsOscillatory(a) == IsOscillatory(b)
  {
    if IsOscillatory(a) {
      var k :| 0 <= k < |a| && a[k].re < 0.0 && a[k].im != 0.0;
      assert a[k] in b;
    }
    if IsOscillatory(b) {
      var k :| 0 <= k < |b| && b[k].re < 0.0 && b[k].im != 0.0;
      assert b[k] in a;
    }
    if !IsStable(a) {
      var k :| 0 <= k < |a| && a[k].re >= 0.0;
      assert a[k] in b;
    }
    if !IsStable(b) {
      var k :| 0 <= k < |b| && b[k].re >= 0.0;
      assert b[k] in a;
    }
  }

  /** Pole lists of two parts: stable when both parts are, oscillatory when
      either part is. */
  lemma {:induction false} VerdictsOfConcatenation(a: seq<Complex>, b: seq<Complex>)
    ensures IsStable(a + b) == (IsStable(a) && IsStable(b))
    ensures IsOscillatory(a + b) == (IsOscillatory(a) || IsOscillatory(b))
  {
    if a == [] {
      assert a + b == b;
    } else {
      VerdictsOfConcatenation(a[1..], b);
      assert (a + b)[1..] == a[1..] + b;
      assert (a + b)[0] == a[0];
    }
  }

  /** A stable system with a pole off the real axis is oscillatory. */
  lemma StableWithComplexPoleIsOscillatory(poles: seq<Complex>, k: nat)
    requires IsStable(poles) && k < |poles| && poles[k].im != 0.0
    ensures IsOscillatory(poles)
  {
  }

  /** The two flags are independent: each of the four combinations occurs,
      including the marginal case {0, -1}, which is unstable. */
  lemma VerdictExamples()
    ensures IsStable([Complex(-1.0, 0.0), Complex(-2.0, 0.0)])
    ensures !IsOscillatory([Complex(-1.0, 0.0), Complex(-2.0, 0.0)])
    ensures IsStable([Complex(-1.0, 2.0), Complex(-1.0, -2.0)])
    ensures IsOscillatory([Complex(-1.0, 2.0), Complex(-1.0, -2.0)])
    ensures !IsStable([Complex(1.0, 0.0), Complex(-2.0, 0.0)])
    ensures !IsOscillatory([Complex(1.0, 0.0), Complex(-2.0, 0.0)])
    ensures !IsStable([Complex(0.0, 0.0), Complex(-1.0, 0.0)])
    ensures !IsStable([Complex(1.0, 0.0), Complex(-1.0, 2.0)])
    ensures IsOscillatory([Complex(1.0, 0.0), Complex(-1.0, 2.0)])
  {
    assert [Complex(-1.0, 2.0), Complex(-1.0, -2.0)][0] == Complex(-1.0, 2.0);
    assert [Complex(1.0, 0.0), Complex(-1.0, 2.0)][1] == Complex(-1.0, 2.0);
  }
}
