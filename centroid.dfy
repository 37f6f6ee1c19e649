/** The centre of the root-locus asymptotes ("Wurzelschwerpunkt") of the
    open loop: (Σ poles − Σ zeros) / (n_poles − n_zeros), drawn only when the
    two counts differ. The pole and zero lists come from the control
    library and are inputs here. */
module RootLocusCentroid {
  import opened ComplexNumbers

  /** Every number in the list lies on the real axis. */
  predicate AllReal(s: seq<Complex>) {
    s == [] || (s[0].im == 0.0 && AllReal(s[1..]))
  }

  /** `np.sum` of a list of complex numbers; a sum of real numbers is real. */
  function Sum(s: seq<Complex>): (r: Complex)
    ensures AllReal(s) ==> r.im == 0.0
  {
    if s == [] then Complex(0.0, 0.0) else Add(s[0], Sum(s[1..]))
  }

  /** The centroid, or None when the counts are equal and the division by
      zero is skipped. When present, it times n_poles − n_zeros gives back
      Σ poles − Σ zeros, componentwise. */
  function Centroid(poles: seq<Complex>, zeros: seq<Complex>): (c: Option<Complex>)
    ensures c.Some? <==> |poles| != |zeros|
    ensures c.Some? ==>
              c.value.re * (|poles| - |zeros|) as real == Sum(poles).re - Sum(zeros).re
              && c.value.im * (|poles| - |zeros|) as real == Sum(poles).im - Sum(zeros).im
  {
    if |poles| != |zeros| then
      var d := (|poles| - |zeros|) as real;
      var diff := Sub(Sum(poles), Sum(zeros));
      var q := DivReal(diff, d);
      assert q.re * d == diff.re && q.im * d == diff.im;
      Some(q)
    else
      None
  }

  lemma AddZero(x: Complex)
    ensures Add(Complex(0.0, 0.0), x) == x
  {
  }

  lemma AddAssoc(x: Complex, y: Complex, z: Complex)
    ensures Add(x, Add(y, z)) == Add(Add(x, y), z)
  {
  }

  lemma AddSwap(x: Complex, y: Complex, z: Complex)
    ensures Add(x, Add(y, z)) == Add(y, Add(x, z))
  {
  }

  lemma {:induction false} SumAppend(a: seq<Complex>, b: seq<Complex>)
    ensures Sum(a + b) == Add(Sum(a), Sum(b))
  {
    if a == [] {
      assert a + b == b;
      AddZero(Sum(b));
    } else {
      var ab := a + b;
      assert ab[1..] == a[1..] + b && ab[0] == a[0] && ab != [];
      SumAppend(a[1..], b);
      calc {
        Sum(ab);
        Add(a[0], Sum(a[1..] + b));
        Add(a[0], Add(Sum(a[1..]), Sum(b)));
        { AddAssoc(a[0], Sum(a[1..]), Sum(b)); }
        Add(Add(a[0], Sum(a[1..])), Sum(b));
      }
    }
  }

  /** Taking one term out of the middle of a sum. */
  lemma SumRemoveAt(b: seq<Complex>, k: nat)
    requires k < |b|
    ensures Sum(b) == Add(b[k], Sum(b[..k] + b[k + 1..]))
  {
    var pre, post := b[..k], b[k + 1..];
    var xpost := [b[k]] + post;
    assert b == pre + xpost;
    assert xpost[0] == b[k] && xpost[1..] == post && xpost != [];
    assert Sum(xpost) == Add(b[k], Sum(post));
    SumAppend(pre, xpost);
    SumAppend(pre, post);
    calc {
      Sum(b);
      Add(Sum(pre), Add(b[k], Sum(post)));
      { AddSwap(Sum(pre), b[k], Sum(post)); }
      Add(b[k], Add(Sum(pre), Sum(post)));
      Add(b[k], Sum(pre + post));
    }
  }

  lemma MultisetRemoveAt(a: seq<Complex>, b: seq<Complex>, k: nat)
    requires a != [] && multiset(a) == multiset(b) && k < |b| && b[k] == a[0]
    ensures multiset(a[1..]) == multiset(b[..k] + b[k + 1..])
  {
    assert a == [a[0]] + a[1..];
    assert multiset(a) == multiset{a[0]} + multiset(a[1..]);
    assert b == b[..k] + [b[k]] + b[k + 1..];
    assert multiset(b) == multiset(b[..k]) + multiset{b[k]} + multiset(b[k + 1..]);
    var ra, rb := multiset(a[1..]), multiset(b[..k] + b[k + 1..]);
    assert rb == multiset(b[..k]) + multiset(b[k + 1..]);
    forall x ensures ra[x] == rb[x] {
      assert multiset(a)[x] == multiset{a[0]}[x] + ra[x];
      assert multiset(b)[x] == multiset{b[k]}[x] + rb[x];
    }
  }

  /** The sum does not depend on the order of the terms. */
  lemma {:induction false} SumPermutation(a: seq<Complex>, b: seq<Complex>)
    requires multiset(a) == multiset(b)
    ensures Sum(a) == Sum(b)
    decreases |a|
  {
    if a == [] {
      assert |b| == |multiset(b)| == 0;
    } else {
      assert a[0] in multiset(b);
      var k :| 0 <= k < |b| && b[k] == a[0];
      MultisetRemoveAt(a, b, k);
      SumPermutation(a[1..], b[..k] + b[k + 1..]);
      SumRemoveAt(b, k);
    }
  }

  /** The centroid does not depend on the order in which the library lists
      the poles and the zeros. */
  lemma CentroidOrderIndependent(poles: seq<Complex>, poles': seq<Complex>, zeros: seq<Complex>, zeros': seq<Complex>)
    requires multiset(poles) == multiset(poles') && multiset(zeros) == multiset(zeros')
    ensures Centroid(poles, zeros) == Centroid(poles', zeros')
  {
    SumPermutation(poles, poles');
    SumPermutation(zeros, zeros');
    assert |poles| == |multiset(poles)| == |poles'|;
    assert |zeros| == |multiset(zeros)| == |zeros'|;
  }

  function Conj(c: Complex): Complex {
    Complex(c.re, -c.im)
  }

  function ConjAll(s: seq<Complex>): (r: seq<Complex>)
    ensures |r| == |s|
  {
    if s == [] then [] else [Conj(s[0])] + ConjAll(s[1..])
  }

  lemma ConjAdd(x: Complex, y: Complex)
    ensures Add(Conj(x), Conj(y)) == Conj(Add(x, y))
  {
  }

  lemma {:induction false} SumConj(s: seq<Complex>)
    ensures Sum(ConjAll(s)) == Conj(Sum(s))
  {
    if s == [] {
      assert ConjAll(s) == [];
      assert Sum(s) == Complex(0.0, 0.0);
    } else {
      SumConj(s[1..]);
      var c := ConjAll(s);
      assert c[0] == Conj(s[0]) && c[1..] == ConjAll(s[1..]) && c != [];
      calc {
        Sum(c);
        Add(c[0], Sum(c[1..]));
        Add(Conj(s[0]), Conj(Sum(s[1..])));
        { ConjAdd(s[0], Sum(s[1..])); }
        Conj(Add(s[0], Sum(s[1..])));
        Conj(Sum(s));
      }
    }
  }

  /** A list closed under conjugation sums to a real number. */
  lemma ConjugateClosedSumIsReal(s: seq<Complex>)
    requires multiset(ConjAll(s)) == multiset(s)
    ensures Sum(s).im == 0.0
  {
    SumConj(s);
    SumPermutation(ConjAll(s), s);
    assert Sum(s) == Conj(Sum(s));
  }

  /** A system with real coefficients has its poles and zeros in conjugate
      pairs; its centroid then lies on the real axis. */
  lemma CentroidOfConjugateClosedSetsIsReal(poles: seq<Complex>, zeros: seq<Complex>)
    requires multiset(ConjAll(poles)) == multiset(poles)
    requires multiset(ConjAll(zeros)) == multiset(zeros)
    requires |poles| != |zeros|
    ensures Centroid(poles, zeros).value.im == 0.0
  {
    ConjugateClosedSumIsReal(poles);
    ConjugateClosedSumIsReal(zeros);
    var d := (|poles| - |zeros|) as real;
    var diff := Sub(Sum(poles), Sum(zeros));
    assert diff.im == 0.0;
    assert Centroid(poles, zeros) == Some(DivReal(diff, d));
    assert DivReal(diff, d).im == 0.0 / d == 0.0;
  }

  /** Two poles and one zero: the centroid is p1 + p2 − z. */
  lemma CentroidTwoPolesOneZero(p1: Complex, p2: Complex, z: Complex)
    ensures Centroid([p1, p2], [z]) == Some(Complex(p1.re + p2.re - z.re, p1.im + p2.im - z.im))
  {
    var poles, zeros := [p1, p2], [z];
    assert poles[1..] == [p2] && poles[1..][1..] == [] && zeros[1..] == [];
    var nil: seq<Complex> := [];
    assert Sum(nil) == Complex(0.0, 0.0);
    assert Sum(zeros) == Add(z, Sum(nil));
    assert Sum(poles[1..]) == Add(p2, Sum(nil));
    assert Sum(poles) == Add(p1, Sum(poles[1..]));
  }

  /** Poles −1 and −3 with the zero −2 put the centroid at −2. */
  lemma CentroidExample()
    ensures Centroid([Complex(-1.0, 0.0), Complex(-3.0, 0.0)], [Complex(-2.0, 0.0)]) == Some(Complex(-2.0, 0.0))
  {
    CentroidTwoPolesOneZero(Complex(-1.0, 0.0), Complex(-3.0, 0.0), Complex(-2.0, 0.0));
  }
}
