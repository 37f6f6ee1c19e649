/** Construction of the three blocks of the loop as coefficient lists: the
    plant from the two text fields (with the identity fallback when they
    cannot be used), the P/PI/PD controller and the lead/lag element.
    Coefficients are listed highest power of s first, as `tf` takes them. */
module SystemBuilder {
  import opened ComplexNumbers
  import opened InputParser

  /** `tf(num, den)`: the rational function num(s)/den(s). */
  datatype TransferFunction<C> = TransferFunction(num: seq<C>, den: seq<C>)

  /** Horner evaluation of a real coefficient list, highest power first. */
  function Eval(c: seq<real>, x: real): real {
    if c == [] then 0.0 else Eval(c[..|c| - 1], x) * x + c[|c| - 1]
  }

  lemma EvalConstant(a: real)
    ensures forall x :: Eval([a], x) == a
  {
    forall x ensures Eval([a], x) == a {
      assert [a][..0] == [];
    }
  }

  lemma EvalLinear(a: real, b: real)
    ensures forall x :: Eval([a, b], x) == a * x + b
  {
    forall x ensures Eval([a, b], x) == a * x + b {
      assert [a, b][..1] == [a];
      EvalConstant(a);
    }
  }

  // ---------------------------------------------------------------------
  // The plant

  /** The sidebar's two ways of entering the plant. */
  datatype InputMode = CoefficientMode | PoleZeroMode

  /** What the plant is made from: coefficient lists for `tf`, or zeros,
      poles and gain for `signal.zpk2tf` followed by `tf`. */
  datatype PlantSpec =
    | Coefficients(num: seq<Complex>, den: seq<Complex>)
    | ZerosPoles(zeros: seq<Complex>, poles: seq<Complex>, gain: real)

  /** `tf([1], [1])`, the system used when the fields cannot be used. */
  const IdentityPlant: PlantSpec := Coefficients([One], [One])

  /** The pole/zero mode always uses gain 1. */
  const PoleZeroGain: real := 1.0

  /** The plant the two fields ask for, once both have parsed. */
  function Requested(mode: InputMode, first: seq<Complex>, second: seq<Complex>): (p: PlantSpec)
    ensures p.Coefficients? <==> mode == CoefficientMode
    ensures p.Coefficients? ==> p.num == first && p.den == second
    ensures p.ZerosPoles? ==> p.zeros == first && p.poles == second && p.gain == 1.0
  {
    match mode
    case CoefficientMode => Coefficients(first, second)
    case PoleZeroMode => ZerosPoles(first, second, PoleZeroGain)
  }

  /** The `try`/`except` around the plant construction: both fields are
      parsed (numerator and denominator, or zeros and poles), then handed
      to the library, which may itself raise (`accepts` says when it does
      not); any exception yields the identity plant. A token that does not
      convert, in either field, gives the identity plant; any other plant is
      one the library accepted, built from fields whose every token
      converted. */
  function BuildPlant(lit: Literals, mode: InputMode, first: string, second: string,
                      accepts: PlantSpec -> bool): (p: PlantSpec)
    ensures Parse(lit, first).Err? || Parse(lit, second).Err? ==> p == IdentityPlant
    ensures Parse(lit, first).Ok? && Parse(lit, second).Ok? ==>
              var wanted := Requested(mode, Parse(lit, first).value, Parse(lit, second).value);
              p == if accepts(wanted) then wanted else IdentityPlant
    ensures forall tok :: tok in Tokens(first) && Convert(lit, tok).None? ==> p == IdentityPlant
    ensures forall tok :: tok in Tokens(second) && Convert(lit, tok).None? ==> p == IdentityPlant
    ensures p != IdentityPlant ==>
              accepts(p)
              && (forall k :: 0 <= k < |Tokens(first)| ==> Convert(lit, Tokens(first)[k]).Some?)
              && (forall k :: 0 <= k < |Tokens(second)| ==> Convert(lit, Tokens(second)[k]).Some?)
  {
    ParseTokensMeaning(lit, Tokens(first));
    ParseTokensMeaning(lit, Tokens(second));
    match Parse(lit, first)
    case Err(_) => IdentityPlant
    case Ok(a) =>
      match Parse(lit, second)
      case Err(_) => IdentityPlant
      case Ok(b) =>
        var wanted := Requested(mode, a, b);
        if accepts(wanted) then wanted else IdentityPlant
  }

  /** A token that `complex` rejects, in either field, makes the plant the
      identity system, whatever the library would have done. */
  lemma RejectedTokenGivesIdentityPlant(lit: Literals, mode: InputMode, first: string, second: string,
                                        accepts: PlantSpec -> bool, tok: string)
    requires FloatImpliesComplex(lit)
    requires tok in Tokens(first) || tok in Tokens(second)
    requires lit.toComplex(tok).None?
    ensures BuildPlant(lit, mode, first, second, accepts) == IdentityPlant
  {
    if tok in Tokens(first) {
      RejectedTokenFailsParse(lit, first, tok);
    } else {
      RejectedTokenFailsParse(lit, second, tok);
    }
  }

  /** A plant other than the identity carries exactly the numbers typed
      into the fields, token by token. */
  lemma BuiltPlantHoldsParsedTokens(lit: Literals, mode: InputMode, first: string, second: string,
                                    accepts: PlantSpec -> bool)
    requires BuildPlant(lit, mode, first, second, accepts) != IdentityPlant
    ensures Parse(lit, first).Ok? && Parse(lit, second).Ok?
    ensures |Parse(lit, first).value| == |Tokens(first)|
    ensures forall k :: 0 <= k < |Tokens(first)| ==> Convert(lit, Tokens(first)[k]) == Some(Parse(lit, first).value[k])
    ensures |Parse(lit, second).value| == |Tokens(second)|
    ensures forall k :: 0 <= k < |Tokens(second)| ==> Convert(lit, Tokens(second)[k]) == Some(Parse(lit, second).value[k])
  {
    ParseTokensMeaning(lit, Tokens(first));
    ParseTokensMeaning(lit, Tokens(second));
  }

  // ---------------------------------------------------------------------
  // The controller

  datatype ControllerKind = P | PI | PD

  /** The slider values Kp, Ki and Kd; a controller ignores the gains it
      does not use. */
  datatype Gains = Gains(kp: real, ki: real, kd: real)

  /** The controller coefficients, evaluated: P is the constant Kp, PD is
      Kd·s + Kp, and PI, as written, is (Kp·Ki·s + Kp)/s. */
  function Controller(kind: ControllerKind, g: Gains): (c: TransferFunction<real>)
    ensures kind == P ==> forall x :: Eval(c.num, x) == g.kp && Eval(c.den, x) == 1.0
    ensures kind == PI ==> forall x :: Eval(c.num, x) == g.kp * g.ki * x + g.kp && Eval(c.den, x) == x
    ensures kind == PD ==> forall x :: Eval(c.num, x) == g.kd * x + g.kp && Eval(c.den, x) == 1.0
    ensures kind != PD ==> |c.num| <= |c.den|
  {
    EvalConstant(1.0);
    EvalConstant(g.kp);
    EvalLinear(g.kp * g.ki, g.kp);
    EvalLinear(1.0, 0.0);
    EvalLinear(g.kd, g.kp);
    match kind
    case P => TransferFunction([g.kp], [1.0])
    case PI => TransferFunction([g.kp * g.ki, g.kp], [1.0, 0.0])
    case PD => TransferFunction([g.kd, g.kp], [1.0])
  }

  /** The PI controller as written is Kp·Ki + Kp/s: its proportional gain
      is Kp·Ki and its integral gain Kp. */
  lemma PIControllerValue(g: Gains, x: real)
    requires x != 0.0
    ensures Eval(Controller(PI, g).num, x) / Eval(Controller(PI, g).den, x) == g.kp * g.ki + g.kp / x
  {
    var c := Controller(PI, g);
    var q := g.kp * g.ki + g.kp / x;
    assert g.kp / x * x == g.kp;
    assert q * x == g.kp * g.ki * x + g.kp;
    assert Eval(c.num, x) == q * x && Eval(c.den, x) == x;
    assert (q * x) / x == q;
  }

  /** It is neither of the textbook forms Kp·(1 + Ki/s) and Kp + Ki/s:
      with Kp = 1, Ki = 2 at s = 2 the coded controller gives 2.5, both
      textbook forms give 2. */
  lemma PIControllerIsNotTextbookForm()
    ensures var c := Controller(PI, Gains(1.0, 2.0, 0.0));
            var v := Eval(c.num, 2.0) / Eval(c.den, 2.0);
            v == 2.5 && v != 1.0 * (1.0 + 2.0 / 2.0) && v != 1.0 + 2.0 / 2.0
  {
    PIControllerValue(Gains(1.0, 2.0, 0.0), 2.0);
  }

  // ---------------------------------------------------------------------
  // The lead/lag element

  /** `tf([z, 1], [p, 1])` when enabled, the identity otherwise: the
      element (1 + z·s)/(1 + p·s). */
  function LeadLag(enabled: bool, z: real, p: real): (c: TransferFunction<real>)
    ensures enabled ==> forall x :: Eval(c.num, x) == 1.0 + z * x && Eval(c.den, x) == 1.0 + p * x
    ensures !enabled ==> forall x :: Eval(c.num, x) == 1.0 && Eval(c.den, x) == 1.0
  {
    EvalLinear(z, 1.0);
    EvalLinear(p, 1.0);
    EvalConstant(1.0);
    if enabled then TransferFunction([z, 1.0], [p, 1.0]) else TransferFunction([1.0], [1.0])
  }

  /** The points the root-locus plot marks for the element, -1/z and -1/p,
      are its zero and its pole. */
  lemma LeadLagZeroAndPole(z: real, p: real)
    requires z != 0.0 && p != 0.0
    ensures Eval(LeadLag(true, z, p).num, -1.0 / z) == 0.0
    ensures Eval(LeadLag(true, z, p).den, -1.0 / p) == 0.0
  {
    var c := LeadLag(true, z, p);
    assert Eval(c.num, -1.0 / z) == 1.0 + z * (-1.0 / z);
    assert Eval(c.den, -1.0 / p) == 1.0 + p * (-1.0 / p);
  }
}
