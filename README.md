# Interactive control-engineering tool: verified model of its computational core

`regelungstechnik_master.py` is a single-page web app: the user enters a
plant (as numerator/denominator coefficients or as zeros and poles), picks
a P, PI or PD controller and optionally a lead/lag element; the app forms
the open and closed loop and shows step response, Bode, Nyquist and root
locus plots plus two verdicts, "stable" and "oscillatory".

This project models, in Dafny, the parts of that script that are its own
logic rather than calls into the plotting and control libraries:

- `parser.dfy` (module `InputParser`): `parse_complex_list`, the text-field
  tokenizer. Spaces are removed, the text is split at commas, empty pieces
  are skipped, and each piece is converted with `complex()` and, should that
  fail, with `float()`. The literal grammars of Python's `complex()` and
  `float()` are abstracted as two partial functions (`Literals`); a token
  neither accepts is an error (`Err(token)`), as the escaping exception is.
  The method `ParseComplexList` is the loop; it is proved equal to the
  functional specification `Parse`, about which the lemmas are stated.
- `system_builder.dfy` (module `SystemBuilder`): the `try`/`except` plant
  construction with its identity-system fallback `tf([1], [1])`, the three
  controller coefficient lists, and the lead/lag element `tf([z, 1], [p, 1])`.
  Coefficient lists are given meaning through Horner evaluation `Eval`.
- `stability.dfy` (module `StabilityClassifier`): the stability and
  oscillation verdicts over a given list of closed-loop poles.
- `phase_axis.dfy` (module `PhaseAnnotator`): the annotation of the Bode
  phase plot: limits rounded outward to multiples of 45° after 10° padding,
  reference lines every 45°, a crossing marker at the linearly interpolated
  frequency for every sign change of (phase − level) between consecutive
  samples, and the quadrant labels Q1 (45°), Q2 (135°), Q3 (−135°),
  Q4 (−45°) at the middle frequency when their angle lies within the
  limits. The two nested loops are methods proved equal to functions.
- `centroid.dfy` (module `RootLocusCentroid`): the centroid of the root-locus
  asymptotes, (Σ poles − Σ zeros)/(n_poles − n_zeros), skipped when the
  counts are equal.
- `complex.dfy` (module `ComplexNumbers`): complex numbers as pairs of
  reals, and the `Option`/`Result` types.

Floating-point numbers are modelled as Dafny `real`s (exact arithmetic).

Two details of the code are easy to misread; the model follows the code:

- `s.replace(" ", "")` removes only the space character, not tabs or other
  whitespace.
- The PI controller `tf([Kp * Ki, Kp], [1, 0])` lists coefficients highest
  power first, so it is (Kp·Ki·s + Kp)/s = Kp·Ki + Kp/s, not one of the textbook
  forms Kp·(1 + Ki/s) or Kp + Ki/s. The model keeps the coded form and states it
  (`PIControllerValue`, `PIControllerIsNotTextbookForm`).

## Model

| member | source | states |
|---|---|---|
| InputParser.ParseComplexList | regelungstechnik_master.py:20-31 | the tokenizer loop returns exactly `Parse(lit, s)`: the list of converted tokens, or the first token neither conversion accepts |
| InputParser.Convert | regelungstechnik_master.py:27-30 | a token converts iff `complex()` or `float()` accepts it, `complex()` taking precedence; when every float literal is also a complex literal (as in Python) the `float()` fallback never changes the outcome: the token converts exactly when `complex()` accepts it, to that value |
| InputParser.Tokens | regelungstechnik_master.py:20-26 | the pieces the loop converts; there are at most one more than the commas of the space-free text |
| InputParser.ParseTokens | regelungstechnik_master.py:25-31 | the conversion of a token list: on success one value per token; on failure the token it names is one of the list |
| InputParser.Parse | regelungstechnik_master.py:20-31 | `parse_complex_list` as a value: on success one value per token of the field; on failure a token of the field |
| InputParser.RemoveSpaces | regelungstechnik_master.py:21 | no space is left after `replace(" ", "")` |
| InputParser.RemoveSpacesAppend | regelungstechnik_master.py:21 | removing spaces from a concatenation removes them from each part |
| InputParser.Split | regelungstechnik_master.py:25 | `split(",")` yields one piece more than there are commas |
| InputParser.SplitChars | regelungstechnik_master.py:25 | every character of a piece comes from the split text, and none is a comma |
| InputParser.SplitAtComma | regelungstechnik_master.py:25 | the pieces of `x,y` are the pieces of `x` followed by those of `y` |
| InputParser.SplitJoin | regelungstechnik_master.py:25 | joining the pieces with commas gives back the string |
| InputParser.NonEmptyShape | regelungstechnik_master.py:26 | the `if part` filter keeps only non-empty pieces, each taken from its input |
| InputParser.NonEmptyAppend | regelungstechnik_master.py:26 | filtering a concatenation concatenates the filtered parts |
| InputParser.TokensShape | regelungstechnik_master.py:20-26 | every token is non-empty and holds no space and no comma; there are no tokens iff the field contains only spaces and commas (the early `if not s` return included) |
| InputParser.TokensConcat | regelungstechnik_master.py:20-26 | the tokens, concatenated, are the field without its spaces and commas: no other character is lost |
| InputParser.TokensAtComma | regelungstechnik_master.py:25-26 | the tokens of `x,y` are the tokens of `x` followed by those of `y` |
| InputParser.RepeatedCommaIgnored | regelungstechnik_master.py:25-26 | a doubled comma gives the same tokens as a single one |
| InputParser.TrailingCommaIgnored | regelungstechnik_master.py:25-26 | a trailing comma adds no token |
| InputParser.TokensOfEmpty | regelungstechnik_master.py:23-24 | an empty field gives the empty list |
| InputParser.ConcatSplit | regelungstechnik_master.py:25 | concatenating the comma pieces of a space-free string removes exactly its commas |
| InputParser.ParseTokensMeaning | regelungstechnik_master.py:25-30 | parsing succeeds iff every token converts, the k-th value is the k-th token's conversion, and an error names a token that fails to convert |
| InputParser.ParseErrorIsFirstFailure | regelungstechnik_master.py:25-30 | the reported token is the first failing one: all tokens before it convert |
| InputParser.ParseTokensAppend | regelungstechnik_master.py:25-30 | parsing a concatenation stops at the first part's error, else at the second's, else concatenates the values |
| InputParser.RejectedTokenFailsParse | regelungstechnik_master.py:27-30 | with Python's literal nesting, any token `complex()` rejects makes the whole field fail |
| InputParser.ParseSingle | regelungstechnik_master.py:27-30 | a one-token field parses to that token's conversion or to an error naming it |
| SystemBuilder.Requested | regelungstechnik_master.py:43-58 | coefficient mode asks for the parsed numerator and denominator; pole/zero mode for the parsed zeros and poles with gain 1 |
| SystemBuilder.BuildPlant | regelungstechnik_master.py:39-61 | any token that does not convert, in either field, gives the identity plant `tf([1], [1])`; a plant other than the identity is one the library accepts, and every token of both fields converted; otherwise the library's rejection also gives the identity plant |
| SystemBuilder.RejectedTokenGivesIdentityPlant | regelungstechnik_master.py:42-61 | a token `complex()` rejects in either field yields `tf([1], [1])` |
| SystemBuilder.BuiltPlantHoldsParsedTokens | regelungstechnik_master.py:42-61 | a plant other than the identity carries exactly the converted tokens of both fields |
| SystemBuilder.EvalConstant | regelungstechnik_master.py:77 | a one-coefficient list is the constant polynomial |
| SystemBuilder.EvalLinear | regelungstechnik_master.py:72-75 | a two-coefficient list `[a, b]` is a·s + b (highest power first) |
| SystemBuilder.Controller | regelungstechnik_master.py:66-77 | P is Kp/1, PI is (Kp·Ki·s + Kp)/s, PD is (Kd·s + Kp)/1 at every s; P and PI are proper |
| SystemBuilder.PIControllerValue | regelungstechnik_master.py:72 | for s ≠ 0 the PI controller equals Kp·Ki + Kp/s |
| SystemBuilder.PIControllerIsNotTextbookForm | regelungstechnik_master.py:72 | with Kp = 1, Ki = 2 at s = 2 it gives 2.5, where both Kp·(1 + Ki/s) and Kp + Ki/s give 2 |
| SystemBuilder.LeadLag | regelungstechnik_master.py:83-93 | enabled, the element is (1 + z·s)/(1 + p·s); disabled, it is 1/1 |
| SystemBuilder.LeadLagZeroAndPole | regelungstechnik_master.py:210-212 | the marked points −1/z and −1/p are the element's zero and pole |
| StabilityClassifier.IsStable | regelungstechnik_master.py:101-102 | stable iff every pole has negative real part |
| StabilityClassifier.IsOscillatory | regelungstechnik_master.py:104-105 | oscillatory iff some pole has negative real part and non-zero imaginary part |
| StabilityClassifier.EmptyPoleList | regelungstechnik_master.py:102-105 | no poles: stable and not oscillatory (`all`/`any` of nothing) |
| StabilityClassifier.PoleOutsideLeftHalfPlane | regelungstechnik_master.py:102 | a single pole with real part ≥ 0, including the imaginary axis, makes the system unstable |
| StabilityClassifier.VerdictsDependOnPoleSetOnly | regelungstechnik_master.py:101-105 | the verdicts do not depend on the order or multiplicity of the reported poles |
| StabilityClassifier.VerdictsOfConcatenation | regelungstechnik_master.py:101-105 | stable over two lists iff stable over both; oscillatory iff either is |
| StabilityClassifier.StableWithComplexPoleIsOscillatory | regelungstechnik_master.py:102-105 | a stable system with a pole off the real axis is oscillatory |
| StabilityClassifier.VerdictExamples | regelungstechnik_master.py:101-105 | all four flag combinations occur; poles {0, −1} are unstable |
| PhaseAnnotator.Ceil | regelungstechnik_master.py:152 | `np.ceil`: the least integer not below x |
| PhaseAnnotator.RoundDown45 | regelungstechnik_master.py:149-150 | the largest multiple of 45 not above x − 10 |
| PhaseAnnotator.RoundUp45 | regelungstechnik_master.py:151-152 | the smallest multiple of 45 not below x + 10 |
| PhaseAnnotator.SeqMin | regelungstechnik_master.py:154 | `nanmin`: an element of the phase, not above any other |
| PhaseAnnotator.SeqMax | regelungstechnik_master.py:155 | `nanmax`: an element of the phase, not below any other |
| PhaseAnnotator.LimitsEnclosePhase | regelungstechnik_master.py:147-158 | every phase sample lies at least 10° inside the axis limits, which are at least 45° apart |
| PhaseAnnotator.Arange | regelungstechnik_master.py:161 | `np.arange(lo, stop, 45)`: every value lies in [lo, stop) at a whole number of 45° steps from lo |
| PhaseAnnotator.Ticks | regelungstechnik_master.py:161 | every reference line lies in [ymin, ymax] at a whole number of 45° steps from ymin |
| PhaseAnnotator.TicksAreMultiplesOf45 | regelungstechnik_master.py:161 | `np.arange(ymin, ymax + 1, 45)` runs from ymin to ymax in steps of 45, and holds exactly the multiples of 45 in [ymin, ymax] |
| PhaseAnnotator.SignChangeMeansBetween | regelungstechnik_master.py:170 | the product test is negative iff the level lies strictly between the two samples |
| PhaseAnnotator.Alpha | regelungstechnik_master.py:172 | alpha·(p2 − p1) = target − p1: the fraction of the phase step at which the level is reached |
| PhaseAnnotator.CrossFrequency | regelungstechnik_master.py:173 | the point (target, w_cross) lies on the straight line through (p1, w1) and (p2, w2) |
| PhaseAnnotator.MarkerAt | regelungstechnik_master.py:171-174 | the `hlines` segment of one crossing: on the level, centred on the interpolated crossing frequency, 4% of it wide |
| PhaseAnnotator.InterpolationBounds | regelungstechnik_master.py:170-173 | at a sign change the samples differ, 0 < alpha < 1, and the crossing frequency lies strictly between the two sample frequencies |
| PhaseAnnotator.CrossingIndices | regelungstechnik_master.py:168-170 | the sample pairs with a sign change, all of them, in increasing order |
| PhaseAnnotator.ScanLevel | regelungstechnik_master.py:168-174 | the inner loop as a value: at most one marker per sample pair, all on the level scanned |
| PhaseAnnotator.ScanLevels | regelungstechnik_master.py:167-174 | the nested loops as a value: every marker lies on one of the reference lines |
| PhaseAnnotator.ScanLevelFollowsCrossings | regelungstechnik_master.py:168-174 | one level's scan emits one marker per crossing index, in order |
| PhaseAnnotator.ScanLevelsExact | regelungstechnik_master.py:167-174 | a marker is drawn iff its level is a reference line and the curve crosses it between some consecutive samples |
| PhaseAnnotator.MarkerGeometry | regelungstechnik_master.py:171-174 | on an increasing positive grid a marker spans 0.98·w_cross to 1.02·w_cross around a crossing strictly between the two sample frequencies |
| PhaseAnnotator.MarkedLevelInsideRange | regelungstechnik_master.py:167-174 | a marked level lies strictly between the phase minimum and maximum |
| PhaseAnnotator.ScanOneLevel | regelungstechnik_master.py:168-174 | the inner loop appends exactly the markers of one level's scan |
| PhaseAnnotator.CrossingMarkers | regelungstechnik_master.py:167-174 | the nested loops emit exactly the markers of the specification, level by level |
| PhaseAnnotator.LabelsInRange | regelungstechnik_master.py:184-186 | at most one label per quadrant entry |
| PhaseAnnotator.LabelsInRangeExact | regelungstechnik_master.py:184-186 | a label is drawn iff it is a quadrant entry whose angle is within [ymin, ymax], at the middle frequency |
| PhaseAnnotator.QuadrantLabels | regelungstechnik_master.py:177-186 | the labels of the four quadrant entries (`Quadrants`: Q1 45, Q2 135, Q3 −135, Q4 −45) that are drawn: at most four, each within [ymin, ymax], at the given frequency |
| PhaseAnnotator.QuadrantLabelShownIffInRange | regelungstechnik_master.py:177-186 | each of Q1..Q4 appears iff its angle lies within the limits; at most four labels |
| PhaseAnnotator.AnnotatePhase | regelungstechnik_master.py:147-186 | the limits, the reference lines, the crossing markers and the labels, each as specified above; every sample lies 10° inside the limits |
| RootLocusCentroid.Centroid | regelungstechnik_master.py:222-230 | present iff the counts differ; then it times (n_poles − n_zeros) is Σ poles − Σ zeros |
| RootLocusCentroid.Sum | regelungstechnik_master.py:227-228 | `np.sum`: a sum of numbers on the real axis lies on the real axis |
| RootLocusCentroid.SumAppend | regelungstechnik_master.py:227-228 | the sum of a concatenation is the sum of the two sums |
| RootLocusCentroid.SumPermutation | regelungstechnik_master.py:227-228 | `np.sum` does not depend on the order of the terms |
| RootLocusCentroid.CentroidOrderIndependent | regelungstechnik_master.py:218-230 | the centroid does not depend on the order in which poles and zeros are listed |
| RootLocusCentroid.SumConj | regelungstechnik_master.py:227-228 | the sum of the conjugates is the conjugate of the sum |
| RootLocusCentroid.ConjugateClosedSumIsReal | regelungstechnik_master.py:227-228 | a list closed under conjugation has a real sum |
| RootLocusCentroid.CentroidOfConjugateClosedSetsIsReal | regelungstechnik_master.py:218-230 | with poles and zeros in conjugate pairs the centroid lies on the real axis |
| RootLocusCentroid.CentroidTwoPolesOneZero | regelungstechnik_master.py:222-229 | two poles and one zero give the centroid p1 + p2 − z |
| RootLocusCentroid.CentroidExample | regelungstechnik_master.py:222-229 | poles −1, −3 and zero −2 give the centroid −2 |

## Left out

- The user interface (page layout, sidebar widgets, slider ranges and defaults, headings, error messages) is not modelled; widget values are parameters.
- Plotting (matplotlib figures, step response, Nyquist plot, root-locus curves, legends) is not modelled; the phase annotation is modelled as the data it would draw.
- Calls into the control library and SciPy (`tf` and its arithmetic, the open and closed loop, `poles`, `zeros`, `bode_plot`, `signal.zpk2tf`, `root_locus`) are not part of this model: pole and zero lists, phase and frequency samples are inputs.
- Whether `tf` or `zpk2tf` raise on a given parsed plant is a parameter (`accepts`) of `SystemBuilder.BuildPlant`.
- `np.degrees`, `np.log10`, `np.logspace` and floating-point rounding are not modelled; numbers are exact reals.
- NaN is not modelled: `SeqMin`/`SeqMax` stand for `nanmin`/`nanmax` on NaN-free data.
- The literal grammars of `complex()` and `float()` are not modelled; they are the partial functions of `InputParser.Literals`.
- InputParser.Convert: a value from the `float()` fallback is stored as a complex number with zero imaginary part, where Python would keep a float.
- PhaseAnnotator.AnnotatePhase: requires a non-empty phase list (`nanmin` of an empty array raises, which the script does not catch) and a frequency list of the same length, as `bode_plot` returns.
- SystemBuilder.LeadLagZeroAndPole: the markers `-1 / z` and `-1 / p` are only stated for z ≠ 0 and p ≠ 0; the division by zero the slider permits is not modelled.
