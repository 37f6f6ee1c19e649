/** The coefficient-list tokenizer `parse_complex_list`: the text of an input
    field loses its space characters, is split at commas, empty pieces are
    skipped and every other piece is converted, in order, to a number. */
module InputParser {
  import opened ComplexNumbers

  /** Python's two literal conversions, abstracted: `complex(tok)` and
      `float(tok)` each either produce a value or reject the token (raise
      ValueError). Their grammars are not part of this model. */
  datatype Literals = Literals(toComplex: string -> Option<Complex>, toFloat: string -> Option<real>)

  /** Python's literal grammars are nested: every string `float` accepts,
      `complex` accepts too. */
  ghost predicate FloatImpliesComplex(lit: Literals) {
    forall tok :: lit.toFloat(tok).Some? ==> lit.toComplex(tok).Some?
  }

  /** One token: `complex(part)`, and `float(part)` when `complex` raised.
      A token converts when either conversion accepts it, `complex` taking
      precedence; under Python's nested grammars the `float` fallback never
      rescues a token, so a token converts exactly when `complex` accepts
      it, and to that value. */
  function Convert(lit: Literals, tok: string): (c: Option<Complex>)
    ensures c.Some? <==> lit.toComplex(tok).Some? || lit.toFloat(tok).Some?
    ensures lit.toComplex(tok).Some? ==> c == lit.toComplex(tok)
    ensures lit.toComplex(tok).None? && lit.toFloat(tok).Some? ==> c == Some(OfReal(lit.toFloat(tok).value))
    ensures FloatImpliesComplex(lit) ==> c == lit.toComplex(tok)
  {
    match lit.toComplex(tok)
    case Some(z) => Some(z)
    case None =>
      match lit.toFloat(tok)
      case Some(x) => Some(OfReal(x))
      case None => None
  }

  // ---------------------------------------------------------------------
  // Text operations: str.replace(" ", ""), str.split(","), and the filter
  // `if part:`.

  /** `s.replace(" ", "")`: only the space character is removed. */
  function RemoveSpaces(s: string): (r: string)
    ensures ' ' !in r
  {
    if s == [] then []
    else (if s[0] == ' ' then [] else [s[0]]) + RemoveSpaces(s[1..])
  }

  function CommaCount(s: string): nat {
    if s == [] then 0 else (if s[0] == ',' then 1 else 0) + CommaCount(s[1..])
  }

  /** `s.split(",")`: the pieces between commas; there is always one piece
      more than there are commas. */
  function Split(s: string): (r: seq<string>)
    ensures |r| == CommaCount(s) + 1
  {
    if s == [] then [""]
    else
      var rest := Split(s[1..]);
      if s[0] == ',' then [""] + rest
      else [[s[0]] + rest[0]] + rest[1..]
  }

  /** `",".join(ps)`, the inverse of Split. */
  function Join(ps: seq<string>): string
    requires |ps| >= 1
  {
    if |ps| == 1 then ps[0] else ps[0] + [','] + Join(ps[1..])
  }

  /** The pieces that the loop does not skip (`if part:`). */
  function NonEmpty(ps: seq<string>): (r: seq<string>)
    ensures |r| <= |ps|
  {
    if ps == [] then []
    else (if ps[0] == [] then [] else [ps[0]]) + NonEmpty(ps[1..])
  }

  /** The filter keeps only non-empty pieces, each one taken from its input. */
  lemma {:induction false} NonEmptyShape(ps: seq<string>)
    ensures forall k :: 0 <= k < |NonEmpty(ps)| ==> NonEmpty(ps)[k] != [] && NonEmpty(ps)[k] in ps
  {
    if ps != [] {
      NonEmptyShape(ps[1..]);
      var head := if ps[0] == [] then [] else [ps[0]];
      var r, rest := NonEmpty(ps), NonEmpty(ps[1..]);
      assert r == head + rest;
      forall k | 0 <= k < |r| ensures r[k] != [] && r[k] in ps {
        if k >= |head| {
          assert r[k] == rest[k - |head|];
          assert rest[k - |head|] in ps[1..];
        }
      }
    }
  }

  /** The tokens `parse_complex_list` converts, in order. */
  function Tokens(s: string): (r: seq<string>)
    ensures |r| <= CommaCount(RemoveSpaces(s)) + 1
  {
    NonEmpty(Split(RemoveSpaces(s)))
  }

  function Concat(ps: seq<string>): string {
    if ps == [] then [] else ps[0] + Concat(ps[1..])
  }

  /** The input with every space and every comma removed. */
  function Strip(s: string): string {
    if s == [] then []
    else (if s[0] == ' ' || s[0] == ',' then [] else [s[0]]) + Strip(s[1..])
  }

  lemma {:induction false} SplitJoin(s: string)
    ensures Join(Split(s)) == s
  {
    if s != [] {
      SplitJoin(s[1..]);
      var rest := Split(s[1..]);
      if s[0] != ',' {
        if |rest| == 1 {
          assert Split(s) == [[s[0]] + rest[0]];
        } else {
          assert Split(s)[1..] == rest[1..];
          assert Join(rest) == rest[0] + [','] + Join(rest[1..]);
        }
      }
      assert s == [s[0]] + s[1..];
    }
  }

  /** Split, one character at a time. */
  lemma SplitCons(c: char, t: string)
    ensures Split([c] + t) ==
              if c == ',' then [""] + Split(t) else [[c] + Split(t)[0]] + Split(t)[1..]
  {
    assert ([c] + t)[0] == c && ([c] + t)[1..] == t;
  }

  /** The inductive step of SplitAtComma: one more character in front. */
  lemma SplitAtCommaStep(c: char, x: string, y: string)
    requires Split(x + [','] + y) == Split(x) + Split(y)
    ensures Split([c] + (x + [','] + y)) == Split([c] + x) + Split(y)
  {
    var rx, ry := Split(x), Split(y);
    SplitCons(c, x + [','] + y);
    SplitCons(c, x);
    if c != ',' {
      SplitHeadStep(c, rx, ry);
    } else {
      Assoc([""], rx, ry);
    }
  }

  lemma SplitHeadStep(c: char, rx: seq<string>, ry: seq<string>)
    requires rx != []
    ensures [[c] + (rx + ry)[0]] + (rx + ry)[1..] == ([[c] + rx[0]] + rx[1..]) + ry
  {
    assert (rx + ry)[0] == rx[0] && (rx + ry)[1..] == rx[1..] + ry;
    Assoc([[c] + rx[0]], rx[1..], ry);
  }

  /** A comma separates the pieces of the text before it from those after it. */
  lemma {:induction false} SplitAtComma(x: string, y: string)
    ensures Split(x + [','] + y) == Split(x) + Split(y)
  {
    if x == [] {
      assert x + [','] + y == [','] + y;
      SplitCons(',', y);
    } else {
      SplitAtComma(x[1..], y);
      SplitAtCommaStep(x[0], x[1..], y);
      assert x == [x[0]] + x[1..] && x + [','] + y == [x[0]] + (x[1..] + [','] + y);
    }
  }

  lemma RemoveSpacesCons(c: char, s: string)
    ensures RemoveSpaces([c] + s) == (if c == ' ' then [] else [c]) + RemoveSpaces(s)
  {
    assert ([c] + s)[0] == c && ([c] + s)[1..] == s;
  }

  lemma {:induction false} RemoveSpacesAppend(x: string, y: string)
    ensures RemoveSpaces(x + y) == RemoveSpaces(x) + RemoveSpaces(y)
  {
    if x == [] {
      assert x + y == y;
    } else {
      var c, t := x[0], x[1..];
      assert x == [c] + t && x + y == [c] + (t + y);
      RemoveSpacesAppend(t, y);
      RemoveSpacesCons(c, t + y);
      RemoveSpacesCons(c, t);
      Assoc(if c == ' ' then [] else [c], RemoveSpaces(t), RemoveSpaces(y));
    }
  }

  lemma NonEmptyCons(p: string, ps: seq<string>)
    ensures NonEmpty([p] + ps) == (if p == [] then [] else [p]) + NonEmpty(ps)
  {
    assert ([p] + ps)[0] == p && ([p] + ps)[1..] == ps;
  }

  lemma Assoc<T>(u: seq<T>, v: seq<T>, w: seq<T>)
    ensures u + (v + w) == (u + v) + w
  {
  }

  lemma {:induction false} NonEmptyAppend(a: seq<string>, b: seq<string>)
    ensures NonEmpty(a + b) == NonEmpty(a) + NonEmpty(b)
  {
    if a == [] {
      assert a + b == b;
    } else {
      var p, t := a[0], a[1..];
      assert a == [p] + t && a + b == [p] + (t + b);
      NonEmptyAppend(t, b);
      NonEmptyCons(p, t + b);
      NonEmptyCons(p, t);
      Assoc(if p == [] then [] else [p], NonEmpty(t), NonEmpty(b));
    }
  }

  /** A comma separates tokens: the tokens of the text before it are
      followed by those of the text after it. */
  lemma TokensAtComma(x: string, y: string)
    ensures Tokens(x + [','] + y) == Tokens(x) + Tokens(y)
  {
    var x', y' := RemoveSpaces(x), RemoveSpaces(y);
    RemoveSpacesAppend(x + [','], y);
    RemoveSpacesAppend(x, [',']);
    assert RemoveSpaces([',']) == [','];
    assert RemoveSpaces(x + [','] + y) == x' + [','] + y';
    SplitAtComma(x', y');
    NonEmptyAppend(Split(x'), Split(y'));
  }

  lemma TokensOfEmpty()
    ensures Tokens([]) == []
  {
    assert Split([]) == [""];
    assert NonEmpty([""]) == [];
  }

  /** A doubled comma contributes nothing: `"1,,2"` tokenizes as `"1,2"`. */
  lemma RepeatedCommaIgnored(a: string, b: string)
    ensures Tokens(a + [',', ','] + b) == Tokens(a + [','] + b)
  {
    var cb := [','] + b;
    calc {
      Tokens(a + [',', ','] + b);
      { assert a + [',', ','] + b == a + [','] + cb; }
      Tokens(a + [','] + cb);
      { TokensAtComma(a, cb); }
      Tokens(a) + Tokens(cb);
      { assert cb == [] + [','] + b; TokensAtComma([], b); TokensOfEmpty(); }
      Tokens(a) + Tokens(b);
      { TokensAtComma(a, b); }
      Tokens(a + [','] + b);
    }
  }

  /** A trailing comma contributes nothing: `"1,2,"` tokenizes as `"1,2"`. */
  lemma TrailingCommaIgnored(s: string)
    ensures Tokens(s + [',']) == Tokens(s)
  {
    assert s + [','] == s + [','] + [];
    TokensAtComma(s, []);
    TokensOfEmpty();
  }

  lemma {:induction false} ConcatSplit(t: string)
    requires ' ' !in t
    ensures Concat(Split(t)) == Strip(t)
  {
    if t != [] {
      ConcatSplit(t[1..]);
      var rest := Split(t[1..]);
      if t[0] != ',' {
        assert Split(t) == [[t[0]] + rest[0]] + rest[1..];
        assert rest == [rest[0]] + rest[1..];
        assert Concat(rest) == rest[0] + Concat(rest[1..]);
        assert Concat(Split(t)) == [t[0]] + rest[0] + Concat(rest[1..]);
      }
    }
  }

  lemma {:induction false} ConcatNonEmpty(ps: seq<string>)
    ensures Concat(NonEmpty(ps)) == Concat(ps)
  {
    if ps != [] {
      ConcatNonEmpty(ps[1..]);
      if ps[0] != [] {
        assert NonEmpty(ps) == [ps[0]] + NonEmpty(ps[1..]);
      } else {
        assert NonEmpty(ps) == NonEmpty(ps[1..]);
        assert Concat(ps) == [] + Concat(ps[1..]) == Concat(ps[1..]);
      }
    }
  }

  lemma {:induction false} StripAfterRemoveSpaces(s: string)
    ensures Strip(RemoveSpaces(s)) == Strip(s)
  {
    if s != [] {
      StripAfterRemoveSpaces(s[1..]);
      var head := if s[0] == ' ' then [] else [s[0]];
      var r := head + RemoveSpaces(s[1..]);
      if s[0] != ' ' {
        assert r[0] == s[0] && r[1..] == RemoveSpaces(s[1..]);
      } else {
        assert r == RemoveSpaces(s[1..]);
      }
    }
  }

  /** Nothing is lost and nothing is invented: the tokens, put back
      together, are the input without its spaces and commas. */
  lemma TokensConcat(s: string)
    ensures Concat(Tokens(s)) == Strip(s)
  {
    ConcatNonEmpty(Split(RemoveSpaces(s)));
    ConcatSplit(RemoveSpaces(s));
    StripAfterRemoveSpaces(s);
  }

  lemma {:induction false} ConcatEmpty(ps: seq<string>)
    requires forall k :: 0 <= k < |ps| ==> ps[k] != []
    ensures Concat(ps) == [] <==> ps == []
  {
    if ps != [] {
      assert |Concat(ps)| >= |ps[0]| > 0;
    }
  }

  lemma {:induction false} StripEmpty(s: string)
    ensures Strip(s) == [] <==> forall i :: 0 <= i < |s| ==> s[i] == ' ' || s[i] == ','
  {
    if s != [] {
      StripEmpty(s[1..]);
      assert forall i :: 1 <= i < |s| ==> s[i] == s[1..][i - 1];
    }
  }

  /** Every token is non-empty and holds neither a space nor a comma; the
      input yields no token at all exactly when it is made only of spaces
      and commas (the empty input among them). */
  lemma TokensShape(s: string)
    ensures forall k :: 0 <= k < |Tokens(s)| ==> Tokens(s)[k] != [] && ' ' !in Tokens(s)[k] && ',' !in Tokens(s)[k]
    ensures Tokens(s) == [] <==> forall i :: 0 <= i < |s| ==> s[i] == ' ' || s[i] == ','
  {
    var ps := Split(RemoveSpaces(s));
    forall k | 0 <= k < |Tokens(s)|
      ensures ' ' !in Tokens(s)[k] && ',' !in Tokens(s)[k]
    {
      var tok := Tokens(s)[k];
      NonEmptyShape(ps);
      assert tok in ps;
      var j :| 0 <= j < |ps| && ps[j] == tok;
      SplitChars(RemoveSpaces(s), j);
    }
    NonEmptyShape(ps);
    TokensConcat(s);
    ConcatEmpty(Tokens(s));
    StripEmpty(s);
  }

  /** Every character of a piece comes from the split text, and no piece
      holds a comma. */
  lemma {:induction false} SplitChars(t: string, j: nat)
    requires j < |Split(t)|
    ensures forall c :: c in Split(t)[j] ==> c in t && c != ','
  {
    if t != [] {
      var rest := Split(t[1..]);
      if t[0] == ',' {
        if j > 0 { SplitChars(t[1..], j - 1); }
      } else if j == 0 {
        SplitChars(t[1..], 0);
      } else {
        SplitChars(t[1..], j);
      }
    }
  }

  // ---------------------------------------------------------------------
  // Conversion of the tokens and propagation of the first failure.

  /** The conversion of a list of tokens: all their values, in order, or
      the first token that fails (the exception that aborts the loop). */
  function ParseTokens(lit: Literals, toks: seq<string>): (r: Result<seq<Complex>, string>)
    ensures r.Ok? ==> |r.value| == |toks|
    ensures r.Err? ==> r.error in toks
  {
    if toks == [] then Ok([])
    else
      match Convert(lit, toks[0])
      case None => Err(toks[0])
      case Some(c) =>
        match ParseTokens(lit, toks[1..])
        case Err(e) => Err(e)
        case Ok(cs) => Ok([c] + cs)
  }

  /** The conversion succeeds exactly when every token converts, and then
      holds one value per token, in the tokens' order; a failure names a
      token that does not convert. */
  lemma {:induction false} ParseTokensMeaning(lit: Literals, toks: seq<string>)
    ensures ParseTokens(lit, toks).Ok? <==> forall k :: 0 <= k < |toks| ==> Convert(lit, toks[k]).Some?
    ensures ParseTokens(lit, toks).Ok? ==>
              |ParseTokens(lit, toks).value| == |toks|
              && forall k :: 0 <= k < |toks| ==> Convert(lit, toks[k]) == Some(ParseTokens(lit, toks).value[k])
    ensures ParseTokens(lit, toks).Err? ==>
              ParseTokens(lit, toks).error in toks && Convert(lit, ParseTokens(lit, toks).error).None?
  {
    if toks != [] {
      ParseTokensMeaning(lit, toks[1..]);
      assert forall k :: 1 <= k < |toks| ==> toks[k] == toks[1..][k - 1];
      if Convert(lit, toks[0]).Some? && ParseTokens(lit, toks[1..]).Ok? {
        var r := ParseTokens(lit, toks).value;
        assert r == [Convert(lit, toks[0]).value] + ParseTokens(lit, toks[1..]).value;
        assert forall k :: 1 <= k < |toks| ==> r[k] == ParseTokens(lit, toks[1..]).value[k - 1];
      }
    }
  }

  /** `parse_complex_list(s)` as a value. */
  function Parse(lit: Literals, s: string): (r: Result<seq<Complex>, string>)
    ensures r.Ok? ==> |r.value| == |Tokens(s)|
    ensures r.Err? ==> r.error in Tokens(s)
  {
    ParseTokens(lit, Tokens(s))
  }

  /** The error names the first token that fails; every token before it
      converted. */
  lemma {:induction false} ParseErrorIsFirstFailure(lit: Literals, toks: seq<string>)
    requires ParseTokens(lit, toks).Err?
    ensures exists k :: 0 <= k < |toks| && toks[k] == ParseTokens(lit, toks).error
              && Convert(lit, toks[k]).None?
              && forall j :: 0 <= j < k ==> Convert(lit, toks[j]).Some?
  {
    if Convert(lit, toks[0]).None? {
      assert toks[0] == ParseTokens(lit, toks).error;
    } else {
      ParseErrorIsFirstFailure(lit, toks[1..]);
      var k :| 0 <= k < |toks[1..]| && toks[1..][k] == ParseTokens(lit, toks[1..]).error
              && Convert(lit, toks[1..][k]).None?
              && forall j :: 0 <= j < k ==> Convert(lit, toks[1..][j]).Some?;
      assert toks[k + 1] == ParseTokens(lit, toks).error;
      assert forall j :: 0 <= j < k + 1 ==> Convert(lit, toks[j]).Some? by {
        forall j | 0 <= j < k + 1 ensures Convert(lit, toks[j]).Some? {
          if j > 0 { assert toks[j] == toks[1..][j - 1]; }
        }
      }
    }
  }

  /** ParseTokens, one token at a time. */
  lemma ParseTokensCons(lit: Literals, tok: string, toks: seq<string>)
    ensures ParseTokens(lit, [tok] + toks) ==
              match Convert(lit, tok)
              case None => Err(tok)
              case Some(c) =>
                match ParseTokens(lit, toks)
                case Err(e) => Err(e)
                case Ok(cs) => Ok([c] + cs)
  {
    assert ([tok] + toks)[0] == tok && ([tok] + toks)[1..] == toks;
  }

  /** Conversion of a concatenation: the first part's failure wins, then
      the second's; otherwise the values are concatenated. */
  lemma {:induction false} ParseTokensAppend(lit: Literals, a: seq<string>, b: seq<string>)
    ensures ParseTokens(lit, a).Err? ==> ParseTokens(lit, a + b) == ParseTokens(lit, a)
    ensures ParseTokens(lit, a).Ok? && ParseTokens(lit, b).Err? ==> ParseTokens(lit, a + b) == ParseTokens(lit, b)
    ensures ParseTokens(lit, a).Ok? && ParseTokens(lit, b).Ok? ==>
              ParseTokens(lit, a + b) == Ok(ParseTokens(lit, a).value + ParseTokens(lit, b).value)
  {
    if a == [] {
      assert a + b == b;
      if ParseTokens(lit, b).Ok? {
        assert [] + ParseTokens(lit, b).value == ParseTokens(lit, b).value;
      }
    } else {
      var tok, t := a[0], a[1..];
      assert a == [tok] + t && a + b == [tok] + (t + b);
      ParseTokensAppend(lit, t, b);
      ParseTokensCons(lit, tok, t + b);
      ParseTokensCons(lit, tok, t);
      var rt, rb := ParseTokens(lit, t), ParseTokens(lit, b);
      if Convert(lit, tok).Some? && rt.Ok? && rb.Ok? {
        Assoc([Convert(lit, tok).value], rt.value, rb.value);
      }
    }
  }

  /** Under Python's grammar a token that `complex` rejects makes the whole
      parse fail. */
  lemma RejectedTokenFailsParse(lit: Literals, s: string, tok: string)
    requires FloatImpliesComplex(lit)
    requires tok in Tokens(s) && lit.toComplex(tok).None?
    ensures Parse(lit, s).Err?
  {
    ParseTokensMeaning(lit, Tokens(s));
  }

  lemma ParseSingle(lit: Literals, tok: string)
    ensures ParseTokens(lit, [tok]) == match Convert(lit, tok)
      case None => Err(tok)
      case Some(c) => Ok([c])
  {
    assert [tok][0] == tok && [tok][1..] == [];
    assert ParseTokens(lit, []) == Ok([]);
    if Convert(lit, tok).Some? {
      assert [Convert(lit, tok).value] + [] == [Convert(lit, tok).value];
    }
  }

  /** `parse_complex_list`: the loop over the comma-separated pieces,
      appending each converted token, with the early return on an empty
      field. */
  method ParseComplexList(lit: Literals, s: string) returns (r: Result<seq<Complex>, string>)
    ensures r == Parse(lit, s)
  {
    var t := RemoveSpaces(s);
    if t == [] {
      assert Split(t) == [""] && NonEmpty([""]) == [];
      return Ok([]);
    }
    var parts := Split(t);
    var acc: seq<Complex> := [];
    for i := 0 to |parts|
      invariant ParseTokens(lit, NonEmpty(parts[..i])) == Ok(acc)
    {
      var part := parts[i];
      assert parts[..i + 1] == parts[..i] + [part];
      NonEmptyAppend(parts[..i], [part]);
      if part != [] {
        assert NonEmpty([part]) == [part];
        ParseTokensAppend(lit, NonEmpty(parts[..i]), [part]);
        var c := lit.toComplex(part);
        ParseSingle(lit, part);
        if c.Some? {
          assert ParseTokens(lit, [part]) == Ok([c.value]);
          acc := acc + [c.value];
        } else {
          var f := lit.toFloat(part);
          if f.Some? {
            assert ParseTokens(lit, [part]) == Ok([OfReal(f.value)]);
            acc := acc + [OfReal(f.value)];
          } else {
            assert parts == parts[..i + 1] + parts[i + 1..];
            NonEmptyAppend(parts[..i + 1], parts[i + 1..]);
            ParseTokensAppend(lit, NonEmpty(parts[..i + 1]), NonEmpty(parts[i + 1..]));
            return Err(part);
          }
        }
      } else {
        assert NonEmpty([part]) == [];
        assert NonEmpty(parts[..i + 1]) == NonEmpty(parts[..i]);
      }
    }
    assert parts[..|parts|] == parts;
    r := Ok(acc);
  }
}
