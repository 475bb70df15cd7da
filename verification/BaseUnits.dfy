// A change of base units, and what dimensional analysis means: results do not
// depend on the choice of base units.
module BaseUnits {
  import opened Wrappers
  import opened UnitTokens
  import opened ShuntingYard
  import opened UnitValues
  import opened UnitExpressions
  import opened UnitConversion
  import opened IntegerPowers
  import opened RealPowers

  datatype Scale = Scale(length: real, time: real, mass: real, charge: real, temperature: real)

  predicate Positive(s: Scale) {
    s.length > 0.0 && s.time > 0.0 && s.mass > 0.0 && s.charge > 0.0 && s.temperature > 0.0
  }

  // How much a quantity of dimension d grows.
  function PowerProduct(s: Scale, d: Dimension, pow: Exponential): real
  {
    Prod(Prod(Prod(Prod(pow(s.length, d.length), pow(s.time, d.time)), pow(s.mass, d.mass)),
            pow(s.charge, d.charge)), pow(s.temperature, d.temperature))
  }

  function Rescale(v: UnitValue, s: Scale, pow: Exponential): UnitValue
  {
    UnitValue(Prod(v.factor, PowerProduct(s, v.dim, pow)), v.dim)
  }

  function RescaleResult(r: Result<UnitValue>, s: Scale, pow: Exponential): Result<UnitValue>
  {
    match r case Err(e) => Err(e) case Ok(v) => Ok(Rescale(v, s, pow))
  }

  function RescaleTree(u: UnitExpr, s: Scale, pow: Exponential): UnitExpr
  {
    match u
    case Named(value, name) => Named(Rescale(value, s, pow), name)
    case Product(l, r) => Product(RescaleTree(l, s, pow), RescaleTree(r, s, pow))
    case Quotient(l, r) => Quotient(RescaleTree(l, s, pow), RescaleTree(r, s, pow))
    case Exponent(l, r) => Exponent(RescaleTree(l, s, pow), RescaleTree(r, s, pow))
  }

  function RescaleTable(table: map<string, UnitValue>, s: Scale, pow: Exponential): map<string, UnitValue>
  {
    map name | name in table :: Rescale(table[name], s, pow)
  }

  // One resolver is the other after the change of base units.
  ghost predicate Rescales(resolve: Resolver, resolve': Resolver, s: Scale, pow: Exponential)
  {
    forall text :: resolve'(text) ==
      match resolve(text) case None => None case Some(v) => Some(Rescale(v, s, pow))
  }

  // ---- Laws of the power product ----

  lemma PowerProductNone(s: Scale, pow: Exponential)
    requires Positive(s) && PowerLaws(pow)
    ensures PowerProduct(s, DIM_NONE, pow) == 1.0
  {
    hide PowerLaws, Prod;
    PowNone(pow, s.length);
    PowNone(pow, s.time);
    PowNone(pow, s.mass);
    PowNone(pow, s.charge);
    PowNone(pow, s.temperature);
    Units(1.0);
  }

  lemma PowerProductPositive(s: Scale, d: Dimension, pow: Exponential)
    requires Positive(s) && PowerLaws(pow)
    ensures PowerProduct(s, d, pow) > 0.0
  {
    hide PowerLaws, Prod;
    var a, b, c, e, f := pow(s.length, d.length), pow(s.time, d.time), pow(s.mass, d.mass),
                         pow(s.charge, d.charge), pow(s.temperature, d.temperature);
    PowPositive(pow, s.length, d.length);
    PowPositive(pow, s.time, d.time);
    PowPositive(pow, s.mass, d.mass);
    PowPositive(pow, s.charge, d.charge);
    PowPositive(pow, s.temperature, d.temperature);
    Nonzero(a, b);
    Nonzero(Prod(a, b), c);
    Nonzero(Prod(Prod(a, b), c), e);
    Nonzero(Prod(Prod(Prod(a, b), c), e), f);
  }

  lemma PowerProductTimes(s: Scale, d: Dimension, d': Dimension, pow: Exponential)
    requires Positive(s) && PowerLaws(pow)
    ensures PowerProduct(s, d.Times(d'), pow) == Prod(PowerProduct(s, d, pow), PowerProduct(s, d', pow))
  {
    hide PowerLaws, Prod;
    PowOfSum(pow, s.length, d.length, d'.length);
    PowOfSum(pow, s.time, d.time, d'.time);
    PowOfSum(pow, s.mass, d.mass, d'.mass);
    PowOfSum(pow, s.charge, d.charge, d'.charge);
    PowOfSum(pow, s.temperature, d.temperature, d'.temperature);
    var a, b, c, e, f := pow(s.length, d.length), pow(s.time, d.time), pow(s.mass, d.mass),
                         pow(s.charge, d.charge), pow(s.temperature, d.temperature);
    var a', b', c', e', f' := pow(s.length, d'.length), pow(s.time, d'.time), pow(s.mass, d'.mass),
                              pow(s.charge, d'.charge), pow(s.temperature, d'.temperature);
    Interchange(a, a', b, b');
    Interchange(Prod(a, b), Prod(a', b'), c, c');
    Interchange(Prod(Prod(a, b), c), Prod(Prod(a', b'), c'), e, e');
    Interchange(Prod(Prod(Prod(a, b), c), e), Prod(Prod(Prod(a', b'), c'), e'), f, f');
  }

  lemma PowerProductOver(s: Scale, d: Dimension, d': Dimension, pow: Exponential)
    requires Positive(s) && PowerLaws(pow)
    ensures PowerProduct(s, d', pow) > 0.0
    ensures PowerProduct(s, d.Over(d'), pow) == Quot(PowerProduct(s, d, pow), PowerProduct(s, d', pow))
  {
    PowerProductPositive(s, d', pow);
    PowerProductTimes(s, d.Over(d'), d', pow);
    assert d.Over(d').Times(d') == d;
    hide PowerProduct, Prod, Quot;
    QuotientUnique(PowerProduct(s, d, pow), PowerProduct(s, d', pow), PowerProduct(s, d.Over(d'), pow));
  }

  lemma PowerProductRaise(s: Scale, d: Dimension, n: real, pow: Exponential)
    requires Positive(s) && PowerLaws(pow)
    ensures PowerProduct(s, d.Raise(n), pow) == pow(PowerProduct(s, d, pow), n)
  {
    hide PowerLaws, Dimension.Raise;
    var a, b, c, e, f := pow(s.length, d.length), pow(s.time, d.time), pow(s.mass, d.mass),
                         pow(s.charge, d.charge), pow(s.temperature, d.temperature);
    RaiseIsProd(d, n);
    hide Prod;
    PowOfPow(pow, s.length, d.length, n);
    PowOfPow(pow, s.time, d.time, n);
    PowOfPow(pow, s.mass, d.mass, n);
    PowOfPow(pow, s.charge, d.charge, n);
    PowOfPow(pow, s.temperature, d.temperature, n);
    Nonzero(a, b);
    Nonzero(Prod(a, b), c);
    Nonzero(Prod(Prod(a, b), c), e);
    PowOfProduct(pow, a, b, n);
    PowOfProduct(pow, Prod(a, b), c, n);
    PowOfProduct(pow, Prod(Prod(a, b), c), e, n);
    PowOfProduct(pow, Prod(Prod(Prod(a, b), c), e), f, n);
  }

  // ---- Dimensional soundness ----

  lemma RescaleMultiply(a: UnitValue, b: UnitValue, s: Scale, pow: Exponential)
    requires Positive(s) && PowerLaws(pow)
    ensures Multiply(Rescale(a, s, pow), Rescale(b, s, pow)) == Rescale(Multiply(a, b), s, pow)
  {
    PowerProductTimes(s, a.dim, b.dim, pow);
    hide PowerProduct, Prod;
    Interchange(a.factor, PowerProduct(s, a.dim, pow), b.factor, PowerProduct(s, b.dim, pow));
  }

  lemma QuotientOfProducts(a: real, p: real, b: real, q: real)
    requires b != 0.0 && q != 0.0
    ensures Prod(b, q) != 0.0
    ensures Quot(Prod(a, p), Prod(b, q)) == Prod(Quot(a, b), Quot(p, q))
  {
    hide Prod, Quot;
    Nonzero(b, q);
    QuotInverts(a, b);
    QuotInverts(p, q);
    Interchange(Quot(a, b), Quot(p, q), b, q);
    QuotientUnique(Prod(a, p), Prod(b, q), Prod(Quot(a, b), Quot(p, q)));
  }

  lemma RescaleDivide(a: UnitValue, b: UnitValue, s: Scale, pow: Exponential)
    requires Positive(s) && PowerLaws(pow)
    ensures Divide(Rescale(a, s, pow), Rescale(b, s, pow)) == RescaleResult(Divide(a, b), s, pow)
  {
    PowerProductOver(s, a.dim, b.dim, pow);
    hide PowerProduct, Prod, Quot;
    Nonzero(b.factor, PowerProduct(s, b.dim, pow));
    if b.factor != 0.0 {
      QuotientOfProducts(a.factor, PowerProduct(s, a.dim, pow), b.factor, PowerProduct(s, b.dim, pow));
    }
  }

  lemma RescaleRaise(a: UnitValue, b: UnitValue, s: Scale, pow: Exponential)
    requires Positive(s) && PowerLaws(pow)
    ensures RaiseTo(Rescale(a, s, pow), Rescale(b, s, pow), pow) == RescaleResult(RaiseTo(a, b, pow), s, pow)
  {
    hide PowerLaws, PowerProduct, StdPow, Prod;
    PowerProductNone(s, pow);
    Units(b.factor);
    PowerProductPositive(s, a.dim, pow);
    PositiveFactor(pow, a.factor, PowerProduct(s, a.dim, pow), b.factor);
    PowerProductRaise(s, a.dim, b.factor, pow);
  }

  // Every evaluation, failed ones included, changes exactly by the power
  // product of its dimension.
  lemma {:induction false} EvalRescaled(u: UnitExpr, s: Scale, pow: Exponential)
    requires Positive(s) && PowerLaws(pow)
    ensures Eval(RescaleTree(u, s, pow), pow) == RescaleResult(Eval(u, pow), s, pow)
  {
    hide Multiply, Divide, RaiseTo, Rescale, PowerLaws;
    match u {
      case Named(_, _) =>
      case Product(l, r) =>
        EvalRescaled(l, s, pow);
        EvalRescaled(r, s, pow);
        if Eval(l, pow).Ok? && Eval(r, pow).Ok? {
          RescaleMultiply(Eval(l, pow).value, Eval(r, pow).value, s, pow);
        }
      case Quotient(l, r) =>
        EvalRescaled(l, s, pow);
        EvalRescaled(r, s, pow);
        if Eval(l, pow).Ok? && Eval(r, pow).Ok? {
          RescaleDivide(Eval(l, pow).value, Eval(r, pow).value, s, pow);
        }
      case Exponent(l, r) =>
        EvalRescaled(l, s, pow);
        EvalRescaled(r, s, pow);
        if Eval(l, pow).Ok? && Eval(r, pow).Ok? {
          RescaleRaise(Eval(l, pow).value, Eval(r, pow).value, s, pow);
        }
    }
  }

  lemma {:induction false} ReadRescaled(stream: seq<Token>, resolve: Resolver, resolve': Resolver,
                                        s: Scale, pow: Exponential)
    requires Rescales(resolve, resolve', s, pow)
    ensures Read(stream, resolve') ==
      match Read(stream, resolve)
      case Err(e) => Err(e)
      case Ok((tree, rest)) => Ok((RescaleTree(tree, s, pow), rest))
    decreases |stream|
  {
    if stream != [] {
      var token, before := stream[|stream| - 1], stream[..|stream| - 1];
      if IsOperator(token) {
        ReadRescaled(before, resolve, resolve', s, pow);
        if Read(before, resolve).Ok? {
          ReadRescaled(Read(before, resolve).value.1, resolve, resolve', s, pow);
        }
      }
    }
  }

  lemma ParseRescaled(unit: string, resolve: Resolver, resolve': Resolver, s: Scale, pow: Exponential)
    requires Positive(s) && PowerLaws(pow) && Rescales(resolve, resolve', s, pow)
    ensures ParseUnitExpression(unit, resolve', pow) == RescaleResult(ParseUnitExpression(unit, resolve, pow), s, pow)
  {
    PowerProductNone(s, pow);
    if Tokens(unit) != [] && Postfix(Tokens(unit)).Some? {
      ReadRescaled(Postfix(Tokens(unit)).value, resolve, resolve', s, pow);
      var parsed := ParseTokens(Tokens(unit), resolve);
      if parsed.Ok? {
        EvalRescaled(parsed.value, s, pow);
      }
    }
  }

  lemma LookupRescaled(table: map<string, UnitValue>, number: string -> Option<real>, s: Scale, pow: Exponential)
    requires Positive(s) && PowerLaws(pow)
    ensures Rescales(Lookup(table, number), Lookup(RescaleTable(table, s, pow), number), s, pow)
  {
    PowerProductNone(s, pow);
  }

  // A conversion factor is a property of the units, not of the base units
  // the table is written in; so is every error.
  lemma ConversionIndependentOfBaseUnits(from: string, to: string, table: map<string, UnitValue>,
                                         number: string -> Option<real>, s: Scale, pow: Exponential)
    requires Positive(s) && PowerLaws(pow)
    ensures ConversionFactor(from, to, Lookup(RescaleTable(table, s, pow), number), pow)
         == ConversionFactor(from, to, Lookup(table, number), pow)
  {
    var resolve, resolve' := Lookup(table, number), Lookup(RescaleTable(table, s, pow), number);
    LookupRescaled(table, number, s, pow);
    ParseRescaled(from, resolve, resolve', s, pow);
    ParseRescaled(to, resolve, resolve', s, pow);
    RescaleKeepsDimension(s, pow);
    hide ParseUnitExpression, Rescale;
    var a, b := ParseUnitExpression(from, resolve, pow), ParseUnitExpression(to, resolve, pow);
    if a.Ok? && b.Ok? && a.value.dim == b.value.dim {
      RescaledQuotient(a.value, b.value, s, pow);
    }
  }

  lemma RescaleKeepsDimension(s: Scale, pow: Exponential)
    ensures forall v :: Rescale(v, s, pow).dim == v.dim
  {
  }

  lemma RescaledQuotient(a: UnitValue, b: UnitValue, s: Scale, pow: Exponential)
    requires Positive(s) && PowerLaws(pow) && a.dim == b.dim
    ensures Rescale(b, s, pow).factor == 0.0 <==> b.factor == 0.0
    ensures b.factor != 0.0 ==> Quot(Rescale(a, s, pow).factor, Rescale(b, s, pow).factor) == Quot(a.factor, b.factor)
  {
    PowerProductPositive(s, b.dim, pow);
    var p := PowerProduct(s, b.dim, pow);
    hide PowerProduct, Prod, Quot;
    Nonzero(b.factor, p);
    if b.factor != 0.0 {
      QuotientOfProducts(a.factor, p, b.factor, p);
      Units(p);
      QuotientUnique(p, p, 1.0);
      Units(Quot(a.factor, b.factor));
    }
  }
}
