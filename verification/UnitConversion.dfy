// Evaluation of unit expressions and conversion factors.
module UnitConversion {
  import opened Wrappers
  import opened UnitTokens
  import opened ShuntingYard
  import opened UnitGrammar
  import opened UnitValues
  import opened UnitExpressions
  import opened IntegerPowers
  import opened RealPowers

  function Eval(u: UnitExpr, pow: Exponential): Result<UnitValue> {
    match u
    case Named(value, _) => Ok(value)
    case Product(l, r) =>
      (match Eval(l, pow)
       case Err(e) => Err(e)
       case Ok(a) =>
         match Eval(r, pow)
         case Err(e) => Err(e)
         case Ok(b) => Ok(Multiply(a, b)))
    case Quotient(l, r) =>
      (match Eval(l, pow)
       case Err(e) => Err(e)
       case Ok(a) =>
         match Eval(r, pow)
         case Err(e) => Err(e)
         case Ok(b) => Divide(a, b))
    case Exponent(l, r) =>
      (match Eval(l, pow)
       case Err(e) => Err(e)
       case Ok(a) =>
         match Eval(r, pow)
         case Err(e) => Err(e)
         case Ok(b) => RaiseTo(a, b, pow))
  }

  function Multiply(a: UnitValue, b: UnitValue): UnitValue {
    UnitValue(Prod(a.factor, b.factor), a.dim.Times(b.dim))
  }

  function Divide(a: UnitValue, b: UnitValue): Result<UnitValue> {
    if b.factor == 0.0 then Err(NotFinite)
    else Ok(UnitValue(Quot(a.factor, b.factor), a.dim.Over(b.dim)))
  }

  function RaiseTo(a: UnitValue, b: UnitValue, pow: Exponential): Result<UnitValue> {
    if b.dim != DIM_NONE then Err(ExponentHasDimension(b.dim))
    else match StdPow(pow, a.factor, b.factor)
         case None => Err(NotFinite)
         case Some(factor) => Ok(UnitValue(factor, a.dim.Raise(b.factor)))
  }

  // ---- The table of base units ----

  function Lower(s: string): string {
    seq(|s|, i requires 0 <= i < |s| => if 'A' <= s[i] <= 'Z' then (s[i] as int + 32) as char else s[i])
  }

  // The table first, by lower-cased name, then the number reader.
  function Lookup(table: map<string, UnitValue>, number: string -> Option<real>): Resolver {
    (text: string) =>
      if Lower(text) in table then Some(table[Lower(text)])
      else match number(text) case None => None case Some(x) => Some(UnitValue(x, DIM_NONE))
  }

  function ParseUnitExpression(unit: string, resolve: Resolver, pow: Exponential): Result<UnitValue> {
    if unit == "" || Tokens(unit) == [] then Ok(UnitValue(1.0, DIM_NONE))
    else match ParseTokens(Tokens(unit), resolve)
         case Err(e) => Err(e)
         case Ok(tree) => Eval(tree, pow)
  }

  method ParseUnit(unit: string, resolve: Resolver, pow: Exponential) returns (r: Result<UnitValue>)
    ensures r == ParseUnitExpression(unit, resolve, pow)
  {
    if unit == "" {
      return Ok(UnitValue(1.0, DIM_NONE));
    }
    var tokens := Tokenize(unit);
    if tokens == [] {
      return Ok(UnitValue(1.0, DIM_NONE));
    }
    var rpn := Shunt(tokens);
    if rpn.None? {
      return Err(UnbalancedParentheses);
    }
    var stream := new TokenStream(rpn.value);
    var ast := stream.ReadExpr(resolve);
    if ast.Err? {
      return Err(ast.error);
    }
    if stream.tokens != [] {
      return Err(Leftover(stream.tokens));
    }
    return Eval(ast.value, pow);
  }

  // A quotient; by zero it is an infinity or no number.
  datatype Ratio = Finite(value: real) | NonFinite

  // unit_conversion_factor
  function ConversionFactor(from: string, to: string, resolve: Resolver, pow: Exponential): Result<Ratio> {
    if from == "" || to == "" then Ok(Finite(1.0))
    else match ParseUnitExpression(from, resolve, pow)
         case Err(e) => Err(e)
         case Ok(a) =>
           match ParseUnitExpression(to, resolve, pow)
           case Err(e) => Err(e)
           case Ok(b) =>
             if a.dim != b.dim then Err(DimensionMismatch(a.dim, b.dim))
             else Ok(if b.factor == 0.0 then NonFinite else Finite(Quot(a.factor, b.factor)))
  }

  // ---- What evaluation means ----

  const ONE := UnitValue(1.0, DIM_NONE)

  function Repeated(v: UnitValue, n: nat): UnitValue {
    if n == 0 then ONE else Multiply(Repeated(v, n - 1), v)
  }

  lemma {:induction false} RepeatedIsPower(v: UnitValue, n: nat)
    ensures Repeated(v, n) == UnitValue(NatPow(v.factor, n), v.dim.Raise(n as real))
  {
    if n > 0 {
      RepeatedIsPower(v, n - 1);
      NextMultiple(v.dim.length, n);
      NextMultiple(v.dim.time, n);
      NextMultiple(v.dim.mass, n);
      NextMultiple(v.dim.charge, n);
      NextMultiple(v.dim.temperature, n);
    }
  }

  lemma NextMultiple(e: real, n: nat)
    requires n > 0
    ensures e * (n - 1) as real + e == e * n as real
  {
    assert (n - 1) as real + 1.0 == n as real;
  }

  // The exponent is the fraction p / q.
  predicate IsFraction(exponent: real, p: int, q: nat) {
    q > 0 && Prod(exponent, q as real) == p as real
  }

  // v is a q-th root of the p-th power of a.
  predicate IsRoot(v: UnitValue, a: UnitValue, p: int, q: nat) {
    if p >= 0 then Repeated(v, q) == Repeated(a, p)
    else Multiply(Repeated(v, q), Repeated(a, -p)) == ONE
  }

  // A product adds what it multiplies and a quotient undoes a product. A power
  // needs an exponent without dimension; of exponent p / q it is a q-th root of
  // the p-th power, the positive one when the base is positive.
  lemma EvalMeaning(u: UnitExpr, pow: Exponential)
    requires PowerLaws(pow) && !u.Named? && Eval(u, pow).Ok?
    ensures Eval(u.lhs, pow).Ok? && Eval(u.rhs, pow).Ok?
    ensures var v, a, b := Eval(u, pow).value, Eval(u.lhs, pow).value, Eval(u.rhs, pow).value;
      match u
      case Product(_, _) => v.factor == a.factor * b.factor && v.dim.Over(b.dim) == a.dim
      case Quotient(_, _) => Multiply(v, b) == a
      case Exponent(_, _) =>
        && b.dim == DIM_NONE && (a.factor > 0.0 ==> v.factor > 0.0)
        && forall p, q :: IsFraction(b.factor, p, q) ==> IsRoot(v, a, p, q)
  {
    var v, a, b := Eval(u, pow).value, Eval(u.lhs, pow).value, Eval(u.rhs, pow).value;
    match u {
      case Product(_, _) =>
      case Quotient(_, _) => QuotInverts(a.factor, b.factor);
      case Exponent(_, _) =>
        if a.factor > 0.0 { PositivePower(a, b, pow); }
        forall p, q | IsFraction(b.factor, p, q) ensures IsRoot(v, a, p, q) {
          FractionIsRoot(a, b, p, q, pow);
        }
    }
  }

  // When an operation fails: only a division by zero, an exponent with a
  // dimension, a negative power of zero, and a fractional power of a negative
  // number do.
  lemma FailsExactlyWhen(u: UnitExpr, pow: Exponential)
    requires !u.Named? && Eval(u.lhs, pow).Ok? && Eval(u.rhs, pow).Ok?
    ensures var a, b := Eval(u.lhs, pow).value, Eval(u.rhs, pow).value;
      Eval(u, pow).Ok? <==>
        match u
        case Product(_, _) => true
        case Quotient(_, _) => b.factor != 0.0
        case Exponent(_, _) =>
          && b.dim == Dimension(0.0, 0.0, 0.0, 0.0, 0.0)
          && (a.factor == 0.0 ==> b.factor >= 0.0)
          && (a.factor < 0.0 ==> exists n :: IsFraction(b.factor, n, 1))
  {
    var b := Eval(u.rhs, pow).value;
    Units(b.factor);
    if exists n :: IsFraction(b.factor, n, 1) {
      var n :| IsFraction(b.factor, n, 1);
      assert b.factor == n as real && b.factor.Floor == n;
    } else {
      assert !IsFraction(b.factor, b.factor.Floor, 1);
    }
  }

  lemma PositivePower(a: UnitValue, b: UnitValue, pow: Exponential)
    requires PowerLaws(pow) && a.factor > 0.0 && RaiseTo(a, b, pow).Ok?
    ensures RaiseTo(a, b, pow).value.factor > 0.0
  {
    PowOfPositive(pow, a.factor, b.factor);
    PowPositive(pow, a.factor, b.factor);
  }

  lemma FractionIsRoot(a: UnitValue, b: UnitValue, p: int, q: nat, pow: Exponential)
    requires PowerLaws(pow) && RaiseTo(a, b, pow).Ok? && IsFraction(b.factor, p, q)
    ensures IsRoot(RaiseTo(a, b, pow).value, a, p, q)
  {
    hide PowerLaws, StdPow, NatPow, Repeated;
    var v := RaiseTo(a, b, pow).value;
    RootOfPower(pow, a.factor, b.factor, p, q);
    RepeatedIsPower(v, q);
    RaiseTwice(a.dim, b.factor, q as real, p as real);
    if p >= 0 {
      RepeatedIsPower(a, p);
    } else {
      RepeatedIsPower(a, -p);
      PowSum(a.factor, p, -p);
      PowZero(a.factor);
      Opposites(a.dim, p);
    }
  }

  lemma RaiseIsProd(d: Dimension, n: real)
    ensures d.Raise(n) == Dimension(Prod(d.length, n), Prod(d.time, n), Prod(d.mass, n),
                                    Prod(d.charge, n), Prod(d.temperature, n))
  {
  }

  lemma RaiseTwice(d: Dimension, e: real, q: real, p: real)
    requires Prod(e, q) == p
    ensures d.Raise(e).Raise(q) == d.Raise(p)
  {
    RaiseIsProd(d, e);
    RaiseIsProd(d.Raise(e), q);
    RaiseIsProd(d, p);
    hide Prod, Dimension.Raise;
    Associate(d.length, e, q);
    Associate(d.time, e, q);
    Associate(d.mass, e, q);
    Associate(d.charge, e, q);
    Associate(d.temperature, e, q);
  }

  lemma Opposites(d: Dimension, p: int)
    ensures d.Raise(p as real).Times(d.Raise((-p) as real)) == DIM_NONE
  {
  }

  // x of the one unit are x * factor of the other. There is an answer exactly
  // for two readable units of one dimension, and it is finite exactly when
  // the target is not zero.
  lemma ConversionMeaning(from: string, to: string, resolve: Resolver, pow: Exponential)
    requires from != "" && to != ""
    ensures var a, b := ParseUnitExpression(from, resolve, pow), ParseUnitExpression(to, resolve, pow);
      var r := ConversionFactor(from, to, resolve, pow);
      && (r.Ok? <==> a.Ok? && b.Ok? && a.value.dim == b.value.dim)
      && (r.Ok? ==> (r.value.Finite? <==> b.value.factor != 0.0))
      && (r.Ok? && r.value.Finite? ==> r.value.value * b.value.factor == a.value.factor)
  {
    hide ParseUnitExpression;
    var a, b := ParseUnitExpression(from, resolve, pow), ParseUnitExpression(to, resolve, pow);
    if a.Ok? && b.Ok? && b.value.factor != 0.0 {
      QuotInverts(a.value.factor, b.value.factor);
    }
  }

  // ---- Conversions in a row ----

  lemma QuotientsCompose(x: real, y: real, z: real)
    requires y != 0.0 && z != 0.0
    ensures Prod(Quot(x, y), Quot(y, z)) == Quot(x, z)
  {
    hide Prod, Quot;
    QuotInverts(x, y);
    QuotInverts(y, z);
    Associate(Quot(x, y), Quot(y, z), z);
    QuotientUnique(x, z, Prod(Quot(x, y), Quot(y, z)));
  }

  // from converts to `to` by a finite factor.
  predicate Converts(from: string, to: string, resolve: Resolver, pow: Exponential) {
    ConversionFactor(from, to, resolve, pow).Ok? && ConversionFactor(from, to, resolve, pow).value.Finite?
  }

  function Factor(from: string, to: string, resolve: Resolver, pow: Exponential): real
    requires Converts(from, to, resolve, pow)
  {
    ConversionFactor(from, to, resolve, pow).value.value
  }

  predicate Composes(a: string, b: string, c: string, resolve: Resolver, pow: Exponential)
    requires Converts(a, b, resolve, pow) && Converts(b, c, resolve, pow)
  {
    && Converts(a, c, resolve, pow)
    && Prod(Factor(a, b, resolve, pow), Factor(b, c, resolve, pow)) == Factor(a, c, resolve, pow)
  }

  // Two names of one unit that is not zero.
  predicate SameUnit(x: string, y: string, resolve: Resolver, pow: Exponential) {
    var u, v := ParseUnitExpression(x, resolve, pow), ParseUnitExpression(y, resolve, pow);
    u.Ok? && v.Ok? && u.value == v.value && u.value.factor != 0.0
  }

  // a to b and then b to c is a to c when none of them is empty. The empty
  // text converts to and from anything at factor 1, so with one of them empty
  // the other two must name one unit, unless one of these is empty too.
  lemma ConversionComposes(a: string, b: string, c: string, resolve: Resolver, pow: Exponential)
    requires Converts(a, b, resolve, pow) && Converts(b, c, resolve, pow)
    ensures Composes(a, b, c, resolve, pow) <==>
      if a == "" then b == "" || c == "" || SameUnit(b, c, resolve, pow)
      else if c == "" then b == "" || SameUnit(a, b, resolve, pow)
      else b != "" || SameUnit(a, c, resolve, pow)
  {
    if a != "" && b != "" && c != "" {
      ThreeUnits(a, b, c, resolve, pow);
    } else {
      OneIsEmpty(a, b, c, resolve, pow);
    }
  }

  lemma ThreeUnits(a: string, b: string, c: string, resolve: Resolver, pow: Exponential)
    requires a != "" && b != "" && c != "" && Converts(a, b, resolve, pow) && Converts(b, c, resolve, pow)
    ensures Composes(a, b, c, resolve, pow)
  {
    hide ParseUnitExpression, Prod, Quot;
    var u, v, w := ParseUnitExpression(a, resolve, pow), ParseUnitExpression(b, resolve, pow),
                   ParseUnitExpression(c, resolve, pow);
    QuotientsCompose(u.value.factor, v.value.factor, w.value.factor);
  }

  lemma OneIsEmpty(a: string, b: string, c: string, resolve: Resolver, pow: Exponential)
    requires (a == "" || b == "" || c == "") && Converts(a, b, resolve, pow) && Converts(b, c, resolve, pow)
    ensures Composes(a, b, c, resolve, pow) <==>
      if a == "" then b == "" || c == "" || SameUnit(b, c, resolve, pow)
      else if c == "" then b == "" || SameUnit(a, b, resolve, pow)
      else SameUnit(a, c, resolve, pow)
  {
    hide ParseUnitExpression, Prod, Quot, SameUnit;
    FactorOne(a, b, resolve, pow);
    FactorOne(b, c, resolve, pow);
    FactorOne(a, c, resolve, pow);
    Units(Factor(a, b, resolve, pow));
    Units(Factor(b, c, resolve, pow));
  }

  // A factor of 1 means one unit under two names.
  lemma FactorOne(x: string, y: string, resolve: Resolver, pow: Exponential)
    ensures Converts(x, y, resolve, pow) && Factor(x, y, resolve, pow) == 1.0
      <==> x == "" || y == "" || SameUnit(x, y, resolve, pow)
  {
    hide ParseUnitExpression, Prod, Quot;
    var u, v := ParseUnitExpression(x, resolve, pow), ParseUnitExpression(y, resolve, pow);
    if u.Ok? && v.Ok? && v.value.factor != 0.0 {
      QuotInverts(u.value.factor, v.value.factor);
      Units(v.value.factor);
      QuotientUnique(v.value.factor, v.value.factor, 1.0);
    }
  }

  // An input on which it does not.
  lemma EmptyUnitDoesNotCompose(resolve: Resolver, pow: Exponential)
    requires resolve("nm") == Some(UnitValue(0.000000001, Dimension(1.0, 0.0, 0.0, 0.0, 0.0)))
    requires resolve("a") == Some(UnitValue(0.0000000001, Dimension(1.0, 0.0, 0.0, 0.0, 0.0)))
    ensures ConversionFactor("nm", "", resolve, pow) == Ok(Finite(1.0))
    ensures ConversionFactor("", "a", resolve, pow) == Ok(Finite(1.0))
    ensures ConversionFactor("nm", "a", resolve, pow) == Ok(Finite(10.0))
  {
    SingleName("nm", resolve, pow);
    SingleName("a", resolve, pow);
  }

  lemma SingleName(name: string, resolve: Resolver, pow: Exponential)
    requires CleanName(name) && resolve(name).Some?
    ensures ParseUnitExpression(name, resolve, pow) == Ok(resolve(name).value)
  {
    var u := Named(resolve(name).value, name);
    PrintParseRoundTrip(u, resolve);
    assert ToString(u) == name;
  }

  // ---- A text outside the grammar that is a unit all the same ----

  // A name followed by an empty pair of parentheses reads as the name.
  lemma EmptyGroupIsIgnored(name: string, resolve: Resolver, pow: Exponential)
    requires CleanName(name) && resolve(name).Some?
    ensures ParseUnitExpression(name + "()", resolve, pow) == Ok(resolve(name).value)
    ensures Tokens(name + "()") == [Value(name), LParen, RParen] && !IsSentence(Tokens(name + "()"))
  {
    var unit, ts := name + "()", [Value(name), LParen, RParen];
    EmptyGroupTokens(name);
    EmptyGroupPostfix(name);
    ReadReversePolish([], Leaf(name), resolve);
    assert [] + ReversePolish(Leaf(name)) == [Value(name)];
    assert ParseTokens(ts, resolve) == Ok(Named(resolve(name).value, name));
    SentencesAre(ts);
    assert !Joins(ts[0], ts[1]);
  }

  lemma EmptyGroupTokens(name: string)
    requires CleanName(name)
    ensures Tokens(name + "()") == [Value(name), LParen, RParen]
  {
    var unit, ts := name + "()", [Value(name), LParen, RParen];
    TokensMeaning(unit);
    NoSpacesInName(name);
    WithoutSpacesConcat(name, "()");
    OneCharacter('(');
    OneCharacter(')');
    WithoutSpacesConcat("(", ")");
    assert "(" + ")" == "()";
    TextConcat([Value(name)], [LParen, RParen]);
    TextConcat([LParen], [RParen]);
    OneToken(Value(name));
    OneToken(LParen);
    OneToken(RParen);
    assert [LParen] + [RParen] == [LParen, RParen];
    assert [Value(name)] + [LParen, RParen] == ts;
    assert Text(ts) == WithoutSpaces(unit);
    CanonicalUnique(Tokens(unit), ts);
  }

  lemma EmptyGroupPostfix(name: string)
    ensures Postfix([Value(name), LParen, RParen]) == Some([Value(name)])
  {
    var ts := [Value(name), LParen, RParen];
    var y, z := Yard([Value(name)], []), Yard([Value(name)], [LParen]);
    assert Feed(Yard([], []), ts[0]) == Some(y) by { assert [] + [ts[0]] == y.output; }
    assert Feed(y, LParen) == Some(z) by { assert y.operators + [LParen] == z.operators; }
    assert Feed(z, RParen) == Some(y);
    assert ts[1..] == [LParen, RParen] && ts[1..][1..] == [RParen] && [RParen][1..] == [];
    assert FeedAll(z, [RParen]) == Some(y);
    assert FeedAll(y, ts[1..]) == Some(y);
  }
}
