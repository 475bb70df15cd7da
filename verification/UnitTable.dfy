// Conversion through the unit table and the number reader: what a name, a
// numeral and a numeral as exponent stand for in the text of a unit.
module UnitTable {
  import opened Characters
  import opened Wrappers
  import opened Sequences
  import opened UnitTokens
  import opened ShuntingYard
  import opened UnitGrammar
  import opened UnitValues
  import opened UnitExpressions
  import opened UnitConversion
  import opened IntegerPowers
  import opened RealPowers

  // key is name with its ASCII capitals made small.
  predicate IsLowerOf(key: string, name: string) {
    && |key| == |name|
    && forall i :: 0 <= i < |name| ==>
         if 'A' <= name[i] <= 'Z' then 'a' <= key[i] <= 'z' && key[i] as int - 'a' as int == name[i] as int - 'A' as int
         else key[i] == name[i]
  }

  lemma LowerIs(key: string, name: string)
    ensures IsLowerOf(key, name) <==> key == Lower(name)
  {
    if IsLowerOf(key, name) {
      assert forall i :: 0 <= i < |name| ==> key[i] == Lower(name)[i];
    }
  }

  // A name of the table stands for its entry, found under the small letters.
  lemma NameIsEntry(table: map<string, UnitValue>, number: string -> Option<real>, name: string, key: string)
    requires IsLowerOf(key, name) && key in table
    ensures Lookup(table, number)(name) == Some(table[key])
  {
    LowerIs(key, name);
  }

  // A numeral that is not a name of the table stands for its value.
  lemma NumeralIsNumber(table: map<string, UnitValue>, number: string -> Option<real>, text: string)
    requires forall key :: key in table ==> !IsLowerOf(key, text)
    ensures Lookup(table, number)(text) ==
      match number(text) case None => None case Some(x) => Some(UnitValue(x, Dimension(0.0, 0.0, 0.0, 0.0, 0.0)))
  {
    if Lower(text) in table {
      LowerIs(Lower(text), text);
    }
  }

  // ---- Two operands and an operator ----

  function OperatorChar(op: Token): char
    requires IsOperator(op)
  {
    if op == Mul then '*' else if op == Div then '/' else '^'
  }

  predicate AllSpaces(s: string) {
    forall c :: c in s ==> IsSpace(c)
  }

  // The text of an operation, with any white space around the operator.
  function Operation(l: string, before: string, op: Token, after: string, r: string): string
    requires IsOperator(op)
  {
    l + before + [OperatorChar(op)] + after + r
  }

  lemma {:induction false} SpacesVanish(s: string)
    requires AllSpaces(s)
    ensures WithoutSpaces(s) == ""
  {
    if s != "" {
      assert s[0] in s && forall c :: c in s[1..] ==> c in s;
      SpacesVanish(s[1..]);
    }
  }

  lemma OperationWithoutSpaces(l: string, before: string, op: Token, after: string, r: string)
    requires CleanName(l) && CleanName(r) && IsOperator(op) && AllSpaces(before) && AllSpaces(after)
    ensures WithoutSpaces(Operation(l, before, op, after, r)) == l + AsStr(op) + r
  {
    var c := [OperatorChar(op)];
    NoSpacesInName(l);
    NoSpacesInName(r);
    SpacesVanish(before);
    SpacesVanish(after);
    OneCharacter(OperatorChar(op));
    assert WithoutSpaces(c) == c == AsStr(op);
    hide WithoutSpaces, CleanName, AllSpaces, AsStr;
    WithoutSpacesConcat(l, before);
    WithoutSpacesConcat(l + before, c);
    WithoutSpacesConcat(l + before + c, after);
    WithoutSpacesConcat(l + before + c + after, r);
    Empties(l);
    Empties(l + c);
  }

  lemma OperationText(l: string, op: Token, r: string)
    ensures Text([Value(l), op, Value(r)]) == l + AsStr(op) + r
  {
    OneToken(Value(l));
    OneToken(op);
    OneToken(Value(r));
    hide Text;
    TextConcat([Value(l)], [op]);
    TextConcat([Value(l)] + [op], [Value(r)]);
    assert [Value(l)] + [op] + [Value(r)] == [Value(l), op, Value(r)];
  }

  lemma OperationTokens(l: string, before: string, op: Token, after: string, r: string)
    requires CleanName(l) && CleanName(r) && IsOperator(op) && AllSpaces(before) && AllSpaces(after)
    ensures Tokens(Operation(l, before, op, after, r)) == [Value(l), op, Value(r)]
  {
    var unit, ts := Operation(l, before, op, after, r), [Value(l), op, Value(r)];
    TokensMeaning(unit);
    OperationWithoutSpaces(l, before, op, after, r);
    OperationText(l, op, r);
    assert Canonical(ts);
    hide *;
    CanonicalUnique(Tokens(unit), ts);
  }

  // The sentence of the grammar it is.
  function Sentence(l: string, op: Token, r: string): (e: Expr)
    requires IsOperator(op)
    ensures ExprYield(e) == [Value(l), op, Value(r)] && ExprShape(e) == Node(op, Leaf(l), Leaf(r))
  {
    Wrap(Atom(l));
    Wrap(Atom(r));
    assert [Value(l)] + [op] + [Value(r)] == [Value(l), op, Value(r)];
    if op == Mul then Times(One(Just(Atom(l))), Just(Atom(r)))
    else if op == Div then Over(One(Just(Atom(l))), Just(Atom(r)))
    else
      assert PowerYield(Raise(Just(Atom(l)), Atom(r))) == [Value(l)] + [op] + [Value(r)];
      One(Raise(Just(Atom(l)), Atom(r)))
  }

  // Such a text is the operation on what its names stand for.
  lemma OperationParses(l: string, before: string, op: Token, after: string, r: string, resolve: Resolver, pow: Exponential)
    requires CleanName(l) && CleanName(r) && IsOperator(op) && AllSpaces(before) && AllSpaces(after)
    requires resolve(l).Some? && resolve(r).Some?
    ensures var unit := Operation(l, before, op, after, r);
      ParseUnitExpression(unit, resolve, pow) ==
        if op == Mul then Ok(Multiply(resolve(l).value, resolve(r).value))
        else if op == Div then Divide(resolve(l).value, resolve(r).value)
        else RaiseTo(resolve(l).value, resolve(r).value, pow)
  {
    var unit := Operation(l, before, op, after, r);
    OperationTokens(l, before, op, after, r);
    ParserMeetsGrammar(Sentence(l, op, r), resolve);
    MeaningOfNode(op, Leaf(l), Leaf(r), resolve);
    var a, b := Named(resolve(l).value, l), Named(resolve(r).value, r);
    assert Meaning(Leaf(l), resolve) == Ok(a) && Meaning(Leaf(r), resolve) == Ok(b);
    hide RaiseTo, Divide, Multiply, ParseTokens, Tokens, Meaning;
    assert Eval(a, pow) == Ok(resolve(l).value) && Eval(b, pow) == Ok(resolve(r).value);
  }

  // ---- Laws of conversion through the table ----

  // "t * u" is t of the unit u.
  lemma NumberOfUnits(table: map<string, UnitValue>, number: string -> Option<real>, t: string, u: string, key: string,
                      before: string, after: string, pow: Exponential)
    requires CleanName(t) && CleanName(u) && AllSpaces(before) && AllSpaces(after)
    requires IsLowerOf(key, u) && key in table && table[key].factor != 0.0
    requires number(t).Some? && forall k :: k in table ==> !IsLowerOf(k, t)
    ensures ConversionFactor(Operation(t, before, Mul, after, u), u, Lookup(table, number), pow)
         == Ok(Finite(number(t).value))
  {
    var resolve, x, v := Lookup(table, number), number(t).value, table[key];
    NumeralIsNumber(table, number, t);
    NameIsEntry(table, number, u, key);
    OperationParses(t, before, Mul, after, u, resolve, pow);
    SingleName(u, resolve, pow);
    QuotientUnique(Prod(x, v.factor), v.factor, x);
    assert Dimension(0.0, 0.0, 0.0, 0.0, 0.0).Times(v.dim) == v.dim;
    hide ParseUnitExpression, Prod, Quot;
  }

  // "u ^ t" for a whole number n is n units u multiplied, or undoes -n of
  // them; it fails only for a negative power of zero.
  lemma WholePowerOfUnit(table: map<string, UnitValue>, number: string -> Option<real>, t: string, u: string, key: string,
                         before: string, after: string, n: int, pow: Exponential)
    requires CleanName(t) && CleanName(u) && AllSpaces(before) && AllSpaces(after)
    requires IsLowerOf(key, u) && key in table
    requires number(t) == Some(n as real) && forall k :: k in table ==> !IsLowerOf(k, t)
    ensures var v, r := table[key], ParseUnitExpression(Operation(u, before, Pow, after, t), Lookup(table, number), pow);
      && (r.Ok? <==> v.factor != 0.0 || n >= 0)
      && (r.Ok? && n >= 0 ==> r.value == Repeated(v, n))
      && (r.Ok? && n < 0 ==> Multiply(r.value, Repeated(v, -n)) == ONE)
  {
    var resolve, v := Lookup(table, number), table[key];
    NumeralIsNumber(table, number, t);
    NameIsEntry(table, number, u, key);
    OperationParses(u, before, Pow, after, t, resolve, pow);
    hide ParseUnitExpression;
    WholePower(v, n, pow);
  }

  lemma WholePower(v: UnitValue, n: int, pow: Exponential)
    ensures var r := RaiseTo(v, UnitValue(n as real, DIM_NONE), pow);
      && (r.Ok? <==> v.factor != 0.0 || n >= 0)
      && (r.Ok? && n >= 0 ==> r.value == Repeated(v, n))
      && (r.Ok? && n < 0 ==> Multiply(r.value, Repeated(v, -n)) == ONE)
  {
    assert Whole(n as real) && (n as real).Floor == n;
    if n >= 0 {
      RepeatedIsPower(v, n);
    } else if v.factor != 0.0 {
      RepeatedIsPower(v, -n);
      PowSum(v.factor, n, -n);
      PowZero(v.factor);
      Opposites(v.dim, n);
    }
    hide NatPow, Repeated;
  }

  // A text of white space alone is the number one.
  lemma BlankIsOne(unit: string, resolve: Resolver, pow: Exponential)
    requires AllSpaces(unit)
    ensures ParseUnitExpression(unit, resolve, pow) == Ok(UnitValue(1.0, Dimension(0.0, 0.0, 0.0, 0.0, 0.0)))
  {
    TokensMeaning(unit);
    SpacesVanish(unit);
    CanonicalUnique(Tokens(unit), []);
  }

  // Names that differ only in the case of ASCII letters are one unit of the
  // table.
  lemma CaseDoesNotMatter(table: map<string, UnitValue>, number: string -> Option<real>, a: string, b: string, key: string,
                          pow: Exponential)
    requires CleanName(a) && CleanName(b) && IsLowerOf(key, a) && IsLowerOf(key, b) && key in table
    ensures ParseUnitExpression(a, Lookup(table, number), pow) == Ok(table[key])
    ensures ParseUnitExpression(b, Lookup(table, number), pow) == Ok(table[key])
  {
    NameIsEntry(table, number, a, key);
    NameIsEntry(table, number, b, key);
    SingleName(a, Lookup(table, number), pow);
    SingleName(b, Lookup(table, number), pow);
  }
}
