// The infix grammar of unit expressions, stated apart from the parser:
//   expr    ::= power | expr "*" power | expr "/" power
//   power   ::= primary | power "^" primary
//   primary ::= name | "(" expr ")"
// All operators associate to the left and "^" binds tighter.
module UnitGrammar {
  import opened Wrappers
  import opened Sequences
  import opened UnitTokens
  import opened ShuntingYard

  datatype Primary = Atom(name: string) | Group(inner: Expr)
  datatype Power = Just(p: Primary) | Raise(base: Power, exponent: Primary)
  datatype Expr = One(p: Power) | Times(lhs: Expr, rhs: Power) | Over(lhs: Expr, rhs: Power)

  // The tree a derivation stands for.
  datatype Shape = Leaf(name: string) | Node(op: Token, lhs: Shape, rhs: Shape)

  function PrimaryShape(p: Primary): Shape {
    match p
    case Atom(name) => Leaf(name)
    case Group(inner) => ExprShape(inner)
  }

  function PowerShape(p: Power): Shape {
    match p
    case Just(q) => PrimaryShape(q)
    case Raise(b, x) => Node(Pow, PowerShape(b), PrimaryShape(x))
  }

  function ExprShape(e: Expr): Shape {
    match e
    case One(p) => PowerShape(p)
    case Times(l, r) => Node(Mul, ExprShape(l), PowerShape(r))
    case Over(l, r) => Node(Div, ExprShape(l), PowerShape(r))
  }

  // The token list a derivation spells.
  function PrimaryYield(p: Primary): seq<Token> {
    match p
    case Atom(name) => [Value(name)]
    case Group(inner) => [LParen] + ExprYield(inner) + [RParen]
  }

  function PowerYield(p: Power): seq<Token> {
    match p
    case Just(q) => PrimaryYield(q)
    case Raise(b, x) => PowerYield(b) + [Pow] + PrimaryYield(x)
  }

  function ExprYield(e: Expr): seq<Token> {
    match e
    case One(p) => PowerYield(p)
    case Times(l, r) => ExprYield(l) + [Mul] + PowerYield(r)
    case Over(l, r) => ExprYield(l) + [Div] + PowerYield(r)
  }

  // Operands before their operator.
  function ReversePolish(s: Shape): seq<Token> {
    match s
    case Leaf(name) => [Value(name)]
    case Node(op, l, r) => ReversePolish(l) + ReversePolish(r) + [op]
  }

  // ---- The yard after a phrase: what is out, what is still waiting ----

  function PowerPending(p: Power): seq<Token> {
    if p.Just? then [] else [Pow]
  }

  function ExprPending(e: Expr): seq<Token> {
    match e
    case One(p) => PowerPending(p)
    case Times(_, r) => [Mul] + PowerPending(r)
    case Over(_, r) => [Div] + PowerPending(r)
  }

  function PowerOut(p: Power): seq<Token> {
    match p
    case Just(q) => ReversePolish(PrimaryShape(q))
    case Raise(b, x) => ReversePolish(PowerShape(b)) + ReversePolish(PrimaryShape(x))
  }

  function ExprOut(e: Expr): seq<Token> {
    match e
    case One(p) => PowerOut(p)
    case Times(l, r) => ReversePolish(ExprShape(l)) + PowerOut(r)
    case Over(l, r) => ReversePolish(ExprShape(l)) + PowerOut(r)
  }

  // What is on top of the stack binds no tighter than the given level.
  predicate TopBelow(ops: seq<Token>, level: int) {
    ops == [] || Precedence(ops[|ops| - 1]) < level
  }

  lemma {:induction false} FeedAllConcat(y: Yard, a: seq<Token>, b: seq<Token>)
    ensures FeedAll(y, a + b) ==
      match FeedAll(y, a) case None => None case Some(n) => FeedAll(n, b)
    decreases |a|
  {
    if a == [] {
      assert a + b == b;
    } else {
      ConsConcat(a, b);
      var m := Feed(y, a[0]);
      if m.Some? {
        FeedAllConcat(m.value, a[1..], b);
      }
    }
  }

  // Pending power operators leave the stack before "^" or anything looser.
  lemma PopPowerPending(out: seq<Token>, ops: seq<Token>, p: Power, level: int)
    requires TopBelow(ops, level) && level <= 20
    ensures PopWhileAtLeast(Yard(out + PowerOut(p), ops + PowerPending(p)), level)
         == Yard(out + ReversePolish(PowerShape(p)), ops)
  {
    if p.Raise? {
      assert (ops + [Pow])[..|ops|] == ops;
      assert out + PowerOut(p) + [Pow] == out + ReversePolish(PowerShape(p));
    } else {
      assert ops + [] == ops;
    }
  }

  lemma PopExprPending(out: seq<Token>, ops: seq<Token>, e: Expr, level: int)
    requires TopBelow(ops, level) && level <= 10
    ensures PopWhileAtLeast(Yard(out + ExprOut(e), ops + ExprPending(e)), level)
         == Yard(out + ReversePolish(ExprShape(e)), ops)
  {
    match e {
      case One(p) =>
        PopPowerPending(out, ops, p, level);
      case Times(l, r) => PopProduct(out, ops, Mul, ReversePolish(ExprShape(l)), r, level);
      case Over(l, r) => PopProduct(out, ops, Div, ReversePolish(ExprShape(l)), r, level);
    }
  }

  lemma PopProduct(out: seq<Token>, ops: seq<Token>, op: Token, left: seq<Token>, r: Power, level: int)
    requires op == Mul || op == Div
    requires TopBelow(ops, level) && level <= 10
    ensures PopWhileAtLeast(Yard(out + (left + PowerOut(r)), ops + ([op] + PowerPending(r))), level)
         == Yard(out + (left + ReversePolish(PowerShape(r)) + [op]), ops)
  {
    var right := ReversePolish(PowerShape(r));
    Assoc(out, left, PowerOut(r));
    Assoc(ops, [op], PowerPending(r));
    PopPowerPendingOver(out + left, ops, op, r, level);
    PopOne(out + left + right, ops, op, level);
    Assoc(out, left, right);
    Assoc(out, left + right, [op]);
  }

  lemma PopOne(out: seq<Token>, ops: seq<Token>, op: Token, level: int)
    requires TopBelow(ops, level) && level <= Precedence(op)
    ensures PopWhileAtLeast(Yard(out, ops + [op]), level) == Yard(out + [op], ops)
  {
    assert (ops + [op])[..|ops|] == ops;
  }

  lemma PopPowerPendingOver(out: seq<Token>, ops: seq<Token>, op: Token, r: Power, level: int)
    requires op == Mul || op == Div
    requires level <= 10
    ensures PopWhileAtLeast(Yard(out + PowerOut(r), ops + [op] + PowerPending(r)), level)
         == PopWhileAtLeast(Yard(out + ReversePolish(PowerShape(r)), ops + [op]), level)
  {
    var ops' := ops + [op];
    if r.Raise? {
      assert (ops' + [Pow])[..|ops'|] == ops';
      assert out + PowerOut(r) + [Pow] == out + ReversePolish(PowerShape(r));
    } else {
      assert ops' + [] == ops';
    }
  }

  // Down to the last open parenthesis, popping to it and popping at level 1
  // are the same.
  lemma {:induction false} SamePops(y: Yard, k: nat)
    requires k < |y.operators| && y.operators[k] == LParen
    requires forall i :: k < i < |y.operators| ==> IsOperator(y.operators[i])
    ensures PopToParen(y) == PopWhileAtLeast(y, 1)
    decreases |y.operators|
  {
    if Top(y) != LParen {
      SamePops(PopTop(y), k);
    }
  }

  lemma PendingOperators(e: Expr)
    ensures forall i :: 0 <= i < |ExprPending(e)| ==> IsOperator(ExprPending(e)[i])
  {
  }

  // A right parenthesis empties the stack down to its partner.
  lemma CloseGroup(out: seq<Token>, ops: seq<Token>, e: Expr)
    ensures Feed(Yard(out + ExprOut(e), ops + [LParen] + ExprPending(e)), RParen)
         == Some(Yard(out + ReversePolish(ExprShape(e)), ops))
  {
    var ops' := ops + [LParen];
    var y := Yard(out + ExprOut(e), ops' + ExprPending(e));
    PopExprPending(out, ops', e, 1);
    assert PopToParen(y) == PopWhileAtLeast(y, 1) by {
      PendingOperators(e);
      SamePops(y, |ops|);
    }
    assert ops'[..|ops|] == ops;
  }

  // ---- Feeding a phrase ----

  lemma {:induction false} FeedPrimary(out: seq<Token>, ops: seq<Token>, p: Primary)
    ensures FeedAll(Yard(out, ops), PrimaryYield(p)) == Some(Yard(out + ReversePolish(PrimaryShape(p)), ops))
    decreases p, 0
  {
    match p {
      case Atom(name) =>
      case Group(inner) =>
        var y := Yard(out, ops + [LParen]);
        FeedExpr(out, ops + [LParen], inner);
        CloseGroup(out, ops, inner);
        FeedAllConcat(y, ExprYield(inner), [RParen]);
        assert PrimaryYield(p) == [LParen] + (ExprYield(inner) + [RParen]);
        FeedAllConcat(Yard(out, ops), [LParen], ExprYield(inner) + [RParen]);
    }
  }

  lemma {:induction false} FeedPower(out: seq<Token>, ops: seq<Token>, p: Power)
    requires TopBelow(ops, 20)
    ensures FeedAll(Yard(out, ops), PowerYield(p)) == Some(Yard(out + PowerOut(p), ops + PowerPending(p)))
    decreases p, 0
  {
    match p {
      case Just(q) =>
        FeedPrimary(out, ops, q);
        assert ops + [] == ops;
      case Raise(b, x) =>
        var left := out + ReversePolish(PowerShape(b));
        FeedPower(out, ops, b);
        PopPowerPending(out, ops, b, 20);
        FeedPrimary(left, ops + [Pow], x);
        Chain(Yard(out, ops), PowerYield(b), Pow, PrimaryYield(x));
        assert left + ReversePolish(PrimaryShape(x)) == out + PowerOut(p);
    }
  }

  lemma Chain(y: Yard, left: seq<Token>, op: Token, right: seq<Token>)
    ensures FeedAll(y, left + [op] + right) ==
      match FeedAll(y, left)
      case None => None
      case Some(m) => match Feed(m, op) case None => None case Some(n) => FeedAll(n, right)
  {
    assert left + [op] + right == left + ([op] + right);
    FeedAllConcat(y, left, [op] + right);
    assert ([op] + right)[1..] == right;
  }

  lemma {:induction false} FeedExpr(out: seq<Token>, ops: seq<Token>, e: Expr)
    requires TopBelow(ops, 10)
    ensures FeedAll(Yard(out, ops), ExprYield(e)) == Some(Yard(out + ExprOut(e), ops + ExprPending(e)))
    decreases e, 1
  {
    match e {
      case One(p) => FeedPower(out, ops, p);
      case Times(l, r) => FeedProduct(out, ops, e, l, Mul, r);
      case Over(l, r) => FeedProduct(out, ops, e, l, Div, r);
    }
  }

  lemma {:induction false} FeedProduct(out: seq<Token>, ops: seq<Token>, e: Expr, l: Expr, op: Token, r: Power)
    requires TopBelow(ops, 10)
    requires e == (if op == Mul then Times(l, r) else Over(l, r))
    requires op == Mul || op == Div
    ensures FeedAll(Yard(out, ops), ExprYield(e)) == Some(Yard(out + ExprOut(e), ops + ExprPending(e)))
    decreases e, 0
  {
    var left := out + ReversePolish(ExprShape(l));
    FeedExpr(out, ops, l);
    OperatorAfterExpr(out, ops, l, op);
    FeedPower(left, ops + [op], r);
    hide FeedAll, Feed, PowerYield, PowerOut, ReversePolish, PowerPending;
    Chain(Yard(out, ops), ExprYield(l), op, PowerYield(r));
    Assoc(out, ReversePolish(ExprShape(l)), PowerOut(r));
    Assoc(ops, [op], PowerPending(r));
  }

  lemma OperatorAfterExpr(out: seq<Token>, ops: seq<Token>, l: Expr, op: Token)
    requires TopBelow(ops, 10)
    requires op == Mul || op == Div
    ensures Feed(Yard(out + ExprOut(l), ops + ExprPending(l)), op)
         == Some(Yard(out + ReversePolish(ExprShape(l)), ops + [op]))
  {
    PopExprPending(out, ops, l, 10);
  }

  // The yard turns every sentence of the grammar into its tree in reverse
  // Polish notation.
  lemma PostfixOfSentence(e: Expr)
    ensures Postfix(ExprYield(e)) == Some(ReversePolish(ExprShape(e)))
  {
    FeedExpr([], [], e);
    PopExprPending([], [], e, 1);
    PendingOperators(e);
    var y := Yard([] + ExprOut(e), [] + ExprPending(e));
    DrainsAll(y);
    assert [] + ReversePolish(ExprShape(e)) == ReversePolish(ExprShape(e));
  }

  lemma {:induction false} DrainsAll(y: Yard)
    requires forall t :: t in y.operators ==> IsOperator(t)
    ensures Drain(y) == Some(PopWhileAtLeast(y, 1).output)
    decreases |y.operators|
  {
    if y.operators != [] {
      assert Top(y) in y.operators;
      DrainsAll(PopTop(y));
    }
  }

  // Reverse Polish notation is read one way only, so the grammar is
  // unambiguous: one token list, one tree.
  lemma {:induction false} ReversePolishPrefix(a: Shape, b: Shape, before: seq<Token>, before': seq<Token>)
    requires WellShaped(a) && WellShaped(b)
    requires before + ReversePolish(a) == before' + ReversePolish(b)
    ensures a == b && before == before'
    decreases a
  {
    var all := before + ReversePolish(a);
    assert all[|all| - 1] == ReversePolish(a)[|ReversePolish(a)| - 1];
    assert all[|all| - 1] == ReversePolish(b)[|ReversePolish(b)| - 1];
    if a.Node? {
      var front := all[..|all| - 1];
      assert front == (before + ReversePolish(a.lhs)) + ReversePolish(a.rhs);
      assert front == (before' + ReversePolish(b.lhs)) + ReversePolish(b.rhs);
      ReversePolishPrefix(a.rhs, b.rhs, before + ReversePolish(a.lhs), before' + ReversePolish(b.lhs));
      ReversePolishPrefix(a.lhs, b.lhs, before, before');
    } else {
      assert all[..|all| - 1] == before;
      assert all[..|all| - 1] == before';
    }
  }

  predicate WellShaped(s: Shape) {
    s.Node? ==> IsOperator(s.op) && WellShaped(s.lhs) && WellShaped(s.rhs)
  }

  lemma PrimaryWellShaped(p: Primary)
    ensures WellShaped(PrimaryShape(p))
  {
    if p.Group? { ExprWellShaped(p.inner); }
  }

  lemma PowerWellShaped(p: Power)
    ensures WellShaped(PowerShape(p))
  {
    match p {
      case Just(q) => PrimaryWellShaped(q);
      case Raise(b, x) => PowerWellShaped(b); PrimaryWellShaped(x);
    }
  }

  lemma ExprWellShaped(e: Expr)
    ensures WellShaped(ExprShape(e))
  {
    match e {
      case One(p) => PowerWellShaped(p);
      case Times(l, r) => ExprWellShaped(l); PowerWellShaped(r);
      case Over(l, r) => ExprWellShaped(l); PowerWellShaped(r);
    }
  }

  lemma Unambiguous(a: Expr, b: Expr)
    requires ExprYield(a) == ExprYield(b)
    ensures ExprShape(a) == ExprShape(b)
  {
    PostfixOfSentence(a);
    PostfixOfSentence(b);
    ExprWellShaped(a);
    ExprWellShaped(b);
    ReversePolishPrefix(ExprShape(a), ExprShape(b), [], []);
  }

  // ---- Which token lists are sentences ----

  predicate StartsOperand(t: Token) {
    t.Value? || t == LParen
  }

  predicate EndsOperand(t: Token) {
    t.Value? || t == RParen
  }

  // Of two neighbours, the right one starts an operand exactly when the left
  // one does not end one.
  predicate Joins(left: Token, right: Token) {
    StartsOperand(right) <==> !EndsOperand(left)
  }

  // Operands and operators take turns, an operand first and last.
  predicate Alternates(ts: seq<Token>) {
    && ts != [] && StartsOperand(ts[0]) && EndsOperand(ts[|ts| - 1])
    && forall i :: 0 <= i < |ts| - 1 ==> Joins(ts[i], ts[i + 1])
  }

  // The same from left to right; operand says whether one is due.
  predicate InTurn(ts: seq<Token>, operand: bool) {
    if ts == [] then !operand
    else StartsOperand(ts[0]) == operand && InTurn(ts[1..], !EndsOperand(ts[0]))
  }

  lemma {:induction false} AlternatesFromLeft(ts: seq<Token>)
    requires ts != []
    ensures Alternates(ts) <==> InTurn(ts, StartsOperand(ts[0])) && StartsOperand(ts[0])
    ensures InTurn(ts, StartsOperand(ts[0])) <==>
      EndsOperand(ts[|ts| - 1]) && forall i :: 0 <= i < |ts| - 1 ==> Joins(ts[i], ts[i + 1])
  {
    if |ts| > 1 {
      var rest := ts[1..];
      AlternatesFromLeft(rest);
      assert forall i :: 0 <= i < |rest| ==> rest[i] == ts[i + 1];
      if forall i :: 0 <= i < |rest| - 1 ==> Joins(rest[i], rest[i + 1]) {
        forall i | 1 <= i < |ts| - 1
          ensures Joins(ts[i], ts[i + 1])
        {
          assert Joins(rest[i - 1], rest[i]);
        }
      }
      if forall i :: 0 <= i < |ts| - 1 ==> Joins(ts[i], ts[i + 1]) {
        assert Joins(ts[0], ts[1]);
        forall i | 0 <= i < |rest| - 1
          ensures Joins(rest[i], rest[i + 1])
        {
          assert Joins(ts[i + 1], ts[i + 2]);
        }
      }
    }
  }

  lemma Regroup(a: seq<Token>, b: seq<Token>, c: seq<Token>, d: seq<Token>)
    ensures a + (b + (c + d)) == (a + b + c) + d
  {
  }

  // A sentence keeps its turns.
  lemma {:induction false} PrimaryInTurn(p: Primary, rest: seq<Token>)
    requires InTurn(rest, false)
    ensures InTurn(PrimaryYield(p) + rest, true)
    decreases p, 0
  {
    match p {
      case Atom(name) =>
        assert (PrimaryYield(p) + rest)[1..] == rest;
      case Group(inner) =>
        var close := [RParen] + rest;
        assert close[1..] == rest;
        ExprInTurn(inner, close);
        assert (PrimaryYield(p) + rest)[1..] == ExprYield(inner) + close;
    }
  }

  lemma {:induction false} PowerInTurn(p: Power, rest: seq<Token>)
    requires InTurn(rest, false)
    ensures InTurn(PowerYield(p) + rest, true)
    decreases p, 0
  {
    match p {
      case Just(q) => PrimaryInTurn(q, rest);
      case Raise(b, x) =>
        PrimaryInTurn(x, rest);
        var after := [Pow] + (PrimaryYield(x) + rest);
        assert after[1..] == PrimaryYield(x) + rest;
        PowerInTurn(b, after);
        assert PowerYield(p) + rest == PowerYield(b) + after;
    }
  }

  lemma {:induction false} ExprInTurn(e: Expr, rest: seq<Token>)
    requires InTurn(rest, false)
    ensures InTurn(ExprYield(e) + rest, true)
    decreases e, 0
  {
    match e {
      case One(p) => PowerInTurn(p, rest);
      case Times(l, r) =>
        PowerInTurn(r, rest);
        ProductInTurn(l, Mul, PowerYield(r) + rest);
        Regroup(ExprYield(l), [Mul], PowerYield(r), rest);
      case Over(l, r) =>
        PowerInTurn(r, rest);
        ProductInTurn(l, Div, PowerYield(r) + rest);
        Regroup(ExprYield(l), [Div], PowerYield(r), rest);
    }
  }

  lemma {:induction false} ProductInTurn(l: Expr, op: Token, right: seq<Token>)
    requires InTurn(right, true) && IsOperator(op)
    ensures InTurn(ExprYield(l) + ([op] + right), true)
    decreases l, 1
  {
    assert ([op] + right)[1..] == right;
    ExprInTurn(l, [op] + right);
  }

  // Tokens in turn whose parentheses close can be taken apart by the rules of
  // the grammar. What is left after an operand starts with no operand.
  lemma {:induction false} TakePrimary(ts: seq<Token>, open: nat) returns (p: Primary, rest: seq<Token>)
    requires InTurn(ts, true) && BalancedFrom(ts, open)
    ensures ts == PrimaryYield(p) + rest && |rest| < |ts|
    ensures InTurn(rest, false) && BalancedFrom(rest, open)
    decreases |ts|, 0
  {
    if ts[0].Value? {
      p, rest := Atom(ts[0].text), ts[1..];
    } else {
      var e, r := TakeExpr(ts[1..], open + 1);
      p, rest := Group(e), r[1..];
      assert ts == [LParen] + ts[1..] && r == [RParen] + rest;
      Regroup([LParen], ExprYield(e), [RParen], rest);
    }
  }

  lemma {:induction false} TakePowers(p: Power, ts: seq<Token>, open: nat) returns (q: Power, rest: seq<Token>)
    requires InTurn(ts, false) && BalancedFrom(ts, open)
    ensures PowerYield(p) + ts == PowerYield(q) + rest && |rest| <= |ts|
    ensures InTurn(rest, false) && BalancedFrom(rest, open) && (rest == [] || rest[0] != Pow)
    decreases |ts|, 1
  {
    if ts == [] || ts[0] != Pow {
      q, rest := p, ts;
    } else {
      var x, r := TakePrimary(ts[1..], open);
      assert ts == [Pow] + ts[1..];
      Regroup(PowerYield(p), [Pow], PrimaryYield(x), r);
      Assoc(PowerYield(p), [Pow], PrimaryYield(x) + r);
      q, rest := TakePowers(Raise(p, x), r, open);
    }
  }

  lemma {:induction false} TakePower(ts: seq<Token>, open: nat) returns (q: Power, rest: seq<Token>)
    requires InTurn(ts, true) && BalancedFrom(ts, open)
    ensures ts == PowerYield(q) + rest && |rest| < |ts|
    ensures InTurn(rest, false) && BalancedFrom(rest, open) && (rest == [] || rest[0] != Pow)
    decreases |ts|, 2
  {
    var p, r := TakePrimary(ts, open);
    q, rest := TakePowers(Just(p), r, open);
  }

  lemma {:induction false} TakeProducts(e: Expr, ts: seq<Token>, open: nat) returns (f: Expr, rest: seq<Token>)
    requires InTurn(ts, false) && BalancedFrom(ts, open) && (ts == [] || ts[0] != Pow)
    ensures ExprYield(e) + ts == ExprYield(f) + rest && |rest| <= |ts|
    ensures InTurn(rest, false) && BalancedFrom(rest, open) && (rest == [] || rest[0] == RParen)
    decreases |ts|, 3
  {
    if ts == [] || ts[0] == RParen {
      f, rest := e, ts;
    } else {
      var r, after := TakePower(ts[1..], open);
      assert ts == [ts[0]] + ts[1..];
      Regroup(ExprYield(e), [ts[0]], PowerYield(r), after);
      f, rest := TakeProducts(if ts[0] == Mul then Times(e, r) else Over(e, r), after, open);
    }
  }

  lemma {:induction false} TakeExpr(ts: seq<Token>, open: nat) returns (e: Expr, rest: seq<Token>)
    requires InTurn(ts, true) && BalancedFrom(ts, open)
    ensures ts == ExprYield(e) + rest && |rest| < |ts|
    ensures InTurn(rest, false) && BalancedFrom(rest, open) && (rest == [] || rest[0] == RParen)
    ensures open > 0 ==> rest != []
    decreases |ts|, 4
  {
    var p, r := TakePower(ts, open);
    e, rest := TakeProducts(One(p), r, open);
  }

  ghost predicate IsSentence(ts: seq<Token>) {
    exists e :: ExprYield(e) == ts
  }

  // The sentences are the lists with balanced parentheses in which operands
  // and operators take turns.
  lemma SentencesAre(ts: seq<Token>)
    ensures IsSentence(ts) <==> Balanced(ts) && Alternates(ts)
  {
    if IsSentence(ts) {
      var e :| ExprYield(e) == ts;
      PostfixOfSentence(e);
      PostfixKeepsTokens(ts, Mul);
      ExprInTurn(e, []);
      assert ts + [] == ts;
      AlternatesFromLeft(ts);
    }
    if Balanced(ts) && Alternates(ts) {
      AlternatesFromLeft(ts);
      var e, rest := TakeExpr(ts, 0);
      assert rest == [];
      assert ts == ExprYield(e);
    }
  }
}
