// The shunting yard: infix tokens to reverse Polish notation, and its
// correctness against the grammar of unit expressions.
module ShuntingYard {
  import opened Wrappers
  import opened Sequences
  import opened UnitTokens

  predicate IsOperator(t: Token) {
    t == Mul || t == Div || t == Pow
  }

  function Precedence(t: Token): int {
    match t
    case LParen => 0
    case RParen => 0
    case Mul => 10
    case Div => 10
    case Pow => 20
    case Value(_) => -1
  }

  // The output and the operator stack, top of the stack last.
  datatype Yard = Yard(output: seq<Token>, operators: seq<Token>)

  function Top(y: Yard): Token
    requires y.operators != []
  {
    y.operators[|y.operators| - 1]
  }

  function PopTop(y: Yard): Yard
    requires y.operators != []
  {
    Yard(y.output + [Top(y)], y.operators[..|y.operators| - 1])
  }

  function PopWhileAtLeast(y: Yard, precedence: int): Yard
    decreases |y.operators|
  {
    if y.operators != [] && precedence <= Precedence(Top(y))
    then PopWhileAtLeast(PopTop(y), precedence)
    else y
  }

  function PopToParen(y: Yard): Yard
    decreases |y.operators|
  {
    if y.operators != [] && Top(y) != LParen then PopToParen(PopTop(y)) else y
  }

  // One token; None is the error for unbalanced parentheses.
  function Feed(y: Yard, t: Token): Option<Yard> {
    match t
    case Value(_) => Some(y.(output := y.output + [t]))
    case LParen => Some(y.(operators := y.operators + [t]))
    case RParen =>
      var p := PopToParen(y);
      if p.operators == [] then None
      else Some(p.(operators := p.operators[..|p.operators| - 1]))
    case _ =>
      var p := PopWhileAtLeast(y, Precedence(t));
      Some(p.(operators := p.operators + [t]))
  }

  function FeedAll(y: Yard, tokens: seq<Token>): Option<Yard>
    decreases |tokens|
  {
    if tokens == [] then Some(y)
    else match Feed(y, tokens[0])
         case None => None
         case Some(next) => FeedAll(next, tokens[1..])
  }

  function Drain(y: Yard): Option<seq<Token>>
    decreases |y.operators|
  {
    if y.operators == [] then Some(y.output)
    else if Top(y) == LParen || Top(y) == RParen then None
    else Drain(PopTop(y))
  }

  function Postfix(tokens: seq<Token>): Option<seq<Token>> {
    match FeedAll(Yard([], []), tokens)
    case None => None
    case Some(y) => Drain(y)
  }

  method Shunt(tokens: seq<Token>) returns (result: Option<seq<Token>>)
    ensures result == Postfix(tokens)
    ensures result.None? <==> !Balanced(tokens)
    ensures result.Some? ==> Operands(result.value) == Operands(tokens)
    ensures result.Some? ==> forall op | IsOperator(op) :: Count(result.value, op) == Count(tokens, op)
  {
    forall op | IsOperator(op) {
      PostfixKeepsTokens(tokens, op);
    }
    PostfixKeepsTokens(tokens, Mul);
    var output: seq<Token> := [];
    var operators: seq<Token> := [];
    var i := 0;
    while i < |tokens|
      invariant 0 <= i <= |tokens|
      invariant FeedAll(Yard(output, operators), tokens[i..]) == FeedAll(Yard([], []), tokens)
    {
      var token := tokens[i];
      ghost var before := Yard(output, operators);
      assert tokens[i..][0] == token && tokens[i..][1..] == tokens[i + 1..];
      match token {
        case Value(_) =>
          output := output + [token];
        case LParen =>
          operators := operators + [token];
        case RParen =>
          while |operators| > 0 && operators[|operators| - 1] != LParen
            invariant PopToParen(Yard(output, operators)) == PopToParen(before)
          {
            output := output + [operators[|operators| - 1]];
            operators := operators[..|operators| - 1];
          }
          if |operators| == 0 {
            return None;
          }
          operators := operators[..|operators| - 1];
        case _ =>
          while |operators| > 0 && Precedence(token) <= Precedence(operators[|operators| - 1])
            invariant PopWhileAtLeast(Yard(output, operators), Precedence(token))
                   == PopWhileAtLeast(before, Precedence(token))
          {
            output := output + [operators[|operators| - 1]];
            operators := operators[..|operators| - 1];
          }
          operators := operators + [token];
      }
      assert Feed(before, token) == Some(Yard(output, operators));
      i := i + 1;
    }
    while |operators| > 0
      invariant Drain(Yard(output, operators)) == Postfix(tokens)
      decreases |operators|
    {
      if operators[|operators| - 1] == LParen || operators[|operators| - 1] == RParen {
        return None;
      }
      output := output + [operators[|operators| - 1]];
      operators := operators[..|operators| - 1];
    }
    return Some(output);
  }

  // ---- Any token list: parentheses, operands, conservation ----

  // Parentheses are balanced, given the number still open on the left.
  predicate BalancedFrom(tokens: seq<Token>, open: nat) {
    if tokens == [] then open == 0
    else if tokens[0] == LParen then BalancedFrom(tokens[1..], open + 1)
    else if tokens[0] == RParen then open > 0 && BalancedFrom(tokens[1..], open - 1)
    else BalancedFrom(tokens[1..], open)
  }

  predicate Balanced(tokens: seq<Token>) {
    BalancedFrom(tokens, 0)
  }

  function Operands(tokens: seq<Token>): seq<Token> {
    if tokens == [] then []
    else if tokens[0].Value? then [tokens[0]] + Operands(tokens[1..])
    else Operands(tokens[1..])
  }

  function Count(tokens: seq<Token>, op: Token): nat {
    if tokens == [] then 0 else Count(tokens[1..], op) + if tokens[0] == op then 1 else 0
  }

  function OpenParens(operators: seq<Token>): nat {
    if operators == [] then 0
    else OpenParens(operators[..|operators| - 1]) + if operators[|operators| - 1] == LParen then 1 else 0
  }

  // The stack never holds a value or a right parenthesis, the output never
  // a parenthesis.
  predicate Sorted(y: Yard) {
    && (forall t :: t in y.operators ==> t == LParen || IsOperator(t))
    && (forall t :: t in y.output ==> t.Value? || IsOperator(t))
  }

  function Held(y: Yard, op: Token): nat {
    Count(y.output, op) + Count(y.operators, op)
  }

  lemma {:induction false} OperandsConcat(a: seq<Token>, b: seq<Token>)
    ensures Operands(a + b) == Operands(a) + Operands(b)
  {
    if a == [] {
      assert a + b == b;
    } else {
      OperandsConcat(a[1..], b);
      Assoc([a[0]], Operands(a[1..]), Operands(b));
      ConsConcat(a, b);
    }
  }

  lemma {:induction false} CountConcat(a: seq<Token>, b: seq<Token>, op: Token)
    ensures Count(a + b, op) == Count(a, op) + Count(b, op)
  {
    if a == [] {
      assert a + b == b;
    } else {
      CountConcat(a[1..], b, op);
      ConsConcat(a, b);
    }
  }

  lemma OpenParensPush(operators: seq<Token>, t: Token)
    ensures OpenParens(operators + [t]) == OpenParens(operators) + if t == LParen then 1 else 0
  {
    assert (operators + [t])[..|operators|] == operators;
  }

  lemma PushOnStack(y: Yard, t: Token, op: Token)
    requires Sorted(y) && (t == LParen || IsOperator(t))
    ensures var n := y.(operators := y.operators + [t]);
      && Sorted(n) && Held(n, op) == Held(y, op) + Count([t], op)
      && OpenParens(n.operators) == OpenParens(y.operators) + if t == LParen then 1 else 0
  {
    OpenParensPush(y.operators, t);
    CountConcat(y.operators, [t], op);
  }

  // Moving an operator from the stack to the output changes no total.
  predicate SameTotals(y: Yard, p: Yard, op: Token) {
    && Sorted(p) && Held(p, op) == Held(y, op)
    && OpenParens(p.operators) == OpenParens(y.operators)
    && Operands(p.output) == Operands(y.output)
  }

  lemma PopTopKeeps(y: Yard, op: Token)
    requires Sorted(y) && y.operators != [] && Top(y) != LParen
    ensures SameTotals(y, PopTop(y), op)
  {
    var rest, top := y.operators[..|y.operators| - 1], Top(y);
    assert y.operators == rest + [top];
    assert top in y.operators;
    CountConcat(rest, [top], op);
    CountConcat(y.output, [top], op);
    OperandsConcat(y.output, [top]);
    assert Operands([top]) == [];
    Empties(Operands(y.output));
    hide Operands, Count;
  }

  lemma {:induction false} PopWhileKeeps(y: Yard, precedence: int, op: Token)
    requires Sorted(y) && precedence > 0
    ensures SameTotals(y, PopWhileAtLeast(y, precedence), op)
    decreases |y.operators|
  {
    if y.operators != [] && precedence <= Precedence(Top(y)) {
      PopTopKeeps(y, op);
      PopWhileKeeps(PopTop(y), precedence, op);
    }
  }

  lemma {:induction false} PopToParenKeeps(y: Yard, op: Token)
    requires Sorted(y)
    ensures var p := PopToParen(y);
      && SameTotals(y, p, op)
      && (p.operators == [] <==> OpenParens(y.operators) == 0)
      && (p.operators != [] ==> Top(p) == LParen)
    decreases |y.operators|
  {
    if y.operators != [] && Top(y) != LParen {
      PopTopKeeps(y, op);
      PopToParenKeeps(PopTop(y), op);
    }
  }

  // What feeding the tokens ts to y adds up to in n.
  predicate Absorbs(y: Yard, ts: seq<Token>, n: Yard, op: Token) {
    && Sorted(n)
    && Operands(n.output) == Operands(y.output) + Operands(ts)
    && Held(n, op) == Held(y, op) + Count(ts, op)
  }

  lemma AbsorbsThen(y: Yard, t: Token, m: Yard, ts: seq<Token>, n: Yard, op: Token)
    requires Absorbs(y, [t], m, op) && Absorbs(m, ts, n, op)
    ensures Absorbs(y, [t] + ts, n, op)
  {
    OperandsConcat([t], ts);
    CountConcat([t], ts, op);
    assert Operands(y.output) + (Operands([t]) + Operands(ts)) == (Operands(y.output) + Operands([t])) + Operands(ts);
  }

  lemma FeedOperator(y: Yard, t: Token, op: Token)
    requires Sorted(y) && IsOperator(t)
    ensures var n := Feed(y, t).value;
      Absorbs(y, [t], n, op) && OpenParens(n.operators) == OpenParens(y.operators)
  {
    PopWhileKeeps(y, Precedence(t), op);
    PushOnStack(PopWhileAtLeast(y, Precedence(t)), t, op);
    assert Operands([t]) == [];
  }

  lemma FeedRightParen(y: Yard, op: Token)
    requires Sorted(y) && IsOperator(op)
    ensures match Feed(y, RParen)
      case None => OpenParens(y.operators) == 0
      case Some(n) => Absorbs(y, [RParen], n, op) && OpenParens(n.operators) == OpenParens(y.operators) - 1
  {
    PopToParenKeeps(y, op);
    var p := PopToParen(y);
    if p.operators != [] {
      var rest := p.operators[..|p.operators| - 1];
      assert p.operators == rest + [LParen];
      CountConcat(rest, [LParen], op);
      OpenParensPush(rest, LParen);
      assert Operands([RParen]) == [];
    }
  }

  lemma FeedOther(y: Yard, t: Token, op: Token)
    requires Sorted(y) && (t == LParen || t.Value?) && IsOperator(op)
    ensures var n := Feed(y, t).value;
      && Absorbs(y, [t], n, op)
      && OpenParens(n.operators) == OpenParens(y.operators) + if t == LParen then 1 else 0
  {
    if t == LParen {
      PushOnStack(y, t, op);
      assert Operands([t]) == [];
    } else {
      OperandsConcat(y.output, [t]);
      CountConcat(y.output, [t], op);
    }
  }

  lemma {:induction false} FeedAllKeeps(y: Yard, tokens: seq<Token>, op: Token)
    requires Sorted(y) && IsOperator(op)
    ensures match FeedAll(y, tokens)
      case None => !BalancedFrom(tokens, OpenParens(y.operators))
      case Some(n) =>
        && Absorbs(y, tokens, n, op)
        && (BalancedFrom(tokens, OpenParens(y.operators)) <==> OpenParens(n.operators) == 0)
    decreases |tokens|
  {
    if tokens != [] {
      var t, rest := tokens[0], tokens[1..];
      assert tokens == [t] + rest;
      if t == RParen {
        FeedRightParen(y, op);
      } else if t == LParen || t.Value? {
        FeedOther(y, t, op);
      } else {
        FeedOperator(y, t, op);
      }
      var m := Feed(y, t);
      hide Operands, Count, Held, OpenParens, Feed;
      if m.Some? {
        FeedAllKeeps(m.value, rest, op);
        var n := FeedAll(m.value, rest);
        if n.Some? {
          AbsorbsThen(y, t, m.value, rest, n.value, op);
        }
      }
    }
  }

  lemma {:induction false} DrainKeeps(y: Yard, op: Token)
    requires Sorted(y)
    ensures Drain(y).None? <==> OpenParens(y.operators) > 0
    ensures Drain(y).Some? ==> Operands(Drain(y).value) == Operands(y.output)
    ensures Drain(y).Some? ==> Count(Drain(y).value, op) == Held(y, op)
    decreases |y.operators|
  {
    if y.operators != [] {
      assert Top(y) in y.operators;
      if Top(y) != LParen {
        PopTopKeeps(y, op);
        DrainKeeps(PopTop(y), op);
      }
    }
  }

  // Errors exactly on unbalanced parentheses; keeps the operands in order
  // and loses or invents no operator.
  lemma PostfixKeepsTokens(tokens: seq<Token>, op: Token)
    requires IsOperator(op)
    ensures Postfix(tokens).None? <==> !Balanced(tokens)
    ensures Postfix(tokens).Some? ==> Operands(Postfix(tokens).value) == Operands(tokens)
    ensures Postfix(tokens).Some? ==> Count(Postfix(tokens).value, op) == Count(tokens, op)
  {
    FeedAllKeeps(Yard([], []), tokens, op);
    match FeedAll(Yard([], []), tokens) {
      case None =>
      case Some(y) => DrainKeeps(y, op);
    }
  }
}
