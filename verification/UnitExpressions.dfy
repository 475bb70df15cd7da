// The unit expression tree: reading it from reverse Polish notation,
// printing it, and the whole parser.
module UnitExpressions {
  import opened Characters
  import opened Wrappers
  import opened UnitTokens
  import opened ShuntingYard
  import opened UnitGrammar
  import opened UnitValues

  datatype UnitError =
    | UnbalancedParentheses
    | MissingValue
    | UnknownUnit(name: string)
    | UnexpectedSymbol(symbol: string)
    | Leftover(rest: seq<Token>)
    | NotFinite
    | ExponentHasDimension(dim: Dimension)
    | DimensionMismatch(from: Dimension, to: Dimension)

  datatype Result<+T> = Ok(value: T) | Err(error: UnitError)

  datatype UnitExpr =
    | Named(value: UnitValue, name: string)
    | Product(lhs: UnitExpr, rhs: UnitExpr)
    | Quotient(lhs: UnitExpr, rhs: UnitExpr)
    | Exponent(lhs: UnitExpr, rhs: UnitExpr)

  // What a name stands for: the table of base units after lower-casing, else
  // a number. Both look-ups are one partial function here.
  type Resolver = string -> Option<UnitValue>

  function Combine(op: Token, lhs: UnitExpr, rhs: UnitExpr): UnitExpr
    requires IsOperator(op)
  {
    if op == Mul then Product(lhs, rhs)
    else if op == Div then Quotient(lhs, rhs)
    else Exponent(lhs, rhs)
  }

  // Reads one expression off the end of the stream.
  function Read(stream: seq<Token>, resolve: Resolver): (r: Result<(UnitExpr, seq<Token>)>)
    ensures r.Ok? ==> |r.value.1| < |stream|
    decreases |stream|
  {
    if stream == [] then Err(MissingValue)
    else
      var token, before := stream[|stream| - 1], stream[..|stream| - 1];
      match token
      case Value(text) =>
        (match resolve(text)
         case None => Err(UnknownUnit(text))
         case Some(v) => Ok((Named(v, text), before)))
      case LParen => Err(UnexpectedSymbol(AsStr(token)))
      case RParen => Err(UnexpectedSymbol(AsStr(token)))
      case _ =>
        match Read(before, resolve)
        case Err(e) => Err(e)
        case Ok((rhs, rest)) =>
          match Read(rest, resolve)
          case Err(e) => Err(e)
          case Ok((lhs, rest')) => Ok((Combine(token, lhs, rhs), rest'))
  }

  class TokenStream {
    var tokens: seq<Token>

    constructor (tokens: seq<Token>)
      ensures this.tokens == tokens
    {
      this.tokens := tokens;
    }

    method ReadExpr(resolve: Resolver) returns (r: Result<UnitExpr>)
      modifies this
      ensures r.Ok? <==> Read(old(tokens), resolve).Ok?
      ensures r.Ok? ==> Read(old(tokens), resolve) == Ok((r.value, tokens))
      ensures r.Err? ==> Read(old(tokens), resolve) == Err(r.error)
      decreases |tokens|
    {
      if |tokens| == 0 {
        return Err(MissingValue);
      }
      var token := tokens[|tokens| - 1];
      tokens := tokens[..|tokens| - 1];
      match token {
        case Value(text) =>
          match resolve(text) {
            case None => return Err(UnknownUnit(text));
            case Some(v) => return Ok(Named(v, text));
          }
        case LParen => return Err(UnexpectedSymbol(AsStr(token)));
        case RParen => return Err(UnexpectedSymbol(AsStr(token)));
        case _ =>
          var rhs := ReadExpr(resolve);
          if rhs.Err? {
            return rhs;
          }
          var lhs := ReadExpr(resolve);
          if lhs.Err? {
            return lhs;
          }
          return Ok(Combine(token, lhs.value, rhs.value));
      }
    }
  }

  // ---- Reading inverts reverse Polish notation ----

  // The tree of a shape once its names are resolved, right operand first.
  function Meaning(s: Shape, resolve: Resolver): Result<UnitExpr>
    requires WellShaped(s)
  {
    match s
    case Leaf(name) =>
      (match resolve(name) case None => Err(UnknownUnit(name)) case Some(v) => Ok(Named(v, name)))
    case Node(op, l, r) =>
      match Meaning(r, resolve)
      case Err(e) => Err(e)
      case Ok(rhs) =>
        match Meaning(l, resolve)
        case Err(e) => Err(e)
        case Ok(lhs) => Ok(Combine(op, lhs, rhs))
  }

  lemma {:induction false} ReadReversePolish(before: seq<Token>, s: Shape, resolve: Resolver)
    requires WellShaped(s)
    ensures Read(before + ReversePolish(s), resolve) ==
      match Meaning(s, resolve) case Err(e) => Err(e) case Ok(tree) => Ok((tree, before))
    decreases s
  {
    match s {
      case Leaf(name) =>
        ReadLast(before, Value(name), resolve);
      case Node(op, l, r) =>
        var left := before + ReversePolish(l);
        var stream := left + ReversePolish(r);
        assert before + ReversePolish(s) == stream + [op];
        ReadLast(stream, op, resolve);
        MeaningOfNode(op, l, r, resolve);
        hide Read, Meaning, ReversePolish;
        ReadReversePolish(left, r, resolve);
        ReadReversePolish(before, l, resolve);
    }
  }

  lemma ReadLast(front: seq<Token>, t: Token, resolve: Resolver)
    requires t.Value? || IsOperator(t)
    ensures Read(front + [t], resolve) ==
      if t.Value? then
        match resolve(t.text) case None => Err(UnknownUnit(t.text)) case Some(v) => Ok((Named(v, t.text), front))
      else
        match Read(front, resolve)
        case Err(e) => Err(e)
        case Ok((rhs, rest)) =>
          match Read(rest, resolve)
          case Err(e) => Err(e)
          case Ok((lhs, rest')) => Ok((Combine(t, lhs, rhs), rest'))
  {
    assert (front + [t])[..|front|] == front;
  }

  lemma MeaningOfNode(op: Token, l: Shape, r: Shape, resolve: Resolver)
    requires WellShaped(Node(op, l, r))
    ensures Meaning(Node(op, l, r), resolve) ==
      match Meaning(r, resolve)
      case Err(e) => Err(e)
      case Ok(rhs) =>
        match Meaning(l, resolve)
        case Err(e) => Err(e)
        case Ok(lhs) => Ok(Combine(op, lhs, rhs))
  {
  }

  function ParseTokens(tokens: seq<Token>, resolve: Resolver): Result<UnitExpr> {
    match Postfix(tokens)
    case None => Err(UnbalancedParentheses)
    case Some(rpn) =>
      match Read(rpn, resolve)
      case Err(e) => Err(e)
      case Ok((tree, rest)) => if rest == [] then Ok(tree) else Err(Leftover(rest))
  }

  // Every sentence of the grammar parses to exactly its tree, with nothing
  // left over; the only error is a name that resolves to nothing.
  lemma ParserMeetsGrammar(e: Expr, resolve: Resolver)
    ensures WellShaped(ExprShape(e))
    ensures ParseTokens(ExprYield(e), resolve) == Meaning(ExprShape(e), resolve)
  {
    PostfixOfSentence(e);
    ExprWellShaped(e);
    var s := ExprShape(e);
    ReadReversePolish([], s, resolve);
    assert [] + ReversePolish(s) == ReversePolish(s);
  }

  lemma {:induction false} MeaningFailsOnlyOnUnknown(s: Shape, resolve: Resolver)
    requires WellShaped(s)
    ensures Meaning(s, resolve).Ok? <==> forall t :: t in ReversePolish(s) ==> t.Value? ==> resolve(t.text).Some?
    ensures Meaning(s, resolve).Err? ==>
      var e := Meaning(s, resolve).error;
      e.UnknownUnit? && Value(e.name) in ReversePolish(s) && resolve(e.name).None?
  {
    match s {
      case Leaf(name) =>
        assert Value(name) in ReversePolish(s);
      case Node(op, l, r) =>
        MeaningFailsOnlyOnUnknown(l, resolve);
        MeaningFailsOnlyOnUnknown(r, resolve);
        assert forall t :: t in ReversePolish(s) <==> t in ReversePolish(l) || t in ReversePolish(r) || t == op;
    }
  }

  // ---- The parser on any token list ----

  predicate Resolves(ts: seq<Token>, resolve: Resolver) {
    forall t :: t in ts ==> t.Value? ==> resolve(t.text).Some?
  }

  lemma {:induction false} OperandsAre(ts: seq<Token>, t: Token)
    ensures t in Operands(ts) <==> t in ts && t.Value?
  {
    if ts != [] {
      OperandsAre(ts[1..], t);
      assert ts == [ts[0]] + ts[1..];
    }
  }

  // The reverse Polish form of a sentence has the names of the sentence.
  lemma SameNames(e: Expr, resolve: Resolver)
    ensures Resolves(ReversePolish(ExprShape(e)), resolve) <==> Resolves(ExprYield(e), resolve)
  {
    var ts, rpn := ExprYield(e), ReversePolish(ExprShape(e));
    PostfixOfSentence(e);
    PostfixKeepsTokens(ts, Mul);
    forall t: Token | t.Value?
      ensures t in ts <==> t in rpn
    {
      OperandsAre(ts, t);
      OperandsAre(rpn, t);
    }
  }

  // On lists in which operands and operators take turns the parser accepts
  // exactly the sentences whose names resolve; any other list it accepts is
  // no sentence.
  lemma ParserAcceptsSentences(ts: seq<Token>, resolve: Resolver)
    ensures ParseTokens(ts, resolve).Ok? && Alternates(ts) <==> IsSentence(ts) && Resolves(ts, resolve)
    ensures ParseTokens(ts, resolve).Ok? ==> (IsSentence(ts) <==> Alternates(ts))
  {
    SentencesAre(ts);
    PostfixKeepsTokens(ts, Mul);
    if IsSentence(ts) {
      var e :| ExprYield(e) == ts;
      hide Alternates, Balanced, ReversePolish, ExprShape, Operands;
      ParserMeetsGrammar(e, resolve);
      MeaningFailsOnlyOnUnknown(ExprShape(e), resolve);
      SameNames(e, resolve);
    }
  }

  // What is read off the end of a stream is the reverse Polish form of a tree
  // whose names resolve.
  lemma {:induction false} ReadIsReversePolish(stream: seq<Token>, resolve: Resolver) returns (s: Shape)
    requires Read(stream, resolve).Ok?
    ensures WellShaped(s)
    ensures stream == Read(stream, resolve).value.1 + ReversePolish(s)
    ensures Meaning(s, resolve) == Ok(Read(stream, resolve).value.0)
    decreases |stream|
  {
    var t, before := stream[|stream| - 1], stream[..|stream| - 1];
    assert stream == before + [t];
    if t.Value? {
      s := Leaf(t.text);
    } else {
      ReadLast(before, t, resolve);
      var rest := Read(before, resolve).value.1;
      var r := ReadIsReversePolish(before, resolve);
      var l := ReadIsReversePolish(rest, resolve);
      s := Node(t, l, r);
      MeaningOfNode(t, l, r, resolve);
      hide Read, Meaning;
      Regroup(Read(rest, resolve).value.1, ReversePolish(l), ReversePolish(r), [t]);
    }
  }

  lemma Regroup(a: seq<Token>, l: seq<Token>, r: seq<Token>, op: seq<Token>)
    ensures a + l + r + op == a + (l + r + op)
  {
  }

  // The token list leaves the yard as the reverse Polish form of s, and the
  // names of s resolve.
  predicate ReadsAs(ts: seq<Token>, s: Shape, resolve: Resolver) {
    WellShaped(s) && Postfix(ts) == Some(ReversePolish(s)) && Resolves(ReversePolish(s), resolve)
  }

  // Any token list, inside the grammar or not, is accepted exactly when the
  // yard makes the reverse Polish form of some tree of it, and it is read as
  // that tree.
  lemma ParserAcceptsExactly(ts: seq<Token>, resolve: Resolver)
    ensures ParseTokens(ts, resolve).Ok? <==> exists s :: ReadsAs(ts, s, resolve)
    ensures forall s :: ReadsAs(ts, s, resolve) ==> ParseTokens(ts, resolve) == Meaning(s, resolve)
  {
    forall s | ReadsAs(ts, s, resolve)
      ensures ParseTokens(ts, resolve) == Meaning(s, resolve) && Meaning(s, resolve).Ok?
    {
      ReadReversePolish([], s, resolve);
      assert [] + ReversePolish(s) == ReversePolish(s);
      MeaningFailsOnlyOnUnknown(s, resolve);
    }
    if ParseTokens(ts, resolve).Ok? {
      var s := ReadIsReversePolish(Postfix(ts).value, resolve);
      assert [] + ReversePolish(s) == ReversePolish(s);
      MeaningFailsOnlyOnUnknown(s, resolve);
      assert ReadsAs(ts, s, resolve);
    }
  }

  // ---- Printing and reading back ----

  function ToString(u: UnitExpr): string {
    match u
    case Named(_, name) => name
    case Product(l, r) => "(" + ToString(l) + " * " + ToString(r) + ")"
    case Quotient(l, r) => "(" + ToString(l) + " / " + ToString(r) + ")"
    case Exponent(l, r) => "(" + ToString(l) + " ^ " + ToString(r) + ")"
  }

  // Every leaf carries a clean name and the value the name resolves to.
  predicate Readable(u: UnitExpr, resolve: Resolver) {
    match u
    case Named(value, name) => CleanName(name) && resolve(name) == Some(value)
    case Product(l, r) => Readable(l, resolve) && Readable(r, resolve)
    case Quotient(l, r) => Readable(l, resolve) && Readable(r, resolve)
    case Exponent(l, r) => Readable(l, resolve) && Readable(r, resolve)
  }

  // The printed form as a sentence of the grammar.
  function Printed(u: UnitExpr): Primary {
    match u
    case Named(_, name) => Atom(name)
    case Product(l, r) => Group(Times(One(Just(Printed(l))), Just(Printed(r))))
    case Quotient(l, r) => Group(Over(One(Just(Printed(l))), Just(Printed(r))))
    case Exponent(l, r) => Group(One(Raise(Just(Printed(l)), Printed(r))))
  }

  function OperatorOf(u: UnitExpr): Token
    requires !u.Named?
  {
    match u
    case Product(_, _) => Mul
    case Quotient(_, _) => Div
    case Exponent(_, _) => Pow
  }

  lemma Wrap(p: Primary)
    ensures PowerYield(Just(p)) == PrimaryYield(p) && ExprYield(One(Just(p))) == PrimaryYield(p)
    ensures PowerShape(Just(p)) == PrimaryShape(p) && ExprShape(One(Just(p))) == PrimaryShape(p)
  {
  }

  // An operation in parentheses.
  function Bracketed(l: seq<Token>, op: Token, r: seq<Token>): (ts: seq<Token>)
    ensures ts == [LParen] + l + [op] + r + [RParen]
  {
    [LParen] + (l + [op] + r) + [RParen]
  }

  lemma GroupYield(p: Primary, q: Primary)
    ensures PrimaryYield(Group(Times(One(Just(p)), Just(q)))) == Bracketed(PrimaryYield(p), Mul, PrimaryYield(q))
    ensures PrimaryYield(Group(Over(One(Just(p)), Just(q)))) == Bracketed(PrimaryYield(p), Div, PrimaryYield(q))
    ensures PrimaryYield(Group(One(Raise(Just(p), q)))) == Bracketed(PrimaryYield(p), Pow, PrimaryYield(q))
  {
    Wrap(p);
    Wrap(q);
    assert ExprYield(Times(One(Just(p)), Just(q))) == PrimaryYield(p) + [Mul] + PrimaryYield(q);
    assert ExprYield(Over(One(Just(p)), Just(q))) == PrimaryYield(p) + [Div] + PrimaryYield(q);
    assert ExprYield(One(Raise(Just(p), q))) == PrimaryYield(p) + [Pow] + PrimaryYield(q);
    hide ExprYield;
  }

  lemma PrintedYield(u: UnitExpr)
    requires !u.Named?
    ensures PrimaryYield(Printed(u))
         == [LParen] + PrimaryYield(Printed(u.lhs)) + [OperatorOf(u)] + PrimaryYield(Printed(u.rhs)) + [RParen]
  {
    GroupYield(Printed(u.lhs), Printed(u.rhs));
    hide PrimaryYield;
  }

  lemma PrintedString(u: UnitExpr)
    requires !u.Named?
    ensures ToString(u) == "(" + ToString(u.lhs) + " " + AsStr(OperatorOf(u)) + " " + ToString(u.rhs) + ")"
  {
  }

  lemma PrintedShape(u: UnitExpr)
    ensures PrimaryShape(Printed(u)) ==
      if u.Named? then Leaf(u.name)
      else Node(OperatorOf(u), PrimaryShape(Printed(u.lhs)), PrimaryShape(Printed(u.rhs)))
  {
    if !u.Named? {
      Wrap(Printed(u.lhs));
      Wrap(Printed(u.rhs));
      assert ExprShape(Printed(u).inner) == Node(OperatorOf(u), PrimaryShape(Printed(u.lhs)), PrimaryShape(Printed(u.rhs)));
    }
  }

  lemma {:induction false} PrintedMeaning(u: UnitExpr, resolve: Resolver)
    requires Readable(u, resolve)
    ensures WellShaped(PrimaryShape(Printed(u)))
    ensures Meaning(PrimaryShape(Printed(u)), resolve) == Ok(u)
  {
    PrintedShape(u);
    if !u.Named? {
      PrintedMeaning(u.lhs, resolve);
      PrintedMeaning(u.rhs, resolve);
    }
  }

  lemma {:induction false} PrintedCanonical(u: UnitExpr, resolve: Resolver)
    requires Readable(u, resolve)
    ensures Canonical(PrimaryYield(Printed(u)))
  {
    if !u.Named? {
      var l, op, r := PrimaryYield(Printed(u.lhs)), OperatorOf(u), PrimaryYield(Printed(u.rhs));
      PrintedCanonical(u.lhs, resolve);
      PrintedCanonical(u.rhs, resolve);
      PrintedYield(u);
      SeparatedCanonical([], LParen, l);
      assert [] + [LParen] + l == [LParen] + l;
      SeparatedCanonical(r, RParen, []);
      assert r + [RParen] + [] == r + [RParen];
      SeparatedCanonical([LParen] + l, op, r + [RParen]);
      assert [LParen] + l + [op] + (r + [RParen]) == [LParen] + l + [op] + r + [RParen];
    }
  }

  lemma SeparatedCanonical(a: seq<Token>, op: Token, b: seq<Token>)
    requires Canonical(a) && Canonical(b) && !op.Value?
    ensures Canonical(a + [op] + b)
  {
    var all := a + [op] + b;
    forall i | 0 < i < |all|
      ensures !(all[i - 1].Value? && all[i].Value?)
    {
      if i < |a| {
        assert all[i - 1] == a[i - 1] && all[i] == a[i];
      } else if i > |a| + 1 {
        assert all[i - 1] == b[i - |a| - 2] && all[i] == b[i - |a| - 1];
      } else {
        assert all[|a|] == op;
      }
    }
  }

  lemma {:induction false} NoSpacesInName(s: string)
    requires forall c :: c in s ==> !IsSpace(c)
    ensures WithoutSpaces(s) == s
  {
    if s != "" {
      assert s[0] in s;
      NoSpacesInName(s[1..]);
    }
  }

  lemma {:induction false} PrintedText(u: UnitExpr, resolve: Resolver)
    requires Readable(u, resolve)
    ensures Text(PrimaryYield(Printed(u))) == WithoutSpaces(ToString(u))
  {
    if u.Named? {
      NoSpacesInName(u.name);
    } else {
      assert Readable(u.lhs, resolve) && Readable(u.rhs, resolve);
      OperatorTexts(u);
      PrintedYield(u);
      PrintedString(u);
      hide *;
      PrintedText(u.lhs, resolve);
      PrintedText(u.rhs, resolve);
      TextOfGroup(PrimaryYield(Printed(u.lhs)), OperatorOf(u), PrimaryYield(Printed(u.rhs)));
      SpacesOfGroup(ToString(u.lhs), AsStr(OperatorOf(u)), ToString(u.rhs));
    }
  }

  lemma OperatorTexts(u: UnitExpr)
    requires !u.Named?
    ensures var op := AsStr(OperatorOf(u)); op == "*" || op == "/" || op == "^"
  {
  }

  lemma TextOfGroup(l: seq<Token>, op: Token, r: seq<Token>)
    ensures Text([LParen] + l + [op] + r + [RParen]) == "(" + Text(l) + AsStr(op) + Text(r) + ")"
  {
    OneToken(LParen);
    OneToken(op);
    OneToken(RParen);
    hide Text;
    TextConcat([LParen] + l + [op] + r, [RParen]);
    TextConcat([LParen] + l + [op], r);
    TextConcat([LParen] + l, [op]);
    TextConcat([LParen], l);
  }

  lemma OneToken(t: Token)
    ensures Text([t]) == AsStr(t)
  {
  }

  lemma SpacesOfGroup(l: string, op: string, r: string)
    requires op == "*" || op == "/" || op == "^"
    ensures WithoutSpaces("(" + l + " " + op + " " + r + ")")
         == "(" + WithoutSpaces(l) + op + WithoutSpaces(r) + ")"
  {
    OneCharacter(op[0]);
    OneCharacter('(');
    OneCharacter(')');
    hide WithoutSpaces;
    WithoutSpacesConcat((("(" + l) + " " + op) + " " + r, ")");
    AfterSpace(("(" + l) + " " + op, r);
    AfterSpace("(" + l, op);
    WithoutSpacesConcat("(", l);
  }

  lemma OneCharacter(c: char)
    ensures WithoutSpaces([c]) == if IsSpace(c) then "" else [c]
  {
  }

  lemma AfterSpace(a: string, b: string)
    ensures WithoutSpaces(a + " " + b) == WithoutSpaces(a) + WithoutSpaces(b)
  {
    WithoutSpacesConcat(a + " ", b);
    WithoutSpacesConcat(a, " ");
  }

  // Tokenizing, shunting and reading the printed form gives the tree back.
  lemma PrintParseRoundTrip(u: UnitExpr, resolve: Resolver)
    requires Readable(u, resolve)
    ensures ParseTokens(Tokens(ToString(u)), resolve) == Ok(u)
  {
    var sentence := One(Just(Printed(u)));
    TokensMeaning(ToString(u));
    PrintedCanonical(u, resolve);
    PrintedText(u, resolve);
    assert ExprYield(sentence) == PrimaryYield(Printed(u));
    CanonicalUnique(Tokens(ToString(u)), ExprYield(sentence));
    ParserMeetsGrammar(sentence, resolve);
    PrintedMeaning(u, resolve);
  }
}
