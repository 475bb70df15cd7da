// The tokenizer of the unit expression language. A text is a sequence of
// bytes, written as characters below 256.
module UnitTokens {
  import opened Characters
  import opened Sequences

  datatype Token = LParen | RParen | Mul | Div | Pow | Value(text: string)

  // The text a token stands for in the input.
  function AsStr(t: Token): string {
    match t
    case LParen => "("
    case RParen => ")"
    case Mul => "*"
    case Div => "/"
    case Pow => "^"
    case Value(text) => text
  }

  predicate IsOperatorChar(c: char) {
    c == '*' || c == '/' || c == '^' || c == '(' || c == ')'
  }

  function OperatorToken(c: char): Token
    requires IsOperatorChar(c)
  {
    if c == '*' then Mul
    else if c == '/' then Div
    else if c == '^' then Pow
    else if c == '(' then LParen
    else RParen
  }

  predicate MicroSignAt(unit: string, i: nat) {
    i + 1 < |unit| && unit[i] == '\U{C2}' && unit[i + 1] == '\U{B5}'
  }

  function Flush(current: string): seq<Token> {
    if current == "" then [] else [Value(current)]
  }

  // What the scanning loop still emits from position i on.
  function TokensFrom(unit: string, i: nat, current: string): seq<Token>
    requires i <= |unit|
    decreases |unit| - i
  {
    if i == |unit| then Flush(current)
    else if MicroSignAt(unit, i) then TokensFrom(unit, i + 2, current + [unit[i], unit[i + 1]])
    else if IsOperatorChar(unit[i]) then
      Flush(current) + [OperatorToken(unit[i])] + TokensFrom(unit, i + 1, "")
    else if IsSpace(unit[i]) then TokensFrom(unit, i + 1, current)
    else TokensFrom(unit, i + 1, current + [unit[i]])
  }

  function Tokens(unit: string): seq<Token> {
    TokensFrom(unit, 0, "")
  }

  method Tokenize(unit: string) returns (tokens: seq<Token>)
    ensures tokens == Tokens(unit)
    ensures Canonical(tokens)
    ensures Text(tokens) == WithoutSpaces(unit)
  {
    tokens := [];
    var current := "";
    var i := 0;
    while i < |unit|
      invariant 0 <= i <= |unit|
      invariant tokens + TokensFrom(unit, i, current) == Tokens(unit)
    {
      if MicroSignAt(unit, i) {
        current := current + [unit[i], unit[i + 1]];
        i := i + 2;
        continue;
      }
      var ch := unit[i];
      if IsOperatorChar(ch) {
        ghost var before, pending, rest := tokens, current, TokensFrom(unit, i + 1, "");
        if current != "" {
          tokens := tokens + [Value(current)];
          current := "";
        }
        tokens := tokens + [OperatorToken(ch)];
        assert tokens + rest == before + (Flush(pending) + [OperatorToken(ch)] + rest);
      } else if !IsSpace(ch) {
        current := current + [ch];
      }
      i := i + 1;
    }
    if current != "" {
      tokens := tokens + [Value(current)];
    }
    TokensMeaning(unit);
  }

  // ---- What a token list means, without reference to the scanner ----

  function Text(tokens: seq<Token>): string {
    if tokens == [] then "" else AsStr(tokens[0]) + Text(tokens[1..])
  }

  function WithoutSpaces(s: string): string {
    if s == "" then ""
    else if IsSpace(s[0]) then WithoutSpaces(s[1..])
    else [s[0]] + WithoutSpaces(s[1..])
  }

  // A non-empty name with no operator, parenthesis or space in it.
  predicate CleanName(s: string) {
    s != "" && forall c :: c in s ==> !IsOperatorChar(c) && !IsSpace(c)
  }

  // Values are clean and maximal: no two of them touch.
  predicate Canonical(tokens: seq<Token>) {
    && (forall t :: t in tokens ==> t.Value? ==> CleanName(t.text))
    && (forall i :: 0 < i < |tokens| ==> !(tokens[i - 1].Value? && tokens[i].Value?))
  }

  lemma {:induction false} TextConcat(a: seq<Token>, b: seq<Token>)
    ensures Text(a + b) == Text(a) + Text(b)
  {
    if a == [] {
      assert a + b == b;
    } else {
      TextConcat(a[1..], b);
      Assoc(AsStr(a[0]), Text(a[1..]), Text(b));
      ConsConcat(a, b);
    }
  }

  lemma {:induction false} WithoutSpacesConcat(a: string, b: string)
    ensures WithoutSpaces(a + b) == WithoutSpaces(a) + WithoutSpaces(b)
  {
    if a == "" {
      assert a + b == b;
    } else {
      WithoutSpacesConcat(a[1..], b);
      Assoc([a[0]], WithoutSpaces(a[1..]), WithoutSpaces(b));
      ConsConcat(a, b);
    }
  }

  // The scanner loses nothing but spaces and cuts values as long as possible.
  lemma TokensMeaning(unit: string)
    ensures Canonical(Tokens(unit))
    ensures Text(Tokens(unit)) == WithoutSpaces(unit)
  {
    TokensFromCanonical(unit, 0, "");
    TokensFromText(unit, 0, "");
    assert unit[0..] == unit;
  }

  lemma {:induction false} TokensFromCanonical(unit: string, i: nat, current: string)
    requires i <= |unit|
    requires current == "" || CleanName(current)
    ensures Canonical(TokensFrom(unit, i, current))
    decreases |unit| - i
  {
    if i < |unit| {
      if MicroSignAt(unit, i) {
        TokensFromCanonical(unit, i + 2, current + [unit[i], unit[i + 1]]);
      } else if IsOperatorChar(unit[i]) {
        TokensFromCanonical(unit, i + 1, "");
        OperatorEndsValue(current, unit[i], TokensFrom(unit, i + 1, ""));
      } else if IsSpace(unit[i]) {
        TokensFromCanonical(unit, i + 1, current);
      } else {
        TokensFromCanonical(unit, i + 1, current + [unit[i]]);
      }
    }
  }

  lemma {:induction false} TokensFromText(unit: string, i: nat, current: string)
    requires i <= |unit|
    ensures Text(TokensFrom(unit, i, current)) == current + WithoutSpaces(unit[i..])
    decreases |unit| - i
  {
    hide Text, WithoutSpaces, Flush, OperatorToken;
    if i == |unit| {
      EndText(current);
      assert unit[i..] == "";
    } else {
      WithoutSpacesAt(unit, i);
      if MicroSignAt(unit, i) {
        WithoutSpacesAt(unit, i + 1);
        TokensFromText(unit, i + 2, current + [unit[i], unit[i + 1]]);
        PushTwo(current, unit[i], unit[i + 1], WithoutSpaces(unit[i + 2..]));
      } else if IsOperatorChar(unit[i]) {
        TokensFromText(unit, i + 1, "");
        FlushText(current, unit[i], TokensFrom(unit, i + 1, ""));
        assert "" + WithoutSpaces(unit[i + 1..]) == WithoutSpaces(unit[i + 1..]);
      } else if IsSpace(unit[i]) {
        TokensFromText(unit, i + 1, current);
      } else {
        TokensFromText(unit, i + 1, current + [unit[i]]);
        Assoc(current, [unit[i]], WithoutSpaces(unit[i + 1..]));
      }
    }
  }

  lemma EndText(current: string)
    ensures Text(Flush(current)) == current + WithoutSpaces("")
  {
  }

  lemma PushTwo(current: string, c: char, d: char, rest: string)
    ensures current + ([c] + ([d] + rest)) == current + [c, d] + rest
  {
  }

  lemma FlushText(current: string, ch: char, rest: seq<Token>)
    requires IsOperatorChar(ch)
    ensures Text(Flush(current) + [OperatorToken(ch)] + rest) == current + ([ch] + Text(rest))
  {
    var op := [OperatorToken(ch)];
    TextConcat(Flush(current) + op, rest);
    TextConcat(Flush(current), op);
    Assoc(current, [ch], Text(rest));
    assert Text(op) == [ch] && Text(Flush(current)) == current;
  }

  lemma WithoutSpacesAt(unit: string, i: nat)
    requires i < |unit|
    ensures WithoutSpaces(unit[i..]) ==
      (if IsSpace(unit[i]) then [] else [unit[i]]) + WithoutSpaces(unit[i + 1..])
  {
    assert unit[i..][1..] == unit[i + 1..];
  }

  lemma OperatorEndsValue(current: string, ch: char, rest: seq<Token>)
    requires current == "" || CleanName(current)
    requires IsOperatorChar(ch) && Canonical(rest)
    ensures Canonical(Flush(current) + [OperatorToken(ch)] + rest)
  {
    var op := OperatorToken(ch);
    if current == "" {
      assert Flush(current) + [op] + rest == [op] + rest;
    } else {
      var all := [Value(current), op] + rest;
      assert Flush(current) + [op] + rest == all;
      assert all[1..] == [op] + rest;
    }
  }

  // A canonical list is determined by its text.
  lemma {:induction false} CanonicalUnique(a: seq<Token>, b: seq<Token>)
    requires Canonical(a) && Canonical(b) && Text(a) == Text(b)
    ensures a == b
  {
    TextEmpty(a);
    TextEmpty(b);
    if a != [] && b != [] {
      FirstTokenUnique(a, b);
      TailCanonical(a);
      TailCanonical(b);
      assert Text(a[1..]) == Text(a)[|AsStr(a[0])|..];
      assert Text(b[1..]) == Text(b)[|AsStr(b[0])|..];
      CanonicalUnique(a[1..], b[1..]);
      assert a == [a[0]] + a[1..];
      assert b == [b[0]] + b[1..];
    }
  }

  lemma TextEmpty(a: seq<Token>)
    requires Canonical(a)
    ensures Text(a) == "" <==> a == []
  {
    if a != [] {
      FirstCharacter(a);
    }
  }

  lemma TailCanonical(a: seq<Token>)
    requires Canonical(a) && a != []
    ensures Canonical(a[1..])
  {
    forall i | 0 < i < |a[1..]|
      ensures !(a[1..][i - 1].Value? && a[1..][i].Value?)
    {
      assert a[1..][i - 1] == a[i] && a[1..][i] == a[i + 1];
    }
  }

  lemma FirstCharacter(a: seq<Token>)
    requires Canonical(a) && a != []
    ensures Text(a) != "" && Text(a)[0] == AsStr(a[0])[0]
    ensures IsOperatorChar(Text(a)[0]) <==> !a[0].Value?
  {
    assert a[0] in a;
    if a[0].Value? {
      assert a[0].text[0] in a[0].text;
    }
  }

  lemma FirstTokenUnique(a: seq<Token>, b: seq<Token>)
    requires Canonical(a) && Canonical(b) && Text(a) == Text(b)
    requires a != [] && b != []
    ensures a[0] == b[0]
  {
    FirstCharacter(a);
    FirstCharacter(b);
    if a[0].Value? {
      ValueNotLonger(a, b);
      ValueNotLonger(b, a);
      var n := |a[0].text|;
      assert a[0].text == Text(a)[..n];
      assert b[0].text == Text(b)[..n];
    }
  }

  lemma ValueNotLonger(a: seq<Token>, b: seq<Token>)
    requires Canonical(a) && Canonical(b) && Text(a) == Text(b)
    requires a != [] && b != [] && a[0].Value? && b[0].Value?
    ensures |a[0].text| <= |b[0].text|
  {
    var x, y := a[0].text, b[0].text;
    if |x| > |y| {
      assert Text(a)[|y|] == x[|y|];
      assert x[|y|] in x;
      assert a[0] in a;
      assert Text(b) == y + Text(b[1..]);
      assert Text(b[1..]) != "";
      assert |b| > 1;
      assert b[1..][0] == b[1];
      assert !(b[0].Value? && b[1].Value?);
      assert Text(b)[|y|] == AsStr(b[1])[0];
      assert IsOperatorChar(AsStr(b[1])[0]);
    }
  }
}
