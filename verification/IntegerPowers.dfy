// Integer powers of reals and their laws.
module IntegerPowers {

  // Products and quotients by name, so that proofs can treat them as plain
  // functions with the laws below.
  function Prod(x: real, y: real): real {
    x * y
  }

  function Quot(x: real, y: real): real
    requires y != 0.0
  {
    x / y
  }

  lemma Units(a: real)
    ensures Prod(a, 1.0) == a && Prod(1.0, a) == a && Prod(a, 0.0) == 0.0 && Prod(0.0, a) == 0.0
  {
  }

  lemma Nonzero(a: real, b: real)
    ensures Prod(a, b) == 0.0 <==> a == 0.0 || b == 0.0
    ensures a > 0.0 && b > 0.0 ==> Prod(a, b) > 0.0
  {
  }

  lemma QuotInverts(a: real, b: real)
    requires b != 0.0
    ensures Prod(Quot(a, b), b) == a
  {
  }

  function NatPow(x: real, n: nat): real {
    if n == 0 then 1.0 else Prod(NatPow(x, n - 1), x)
  }

  lemma {:induction false} NatPowNonzero(x: real, n: nat)
    requires x != 0.0
    ensures NatPow(x, n) != 0.0
    ensures x > 0.0 ==> NatPow(x, n) > 0.0
  {
    if n > 0 {
      NatPowNonzero(x, n - 1);
    }
  }

  function IntPow(x: real, n: int): real
    requires n >= 0 || x != 0.0
  {
    if n >= 0 then NatPow(x, n)
    else
      NatPowNonzero(x, -n);
      1.0 / NatPow(x, -n)
  }

  lemma PowZero(x: real)
    ensures IntPow(x, 0) == 1.0
  {
  }

  lemma PowStep(x: real, n: int)
    requires x != 0.0
    ensures IntPow(x, n + 1) == Prod(IntPow(x, n), x)
  {
    if n < 0 {
      var p := NatPow(x, -n - 1);
      NatPowNonzero(x, -n - 1);
      assert NatPow(x, -n) == p * x;
      assert p * x != 0.0;
      assert (1.0 / (p * x)) * (p * x) == 1.0;
      Regroup(1.0 / (p * x), p, x);
    }
  }

  lemma Regroup(q: real, p: real, x: real)
    requires p != 0.0 && q * (p * x) == 1.0
    ensures q * x == 1.0 / p
  {
    assert (q * x) * p == 1.0;
  }

  lemma {:induction false} PowSum(x: real, a: int, b: int)
    requires x != 0.0
    ensures IntPow(x, a + b) == Prod(IntPow(x, a), IntPow(x, b))
    decreases if b >= 0 then b else -b
  {
    hide NatPow, IntPow;
    PowZero(x);
    if b > 0 {
      PowSum(x, a, b - 1);
      PowStep(x, a + b - 1);
      PowStep(x, b - 1);
      StepUp(IntPow(x, a + b - 1), IntPow(x, a), IntPow(x, b - 1), x, IntPow(x, a + b), IntPow(x, b));
    } else if b < 0 {
      PowSum(x, a, b + 1);
      PowStep(x, a + b);
      PowStep(x, b);
      StepDown(IntPow(x, a + b), IntPow(x, a), IntPow(x, b), x, IntPow(x, a + b + 1), IntPow(x, b + 1));
    }
  }

  lemma StepUp(p: real, c: real, q: real, x: real, p': real, q': real)
    requires p == Prod(c, q) && p' == Prod(p, x) && q' == Prod(q, x)
    ensures p' == Prod(c, q')
  {
    Associate(c, q, x);
  }

  lemma StepDown(p: real, c: real, q: real, x: real, p': real, q': real)
    requires x != 0.0 && p' == Prod(c, q') && p' == Prod(p, x) && q' == Prod(q, x)
    ensures p == Prod(c, q)
  {
    Associate(c, q, x);
    Cancel(p, c * q, x);
  }

  lemma Associate(a: real, b: real, c: real)
    ensures Prod(a, Prod(b, c)) == Prod(Prod(a, b), c)
  {
  }

  lemma Cancel(a: real, b: real, c: real)
    requires c != 0.0 && Prod(a, c) == Prod(b, c)
    ensures a == b
  {
    assert (a * c) / c == a;
    assert (b * c) / c == b;
  }

  lemma {:induction false} NatPowProduct(x: real, y: real, n: nat)
    ensures NatPow(Prod(x, y), n) == Prod(NatPow(x, n), NatPow(y, n))
  {
    if n > 0 {
      NatPowProduct(x, y, n - 1);
      Interchange(NatPow(x, n - 1), NatPow(y, n - 1), x, y);
    }
  }

  lemma Interchange(a: real, b: real, x: real, y: real)
    ensures Prod(Prod(a, b), Prod(x, y)) == Prod(Prod(a, x), Prod(b, y))
  {
    Commute(b, x);
    hide Prod;
    Associate(Prod(a, b), x, y);
    Associate(a, b, x);
    Associate(a, x, b);
    Associate(Prod(a, x), b, y);
  }

  lemma Commute(a: real, b: real)
    ensures Prod(a, b) == Prod(b, a)
  {
  }

  lemma PowProduct(x: real, y: real, n: int)
    requires n >= 0 || (x != 0.0 && y != 0.0)
    ensures n >= 0 || Prod(x, y) != 0.0
    ensures IntPow(Prod(x, y), n) == Prod(IntPow(x, n), IntPow(y, n))
  {
    if n >= 0 {
      NatPowProduct(x, y, n);
    } else {
      NatPowProduct(x, y, -n);
      NatPowNonzero(x, -n);
      NatPowNonzero(y, -n);
      ReciprocalProduct(NatPow(x, -n), NatPow(y, -n));
    }
  }

  lemma ReciprocalProduct(a: real, b: real)
    requires a != 0.0 && b != 0.0
    ensures Prod(a, b) != 0.0 && 1.0 / Prod(a, b) == Prod(1.0 / a, 1.0 / b)
  {
    Interchange(1.0 / a, 1.0 / b, a, b);
    assert ((1.0 / a) * (1.0 / b)) * (a * b) == 1.0;
    Cancel(1.0 / (a * b), (1.0 / a) * (1.0 / b), a * b);
  }

  lemma QuotientUnique(a: real, b: real, q: real)
    requires b != 0.0 && a == Prod(q, b)
    ensures q == Quot(a, b)
  {
    assert (a / b) * b == a;
    Cancel(q, a / b, b);
  }
}
