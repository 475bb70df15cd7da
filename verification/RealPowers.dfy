// Powers with real exponents.
module RealPowers {
  import opened Wrappers
  import opened IntegerPowers

  // The power of a positive base.
  type Exponential = (real, real) -> real

  // Sums by name, as in IntegerPowers.
  function Sum(e: real, e': real): real {
    e + e'
  }

  // What is known of it. Real exponentiation has these laws.
  ghost predicate PowerLaws(pow: Exponential) {
    && (forall x, e {:trigger pow(x, e)} :: x > 0.0 ==> pow(x, e) > 0.0)
    && (forall x {:trigger pow(x, 1.0)} :: x > 0.0 ==> pow(x, 1.0) == x)
    && (forall x, e, e' {:trigger pow(x, Sum(e, e'))} :: x > 0.0 ==> pow(x, Sum(e, e')) == Prod(pow(x, e), pow(x, e')))
    && (forall x, y, e {:trigger pow(Prod(x, y), e)} :: x > 0.0 && y > 0.0 ==>
          pow(Prod(x, y), e) == Prod(pow(x, e), pow(y, e)))
    && (forall x, e, e' {:trigger pow(pow(x, e), e')} :: x > 0.0 ==> pow(pow(x, e), e') == pow(x, Prod(e, e')))
  }

  predicate Whole(e: real) {
    e == e.Floor as real
  }

  // std::pow; None is an infinity or no number.
  function StdPow(pow: Exponential, x: real, e: real): Option<real> {
    if Whole(e) then
      if x == 0.0 && e.Floor < 0 then None else Some(IntPow(x, e.Floor))
    else if x > 0.0 then Some(pow(x, e))
    else if x == 0.0 && e > 0.0 then Some(0.0)
    else None
  }

  // ---- The laws one by one ----

  lemma PowPositive(pow: Exponential, x: real, e: real)
    requires PowerLaws(pow) && x > 0.0
    ensures pow(x, e) > 0.0
  {
  }

  lemma PowOfSum(pow: Exponential, x: real, e: real, e': real)
    requires PowerLaws(pow) && x > 0.0
    ensures pow(x, e + e') == Prod(pow(x, e), pow(x, e'))
  {
    assert Sum(e, e') == e + e';
  }

  lemma PowOfProduct(pow: Exponential, x: real, y: real, e: real)
    requires PowerLaws(pow) && x > 0.0 && y > 0.0
    ensures pow(Prod(x, y), e) == Prod(pow(x, e), pow(y, e))
  {
  }

  lemma PowOfPow(pow: Exponential, x: real, e: real, e': real)
    requires PowerLaws(pow) && x > 0.0
    ensures pow(x, e) > 0.0 && pow(pow(x, e), e') == pow(x, Prod(e, e'))
  {
  }

  lemma PowOne(pow: Exponential, x: real)
    requires PowerLaws(pow) && x > 0.0
    ensures pow(x, 1.0) == x
  {
  }

  lemma PowNone(pow: Exponential, x: real)
    requires PowerLaws(pow) && x > 0.0
    ensures pow(x, 0.0) == 1.0
  {
    hide PowerLaws;
    PowOfSum(pow, x, 0.0, 1.0);
    PowOne(pow, x);
    assert 0.0 + 1.0 == 1.0;
    Units(x);
    Cancel(pow(x, 0.0), 1.0, x);
  }

  // ---- Integer exponents ----

  // On a positive base the laws leave one power for each integer.
  lemma {:induction false} PowOfInteger(pow: Exponential, x: real, n: int)
    requires PowerLaws(pow) && x > 0.0
    ensures pow(x, n as real) == IntPow(x, n)
    decreases if n >= 0 then n else -n
  {
    hide PowerLaws, IntPow, Prod;
    PowNone(pow, x);
    PowZero(x);
    if n > 0 {
      PowOfInteger(pow, x, n - 1);
      NextPower(pow, x, n - 1);
    } else if n < 0 {
      PowOfInteger(pow, x, n + 1);
      NextPower(pow, x, n);
      Cancel(pow(x, n as real), IntPow(x, n), x);
    }
  }

  lemma NextPower(pow: Exponential, x: real, n: int)
    requires PowerLaws(pow) && x > 0.0
    ensures pow(x, (n + 1) as real) == Prod(pow(x, n as real), x)
    ensures IntPow(x, n + 1) == Prod(IntPow(x, n), x)
  {
    hide PowerLaws, IntPow, Prod;
    PowOfSum(pow, x, n as real, 1.0);
    PowOne(pow, x);
    PowStep(x, n);
    assert (n + 1) as real == n as real + 1.0;
  }

  lemma PowOfPositive(pow: Exponential, x: real, e: real)
    requires PowerLaws(pow) && x > 0.0
    ensures StdPow(pow, x, e) == Some(pow(x, e))
  {
    hide PowerLaws, IntPow;
    if Whole(e) {
      PowOfInteger(pow, x, e.Floor);
    }
  }

  // A positive factor of the base comes out of any power, failed ones included.
  lemma PositiveFactor(pow: Exponential, x: real, p: real, e: real)
    requires PowerLaws(pow) && p > 0.0
    ensures StdPow(pow, Prod(x, p), e) ==
      match StdPow(pow, x, e) case None => None case Some(y) => Some(Prod(y, pow(p, e)))
  {
    hide PowerLaws, IntPow, Prod;
    Nonzero(x, p);
    SignOfProduct(x, p);
    if x > 0.0 {
      PowOfPositive(pow, x, e);
      PowOfPositive(pow, Prod(x, p), e);
      PowOfProduct(pow, x, p, e);
    } else if Whole(e) {
      PowOfInteger(pow, p, e.Floor);
      if !(x == 0.0 && e.Floor < 0) {
        PowProduct(x, p, e.Floor);
      }
    } else {
      Units(pow(p, e));
    }
  }

  lemma SignOfProduct(x: real, p: real)
    requires p > 0.0
    ensures Prod(x, p) > 0.0 <==> x > 0.0
  {
  }

  // ---- Fractions ----

  lemma {:induction false} PowerOfIntPower(x: real, n: int, q: nat)
    requires x != 0.0
    ensures NatPow(IntPow(x, n), q) == IntPow(x, n * q)
  {
    if q > 0 {
      PowerOfIntPower(x, n, q - 1);
      PowSum(x, n * (q - 1), n);
      assert n * (q - 1) + n == n * q;
    } else {
      PowZero(x);
      assert n * q == 0;
    }
  }

  lemma {:induction false} PowersOfZero(q: nat)
    ensures NatPow(0.0, q) == if q == 0 then 1.0 else 0.0
  {
    if q > 0 {
      Units(NatPow(0.0, q - 1));
    }
  }

  lemma {:induction false} PowersOfOne(q: nat)
    ensures NatPow(1.0, q) == 1.0
  {
    if q > 0 {
      PowersOfOne(q - 1);
    }
  }

  // The power of exponent p / q is a q-th root of the p-th power.
  lemma RootOfPower(pow: Exponential, x: real, e: real, p: int, q: nat)
    requires PowerLaws(pow) && StdPow(pow, x, e).Some? && q > 0 && Prod(e, q as real) == p as real
    ensures x == 0.0 ==> p >= 0
    ensures NatPow(StdPow(pow, x, e).value, q) == IntPow(x, p)
  {
    if x > 0.0 {
      RootOfPositive(pow, x, e, p, q);
    } else if x == 0.0 {
      RootOfZero(pow, e, p, q);
    } else {
      assert Whole(e);
      WholeTimes(e.Floor, q, p);
      PowerOfIntPower(x, e.Floor, q);
    }
  }

  lemma WholeTimes(n: int, q: nat, p: int)
    requires Prod(n as real, q as real) == p as real
    ensures n * q == p
  {
    assert (n * q) as real == (n as real) * (q as real);
  }

  lemma RootOfPositive(pow: Exponential, x: real, e: real, p: int, q: nat)
    requires PowerLaws(pow) && x > 0.0 && Prod(e, q as real) == p as real
    ensures StdPow(pow, x, e).Some? && NatPow(StdPow(pow, x, e).value, q) == IntPow(x, p)
  {
    hide PowerLaws, Prod;
    PowOfPositive(pow, x, e);
    PowOfPow(pow, x, e, q as real);
    PowOfInteger(pow, pow(x, e), q);
    PowOfInteger(pow, x, p);
  }

  lemma RootOfZero(pow: Exponential, e: real, p: int, q: nat)
    requires StdPow(pow, 0.0, e).Some? && q > 0 && Prod(e, q as real) == p as real
    ensures p >= 0 && NatPow(StdPow(pow, 0.0, e).value, q) == IntPow(0.0, p)
  {
    assert e >= 0.0;
    assert p > 0 <==> e > 0.0;
    if e > 0.0 {
      if Whole(e) { PowersOfZero(e.Floor); }
      PowersOfZero(q);
      PowersOfZero(p);
    } else {
      PowersOfOne(q);
    }
  }
}
