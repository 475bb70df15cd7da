// Row-major strides and the address arithmetic they support.
module Strides {

  // Products and Euclidean division by name, so that proofs can use them as
  // plain functions with the laws below.
  function Times(a: int, b: int): int {
    a * b
  }

  function Quotient(p: int, d: int): int
    requires d > 0
  {
    p / d
  }

  function Remainder(p: int, d: int): (r: int)
    requires d > 0
    ensures 0 <= r < d
  {
    p % d
  }

  function Product(shape: seq<int>): int {
    if shape == [] then 1 else Times(shape[0], Product(shape[1..]))
  }

  predicate Positive(shape: seq<int>) {
    forall i :: 0 <= i < |shape| ==> shape[i] > 0
  }

  // The loop over the axes, last to first. Extents are unbounded integers.
  method ComputeRowMajorStrides(shape: array<int>) returns (strides: array<int>)
    ensures fresh(strides) && strides.Length == shape.Length
    ensures forall i :: 0 <= i < shape.Length ==> strides[i] == Product(shape[i + 1..])
    ensures strides[..] == RowMajor(shape[..])
  {
    var ndim := shape.Length;
    strides := new int[ndim](_ => 1);
    if ndim > 0 {
      assert shape[ndim..] == [];
      var i := ndim - 1;
      while i > 0
        invariant 0 <= i < ndim
        invariant forall k :: i <= k < ndim ==> strides[k] == Product(shape[k + 1..])
      {
        i := i - 1;
        assert shape[i + 1..][1..] == shape[i + 2..];
        strides[i] := strides[i + 1] * shape[i + 1];
      }
    }
    RowMajorIsProducts(shape[..]);
    forall i | 0 <= i < ndim
      ensures strides[..][i] == RowMajor(shape[..])[i]
    {
      assert shape[..][i + 1..] == shape[i + 1..];
    }
  }

  function RowMajor(shape: seq<int>): (strides: seq<int>)
    ensures |strides| == |shape|
  {
    if shape == [] then [] else [Product(shape[1..])] + RowMajor(shape[1..])
  }

  lemma {:induction false} RowMajorIsProducts(shape: seq<int>)
    ensures forall i :: 0 <= i < |shape| ==> RowMajor(shape)[i] == Product(shape[i + 1..])
  {
    if shape != [] {
      RowMajorIsProducts(shape[1..]);
      forall i | 0 < i < |shape|
        ensures RowMajor(shape)[i] == Product(shape[i + 1..])
      {
        assert RowMajor(shape)[i] == RowMajor(shape[1..])[i - 1];
        assert shape[1..][i..] == shape[i + 1..];
      }
    }
  }

  predicate InRange(index: seq<int>, shape: seq<int>) {
    |index| == |shape| && forall i :: 0 <= i < |shape| ==> 0 <= index[i] < shape[i]
  }

  function Offset(index: seq<int>, strides: seq<int>): int
    requires |index| == |strides|
  {
    if index == [] then 0 else Times(index[0], strides[0]) + Offset(index[1..], strides[1..])
  }

  // The multi-index at a row-major position.
  function Unravel(p: int, shape: seq<int>): (index: seq<int>)
    requires Positive(shape)
    ensures |index| == |shape|
    decreases |shape|
  {
    if shape == [] then []
    else
      PositiveProduct(shape[1..]);
      [Quotient(p, Product(shape[1..]))] + Unravel(Remainder(p, Product(shape[1..])), shape[1..])
  }

  lemma {:induction false} PositiveProduct(shape: seq<int>)
    requires Positive(shape)
    ensures Product(shape) > 0
  {
    hide Times;
    if shape != [] {
      PositiveProduct(shape[1..]);
      Scaled(shape[0], Product(shape[1..]));
    }
  }

  lemma Scaled(a: int, b: int)
    requires a > 0 && b > 0
    ensures Times(a, b) > 0
  {
  }

  lemma InRangePositive(index: seq<int>, shape: seq<int>)
    requires InRange(index, shape)
    ensures Positive(shape)
  {
  }

  lemma Monotone(a: int, b: int, d: int)
    requires a <= b && d >= 0
    ensures Times(a, d) <= Times(b, d)
    ensures Times(0, d) == 0 && Times(b + 1, d) == Times(b, d) + d
  {
  }

  lemma DivisionAlgorithm(p: int, d: int)
    requires d > 0
    ensures p == Times(Quotient(p, d), d) + Remainder(p, d)
  {
  }

  lemma DivMod(q: int, r: int, d: int)
    requires 0 <= r < d
    ensures Quotient(Times(q, d) + r, d) == q && Remainder(Times(q, d) + r, d) == r
  {
    var x := Times(q, d) + r;
    var q', r' := Quotient(x, d), Remainder(x, d);
    DivisionAlgorithm(x, d);
    hide Times, Quotient, Remainder;
    if q' > q {
      Monotone(q + 1, q', d);
      Monotone(q, q, d);
    } else if q' < q {
      Monotone(q' + 1, q, d);
      Monotone(q', q', d);
    }
  }

  // In-range indices stay inside the product of the extents ...
  lemma {:induction false} OffsetBounds(index: seq<int>, shape: seq<int>)
    requires InRange(index, shape)
    ensures 0 <= Offset(index, RowMajor(shape)) < Product(shape)
  {
    hide Times;
    if shape != [] {
      var d := Product(shape[1..]);
      OffsetBounds(index[1..], shape[1..]);
      assert RowMajor(shape)[1..] == RowMajor(shape[1..]);
      Monotone(0, index[0], d);
      Monotone(index[0], index[0], d);
      Monotone(index[0] + 1, shape[0], d);
    }
  }

  lemma QuotientBounds(p: int, n: int, d: int)
    requires d > 0 && 0 <= p < Times(n, d)
    ensures 0 <= Quotient(p, d) < n
  {
    DivisionAlgorithm(p, d);
    var q := Quotient(p, d);
    hide Times, Quotient, Remainder;
    if q >= n {
      Monotone(n, q, d);
    } else if q < 0 {
      Monotone(q + 1, 0, d);
      Monotone(q, q, d);
    }
  }

  lemma Cons(head: int, tail: seq<int>, shape: seq<int>)
    requires shape != [] && 0 <= head < shape[0] && InRange(tail, shape[1..])
    ensures InRange([head] + tail, shape)
    ensures Offset([head] + tail, RowMajor(shape))
         == Times(head, Product(shape[1..])) + Offset(tail, RowMajor(shape[1..]))
  {
    hide Times, Product;
    assert RowMajor(shape)[1..] == RowMajor(shape[1..]);
    assert ([head] + tail)[1..] == tail;
  }

  // ... each position is reached ...
  lemma {:induction false} OffsetOfUnravel(p: int, shape: seq<int>)
    requires Positive(shape) && 0 <= p < Product(shape)
    ensures InRange(Unravel(p, shape), shape)
    ensures Offset(Unravel(p, shape), RowMajor(shape)) == p
    decreases |shape|
  {
    hide Times, Quotient, Remainder, Offset;
    EmptyOffset();
    if shape != [] {
      var d := Product(shape[1..]);
      PositiveProduct(shape[1..]);
      OffsetOfUnravel(Remainder(p, d), shape[1..]);
      QuotientBounds(p, shape[0], d);
      Cons(Quotient(p, d), Unravel(Remainder(p, d), shape[1..]), shape);
      DivisionAlgorithm(p, d);
    }
  }

  lemma EmptyOffset()
    ensures Offset([], []) == 0
  {
  }

  lemma UnravelCons(p: int, shape: seq<int>)
    requires shape != [] && Positive(shape) && Product(shape[1..]) > 0
    ensures var d := Product(shape[1..]);
      Positive(shape[1..]) && Unravel(p, shape) == [Quotient(p, d)] + Unravel(Remainder(p, d), shape[1..])
  {
    hide Quotient, Remainder;
  }

  // ... and by one index only: the row-major address map is a bijection.
  lemma {:induction false} UnravelOfOffset(index: seq<int>, shape: seq<int>)
    requires InRange(index, shape)
    ensures Positive(shape)
    ensures Unravel(Offset(index, RowMajor(shape)), shape) == index
  {
    hide Times, Quotient, Remainder;
    InRangePositive(index, shape);
    if shape != [] {
      var head, tail, rest := index[0], index[1..], shape[1..];
      var d, r := Product(rest), Offset(tail, RowMajor(rest));
      assert index == [head] + tail && InRange(tail, rest) && 0 <= head < shape[0];
      Cons(head, tail, shape);
      PositiveProduct(rest);
      UnravelCons(Times(head, d) + r, shape);
      hide *;
      OffsetBounds(tail, rest);
      UnravelOfOffset(tail, rest);
      DivMod(head, r, d);
    }
  }
}
