// Tensors over a flat storage, and the two functional writes the graph pass
// exchanges: as_strided_scatter, which writes through addresses, and
// slice_scatter, which is defined by logical indices.
module StridedTensors {
  import opened Wrappers
  import opened Strides

  datatype RawTensor = RawTensor(shape: seq<int>, strides: seq<int>, offset: int, storage: seq<real>)

  function Address(t: RawTensor, index: seq<int>): int
    requires |index| == |t.strides|
  {
    t.offset + Offset(index, t.strides)
  }

  // Every in-range index has an address inside the storage.
  ghost predicate WellFormed(t: RawTensor) {
    && |t.shape| == |t.strides|
    && (forall i :: 0 <= i < |t.shape| ==> t.shape[i] >= 0)
    && forall index :: InRange(index, t.shape) ==> 0 <= Address(t, index) < |t.storage|
  }

  type Tensor = t: RawTensor | WellFormed(t) witness RawTensor([0], [1], 0, [])

  function At(t: Tensor, index: seq<int>): real
    requires InRange(index, t.shape)
  {
    t.storage[Address(t, index)]
  }

  // is_contiguous: strides of axes of extent one do not matter, and a
  // tensor without elements is contiguous whatever its strides.
  predicate Contiguous(shape: seq<int>, strides: seq<int>)
    requires |shape| == |strides|
  {
    || Product(shape) == 0
    || forall i :: 0 <= i < |shape| ==> shape[i] == 1 || strides[i] == Product(shape[i + 1..])
  }

  // ---- as_strided_scatter ----

  ghost predicate Addressable(size: seq<int>, stride: seq<int>, offset: int, length: nat) {
    && |size| == |stride|
    && (forall i :: 0 <= i < |size| ==> size[i] >= 0)
    && forall index :: InRange(index, size) ==> 0 <= offset + Offset(index, stride) < length
  }

  // The first n elements of src, in row-major order, written at offset and
  // stride.
  ghost function Write(storage: seq<real>, src: Tensor, stride: seq<int>, offset: int, n: nat): (r: seq<real>)
    requires Addressable(src.shape, stride, offset, |storage|)
    requires n > 0 ==> Positive(src.shape)
    requires n <= Product(src.shape)
    ensures |r| == |storage|
  {
    if n == 0 then storage
    else
      var index := Unravel(n - 1, src.shape);
      OffsetOfUnravel(n - 1, src.shape);
      Write(storage, src, stride, offset, n - 1)[offset + Offset(index, stride) := At(src, index)]
  }

  lemma {:induction false} ProductOfExtents(shape: seq<int>)
    requires forall i :: 0 <= i < |shape| ==> shape[i] >= 0
    ensures Product(shape) >= 0
    ensures Product(shape) > 0 <==> Positive(shape)
  {
    if shape != [] {
      ProductOfExtents(shape[1..]);
      SignOfTimes(shape[0], Product(shape[1..]));
      assert Positive(shape) <==> shape[0] > 0 && Positive(shape[1..]) by {
        assert forall i :: 0 < i < |shape| ==> shape[i] == shape[1..][i - 1];
      }
    }
  }

  lemma SignOfTimes(a: int, b: int)
    requires a >= 0 && b >= 0
    ensures Times(a, b) >= 0
    ensures Times(a, b) > 0 <==> a > 0 && b > 0
  {
  }

  // A clone of the base, written through the view (size, stride, offset).
  // None is the run-time error of a shape mismatch or an address out of
  // the storage.
  ghost function AsStridedScatter(base: Tensor, src: Tensor, size: seq<int>, stride: seq<int>, offset: int)
    : Option<Tensor>
  {
    if src.shape == size && Addressable(size, stride, offset, |base.storage|) then
      ProductOfExtents(size);
      Some(base.(storage := Write(base.storage, src, stride, offset, Product(size))))
    else None
  }

  // ---- slice_scatter ----

  function Clamp(x: int, lo: int, hi: int): int {
    if x < lo then lo else if x > hi then hi else x
  }

  function SliceStart(start: int, extent: int): int {
    Clamp(if start < 0 then start + extent else start, 0, extent)
  }

  function SliceEnd(start: int, end: int, extent: int): int {
    Clamp(if end < 0 then end + extent else end, SliceStart(start, extent), extent)
  }

  function SliceLength(start: int, end: int, step: int, extent: int): int
    requires step > 0
  {
    (SliceEnd(start, end, extent) - SliceStart(start, extent) + step - 1) / step
  }

  // Positions of a slice are clamped to the axis, and negative ones count
  // from its end.
  lemma PositionsOfSlice(start: int, end: int, extent: int)
    requires extent >= 0
    ensures 0 <= SliceStart(start, extent) <= SliceEnd(start, end, extent) <= extent
    ensures 0 <= start <= end <= extent ==> SliceStart(start, extent) == start && SliceEnd(start, end, extent) == end
    ensures 0 <= start <= end < extent ==>
      SliceStart(start - extent, extent) == start && SliceEnd(start, end - extent, extent) == end
  {
  }

  // The index belongs to base[..., start:end:step, ...].
  predicate InSlice(index: seq<int>, axis: nat, start: int, end: int, step: int)
    requires axis < |index| && step > 0
  {
    start <= index[axis] < end && (index[axis] - start) % step == 0
  }

  // An index of the base inside the slice whose address is p, if any.
  ghost predicate Covers(base: RawTensor, axis: nat, start: int, end: int, step: int, p: int, index: seq<int>)
    requires axis < |base.shape| == |base.strides| && step > 0
  {
    InRange(index, base.shape) && InSlice(index, axis, start, end, step) && Address(base, index) == p
  }

  function SliceIndex(index: seq<int>, axis: nat, start: int, step: int): seq<int>
    requires axis < |index| && step > 0
  {
    index[axis := (index[axis] - start) / step]
  }

  // The element of the result at storage position p.
  ghost function SliceElement(base: Tensor, src: Tensor, axis: nat, start: int, end: int, step: int, p: nat): real
    requires axis < |base.shape| && step > 0 && p < |base.storage|
    requires 0 <= start <= end <= base.shape[axis]
    requires src.shape == base.shape[axis := (end - start + step - 1) / step]
  {
    if index: seq<int> :| Covers(base, axis, start, end, step, p, index)
    then
      CoveredInSource(base, src, axis, start, end, step, p, index);
      At(src, SliceIndex(index, axis, start, step))
    else base.storage[p]
  }

  lemma CoveredInSource(base: Tensor, src: Tensor, axis: nat, start: int, end: int, step: int, p: nat, index: seq<int>)
    requires axis < |base.shape| && step > 0
    requires 0 <= start <= end <= base.shape[axis]
    requires src.shape == base.shape[axis := (end - start + step - 1) / step]
    requires Covers(base, axis, start, end, step, p, index)
    ensures InRange(SliceIndex(index, axis, start, step), src.shape)
  {
    var x, n := index[axis] - start, end - start;
    assert x == (x / step) * step;
    assert n + step - 1 < ((n + step - 1) / step + 1) * step;
    if x / step >= (n + step - 1) / step {
      MulAtLeast((n + step - 1) / step, x / step, step);
    }
  }

  lemma MulAtLeast(a: int, b: int, d: int)
    requires a <= b && d > 0
    ensures a * d <= b * d && (a + 1) * d == a * d + d
  {
  }

  ghost function SliceScatter(base: Tensor, src: Tensor, axis: nat, start: int, end: int, step: int): Option<Tensor> {
    if axis < |base.shape| && step > 0 && base.shape[axis] >= 0
       && src.shape == base.shape[axis := SliceLength(start, end, step, base.shape[axis])]
    then
      var from, to := SliceStart(start, base.shape[axis]), SliceEnd(start, end, base.shape[axis]);
      Some(base.(storage := seq(|base.storage|, p requires 0 <= p < |base.storage| =>
        SliceElement(base, src, axis, from, to, step, p))))
    else None
  }

  // ---- Addresses of a contiguous tensor ----

  lemma {:induction false} OffsetShift(index: seq<int>, strides: seq<int>, axis: nat, delta: int)
    requires axis < |index| == |strides|
    ensures Offset(index[axis := index[axis] + delta], strides)
         == Offset(index, strides) + Times(delta, strides[axis])
  {
    var shifted := index[axis := index[axis] + delta];
    if axis == 0 {
      TimesSum(index[0], delta, strides[0]);
      hide Times;
      assert shifted[1..] == index[1..];
    } else {
      hide Times;
      OffsetShift(index[1..], strides[1..], axis - 1, delta);
      assert shifted[1..] == index[1..][axis - 1 := index[axis] + delta];
    }
  }

  lemma TimesSum(a: int, b: int, d: int)
    ensures Times(a + b, d) == Times(a, d) + Times(b, d)
  {
  }

  // In-range offsets are row-major offsets: the strides that may differ are
  // multiplied by index zero.
  lemma ContiguousOffset(index: seq<int>, shape: seq<int>, strides: seq<int>)
    requires |shape| == |strides| && Contiguous(shape, strides) && InRange(index, shape)
    ensures Offset(index, strides) == Offset(index, RowMajor(shape))
  {
    InRangePositive(index, shape);
    PositiveProduct(shape);
    RowMajorIsProducts(shape);
    OffsetAgrees(index, strides, RowMajor(shape));
  }

  // Contiguous means that every element is where row-major order puts it.
  lemma ContiguousMeans(shape: seq<int>, strides: seq<int>)
    requires |shape| == |strides| && forall i :: 0 <= i < |shape| ==> shape[i] >= 0
    ensures Contiguous(shape, strides) <==>
      forall index :: InRange(index, shape) ==> Offset(index, strides) == Offset(index, RowMajor(shape))
  {
    if Contiguous(shape, strides) {
      forall index | InRange(index, shape)
        ensures Offset(index, strides) == Offset(index, RowMajor(shape))
      {
        ContiguousOffset(index, shape, strides);
      }
    } else if forall index :: InRange(index, shape) ==> Offset(index, strides) == Offset(index, RowMajor(shape)) {
      RowMajorIsProducts(shape);
      NoEmptyAxis(shape);
      var i :| 0 <= i < |shape| && shape[i] != 1 && strides[i] != Product(shape[i + 1..]);
      var step := AxisStep(|shape|, i);
      OffsetOfStep(|shape|, i, strides);
      OffsetOfStep(|shape|, i, RowMajor(shape));
      assert InRange(step, shape);
    }
  }

  lemma {:induction false} NoEmptyAxis(shape: seq<int>)
    requires Product(shape) != 0
    ensures forall i :: 0 <= i < |shape| ==> shape[i] != 0
  {
    if shape != [] {
      assert Times(0, Product(shape[1..])) == 0 && Times(shape[0], 0) == 0;
      NoEmptyAxis(shape[1..]);
      assert forall i :: 0 < i < |shape| ==> shape[i] == shape[1..][i - 1];
    }
  }

  // One step along axis i.
  function AxisStep(n: nat, i: nat): (index: seq<int>)
    requires i < n
    ensures |index| == n && forall k :: 0 <= k < n ==> index[k] == if k == i then 1 else 0
  {
    seq(n, k => if k == i then 1 else 0)
  }

  lemma {:induction false} OffsetOfStep(n: nat, i: nat, strides: seq<int>)
    requires i < n == |strides|
    ensures Offset(AxisStep(n, i), strides) == strides[i]
  {
    var index := AxisStep(n, i);
    if i == 0 {
      assert forall k :: 0 <= k < n - 1 ==> index[1..][k] == 0;
      OffsetOfZeros(index[1..], strides[1..]);
      assert Times(1, strides[0]) == strides[0];
    } else {
      assert index[1..] == AxisStep(n - 1, i - 1);
      OffsetOfStep(n - 1, i - 1, strides[1..]);
      assert Times(0, strides[0]) == 0;
    }
  }

  lemma {:induction false} OffsetOfZeros(index: seq<int>, strides: seq<int>)
    requires |index| == |strides| && forall k :: 0 <= k < |index| ==> index[k] == 0
    ensures Offset(index, strides) == 0
  {
    if index != [] {
      OffsetOfZeros(index[1..], strides[1..]);
      assert Times(0, strides[0]) == 0;
    }
  }

  lemma {:induction false} OffsetAgrees(index: seq<int>, a: seq<int>, b: seq<int>)
    requires |index| == |a| == |b|
    requires forall i :: 0 <= i < |index| ==> index[i] == 0 || a[i] == b[i]
    ensures Offset(index, a) == Offset(index, b)
  {
    if index != [] {
      OffsetAgrees(index[1..], a[1..], b[1..]);
      assert Times(0, a[0]) == Times(0, b[0]);
    }
  }

  lemma AddressInjective(t: Tensor, i: seq<int>, j: seq<int>)
    requires Contiguous(t.shape, t.strides)
    requires InRange(i, t.shape) && InRange(j, t.shape) && Address(t, i) == Address(t, j)
    ensures i == j
  {
    ContiguousOffset(i, t.shape, t.strides);
    ContiguousOffset(j, t.shape, t.strides);
    UnravelOfOffset(i, t.shape);
    UnravelOfOffset(j, t.shape);
  }

  // ---- What the write loop leaves at a position ----

  function Target(shape: seq<int>, stride: seq<int>, offset: int, k: int): int
    requires |shape| == |stride| && Positive(shape)
  {
    offset + Offset(Unravel(k, shape), stride)
  }

  lemma {:induction false} Untouched(storage: seq<real>, src: Tensor, stride: seq<int>, offset: int, n: nat, p: nat)
    requires Addressable(src.shape, stride, offset, |storage|)
    requires n > 0 ==> Positive(src.shape)
    requires n <= Product(src.shape) && p < |storage|
    requires forall k :: 0 <= k < n ==> Target(src.shape, stride, offset, k) != p
    ensures Write(storage, src, stride, offset, n)[p] == storage[p]
  {
    if n > 0 {
      OffsetOfUnravel(n - 1, src.shape);
      Untouched(storage, src, stride, offset, n - 1, p);
      assert Target(src.shape, stride, offset, n - 1) != p;
    }
  }

  lemma {:induction false} WrittenAt(storage: seq<real>, src: Tensor, stride: seq<int>, offset: int, n: nat, k: nat)
    requires Addressable(src.shape, stride, offset, |storage|)
    requires k < n <= Product(src.shape) && Positive(src.shape)
    requires forall l :: k < l < n ==> Target(src.shape, stride, offset, l) != Target(src.shape, stride, offset, k)
    ensures InRange(Unravel(k, src.shape), src.shape)
    ensures 0 <= Target(src.shape, stride, offset, k) < |storage|
    ensures Write(storage, src, stride, offset, n)[Target(src.shape, stride, offset, k)]
         == At(src, Unravel(k, src.shape))
  {
    OffsetOfUnravel(k, src.shape);
    OffsetOfUnravel(n - 1, src.shape);
    if k < n - 1 {
      WrittenAt(storage, src, stride, offset, n - 1, k);
      assert Target(src.shape, stride, offset, n - 1) != Target(src.shape, stride, offset, k);
    }
  }

  // ---- The guards of the pass ----

  // What the guards establish about a write of the given size at the strides
  // of the base.
  predicate SingleAxisSlice(base: RawTensor, size: seq<int>, offset: int, axis: nat, start: int, end: int) {
    && |size| == |base.shape| == |base.strides| && axis < |size|
    && Contiguous(base.shape, base.strides) && base.offset == 0
    && (forall i :: 0 <= i < |size| && i != axis ==> size[i] == base.shape[i])
    && offset == Times(start, base.strides[axis])
    && end == start + size[axis]
    && 0 <= start <= end <= base.shape[axis]
  }

  function Shift(index: seq<int>, axis: nat, start: int): seq<int>
    requires axis < |index|
  {
    index[axis := index[axis] + start]
  }

  lemma ShiftedAddress(base: Tensor, size: seq<int>, offset: int, axis: nat, start: int, end: int, j: seq<int>)
    requires SingleAxisSlice(base, size, offset, axis, start, end)
    requires InRange(j, size)
    ensures InRange(Shift(j, axis, start), base.shape)
    ensures Address(base, Shift(j, axis, start)) == offset + Offset(j, base.strides)
    ensures InSlice(Shift(j, axis, start), axis, start, end, 1)
    ensures SliceIndex(Shift(j, axis, start), axis, start, 1) == j
  {
    OffsetShift(j, base.strides, axis, start);
  }

  lemma UnshiftedInRange(base: Tensor, size: seq<int>, offset: int, axis: nat, start: int, end: int, index: seq<int>)
    requires SingleAxisSlice(base, size, offset, axis, start, end)
    requires InRange(index, base.shape) && InSlice(index, axis, start, end, 1)
    ensures InRange(SliceIndex(index, axis, start, 1), size)
    ensures Shift(SliceIndex(index, axis, start, 1), axis, start) == index
  {
  }

  lemma TargetsDiffer(base: Tensor, size: seq<int>, offset: int, axis: nat, start: int, end: int, k: nat, l: nat)
    requires SingleAxisSlice(base, size, offset, axis, start, end)
    requires Positive(size) && k < l < Product(size)
    ensures Target(size, base.strides, offset, k) != Target(size, base.strides, offset, l)
  {
    OffsetOfUnravel(k, size);
    OffsetOfUnravel(l, size);
    var i, j := Unravel(k, size), Unravel(l, size);
    ShiftedAddress(base, size, offset, axis, start, end, i);
    ShiftedAddress(base, size, offset, axis, start, end, j);
    if Target(size, base.strides, offset, k) == Target(size, base.strides, offset, l) {
      AddressInjective(base, Shift(i, axis, start), Shift(j, axis, start));
    }
  }

  // One storage position after both writes.
  lemma SameElement(base: Tensor, src: Tensor, size: seq<int>, offset: int, axis: nat, start: int, end: int, p: nat)
    requires SingleAxisSlice(base, size, offset, axis, start, end)
    requires src.shape == size == base.shape[axis := end - start] && p < |base.storage|
    requires Addressable(size, base.strides, offset, |base.storage|)
    requires 0 <= Product(size) && (Product(size) > 0 ==> Positive(size))
    ensures Write(base.storage, src, base.strides, offset, Product(size))[p]
         == SliceElement(base, src, axis, start, end, 1, p)
  {
    if index: seq<int> :| Covers(base, axis, start, end, 1, p, index) {
      forall other: seq<int> | Covers(base, axis, start, end, 1, p, other)
        ensures other == index
      {
        AddressInjective(base, other, index);
      }
      CoveredElement(base, src, size, offset, axis, start, end, p, index);
    } else {
      UncoveredElement(base, src, size, offset, axis, start, end, p);
    }
  }

  // A position that belongs to the slice gets the element of the source there.
  lemma CoveredElement(base: Tensor, src: Tensor, size: seq<int>, offset: int, axis: nat, start: int, end: int, p: nat,
                       index: seq<int>)
    requires SingleAxisSlice(base, size, offset, axis, start, end)
    requires src.shape == size && p < |base.storage|
    requires Addressable(size, base.strides, offset, |base.storage|)
    requires 0 <= Product(size) && (Product(size) > 0 ==> Positive(size))
    requires Covers(base, axis, start, end, 1, p, index)
    ensures InRange(SliceIndex(index, axis, start, 1), size)
    ensures Write(base.storage, src, base.strides, offset, Product(size))[p] == At(src, SliceIndex(index, axis, start, 1))
  {
    UnshiftedInRange(base, size, offset, axis, start, end, index);
    var j := SliceIndex(index, axis, start, 1);
    ShiftedAddress(base, size, offset, axis, start, end, j);
    OffsetBounds(j, size);
    UnravelOfOffset(j, size);
    var k := Offset(j, RowMajor(size));
    assert Target(size, base.strides, offset, k) == p;
    forall l | k < l < Product(size)
      ensures Target(size, base.strides, offset, l) != p
    {
      TargetsDiffer(base, size, offset, axis, start, end, k, l);
    }
    hide Write, Target, SingleAxisSlice, Covers, SliceIndex;
    WrittenAt(base.storage, src, base.strides, offset, Product(size), k);
  }

  // Any other position keeps the element of the base.
  lemma UncoveredElement(base: Tensor, src: Tensor, size: seq<int>, offset: int, axis: nat, start: int, end: int, p: nat)
    requires SingleAxisSlice(base, size, offset, axis, start, end)
    requires src.shape == size && p < |base.storage|
    requires Addressable(size, base.strides, offset, |base.storage|)
    requires 0 <= Product(size) && (Product(size) > 0 ==> Positive(size))
    requires !exists index: seq<int> :: Covers(base, axis, start, end, 1, p, index)
    ensures Write(base.storage, src, base.strides, offset, Product(size))[p] == base.storage[p]
  {
    forall k | 0 <= k < Product(size)
      ensures Target(size, base.strides, offset, k) != p
    {
      OffsetOfUnravel(k, size);
      ShiftedAddress(base, size, offset, axis, start, end, Unravel(k, size));
      assert !Covers(base, axis, start, end, 1, p, Shift(Unravel(k, size), axis, start));
    }
    Untouched(base.storage, src, base.strides, offset, Product(size), p);
  }

  // Under the guards, the strided write and the slice write are the same
  // operation on every source, run-time errors included.
  lemma StridedWriteIsSliceWrite(base: Tensor, src: Tensor, size: seq<int>, offset: int,
                                 axis: nat, start: int, end: int)
    requires SingleAxisSlice(base, size, offset, axis, start, end)
    ensures AsStridedScatter(base, src, size, base.strides, offset) == SliceScatter(base, src, axis, start, end, 1)
  {
    assert SliceLength(start, end, 1, base.shape[axis]) == size[axis];
    assert base.shape[axis := size[axis]] == size;
    forall j | InRange(j, size)
      ensures 0 <= offset + Offset(j, base.strides) < |base.storage|
    {
      ShiftedAddress(base, size, offset, axis, start, end, j);
    }
    if src.shape == size {
      ProductOfExtents(size);
      var a := AsStridedScatter(base, src, size, base.strides, offset).value;
      var b := SliceScatter(base, src, axis, start, end, 1).value;
      forall p | 0 <= p < |base.storage|
        ensures a.storage[p] == b.storage[p]
      {
        SameElement(base, src, size, offset, axis, start, end, p);
      }
      assert a.storage == b.storage;
    }
  }

  // Reading a slice write back: elements of the slice come from the source,
  // every other element of the base is preserved.
  lemma SliceWriteReadsBack(base: Tensor, src: Tensor, axis: nat, start: int, end: int, step: int, index: seq<int>)
    requires Contiguous(base.shape, base.strides)
    requires SliceScatter(base, src, axis, start, end, step).Some? && InRange(index, base.shape)
    ensures var result := SliceScatter(base, src, axis, start, end, step).value;
      var from, to := SliceStart(start, base.shape[axis]), SliceEnd(start, end, base.shape[axis]);
      && result.shape == base.shape
      && (InSlice(index, axis, from, to, step) ==>
          && InRange(SliceIndex(index, axis, from, step), src.shape)
          && At(result, index) == At(src, SliceIndex(index, axis, from, step)))
      && (!InSlice(index, axis, from, to, step) ==> At(result, index) == At(base, index))
  {
    var from, to := SliceStart(start, base.shape[axis]), SliceEnd(start, end, base.shape[axis]);
    var p := Address(base, index);
    forall other: seq<int> | Covers(base, axis, from, to, step, p, other)
      ensures other == index
    {
      AddressInjective(base, other, index);
    }
    if InSlice(index, axis, from, to, step) {
      assert Covers(base, axis, from, to, step, p, index);
      CoveredInSource(base, src, axis, from, to, step, p, index);
    }
  }

  lemma OneAxis(index: seq<int>, extent: int)
    requires InRange(index, [extent])
    ensures index == [index[0]] && 0 <= index[0] < extent && Offset(index, [1]) == index[0]
  {
    assert index[1..] == [] && [1][1..] == [] && [extent][1..] == [];
    assert Times(index[0], 1) == index[0];
  }

  lemma OneAxisAddress(t: RawTensor, index: seq<int>, extent: int)
    requires t.shape == [extent] && t.strides == [1] && InRange(index, t.shape)
    ensures index == [index[0]] && 0 <= index[0] < extent && Address(t, index) == t.offset + index[0]
  {
    OneAxis(index, extent);
  }

  // The guard on the storage offset is needed: with a base that starts later
  // in its storage the two writes differ.
  lemma OffsetGuardNeeded(v: real)
    requires v != 0.0
    ensures var base, src := RawTensor([2], [1], 1, [0.0, 0.0, 0.0]), RawTensor([1], [1], 0, [v]);
      && WellFormed(base) && WellFormed(src)
      && AsStridedScatter(base, src, [1], [1], 1) == Some(base.(storage := [0.0, v, 0.0]))
      && SliceScatter(base, src, 0, 1, 2, 1) == Some(base.(storage := [0.0, 0.0, v]))
  {
    var base, src := RawTensor([2], [1], 1, [0.0, 0.0, 0.0]), RawTensor([1], [1], 0, [v]);
    forall t, index: seq<int> | t in {base, src} && InRange(index, t.shape)
      ensures index == [index[0]] && Address(t, index) == t.offset + index[0] && 0 <= index[0] < t.shape[0]
    {
      OneAxisAddress(t, index, t.shape[0]);
    }
    StridedAtOne(base, src, v);
    SliceAtOne(base, src, v);
  }

  lemma StridedAtOne(base: Tensor, src: Tensor, v: real)
    requires base == RawTensor([2], [1], 1, [0.0, 0.0, 0.0]) && src == RawTensor([1], [1], 0, [v])
    ensures AsStridedScatter(base, src, [1], [1], 1) == Some(base.(storage := [0.0, v, 0.0]))
  {
    forall index: seq<int> | InRange(index, [1])
      ensures Offset(index, [1]) == 0 && index == [0]
    {
      OneAxis(index, 1);
    }
    assert [1][1..] == [] && Times(1, 1) == 1 && Product([1]) == 1;
    OffsetOfUnravel(0, [1]);
    assert InRange([0], [1]) && Unravel(0, [1]) == [0] && src.shape == [1];
    assert At(src, [0]) == v by { OneAxisAddress(src, [0], 1); }
    assert Addressable(src.shape, [1], 1, |base.storage|);
    assert Write(base.storage, src, [1], 1, 0) == base.storage;
    assert Write(base.storage, src, [1], 1, 1) == base.storage[1 := v];
    assert base.storage[1 := v] == [0.0, v, 0.0];
  }

  lemma SliceAtOne(base: Tensor, src: Tensor, v: real)
    requires base == RawTensor([2], [1], 1, [0.0, 0.0, 0.0]) && src == RawTensor([1], [1], 0, [v])
    ensures SliceScatter(base, src, 0, 1, 2, 1) == Some(base.(storage := [0.0, 0.0, v]))
  {
    forall p: int, index: seq<int> | Covers(base, 0, 1, 2, 1, p, index)
      ensures index == [1] && p == 2
    {
      OneAxisAddress(base, index, 2);
    }
    OneAxisAddress(base, [1], 2);
    OneAxisAddress(src, [0], 1);
    assert Covers(base, 0, 1, 2, 1, 2, [1]);
    assert SliceIndex([1], 0, 1, 1) == [0];
    assert [2][0 := 1] == [1];
    var r := SliceScatter(base, src, 0, 1, 2, 1).value;
    assert r.storage == [0.0, 0.0, v];
  }
}
