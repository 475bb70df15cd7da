// The graph pass that expresses single-axis strided writes as slice writes.
module SliceCanonicalizer {
  import opened Wrappers
  import opened Strides
  import opened StridedTensors

  // A dimension known as an integer, or a symbolic one.
  datatype Dim = Known(value: int) | Symbolic(name: string)

  datatype Arg =
    | NodeArg(node: Node)
    | DimArg(dim: Dim)
    | DimsArg(dims: seq<Dim>)
    | NoneArg

  datatype Operator = AsStridedScatterOp | SliceScatterOp | OtherOp(name: string)

  // The fake tensor the exporter attaches to a node.
  datatype Meta = NoTensor | TensorMeta(shape: seq<Dim>, strides: seq<Dim>, storageOffset: Dim)

  class Node {
    const meta: Meta
    var target: Operator
    var args: seq<Arg>
    var kwargs: map<string, Arg>

    constructor (meta: Meta, target: Operator, args: seq<Arg>, kwargs: map<string, Arg>)
      ensures this.meta == meta && this.target == target && this.args == args && this.kwargs == kwargs
    {
      this.meta := meta;
      this.target := target;
      this.args := args;
      this.kwargs := kwargs;
    }
  }

  // What a node does at one moment of the pass.
  datatype Instruction = Instruction(target: Operator, args: seq<Arg>, kwargs: map<string, Arg>)

  function Content(node: Node): Instruction
    reads node
  {
    Instruction(node.target, node.args, node.kwargs)
  }

  function Program(nodes: seq<Node>): (program: seq<Instruction>)
    reads nodes
    ensures |program| == |nodes|
    ensures forall i :: 0 <= i < |nodes| ==> program[i] == Content(nodes[i])
  {
    if nodes == [] then [] else [Content(nodes[0])] + Program(nodes[1..])
  }

  // ---- The guards ----

  predicate AllKnown(dims: seq<Dim>) {
    forall d :: d in dims ==> d.Known?
  }

  function Ints(dims: seq<Dim>): seq<int>
    requires AllKnown(dims)
  {
    seq(|dims|, i requires 0 <= i < |dims| => dims[i].value)
  }

  function DifferingAxes(size: seq<int>, shape: seq<int>): (axes: seq<nat>)
    requires |size| == |shape|
    ensures forall a :: a in axes <==> 0 <= a < |size| && size[a] != shape[a]
    ensures forall i, j :: 0 <= i < j < |axes| ==> axes[i] < axes[j]
  {
    if size == [] then []
    else
      var n := |size| - 1;
      var front := DifferingAxes(size[..n], shape[..n]);
      assert forall i :: 0 <= i < |front| ==> front[i] in front;
      if size[n] != shape[n] then front + [n] else front
  }

  // The offset operand: the fifth argument if there is one, else the keyword,
  // else the storage offset of the base; None when it is not a dimension.
  function OffsetOperand(args: seq<Arg>, kwargs: map<string, Arg>, base: Dim): Option<Dim> {
    var given :=
      if |args| > 4 then args[4]
      else if "storage_offset" in kwargs then kwargs["storage_offset"]
      else NoneArg;
    match given
    case NoneArg => Some(base)
    case DimArg(d) => Some(d)
    case _ => None
  }

  // The operands as the operator schema types them.
  predicate Typed(i: Instruction) {
    i.target == AsStridedScatterOp && |i.args| >= 4 ==> i.args[2].DimsArg? && i.args[3].DimsArg?
  }

  datatype Slice = Slice(base: Arg, values: Arg, axis: nat, start: int, end: int)

  // The slice a node is turned into; None when some guard sends the pass on
  // to the next node.
  function SliceOf(i: Instruction): Option<Slice>
    requires Typed(i)
  {
    if i.target != AsStridedScatterOp || |i.args| < 4 then None
    else if !i.args[0].NodeArg? || i.args[0].node.meta.NoTensor? then None
    else
      var tensor, size, stride := i.args[0].node.meta, i.args[2].dims, i.args[3].dims;
      var offset := OffsetOperand(i.args, i.kwargs, tensor.storageOffset);
      if offset.None? || !AllKnown(tensor.shape + tensor.strides + size + stride + [offset.value, tensor.storageOffset])
      then None
      else SliceOfInts(i, Ints(tensor.shape), Ints(tensor.strides), Ints(size), Ints(stride),
                       offset.value.value, tensor.storageOffset.value)
  }

  function SliceOfInts(i: Instruction, shape: seq<int>, strides: seq<int>, size: seq<int>, stride: seq<int>,
                       offset: int, storageOffset: int): Option<Slice>
    requires |i.args| >= 4
  {
    if |shape| != |strides| || !Contiguous(shape, strides) || storageOffset != 0 then None
    else if |size| != |shape| || stride != strides then None
    else
      var axes := DifferingAxes(size, shape);
      if |axes| != 1 then None
      else
        var axis := axes[0];
        assert axis in axes;
        if strides[axis] <= 0 || offset % strides[axis] != 0 then None
        else
          var start := offset / strides[axis];
          var end := start + size[axis];
          if 0 <= start <= end <= shape[axis] then Some(Slice(i.args[0], i.args[1], axis, start, end)) else None
  }

  // slice_scatter(base, values, axis, start, end, 1)
  function SliceWrite(base: Arg, values: Arg, axis: int, start: int, end: int): Instruction {
    Instruction(SliceScatterOp,
                [base, values, DimArg(Known(axis)), DimArg(Known(start)), DimArg(Known(end)), DimArg(Known(1))],
                map[])
  }

  function Rewritten(i: Instruction): Instruction
    requires Typed(i)
  {
    match SliceOf(i)
    case None => i
    case Some(s) => SliceWrite(s.base, s.values, s.axis, s.start, s.end)
  }

  // The body of the pass; every return leaves the node alone but the last.
  method CanonicalizeNode(node: Node)
    requires Typed(Content(node))
    modifies node
    ensures Content(node) == Rewritten(old(Content(node)))
  {
    hide Contiguous, Ints, DifferingAxes, OffsetOperand;
    if node.target != AsStridedScatterOp {
      return;
    }
    if |node.args| < 4 {
      return;
    }
    var base, values, size, stride := node.args[0], node.args[1], node.args[2].dims, node.args[3].dims;
    if !base.NodeArg? || base.node.meta.NoTensor? {
      return;
    }
    var tensor := base.node.meta;
    var operand := OffsetOperand(node.args, node.kwargs, tensor.storageOffset);
    if operand.None? ||
       !AllKnown(tensor.shape + tensor.strides + size + stride + [operand.value, tensor.storageOffset]) {
      return;
    }
    var shape, strides := Ints(tensor.shape), Ints(tensor.strides);
    var sizes, steps, offset := Ints(size), Ints(stride), operand.value.value;
    if |shape| != |strides| || !Contiguous(shape, strides) || tensor.storageOffset.value != 0 {
      return;
    }
    if |sizes| != |shape| || steps != strides {
      return;
    }
    var axes := DifferingAxes(sizes, shape);
    if |axes| != 1 {
      return;
    }
    var axis := axes[0];
    assert axis in axes;
    if strides[axis] <= 0 || offset % strides[axis] != 0 {
      return;
    }
    var start := offset / strides[axis];
    var end := start + sizes[axis];
    if !(0 <= start <= end <= shape[axis]) {
      return;
    }
    node.target := SliceScatterOp;
    node.args := [base, values, DimArg(Known(axis)), DimArg(Known(start)), DimArg(Known(end)), DimArg(Known(1))];
    node.kwargs := map[];
  }

  method CanonicalizeStridedSlices(nodes: seq<Node>)
    requires forall i, j :: 0 <= i < j < |nodes| ==> nodes[i] != nodes[j]
    requires forall i :: 0 <= i < |nodes| ==> Typed(Content(nodes[i]))
    modifies nodes
    ensures forall i :: 0 <= i < |nodes| ==> Content(nodes[i]) == Rewritten(old(Content(nodes[i])))
    ensures forall run: Run :: MetaHolds(nodes, old(Program(nodes)), run) ==>
      Results(nodes, Program(nodes), run) == Results(nodes, old(Program(nodes)), run)
  {
    for k := 0 to |nodes|
      invariant forall i :: 0 <= i < k ==> Content(nodes[i]) == Rewritten(old(Content(nodes[i])))
      invariant forall i :: k <= i < |nodes| ==> Content(nodes[i]) == old(Content(nodes[i]))
    {
      CanonicalizeNode(nodes[k]);
    }
    forall run: Run | MetaHolds(nodes, old(Program(nodes)), run)
      ensures Results(nodes, Program(nodes), run) == Results(nodes, old(Program(nodes)), run)
    {
      PassPreservesMeaning(nodes, old(Program(nodes)), Program(nodes), run);
    }
  }

  // ---- What a graph computes ----

  // Run-time values; an absent value is a node that failed.
  datatype Value = TensorValue(tensor: Tensor) | OtherValue(id: int)
  datatype Operand = ValueOperand(value: Option<Value>) | IntOperand(i: int) | IntsOperand(ints: seq<int>) | NoOperand

  // One execution: the size variables, and what every operator outside this
  // pass returns for a node (its position identifies inputs and parameters).
  datatype Run = Run(symbols: string -> int, other: (nat, string, seq<Operand>, map<string, Operand>) -> Option<Value>)

  function DimValue(d: Dim, run: Run): int {
    match d case Known(v) => v case Symbolic(name) => run.symbols(name)
  }

  function DimValues(dims: seq<Dim>, run: Run): seq<int> {
    seq(|dims|, i requires 0 <= i < |dims| => DimValue(dims[i], run))
  }

  type Env = map<Node, Option<Value>>

  function Evaluate(a: Arg, env: Env, run: Run): Operand {
    match a
    case NodeArg(node) => ValueOperand(if node in env then env[node] else None)
    case DimArg(d) => IntOperand(DimValue(d, run))
    case DimsArg(ds) => IntsOperand(DimValues(ds, run))
    case NoneArg => NoOperand
  }

  function EvaluateAll(args: seq<Arg>, env: Env, run: Run): seq<Operand> {
    seq(|args|, i requires 0 <= i < |args| => Evaluate(args[i], env, run))
  }

  predicate IsTensor(o: Operand) {
    o.ValueOperand? && o.value.Some? && o.value.value.TensorValue?
  }

  ghost function Wrapped(t: Option<Tensor>): Option<Value> {
    match t case None => None case Some(v) => Some(TensorValue(v))
  }

  // as_strided_scatter(base, src, size, stride, storage_offset=None)
  ghost function RunStrided(i: Instruction, args: seq<Operand>, env: Env, run: Run): Option<Value>
    requires |args| == |i.args|
  {
    if |args| >= 4 && IsTensor(args[0]) && IsTensor(args[1]) && args[2].IntsOperand? && args[3].IntsOperand? then
      var base := args[0].value.value.tensor;
      var given :=
        if |args| > 4 then args[4]
        else if "storage_offset" in i.kwargs then Evaluate(i.kwargs["storage_offset"], env, run)
        else NoOperand;
      match given
      case NoOperand =>
        Wrapped(AsStridedScatter(base, args[1].value.value.tensor, args[2].ints, args[3].ints, base.offset))
      case IntOperand(offset) =>
        Wrapped(AsStridedScatter(base, args[1].value.value.tensor, args[2].ints, args[3].ints, offset))
      case _ => None
    else None
  }

  // slice_scatter(base, src, dim, start, end, step) with all operands given.
  ghost function RunSlice(args: seq<Operand>): Option<Value> {
    if |args| == 6 && IsTensor(args[0]) && IsTensor(args[1])
       && args[2].IntOperand? && args[2].i >= 0 && args[3].IntOperand? && args[4].IntOperand? && args[5].IntOperand?
    then Wrapped(SliceScatter(args[0].value.value.tensor, args[1].value.value.tensor,
                              args[2].i, args[3].i, args[4].i, args[5].i))
    else None
  }

  function NamedOperands(kwargs: map<string, Arg>, env: Env, run: Run): map<string, Operand> {
    map name | name in kwargs :: Evaluate(kwargs[name], env, run)
  }

  ghost function Execute(position: nat, i: Instruction, env: Env, run: Run): Option<Value> {
    var args := EvaluateAll(i.args, env, run);
    match i.target
    case AsStridedScatterOp =>
      if |i.args| >= 4 then RunStrided(i, args, env, run)
      else run.other(position, "as_strided_scatter", args, NamedOperands(i.kwargs, env, run))
    case SliceScatterOp =>
      if |i.args| == 6 then RunSlice(args)
      else run.other(position, "slice_scatter", args, NamedOperands(i.kwargs, env, run))
    case OtherOp(name) => run.other(position, name, args, NamedOperands(i.kwargs, env, run))
  }

  // The values of all nodes, computed in list order.
  ghost function Results(nodes: seq<Node>, program: seq<Instruction>, run: Run): Env
    requires |nodes| == |program|
  {
    if nodes == [] then map[]
    else
      var k := |nodes| - 1;
      var env := Results(nodes[..k], program[..k], run);
      env[nodes[k] := Execute(k, program[k], env, run)]
  }

  // The attached metadata describes the tensor a node really produces.
  ghost predicate Describes(meta: Meta, value: Option<Value>, run: Run) {
    meta.TensorMeta? && value.Some? && value.value.TensorValue? ==>
      var t := value.value.tensor;
      && DimValues(meta.shape, run) == t.shape
      && DimValues(meta.strides, run) == t.strides
      && DimValue(meta.storageOffset, run) == t.offset
  }

  ghost predicate MetaHolds(nodes: seq<Node>, program: seq<Instruction>, run: Run)
    requires |nodes| == |program|
  {
    forall k :: 0 <= k <= |nodes| ==> EnvDescribed(Results(nodes[..k], program[..k], run), run)
  }

  ghost predicate EnvDescribed(env: Env, run: Run) {
    forall node :: node in env ==> Describes(node.meta, env[node], run)
  }

  // ---- Preservation ----

  lemma KnownDims(dims: seq<Dim>, run: Run)
    requires AllKnown(dims)
    ensures DimValues(dims, run) == Ints(dims)
  {
    forall i | 0 <= i < |dims|
      ensures DimValues(dims, run)[i] == Ints(dims)[i]
    {
      assert dims[i] in dims;
    }
  }

  lemma AllKnownParts(a: seq<Dim>, b: seq<Dim>, c: seq<Dim>, d: seq<Dim>, e: Dim, f: Dim)
    requires AllKnown(a + b + c + d + [e, f])
    ensures AllKnown(a) && AllKnown(b) && AllKnown(c) && AllKnown(d) && e.Known? && f.Known?
  {
    var all := a + b + c + d + [e, f];
    assert forall x :: x in a || x in b || x in c || x in d || x == e || x == f ==> x in all;
  }

  lemma SliceIsSingleAxis(i: Instruction, shape: seq<int>, strides: seq<int>, size: seq<int>, stride: seq<int>,
                          offset: int, base: RawTensor)
    requires |i.args| >= 4
    requires base.shape == shape && base.strides == strides && base.offset == 0
    requires SliceOfInts(i, shape, strides, size, stride, offset, 0).Some?
    ensures var s := SliceOfInts(i, shape, strides, size, stride, offset, 0).value;
      && s.base == i.args[0] && s.values == i.args[1] && stride == strides
      && SingleAxisSlice(base, size, offset, s.axis, s.start, s.end)
  {
    var axes := DifferingAxes(size, shape);
    var axis := axes[0];
    assert axis in axes;
    forall k | 0 <= k < |size| && k != axis
      ensures size[k] == shape[k]
    {
      assert k !in axes;
    }
    assert offset == Times(offset / strides[axis], strides[axis]);
  }

  // The pass finds the slice whenever there is one to find: the guards hold,
  // and give this axis, start and end, exactly for a write that is the slice
  // of the base along one axis that it does not cover.
  lemma SliceExactlyWhen(i: Instruction, size: seq<int>, stride: seq<int>, offset: int, base: RawTensor,
                         axis: nat, start: int, end: int)
    requires |i.args| >= 4 && base.offset == 0 && |base.shape| == |base.strides|
    ensures SliceOfInts(i, base.shape, base.strides, size, stride, offset, 0)
            == Some(Slice(i.args[0], i.args[1], axis, start, end)) <==>
      && stride == base.strides && SingleAxisSlice(base, size, offset, axis, start, end)
      && size[axis] != base.shape[axis] && base.strides[axis] > 0
  {
    var found := SliceOfInts(i, base.shape, base.strides, size, stride, offset, 0);
    if found == Some(Slice(i.args[0], i.args[1], axis, start, end)) {
      SliceIsSingleAxis(i, base.shape, base.strides, size, stride, offset, base);
      assert DifferingAxes(size, base.shape)[0] in DifferingAxes(size, base.shape);
    }
    if stride == base.strides && SingleAxisSlice(base, size, offset, axis, start, end)
       && size[axis] != base.shape[axis] && base.strides[axis] > 0 {
      SliceIsFound(i, size, offset, base, axis, start, end);
    }
  }

  // dims are exactly these integers, none of them symbolic.
  predicate AreInts(dims: seq<Dim>, ints: seq<int>) {
    |ints| == |dims| && forall k :: 0 <= k < |dims| ==> dims[k] == Known(ints[k])
  }

  // The operand is this integer, or left open where the base has it.
  predicate IsOffset(operand: Arg, base: Dim, offset: int) {
    operand == DimArg(Known(offset)) || (operand == NoneArg && base == Known(offset))
  }

  // The node writes through addresses to a base whose metadata are these
  // integers; the offset is the fifth argument, else the keyword, else the
  // base's own.
  predicate WritesAt(i: Instruction, shape: seq<int>, strides: seq<int>, size: seq<int>, stride: seq<int>, offset: int,
                     baseOffset: int) {
    && i.target == AsStridedScatterOp && |i.args| >= 4
    && i.args[0].NodeArg? && i.args[0].node.meta.TensorMeta?
    && i.args[2].DimsArg? && i.args[3].DimsArg?
    && var meta := i.args[0].node.meta;
    && AreInts(meta.shape, shape) && AreInts(meta.strides, strides) && meta.storageOffset == Known(baseOffset)
    && AreInts(i.args[2].dims, size) && AreInts(i.args[3].dims, stride)
    && (|i.args| > 4 ==> IsOffset(i.args[4], meta.storageOffset, offset))
    && (|i.args| == 4 && "storage_offset" in i.kwargs ==>
          IsOffset(i.kwargs["storage_offset"], meta.storageOffset, offset))
    && (|i.args| == 4 && "storage_offset" !in i.kwargs ==> meta.storageOffset == Known(offset))
  }

  // Such a write is the slice of its base along one axis it does not cover.
  predicate IsSliceWrite(shape: seq<int>, strides: seq<int>, size: seq<int>, stride: seq<int>, offset: int,
                         baseOffset: int, axis: nat, start: int, end: int) {
    && |shape| == |strides| && stride == strides
    && SingleAxisSlice(RawTensor(shape, strides, baseOffset, []), size, offset, axis, start, end)
    && size[axis] != shape[axis] && strides[axis] > 0
  }

  // Which nodes the pass rewrites, and to what: a strided write becomes
  // slice_scatter with this axis, start and end exactly when it is that slice
  // of its base in known integers. Every other node is left alone.
  lemma RewrittenExactlyWhen(i: Instruction, axis: nat, start: int, end: int)
    requires Typed(i)
    ensures i.target == AsStridedScatterOp && |i.args| >= 4 ==>
      (Rewritten(i) == SliceWrite(i.args[0], i.args[1], axis, start, end) <==>
        exists shape, strides, size, stride, offset, baseOffset ::
          WritesAt(i, shape, strides, size, stride, offset, baseOffset)
          && IsSliceWrite(shape, strides, size, stride, offset, baseOffset, axis, start, end))
    ensures Rewritten(i) == i || (i.target == AsStridedScatterOp && |i.args| >= 4 &&
      exists a: nat, from, to :: Rewritten(i) == SliceWrite(i.args[0], i.args[1], a, from, to))
  {
    if SliceOf(i).Some? {
      WhatIsRewritten(i);
    }
    forall shape, strides, size, stride, offset, baseOffset |
        && WritesAt(i, shape, strides, size, stride, offset, baseOffset)
        && IsSliceWrite(shape, strides, size, stride, offset, baseOffset, axis, start, end)
      ensures SliceOf(i) == Some(Slice(i.args[0], i.args[1], axis, start, end))
    {
      WhatIsFound(i, shape, strides, size, stride, offset, baseOffset, axis, start, end);
    }
  }

  // A rewritten node was such a write.
  lemma WhatIsRewritten(i: Instruction)
    requires Typed(i) && SliceOf(i).Some?
    ensures i.target == AsStridedScatterOp && |i.args| >= 4
    ensures SliceOf(i).value.base == i.args[0] && SliceOf(i).value.values == i.args[1]
    ensures var s := SliceOf(i).value;
      exists shape, strides, size, stride, offset, baseOffset ::
        WritesAt(i, shape, strides, size, stride, offset, baseOffset)
        && IsSliceWrite(shape, strides, size, stride, offset, baseOffset, s.axis, s.start, s.end)
  {
    var s, meta, size, stride := SliceOf(i).value, i.args[0].node.meta, i.args[2].dims, i.args[3].dims;
    var operand := OffsetOperand(i.args, i.kwargs, meta.storageOffset).value;
    AllKnownParts(meta.shape, meta.strides, size, stride, operand, meta.storageOffset);
    KnownAreInts(meta.shape);
    KnownAreInts(meta.strides);
    KnownAreInts(size);
    KnownAreInts(stride);
    var shape, strides, sizes, steps := Ints(meta.shape), Ints(meta.strides), Ints(size), Ints(stride);
    SliceIsSingleAxis(i, shape, strides, sizes, steps, operand.value, RawTensor(shape, strides, 0, []));
    assert DifferingAxes(sizes, shape)[0] in DifferingAxes(sizes, shape);
    hide Ints, DifferingAxes, Contiguous, AllKnown, SingleAxisSlice;
    assert WritesAt(i, shape, strides, sizes, steps, operand.value, meta.storageOffset.value);
    assert IsSliceWrite(shape, strides, sizes, steps, operand.value, meta.storageOffset.value, s.axis, s.start, s.end);
  }

  lemma KnownAreInts(dims: seq<Dim>)
    requires AllKnown(dims)
    ensures AreInts(dims, Ints(dims))
  {
    assert forall k :: 0 <= k < |dims| ==> dims[k] in dims;
  }

  lemma IntsAreKnown(dims: seq<Dim>, ints: seq<int>)
    requires AreInts(dims, ints)
    ensures AllKnown(dims) && Ints(dims) == ints
  {
  }

  // Such a write is rewritten.
  lemma WhatIsFound(i: Instruction, shape: seq<int>, strides: seq<int>, size: seq<int>, stride: seq<int>, offset: int,
                    baseOffset: int, axis: nat, start: int, end: int)
    requires Typed(i) && WritesAt(i, shape, strides, size, stride, offset, baseOffset)
    requires IsSliceWrite(shape, strides, size, stride, offset, baseOffset, axis, start, end)
    ensures SliceOf(i) == Some(Slice(i.args[0], i.args[1], axis, start, end))
  {
    var meta := i.args[0].node.meta;
    IntsAreKnown(meta.shape, shape);
    IntsAreKnown(meta.strides, strides);
    IntsAreKnown(i.args[2].dims, size);
    IntsAreKnown(i.args[3].dims, stride);
    assert OffsetOperand(i.args, i.kwargs, meta.storageOffset) == Some(Known(offset));
    hide OffsetOperand, Ints, Contiguous, DifferingAxes;
    assert AllKnown(meta.shape + meta.strides + i.args[2].dims + i.args[3].dims + [Known(offset), meta.storageOffset]);
    SliceIsFound(i, size, offset, RawTensor(shape, strides, baseOffset, []), axis, start, end);
  }

  lemma SliceIsFound(i: Instruction, size: seq<int>, offset: int, base: RawTensor, axis: nat, start: int, end: int)
    requires |i.args| >= 4 && SingleAxisSlice(base, size, offset, axis, start, end)
    requires size[axis] != base.shape[axis] && base.strides[axis] > 0
    ensures SliceOfInts(i, base.shape, base.strides, size, base.strides, offset, 0)
         == Some(Slice(i.args[0], i.args[1], axis, start, end))
  {
    OnlyAxis(size, base.shape, axis);
    DivMod(start, 0, base.strides[axis]);
    hide DifferingAxes, Contiguous;
  }

  lemma {:induction false} OnlyAxis(size: seq<int>, shape: seq<int>, axis: nat)
    requires |size| == |shape| && axis < |size| && size[axis] != shape[axis]
    requires forall k :: 0 <= k < |size| && k != axis ==> size[k] == shape[k]
    ensures DifferingAxes(size, shape) == [axis]
  {
    var n := |size| - 1;
    if axis == n {
      NoAxis(size[..n], shape[..n]);
    } else {
      OnlyAxis(size[..n], shape[..n], axis);
    }
  }

  lemma {:induction false} NoAxis(size: seq<int>, shape: seq<int>)
    requires size == shape
    ensures DifferingAxes(size, shape) == []
  {
    if size != [] {
      NoAxis(size[..|size| - 1], shape[..|size| - 1]);
    }
  }

  // A rewritten node computes what it computed before, in every execution
  // in which the metadata is right.
  lemma NodePreserved(position: nat, i: Instruction, env: Env, run: Run)
    requires Typed(i) && EnvDescribed(env, run)
    ensures Execute(position, Rewritten(i), env, run) == Execute(position, i, env, run)
  {
    if SliceOf(i).Some? {
      var s := SliceOf(i).value;
      var tensor, size, stride := i.args[0].node.meta, i.args[2].dims, i.args[3].dims;
      var operand := OffsetOperand(i.args, i.kwargs, tensor.storageOffset).value;
      AllKnownParts(tensor.shape, tensor.strides, size, stride, operand, tensor.storageOffset);
      KnownDims(tensor.shape, run);
      KnownDims(tensor.strides, run);
      KnownDims(size, run);
      KnownDims(stride, run);
      var args := EvaluateAll(i.args, env, run);
      if IsTensor(args[0]) && IsTensor(args[1]) {
        var base, src := args[0].value.value.tensor, args[1].value.value.tensor;
        assert Describes(tensor, env[i.args[0].node], run);
        SliceIsSingleAxis(i, Ints(tensor.shape), Ints(tensor.strides), Ints(size), Ints(stride), operand.value, base);
        StridedWriteIsSliceWrite(base, src, Ints(size), operand.value, s.axis, s.start, s.end);
        StridedNodeValue(i, env, run, base, src, operand);
      }
      SliceNodeValue(s, env, run);
    }
  }

  lemma StridedNodeValue(i: Instruction, env: Env, run: Run, base: Tensor, src: Tensor, operand: Dim)
    requires i.target == AsStridedScatterOp && |i.args| >= 4 && i.args[2].DimsArg? && i.args[3].DimsArg?
    requires operand.Known?
    requires Evaluate(i.args[0], env, run) == ValueOperand(Some(TensorValue(base)))
    requires Evaluate(i.args[1], env, run) == ValueOperand(Some(TensorValue(src)))
    requires OffsetOperand(i.args, i.kwargs, Known(base.offset)) == Some(operand)
    ensures RunStrided(i, EvaluateAll(i.args, env, run), env, run)
         == Wrapped(AsStridedScatter(base, src, DimValues(i.args[2].dims, run), DimValues(i.args[3].dims, run), operand.value))
  {
  }

  lemma SliceNodeValue(s: Slice, env: Env, run: Run)
    ensures var i := SliceWrite(s.base, s.values, s.axis, s.start, s.end);
      var base, src := Evaluate(s.base, env, run), Evaluate(s.values, env, run);
      RunSlice(EvaluateAll(i.args, env, run)) ==
        if IsTensor(base) && IsTensor(src)
        then Wrapped(SliceScatter(base.value.value.tensor, src.value.value.tensor, s.axis, s.start, s.end, 1))
        else None
  {
  }

  lemma MetaHoldsOnPrefix(nodes: seq<Node>, program: seq<Instruction>, run: Run, k: nat)
    requires |nodes| == |program| && k <= |nodes| && MetaHolds(nodes, program, run)
    ensures MetaHolds(nodes[..k], program[..k], run)
    ensures EnvDescribed(Results(nodes[..k], program[..k], run), run)
  {
    hide EnvDescribed, Results;
    forall j | 0 <= j <= k
      ensures EnvDescribed(Results(nodes[..k][..j], program[..k][..j], run), run)
    {
      assert nodes[..k][..j] == nodes[..j] && program[..k][..j] == program[..j];
    }
  }

  // The whole graph: every node evaluates to the same value before and after
  // the pass, for all inputs and all sizes.
  lemma {:induction false} PassPreservesMeaning(nodes: seq<Node>, before: seq<Instruction>, after: seq<Instruction>, run: Run)
    requires |nodes| == |before| == |after|
    requires forall i :: 0 <= i < |nodes| ==> Typed(before[i]) && after[i] == Rewritten(before[i])
    requires MetaHolds(nodes, before, run)
    ensures Results(nodes, after, run) == Results(nodes, before, run)
  {
    if nodes != [] {
      var k := |nodes| - 1;
      hide Execute, Rewritten, EnvDescribed, Typed;
      MetaHoldsOnPrefix(nodes, before, run, k);
      PassPreservesMeaning(nodes[..k], before[..k], after[..k], run);
      NodePreserved(k, before[k], Results(nodes[..k], before[..k], run), run);
    }
  }
}
