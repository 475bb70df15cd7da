// Collective operations of one communicator. A joint method runs the same
// code on every rank; per-rank variables are sequences indexed by rank.
// Section 5.13 of MPI 3.1: all members of a communicator enter the same
// collectives in the same order, with the same root and matching counts.
// That rule is the precondition of every collective below, so it holds in
// every run of every verified caller.
module Spmd {
  import opened Sequences
  import opened Wrappers

  const INT_MAX: int := 0x7fff_ffff

  datatype Call =
    | Bcast(root: nat, bytes: nat)
    | AllreduceMin(count: nat)
    | AllreduceAnd(count: nat)
    | Allgather(count: nat)

  // What each rank is about to enter; None for a rank that does not.
  predicate Matched(calls: seq<Option<Call>>) {
    |calls| > 0 && calls[0].Some? && forall r :: 0 <= r < |calls| ==> calls[r] == calls[0]
  }

  function Least(values: seq<int>): (m: int)
    requires |values| > 0
    ensures m in values && forall r :: 0 <= r < |values| ==> m <= values[r]
  {
    if |values| == 1 then values[0]
    else
      var rest := Least(values[1..]);
      assert forall r :: 1 <= r < |values| ==> values[r] == values[1..][r - 1];
      if values[0] <= rest then values[0] else rest
  }

  class Communicator {
    const size: nat
    // The collectives entered so far, by every rank.
    ghost var log: seq<Call>

    constructor (size: nat)
      requires size > 0
      ensures this.size == size && log == []
    {
      this.size := size;
      log := [];
    }

    // Every rank receives the data of the root.
    method Broadcast<T>(calls: seq<Option<Call>>, data: seq<T>) returns (received: seq<T>)
      requires |calls| == |data| == size && Matched(calls)
      requires calls[0].value.Bcast? && calls[0].value.root < size
      modifies this
      ensures received == Everywhere(size, data[calls[0].value.root])
      ensures log == old(log) + [calls[0].value]
    {
      received := Everywhere(size, data[calls[0].value.root]);
      log := log + [calls[0].value];
    }

    method Minimum(calls: seq<Option<Call>>, values: seq<int>) returns (least: seq<int>)
      requires |calls| == |values| == size > 0 && Matched(calls) && calls[0].value == AllreduceMin(1)
      modifies this
      ensures least == Everywhere(size, Least(values))
      ensures log == old(log) + [calls[0].value]
    {
      least := Everywhere(size, Least(values));
      log := log + [calls[0].value];
    }

    // Element-wise logical AND of equally long flag blocks.
    method And(calls: seq<Option<Call>>, blocks: seq<seq<int>>) returns (results: seq<seq<int>>)
      requires |calls| == |blocks| == size && Matched(calls) && calls[0].value.AllreduceAnd?
      requires forall r :: 0 <= r < size ==> |blocks[r]| == calls[0].value.count
      modifies this
      ensures results == Everywhere(size, AllTrue(blocks, calls[0].value.count))
      ensures log == old(log) + [calls[0].value]
    {
      results := Everywhere(size, AllTrue(blocks, calls[0].value.count));
      log := log + [calls[0].value];
    }

    // Every rank receives the contributions of all ranks, in rank order.
    method Gather<T>(calls: seq<Option<Call>>, data: seq<T>) returns (received: seq<seq<T>>)
      requires |calls| == |data| == size && Matched(calls) && calls[0].value.Allgather?
      modifies this
      ensures received == Everywhere(size, data)
      ensures log == old(log) + [calls[0].value]
    {
      received := Everywhere(size, data);
      log := log + [calls[0].value];
    }
  }

  function Everywhere<T>(n: nat, x: T): (r: seq<T>)
    ensures |r| == n && forall i :: 0 <= i < n ==> r[i] == x
  {
    seq(n, _ => x)
  }

  // 1 where every rank has a non-zero flag, else 0.
  function AllTrue(blocks: seq<seq<int>>, count: nat): (flags: seq<int>)
    requires forall r :: 0 <= r < |blocks| ==> |blocks[r]| == count
    ensures |flags| == count
    ensures forall i :: 0 <= i < count ==> (flags[i] != 0 <==> forall r :: 0 <= r < |blocks| ==> blocks[r][i] != 0)
    ensures forall i :: 0 <= i < count ==> flags[i] == 0 || flags[i] == 1
  {
    seq(count, i requires 0 <= i < count => if forall r :: 0 <= r < |blocks| ==> blocks[r][i] != 0 then 1 else 0)
  }

  // ---- Transfers cut at INT_MAX bytes ----

  function ChunkOf(left: nat): (chunk: nat)
    ensures chunk <= left && chunk <= INT_MAX
    ensures left > 0 ==> chunk > 0
  {
    if left < INT_MAX then left else INT_MAX
  }

  // The sizes of the blocks a buffer is sent in.
  function Chunks(left: nat): (sizes: seq<nat>)
    ensures forall i :: 0 <= i < |sizes| ==> 0 < sizes[i] <= INT_MAX
  {
    if left == 0 then [] else [ChunkOf(left)] + Chunks(left - ChunkOf(left))
  }

  function BcastCalls(root: nat, sizes: seq<nat>): seq<Call> {
    seq(|sizes|, i requires 0 <= i < |sizes| => Bcast(root, sizes[i]))
  }

  function Total(sizes: seq<nat>): nat {
    if sizes == [] then 0 else sizes[0] + Total(sizes[1..])
  }

  lemma {:induction false} ChunksCoverTheBuffer(left: nat)
    ensures Total(Chunks(left)) == left
    ensures forall i :: 0 <= i < |Chunks(left)| - 1 ==> Chunks(left)[i] == INT_MAX
  {
    if left > 0 {
      ChunksCoverTheBuffer(left - ChunkOf(left));
      assert Chunks(0) == [];
      assert Chunks(left)[1..] == Chunks(left - ChunkOf(left));
    }
  }

  // A buffer whose first i bytes have arrived.
  function Arrived(source: seq<int>, own: seq<int>, i: nat): (r: seq<int>)
    requires i <= |source| == |own|
    ensures |r| == |source|
  {
    source[..i] + own[i..]
  }

  lemma NextArrived(source: seq<int>, own: seq<int>, i: nat, chunk: nat)
    requires i + chunk <= |source| == |own|
    ensures var now := Arrived(source, own, i);
      now[..i] + source[i..i + chunk] + now[i + chunk..] == Arrived(source, own, i + chunk)
    ensures Arrived(source, source, i) == source
  {
  }

  // One turn of the chunk loop on all ranks: each rank sends or receives at
  // its own position and advances its own counters.
  method ChunkTurn(comm: Communicator, root: nat, buffers: seq<seq<int>>, now: seq<seq<int>>, at: seq<nat>,
                   left: seq<nat>, ghost i: nat)
      returns (now': seq<seq<int>>, at': seq<nat>, left': seq<nat>)
    requires |buffers| == |now| == comm.size && root < comm.size
    requires forall r :: 0 <= r < comm.size ==> |buffers[r]| == |buffers[root]|
    requires i < |buffers[root]| && at == Everywhere(comm.size, i) && left == Everywhere(comm.size, |buffers[root]| - i)
    requires forall r :: 0 <= r < comm.size ==> now[r] == Arrived(buffers[root], buffers[r], i)
    modifies comm
    ensures var chunk := ChunkOf(|buffers[root]| - i);
      && at' == Everywhere(comm.size, i + chunk)
      && left' == Everywhere(comm.size, |buffers[root]| - i - chunk)
      && |now'| == comm.size
      && (forall r :: 0 <= r < comm.size ==> now'[r] == Arrived(buffers[root], buffers[r], i + chunk))
      && comm.log == old(comm.log) + [Bcast(root, chunk)]
  {
    hide Arrived, ChunkOf;
    var n := comm.size;
    ghost var source := buffers[root];
    var calls := seq(n, r requires 0 <= r < n =>
      if left[r] > 0 then Some(Bcast(root, ChunkOf(left[r]))) else None);
    var blocks := seq(n, r requires 0 <= r < n => now[r][at[r]..at[r] + ChunkOf(left[r])]);
    NextArrived(source, source, i, ChunkOf(|source| - i));
    var received := comm.Broadcast(calls, blocks);
    now' := seq(n, r requires 0 <= r < n => now[r][..at[r]] + received[r] + now[r][at[r] + ChunkOf(left[r])..]);
    at' := seq(n, r requires 0 <= r < n => at[r] + ChunkOf(left[r]));
    left' := seq(n, r requires 0 <= r < n => left[r] - ChunkOf(left[r]));
    forall r | 0 <= r < n
      ensures now'[r] == Arrived(source, buffers[r], i + ChunkOf(|source| - i))
    {
      NextArrived(source, buffers[r], i, ChunkOf(|source| - i));
    }
  }

  // The chunk loop on all ranks.
  method ChunkedBroadcast(comm: Communicator, root: nat, buffers: seq<seq<int>>) returns (after: seq<seq<int>>)
    requires |buffers| == comm.size && root < comm.size
    requires forall r :: 0 <= r < comm.size ==> |buffers[r]| == |buffers[root]|
    modifies comm
    ensures after == Everywhere(comm.size, buffers[root])
    ensures comm.log == old(comm.log) + BcastCalls(root, Chunks(|buffers[root]|))
  {
    var n := comm.size;
    ghost var total, log, i := |buffers[root]|, comm.log, 0;
    after := buffers;
    var left: seq<nat> := seq(n, r requires 0 <= r < n => |buffers[r]|);
    var at: seq<nat> := Everywhere(n, 0);
    Start(buffers, root);
    assert left == Everywhere(n, total);
    hide *;
    while exists r :: 0 <= r < n && left[r] > 0
      invariant i <= total && |after| == n
      invariant at == Everywhere(n, i) && left == Everywhere(n, total - i)
      invariant forall r :: 0 <= r < n ==> after[r] == Arrived(buffers[root], buffers[r], i)
      invariant comm.log + BcastCalls(root, Chunks(total - i)) == log + BcastCalls(root, Chunks(total))
      decreases total - i
    {
      after, at, left := ChunkTurn(comm, root, buffers, after, at, left, i);
      LogGrows(log, comm.log, root, total, i);
      i := i + ChunkOf(total - i);
    }
    Finish(buffers, root, after, left, i);
    NoMoreCalls(comm.log, root);
  }

  lemma Start(buffers: seq<seq<int>>, root: nat)
    requires root < |buffers| && forall r :: 0 <= r < |buffers| ==> |buffers[r]| == |buffers[root]|
    ensures forall r :: 0 <= r < |buffers| ==> buffers[r] == Arrived(buffers[root], buffers[r], 0)
  {
  }

  lemma Finish(buffers: seq<seq<int>>, root: nat, after: seq<seq<int>>, left: seq<nat>, i: nat)
    requires root < |buffers| == |after| && i <= |buffers[root]|
    requires forall r :: 0 <= r < |buffers| ==> |buffers[r]| == |buffers[root]|
    requires left == Everywhere(|buffers|, |buffers[root]| - i)
    requires !exists r :: 0 <= r < |buffers| && left[r] > 0
    requires forall r :: 0 <= r < |buffers| ==> after[r] == Arrived(buffers[root], buffers[r], i)
    ensures i == |buffers[root]| && after == Everywhere(|buffers|, buffers[root])
  {
    assert left[root] == 0;
    forall r | 0 <= r < |buffers|
      ensures after[r] == buffers[root]
    {
      assert Arrived(buffers[root], buffers[r], i) == buffers[root];
    }
  }

  lemma LogGrows(log: seq<Call>, now: seq<Call>, root: nat, total: nat, i: nat)
    requires i < total && |now| > 0 && now[|now| - 1] == Bcast(root, ChunkOf(total - i))
    requires now[..|now| - 1] + BcastCalls(root, Chunks(total - i)) == log + BcastCalls(root, Chunks(total))
    ensures now + BcastCalls(root, Chunks(total - i - ChunkOf(total - i))) == log + BcastCalls(root, Chunks(total))
  {
    var before, next := now[..|now| - 1], [Bcast(root, ChunkOf(total - i))];
    NextChunk(root, total - i);
    assert now == before + next;
    Assoc(before, next, BcastCalls(root, Chunks(total - i - ChunkOf(total - i))));
    hide *;
  }

  lemma NoMoreCalls(log: seq<Call>, root: nat)
    ensures log + BcastCalls(root, Chunks(0)) == log
  {
  }

  lemma NextChunk(root: nat, left: nat)
    requires left > 0
    ensures BcastCalls(root, Chunks(left)) == [Bcast(root, ChunkOf(left))] + BcastCalls(root, Chunks(left - ChunkOf(left)))
  {
    assert Chunks(left)[1..] == Chunks(left - ChunkOf(left));
  }
}
