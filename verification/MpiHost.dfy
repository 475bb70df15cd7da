// Error agreement and payload transfer among the ranks of a host.
module MpiHost {
  import opened Sequences
  import opened Wrappers
  import opened Spmd

  // what() cut to the buffer it travels in, with the rank it came from.
  datatype HostError = HostError(rank: nat, text: string)

  const ERROR_BYTES := 1024

  // snprintf into the buffer: one byte is for the terminator.
  function Truncated(text: string): (cut: string)
    ensures cut <= text && |cut| == if |text| <= 1023 then |text| else 1023
  {
    if |text| < ERROR_BYTES then text else text[..ERROR_BYTES - 1]
  }

  // How the function of each rank ended: None for a return, Some for what
  // its exception says.
  type Endings = seq<Option<string>>

  // The error of the lowest failing rank, if any rank fails.
  function Agreed(endings: Endings): (e: Option<HostError>)
    ensures e.None? <==> forall r :: 0 <= r < |endings| ==> endings[r].None?
    ensures e.Some? ==> e.value.rank < |endings| && endings[e.value.rank] != None
                        && e.value.text == Truncated(endings[e.value.rank].value)
                        && forall r :: 0 <= r < e.value.rank ==> endings[r].None?
  {
    AgreedFrom(endings, 0)
  }

  function AgreedFrom(endings: Endings, i: nat): (e: Option<HostError>)
    requires i <= |endings|
    ensures e.None? <==> forall r :: i <= r < |endings| ==> endings[r].None?
    ensures e.Some? ==> i <= e.value.rank < |endings| && endings[e.value.rank] != None
                        && e.value.text == Truncated(endings[e.value.rank].value)
                        && forall r :: i <= r < e.value.rank ==> endings[r].None?
    decreases |endings| - i
  {
    if i == |endings| then None
    else if endings[i].Some? then Some(HostError(i, Truncated(endings[i].value)))
    else AgreedFrom(endings, i + 1)
  }

  // The collectives one call of collective() enters.
  function CollectiveCalls(endings: Endings): seq<Call> {
    match Agreed(endings)
    case None => [AllreduceMin(1)]
    case Some(e) => [AllreduceMin(1), Bcast(e.rank, ERROR_BYTES)]
  }

  // collective(), after each rank has run its function. Every rank throws
  // the same error or none does.
  method Collective(comm: Communicator, endings: Endings) returns (thrown: seq<Option<HostError>>)
    requires |endings| == comm.size > 0
    modifies comm
    ensures thrown == Everywhere(comm.size, Agreed(endings))
    ensures comm.log == old(comm.log) + CollectiveCalls(endings)
  {
    var n := comm.size;
    var failed: seq<int> := seq(n, r requires 0 <= r < n => if endings[r].Some? then r else n);
    var errors := seq(n, r requires 0 <= r < n => if endings[r].Some? then Truncated(endings[r].value) else "");
    var calls := Everywhere(n, Some(AllreduceMin(1)));
    var first := comm.Minimum(calls, failed);
    LeastIsAgreed(endings, failed);
    hide Least, Truncated, Agreed;
    // A rank leaves on its own value of first.
    if forall r :: 0 <= r < n ==> first[r] == n {
      assert first[0] == n;
      thrown := Everywhere(n, None);
      return;
    }
    var sends := seq(n, r requires 0 <= r < n =>
      if first[r] == n then None else Some(Bcast(first[r], ERROR_BYTES)));
    ghost var log := comm.log;
    var texts := comm.Broadcast(sends, errors);
    thrown := seq(n, r requires 0 <= r < n => Some(HostError(first[r], texts[r])));
    Assoc(old(comm.log), [AllreduceMin(1)], [Bcast(first[0], ERROR_BYTES)]);
  }

  lemma LeastIsAgreed(endings: Endings, failed: seq<int>)
    requires |failed| == |endings| > 0
    requires forall r :: 0 <= r < |endings| ==> failed[r] == if endings[r].Some? then r else |endings|
    ensures 0 <= Least(failed) <= |endings|
    ensures Agreed(endings).None? <==> Least(failed) == |endings|
    ensures Agreed(endings).Some? ==> Agreed(endings).value.rank == Least(failed)
  {
    var m := Least(failed);
    var r :| 0 <= r < |failed| && failed[r] == m;
    assert forall q :: 0 <= q < |failed| ==> failed[q] == q || failed[q] == |endings|;
    if Agreed(endings).Some? {
      assert failed[Agreed(endings).value.rank] == Agreed(endings).value.rank;
    }
  }

  // ---- Vectors ----

  const SIZE_MAX: nat := 0xffff_ffff_ffff_ffff
  // max_size() of a vector of elements of the given width.
  function MaxSize(width: nat): nat
    requires width > 0
  {
    0x7fff_ffff_ffff_ffff / width
  }

  const LENGTH_ERROR := "MPI host payload exceeds addressable storage"

  // resize() on one rank: refused when the count is too large, or when the
  // allocator throws.
  function ResizeEnding(count: nat, width: nat, allocation: Option<string>): Option<string>
    requires width > 0
  {
    if count > MaxSize(width) || count > SIZE_MAX / width then Some(LENGTH_ERROR) else allocation
  }

  function ResizeEndings(count: nat, width: nat, allocations: Endings): (e: Endings)
    requires width > 0
    ensures |e| == |allocations|
  {
    seq(|allocations|, r requires 0 <= r < |allocations| => ResizeEnding(count, width, allocations[r]))
  }

  function Resized(values: seq<int>, bytes: nat): (r: seq<int>)
    ensures |r| == bytes
  {
    if bytes <= |values| then values[..bytes] else values + seq(bytes - |values|, _ => 0)
  }

  // The collectives one vector broadcast enters.
  function TransferCalls(bytes: nat, width: nat, allocations: Endings): seq<Call>
    requires width > 0
  {
    var endings := ResizeEndings(bytes / width, width, allocations);
    [Bcast(0, 8)] + CollectiveCalls(endings)
    + if Agreed(endings).None? then BcastCalls(0, Chunks(bytes)) else []
  }

  // broadcast(): a vector as its bytes, width bytes an element. allocations
  // says on which ranks the allocator throws.
  method BroadcastVector(comm: Communicator, width: nat, values: seq<seq<int>>, allocations: Endings)
    returns (after: seq<seq<int>>, thrown: seq<Option<HostError>>)
    requires |values| == |allocations| == comm.size > 0 && width > 0
    requires forall r :: 0 <= r < comm.size ==> |values[r]| % width == 0
    modifies comm
    ensures |after| == comm.size
    ensures thrown == Everywhere(comm.size, Agreed(ResizeEndings(|values[0]| / width, width, allocations)))
    ensures thrown[0].None? ==> after == Everywhere(comm.size, values[0])
    ensures comm.log == old(comm.log) + TransferCalls(|values[0]|, width, allocations)
  {
    var n := comm.size;
    var counts := seq(n, r requires 0 <= r < n => |values[r]| / width);
    counts := comm.Broadcast(Everywhere(n, Some(Bcast(0, 8))), counts);
    var endings := seq(n, r requires 0 <= r < n => ResizeEnding(counts[r], width, allocations[r]));
    assert endings == ResizeEndings(|values[0]| / width, width, allocations);
    thrown := Collective(comm, endings);
    if forall r :: 0 <= r < n ==> thrown[r].Some? {
      after := values;
      Assoc(old(comm.log), [Bcast(0, 8)], CollectiveCalls(endings));
      Empties([Bcast(0, 8)] + CollectiveCalls(endings));
      return;
    }
    // Every rank goes on to the payload.
    assert forall r :: 0 <= r < n ==> thrown[r].None?;
    var resized := seq(n, r requires 0 <= r < n => Resized(values[r], counts[r] * width));
    WholeElements(|values[0]|, width);
    assert resized[0] == values[0];
    after := ChunkedBroadcast(comm, 0, resized);
    Assoc(old(comm.log), [Bcast(0, 8)], CollectiveCalls(endings));
    Assoc(old(comm.log), [Bcast(0, 8)] + CollectiveCalls(endings), BcastCalls(0, Chunks(|values[0]|)));
  }

  lemma WholeElements(bytes: nat, width: nat)
    requires width > 0 && bytes % width == 0
    ensures (bytes / width) * width == bytes
  {
  }
}
