// librgpot_mpi: splitting the world into calculators, and the collectives
// over the split.
module CalculatorSplit {
  import opened Wrappers
  import opened Spmd
  import opened Sequences

  datatype Group = Group(index: int, ranks: int, rankInGroup: int, worldSize: int)

  // ---- bind ----

  function EffectiveRanks(requested: int, size: nat): int {
    if requested <= 0 then size else requested
  }

  predicate Divides(requested: int, size: nat)
    requires size > 0
  {
    var rpc := EffectiveRanks(requested, size);
    rpc <= size && size % rpc == 0
  }

  // The group a rank of a world of the given size gets.
  function Bind(requested: int, rank: nat, size: nat): Group
    requires rank < size
  {
    if !Divides(requested, size) then Group(-1, 1, 0, size)
    else
      var rpc := EffectiveRanks(requested, size);
      Group(rank / rpc, rpc, rank % rpc, size)
  }

  // A world splits exactly when the ranks asked for fill it some whole number
  // of times; asking for none means all. Then each group has that many, and
  // that number of times is the count of calculators.
  lemma SplitExactlyWhen(requested: int, rank: nat, size: nat)
    requires rank < size
    ensures var g := Bind(requested, rank, size);
      && g.worldSize == size
      && (g.index >= 0 <==> requested <= 0 || exists groups: nat :: Fills(groups, requested, size))
      && (g.index >= 0 ==> g.ranks == (if requested <= 0 then size else requested) && Fills(Count(g), g.ranks, size))
      && (g.index < 0 ==> g.ranks == 1 && g.rankInGroup == 0 && Count(g) == 1)
  {
    if requested > 0 {
      if requested <= size && size % requested == 0 {
        assert Fills(size / requested, requested, size);
        QuotientInRange(rank, size, requested);
      } else if exists groups: nat :: Fills(groups, requested, size) {
        var groups: nat :| Fills(groups, requested, size);
        if groups == 0 {
          assert false;
        }
        Scale(1, groups, requested);
        QuotientUnique(size, groups, 0, requested);
      }
    }
  }

  predicate Fills(groups: int, ranks: int, size: nat) {
    groups * ranks == size
  }

  function Count(g: Group): int
    requires g.ranks > 0
  {
    if g.index < 0 then 1 else g.worldSize / g.ranks
  }

  // The world rank of a group member.
  function WorldRank(g: Group, index: int, rankInGroup: int): int {
    index * g.ranks + rankInGroup
  }

  // A valid split assigns the ranks to the pairs (index, rank in group) one
  // to one: from a rank to its pair and back ...
  lemma RankToPairAndBack(requested: int, rank: nat, size: nat)
    requires rank < size && Divides(requested, size)
    ensures var g := Bind(requested, rank, size);
      0 <= g.index < Count(g) && 0 <= g.rankInGroup < g.ranks && WorldRank(g, g.index, g.rankInGroup) == rank
  {
    QuotientInRange(rank, size, EffectiveRanks(requested, size));
  }

  // ... and from a pair to its rank and back.
  lemma PairToRankAndBack(requested: int, size: nat, index: int, member: int)
    requires size > 0 && Divides(requested, size)
    requires 0 <= index < Count(Bind(requested, 0, size)) && 0 <= member < Bind(requested, 0, size).ranks
    ensures var rank := WorldRank(Bind(requested, 0, size), index, member);
      0 <= rank < size && Bind(requested, rank, size).index == index && Bind(requested, rank, size).rankInGroup == member
  {
    var rpc := EffectiveRanks(requested, size);
    assert size == (size / rpc) * rpc;
    LastMember(index, size / rpc, member, rpc);
    QuotientUnique(index * rpc + member, index, member, rpc);
  }

  lemma LastMember(index: int, count: int, member: int, rpc: int)
    requires 0 <= index < count && 0 <= member < rpc
    ensures 0 <= index * rpc + member < count * rpc
  {
    assert (index + 1) * rpc <= count * rpc by { Scale(index + 1, count, rpc); }
    assert 0 <= index * rpc by { Scale(0, index, rpc); }
  }

  lemma Scale(a: int, b: int, d: int)
    requires a <= b && d >= 0
    ensures a * d <= b * d
  {
  }

  lemma QuotientInRange(rank: int, size: int, rpc: int)
    requires 0 <= rank < size && 0 < rpc && size % rpc == 0
    ensures 0 <= rank / rpc < size / rpc
    ensures (rank / rpc) * rpc + rank % rpc == rank
  {
    if rank / rpc >= size / rpc {
      Scale(size / rpc, rank / rpc, rpc);
    }
  }

  lemma QuotientUnique(rank: int, index: int, member: int, rpc: int)
    requires 0 <= member < rpc && rank == index * rpc + member
    ensures rank / rpc == index && rank % rpc == member
  {
    var q := rank / rpc;
    assert rank == q * rpc + rank % rpc;
    if q > index {
      Scale(index + 1, q, rpc);
    } else if q < index {
      Scale(q + 1, index, rpc);
    }
  }

  // The broadcast root owner * ranks is the first rank of group `owner`.
  lemma RootIsFirstOfOwner(requested: int, size: nat, owner: int)
    requires size > 0 && Divides(requested, size) && 0 <= owner < Count(Bind(requested, 0, size))
    ensures var root := owner * Bind(requested, 0, size).ranks;
      0 <= root < size && Bind(requested, root, size).index == owner && Bind(requested, root, size).rankInGroup == 0
  {
    PairToRankAndBack(requested, size, owner, 0);
  }

  // ---- share ----

  // What a rank passes: a missing buffer is a null pointer.
  datatype ShareArgs = ShareArgs(owner: int, data: Option<seq<int>>, bytes: nat)

  datatype ShareResult = Rejected | Shared(data: seq<int>) | Aborted

  const LLONG_MAX: nat := 0x7fff_ffff_ffff_ffff

  predicate ProperArgs(a: ShareArgs) {
    a.data.Some? ==> |a.data.value| == a.bytes
  }

  // The three numbers a rank contributes: why it cannot take part, its owner
  // and its byte count.
  datatype Ticket = Ticket(reason: int, owner: int, bytes: int)

  function TicketOf(g: Group, a: ShareArgs): Ticket
    requires g.ranks > 0
  {
    var reason :=
      if g.index < 0 || (a.bytes > 0 && a.data.None?) then 1
      else if a.owner < 0 || a.owner >= Count(g) then 2
      else 0;
    if a.bytes > LLONG_MAX then Ticket(1, a.owner, LLONG_MAX) else Ticket(reason, a.owner, a.bytes)
  }

  // Some rank cannot take part or differs from rank 0.
  predicate Bad(all: seq<Ticket>)
    requires |all| > 0
  {
    exists src :: 0 <= src < |all| &&
      (all[src].reason != 0 || all[src].owner != all[0].owner || all[src].bytes != all[0].bytes)
  }

  predicate CanShare(g: Group, a: ShareArgs)
    requires g.ranks > 0
  {
    g.index >= 0 && (a.bytes > 0 ==> a.data.Some?) && 0 <= a.owner < Count(g) && a.bytes <= LLONG_MAX
  }

  // All ranks can take part and name the same owner and byte count.
  predicate AllAgree(groups: seq<Group>, args: seq<ShareArgs>)
    requires |groups| == |args| > 0 && forall r :: 0 <= r < |groups| ==> groups[r].ranks > 0
  {
    forall r :: 0 <= r < |args| ==>
      CanShare(groups[r], args[r]) && args[r].owner == args[0].owner && args[r].bytes == args[0].bytes
  }

  function Buffer(a: ShareArgs): seq<int> {
    match a.data case None => [] case Some(d) => d
  }

  // share() on all ranks of a world bound with one group size.
  method Share(world: Communicator, requested: int, args: seq<ShareArgs>) returns (results: seq<ShareResult>)
    requires world.size > 1 && |args| == world.size
    requires forall r :: 0 <= r < world.size ==> ProperArgs(args[r])
    modifies world
    // A refused split: every rank is turned away without communication.
    ensures !Divides(requested, world.size) ==>
      results == Everywhere(world.size, Rejected) && world.log == old(world.log)
    // Agreement: every rank ends with the bytes of the owner's first rank.
    ensures Divides(requested, world.size) && AllAgree(Groups(requested, world.size), args) ==>
      var root := args[0].owner * Bind(requested, 0, world.size).ranks;
      && 0 <= root < world.size
      && results == Everywhere(world.size, Shared(if args[root].data.Some? then args[root].data.value else []))
      && world.log == old(world.log) + [Allgather(3)] + BcastCalls(root, Chunks(args[0].bytes))
    // Anything else: every rank takes the abort branch.
    ensures Divides(requested, world.size) && !AllAgree(Groups(requested, world.size), args) ==>
      results == Everywhere(world.size, Aborted) && world.log == old(world.log) + [Allgather(3)]
  {
    var n := world.size;
    var groups := Groups(requested, n);
    // Each rank decides by its own group whether the call is collective.
    if forall r :: 0 <= r < n ==> groups[r].index < 0 {
      assert groups[0].index < 0;
      results := Everywhere(n, Rejected);
      return;
    }
    forall r | 0 <= r < n
      ensures groups[r].index >= 0
    {
      RankToPairAndBack(requested, r, n);
    }
    var calls := seq(n, r requires 0 <= r < n => if groups[r].index >= 0 then Some(Allgather(3)) else None);
    var tickets := seq(n, r requires 0 <= r < n => TicketOf(groups[r], args[r]));
    var all := world.Gather(calls, tickets);
    TicketsAgree(requested, n, args, tickets);
    // Each rank judges the tickets it received.
    if forall r :: 0 <= r < n ==> Bad(all[r]) {
      assert Bad(all[0]);
      results := Everywhere(n, Aborted);
      return;
    }
    assert !Bad(tickets);
    results := ShareAgreed(world, requested, groups, args);
  }

  // Who agrees, in plain words: all ranks give one owner and one byte count
  // that a transfer can name, the owner is one of the calculators, and who has
  // bytes to give or take has a place for them.
  lemma AgreeExactlyWhen(requested: int, size: nat, args: seq<ShareArgs>)
    requires |args| == size > 0 && Divides(requested, size)
    ensures var ranks := if requested <= 0 then size else requested;
      AllAgree(Groups(requested, size), args) <==> forall r :: 0 <= r < size ==>
        && args[r].owner == args[0].owner && args[r].bytes == args[0].bytes <= 0x7fff_ffff_ffff_ffff
        && 0 <= args[r].owner && (args[r].owner + 1) * ranks <= size
        && (args[r].bytes > 0 ==> args[r].data.Some?)
  {
    var groups, ranks := Groups(requested, size), EffectiveRanks(requested, size);
    forall r | 0 <= r < size
      ensures groups[r].index >= 0
      ensures args[r].owner < Count(groups[r]) <==> (args[r].owner + 1) * ranks <= size
    {
      RankToPairAndBack(requested, r, size);
      IsCalculator(args[r].owner, size / ranks, ranks, size);
    }
    hide Count, Bind, Divides;
  }

  lemma IsCalculator(owner: int, count: int, ranks: int, size: int)
    requires ranks > 0 && size > 0 && size % ranks == 0 && count == size / ranks
    ensures owner < count <==> (owner + 1) * ranks <= size
  {
    assert size == count * ranks;
    if owner < count {
      Scale(owner + 1, count, ranks);
    } else {
      Scale(count + 1, owner + 1, ranks);
    }
  }

  function Groups(requested: int, size: nat): (g: seq<Group>)
    ensures |g| == size
    ensures forall r :: 0 <= r < size ==> g[r] == Bind(requested, r, size) && g[r].ranks > 0
  {
    seq(size, r requires 0 <= r < size => Bind(requested, r, size))
  }

  lemma TicketsAgree(requested: int, size: nat, args: seq<ShareArgs>, tickets: seq<Ticket>)
    requires |args| == |tickets| == size > 0
    requires forall r :: 0 <= r < size ==> tickets[r] == TicketOf(Groups(requested, size)[r], args[r])
    ensures Bad(tickets) <==> !AllAgree(Groups(requested, size), args)
  {
    var groups := Groups(requested, size);
    assert forall r :: 0 <= r < size ==> (tickets[r].reason == 0 <==> CanShare(groups[r], args[r]));
    if AllAgree(groups, args) {
      assert forall r :: 0 <= r < size ==> tickets[r] == Ticket(0, args[0].owner, args[0].bytes);
    } else {
      var r :| 0 <= r < size
        && !(CanShare(groups[r], args[r]) && args[r].owner == args[0].owner && args[r].bytes == args[0].bytes);
      if CanShare(groups[r], args[r]) && CanShare(groups[0], args[0]) {
        assert tickets[r] != tickets[0];
      } else if !CanShare(groups[0], args[0]) {
        assert tickets[0].reason != 0;
      }
    }
  }

  // broadcastFromOwner() on all ranks.
  method ShareAgreed(world: Communicator, requested: int, groups: seq<Group>, args: seq<ShareArgs>)
    returns (results: seq<ShareResult>)
    requires world.size > 1 && |args| == world.size && Divides(requested, world.size)
    requires groups == Groups(requested, world.size) && AllAgree(groups, args)
    requires forall r :: 0 <= r < world.size ==> ProperArgs(args[r])
    modifies world
    ensures var root := args[0].owner * Bind(requested, 0, world.size).ranks;
      && 0 <= root < world.size
      && results == Everywhere(world.size, Shared(if args[root].data.Some? then args[root].data.value else []))
      && world.log == old(world.log) + BcastCalls(root, Chunks(args[0].bytes))
  {
    var n := world.size;
    var roots := seq(n, r requires 0 <= r < n => args[r].owner * groups[r].ranks);
    RootIsFirstOfOwner(requested, n, args[0].owner);
    assert forall r :: 0 <= r < n ==> groups[r].ranks == groups[0].ranks && roots[r] == roots[0];
    var buffers := seq(n, r requires 0 <= r < n => Buffer(args[r]));
    var after := ChunkedBroadcast(world, roots[0], buffers);
    results := seq(n, r requires 0 <= r < n => Shared(after[r]));
  }

  // share() of a bound process that is alone in its world: no agreement is
  // needed, and a request that makes no sense is turned down.
  method ShareAlone(world: Communicator, requested: int, a: ShareArgs) returns (result: ShareResult)
    requires world.size == 1 && ProperArgs(a)
    modifies world
    ensures result == if requested <= 1 && a.owner == 0 && (a.bytes > 0 ==> a.data.Some?)
                      then Shared(if a.data.Some? then a.data.value else []) else Rejected
    ensures world.log == old(world.log) + if result.Shared? then BcastCalls(0, Chunks(a.bytes)) else []
  {
    var group := Bind(requested, 0, 1);
    if group.index < 0 || (a.bytes > 0 && a.data.None?) {
      return Rejected;
    }
    if a.owner < 0 || a.owner >= Count(group) {
      return Rejected;
    }
    var after := ChunkedBroadcast(world, a.owner * group.ranks, [Buffer(a)]);
    return Shared(after[0]);
  }

  // ---- agree ----

  function AndCalls(sizes: seq<nat>): seq<Call> {
    seq(|sizes|, i requires 0 <= i < |sizes| => AllreduceAnd(sizes[i]))
  }

  // What each rank is about to enter with the flags it has left.
  function TurnCalls(rest: seq<seq<int>>): (calls: seq<Option<Call>>)
    ensures |calls| == |rest|
    ensures forall r :: 0 <= r < |rest| ==>
      calls[r] == if |rest[r]| > 0 then Some(AllreduceAnd(ChunkOf(|rest[r]|))) else None
  {
    seq(|rest|, r requires 0 <= r < |rest| => if |rest[r]| > 0 then Some(AllreduceAnd(ChunkOf(|rest[r]|))) else None)
  }

  // All that a rank enters shows how many flags it has, so ranks enter the
  // same collectives exactly when they have equally many.
  lemma SameCallsSameCount(a: nat, b: nat)
    ensures AndCalls(Chunks(a)) == AndCalls(Chunks(b)) <==> a == b
  {
    if AndCalls(Chunks(a)) == AndCalls(Chunks(b)) {
      SizesOfCalls(Chunks(a), Chunks(b));
      ChunksCoverTheBuffer(a);
      ChunksCoverTheBuffer(b);
    }
  }

  lemma SizesOfCalls(a: seq<nat>, b: seq<nat>)
    requires AndCalls(a) == AndCalls(b)
    ensures a == b
  {
    assert |AndCalls(a)| == |a| && |AndCalls(b)| == |b|;
    forall i | 0 <= i < |a|
      ensures a[i] == b[i]
    {
      assert AndCalls(a)[i] == AllreduceAnd(a[i]) && AndCalls(b)[i] == AllreduceAnd(b[i]);
    }
  }

  // One turn of the chunk loop on all ranks.
  method AgreeTurn(calculator: Communicator, rest: seq<seq<int>>) returns (done: seq<seq<int>>, rest': seq<seq<int>>)
    requires |rest| == calculator.size > 0 && |rest[0]| > 0
    requires forall r :: 0 <= r < calculator.size ==> |rest[r]| == |rest[0]|
    modifies calculator
    ensures var chunk := ChunkOf(|rest[0]|);
      && |done| == |rest'| == calculator.size
      && (forall r :: 0 <= r < calculator.size ==> |rest'[r]| == |rest[0]| - chunk && done[r] == done[0])
      && AllTrue(rest, |rest[0]|) == done[0] + AllTrue(rest', |rest[0]| - chunk)
      && calculator.log == old(calculator.log) + [AllreduceAnd(chunk)]
  {
    var n := calculator.size;
    var calls := TurnCalls(rest);
    var heads := seq(n, r requires 0 <= r < n => rest[r][..ChunkOf(|rest[r]|)]);
    rest' := seq(n, r requires 0 <= r < n => rest[r][ChunkOf(|rest[r]|)..]);
    done := calculator.And(calls, heads);
    SplitAnd(rest, heads, rest', ChunkOf(|rest[0]|));
  }

  // The chunk loop on all ranks.
  method AgreeChunks(calculator: Communicator, flags: seq<seq<int>>) returns (after: seq<seq<int>>)
    requires |flags| == calculator.size > 0
    requires forall r :: 0 <= r < calculator.size ==> |flags[r]| == |flags[0]|
    modifies calculator
    ensures after == Everywhere(calculator.size, AllTrue(flags, |flags[0]|))
    ensures calculator.log == old(calculator.log) + AndCalls(Chunks(|flags[0]|))
  {
    var n, rest := calculator.size, flags;
    after := Everywhere(n, []);
    ghost var log := calculator.log;
    Empties(AllTrue(flags, |flags[0]|));
    while exists r :: 0 <= r < n && |rest[r]| > 0
      invariant |after| == |rest| == n
      invariant forall r :: 0 <= r < n ==> |rest[r]| == |rest[0]| && after[r] == after[0]
      invariant after[0] + AllTrue(rest, |rest[0]|) == AllTrue(flags, |flags[0]|)
      invariant calculator.log + AndCalls(Chunks(|rest[0]|)) == log + AndCalls(Chunks(|flags[0]|))
      decreases |rest[0]|
    {
      hide AllTrue, AndCalls, Chunks;
      ghost var left, before, sofar := |rest[0]|, calculator.log, after[0];
      var done;
      done, rest := AgreeTurn(calculator, rest);
      after := seq(n, r requires 0 <= r < n => after[r] + done[r]);
      NextAnd(left);
      Assoc(before, [AllreduceAnd(ChunkOf(left))], AndCalls(Chunks(left - ChunkOf(left))));
      Assoc(sofar, done[0], AllTrue(rest, |rest[0]|));
    }
    assert |rest[0]| == 0;
    Empties(after[0]);
    Empties(calculator.log);
    assert AllTrue(rest, 0) == [] && AndCalls(Chunks(0)) == [];
  }

  lemma NextAnd(left: nat)
    requires left > 0
    ensures AndCalls(Chunks(left)) == [AllreduceAnd(ChunkOf(left))] + AndCalls(Chunks(left - ChunkOf(left)))
  {
    assert Chunks(left)[1..] == Chunks(left - ChunkOf(left));
  }

  lemma SplitAnd(flags: seq<seq<int>>, heads: seq<seq<int>>, tails: seq<seq<int>>, k: nat)
    requires |flags| == |heads| == |tails| > 0
    requires forall r :: 0 <= r < |flags| ==> |flags[r]| == |flags[0]| && k <= |flags[r]|
    requires forall r :: 0 <= r < |flags| ==> heads[r] == flags[r][..k] && tails[r] == flags[r][k..]
    ensures AllTrue(flags, |flags[0]|) == AllTrue(heads, k) + AllTrue(tails, |flags[0]| - k)
  {
    var whole, parts := AllTrue(flags, |flags[0]|), AllTrue(heads, k) + AllTrue(tails, |flags[0]| - k);
    forall i | 0 <= i < |flags[0]|
      ensures whole[i] == parts[i]
    {
      if i < k {
        assert forall r :: 0 <= r < |flags| ==> heads[r][i] == flags[r][i];
      } else {
        assert forall r :: 0 <= r < |flags| ==> tails[r][i - k] == flags[r][i];
      }
    }
  }

  // agree() on the ranks of one calculator: the flags of every rank become
  // the logical AND over the ranks; 0 for a calculator of one rank, whose
  // flags stay as they are.
  method Agree(calculator: Communicator, flags: seq<seq<int>>) returns (after: seq<seq<int>>, combined: int)
    requires |flags| == calculator.size > 0
    requires forall r :: 0 <= r < calculator.size ==> |flags[r]| == |flags[0]|
    modifies calculator
    ensures calculator.size < 2 ==> after == flags && combined == 0 && calculator.log == old(calculator.log)
    ensures calculator.size >= 2 ==>
      && after == Everywhere(calculator.size, AllTrue(flags, |flags[0]|)) && combined == 1
      && calculator.log == old(calculator.log) + AndCalls(Chunks(|flags[0]|))
  {
    var n := calculator.size;
    if n < 2 {
      return flags, 0;
    }
    after := AgreeChunks(calculator, flags);
    combined := 1;
  }
}
