// The joint hit-or-miss decision of a group-collective potential: one
// potential per rank of a calculator, each with its own cache.
module JointDecision {
  import opened Wrappers
  import opened Spmd
  import opened CalculatorSplit
  import opened CachedPotentials
  import Records = CacheRecords

  type Database = Option<map<Key, seq<Records.Byte>>>

  // The ranks of one calculator in a batch call of n systems. Caches and
  // geometries may differ from rank to rank.
  predicate Calculator(pots: seq<Potential>, dbs: seq<Database>, inputs: seq<seq<Input>>, n: nat) {
    && |pots| == |dbs| == |inputs| > 0
    && forall r :: 0 <= r < |pots| ==> pots[r].groupCollective && |inputs[r]| == n
  }

  // What rank r finds in its own cache for system i.
  predicate Own(pots: seq<Potential>, dbs: seq<Database>, inputs: seq<seq<Input>>, n: nat, r: nat, i: nat)
    requires Calculator(pots, dbs, inputs, n) && r < |pots| && i < n
  {
    dbs[r].Some? && pots[r].Usable(dbs[r].value, inputs[r][i])
  }

  // The flags rank r passes to the agreement.
  function Flags(pots: seq<Potential>, dbs: seq<Database>, inputs: seq<seq<Input>>, n: nat, r: nat): (f: seq<int>)
    requires Calculator(pots, dbs, inputs, n) && r < |pots|
    ensures |f| == n
    ensures forall i :: 0 <= i < n ==> (f[i] != 0 <==> Own(pots, dbs, inputs, n, r, i))
  {
    seq(n, i requires 0 <= i < n => if Own(pots, dbs, inputs, n, r, i) then 1 else 0)
  }

  // Some rank misses system i.
  predicate SomeMiss(pots: seq<Potential>, dbs: seq<Database>, inputs: seq<seq<Input>>, n: nat, i: nat)
    requires Calculator(pots, dbs, inputs, n) && i < n
  {
    exists r :: 0 <= r < |pots| && !Own(pots, dbs, inputs, n, r, i)
  }

  // The systems some rank misses, in order, from position i on.
  function JointMisses(pots: seq<Potential>, dbs: seq<Database>, inputs: seq<seq<Input>>, n: nat, i: nat): (r: seq<nat>)
    requires Calculator(pots, dbs, inputs, n) && i <= n
    ensures forall j :: j in r <==> i <= j < n && SomeMiss(pots, dbs, inputs, n, j)
    decreases n - i
  {
    if i == n then []
    else (if SomeMiss(pots, dbs, inputs, n, i) then [i] else []) + JointMisses(pots, dbs, inputs, n, i + 1)
  }

  // What the agreement says of each system: that no rank misses it.
  predicate JointAnswers(pots: seq<Potential>, dbs: seq<Database>, inputs: seq<seq<Input>>, n: nat, agreed: seq<bool>)
    requires Calculator(pots, dbs, inputs, n)
  {
    |agreed| == n && forall i :: 0 <= i < n ==> (agreed[i] <==> !SomeMiss(pots, dbs, inputs, n, i))
  }

  lemma NextJointMiss(pots: seq<Potential>, dbs: seq<Database>, inputs: seq<seq<Input>>, n: nat, i: nat)
    requires Calculator(pots, dbs, inputs, n) && i < n
    ensures JointMisses(pots, dbs, inputs, n, i) ==
      if SomeMiss(pots, dbs, inputs, n, i) then [i] + JointMisses(pots, dbs, inputs, n, i + 1)
      else JointMisses(pots, dbs, inputs, n, i + 1)
  {
    hide SomeMiss;
    assert [] + JointMisses(pots, dbs, inputs, n, i + 1) == JointMisses(pots, dbs, inputs, n, i + 1);
  }

  // A joint hit on one rank is a hit on all of them.
  lemma HitIsJoint(pots: seq<Potential>, dbs: seq<Database>, inputs: seq<seq<Input>>, n: nat, agreed: bool, r: nat, i: nat)
    requires Calculator(pots, dbs, inputs, n) && r < |pots| && i < n
    requires agreed <==> !SomeMiss(pots, dbs, inputs, n, i)
    ensures pots[r].Hit(dbs[r], inputs[r][i], agreed) <==> !SomeMiss(pots, dbs, inputs, n, i)
  {
    hide Potential.Usable;
    if agreed {
      assert Own(pots, dbs, inputs, n, r, i);
    }
  }

  // After the agreement every rank sends the same systems to the kernel:
  // those at least one rank misses.
  lemma {:induction false} SameMissesOnEveryRank(pots: seq<Potential>, dbs: seq<Database>, inputs: seq<seq<Input>>, n: nat,
                                                 agreed: seq<bool>, r: nat, i: nat)
    requires Calculator(pots, dbs, inputs, n) && r < |pots| && i <= n && |agreed| == n
    requires JointAnswers(pots, dbs, inputs, n, agreed)
    ensures |inputs[r]| == n
    ensures pots[r].Misses(dbs[r], inputs[r], agreed, i) == JointMisses(pots, dbs, inputs, n, i)
    decreases n - i
  {
    assert |inputs[r]| == n;
    hide *;
    if i < n {
      SameMissesOnEveryRank(pots, dbs, inputs, n, agreed, r, i + 1);
      SameMissesStep(pots, dbs, inputs, n, agreed, r, i);
    } else {
      NoneLeft(pots, dbs, inputs, n, agreed, r);
    }
  }

  lemma NoneLeft(pots: seq<Potential>, dbs: seq<Database>, inputs: seq<seq<Input>>, n: nat, agreed: seq<bool>, r: nat)
    requires Calculator(pots, dbs, inputs, n) && r < |pots| && |agreed| == n
    ensures |inputs[r]| == n
    ensures pots[r].Misses(dbs[r], inputs[r], agreed, n) == JointMisses(pots, dbs, inputs, n, n)
  {
    pots[r].MissesEnd(dbs[r], inputs[r], agreed);
  }

  lemma SameMissesStep(pots: seq<Potential>, dbs: seq<Database>, inputs: seq<seq<Input>>, n: nat,
                       agreed: seq<bool>, r: nat, i: nat)
    requires Calculator(pots, dbs, inputs, n) && r < |pots| && i < n == |inputs[r]|
    requires JointAnswers(pots, dbs, inputs, n, agreed)
    requires |agreed| == n
      && pots[r].Misses(dbs[r], inputs[r], agreed, i + 1) == JointMisses(pots, dbs, inputs, n, i + 1)
    ensures pots[r].Misses(dbs[r], inputs[r], agreed, i) == JointMisses(pots, dbs, inputs, n, i)
  {
    assert agreed[i] <==> !SomeMiss(pots, dbs, inputs, n, i);
    hide *;
    HitIsJoint(pots, dbs, inputs, n, agreed[i], r, i);
    pots[r].MissesAt(dbs[r], inputs[r], agreed, i);
    NextJointMiss(pots, dbs, inputs, n, i);
  }

  // A rank without a configured cache looks nothing up and agrees on nothing.
  predicate Configured(cached: seq<bool>, dbs: seq<Database>) {
    |cached| == |dbs| && forall r :: 0 <= r < |dbs| ==> dbs[r].Some? ==> cached[r]
  }

  function FlagCount(cached: bool, n: nat): nat {
    if cached then n else 0
  }

  predicate Alike(cached: seq<bool>) {
    forall r :: 0 <= r < |cached| ==> cached[r] == cached[0]
  }

  // The agreement of a batch on all ranks: each rank with a cache looks into
  // its own, the flags are combined in chunks, and every rank is left with
  // the same list of misses.
  method AgreeOnBatch(calculator: Communicator, pots: seq<Potential>, cached: seq<bool>, dbs: seq<Database>,
                      inputs: seq<seq<Input>>, n: nat)
    returns (agreed: seq<seq<bool>>)
    requires Calculator(pots, dbs, inputs, n) && calculator.size == |pots|
    requires Configured(cached, dbs) && Alike(cached)
    modifies calculator
    ensures |agreed| == |pots| && forall r :: 0 <= r < |pots| ==> |agreed[r]| == n
    ensures forall r :: 0 <= r < |pots| ==> JointAnswers(pots, dbs, inputs, n, agreed[r])
    ensures forall r :: 0 <= r < |pots| ==>
      pots[r].Misses(dbs[r], inputs[r], agreed[r], 0) == JointMisses(pots, dbs, inputs, n, 0)
    ensures calculator.log == old(calculator.log) +
      if |pots| < 2 then [] else AndCalls(Chunks(FlagCount(cached[0], n)))
  {
    var size := |pots|;
    var flags := AllFlags(pots, cached, dbs, inputs, n);
    var after, _ := Agree(calculator, flags);
    agreed := AllAnswers(cached, after, n);
    forall r | 0 <= r < size
      ensures JointAnswers(pots, dbs, inputs, n, agreed[r])
      ensures pots[r].Misses(dbs[r], inputs[r], agreed[r], 0) == JointMisses(pots, dbs, inputs, n, 0)
    {
      AgreedMeansNoMiss(pots, cached, dbs, inputs, n, flags, after, agreed[r], r);
      SameMissesOnEveryRank(pots, dbs, inputs, n, agreed[r], r, 0);
    }
  }

  // What each rank brings to the agreement.
  function AllFlags(pots: seq<Potential>, cached: seq<bool>, dbs: seq<Database>, inputs: seq<seq<Input>>, n: nat)
    : (flags: seq<seq<int>>)
    requires Calculator(pots, dbs, inputs, n) && |cached| == |pots|
    ensures |flags| == |pots|
    ensures forall r :: 0 <= r < |pots| ==> flags[r] == if cached[r] then Flags(pots, dbs, inputs, n, r) else []
    ensures forall r :: 0 <= r < |pots| ==> |flags[r]| == FlagCount(cached[r], n)
  {
    seq(|pots|, r requires 0 <= r < |pots| => if cached[r] then Flags(pots, dbs, inputs, n, r) else [])
  }

  // What each rank makes of the flags it is left with.
  function AllAnswers(cached: seq<bool>, after: seq<seq<int>>, n: nat): (agreed: seq<seq<bool>>)
    requires |after| == |cached| && forall r :: 0 <= r < |cached| ==> |after[r]| == FlagCount(cached[r], n)
    ensures |agreed| == |cached| && forall r :: 0 <= r < |cached| ==> |agreed[r]| == n
    ensures forall r :: 0 <= r < |cached| ==> agreed[r] == Answers(cached[r], after[r], n)
  {
    seq(|cached|, r requires 0 <= r < |cached| => Answers(cached[r], after[r], n))
  }

  function Answers(cached: bool, after: seq<int>, n: nat): (agreed: seq<bool>)
    requires |after| == FlagCount(cached, n)
    ensures |agreed| == n && forall i :: 0 <= i < n ==> agreed[i] == (cached && after[i] != 0)
  {
    seq(n, i requires 0 <= i < n => cached && after[i] != 0)
  }

  lemma AgreedMeansNoMiss(pots: seq<Potential>, cached: seq<bool>, dbs: seq<Database>, inputs: seq<seq<Input>>, n: nat,
                          flags: seq<seq<int>>, after: seq<seq<int>>, agreed: seq<bool>, r: nat)
    requires Calculator(pots, dbs, inputs, n) && Configured(cached, dbs) && Alike(cached) && r < |pots|
    requires flags == AllFlags(pots, cached, dbs, inputs, n)
    requires after == if |pots| < 2 then flags else Everywhere(|pots|, AllTrue(flags, |flags[0]|))
    requires |agreed| == n && forall i :: 0 <= i < n ==> agreed[i] == (cached[r] && after[r][i] != 0)
    ensures forall i :: 0 <= i < n ==> (agreed[i] <==> !SomeMiss(pots, dbs, inputs, n, i))
  {
    forall i | 0 <= i < n
      ensures agreed[i] <==> !SomeMiss(pots, dbs, inputs, n, i)
    {
      if cached[r] {
        AllTrueOrMiss(pots, cached, dbs, inputs, n, flags, i);
        if |pots| < 2 {
          assert r == 0;
        } else {
          assert after[r] == AllTrue(flags, n);
        }
      } else {
        assert !Own(pots, dbs, inputs, n, r, i);
      }
    }
  }

  lemma AllTrueOrMiss(pots: seq<Potential>, cached: seq<bool>, dbs: seq<Database>, inputs: seq<seq<Input>>, n: nat,
                      flags: seq<seq<int>>, i: nat)
    requires Calculator(pots, dbs, inputs, n) && |cached| == |pots| && i < n
    requires forall r :: 0 <= r < |pots| ==> cached[r]
    requires flags == AllFlags(pots, cached, dbs, inputs, n)
    ensures (forall q :: 0 <= q < |flags| ==> flags[q][i] != 0) <==> !SomeMiss(pots, dbs, inputs, n, i)
  {
    forall q | 0 <= q < |flags|
      ensures flags[q][i] != 0 <==> Own(pots, dbs, inputs, n, q, i)
    {
      assert flags[q] == Flags(pots, dbs, inputs, n, q);
    }
  }

  // ---- The batch on all ranks ----

  // What forceBatch needs on one rank.
  ghost predicate Ready(pot: Potential, cached: bool, db: Database, inputs: seq<Input>, outs: seq<ForceOut>, b: Buffers) {
    && pot.Faithful() && pot.Slots(inputs, outs, b)
    && (db.Some? ==> cached && pot.Coherent(db.value))
  }

  // The systems rank r would compute if all computed what some rank misses.
  function JointInputs(pots: seq<Potential>, dbs: seq<Database>, inputs: seq<seq<Input>>, n: nat, r: nat): seq<Input>
    requires Calculator(pots, dbs, inputs, n) && r < |pots|
  {
    var joint := JointMisses(pots, dbs, inputs, n, 0);
    assert forall j :: 0 <= j < |joint| ==> joint[j] in joint;
    pots[r].Select(inputs[r], joint)
  }

  // All ranks agree, then each runs its batch in a process of its own. On
  // every rank the kernel is given the same systems, those that some rank
  // misses, and every slot ends with the result of its system, unless a
  // record found on that rank is cut short.
  method JointBatch(calculator: Communicator, pots: seq<Potential>, cached: seq<bool>, dbs: seq<Database>,
                    inputs: seq<seq<Input>>, n: nat, r: nat, outs: array<ForceOut>, mem: Memory)
    returns (peers: seq<bool>, thrown: bool)
    requires Calculator(pots, dbs, inputs, n) && calculator.size == |pots|
    requires Configured(cached, dbs) && Alike(cached)
    requires r < |pots| && dbs[r] == pots[r].db && Ready(pots[r], cached[r], dbs[r], inputs[r], outs[..], mem.buffers)
    modifies calculator, pots[r], outs, mem
    ensures JointAnswers(pots, dbs, inputs, n, peers)
    ensures thrown <==> pots[r].FirstBroken(dbs[r], inputs[r], peers, 0) < n
    ensures pots[r].kernelLog == old(pots[r].kernelLog) + if thrown then [] else JointInputs(pots, dbs, inputs, n, r)
    ensures pots[r].forceCalls == old(pots[r].forceCalls) + if thrown then 0 else |JointMisses(pots, dbs, inputs, n, 0)|
    ensures !thrown ==>
      pots[r].AllDone(inputs[r], peers, dbs[r], old(outs[..]), old(mem.buffers), outs[..], mem.buffers)
    ensures thrown ==>
      pots[r].Interrupted(inputs[r], peers, dbs[r], old(outs[..]), old(mem.buffers), outs[..], mem.buffers)
    ensures calculator.log == old(calculator.log) +
      if |pots| < 2 then [] else AndCalls(Chunks(FlagCount(cached[0], n)))
  {
    var agreed := AgreeOnBatch(calculator, pots, cached, dbs, inputs, n);
    hide Potential.Faithful, Potential.Slots, Potential.Coherent, Potential.Misses, Potential.Select,
         Potential.AllDone, Potential.Interrupted, Potential.FirstBroken, Potential.AllSized, Potential.AddedAll,
         JointMisses, Configured, Alike;
    peers := agreed[r];
    thrown := pots[r].ForceBatch(inputs[r], outs, mem, cached[r], peers);
  }

  // ---- One system ----

  predicate OwnRecord(pots: seq<Potential>, dbs: seq<Database>, xs: seq<Input>, r: nat)
    requires |pots| == |dbs| == |xs| && r < |pots|
  {
    dbs[r].Some? && pots[r].key(xs[r]) in dbs[r].value
  }

  predicate AllOwn(pots: seq<Potential>, dbs: seq<Database>, xs: seq<Input>)
    requires |pots| == |dbs| == |xs|
  {
    forall q :: 0 <= q < |pots| ==> OwnRecord(pots, dbs, xs, q)
  }

  // The flag of a rank with a cache.
  function OneFlag(pots: seq<Potential>, cached: seq<bool>, dbs: seq<Database>, xs: seq<Input>): (flags: seq<seq<int>>)
    requires |pots| == |cached| == |dbs| == |xs|
    ensures |flags| == |pots|
    ensures forall r :: 0 <= r < |pots| ==> |flags[r]| == FlagCount(cached[r], 1)
    ensures forall r :: 0 <= r < |pots| && cached[r] ==> |flags[r]| == 1 && (flags[r][0] != 0 <==> OwnRecord(pots, dbs, xs, r))
  {
    seq(|pots|, r requires 0 <= r < |pots| =>
      if !cached[r] then [] else if OwnRecord(pots, dbs, xs, r) then [1] else [0])
  }

  // A single call on all ranks: one flag from each rank with a cache, and
  // then every rank skips the kernel or every rank enters it; skipping takes
  // a record on all.
  method AgreeOnCall(calculator: Communicator, pots: seq<Potential>, cached: seq<bool>, dbs: seq<Database>, xs: seq<Input>)
    returns (agreed: seq<bool>)
    requires |pots| == |dbs| == |xs| == calculator.size > 0 && Configured(cached, dbs) && Alike(cached)
    requires forall r :: 0 <= r < |pots| ==> pots[r].groupCollective
    modifies calculator
    ensures |agreed| == |pots|
    ensures forall r :: 0 <= r < |pots| ==> (pots[r].SingleHit(dbs[r], xs[r], agreed[r]) <==> AllOwn(pots, dbs, xs))
    ensures calculator.log == old(calculator.log) +
      if |pots| < 2 then [] else AndCalls(Chunks(FlagCount(cached[0], 1)))
  {
    var flags := OneFlag(pots, cached, dbs, xs);
    var after, _ := Agree(calculator, flags);
    var answers := AllAnswers(cached, after, 1);
    agreed := seq(|pots|, r requires 0 <= r < |answers| && |answers[r]| == 1 => answers[r][0]);
    forall r | 0 <= r < |pots|
      ensures pots[r].SingleHit(dbs[r], xs[r], agreed[r]) <==> AllOwn(pots, dbs, xs)
    {
      assert agreed[r] == answers[r][0] == (cached[r] && after[r][0] != 0);
      JointAnswer(pots, cached, dbs, xs, flags, after, r);
      HitFollows(pots, dbs, xs, agreed[r], r);
    }
  }

  lemma JointAnswer(pots: seq<Potential>, cached: seq<bool>, dbs: seq<Database>, xs: seq<Input>,
                    flags: seq<seq<int>>, after: seq<seq<int>>, r: nat)
    requires |pots| == |dbs| == |xs| && Configured(cached, dbs) && Alike(cached) && r < |pots|
    requires flags == OneFlag(pots, cached, dbs, xs)
    requires after == if |pots| < 2 then flags else Everywhere(|pots|, AllTrue(flags, |flags[0]|))
    ensures cached[r] && after[r][0] != 0 <==> AllOwn(pots, dbs, xs)
  {
    if cached[r] {
      assert forall q :: 0 <= q < |pots| ==> (flags[q][0] != 0 <==> OwnRecord(pots, dbs, xs, q));
      if |pots| < 2 {
        assert r == 0;
      } else {
        assert after[r] == AllTrue(flags, 1);
        assert AllTrue(flags, 1)[0] != 0 <==> forall q :: 0 <= q < |flags| ==> flags[q][0] != 0;
      }
    } else {
      assert !OwnRecord(pots, dbs, xs, r);
    }
  }

  lemma HitFollows(pots: seq<Potential>, dbs: seq<Database>, xs: seq<Input>, agreed: bool, r: nat)
    requires |pots| == |dbs| == |xs| && r < |pots| && pots[r].groupCollective
    requires agreed <==> AllOwn(pots, dbs, xs)
    ensures pots[r].SingleHit(dbs[r], xs[r], agreed) <==> agreed
  {
    if agreed {
      assert OwnRecord(pots, dbs, xs, r);
    }
  }

  // ---- When the agreement is matched ----

  // The agreement is inside the branch for a configured cache. On two or more
  // ranks all enter the same collectives exactly when all have a cache or
  // none has; otherwise the very first turn is not matched. A single call is
  // the case n = 1.
  lemma CacheOnAllRanksOrNone(cached: seq<bool>, flags: seq<seq<int>>, n: nat)
    requires |cached| == |flags| >= 2 && n > 0
    requires forall r :: 0 <= r < |flags| ==> |flags[r]| == FlagCount(cached[r], n)
    ensures Alike(cached) <==>
      forall r :: 0 <= r < |flags| ==> AndCalls(Chunks(|flags[r]|)) == AndCalls(Chunks(|flags[0]|))
    ensures Alike(cached) <==>
      Matched(TurnCalls(flags)) || forall r :: 0 <= r < |flags| ==> TurnCalls(flags)[r].None?
  {
    forall r | 0 <= r < |flags|
      ensures AndCalls(Chunks(|flags[r]|)) == AndCalls(Chunks(|flags[0]|)) <==> cached[r] == cached[0]
    {
      SameCallsSameCount(|flags[r]|, |flags[0]|);
    }
    var calls := TurnCalls(flags);
    assert forall r :: 0 <= r < |flags| ==> (calls[r].Some? <==> cached[r]);
    if Matched(calls) {
      assert forall r :: 0 <= r < |flags| ==> calls[r] == calls[0];
    }
  }
}
