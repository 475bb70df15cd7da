// Force evaluation through the result cache: one system, and a batch.
module CachedPotentials {
  import opened Wrappers
  import opened CacheRecords
  import opened Sequences

  type Key = nat

  datatype Input = Input(nAtoms: nat, pos: seq<Word>, atmnrs: seq<int>, box: seq<Word>)

  // What a kernel stores; variance and stress only if it computes them.
  datatype Stores = Stores(energy: Word, forces: seq<Word>, variance: Option<Word>, stress: Option<Stress>)
  datatype Stress = Stress(values: seq<Word>, flag: int)

  // One result slot. F is a pointer: copies of a slot share the buffer.
  datatype ForceOut = ForceOut(F: nat, energy: Word, variance: Word, stress: seq<Word>, hasStress: int)

  // What a call for one system gives.
  datatype Evaluation = Evaluation(energy: Word, forces: seq<Word>, variance: Word)

  // The force buffers of the caller, by address.
  type Buffers = map<nat, seq<Word>>

  class Memory {
    var buffers: Buffers

    constructor ()
      ensures buffers == map[]
    {
      buffers := map[];
    }

    // Copies to the front of a buffer.
    method CopyWords(F: nat, words: seq<Word>)
      requires F in buffers && |words| <= |buffers[F]|
      modifies this
      ensures buffers == old(buffers)[F := words + old(buffers)[F][|words|..]]
    {
      buffers := buffers[F := words + buffers[F][|words|..]];
    }
  }

  predicate Room(o: ForceOut, b: Buffers, nAtoms: nat) {
    o.F in b && 3 * nAtoms <= |b[o.F]| && |o.stress| == 9
  }

  // A slot as a result for n atoms.
  function View(o: ForceOut, b: Buffers, nAtoms: nat): Output
    requires Room(o, b, nAtoms)
  {
    Output(o.energy, b[o.F][..3 * nAtoms], o.variance, o.stress, o.hasStress)
  }

  // The same slot holding another result; the rest of the buffer stays.
  predicate Holds(o: ForceOut, b: Buffers, nAtoms: nat, result: Output, o': ForceOut, b': Buffers)
    requires Room(o, b, nAtoms)
  {
    && o'.F == o.F && Room(o', b', nAtoms)
    && View(o', b', nAtoms) == result
    && |b'[o.F]| == |b[o.F]|
    && b'[o.F][3 * nAtoms..] == b[o.F][3 * nAtoms..]
  }

  // Only the buffer of the slot matters.
  lemma HoldsLocally(o: ForceOut, b: Buffers, c: Buffers, nAtoms: nat, result: Output, o': ForceOut, b': Buffers, c': Buffers)
    requires Room(o, b, nAtoms) && Holds(o, b, nAtoms, result, o', b')
    requires o.F in c && o.F in c' && c[o.F] == b[o.F] && c'[o.F] == b'[o.F]
    ensures Holds(o, c, nAtoms, result, o', c')
    ensures View(o, c, nAtoms) == View(o, b, nAtoms)
  {
  }

  function Applied(before: Output, s: Stores): Output {
    Output(
      s.energy, s.forces,
      (match s.variance case None => before.variance case Some(v) => v),
      (match s.stress case None => before.stress case Some(t) => t.values),
      (match s.stress case None => before.hasStress case Some(t) => t.flag))
  }

  // The result of a slot that was cleared first.
  function ResultOf(s: Stores): Output {
    Applied(Output(ZERO, [], ZERO, Zeros(9), 0), s)
  }

  // deserialize_hit
  method Load(record: seq<Byte>, nAtoms: nat, o: ForceOut, mem: Memory) returns (o': ForceOut)
    requires Room(o, mem.buffers, nAtoms) && Decode(record, nAtoms).Some?
    modifies mem
    ensures Holds(o, old(mem.buffers), nAtoms, Decode(record, nAtoms).value, o', mem.buffers)
    ensures mem.buffers.Keys == old(mem.buffers.Keys)
    ensures forall p :: p in mem.buffers && p != o.F ==> mem.buffers[p] == old(mem.buffers)[p]
  {
    hide Decode;
    var result := Decode(record, nAtoms).value;
    mem.CopyWords(o.F, result.forces);
    o' := ForceOut(o.F, result.energy, result.variance, result.stress, result.hasStress);
  }

  class Potential {
    const kernel: Input -> Stores
    const key: Input -> Key
    const stressCap: bool
    const groupCollective: bool
    // The inputs this potential is used on.
    ghost const play: iset<Input>

    // The database of the cache; None without a cache or an open database.
    var db: Option<map<Key, seq<Byte>>>
    var forceCalls: nat
    // Every input handed to the kernel, in order.
    ghost var kernelLog: seq<Input>

    constructor (kernel: Input -> Stores, key: Input -> Key, stressCap: bool, groupCollective: bool,
                 ghost play: iset<Input>)
      ensures this.kernel == kernel && this.key == key && this.stressCap == stressCap
      ensures this.groupCollective == groupCollective && this.play == play
      ensures db.None? && forceCalls == 0 && kernelLog == []
    {
      this.kernel := kernel;
      this.key := key;
      this.stressCap := stressCap;
      this.groupCollective := groupCollective;
      this.play := play;
      db := None;
      forceCalls := 0;
      kernelLog := [];
    }

    function Result(x: Input): Output {
      ResultOf(kernel(x))
    }

    // The kernel fills what it must, and equal keys mean equal results.
    ghost predicate Faithful() {
      && (forall x :: x in play ==> Sized(Result(x), x.nAtoms))
      && (forall x, y :: x in play && y in play && key(x) == key(y) ==> x.nAtoms == y.nAtoms && Result(x) == Result(y))
    }

    // A record under the key of x: cut short, or the energy and forces of the
    // kernel, and the whole result if it is not an old record.
    predicate RecordFits(record: seq<Byte>, x: Input) {
      Decode(record, x.nAtoms).None? || Decode(record, x.nAtoms) == Some(Recalled(record, x))
    }

    // What a hit on the record gives for x: an old record knows neither
    // variance nor stress.
    function Recalled(record: seq<Byte>, x: Input): Output {
      if HasResultMetadata(record, x.nAtoms) then Normal(Result(x))
      else Output(Result(x).energy, Result(x).forces, ZERO, Zeros(9), 0)
    }

    ghost predicate Coherent(m: map<Key, seq<Byte>>) {
      forall x :: x in play && key(x) in m ==> RecordFits(m[key(x)], x)
    }

    // A record the batch takes as a hit for x.
    predicate Usable(m: map<Key, seq<Byte>>, x: Input) {
      key(x) in m && (stressCap ==> HasResultMetadata(m[key(x)], x.nAtoms))
    }

    // find
    method Find(k: Key) returns (r: Option<seq<Byte>>)
      ensures r == if db.Some? && k in db.value then Some(db.value[k]) else None
    {
      if db.None? {
        return None;
      }
      if k in db.value {
        return Some(db.value[k]);
      }
      return None;
    }

    function WithRecord(m: Option<map<Key, seq<Byte>>>, k: Key, record: seq<Byte>): Option<map<Key, seq<Byte>>> {
      match m case None => None case Some(d) => Some(d[k := record])
    }

    // add_serialized
    method Add(k: Key, o: ForceOut, b: Buffers, nAtoms: nat)
      requires Room(o, b, nAtoms)
      modifies this`db
      ensures db == WithRecord(old(db), k, Encode(View(o, b, nAtoms), nAtoms))
    {
      if db.None? {
        return;
      }
      var record := Serialize(View(o, b, nAtoms), nAtoms);
      db := Some(db.value[k := record]);
    }

    lemma AddedCoherent(m: map<Key, seq<Byte>>, x: Input)
      requires Faithful() && x in play && Coherent(m)
      ensures Sized(Result(x), x.nAtoms)
      ensures Coherent(m[key(x) := Encode(Result(x), x.nAtoms)])
    {
      RecordRoundTrip(Result(x), x.nAtoms);
    }

    // The record of the writer of energy and forces alone.
    function OldRecord(x: Input): seq<Byte> {
      Flatten([Result(x).energy] + Result(x).forces)
    }

    // It is right as well. A potential that reports stress recomputes it; any
    // other takes it as a hit and loses the variance and the stress that the
    // kernel stored.
    lemma OldRecordCoherent(m: map<Key, seq<Byte>>, x: Input)
      requires Faithful() && x in play && Coherent(m)
      ensures var m' := m[key(x) := OldRecord(x)];
        && Coherent(m')
        && (Usable(m', x) <==> !stressCap)
        && Decode(m'[key(x)], x.nAtoms).Some?
        && Recalled(m'[key(x)], x) == Output(Result(x).energy, Result(x).forces, ZERO, Zeros(9), 0)
    {
      OldRecordFits(x);
      hide Decode, HasResultMetadata, OldRecord, Result;
      var m' := m[key(x) := OldRecord(x)];
      forall y | y in play && key(y) in m'
        ensures RecordFits(m'[key(y)], y)
      {
        if key(y) == key(x) {
          assert y.nAtoms == x.nAtoms && Result(y) == Result(x);
        } else {
          assert RecordFits(m[key(y)], y);
        }
      }
    }

    lemma OldRecordFits(x: Input)
      requires Faithful() && x in play
      ensures !HasResultMetadata(OldRecord(x), x.nAtoms)
      ensures Decode(OldRecord(x), x.nAtoms).Some? && RecordFits(OldRecord(x), x)
    {
      var out := Result(x);
      assert Sized(out, x.nAtoms) && out.forces[..3 * x.nAtoms] == out.forces;
      LegacyNeverMetadata([out.energy] + out.forces, x.nAtoms);
      LegacyDecodes(out.energy, out.forces, x.nAtoms);
      hide Decode, HasResultMetadata, Flatten;
    }

    // forceImpl
    method ForceImpl(x: Input, o: ForceOut, mem: Memory) returns (o': ForceOut)
      requires Faithful() && x in play && Room(o, mem.buffers, x.nAtoms)
      modifies this`kernelLog, mem
      ensures kernelLog == old(kernelLog) + [x]
      ensures Holds(o, old(mem.buffers), x.nAtoms, Applied(View(o, old(mem.buffers), x.nAtoms), kernel(x)), o', mem.buffers)
      ensures mem.buffers.Keys == old(mem.buffers.Keys)
      ensures forall p :: p in mem.buffers && p != o.F ==> mem.buffers[p] == old(mem.buffers)[p]
    {
      var s := kernel(x);
      assert Sized(Result(x), x.nAtoms);
      kernelLog := kernelLog + [x];
      mem.CopyWords(o.F, s.forces);
      o' := o.(energy := s.energy);
      if s.variance.Some? {
        o' := o'.(variance := s.variance.value);
      }
      if s.stress.Some? {
        o' := o'.(stress := s.stress.value.values, hasStress := s.stress.value.flag);
      }
    }

    // ---- One system ----

    predicate SingleHit(m: Option<map<Key, seq<Byte>>>, x: Input, peerHas: bool) {
      m.Some? && key(x) in m.value && (groupCollective ==> peerHas)
    }

    // operator(): energy, forces and variance of one system, or the exception
    // for a hit whose record is cut short. peerHas is the joint answer of the
    // other ranks of the calculator.
    method Evaluate(x: Input, cached: bool, peerHas: bool) returns (r: Option<Evaluation>)
      requires x in play && Faithful()
      requires db.Some? ==> cached && Coherent(db.value)
      modifies this
      // A record under the key is a hit, unless a peer has none.
      ensures var hit := old(db).Some? && key(x) in old(db).value && (groupCollective ==> peerHas);
        && (r.None? <==> hit && Decode(old(db).value[key(x)], x.nAtoms).None?)
        && (r.Some? ==> r.value == Evaluation(Result(x).energy, Result(x).forces,
              if hit && !HasResultMetadata(old(db).value[key(x)], x.nAtoms) then ZERO else Result(x).variance))
        && kernelLog == old(kernelLog) + (if hit then [] else [x])
        && forceCalls == old(forceCalls) + (if hit then 0 else 1)
        && Sized(Result(x), x.nAtoms)
        && db == if hit then old(db) else WithRecord(old(db), key(x), Encode(Result(x), x.nAtoms))
      ensures db.Some? ==> Coherent(db.value)
    {
      var mem := new Memory();
      mem.buffers := map[0 := Zeros(3 * x.nAtoms)];
      var fo := ForceOut(0, ZERO, ZERO, Zeros(9), 0);
      var k := key(x);
      assert Sized(Result(x), x.nAtoms);
      if cached {
        var hit := Find(k);
        if groupCollective {
          var have := hit.Some? && peerHas;
          if !have {
            hit := None;
          }
        }
        if hit.Some? {
          if Decode(hit.value, x.nAtoms).None? {
            return None;
          }
          assert RecordFits(hit.value, x);
          fo := Load(hit.value, x.nAtoms, fo, mem);
          assert mem.buffers[0] == mem.buffers[0][..3 * x.nAtoms];
          return Some(Evaluation(fo.energy, mem.buffers[0], fo.variance));
        }
      }
      fo := ForceImpl(x, fo, mem);
      forceCalls := forceCalls + 1;
      assert View(fo, mem.buffers, x.nAtoms) == Result(x);
      if cached {
        if db.Some? {
          AddedCoherent(db.value, x);
        }
        Add(k, fo, mem.buffers, x.nAtoms);
      }
      assert mem.buffers[0] == mem.buffers[0][..3 * x.nAtoms];
      return Some(Evaluation(fo.energy, mem.buffers[0], fo.variance));
    }

    // The same call again: the record written by the first, or found by it, is
    // a hit, so the kernel is not run a second time.
    method EvaluateTwice(x: Input, cached: bool, peerHas: bool) returns (first: Option<Evaluation>, second: Option<Evaluation>)
      requires x in play && Faithful()
      requires db.Some? ==> cached && Coherent(db.value)
      modifies this
      ensures old(db).Some? && (groupCollective ==> peerHas) ==>
        && (first.None? <==> second.None?) && |kernelLog| <= |old(kernelLog)| + 1
        && (old(kernelLog) != kernelLog <==> key(x) !in old(db).value)
        && (first.Some? ==> first.value == second.value) && forceCalls <= old(forceCalls) + 1
    {
      first := Evaluate(x, cached, peerHas);
      RecordRoundTrip(Result(x), x.nAtoms);
      second := Evaluate(x, cached, peerHas);
    }

    // ---- The batch ----

    // A joint hit: this rank has a usable record and so has every peer.
    predicate Hit(m: Option<map<Key, seq<Byte>>>, x: Input, peerHas: bool) {
      m.Some? && Usable(m.value, x) && (groupCollective ==> peerHas)
    }

    // A joint hit whose record is cut short: reading it is an exception.
    predicate Broken(m: Option<map<Key, seq<Byte>>>, x: Input, peerHas: bool) {
      Hit(m, x, peerHas) && Decode(m.value[key(x)], x.nAtoms).None?
    }

    // The position of the first of them from i on.
    function FirstBroken(m: Option<map<Key, seq<Byte>>>, inputs: seq<Input>, peers: seq<bool>, i: nat): (n: nat)
      requires |inputs| == |peers| && i <= |inputs|
      ensures i <= n <= |inputs| && (forall j :: i <= j < n ==> !Broken(m, inputs[j], peers[j]))
      ensures n < |inputs| ==> Broken(m, inputs[n], peers[n])
      decreases |inputs| - i
    {
      if i == |inputs| || Broken(m, inputs[i], peers[i]) then i else FirstBroken(m, inputs, peers, i + 1)
    }

    // The systems sent to the kernel, from position i on.
    function Misses(m: Option<map<Key, seq<Byte>>>, inputs: seq<Input>, peers: seq<bool>, i: nat): (r: seq<nat>)
      requires |inputs| == |peers| && i <= |inputs|
      ensures forall j :: j in r <==> i <= j < |inputs| && !Hit(m, inputs[j], peers[j])
      ensures forall a, b :: 0 <= a < b < |r| ==> r[a] < r[b]
      ensures forall a :: 0 <= a < |r| ==> i <= r[a] < |inputs|
      decreases |inputs| - i
    {
      if i == |inputs| then []
      else
        var rest := Misses(m, inputs, peers, i + 1);
        assert forall a :: 0 <= a < |rest| ==> rest[a] in rest;
        if Hit(m, inputs[i], peers[i]) then rest else [i] + rest
    }

    function Select(inputs: seq<Input>, indices: seq<nat>): (r: seq<Input>)
      requires forall j :: 0 <= j < |indices| ==> indices[j] < |inputs|
      ensures |r| == |indices| && forall j :: 0 <= j < |r| ==> r[j] == inputs[indices[j]]
    {
      seq(|indices|, j requires 0 <= j < |indices| => inputs[indices[j]])
    }

    // The systems nothing usable is stored for: without a database, without a
    // record, with a record that lacks the stress a potential reports, or with
    // a peer that has none.
    function Uncached(m: Option<map<Key, seq<Byte>>>, inputs: seq<Input>, peers: seq<bool>): seq<Input>
      requires |inputs| == |peers|
    {
      if inputs == [] then []
      else
        var x, rest := inputs[0], Uncached(m, inputs[1..], peers[1..]);
        if m.None? || key(x) !in m.value || (stressCap && !HasResultMetadata(m.value[key(x)], x.nAtoms))
           || (groupCollective && !peers[0])
        then [x] + rest else rest
    }

    lemma {:induction false} SentAreUncached(m: Option<map<Key, seq<Byte>>>, inputs: seq<Input>, peers: seq<bool>, i: nat)
      requires |inputs| == |peers| && i <= |inputs|
      ensures Select(inputs, Misses(m, inputs, peers, i)) == Uncached(m, inputs[i..], peers[i..])
      decreases |inputs| - i
    {
      if i < |inputs| {
        SentAreUncached(m, inputs, peers, i + 1);
        assert inputs[i..][1..] == inputs[i + 1..] && peers[i..][1..] == peers[i + 1..];
        var rest := Misses(m, inputs, peers, i + 1);
        SelectCons(inputs, i, rest);
        assert inputs[i..][0] == inputs[i] && peers[i..][0] == peers[i];
        MissesAt(m, inputs, peers, i);
        hide Misses, Select;
      }
    }

    lemma SelectCons(inputs: seq<Input>, i: nat, rest: seq<nat>)
      requires i < |inputs| && forall j :: 0 <= j < |rest| ==> rest[j] < |inputs|
      ensures Select(inputs, [i] + rest) == [inputs[i]] + Select(inputs, rest)
    {
    }

    // A joint hit on a record too short to read.
    predicate Unreadable(m: Option<map<Key, seq<Byte>>>, x: Input, peerHas: bool) {
      m.Some? && key(x) in m.value && Decode(m.value[key(x)], x.nAtoms).None? && !stressCap
      && (groupCollective ==> peerHas)
    }

    lemma BrokenIsUnreadable(m: Option<map<Key, seq<Byte>>>, inputs: seq<Input>, peers: seq<bool>)
      requires |inputs| == |peers|
      ensures FirstBroken(m, inputs, peers, 0) < |inputs|
        <==> exists i :: 0 <= i < |inputs| && Unreadable(m, inputs[i], peers[i])
    {
      forall i | 0 <= i < |inputs|
        ensures Broken(m, inputs[i], peers[i]) <==> Unreadable(m, inputs[i], peers[i])
      {
      }
    }

    // What the batch leaves in a slot.
    function BatchOutput(m: Option<map<Key, seq<Byte>>>, x: Input, peerHas: bool): Output {
      if Hit(m, x, peerHas) then Recalled(m.value[key(x)], x) else Result(x)
    }

    // Parallel arrays, room for the forces, and buffers that do not overlap.
    ghost predicate Slots(inputs: seq<Input>, outs: seq<ForceOut>, b: Buffers) {
      && |inputs| == |outs|
      && (forall i :: 0 <= i < |outs| ==> inputs[i] in play && Room(outs[i], b, inputs[i].nAtoms))
      && (forall i, j :: 0 <= i < j < |outs| ==> outs[i].F != outs[j].F)
    }

    // The first k slots have been visited: a slot with a target holds it, a
    // slot without one is as it was, and no other buffer has changed.
    ghost predicate Visited(inputs: seq<Input>, was: seq<ForceOut>, wasB: Buffers, now: seq<ForceOut>, nowB: Buffers,
                            targets: seq<Option<Output>>, k: nat)
      requires Slots(inputs, was, wasB)
    {
      && |targets| == |now| == |inputs| && k <= |inputs|
      && nowB.Keys == wasB.Keys
      && (forall p :: p in wasB && (forall i :: 0 <= i < k ==> targets[i].Some? ==> was[i].F != p) ==> nowB[p] == wasB[p])
      && (forall i :: 0 <= i < |inputs| && (i >= k || targets[i].None?) ==> now[i] == was[i])
      && (forall i :: 0 <= i < k && targets[i].Some? ==>
            Holds(was[i], wasB, inputs[i].nAtoms, targets[i].value, now[i], nowB))
    }

    lemma VisitStore(inputs: seq<Input>, was: seq<ForceOut>, wasB: Buffers, now: seq<ForceOut>, nowB: Buffers,
                     targets: seq<Option<Output>>, k: nat, o: ForceOut, nextB: Buffers)
      requires Slots(inputs, was, wasB) && Visited(inputs, was, wasB, now, nowB, targets, k)
      requires k < |inputs| && targets[k].Some?
      requires Room(now[k], nowB, inputs[k].nAtoms)
      requires Holds(now[k], nowB, inputs[k].nAtoms, targets[k].value, o, nextB)
      requires nextB.Keys == nowB.Keys && forall p :: p in nowB && p != now[k].F ==> nextB[p] == nowB[p]
      ensures Visited(inputs, was, wasB, now[k := o], nextB, targets, k + 1)
    {
      hide Holds;
      assert nowB[was[k].F] == wasB[was[k].F];
      HoldsLocally(was[k], nowB, wasB, inputs[k].nAtoms, targets[k].value, o, nextB, nextB);
      forall i | 0 <= i < k && targets[i].Some?
        ensures Holds(was[i], wasB, inputs[i].nAtoms, targets[i].value, now[i], nextB)
      {
        HoldsLocally(was[i], wasB, wasB, inputs[i].nAtoms, targets[i].value, now[i], nowB, nextB);
      }
    }

    lemma VisitSkip(inputs: seq<Input>, was: seq<ForceOut>, wasB: Buffers, now: seq<ForceOut>, nowB: Buffers,
                    targets: seq<Option<Output>>, k: nat)
      requires Slots(inputs, was, wasB) && Visited(inputs, was, wasB, now, nowB, targets, k)
      requires k < |inputs| && targets[k].None?
      ensures Visited(inputs, was, wasB, now, nowB, targets, k + 1)
    {
    }

    lemma VisitStart(inputs: seq<Input>, was: seq<ForceOut>, wasB: Buffers, targets: seq<Option<Output>>)
      requires Slots(inputs, was, wasB) && |targets| == |inputs|
      ensures Visited(inputs, was, wasB, was, wasB, targets, 0)
    {
    }

    lemma VisitedWithoutTarget(inputs: seq<Input>, was: seq<ForceOut>, wasB: Buffers, now: seq<ForceOut>, nowB: Buffers,
                               targets: seq<Option<Output>>, i: nat)
      requires Slots(inputs, was, wasB) && Visited(inputs, was, wasB, now, nowB, targets, |inputs|)
      requires i < |inputs| && targets[i].None?
      ensures |now| == |was| == |inputs| && now[i] == was[i]
      ensures was[i].F in nowB && was[i].F in wasB && nowB[was[i].F] == wasB[was[i].F]
    {
      hide Holds;
    }

    lemma VisitedElsewhere(inputs: seq<Input>, was: seq<ForceOut>, wasB: Buffers, now: seq<ForceOut>, nowB: Buffers,
                           targets: seq<Option<Output>>, p: nat)
      requires Slots(inputs, was, wasB) && Visited(inputs, was, wasB, now, nowB, targets, |inputs|)
      requires p in wasB && forall i :: 0 <= i < |was| ==> was[i].F != p
      ensures p in nowB && nowB[p] == wasB[p]
    {
      hide Holds;
    }

    lemma NotYetVisited(inputs: seq<Input>, was: seq<ForceOut>, wasB: Buffers, now: seq<ForceOut>, nowB: Buffers,
                        targets: seq<Option<Output>>, k: nat)
      requires Slots(inputs, was, wasB) && Visited(inputs, was, wasB, now, nowB, targets, k)
      requires k < |inputs|
      ensures |now| == |inputs| == |was| && inputs[k] in play
      ensures now[k] == was[k] && Room(now[k], nowB, inputs[k].nAtoms)
      ensures nowB[now[k].F] == wasB[now[k].F]
      ensures View(now[k], nowB, inputs[k].nAtoms) == View(was[k], wasB, inputs[k].nAtoms)
    {
    }

    method Clear(outs: array<ForceOut>)
      modifies outs
      ensures forall i :: 0 <= i < outs.Length ==>
        outs[i] == old(outs[i]).(variance := ZERO, hasStress := 0, stress := Zeros(9))
    {
      for i := 0 to outs.Length
        invariant forall j :: 0 <= j < i ==> outs[j] == old(outs[j]).(variance := ZERO, hasStress := 0, stress := Zeros(9))
        invariant forall j :: i <= j < outs.Length ==> outs[j] == old(outs[j])
      {
        outs[i] := outs[i].(variance := ZERO);
        outs[i] := outs[i].(hasStress := 0);
        outs[i] := outs[i].(stress := Zeros(9));
      }
    }

    ghost function Computed(inputs: seq<Input>, outs: seq<ForceOut>, b: Buffers): (r: seq<Option<Output>>)
      requires Slots(inputs, outs, b)
      ensures |r| == |inputs|
    {
      seq(|inputs|, i requires 0 <= i < |inputs| =>
        Some(Applied(View(outs[i], b, inputs[i].nAtoms), kernel(inputs[i]))))
    }

    // One turn of the loop.
    method ComputeSlot(inputs: seq<Input>, outs: array<ForceOut>, mem: Memory, k: nat,
                       ghost was: seq<ForceOut>, ghost wasB: Buffers, ghost targets: seq<Option<Output>>)
      requires Faithful() && Slots(inputs, was, wasB)
      requires Visited(inputs, was, wasB, outs[..], mem.buffers, targets, k) && k < |inputs|
      requires targets[k] == Some(Applied(View(was[k], wasB, inputs[k].nAtoms), kernel(inputs[k])))
      modifies this`kernelLog, outs, mem
      ensures kernelLog == old(kernelLog) + [inputs[k]]
      ensures Visited(inputs, was, wasB, outs[..], mem.buffers, targets, k + 1)
    {
      ghost var now, nowB := outs[..], mem.buffers;
      NotYetVisited(inputs, was, wasB, now, nowB, targets, k);
      hide Holds, View, Applied, Visited;
      var result := ForceImpl(inputs[k], outs[k], mem);
      VisitStore(inputs, was, wasB, now, nowB, targets, k, result, mem.buffers);
      outs[k] := result;
      assert outs[..] == now[k := result];
    }

    // The default loop over the systems.
    method ForceBatchImpl(inputs: seq<Input>, outs: array<ForceOut>, mem: Memory)
      requires Faithful() && Slots(inputs, outs[..], mem.buffers)
      modifies this`kernelLog, outs, mem
      ensures kernelLog == old(kernelLog) + inputs
      ensures Visited(inputs, old(outs[..]), old(mem.buffers), outs[..], mem.buffers,
                      Computed(inputs, old(outs[..]), old(mem.buffers)), |inputs|)
    {
      ghost var was, wasB := outs[..], mem.buffers;
      ghost var targets := Computed(inputs, was, wasB);
      VisitStart(inputs, was, wasB, targets);
      ghost var log := kernelLog;
      Empties(log);
      Empties(inputs);
      hide *;
      for k := 0 to |inputs|
        invariant kernelLog == log + inputs[..k]
        invariant Visited(inputs, was, wasB, outs[..], mem.buffers, targets, k)
      {
        ComputedAt(inputs, was, wasB, k);
        ComputeSlot(inputs, outs, mem, k, was, wasB, targets);
        PrefixStep(inputs, k);
        Assoc(log, inputs[..k], [inputs[k]]);
      }
    }

    lemma ComputedAt(inputs: seq<Input>, outs: seq<ForceOut>, b: Buffers, k: nat)
      requires Slots(inputs, outs, b) && k < |inputs|
      ensures Room(outs[k], b, inputs[k].nAtoms)
      ensures Computed(inputs, outs, b)[k] == Some(Applied(View(outs[k], b, inputs[k].nAtoms), kernel(inputs[k])))
    {
    }

    // Looks every system up, then keeps only the joint hits.
    method LookUp(inputs: seq<Input>, peers: seq<bool>) returns (keys: seq<Key>, hits: seq<Option<seq<Byte>>>)
      requires |inputs| == |peers|
      ensures |keys| == |hits| == |inputs|
      ensures forall i :: 0 <= i < |inputs| ==> keys[i] == key(inputs[i])
      ensures forall i :: 0 <= i < |inputs| ==>
        hits[i] == if Hit(db, inputs[i], peers[i]) then Some(db.value[keys[i]]) else None
    {
      keys, hits := [], [];
      for i := 0 to |inputs|
        invariant |keys| == |hits| == i
        invariant forall j :: 0 <= j < i ==> keys[j] == key(inputs[j])
        invariant forall j :: 0 <= j < i ==>
          hits[j] == if db.Some? && Usable(db.value, inputs[j]) then Some(db.value[keys[j]]) else None
      {
        keys := keys + [key(inputs[i])];
        var hit := Find(keys[i]);
        if hit.Some? && stressCap && !HasResultMetadata(hit.value, inputs[i].nAtoms) {
          hit := None;
        }
        hits := hits + [hit];
      }
      if groupCollective {
        var have := seq(|inputs|, i requires 0 <= i < |inputs| => hits[i].Some?);
        // calculatorAgree
        have := seq(|inputs|, i requires 0 <= i < |inputs| => have[i] && peers[i]);
        for i := 0 to |inputs|
          invariant |hits| == |inputs|
          invariant forall j :: i <= j < |inputs| ==>
            hits[j] == if db.Some? && Usable(db.value, inputs[j]) then Some(db.value[keys[j]]) else None
          invariant forall j :: 0 <= j < i ==>
            hits[j] == if Hit(db, inputs[j], peers[j]) then Some(db.value[keys[j]]) else None
        {
          if !have[i] {
            hits := hits[i := None];
          }
        }
      }
    }

    ghost function Served(m: Option<map<Key, seq<Byte>>>, inputs: seq<Input>, peers: seq<bool>): (r: seq<Option<Output>>)
      requires |inputs| == |peers|
      ensures |r| == |inputs|
    {
      seq(|inputs|, i requires 0 <= i < |inputs| =>
        if Hit(m, inputs[i], peers[i]) then Some(BatchOutput(m, inputs[i], peers[i])) else None)
    }

    // One turn of the loop that serves the hits and collects the misses.
    method ServeSlot(inputs: seq<Input>, outs: array<ForceOut>, mem: Memory, peers: seq<bool>, k: nat,
                     hit: Option<seq<Byte>>, misses: seq<nat>,
                     ghost was: seq<ForceOut>, ghost wasB: Buffers)
      returns (misses': seq<nat>)
      requires Slots(inputs, was, wasB) && |peers| == |inputs|
      requires Visited(inputs, was, wasB, outs[..], mem.buffers, Served(db, inputs, peers), k) && k < |inputs|
      requires db.Some? ==> Coherent(db.value)
      requires hit == if Hit(db, inputs[k], peers[k]) then Some(db.value[key(inputs[k])]) else None
      requires !Broken(db, inputs[k], peers[k])
      modifies outs, mem
      ensures Visited(inputs, was, wasB, outs[..], mem.buffers, Served(db, inputs, peers), k + 1)
      ensures misses' + Misses(db, inputs, peers, k + 1) == misses + Misses(db, inputs, peers, k)
    {
      ghost var now, nowB, targets := outs[..], mem.buffers, Served(db, inputs, peers);
      NotYetVisited(inputs, was, wasB, now, nowB, targets, k);
      ServedAt(db, inputs, peers, k);
      MissesAt(db, inputs, peers, k);
      hide Holds, View, Decode, Visited, Coherent, Misses, Served, BatchOutput;
      if hit.Some? {
        HitFits(inputs[k], peers[k]);
        var loaded := Load(hit.value, inputs[k].nAtoms, outs[k], mem);
        VisitStore(inputs, was, wasB, now, nowB, targets, k, loaded, mem.buffers);
        outs[k] := loaded;
        assert outs[..] == now[k := loaded];
        misses' := misses;
      } else {
        VisitSkip(inputs, was, wasB, now, nowB, targets, k);
        misses' := misses + [k];
        Assoc(misses, [k], Misses(db, inputs, peers, k + 1));
      }
    }

    // Serves the hits and lists the others in order, up to a broken one.
    method ServeHits(inputs: seq<Input>, outs: array<ForceOut>, mem: Memory, peers: seq<bool>,
                     hits: seq<Option<seq<Byte>>>)
      returns (misses: seq<nat>, thrown: bool)
      requires Slots(inputs, outs[..], mem.buffers) && |peers| == |hits| == |inputs|
      requires db.Some? ==> Coherent(db.value)
      requires forall i :: 0 <= i < |inputs| ==>
        hits[i] == if Hit(db, inputs[i], peers[i]) then Some(db.value[key(inputs[i])]) else None
      modifies outs, mem
      ensures thrown <==> FirstBroken(db, inputs, peers, 0) < |inputs|
      ensures !thrown ==> misses == Misses(db, inputs, peers, 0)
      ensures Visited(inputs, old(outs[..]), old(mem.buffers), outs[..], mem.buffers,
                      Served(db, inputs, peers), FirstBroken(db, inputs, peers, 0))
    {
      ghost var was, wasB := outs[..], mem.buffers;
      VisitStart(inputs, was, wasB, Served(db, inputs, peers));
      misses, thrown := [], false;
      Empties(Misses(db, inputs, peers, 0));
      hide *;
      for k := 0 to |inputs|
        invariant FirstBroken(db, inputs, peers, k) == FirstBroken(db, inputs, peers, 0)
        invariant misses + Misses(db, inputs, peers, k) == Misses(db, inputs, peers, 0)
        invariant Visited(inputs, was, wasB, outs[..], mem.buffers, Served(db, inputs, peers), k)
      {
        NextBroken(db, inputs, peers, k);
        BrokenIs(db, inputs[k], peers[k]);
        if hits[k].Some? && Decode(hits[k].value, inputs[k].nAtoms).None? {
          thrown := true;
          return;
        }
        misses := ServeSlot(inputs, outs, mem, peers, k, hits[k], misses, was, wasB);
      }
      MissesEnd(db, inputs, peers);
      Empties(misses);
    }

    lemma ServedAt(m: Option<map<Key, seq<Byte>>>, inputs: seq<Input>, peers: seq<bool>, k: nat)
      requires |inputs| == |peers| && k < |inputs|
      ensures Served(m, inputs, peers)[k] ==
        if Hit(m, inputs[k], peers[k]) then Some(BatchOutput(m, inputs[k], peers[k])) else None
    {
    }

    lemma MissesAt(m: Option<map<Key, seq<Byte>>>, inputs: seq<Input>, peers: seq<bool>, k: nat)
      requires |inputs| == |peers| && k < |inputs|
      ensures Misses(m, inputs, peers, k) ==
        if Hit(m, inputs[k], peers[k]) then Misses(m, inputs, peers, k + 1) else [k] + Misses(m, inputs, peers, k + 1)
    {
    }

    lemma MissesEnd(m: Option<map<Key, seq<Byte>>>, inputs: seq<Input>, peers: seq<bool>)
      requires |inputs| == |peers|
      ensures Misses(m, inputs, peers, |inputs|) == []
    {
    }

    lemma NextBroken(m: Option<map<Key, seq<Byte>>>, inputs: seq<Input>, peers: seq<bool>, k: nat)
      requires |inputs| == |peers| && k < |inputs|
      ensures FirstBroken(m, inputs, peers, k) ==
        if Broken(m, inputs[k], peers[k]) then k else FirstBroken(m, inputs, peers, k + 1)
    {
    }

    lemma BrokenIs(m: Option<map<Key, seq<Byte>>>, x: Input, peerHas: bool)
      ensures Broken(m, x, peerHas) ==> Hit(m, x, peerHas)
      ensures Hit(m, x, peerHas) ==>
        m.Some? && key(x) in m.value && (Broken(m, x, peerHas) <==> Decode(m.value[key(x)], x.nAtoms).None?)
    {
    }

    lemma HitFits(x: Input, peerHas: bool)
      requires x in play && Hit(db, x, peerHas) && !Broken(db, x, peerHas) && Coherent(db.value)
      ensures key(x) in db.value
      ensures Decode(db.value[key(x)], x.nAtoms) == Some(BatchOutput(db, x, peerHas))
    {
      assert RecordFits(db.value[key(x)], x);
    }

    // The database after writing back the results of the first n of xs.
    function AddedAll(m: Option<map<Key, seq<Byte>>>, xs: seq<Input>, n: nat): Option<map<Key, seq<Byte>>>
      requires n <= |xs| && AllSized(xs)
    {
      if n == 0 then m
      else WithRecord(AddedAll(m, xs, n - 1), key(xs[n - 1]), Encode(Result(xs[n - 1]), xs[n - 1].nAtoms))
    }

    // Copies one computed slot back, counts it and caches it.
    method StoreMiss(x: Input, k: Key, outs: array<ForceOut>, idx: nat, slot: ForceOut, b: Buffers)
      requires Faithful() && x in play && k == key(x) && idx < outs.Length
      requires slot.F == outs[idx].F && Room(slot, b, x.nAtoms) && View(slot, b, x.nAtoms) == Result(x)
      requires db.Some? ==> Coherent(db.value)
      modifies this`db, this`forceCalls, outs
      ensures outs[..] == old(outs[..])[idx := slot]
      ensures forceCalls == old(forceCalls) + 1
      ensures Sized(Result(x), x.nAtoms) && db == WithRecord(old(db), k, Encode(Result(x), x.nAtoms))
      ensures db.Some? ==> Coherent(db.value)
    {
      outs[idx] := outs[idx].(energy := slot.energy);
      outs[idx] := outs[idx].(variance := slot.variance);
      outs[idx] := outs[idx].(hasStress := slot.hasStress);
      outs[idx] := outs[idx].(stress := slot.stress);
      forceCalls := forceCalls + 1;
      if db.Some? {
        AddedCoherent(db.value, x);
      }
      hide Coherent;
      Add(k, outs[idx], b, x.nAtoms);
    }

    // The slots with the first n computed ones put back.
    function PutBack(outs: seq<ForceOut>, misses: seq<nat>, missOut: seq<ForceOut>, n: nat): (r: seq<ForceOut>)
      requires n <= |missOut| == |misses| && forall j :: 0 <= j < |misses| ==> misses[j] < |outs|
      ensures |r| == |outs|
    {
      if n == 0 then outs else PutBack(outs, misses, missOut, n - 1)[misses[n - 1] := missOut[n - 1]]
    }

    // The misses are in order, and each computed slot is for its system.
    ghost predicate StoreReady(inputs: seq<Input>, outs: seq<ForceOut>, b: Buffers, keys: seq<Key>, misses: seq<nat>,
                               missOut: seq<ForceOut>) {
      && |keys| == |inputs| == |outs| && |missOut| == |misses|
      && (forall i :: 0 <= i < |inputs| ==> inputs[i] in play && keys[i] == key(inputs[i]))
      && (forall j :: 0 <= j < |misses| ==> misses[j] < |inputs|)
      && (forall j, k :: 0 <= j < k < |misses| ==> misses[j] < misses[k])
      && (forall j :: 0 <= j < |misses| ==> SlotFits(inputs[misses[j]], outs[misses[j]], b, missOut[j]))
    }

    predicate SlotFits(x: Input, o: ForceOut, b: Buffers, computed: ForceOut) {
      computed.F == o.F && Room(computed, b, x.nAtoms) && View(computed, b, x.nAtoms) == Result(x)
    }

    method StoreMisses(inputs: seq<Input>, outs: array<ForceOut>, b: Buffers, keys: seq<Key>, misses: seq<nat>,
                       missOut: seq<ForceOut>)
      requires Faithful() && StoreReady(inputs, outs[..], b, keys, misses, missOut)
      requires db.Some? ==> Coherent(db.value)
      modifies this`db, this`forceCalls, outs
      ensures outs[..] == PutBack(old(outs[..]), misses, missOut, |misses|)
      ensures forceCalls == old(forceCalls) + |misses|
      ensures AllSized(Select(inputs, misses))
      ensures db == AddedAll(old(db), Select(inputs, misses), |misses|)
      ensures db.Some? ==> Coherent(db.value)
    {
      ghost var was, db0 := outs[..], db;
      StoreStart(inputs, was, b, keys, misses, missOut, db);
      hide *;
      for j := 0 to |misses|
        invariant Stored(inputs, misses, missOut, was, outs[..], db0, db, j)
        invariant forceCalls == old(forceCalls) + j
      {
        StoreTurn(inputs, outs, b, keys, misses, missOut, j, was, db0);
      }
      StoreEnd(inputs, misses, missOut, was, outs[..], db0, db);
    }

    // The first n computed slots are back in place and in the database.
    ghost predicate Stored(inputs: seq<Input>, misses: seq<nat>, missOut: seq<ForceOut>,
                           was: seq<ForceOut>, now: seq<ForceOut>,
                           m: Option<map<Key, seq<Byte>>>, m': Option<map<Key, seq<Byte>>>, n: nat) {
      && n <= |misses| == |missOut|
      && (forall j :: 0 <= j < |misses| ==> misses[j] < |inputs| == |was|)
      && AllSized(Select(inputs, misses))
      && now == PutBack(was, misses, missOut, n)
      && m' == AddedAll(m, Select(inputs, misses), n)
      && (m'.Some? ==> Coherent(m'.value))
    }

    lemma StoreStart(inputs: seq<Input>, was: seq<ForceOut>, b: Buffers, keys: seq<Key>, misses: seq<nat>,
                     missOut: seq<ForceOut>, m: Option<map<Key, seq<Byte>>>)
      requires Faithful() && StoreReady(inputs, was, b, keys, misses, missOut) && (m.Some? ==> Coherent(m.value))
      ensures |missOut| == |misses| && Stored(inputs, misses, missOut, was, was, m, m, 0)
    {
      hide Coherent;
    }

    lemma StoreEnd(inputs: seq<Input>, misses: seq<nat>, missOut: seq<ForceOut>, was: seq<ForceOut>, now: seq<ForceOut>,
                   m: Option<map<Key, seq<Byte>>>, m': Option<map<Key, seq<Byte>>>)
      requires Stored(inputs, misses, missOut, was, now, m, m', |misses|)
      ensures |missOut| == |misses| && forall j :: 0 <= j < |misses| ==> misses[j] < |inputs| == |was|
      ensures now == PutBack(was, misses, missOut, |misses|) && AllSized(Select(inputs, misses))
      ensures m' == AddedAll(m, Select(inputs, misses), |misses|) && (m'.Some? ==> Coherent(m'.value))
    {
    }

    // One turn of the loop.
    method StoreTurn(inputs: seq<Input>, outs: array<ForceOut>, b: Buffers, keys: seq<Key>, misses: seq<nat>,
                     missOut: seq<ForceOut>, j: nat, ghost was: seq<ForceOut>, ghost db0: Option<map<Key, seq<Byte>>>)
      requires Faithful() && StoreReady(inputs, was, b, keys, misses, missOut) && j < |misses|
      requires Stored(inputs, misses, missOut, was, outs[..], db0, db, j)
      modifies this`db, this`forceCalls, outs
      ensures Stored(inputs, misses, missOut, was, outs[..], db0, db, j + 1)
      ensures forceCalls == old(forceCalls) + 1
    {
      SlotToStore(inputs, was, b, keys, misses, missOut, j);
      NotYetPut(was, misses, missOut, j, j);
      NextPutBack(was, misses, missOut, j);
      NextAdded(db0, Select(inputs, misses), j);
      assert |outs[..]| == |was|;
      hide Coherent, View, Encode, Faithful, Sized, Result, WithRecord, AllSized, Room, StoreReady, SlotFits, PutBack, AddedAll;
      assert outs[misses[j]] == outs[..][misses[j]];
      StoreMiss(inputs[misses[j]], keys[misses[j]], outs, misses[j], missOut[j], b);
    }

    lemma SlotToStore(inputs: seq<Input>, was: seq<ForceOut>, b: Buffers, keys: seq<Key>, misses: seq<nat>,
                      missOut: seq<ForceOut>, j: nat)
      requires StoreReady(inputs, was, b, keys, misses, missOut) && j < |misses|
      ensures misses[j] < |inputs| == |was| == |keys| && |missOut| == |misses|
      ensures var x := inputs[misses[j]];
        && x in play && keys[misses[j]] == key(x)
        && missOut[j].F == was[misses[j]].F && Room(missOut[j], b, x.nAtoms) && View(missOut[j], b, x.nAtoms) == Result(x)
    {
      assert SlotFits(inputs[misses[j]], was[misses[j]], b, missOut[j]);
    }

    lemma {:induction false} NotYetPut(outs: seq<ForceOut>, misses: seq<nat>, missOut: seq<ForceOut>, n: nat, k: nat)
      requires n <= k < |missOut| == |misses| && forall j :: 0 <= j < |misses| ==> misses[j] < |outs|
      requires forall i, j :: 0 <= i < j < |misses| ==> misses[i] < misses[j]
      ensures PutBack(outs, misses, missOut, n)[misses[k]] == outs[misses[k]]
    {
      if n > 0 {
        NotYetPut(outs, misses, missOut, n - 1, k);
      }
    }

    lemma NextPutBack(outs: seq<ForceOut>, misses: seq<nat>, missOut: seq<ForceOut>, j: nat)
      requires j < |missOut| == |misses| && forall k :: 0 <= k < |misses| ==> misses[k] < |outs|
      ensures PutBack(outs, misses, missOut, j + 1) == PutBack(outs, misses, missOut, j)[misses[j] := missOut[j]]
    {
    }

    lemma NextAdded(m: Option<map<Key, seq<Byte>>>, xs: seq<Input>, j: nat)
      requires j < |xs| && AllSized(xs)
      ensures Sized(Result(xs[j]), xs[j].nAtoms)
      ensures AddedAll(m, xs, j + 1) == WithRecord(AddedAll(m, xs, j), key(xs[j]), Encode(Result(xs[j]), xs[j].nAtoms))
    {
    }

    predicate AllSized(xs: seq<Input>) {
      forall i :: 0 <= i < |xs| ==> Sized(Result(xs[i]), xs[i].nAtoms)
    }

    // Every slot of the second state holds its batch output.
    ghost predicate AllDone(inputs: seq<Input>, peers: seq<bool>, m: Option<map<Key, seq<Byte>>>,
                            was: seq<ForceOut>, wasB: Buffers, now: seq<ForceOut>, nowB: Buffers)
      requires Slots(inputs, was, wasB) && |peers| == |inputs|
    {
      && |now| == |inputs|
      && (forall i :: 0 <= i < |inputs| ==>
            Holds(was[i], wasB, inputs[i].nAtoms, BatchOutput(m, inputs[i], peers[i]), now[i], nowB))
      && nowB.Keys == wasB.Keys
      && (forall p :: p in wasB && (forall i :: 0 <= i < |was| ==> was[i].F != p) ==> nowB[p] == wasB[p])
    }

    function Cleared(o: ForceOut): ForceOut {
      o.(variance := ZERO, hasStress := 0, stress := Zeros(9))
    }

    lemma ClearedSlots(inputs: seq<Input>, was: seq<ForceOut>, cleared: seq<ForceOut>, b: Buffers)
      requires Slots(inputs, was, b) && |cleared| == |was|
      requires forall i :: 0 <= i < |was| ==> cleared[i] == Cleared(was[i])
      ensures Slots(inputs, cleared, b) && AllCleared(was, cleared)
    {
    }

    // The kernel on a cleared slot leaves exactly its result.
    lemma ComputedOnCleared(x: Input, o: ForceOut, b: Buffers)
      requires Room(o, b, x.nAtoms) && o == Cleared(o)
      ensures Applied(View(o, b, x.nAtoms), kernel(x)) == Result(x)
    {
    }

    // Without a cache: one loop over all systems.
    method BatchWithoutCache(inputs: seq<Input>, outs: array<ForceOut>, mem: Memory, ghost peers: seq<bool>,
                             ghost was: seq<ForceOut>)
      requires Faithful() && Slots(inputs, was, mem.buffers) && Slots(inputs, outs[..], mem.buffers)
      requires |peers| == |inputs| && db.None? && AllCleared(was, outs[..])
      modifies this`kernelLog, this`forceCalls, outs, mem
      ensures AllDone(inputs, peers, None, was, old(mem.buffers), outs[..], mem.buffers)
      ensures Effects(inputs, peers, None, old(kernelLog), old(forceCalls), db, kernelLog, forceCalls)
    {
      ghost var log, calls := kernelLog, forceCalls;
      NoDatabaseEffects(inputs, peers, was, mem.buffers, log, calls);
      hide *;
      PlainLoop(inputs, outs, mem, peers, was);
      CountCalls(|inputs|);
    }

    method PlainLoop(inputs: seq<Input>, outs: array<ForceOut>, mem: Memory, ghost peers: seq<bool>,
                     ghost was: seq<ForceOut>)
      requires Faithful() && Slots(inputs, was, mem.buffers) && Slots(inputs, outs[..], mem.buffers)
      requires |peers| == |inputs| && AllCleared(was, outs[..])
      modifies this`kernelLog, outs, mem
      ensures AllDone(inputs, peers, None, was, old(mem.buffers), outs[..], mem.buffers)
      ensures kernelLog == old(kernelLog) + inputs
    {
      ghost var cleared, wasB := outs[..], mem.buffers;
      hide *;
      ForceBatchImpl(inputs, outs, mem);
      PlainDone(inputs, peers, was, wasB, cleared, outs[..], mem.buffers);
    }

    method CountCalls(n: nat)
      modifies this`forceCalls
      ensures forceCalls == old(forceCalls) + n
    {
      for i := 0 to n
        invariant forceCalls == old(forceCalls) + i
      {
        forceCalls := forceCalls + 1;
      }
    }

    lemma PlainDone(inputs: seq<Input>, peers: seq<bool>, was: seq<ForceOut>, wasB: Buffers, cleared: seq<ForceOut>,
                    now: seq<ForceOut>, nowB: Buffers)
      requires Slots(inputs, was, wasB) && Slots(inputs, cleared, wasB) && |peers| == |inputs|
      requires AllCleared(was, cleared)
      requires Visited(inputs, cleared, wasB, now, nowB, Computed(inputs, cleared, wasB), |inputs|)
      ensures AllDone(inputs, peers, None, was, wasB, now, nowB)
    {
      forall i | 0 <= i < |inputs|
        ensures Holds(was[i], wasB, inputs[i].nAtoms, Result(inputs[i]), now[i], nowB)
      {
        ComputedAt(inputs, cleared, wasB, i);
        ComputedOnCleared(inputs[i], cleared[i], wasB);
      }
    }

    // The states a cached batch passes through.
    ghost predicate Passed(inputs: seq<Input>, peers: seq<bool>, m: Option<map<Key, seq<Byte>>>, s: Stages) {
      && |peers| == |inputs|
      && Slots(inputs, s.was, s.wasB) && Slots(inputs, s.cleared, s.wasB)
      && (forall i :: 0 <= i < |s.was| ==> s.cleared[i] == Cleared(s.was[i]))
      && Visited(inputs, s.cleared, s.wasB, s.served, s.servedB, Served(m, inputs, peers), |inputs|)
      && var misses := Misses(m, inputs, peers, 0);
      && s.given == PickSlots(s.served, misses)
      && var missIn := Select(inputs, misses);
      && Slots(missIn, s.given, s.servedB)
      && Visited(missIn, s.given, s.servedB, s.computed, s.nowB, Computed(missIn, s.given, s.servedB), |missIn|)
    }

    function PickSlots(outs: seq<ForceOut>, misses: seq<nat>): (r: seq<ForceOut>)
      requires forall j :: 0 <= j < |misses| ==> misses[j] < |outs|
      ensures |r| == |misses| && forall j :: 0 <= j < |misses| ==> r[j] == outs[misses[j]]
    {
      seq(|misses|, j requires 0 <= j < |misses| => outs[misses[j]])
    }

    // A miss enters the kernel as the cleared slot it was.
    lemma MissGiven(inputs: seq<Input>, peers: seq<bool>, m: Option<map<Key, seq<Byte>>>, s: Stages, j: nat)
      requires Passed(inputs, peers, m, s) && j < |Misses(m, inputs, peers, 0)|
      ensures var i := Misses(m, inputs, peers, 0)[j];
        && s.given[j] == s.cleared[i] && s.given[j].F == s.was[i].F
        && s.servedB[s.was[i].F] == s.wasB[s.was[i].F]
    {
      var misses := Misses(m, inputs, peers, 0);
      var i := misses[j];
      assert i in misses;
      ServedAt(m, inputs, peers, i);
      hide Visited, Holds, View, Hit, Served, Computed;
      VisitedWithoutTarget(inputs, s.cleared, s.wasB, s.served, s.servedB, Served(m, inputs, peers), i);
    }

    lemma MissDone(inputs: seq<Input>, peers: seq<bool>, m: Option<map<Key, seq<Byte>>>, s: Stages, j: nat)
      requires Passed(inputs, peers, m, s) && j < |Misses(m, inputs, peers, 0)|
      ensures var i := Misses(m, inputs, peers, 0)[j];
        && s.computed[j].F == s.was[i].F
        && Holds(s.was[i], s.wasB, inputs[i].nAtoms, Result(inputs[i]), s.computed[j], s.nowB)
    {
      var misses := Misses(m, inputs, peers, 0);
      var i := misses[j];
      MissGiven(inputs, peers, m, s, j);
      ComputedAt(Select(inputs, misses), s.given, s.servedB, j);
      ComputedOnCleared(inputs[i], s.given[j], s.servedB);
      hide View, Computed, Served, Hit, Misses;
      assert Holds(s.given[j], s.servedB, inputs[i].nAtoms, Result(inputs[i]), s.computed[j], s.nowB);
      HoldsLocally(s.given[j], s.servedB, s.wasB, inputs[i].nAtoms, Result(inputs[i]), s.computed[j], s.nowB, s.nowB);
    }

    lemma HitServed(inputs: seq<Input>, peers: seq<bool>, m: Option<map<Key, seq<Byte>>>, s: Stages, i: nat)
      requires Passed(inputs, peers, m, s) && i < |inputs| && i !in Misses(m, inputs, peers, 0)
      ensures Holds(s.cleared[i], s.wasB, inputs[i].nAtoms, BatchOutput(m, inputs[i], peers[i]), s.served[i], s.servedB)
      ensures s.served[i].F == s.was[i].F
    {
      ServedAt(m, inputs, peers, i);
      hide View, Hit, Served, BatchOutput, Computed;
    }

    // The kernel does not touch the buffer of a hit.
    lemma HitUntouched(inputs: seq<Input>, peers: seq<bool>, m: Option<map<Key, seq<Byte>>>, s: Stages, i: nat)
      requires Passed(inputs, peers, m, s) && i < |inputs| && i !in Misses(m, inputs, peers, 0)
      ensures s.was[i].F in s.servedB && s.was[i].F in s.nowB
      ensures s.nowB[s.was[i].F] == s.servedB[s.was[i].F]
    {
      var misses := Misses(m, inputs, peers, 0);
      GivenBuffers(inputs, peers, m, s);
      assert s.was[i].F in s.servedB;
      hide Visited, Holds, View, Hit, Served, Computed, Room, Misses;
      forall j | 0 <= j < |misses|
        ensures s.given[j].F != s.was[i].F
      {
        var k := misses[j];
        assert k != i;
        assert s.given[j].F == s.was[k].F;
      }
      VisitedElsewhere(Select(inputs, misses), s.given, s.servedB, s.computed, s.nowB,
                       Computed(Select(inputs, misses), s.given, s.servedB), s.was[i].F);
    }

    lemma HitDone(inputs: seq<Input>, peers: seq<bool>, m: Option<map<Key, seq<Byte>>>, s: Stages, i: nat)
      requires Passed(inputs, peers, m, s) && i < |inputs| && i !in Misses(m, inputs, peers, 0)
      ensures Holds(s.was[i], s.wasB, inputs[i].nAtoms, BatchOutput(m, inputs[i], peers[i]), s.served[i], s.nowB)
    {
      HitServed(inputs, peers, m, s, i);
      HitUntouched(inputs, peers, m, s, i);
      hide Visited, Misses, View, BatchOutput;
      HoldsLocally(s.cleared[i], s.wasB, s.wasB, inputs[i].nAtoms, BatchOutput(m, inputs[i], peers[i]),
                   s.served[i], s.servedB, s.nowB);
    }

    lemma GivenBuffers(inputs: seq<Input>, peers: seq<bool>, m: Option<map<Key, seq<Byte>>>, s: Stages)
      requires Passed(inputs, peers, m, s)
      ensures var misses := Misses(m, inputs, peers, 0);
        forall j :: 0 <= j < |misses| ==> s.given[j].F == s.was[misses[j]].F
    {
      var misses := Misses(m, inputs, peers, 0);
      forall j | 0 <= j < |misses|
        ensures s.given[j].F == s.was[misses[j]].F
      {
        assert misses[j] in misses;
        ServedAt(m, inputs, peers, misses[j]);
      }
    }

    lemma ClearedVisited(inputs: seq<Input>, peers: seq<bool>, m: Option<map<Key, seq<Byte>>>, s: Stages)
      requires Passed(inputs, peers, m, s)
      ensures |inputs| == |peers| && |s.cleared| == |s.was| && Slots(inputs, s.cleared, s.wasB)
      ensures Visited(inputs, s.cleared, s.wasB, s.served, s.servedB, Served(m, inputs, peers), |inputs|)
      ensures forall i :: 0 <= i < |s.was| ==> s.cleared[i].F == s.was[i].F
    {
      hide Visited, Served, Computed, Misses;
    }

    lemma GivenVisited(inputs: seq<Input>, peers: seq<bool>, m: Option<map<Key, seq<Byte>>>, s: Stages)
      requires Passed(inputs, peers, m, s)
      ensures |inputs| == |peers|
      ensures var missIn := Select(inputs, Misses(m, inputs, peers, 0));
        && |s.given| == |missIn| && Slots(missIn, s.given, s.servedB)
        && Visited(missIn, s.given, s.servedB, s.computed, s.nowB, Computed(missIn, s.given, s.servedB), |missIn|)
    {
      hide Visited, Served, Computed, Misses;
    }

    lemma OtherServed(inputs: seq<Input>, peers: seq<bool>, m: Option<map<Key, seq<Byte>>>, s: Stages, p: nat)
      requires Passed(inputs, peers, m, s)
      requires p in s.wasB && forall i :: 0 <= i < |s.was| ==> s.was[i].F != p
      ensures p in s.servedB && s.servedB[p] == s.wasB[p]
    {
      ClearedVisited(inputs, peers, m, s);
      hide Passed, Visited, View, Hit, Served, Computed, Holds, Slots, Misses, Room;
      VisitedElsewhere(inputs, s.cleared, s.wasB, s.served, s.servedB, Served(m, inputs, peers), p);
    }

    lemma OtherDone(inputs: seq<Input>, peers: seq<bool>, m: Option<map<Key, seq<Byte>>>, s: Stages, p: nat)
      requires Passed(inputs, peers, m, s)
      requires p in s.wasB && forall i :: 0 <= i < |s.was| ==> s.was[i].F != p
      ensures p in s.nowB && s.nowB[p] == s.wasB[p]
    {
      var misses := Misses(m, inputs, peers, 0);
      OtherServed(inputs, peers, m, s, p);
      GivenBuffers(inputs, peers, m, s);
      GivenVisited(inputs, peers, m, s);
      PassedSizes(inputs, peers, m, s);
      hide Passed, Visited, View, Hit, Served, Computed, Holds, Slots, Misses, Cleared, Room;
      VisitedElsewhere(Select(inputs, misses), s.given, s.servedB, s.computed, s.nowB,
                       Computed(Select(inputs, misses), s.given, s.servedB), p);
    }

    lemma OthersDone(inputs: seq<Input>, peers: seq<bool>, m: Option<map<Key, seq<Byte>>>, s: Stages)
      requires Passed(inputs, peers, m, s)
      ensures s.nowB.Keys == s.wasB.Keys
      ensures forall p :: p in s.wasB && (forall i :: 0 <= i < |s.was| ==> s.was[i].F != p) ==> s.nowB[p] == s.wasB[p]
    {
      assert s.nowB.Keys == s.wasB.Keys;
      hide Passed;
      forall p | p in s.wasB && (forall i :: 0 <= i < |s.was| ==> s.was[i].F != p)
        ensures s.nowB[p] == s.wasB[p]
      {
        OtherDone(inputs, peers, m, s, p);
      }
    }

    // What the visits of hits and misses add up to.
    lemma CachedDone(inputs: seq<Input>, peers: seq<bool>, m: Option<map<Key, seq<Byte>>>, s: Stages, now: seq<ForceOut>)
      requires Passed(inputs, peers, m, s)
      requires now == PutBack(s.served, Misses(m, inputs, peers, 0), s.computed, |Misses(m, inputs, peers, 0)|)
      ensures AllDone(inputs, peers, m, s.was, s.wasB, now, s.nowB)
    {
      var misses := Misses(m, inputs, peers, 0);
      OthersDone(inputs, peers, m, s);
      PutBackAt(s.served, misses, s.computed, |misses|);
      forall i | 0 <= i < |inputs|
        ensures Holds(s.was[i], s.wasB, inputs[i].nAtoms, BatchOutput(m, inputs[i], peers[i]), now[i], s.nowB)
      {
        if i in misses {
          var j :| 0 <= j < |misses| && misses[j] == i;
          MissDone(inputs, peers, m, s, j);
        } else {
          HitDone(inputs, peers, m, s, i);
        }
      }
    }

    lemma {:induction false} PutBackAt(outs: seq<ForceOut>, misses: seq<nat>, missOut: seq<ForceOut>, n: nat)
      requires n <= |missOut| == |misses| && forall j :: 0 <= j < |misses| ==> misses[j] < |outs|
      requires forall j, k :: 0 <= j < k < |misses| ==> misses[j] < misses[k]
      ensures forall j :: 0 <= j < n ==> PutBack(outs, misses, missOut, n)[misses[j]] == missOut[j]
      ensures forall i :: 0 <= i < |outs| && i !in misses ==> PutBack(outs, misses, missOut, n)[i] == outs[i]
    {
      if n > 0 {
        PutBackAt(outs, misses, missOut, n - 1);
      }
    }

    // ---- The entry point ----

    lemma {:induction false} NothingCached(inputs: seq<Input>, peers: seq<bool>, i: nat)
      requires |inputs| == |peers| && i <= |inputs|
      ensures |Misses(None, inputs, peers, i)| == |inputs| - i
      ensures forall j :: 0 <= j < |inputs| - i ==> Misses(None, inputs, peers, i)[j] == i + j
      decreases |inputs| - i
    {
      if i < |inputs| {
        NothingCached(inputs, peers, i + 1);
      }
    }

    // The slots a broken hit leaves: those of the hits before it hold their
    // results, all others are cleared and their buffers are as they were.
    ghost predicate Interrupted(inputs: seq<Input>, peers: seq<bool>, m: Option<map<Key, seq<Byte>>>,
                                was: seq<ForceOut>, wasB: Buffers, now: seq<ForceOut>, nowB: Buffers)
      requires Slots(inputs, was, wasB) && |peers| == |inputs|
    {
      var n := FirstBroken(m, inputs, peers, 0);
      && |now| == |inputs| && nowB.Keys == wasB.Keys
      && (forall i :: 0 <= i < |inputs| ==>
            if i < n && Hit(m, inputs[i], peers[i])
            then Holds(was[i], wasB, inputs[i].nAtoms, BatchOutput(m, inputs[i], peers[i]), now[i], nowB)
            else now[i] == Cleared(was[i]) && nowB[was[i].F] == wasB[was[i].F])
      && (forall p :: p in wasB && (forall i :: 0 <= i < |was| ==> was[i].F != p) ==> nowB[p] == wasB[p])
    }

    // forceBatch. Every slot ends with the result of its system, the kernel
    // sees exactly the misses in order, each miss is counted and written back.
    // A hit whose record is cut short ends the call before all that.
    method ForceBatch(inputs: seq<Input>, outs: array<ForceOut>, mem: Memory, cached: bool, peers: seq<bool>)
      returns (thrown: bool)
      requires Faithful() && Slots(inputs, outs[..], mem.buffers) && |peers| == |inputs|
      requires db.Some? ==> cached && Coherent(db.value)
      modifies this, outs, mem
      ensures thrown <==> FirstBroken(old(db), inputs, peers, 0) < |inputs|
      ensures thrown <==> exists i :: 0 <= i < |inputs| && Unreadable(old(db), inputs[i], peers[i])
      ensures !thrown ==> AllDone(inputs, peers, old(db), old(outs[..]), old(mem.buffers), outs[..], mem.buffers)
      ensures !thrown ==> Effects(inputs, peers, old(db), old(kernelLog), old(forceCalls), db, kernelLog, forceCalls)
      ensures !thrown ==> kernelLog == old(kernelLog) + Uncached(old(db), inputs, peers)
      ensures !thrown ==> forceCalls == old(forceCalls) + |Uncached(old(db), inputs, peers)|
      ensures thrown ==> Interrupted(inputs, peers, old(db), old(outs[..]), old(mem.buffers), outs[..], mem.buffers)
      ensures thrown ==> db == old(db) && kernelLog == old(kernelLog) && forceCalls == old(forceCalls)
    {
      ghost var m := db;
      BrokenIsUnreadable(m, inputs, peers);
      SentAreUncached(m, inputs, peers, 0);
      assert inputs[0..] == inputs && peers[0..] == peers;
      if |inputs| == 0 {
        Empties(kernelLog);
        return false;
      }
      ghost var was := outs[..];
      Clear(outs);
      ClearedSlots(inputs, was, outs[..], mem.buffers);
      NothingBroken(inputs, peers);
      ghost var log, calls := kernelLog, forceCalls;
      hide *;
      if cached {
        thrown := BatchThroughCache(inputs, outs, mem, peers, was);
      } else {
        BatchWithoutCache(inputs, outs, mem, peers, was);
        thrown := false;
      }
      if !thrown {
        EffectsSent(inputs, peers, m, log, calls, db, kernelLog, forceCalls);
      }
    }

    lemma EffectsSent(inputs: seq<Input>, peers: seq<bool>, m: Option<map<Key, seq<Byte>>>, log: seq<Input>, calls: nat,
                      m': Option<map<Key, seq<Byte>>>, log': seq<Input>, calls': nat)
      requires |peers| == |inputs| && Effects(inputs, peers, m, log, calls, m', log', calls')
      ensures log' == log + Select(inputs, Misses(m, inputs, peers, 0))
      ensures calls' == calls + |Select(inputs, Misses(m, inputs, peers, 0))|
    {
      hide AddedAll, AllSized, Coherent;
    }

    // ---- The same batch again ----

    // A record written back for a key is a whole one for every input with it.
    lemma WrittenIsWhole(x: Input, y: Input)
      requires Faithful() && x in play && y in play && key(x) == key(y)
      ensures Sized(Result(x), x.nAtoms)
      ensures HasResultMetadata(Encode(Result(x), x.nAtoms), y.nAtoms)
      ensures Decode(Encode(Result(x), x.nAtoms), y.nAtoms).Some?
    {
      RecordRoundTrip(Result(x), x.nAtoms);
    }

    predicate Whole(m: Option<map<Key, seq<Byte>>>, y: Input) {
      m.Some? && key(y) in m.value && HasResultMetadata(m.value[key(y)], y.nAtoms)
      && Decode(m.value[key(y)], y.nAtoms).Some?
    }

    lemma OneMoreWhole(m: Option<map<Key, seq<Byte>>>, x: Input, y: Input)
      requires Faithful() && x in play && y in play && m.Some?
      requires key(x) == key(y) || Whole(m, y)
      ensures Sized(Result(x), x.nAtoms)
      ensures Whole(WithRecord(m, key(x), Encode(Result(x), x.nAtoms)), y)
    {
      if key(x) == key(y) {
        WrittenIsWhole(x, y);
      }
      hide Faithful, Decode, HasResultMetadata, Encode, Result, Sized;
    }

    lemma OneMoreKeeps(m: Option<map<Key, seq<Byte>>>, at: Key, record: seq<Byte>, k: Key)
      requires m.Some? && at != k
      ensures var m' := WithRecord(m, at, record);
        m'.Some? && (k in m'.value <==> k in m.value) && (k in m.value ==> m'.value[k] == m.value[k])
    {
    }

    // Writing back xs leaves a whole record for each of them ...
    lemma {:induction false} AddedAt(m: map<Key, seq<Byte>>, xs: seq<Input>, n: nat, j: nat, y: Input)
      requires Faithful() && j < n <= |xs| && AllSized(xs) && forall x :: x in xs ==> x in play
      requires y in play && key(y) == key(xs[j])
      ensures Whole(AddedAll(Some(m), xs, n), y)
    {
      hide *;
      var x := xs[n - 1];
      if key(x) != key(y) {
        AddedAt(m, xs, n - 1, j, y);
      }
      NextAdded(Some(m), xs, n - 1);
      AddedIsOpen(m, xs, n - 1);
      OneMoreWhole(AddedAll(Some(m), xs, n - 1), x, y);
    }

    // ... and keeps the others.
    lemma {:induction false} AddedKeeps(m: map<Key, seq<Byte>>, xs: seq<Input>, n: nat, k: Key)
      requires n <= |xs| && AllSized(xs) && forall j :: 0 <= j < n ==> key(xs[j]) != k
      ensures AddedAll(Some(m), xs, n).Some?
      ensures k in AddedAll(Some(m), xs, n).value <==> k in m
      ensures k in m ==> AddedAll(Some(m), xs, n).value[k] == m[k]
    {
      if n > 0 {
        hide *;
        AddedKeeps(m, xs, n - 1, k);
        NextAdded(Some(m), xs, n - 1);
        OneMoreKeeps(AddedAll(Some(m), xs, n - 1), key(xs[n - 1]), Encode(Result(xs[n - 1]), xs[n - 1].nAtoms), k);
      }
    }

    lemma {:induction false} AddedIsOpen(m: map<Key, seq<Byte>>, xs: seq<Input>, n: nat)
      requires n <= |xs| && AllSized(xs)
      ensures AddedAll(Some(m), xs, n).Some?
    {
      if n > 0 {
        AddedIsOpen(m, xs, n - 1);
      }
    }

    // After a batch on an open database there is a usable record for each of
    // its systems, as far as this potential's own cache goes.
    lemma NothingLeft(inputs: seq<Input>, peers: seq<bool>, m: map<Key, seq<Byte>>, log: seq<Input>, calls: nat,
                      m': Option<map<Key, seq<Byte>>>, log': seq<Input>, calls': nat, i: nat)
      requires Faithful() && |peers| == |inputs| && forall j :: 0 <= j < |inputs| ==> inputs[j] in play
      requires Effects(inputs, peers, Some(m), log, calls, m', log', calls') && i < |inputs|
      requires !Unreadable(Some(m), inputs[i], peers[i])
      ensures m'.Some? && key(inputs[i]) in m'.value
      ensures stressCap ==> HasResultMetadata(m'.value[key(inputs[i])], inputs[i].nAtoms)
      ensures Decode(m'.value[key(inputs[i])], inputs[i].nAtoms).Some?
    {
      var misses := Misses(Some(m), inputs, peers, 0);
      var sent, x := Select(inputs, misses), inputs[i];
      assert AllSized(sent) && m' == AddedAll(Some(m), sent, |sent|);
      assert forall y :: y in sent ==> y in play;
      if i in misses {
        var j :| 0 <= j < |misses| && misses[j] == i;
        assert sent[j] == x;
        AddedAt(m, sent, |sent|, j, x);
      } else {
        HitIsStored(m, x, peers[i]);
        if j :| 0 <= j < |sent| && key(sent[j]) == key(x) {
          AddedAt(m, sent, |sent|, j, x);
        } else {
          AddedKeeps(m, sent, |sent|, key(x));
        }
      }
      hide Decode, HasResultMetadata, AddedAll, Misses, Hit, Faithful, AllSized, Effects, Coherent;
    }

    lemma HitIsStored(m: map<Key, seq<Byte>>, x: Input, peerHas: bool)
      requires Hit(Some(m), x, peerHas) && !Unreadable(Some(m), x, peerHas)
      ensures key(x) in m && (stressCap ==> HasResultMetadata(m[key(x)], x.nAtoms)) && Decode(m[key(x)], x.nAtoms).Some?
    {
    }

    // The same batch once more, with peers that have records as well, runs no
    // kernel and counts no call.
    lemma SecondBatchIsFree(inputs: seq<Input>, peers: seq<bool>, again: seq<bool>, m: map<Key, seq<Byte>>,
                            log: seq<Input>, calls: nat, m': Option<map<Key, seq<Byte>>>, log': seq<Input>, calls': nat)
      requires Faithful() && |peers| == |again| == |inputs| && forall j :: 0 <= j < |inputs| ==> inputs[j] in play
      requires Effects(inputs, peers, Some(m), log, calls, m', log', calls')
      requires forall i :: 0 <= i < |inputs| ==> !Unreadable(Some(m), inputs[i], peers[i])
      requires groupCollective ==> forall i :: 0 <= i < |inputs| ==> again[i]
      ensures Uncached(m', inputs, again) == []
      ensures forall i :: 0 <= i < |inputs| ==> !Unreadable(m', inputs[i], again[i])
    {
      forall i | 0 <= i < |inputs|
        ensures m'.Some? && key(inputs[i]) in m'.value && Decode(m'.value[key(inputs[i])], inputs[i].nAtoms).Some?
        ensures stressCap ==> HasResultMetadata(m'.value[key(inputs[i])], inputs[i].nAtoms)
      {
        NothingLeft(inputs, peers, m, log, calls, m', log', calls', i);
      }
      hide Effects, Decode, HasResultMetadata, Faithful;
      AllStored(inputs, again, m'.value);
    }

    lemma {:induction false} AllStored(inputs: seq<Input>, peers: seq<bool>, m: map<Key, seq<Byte>>)
      requires |peers| == |inputs| && (groupCollective ==> forall i :: 0 <= i < |inputs| ==> peers[i])
      requires forall i :: 0 <= i < |inputs| ==> key(inputs[i]) in m
      requires forall i :: 0 <= i < |inputs| ==>
        (stressCap ==> HasResultMetadata(m[key(inputs[i])], inputs[i].nAtoms))
      ensures Uncached(Some(m), inputs, peers) == []
    {
      hide HasResultMetadata;
      if inputs != [] {
        forall i | 0 <= i < |inputs[1..]|
          ensures key(inputs[1..][i]) in m
          ensures stressCap ==> HasResultMetadata(m[key(inputs[1..][i])], inputs[1..][i].nAtoms)
        {
          assert inputs[1..][i] == inputs[i + 1];
        }
        AllStored(inputs[1..], peers[1..], m);
      }
    }

    method BatchTwice(inputs: seq<Input>, outs: array<ForceOut>, mem: Memory, peers: seq<bool>, again: seq<bool>)
      returns (first: bool, second: bool)
      requires Faithful() && Slots(inputs, outs[..], mem.buffers) && |peers| == |again| == |inputs|
      requires db.Some? && Coherent(db.value)
      requires groupCollective ==> forall i :: 0 <= i < |inputs| ==> again[i]
      modifies this, outs, mem
      ensures !first ==> !second && kernelLog == old(kernelLog) + Uncached(old(db), inputs, peers)
                         && forceCalls == old(forceCalls) + |Uncached(old(db), inputs, peers)|
    {
      ghost var was, wasB, m, log, calls := outs[..], mem.buffers, db, kernelLog, forceCalls;
      AllInPlay(inputs, was, wasB);
      first := ForceBatch(inputs, outs, mem, true, peers);
      if !first {
        DoneSlots(inputs, peers, m, was, wasB, outs[..], mem.buffers);
        EffectsOpen(inputs, peers, m, log, calls, db, kernelLog, forceCalls);
        SecondBatchIsFree(inputs, peers, again, m.value, log, calls, db, kernelLog, forceCalls);
        hide *;
        second := ForceBatch(inputs, outs, mem, true, again);
        Empties(kernelLog);
      } else {
        second := true;
      }
    }

    lemma AllInPlay(inputs: seq<Input>, outs: seq<ForceOut>, b: Buffers)
      requires Slots(inputs, outs, b)
      ensures forall i :: 0 <= i < |inputs| ==> inputs[i] in play
    {
    }

    // A batch leaves slots for the next.
    lemma DoneSlots(inputs: seq<Input>, peers: seq<bool>, m: Option<map<Key, seq<Byte>>>,
                    was: seq<ForceOut>, wasB: Buffers, now: seq<ForceOut>, nowB: Buffers)
      requires Slots(inputs, was, wasB) && |peers| == |inputs| && AllDone(inputs, peers, m, was, wasB, now, nowB)
      ensures Slots(inputs, now, nowB)
    {
      hide View, BatchOutput;
    }

    lemma EffectsOpen(inputs: seq<Input>, peers: seq<bool>, m: Option<map<Key, seq<Byte>>>, log: seq<Input>, calls: nat,
                      m': Option<map<Key, seq<Byte>>>, log': seq<Input>, calls': nat)
      requires |peers| == |inputs| && Effects(inputs, peers, m, log, calls, m', log', calls')
      ensures m'.Some? ==> Coherent(m'.value)
    {
      hide Coherent, AddedAll;
    }

    lemma NothingBroken(inputs: seq<Input>, peers: seq<bool>)
      requires |inputs| == |peers|
      ensures FirstBroken(None, inputs, peers, 0) == |inputs|
    {
      var n := FirstBroken(None, inputs, peers, 0);
      assert n < |inputs| ==> Broken(None, inputs[n], peers[n]);
    }

    lemma InterruptedAt(inputs: seq<Input>, peers: seq<bool>, m: Option<map<Key, seq<Byte>>>, was: seq<ForceOut>,
                        wasB: Buffers, cleared: seq<ForceOut>, now: seq<ForceOut>, nowB: Buffers)
      requires Slots(inputs, was, wasB) && Slots(inputs, cleared, wasB) && |peers| == |inputs|
      requires AllCleared(was, cleared)
      requires Visited(inputs, cleared, wasB, now, nowB, Served(m, inputs, peers), FirstBroken(m, inputs, peers, 0))
      ensures Interrupted(inputs, peers, m, was, wasB, now, nowB)
    {
      var n := FirstBroken(m, inputs, peers, 0);
      forall i | 0 <= i < |inputs|
        ensures i < n && Hit(m, inputs[i], peers[i]) ==>
          Holds(was[i], wasB, inputs[i].nAtoms, BatchOutput(m, inputs[i], peers[i]), now[i], nowB)
        ensures !(i < n && Hit(m, inputs[i], peers[i])) ==>
          now[i] == Cleared(was[i]) && nowB[was[i].F] == wasB[was[i].F]
      {
        ServedAt(m, inputs, peers, i);
      }
    }

    lemma NoDatabaseEffects(inputs: seq<Input>, peers: seq<bool>, was: seq<ForceOut>, b: Buffers, log: seq<Input>, calls: nat)
      requires Faithful() && Slots(inputs, was, b) && |peers| == |inputs|
      ensures Effects(inputs, peers, None, log, calls, None, log + inputs, calls + |inputs|)
    {
      NothingSelected(inputs, peers);
      NoDatabase(inputs, was, b);
    }

    lemma NothingSent(inputs: seq<Input>)
      ensures Select(inputs, []) == [] && AllSized([])
    {
    }

    lemma NothingSelected(inputs: seq<Input>, peers: seq<bool>)
      requires |inputs| == |peers|
      ensures Select(inputs, Misses(None, inputs, peers, 0)) == inputs
    {
      NothingCached(inputs, peers, 0);
    }

    lemma {:induction false} NothingAdded(xs: seq<Input>, n: nat)
      requires n <= |xs| && AllSized(xs)
      ensures AddedAll(None, xs, n) == None
    {
      if n > 0 {
        NothingAdded(xs, n - 1);
      }
    }

    lemma NoDatabase(xs: seq<Input>, was: seq<ForceOut>, b: Buffers)
      requires Faithful() && Slots(xs, was, b)
      ensures AllSized(xs) && AddedAll(None, xs, |xs|) == None
    {
      assert AllSized(xs);
      NothingAdded(xs, |xs|);
    }

    method BatchThroughCache(inputs: seq<Input>, outs: array<ForceOut>, mem: Memory, peers: seq<bool>,
                             ghost was: seq<ForceOut>)
      returns (thrown: bool)
      requires Faithful() && Slots(inputs, was, mem.buffers) && Slots(inputs, outs[..], mem.buffers)
      requires |peers| == |inputs| && AllCleared(was, outs[..])
      requires db.Some? ==> Coherent(db.value)
      modifies this, outs, mem
      ensures thrown <==> FirstBroken(old(db), inputs, peers, 0) < |inputs|
      ensures !thrown ==> AllDone(inputs, peers, old(db), was, old(mem.buffers), outs[..], mem.buffers)
      ensures !thrown ==> Effects(inputs, peers, old(db), old(kernelLog), old(forceCalls), db, kernelLog, forceCalls)
      ensures thrown ==> Interrupted(inputs, peers, old(db), was, old(mem.buffers), outs[..], mem.buffers)
      ensures thrown ==> db == old(db) && kernelLog == old(kernelLog) && forceCalls == old(forceCalls)
    {
      ghost var wasB, m, cleared := mem.buffers, db, outs[..];
      var keys, hits := LookUp(inputs, peers);
      var misses;
      misses, thrown := ServeHits(inputs, outs, mem, peers, hits);
      if thrown {
        InterruptedAt(inputs, peers, m, was, wasB, cleared, outs[..], mem.buffers);
        return;
      }
      if misses == [] {
        Empties(kernelLog);
        AllHitsDone(inputs, peers, m, was, wasB, cleared, outs[..], mem.buffers);
        NothingSent(inputs);
        EffectsHold(inputs, peers, m, kernelLog, forceCalls, misses, db);
        return false;
      }
      hide *;
      ComputeMisses(inputs, outs, mem, peers, keys, misses, was, wasB, cleared);
    }

    // What a batch does to the database, the kernel log and the counter.
    ghost predicate Effects(inputs: seq<Input>, peers: seq<bool>,
                            m: Option<map<Key, seq<Byte>>>, log: seq<Input>, calls: nat,
                            m': Option<map<Key, seq<Byte>>>, log': seq<Input>, calls': nat)
      requires |peers| == |inputs|
    {
      var sent := Select(inputs, Misses(m, inputs, peers, 0));
      && log' == log + sent
      && calls' == calls + |sent|
      && AllSized(sent) && m' == AddedAll(m, sent, |sent|)
      && (m'.Some? ==> Coherent(m'.value))
    }

    lemma EffectsHold(inputs: seq<Input>, peers: seq<bool>, m: Option<map<Key, seq<Byte>>>, log: seq<Input>, calls: nat,
                      misses: seq<nat>, m': Option<map<Key, seq<Byte>>>)
      requires |peers| == |inputs| && misses == Misses(m, inputs, peers, 0)
      requires AllSized(Select(inputs, misses)) && m' == AddedAll(m, Select(inputs, misses), |misses|)
      requires m'.Some? ==> Coherent(m'.value)
      ensures Effects(inputs, peers, m, log, calls, m', log + Select(inputs, misses), calls + |misses|)
    {
      hide Misses, AddedAll, AllSized, Coherent;
    }

    predicate AllCleared(was: seq<ForceOut>, now: seq<ForceOut>) {
      |now| == |was| && forall i :: 0 <= i < |was| ==> now[i] == Cleared(was[i])
    }

    // The kernel on the misses, compacted into one batch.
    method RunMisses(inputs: seq<Input>, outs: array<ForceOut>, mem: Memory, peers: seq<bool>, misses: seq<nat>,
                     ghost was: seq<ForceOut>, ghost wasB: Buffers, ghost cleared: seq<ForceOut>)
      returns (missOut: seq<ForceOut>, ghost s: Stages)
      requires Faithful() && Slots(inputs, was, wasB) && Slots(inputs, cleared, wasB)
      requires |peers| == |inputs| && AllCleared(was, cleared)
      requires Visited(inputs, cleared, wasB, outs[..], mem.buffers, Served(db, inputs, peers), |inputs|)
      requires misses == Misses(db, inputs, peers, 0)
      modifies this`kernelLog, mem
      ensures kernelLog == old(kernelLog) + Select(inputs, misses)
      ensures outs.Length == |inputs|
      ensures Passed(inputs, peers, db, s)
      ensures s.was == was && s.wasB == wasB && s.served == outs[..] && s.computed == missOut && s.nowB == mem.buffers
    {
      ghost var served, servedB := outs[..], mem.buffers;
      GivenSlots(inputs, peers, db, cleared, wasB, served, servedB);
      hide *;
      var missIn := Select(inputs, misses);
      var given := CopySlots(outs, misses);
      ForceBatchImpl(missIn, given, mem);
      missOut := given[..];
      s := Stages(was, wasB, cleared, served, servedB, PickSlots(served, misses), missOut, mem.buffers);
      AllPassed(inputs, peers, db, s);
    }

    // The computed results go back to the slots and into the cache.
    method FinishMisses(inputs: seq<Input>, outs: array<ForceOut>, b: Buffers, peers: seq<bool>, keys: seq<Key>,
                        misses: seq<nat>, missOut: seq<ForceOut>, ghost s: Stages, ghost log: seq<Input>)
      requires Faithful() && Passed(inputs, peers, db, s) && |keys| == |inputs| == |peers|
      requires outs[..] == s.served && missOut == s.computed && b == s.nowB
      requires forall i :: 0 <= i < |inputs| ==> keys[i] == key(inputs[i])
      requires misses == Misses(db, inputs, peers, 0)
      requires db.Some? ==> Coherent(db.value)
      modifies this`db, this`forceCalls, outs
      ensures AllDone(inputs, peers, old(db), s.was, s.wasB, outs[..], b)
      ensures Effects(inputs, peers, old(db), log, old(forceCalls), db, log + Select(inputs, misses), forceCalls)
    {
      ghost var m, calls := db, forceCalls;
      hide *;
      ReadyToStore(inputs, peers, m, s, keys);
      StoreMisses(inputs, outs, b, keys, misses, missOut);
      CachedDone(inputs, peers, m, s, outs[..]);
      EffectsHold(inputs, peers, m, log, calls, misses, db);
    }

    method ComputeMisses(inputs: seq<Input>, outs: array<ForceOut>, mem: Memory, peers: seq<bool>, keys: seq<Key>,
                         misses: seq<nat>, ghost was: seq<ForceOut>, ghost wasB: Buffers, ghost cleared: seq<ForceOut>)
      requires Faithful() && Slots(inputs, was, wasB) && Slots(inputs, cleared, wasB)
      requires |keys| == |peers| == |inputs| && AllCleared(was, cleared)
      requires forall i :: 0 <= i < |inputs| ==> keys[i] == key(inputs[i])
      requires Visited(inputs, cleared, wasB, outs[..], mem.buffers, Served(db, inputs, peers), |inputs|)
      requires misses == Misses(db, inputs, peers, 0)
      requires db.Some? ==> Coherent(db.value)
      modifies this, outs, mem
      ensures AllDone(inputs, peers, old(db), was, wasB, outs[..], mem.buffers)
      ensures Effects(inputs, peers, old(db), old(kernelLog), old(forceCalls), db, kernelLog, forceCalls)
    {
      ghost var log := kernelLog;
      hide *;
      var missOut, s := RunMisses(inputs, outs, mem, peers, misses, was, wasB, cleared);
      FinishMisses(inputs, outs, mem.buffers, peers, keys, misses, missOut, s, log);
    }

    method CopySlots(outs: array<ForceOut>, misses: seq<nat>) returns (missOut: array<ForceOut>)
      requires forall j :: 0 <= j < |misses| ==> misses[j] < outs.Length
      ensures fresh(missOut) && missOut[..] == PickSlots(outs[..], misses)
    {
      missOut := new ForceOut[|misses|](j requires 0 <= j < |misses| reads outs => outs[misses[j]]);
    }

    lemma AllPassed(inputs: seq<Input>, peers: seq<bool>, m: Option<map<Key, seq<Byte>>>, s: Stages)
      requires |peers| == |inputs|
      requires Slots(inputs, s.was, s.wasB) && Slots(inputs, s.cleared, s.wasB) && AllCleared(s.was, s.cleared)
      requires Visited(inputs, s.cleared, s.wasB, s.served, s.servedB, Served(m, inputs, peers), |inputs|)
      requires s.given == PickSlots(s.served, Misses(m, inputs, peers, 0))
      requires Slots(Select(inputs, Misses(m, inputs, peers, 0)), s.given, s.servedB)
      requires Visited(Select(inputs, Misses(m, inputs, peers, 0)), s.given, s.servedB, s.computed, s.nowB,
                       Computed(Select(inputs, Misses(m, inputs, peers, 0)), s.given, s.servedB),
                       |Misses(m, inputs, peers, 0)|)
      ensures Passed(inputs, peers, m, s)
    {
    }

    lemma SlotReady(inputs: seq<Input>, peers: seq<bool>, m: Option<map<Key, seq<Byte>>>, s: Stages, j: nat)
      requires Passed(inputs, peers, m, s) && j < |Misses(m, inputs, peers, 0)|
      ensures var i := Misses(m, inputs, peers, 0)[j];
        && |s.served| == |inputs| && |s.computed| == |Misses(m, inputs, peers, 0)|
        && SlotFits(inputs[i], s.served[i], s.nowB, s.computed[j])
    {
      MissDone(inputs, peers, m, s, j);
      GivenBuffers(inputs, peers, m, s);
      hide View, Result, Hit, Computed, Served, Slots, Misses;
    }

    lemma PassedSizes(inputs: seq<Input>, peers: seq<bool>, m: Option<map<Key, seq<Byte>>>, s: Stages)
      requires Passed(inputs, peers, m, s)
      ensures |inputs| == |peers| == |s.served| && |s.computed| == |Misses(m, inputs, peers, 0)|
      ensures forall i :: 0 <= i < |inputs| ==> inputs[i] in play
    {
      hide View, Hit, Served, Computed, Holds, Misses, Room;
    }

    lemma ReadyToStore(inputs: seq<Input>, peers: seq<bool>, m: Option<map<Key, seq<Byte>>>, s: Stages, keys: seq<Key>)
      requires Passed(inputs, peers, m, s) && |keys| == |inputs| == |peers|
      requires forall i :: 0 <= i < |inputs| ==> keys[i] == key(inputs[i])
      ensures StoreReady(inputs, s.served, s.nowB, keys, Misses(m, inputs, peers, 0), s.computed)
    {
      var misses := Misses(m, inputs, peers, 0);
      PassedSizes(inputs, peers, m, s);
      hide SlotFits, Misses, Passed, Hit;
      forall j | 0 <= j < |misses|
        ensures SlotFits(inputs[misses[j]], s.served[misses[j]], s.nowB, s.computed[j])
      {
        SlotReady(inputs, peers, m, s, j);
      }
    }

    lemma AllHitsDone(inputs: seq<Input>, peers: seq<bool>, m: Option<map<Key, seq<Byte>>>,
                      was: seq<ForceOut>, wasB: Buffers, cleared: seq<ForceOut>, served: seq<ForceOut>, servedB: Buffers)
      requires Slots(inputs, was, wasB) && Slots(inputs, cleared, wasB) && |peers| == |inputs|
      requires AllCleared(was, cleared)
      requires Visited(inputs, cleared, wasB, served, servedB, Served(m, inputs, peers), |inputs|)
      requires Misses(m, inputs, peers, 0) == []
      ensures AllDone(inputs, peers, m, was, wasB, served, servedB)
    {
      forall i | 0 <= i < |inputs|
        ensures Holds(was[i], wasB, inputs[i].nAtoms, BatchOutput(m, inputs[i], peers[i]), served[i], servedB)
      {
        assert i !in Misses(m, inputs, peers, 0);
        ServedAt(m, inputs, peers, i);
      }
    }

    lemma GivenSlots(inputs: seq<Input>, peers: seq<bool>, m: Option<map<Key, seq<Byte>>>,
                     cleared: seq<ForceOut>, wasB: Buffers, served: seq<ForceOut>, servedB: Buffers)
      requires Slots(inputs, cleared, wasB) && |peers| == |inputs|
      requires Visited(inputs, cleared, wasB, served, servedB, Served(m, inputs, peers), |inputs|)
      ensures var misses := Misses(m, inputs, peers, 0);
        |served| == |inputs| && Slots(Select(inputs, misses), PickSlots(served, misses), servedB)
    {
      assert |served| == |inputs|;
      hide *;
      var misses := Misses(m, inputs, peers, 0);
      forall j | 0 <= j < |misses|
        ensures served[misses[j]] == cleared[misses[j]]
        ensures Room(served[misses[j]], servedB, inputs[misses[j]].nAtoms)
      {
        assert misses[j] in misses;
        MissedSlot(inputs, peers, m, cleared, wasB, served, servedB, misses[j]);
      }
      PickedSlots(inputs, cleared, wasB, misses, served, servedB);
    }

    lemma PickedSlots(inputs: seq<Input>, was: seq<ForceOut>, wasB: Buffers,
                      indices: seq<nat>, outs: seq<ForceOut>, b: Buffers)
      requires Slots(inputs, was, wasB) && |outs| == |inputs|
      requires forall i, j :: 0 <= i < j < |indices| ==> indices[i] < indices[j]
      requires forall j :: 0 <= j < |indices| ==> indices[j] < |inputs|
      requires forall j :: 0 <= j < |indices| ==>
        outs[indices[j]] == was[indices[j]] && Room(outs[indices[j]], b, inputs[indices[j]].nAtoms)
      ensures Slots(Select(inputs, indices), PickSlots(outs, indices), b)
    {
      hide Room;
    }

    // A slot that was not served still has its buffer.
    lemma MissedSlot(inputs: seq<Input>, peers: seq<bool>, m: Option<map<Key, seq<Byte>>>,
                     cleared: seq<ForceOut>, wasB: Buffers, served: seq<ForceOut>, servedB: Buffers, k: nat)
      requires Slots(inputs, cleared, wasB) && |peers| == |inputs|
      requires Visited(inputs, cleared, wasB, served, servedB, Served(m, inputs, peers), |inputs|)
      requires k in Misses(m, inputs, peers, 0)
      ensures k < |inputs| == |served| && served[k] == cleared[k]
      ensures Room(served[k], servedB, inputs[k].nAtoms)
    {
      hide Visited;
      ServedAt(m, inputs, peers, k);
      VisitedWithoutTarget(inputs, cleared, wasB, served, servedB, Served(m, inputs, peers), k);
      hide Served, Misses, Hit;
    }

    // The cached batch and the plain loop agree on a system exactly when it
    // is computed, or its result is one the record found can hold: a flag of 0
    // or 1 and no stress without the flag, and with an old record no variance
    // and no stress at all.
    lemma CacheAgreesWithPlain(m: Option<map<Key, seq<Byte>>>, x: Input, peerHas: bool)
      ensures BatchOutput(m, x, peerHas) == BatchOutput(None, x, peerHas) <==>
        var out := Result(x);
        || !Hit(m, x, peerHas)
        || (out.hasStress == 1 && HasResultMetadata(m.value[key(x)], x.nAtoms))
        || (out.hasStress == 0 && out.stress == Zeros(9) &&
            (HasResultMetadata(m.value[key(x)], x.nAtoms) || out.variance == ZERO))
    {
      NormalForm(Result(x));
    }
  }

  // The results a record can hold: a flag of 0 or 1, and no stress without
  // the flag.
  lemma NormalForm(out: Output)
    ensures out == Normal(out) <==>
      (out.hasStress == 0 && out.stress == Zeros(9)) || out.hasStress == 1
  {
  }

  datatype Stages = Stages(was: seq<ForceOut>, wasB: Buffers, cleared: seq<ForceOut>,
                           served: seq<ForceOut>, servedB: Buffers,
                           given: seq<ForceOut>, computed: seq<ForceOut>, nowB: Buffers)
}
