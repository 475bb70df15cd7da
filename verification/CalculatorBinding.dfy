// librgpot's side of the calculators on one rank: the registered hooks and
// adopters, the bind, and the two copies of the group. A refusal by a hook or
// an adopter changes librgpot's copy only; librgpot_mpi keeps the split.
module CalculatorBinding {
  import opened Wrappers
  import opened CalculatorSplit
  import opened Sequences

  const REFUSED := Group(-1, 1, 0, 1)

  // Calls made into the callbacks.
  datatype Event = HookCalled(hook: nat, rpc: int) | Adopted(adopter: nat)

  function HookEvents(hooks: seq<nat>, rpc: int): seq<Event> {
    seq(|hooks|, i requires 0 <= i < |hooks| => HookCalled(hooks[i], rpc))
  }

  function AdoptEvents(adopters: seq<nat>): seq<Event> {
    seq(|adopters|, i requires 0 <= i < |adopters| => Adopted(adopters[i]))
  }

  predicate Distinct(s: seq<nat>) {
    forall i, j :: 0 <= i < j < |s| ==> s[i] != s[j]
  }

  datatype Operation =
    | AddHook(hook: Option<nat>)
    | AddAdopter(adopter: Option<nat>)
    | BindWorld(requested: int, canLoad: bool)
    | UseMpi(canLoad: bool)

  // One process, rank `rank` of a world of worldSize. Callbacks are known by
  // their address; what each would answer is arbitrary. None is called twice,
  // so its answer is a function of the callback.
  class Process {
    const rank: nat
    const worldSize: nat
    const hookReply: (nat, int) -> int
    const adopterReply: nat -> int

    // librgpot
    var loaded: bool
    var hooks: seq<nat>
    var adopters: seq<nat>
    var group: Group
    var bound: bool
    var boundRpc: int
    // librgpot_mpi
    var mpiGroup: Group
    var mpiBound: bool
    var hasComm: bool

    ghost var log: seq<Event>
    // The hooks there were when the process was bound.
    ghost var hooksAtBind: seq<nat>

    constructor (rank: nat, worldSize: nat, hookReply: (nat, int) -> int, adopterReply: nat -> int)
      requires rank < worldSize
      ensures Valid() && !bound && !loaded && hooks == [] && adopters == []
      ensures this.rank == rank && this.worldSize == worldSize
      ensures this.hookReply == hookReply && this.adopterReply == adopterReply
    {
      this.rank := rank;
      this.worldSize := worldSize;
      this.hookReply := hookReply;
      this.adopterReply := adopterReply;
      loaded, bound, mpiBound, hasComm := false, false, false, false;
      hooks, adopters := [], [];
      group, mpiGroup := Group(0, 1, 0, 1), Group(0, 1, 0, 1);
      boundRpc := 0;
      log, hooksAtBind := [], [];
    }

    // librgpot_mpi has a communicator to give.
    predicate HasSplit()
      reads this`loaded, this`mpiBound, this`mpiGroup, this`hasComm
    {
      loaded && mpiBound && mpiGroup.index >= 0 && hasComm
    }

    // Each hook there was at the bind ran once, before the adopters, with the
    // count bound; each registered adopter received the communicator once
    // when there is one, and never otherwise.
    ghost predicate Valid()
      reads this
    {
      && rank < worldSize && Distinct(hooks) && Distinct(adopters)
      && (mpiBound ==> bound && loaded && mpiGroup == Bind(boundRpc, rank, worldSize))
      && (hasComm <==> mpiBound && mpiGroup.index >= 0)
      && (bound ==> boundRpc > 0)
      && (bound && group.index >= 0 ==> group.index == (if mpiBound then mpiGroup.index else 0))
      && (bound ==> hooksAtBind <= hooks)
      && (!bound ==> log == [])
      && (bound ==> log == HookEvents(hooksAtBind, boundRpc) + if HasSplit() then AdoptEvents(adopters) else [])
    }

    predicate Refused()
      reads this
    {
      bound && group.index < 0
    }

    // loadCalculatorMpi; canLoad says whether one of the candidates opens now.
    method Load(canLoad: bool)
      requires Valid()
      modifies this`loaded
      ensures Valid() && loaded == (old(loaded) || canLoad)
    {
      if !loaded {
        loaded := canLoad;
      }
    }

    // addCalculatorHook
    method Hook(hook: Option<nat>)
      requires Valid()
      modifies this`hooks
      ensures Valid()
      ensures hooks == if hook.None? || hook.value in old(hooks) then old(hooks) else old(hooks) + [hook.value]
    {
      if hook.None? {
        return;
      }
      for i := 0 to |hooks|
        invariant hook.value !in hooks[..i]
      {
        if hooks[i] == hook.value {
          return;
        }
      }
      hooks := hooks + [hook.value];
    }

    // adoptCalculatorComm, and adopt of librgpot_mpi behind it.
    method Adopt(adopter: nat) returns (index: int)
      modifies this`log
      ensures index == AdoptReply(adopter)
      ensures log == old(log) + if HasSplit() then [Adopted(adopter)] else []
    {
      if !loaded || !mpiBound || mpiGroup.index < 0 || !hasComm {
        return -1;
      }
      index := adopterReply(adopter);
      log := log + [Adopted(adopter)];
    }

    function AdoptReply(adopter: nat): int
      reads this`loaded, this`mpiBound, this`mpiGroup, this`hasComm
    {
      if HasSplit() then adopterReply(adopter) else -1
    }

    // addCalculatorCommAdopter
    method Adopter(callback: Option<nat>) returns (accepted: bool)
      requires Valid()
      modifies this`adopters, this`group, this`log
      ensures Valid()
      // Registered unless null, known already or refused.
      ensures adopters == old(adopters) +
        if callback.None? || callback.value in old(adopters) || old(Refused()) then [] else [callback.value]
      // Only a newly registered adopter of a bound process is called, at once.
      ensures log == old(log) +
        if adopters != old(adopters) && bound && HasSplit() then [Adopted(callback.value)] else []
      // It refuses the group unless it answers with the group's index.
      ensures group == old(group).(index :=
        if bound && adopters != old(adopters) && AdoptReply(callback.value) != old(group).index then -1
        else old(group).index)
      ensures accepted <==> callback.Some? && !Refused()
    {
      if callback.None? {
        return false;
      }
      for i := 0 to |adopters|
        invariant callback.value !in adopters[..i]
      {
        if adopters[i] == callback.value {
          return !bound || group.index >= 0;
        }
      }
      if bound && group.index < 0 {
        return false;
      }
      OneMore(adopters, callback.value);
      adopters := adopters + [callback.value];
      if bound {
        var index := Adopt(callback.value);
        if index != group.index {
          group := group.(index := -1);
          return false;
        }
      }
      return true;
    }

    // The index before any callback had its say.
    function ExpectedIndex(requested: int): int
      requires rank < worldSize
      reads this`loaded
    {
      if loaded then Bind(requested, rank, worldSize).index
      else if requested <= 0 || requested == 1 then 0
      else -1
    }

    // None of the first n hooks refuses.
    predicate NoRefusal(rpc: int, n: nat)
      requires n <= |hooks|
      reads this`hooks
    {
      forall i :: 0 <= i < n ==> hookReply(hooks[i], rpc) >= 0
    }

    lemma NextAnswer(rpc: int, i: nat)
      requires i < |hooks|
      ensures NoRefusal(rpc, 0) && (NoRefusal(rpc, i + 1) <==> NoRefusal(rpc, i) && hookReply(hooks[i], rpc) >= 0)
    {
    }

    // All answers of the callbacks agree with the split.
    predicate Accepted(expected: int, rpc: int, n: nat, m: nat)
      requires n <= |hooks| && m <= |adopters|
      reads this`hooks, this`adopters, this`loaded, this`mpiBound, this`mpiGroup, this`hasComm
    {
      && NoRefusal(rpc, n)
      && (forall i :: 0 <= i < m ==> AdoptReply(adopters[i]) == expected)
    }

    lemma NextAdopter(expected: int, rpc: int, i: nat)
      requires i < |adopters|
      ensures Accepted(expected, rpc, |hooks|, i + 1)
        <==> Accepted(expected, rpc, |hooks|, i) && AdoptReply(adopters[i]) == expected
    {
    }

    // bindCalculators
    method BindCalculators(requested: int, canLoad: bool) returns (g: Group)
      requires Valid()
      modifies this
      ensures Valid() && bound && loaded == (old(loaded) || canLoad)
      ensures hooks == old(hooks) && adopters == old(adopters)
      // A later bind gives the group again for the stored count only, and
      // changes nothing.
      ensures old(bound) ==>
        && g == (if requested == old(boundRpc) then old(group) else REFUSED)
        && group == old(group) && boundRpc == old(boundRpc) && mpiGroup == old(mpiGroup) && log == old(log)
        && mpiBound == old(mpiBound)
      // The first bind runs every hook, then gives every adopter the split,
      // whatever the hooks answered; the index stands when all agree.
      ensures !old(bound) ==>
        && g == group && hooksAtBind == hooks && mpiBound == loaded
        && boundRpc == (if requested > 0 then requested else if loaded then worldSize else 1)
        && group.index == (if Accepted(ExpectedIndex(requested), boundRpc, |hooks|, |adopters|)
                           then ExpectedIndex(requested) else -1)
        && (loaded ==> group == mpiGroup.(index := group.index) && mpiGroup == Bind(requested, rank, worldSize))
      // In plain words: the process keeps its place exactly when the world
      // splits, no hook answers with a negative number, and every adopter is
      // given the communicator and answers with the process's own index.
      ensures !old(bound) ==>
        && (group.index >= 0 <==>
              && (if loaded then requested <= 0 || exists groups: nat :: Fills(groups, requested, worldSize)
                  else requested <= 1)
              && HooksAgree() && AdoptersAgree())
        && (group.index >= 0 ==> group.index == if loaded then rank / boundRpc else 0)
    {
      hide HookEvents, AdoptEvents, Bind, Distinct;
      Load(canLoad);
      if bound && boundRpc == requested {
        return group;
      }
      if bound {
        return REFUSED;
      }
      FirstBind(requested);
      KeptExactlyWhen(requested);
      hide Accepted, ExpectedIndex, HooksAgree, AdoptersAgree;
      g := group;
    }

    lemma KeptExactlyWhen(requested: int)
      requires Valid() && bound && mpiBound == loaded
      requires boundRpc == if requested > 0 then requested else if loaded then worldSize else 1
      requires loaded ==> mpiGroup == Bind(requested, rank, worldSize)
      ensures ExpectedIndex(requested) >= 0 <==>
        if loaded then requested <= 0 || exists groups: nat :: Fills(groups, requested, worldSize) else requested <= 1
      ensures ExpectedIndex(requested) >= 0 ==> ExpectedIndex(requested) == if loaded then rank / boundRpc else 0
      ensures loaded ==> ExpectedIndex(requested) == mpiGroup.index
      ensures ExpectedIndex(requested) >= 0 ==>
        (Accepted(ExpectedIndex(requested), boundRpc, |hooks|, |adopters|) <==>
          HooksAgree() && AdoptersAgree())
    {
      if loaded {
        SplitExactlyWhen(requested, rank, worldSize);
      }
      var expected := ExpectedIndex(requested);
      assert expected >= 0 ==> (HasSplit() <==> loaded);
      if expected >= 0 {
        AllAccept(expected);
      }
      hide HookEvents, AdoptEvents, Distinct, Bind, ExpectedIndex, AdoptReply, Accepted, HooksAgree, AdoptersAgree;
    }

    predicate HooksAgree()
      reads this
    {
      forall i :: 0 <= i < |hooks| ==> hookReply(hooks[i], boundRpc) >= 0
    }

    predicate AdoptersAgree()
      reads this
    {
      forall i :: 0 <= i < |adopters| ==> loaded && adopterReply(adopters[i]) == mpiGroup.index
    }

    lemma AllAccept(expected: int)
      requires expected >= 0 && (HasSplit() <==> loaded) && (loaded ==> expected == mpiGroup.index)
      ensures Accepted(expected, boundRpc, |hooks|, |adopters|) <==> HooksAgree() && AdoptersAgree()
    {
      assert NoRefusal(boundRpc, |hooks|) <==> HooksAgree();
      if Accepted(expected, boundRpc, |hooks|, |adopters|) {
        forall i | 0 <= i < |adopters|
          ensures loaded && adopterReply(adopters[i]) == mpiGroup.index
        {
          assert AdoptReply(adopters[i]) == expected;
        }
        assert adopters != [] ==> AdoptReply(adopters[0]) == expected && loaded;
        assert forall i :: 0 <= i < |adopters| ==> adopterReply(adopters[i]) == mpiGroup.index;
        assert AdoptersAgree();
      } else if AdoptersAgree() {
        assert forall i :: 0 <= i < |adopters| ==> AdoptReply(adopters[i]) == expected;
      }
    }

    // The first bind runs every hook, then gives every adopter the split,
    // whatever the hooks answered; the index stands when all agree.
    method FirstBind(requested: int)
      requires Valid() && !bound
      modifies this
      ensures Valid() && bound && loaded == old(loaded) && hooks == old(hooks) && adopters == old(adopters)
      ensures hooksAtBind == hooks && mpiBound == loaded
      ensures boundRpc == if requested > 0 then requested else if loaded then worldSize else 1
      ensures group.index == if Accepted(ExpectedIndex(requested), boundRpc, |hooks|, |adopters|)
                             then ExpectedIndex(requested) else -1
      ensures loaded ==> group == mpiGroup.(index := group.index) && mpiGroup == Bind(requested, rank, worldSize)
    {
      hide HookEvents, AdoptEvents, Bind, Distinct;
      var rpc := Split(requested);
      CallOut(rpc, ExpectedIndex(requested));
      bound := true;
      boundRpc := rpc;
      hooksAtBind := hooks;
    }

    // All callbacks, after the split.
    method CallOut(rpc: int, expected: int)
      requires log == [] && group.index == expected >= -1
      modifies this`group, this`log
      ensures log == HookEvents(hooks, rpc) + if HasSplit() then AdoptEvents(adopters) else []
      ensures group == old(group).(index := if Accepted(expected, rpc, |hooks|, |adopters|) then expected else -1)
    {
      RunHooks(rpc);
      GiveToAdopters(rpc, expected);
    }

    // The split itself, by librgpot_mpi or for a process of its own.
    method Split(requested: int) returns (rpc: int)
      requires rank < worldSize && !mpiBound && !hasComm
      modifies this`group, this`mpiGroup, this`mpiBound, this`hasComm
      ensures rpc == if requested > 0 then requested else if loaded then worldSize else 1
      ensures group.index == ExpectedIndex(requested) >= -1
      ensures mpiBound == loaded && hasComm == (mpiBound && mpiGroup.index >= 0)
      ensures mpiBound ==> group == mpiGroup == Bind(requested, rank, worldSize) == Bind(rpc, rank, worldSize)
    {
      rpc := requested;
      group := Group(0, 1, 0, 1);
      if loaded {
        mpiGroup := Bind(rpc, rank, worldSize);
        hasComm := mpiGroup.index >= 0;
        mpiBound := true;
        group := mpiGroup;
        if rpc <= 0 {
          rpc := mpiGroup.worldSize;
        }
      } else {
        if rpc <= 0 {
          rpc := 1;
        }
        if rpc != 1 {
          group := group.(index := -1);
        }
      }
    }

    method RunHooks(rpc: int)
      requires log == []
      modifies this`group, this`log
      ensures log == HookEvents(hooks, rpc)
      ensures group == old(group).(index := if NoRefusal(rpc, |hooks|) then old(group).index else -1)
    {
      for i := 0 to |hooks|
        invariant log == HookEvents(hooks[..i], rpc)
        invariant group == old(group).(index := if NoRefusal(rpc, i) then old(group).index else -1)
      {
        OneMoreHook(hooks[..i], hooks[i], rpc);
        PrefixStep(hooks, i);
        NextAnswer(rpc, i);
        hide HookEvents, NoRefusal;
        var index := hookReply(hooks[i], rpc);
        log := log + [HookCalled(hooks[i], rpc)];
        if index < 0 {
          group := group.(index := -1);
        }
      }
      assert hooks[..|hooks|] == hooks;
    }

    method GiveToAdopters(ghost rpc: int, expected: int)
      requires log == HookEvents(hooks, rpc) && expected >= -1
      requires group.index == if Accepted(expected, rpc, |hooks|, 0) then expected else -1
      modifies this`group, this`log
      ensures log == HookEvents(hooks, rpc) + if HasSplit() then AdoptEvents(adopters) else []
      ensures group == old(group).(index :=
        if Accepted(expected, rpc, |hooks|, |adopters|) then expected else -1)
    {
      for i := 0 to |adopters|
        invariant log == HookEvents(hooks, rpc) + if HasSplit() then AdoptEvents(adopters[..i]) else []
        invariant group == old(group).(index := if Accepted(expected, rpc, |hooks|, i) then expected else -1)
      {
        OneMore(adopters[..i], adopters[i]);
        PrefixStep(adopters, i);
        Assoc(HookEvents(hooks, rpc), AdoptEvents(adopters[..i]), [Adopted(adopters[i])]);
        NextAdopter(expected, rpc, i);
        hide HookEvents, AdoptEvents, Accepted;
        var index := Adopt(adopters[i]);
        if index < 0 || index != expected {
          group := group.(index := -1);
        }
      }
      assert adopters[..|adopters|] == adopters;
    }

    // What an operation leaves as it was.
    twostate predicate Kept()
      reads this
    {
      && (old(bound) ==> bound && boundRpc == old(boundRpc) && group == old(group).(index := group.index))
      && (old(Refused()) ==> Refused() && adopters == old(adopters))
      && old(hooks) <= hooks && old(adopters) <= adopters && old(log) <= log
    }

    method Perform(operation: Operation)
      requires Valid()
      modifies this
      ensures Valid() && Kept()
    {
      match operation {
        case AddHook(hook) => Hook(hook);
        case AddAdopter(adopter) => var _ := Adopter(adopter);
        case BindWorld(requested, canLoad) => var _ := BindCalculators(requested, canLoad);
        case UseMpi(canLoad) => Load(canLoad);
      }
    }

    // Any sequence of operations: the invariant is kept, nothing clears a
    // refusal, runs a hook again or changes more of the group than its index.
    method Run(operations: seq<Operation>)
      requires Valid()
      modifies this
      ensures Valid() && Kept()
    {
      for i := 0 to |operations|
        invariant Valid() && Kept()
      {
        hide Valid;
        Perform(operations[i]);
      }
    }

    // Binding again with the argument of the first bind gives the same group
    // exactly for a positive argument: the stored count is the effective one.
    method BindTwice(requested: int, canLoad: bool, canLoadLater: bool, between: seq<Operation>)
      returns (first: Group, second: Group)
      requires Valid() && !bound
      modifies this
      ensures second == if requested > 0 then first.(index := group.index) else REFUSED
      ensures first.index < 0 ==> group.index < 0
    {
      first := BindCalculators(requested, canLoad);
      second := BindAgain(requested, canLoadLater, between);
    }

    method BindAgain(requested: int, canLoad: bool, between: seq<Operation>) returns (g: Group)
      requires Valid() && bound
      modifies this
      ensures bound && boundRpc == old(boundRpc)
      ensures g == if requested == boundRpc then group else REFUSED
      ensures old(Refused()) ==> Refused()
      ensures group == old(group).(index := group.index)
    {
      Run(between);
      g := BindCalculators(requested, canLoad);
    }
  }

  lemma OneMoreHook(hooks: seq<nat>, h: nat, rpc: int)
    ensures HookEvents(hooks + [h], rpc) == HookEvents(hooks, rpc) + [HookCalled(h, rpc)]
  {
  }

  lemma OneMore(adopters: seq<nat>, a: nat)
    ensures AdoptEvents(adopters + [a]) == AdoptEvents(adopters) + [Adopted(a)]
  {
  }

  // ---- What the invariant means for a single callback ----

  lemma {:induction false} Once(s: seq<nat>, x: nat)
    requires Distinct(s)
    ensures multiset(s)[x] == if x in s then 1 else 0
  {
    if s != [] {
      var front, last := s[..|s| - 1], s[|s| - 1];
      Once(front, x);
      assert s == front + [last];
    }
  }

  lemma {:induction false} CallsOfHook(hooks: seq<nat>, rpc: int, h: nat)
    ensures multiset(HookEvents(hooks, rpc))[HookCalled(h, rpc)] == multiset(hooks)[h]
    ensures forall a: nat :: multiset(HookEvents(hooks, rpc))[Adopted(a)] == 0
  {
    if hooks != [] {
      var front, last := hooks[..|hooks| - 1], hooks[|hooks| - 1];
      CallsOfHook(front, rpc, h);
      assert hooks == front + [last];
      assert HookEvents(hooks, rpc) == HookEvents(front, rpc) + [HookCalled(last, rpc)];
    }
  }

  lemma {:induction false} CallsOfAdopter(adopters: seq<nat>, a: nat)
    ensures multiset(AdoptEvents(adopters))[Adopted(a)] == multiset(adopters)[a]
    ensures forall h: nat, rpc: int :: multiset(AdoptEvents(adopters))[HookCalled(h, rpc)] == 0
  {
    if adopters != [] {
      var front, last := adopters[..|adopters| - 1], adopters[|adopters| - 1];
      CallsOfAdopter(front, a);
      assert adopters == front + [last];
      OneMore(front, last);
    }
  }

  // In every state of every run: a hook has run once if it was registered
  // when the process was bound, else never; an adopter has received the
  // communicator once if it is registered and there is one, else never.
  lemma EachCallbackOnce(p: Process, h: nat, a: nat)
    requires p.Valid() && p.bound
    ensures multiset(p.log)[HookCalled(h, p.boundRpc)] == if h in p.hooksAtBind then 1 else 0
    ensures multiset(p.log)[Adopted(a)] == if a in p.adopters && p.mpiBound && p.mpiGroup.index >= 0 then 1 else 0
  {
    var given := if p.HasSplit() then p.adopters else [];
    assert Distinct(p.hooksAtBind) by {
      assert forall i :: 0 <= i < |p.hooksAtBind| ==> p.hooksAtBind[i] == p.hooks[i];
    }
    Once(p.hooksAtBind, h);
    Once(given, a);
    CallsOfHook(p.hooksAtBind, p.boundRpc, h);
    CallsOfAdopter(given, a);
    assert p.log == HookEvents(p.hooksAtBind, p.boundRpc) + AdoptEvents(given);
  }

  // Ranks bound to the same count over MPI, with the same adopters
  // registered, gave the communicator to the same engines in the same order,
  // whether or not a hook refused on some of them.
  lemma AdoptersEnterTogether(p: Process, q: Process)
    requires p.Valid() && q.Valid() && p.mpiBound && q.mpiBound
    requires p.worldSize == q.worldSize && p.boundRpc == q.boundRpc && p.adopters == q.adopters
    ensures p.HasSplit() <==> q.HasSplit()
    ensures p.log[|p.hooksAtBind|..] == q.log[|q.hooksAtBind|..]
  {
    if Divides(p.boundRpc, p.worldSize) {
      RankToPairAndBack(p.boundRpc, p.rank, p.worldSize);
      RankToPairAndBack(q.boundRpc, q.rank, q.worldSize);
    }
    var given := if p.HasSplit() then AdoptEvents(p.adopters) else [];
    assert p.log[|p.hooksAtBind|..] == given;
    assert q.log[|q.hooksAtBind|..] == given;
  }
}
