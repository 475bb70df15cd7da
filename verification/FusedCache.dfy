// The eindir objective: energy and gradient requests answered by one force
// callback, with the last fused evaluation kept behind a mutex for a gradient
// request at the same positions.
module FusedCache {
  import opened Wrappers

  type Vector = seq<real>

  // What the callback answers for given positions; the forces may be absent.
  datatype Reply = Reply(success: bool, energy: real, forces: Option<Vector>)

  datatype Fused = Fused(positions: Vector, gradient: Vector)

  datatype Request = Energy(x: Vector) | Gradient(x: Vector)

  // A gradient request that succeeds without forces leaves its output alone.
  datatype Answer = Failed | Value(energy: real) | Written(gradient: Option<Vector>)

  // The gradient is minus the force, component by component.
  predicate Opposite(gradient: Vector, forces: Vector) {
    |gradient| == |forces| && forall i :: 0 <= i < |forces| ==> gradient[i] + forces[i] == 0.0
  }

  function Negated(forces: Vector): (g: Vector)
    ensures Opposite(g, forces)
  {
    seq(|forces|, i requires 0 <= i < |forces| => -forces[i])
  }

  // The answer a single callback gives, without any cache.
  predicate IsPlain(callback: Vector -> Reply, request: Request, answer: Answer) {
    var reply := callback(request.x);
    if !reply.success then answer == Failed
    else
      match request
      case Energy(_) => answer == Value(reply.energy)
      case Gradient(_) =>
        && answer.Written? && (answer.gradient.Some? <==> reply.forces.Some?)
        && (reply.forces.Some? ==> Opposite(answer.gradient.value, reply.forces.value))
  }

  // The tensors in existence. Only an existing tensor can be freed, so each
  // is freed at most once.
  class Tensors {
    var live: set<nat>
    var next: nat

    constructor ()
      ensures Valid() && live == {}
    {
      live, next := {}, 0;
    }

    predicate Valid()
      reads this
    {
      forall t :: t in live ==> t < next
    }

    method New() returns (t: nat)
      requires Valid()
      modifies this
      ensures Valid() && t !in old(live) && live == old(live) + {t}
    {
      t := next;
      live, next := live + {t}, next + 1;
    }

    // rgpot_tensor_free; a null pointer is ignored.
    method Free(t: Option<nat>)
      requires Valid() && (t.Some? ==> t.value in live)
      modifies this
      ensures Valid() && live == old(live) - if t.Some? then {t.value} else {}
    {
      if t.Some? {
        live := live - {t.value};
      }
    }
  }

  class Objective {
    const callback: Vector -> Reply
    const tensors: Tensors
    // Behind the mutex; each access below is one locked region.
    var fusedCache: Option<Fused>
    // The positions of every callback so far, and how often a cached
    // evaluation was stored and used.
    ghost var calls: seq<Vector>
    ghost var stored: nat
    ghost var served: nat

    constructor (callback: Vector -> Reply)
      ensures Valid() && this.callback == callback && fresh(tensors) && tensors.live == {} && calls == []
      ensures fusedCache.None?
    {
      this.callback := callback;
      tensors := new Tensors();
      fusedCache := None;
      calls, stored, served := [], 0, 0;
    }

    // What is cached is the callback's own result, and each stored evaluation
    // is used at most once.
    ghost predicate Valid()
      reads this, tensors
    {
      && tensors.Valid() && (fusedCache.Some? ==> Genuine(fusedCache.value))
      && served + (if fusedCache.Some? then 1 else 0) <= stored
    }

    // The positions a cached evaluation is for.
    function Holds(cached: Option<Fused>): Option<Vector> {
      match cached case None => None case Some(f) => Some(f.positions)
    }

    predicate Genuine(f: Fused) {
      var reply := callback(f.positions);
      reply.success && reply.forces.Some? && Opposite(f.gradient, reply.forces.value)
    }

    // One callback, with the tensors made around it; the forces come back in
    // a tensor of the callback's.
    method CallBack(x: Vector) returns (reply: Reply, forces: Option<nat>, inputs: (nat, nat, nat))
      requires tensors.Valid()
      modifies `calls, tensors
      ensures tensors.Valid() && reply == callback(x) && calls == old(calls) + [x]
      ensures forces.Some? <==> reply.forces.Some?
      ensures inputs.0 != inputs.1 && inputs.1 != inputs.2 && inputs.0 != inputs.2
      ensures forces.Some? ==> forces.value !in {inputs.0, inputs.1, inputs.2}
      ensures var made := {inputs.0, inputs.1, inputs.2} + if forces.Some? then {forces.value} else {};
        made !! old(tensors.live) && tensors.live == old(tensors.live) + made
    {
      var positions := tensors.New();
      var numbers := tensors.New();
      var box := tensors.New();
      inputs := (positions, numbers, box);
      reply := callback(x);
      calls := calls + [x];
      forces := None;
      if reply.forces.Some? {
        var t := tensors.New();
        forces := Some(t);
      }
    }

    method FreeAll(forces: Option<nat>, inputs: (nat, nat, nat))
      requires tensors.Valid() && {inputs.0, inputs.1, inputs.2} <= tensors.live
      requires inputs.0 != inputs.1 && inputs.1 != inputs.2 && inputs.0 != inputs.2
      requires forces.Some? ==> forces.value in tensors.live - {inputs.0, inputs.1, inputs.2}
      modifies tensors
      ensures tensors.Valid()
      ensures tensors.live == old(tensors.live) - {inputs.0, inputs.1, inputs.2}
                              - if forces.Some? then {forces.value} else {}
    {
      tensors.Free(forces);
      tensors.Free(Some(inputs.0));
      tensors.Free(Some(inputs.1));
      tensors.Free(Some(inputs.2));
    }

    // rgpot_eval_cb up to the lock.
    method EvalCall(x: Vector) returns (success: bool, energy: real, fused: Option<Fused>)
      requires Valid()
      modifies `calls, tensors
      ensures Valid() && tensors.live == old(tensors.live) && calls == old(calls) + [x]
      ensures success == callback(x).success && energy == callback(x).energy
      ensures fused.Some? <==> success && callback(x).forces.Some?
      ensures fused.Some? ==> fused.value.positions == x && Genuine(fused.value)
    {
      var reply, forces, inputs := CallBack(x);
      success, energy, fused := reply.success, reply.energy, None;
      if reply.success && forces.Some? {
        fused := Some(Fused(x, Negated(reply.forces.value)));
      }
      FreeAll(forces, inputs);
    }

    // The locked region of rgpot_eval_cb, and its answer.
    method EvalStore(success: bool, energy: real, fused: Option<Fused>) returns (answer: Answer)
      requires Valid() && (fused.Some? ==> Genuine(fused.value))
      modifies `fusedCache, `stored
      ensures Valid() && fusedCache == if success then fused else None
      ensures answer == if success then Value(energy) else Failed
    {
      if !success {
        fusedCache := None;
        return Failed;
      }
      fusedCache := fused;
      stored := stored + 1;
      return Value(energy);
    }

    // The locked region of rgpot_grad_cb and the use of what it took.
    method GradTake(x: Vector) returns (answer: Option<Answer>)
      requires Valid()
      modifies `fusedCache, `served
      ensures Valid() && fusedCache.None?
      ensures answer.Some? <==> old(fusedCache).Some? && old(fusedCache).value.positions == x
      ensures answer.Some? ==> IsPlain(callback, Gradient(x), answer.value)
      ensures served == old(served) + if answer.Some? then 1 else 0
    {
      var cached := fusedCache;
      fusedCache := None;
      if cached.Some? && cached.value.positions == x {
        served := served + 1;
        return Some(Written(Some(cached.value.gradient)));
      }
      return None;
    }

    // The rest of rgpot_grad_cb.
    method GradCall(x: Vector) returns (answer: Answer)
      requires Valid()
      modifies `calls, tensors
      ensures Valid() && tensors.live == old(tensors.live) && calls == old(calls) + [x]
      ensures IsPlain(callback, Gradient(x), answer)
    {
      var reply, forces, inputs := CallBack(x);
      var written := None;
      if reply.success && forces.Some? {
        written := Some(Negated(reply.forces.value));
      }
      FreeAll(forces, inputs);
      return if !reply.success then Failed else Written(written);
    }

    // An energy request, then a gradient request at the same positions: one
    // callback in all, exactly when it gave forces.
    method EvalThenGrad(x: Vector) returns (energy: Answer, gradient: Answer)
      requires Valid()
      modifies this, tensors
      ensures Valid() && tensors.live == old(tensors.live)
      ensures IsPlain(callback, Energy(x), energy) && IsPlain(callback, Gradient(x), gradient)
      ensures calls == old(calls) +
        if callback(x).success && callback(x).forces.Some? then [x] else [x, x]
    {
      var success, e, fused := EvalCall(x);
      energy := EvalStore(success, e, fused);
      var taken := GradTake(x);
      if taken.Some? {
        gradient := taken.value;
      } else {
        gradient := GradCall(x);
      }
    }
  }

  // ---- Interleaving ----

  // How far a request is. Its next region runs without interruption.
  datatype Progress =
    | Waiting
    | Evaluated(success: bool, energy: real, fused: Option<Fused>)
    | Missed
    | Answered(answer: Answer)

  // Callbacks made for a request so far: never more than one.
  function CallsOf(request: Request, p: Progress, hit: bool): nat {
    match p
    case Waiting => 0
    case Evaluated(_, _, _) => 1
    case Missed => 0
    case Answered(_) => if request.Gradient? && hit then 0 else 1
  }

  function Total(requests: seq<Request>, at: seq<Progress>, hits: seq<bool>, n: nat): nat
    requires |requests| == |at| == |hits| && n <= |requests|
  {
    if n == 0 then 0 else Total(requests, at, hits, n - 1) + CallsOf(requests[n - 1], at[n - 1], hits[n - 1])
  }

  predicate Consistent(o: Objective, request: Request, p: Progress) {
    match p
    case Waiting => true
    case Evaluated(success, energy, fused) =>
      && request.Energy?
      && success == o.callback(request.x).success && energy == o.callback(request.x).energy
      && (fused.Some? <==> success && o.callback(request.x).forces.Some?)
      && (fused.Some? ==> o.Genuine(fused.value) && fused.value.positions == request.x)
    case Missed => request.Gradient?
    case Answered(answer) => IsPlain(o.callback, request, answer)
  }

  lemma {:induction false} TotalUpdate(requests: seq<Request>, at: seq<Progress>, hits: seq<bool>, n: nat, r: nat,
                                       p: Progress, hit: bool)
    requires |requests| == |at| == |hits| && r < n <= |requests|
    ensures Total(requests, at[r := p], hits[r := hit], n) ==
      Total(requests, at, hits, n) - CallsOf(requests[r], at[r], hits[r]) + CallsOf(requests[r], p, hit)
  {
    if r == n - 1 {
      TotalSame(requests, at, hits, at[r := p], hits[r := hit], n - 1);
    } else {
      TotalUpdate(requests, at, hits, n - 1, r, p, hit);
    }
  }

  lemma {:induction false} TotalSame(requests: seq<Request>, at: seq<Progress>, hits: seq<bool>,
                                     at': seq<Progress>, hits': seq<bool>, n: nat)
    requires |requests| == |at| == |hits| == |at'| == |hits'| && n <= |requests|
    requires forall i :: 0 <= i < n ==> at[i] == at'[i] && hits[i] == hits'[i]
    ensures Total(requests, at, hits, n) == Total(requests, at', hits', n)
  {
    if n > 0 {
      TotalSame(requests, at, hits, at', hits', n - 1);
    }
  }

  // The regions a request has behind it; two answer it.
  function Regions(p: Progress): nat {
    match p
    case Waiting => 0
    case Evaluated(_, _, _) => 1
    case Missed => 1
    case Answered(_) => 2
  }

  // The next region of one request.
  method Advance(o: Objective, request: Request, p: Progress) returns (p': Progress, hit: bool)
    requires o.Valid() && Consistent(o, request, p)
    modifies o, o.tensors
    ensures o.Valid() && Consistent(o, request, p')
    ensures o.tensors.live == old(o.tensors.live)
    ensures p.Answered? ==> p' == p && |o.calls| == |old(o.calls)|
    ensures !p.Answered? ==> Regions(p') > Regions(p)
    ensures !p.Answered? ==> |o.calls| == |old(o.calls)| + CallsOf(request, p', hit) - CallsOf(request, p, false)
    ensures hit ==> p'.Answered? && request.Gradient?
    ensures hit <==> p.Waiting? && request.Gradient? && o.Holds(old(o.fusedCache)) == Some(request.x)
    ensures p.Waiting? && !hit ==> !p'.Answered?
    ensures o.Holds(o.fusedCache) == HeldAfter(o.callback, request, Regions(p), o.Holds(old(o.fusedCache)))
    ensures o.served == old(o.served) + if hit then 1 else 0
  {
    hit := false;
    p' := p;
    match p {
      case Waiting =>
        match request {
          case Energy(x) =>
            var success, energy, fused := o.EvalCall(x);
            p' := Evaluated(success, energy, fused);
          case Gradient(x) =>
            var taken := o.GradTake(x);
            hit := taken.Some?;
            p' := if hit then Answered(taken.value) else Missed;
        }
      case Evaluated(success, energy, fused) =>
        var answer := o.EvalStore(success, energy, fused);
        p' := Answered(answer);
      case Missed =>
        var answer := o.GradCall(request.x);
        p' := Answered(answer);
      case Answered(_) =>
    }
  }

  // The positions of the cached evaluation after one more region of a request
  // that has some behind it: an energy request stores at its second region, a
  // gradient request empties the cache at its first.
  function HeldAfter(callback: Vector -> Reply, request: Request, behind: nat, held: Option<Vector>): Option<Vector> {
    if request.Energy? && behind == 1 then
      if callback(request.x).success && callback(request.x).forces.Some? then Some(request.x) else None
    else if request.Gradient? && behind == 0 then None
    else held
  }

  // The same after the first n regions of a schedule.
  function Held(callback: Vector -> Reply, requests: seq<Request>, schedule: seq<nat>, n: nat, first: Option<Vector>)
    : Option<Vector>
    requires n <= |schedule|
  {
    if n == 0 then first
    else
      var r, before := schedule[n - 1], Held(callback, requests, schedule, n - 1, first);
      if r >= |requests| then before
      else HeldAfter(callback, requests[r], Occurrences(schedule[..n - 1], r), before)
  }

  // Within the first n regions, the first one of gradient request r found an
  // evaluation at its positions.
  predicate Found(callback: Vector -> Reply, requests: seq<Request>, schedule: seq<nat>, n: nat, first: Option<Vector>,
                  r: nat)
    requires n <= |schedule| && r < |requests|
  {
    exists i :: 0 <= i < n && FoundAt(callback, requests, schedule, i, first, r)
  }

  predicate FoundAt(callback: Vector -> Reply, requests: seq<Request>, schedule: seq<nat>, i: nat, first: Option<Vector>,
                    r: nat)
    requires i < |schedule| && r < |requests|
  {
    && schedule[i] == r && requests[r].Gradient? && Occurrences(schedule[..i], r) == 0
    && Held(callback, requests, schedule, i, first) == Some(requests[r].x)
  }

  // How far a request is after so many regions.
  predicate IsAt(p: Progress, regions: nat, hit: bool) {
    match p
    case Waiting => regions == 0
    case Evaluated(_, _, _) => regions == 1 && !hit
    case Missed => regions == 1 && !hit
    case Answered(_) => regions >= 2 || (regions == 1 && hit)
  }

  function Occurrences(schedule: seq<nat>, r: nat): nat {
    if schedule == [] then 0
    else Occurrences(schedule[..|schedule| - 1], r) + if schedule[|schedule| - 1] == r then 1 else 0
  }

  function Hits(hits: seq<bool>): nat {
    if hits == [] then 0 else Hits(hits[..|hits| - 1]) + if hits[|hits| - 1] then 1 else 0
  }

  lemma {:induction false} HitsUpdate(hits: seq<bool>, r: nat, hit: bool)
    requires r < |hits|
    ensures Hits(hits[r := hit]) == Hits(hits) - (if hits[r] then 1 else 0) + if hit then 1 else 0
  {
    var n := |hits| - 1;
    if r == n {
      assert hits[r := hit][..n] == hits[..n];
    } else {
      HitsUpdate(hits[..n], r, hit);
      assert hits[r := hit][..n] == hits[..n][r := hit];
    }
  }

  lemma {:induction false} NoHits(n: nat)
    ensures Hits(seq(n, _ => false)) == 0
  {
    if n > 0 {
      NoHits(n - 1);
      assert seq(n, _ => false)[..n - 1] == seq(n - 1, _ => false);
    }
  }

  lemma OccurrencesNext(schedule: seq<nat>, i: nat, r: nat)
    requires i < |schedule|
    ensures Occurrences(schedule[..i + 1], r) == Occurrences(schedule[..i], r) + if schedule[i] == r then 1 else 0
  {
    assert schedule[..i + 1][..i] == schedule[..i];
  }

  lemma FoundNext(callback: Vector -> Reply, requests: seq<Request>, schedule: seq<nat>, n: nat, first: Option<Vector>,
                  r: nat)
    requires n < |schedule| && r < |requests|
    ensures Found(callback, requests, schedule, n + 1, first, r)
      <==> Found(callback, requests, schedule, n, first, r) || FoundAt(callback, requests, schedule, n, first, r)
  {
    hide FoundAt;
    if FoundAt(callback, requests, schedule, n, first, r) {
      assert 0 <= n < n + 1;
    }
  }

  // What the first n regions of a schedule lead to.
  ghost predicate Reached(callback: Vector -> Reply, requests: seq<Request>, schedule: seq<nat>, n: nat,
                          first: Option<Vector>, held: Option<Vector>, at: seq<Progress>, hits: seq<bool>) {
    && n <= |schedule| && |at| == |hits| == |requests|
    && held == Held(callback, requests, schedule, n, first)
    && (forall r :: 0 <= r < |requests| ==> IsAt(at[r], Occurrences(schedule[..n], r), hits[r]))
    && (forall r :: 0 <= r < |requests| ==> (hits[r] <==> Found(callback, requests, schedule, n, first, r)))
  }

  // The next region of a request that is not answered yet.
  lemma ReachedNext(callback: Vector -> Reply, requests: seq<Request>, schedule: seq<nat>, n: nat,
                    first: Option<Vector>, held: Option<Vector>, at: seq<Progress>, hits: seq<bool>,
                    held': Option<Vector>, p: Progress, hit: bool)
    requires n < |schedule| && Reached(callback, requests, schedule, n, first, held, at, hits)
    requires var r := schedule[n];
      && r < |requests| && !at[r].Answered? && Regions(p) > Regions(at[r])
      && (hit <==> at[r].Waiting? && requests[r].Gradient? && held == Some(requests[r].x))
      && (hit ==> p.Answered?) && (at[r].Waiting? && !hit ==> !p.Answered?)
      && held' == HeldAfter(callback, requests[r], Regions(at[r]), held)
    ensures var r := schedule[n];
      Reached(callback, requests, schedule, n + 1, first, held', at[r := p], hits[r := hit])
  {
    var after, found := at[schedule[n] := p], hits[schedule[n] := hit];
    forall q | 0 <= q < |requests|
      ensures IsAt(after[q], Occurrences(schedule[..n + 1], q), found[q])
      ensures found[q] <==> Found(callback, requests, schedule, n + 1, first, q)
    {
      OccurrencesNext(schedule, n, q);
      FoundNext(callback, requests, schedule, n, first, q);
      EarlierRegion(callback, requests, schedule, n, first, q);
      hide Found, HeldAfter, Held, Occurrences;
    }
    hide IsAt, Found;
  }

  // A request found something only if a region of it is behind.
  lemma EarlierRegion(callback: Vector -> Reply, requests: seq<Request>, schedule: seq<nat>, n: nat,
                      first: Option<Vector>, r: nat)
    requires n <= |schedule| && r < |requests|
    ensures Found(callback, requests, schedule, n, first, r) ==>
      requests[r].Gradient? && Occurrences(schedule[..n], r) > 0
  {
    if Found(callback, requests, schedule, n, first, r) {
      var i :| 0 <= i < n && FoundAt(callback, requests, schedule, i, first, r);
      OccurrencesGrow(schedule, i + 1, n, r);
      OccurrencesNext(schedule, i, r);
    }
  }

  lemma {:induction false} OccurrencesGrow(schedule: seq<nat>, i: nat, n: nat, r: nat)
    requires i <= n <= |schedule|
    ensures Occurrences(schedule[..i], r) <= Occurrences(schedule[..n], r)
  {
    if i < n {
      OccurrencesGrow(schedule, i, n - 1, r);
      OccurrencesNext(schedule, n - 1, r);
    }
  }

  // A region of an unknown or answered request changes nothing.
  lemma ReachedSame(callback: Vector -> Reply, requests: seq<Request>, schedule: seq<nat>, n: nat,
                    first: Option<Vector>, held: Option<Vector>, at: seq<Progress>, hits: seq<bool>)
    requires n < |schedule| && Reached(callback, requests, schedule, n, first, held, at, hits)
    requires schedule[n] < |requests| ==> at[schedule[n]].Answered?
    ensures Reached(callback, requests, schedule, n + 1, first, held, at, hits)
  {
    forall q | 0 <= q < |requests|
      ensures IsAt(at[q], Occurrences(schedule[..n + 1], q), hits[q])
      ensures hits[q] <==> Found(callback, requests, schedule, n + 1, first, q)
    {
      OccurrencesNext(schedule, n, q);
      FoundNext(callback, requests, schedule, n, first, q);
      EarlierRegion(callback, requests, schedule, n, first, q);
      hide Found, HeldAfter, Held, Occurrences;
    }
    if schedule[n] < |requests| {
      EarlierRegion(callback, requests, schedule, n, first, schedule[n]);
    }
    hide Found;
  }

  lemma ReachedEnd(callback: Vector -> Reply, requests: seq<Request>, schedule: seq<nat>,
                   first: Option<Vector>, held: Option<Vector>, at: seq<Progress>, hits: seq<bool>)
    requires Reached(callback, requests, schedule, |schedule|, first, held, at, hits)
    ensures |at| == |hits| == |requests|
    ensures forall r :: 0 <= r < |requests| && Occurrences(schedule, r) >= 2 ==> at[r].Answered?
    ensures forall r :: 0 <= r < |requests| ==>
      (hits[r] <==> Found(callback, requests, schedule, |schedule|, first, r))
  {
    assert schedule[..|schedule|] == schedule;
    hide Found, Occurrences, Held;
  }

  lemma {:induction false} NothingYet(requests: seq<Request>, n: nat)
    requires n <= |requests|
    ensures Total(requests, seq(|requests|, _ => Waiting), seq(|requests|, _ => false), n) == 0
  {
    if n > 0 {
      NothingYet(requests, n - 1);
    }
  }

  // The state after n regions, with what is cached.
  ghost predicate InStep(o: Objective, requests: seq<Request>, schedule: seq<nat>, n: nat, first: Option<Vector>,
                         held: Option<Vector>, at: seq<Progress>, hits: seq<bool>) {
    && |at| == |hits| == |requests|
    && (forall r :: 0 <= r < |requests| ==> Consistent(o, requests[r], at[r]))
    && (forall r :: 0 <= r < |requests| ==> hits[r] ==> at[r].Answered? && requests[r].Gradient?)
    && Reached(o.callback, requests, schedule, n, first, held, at, hits)
  }

  lemma InStepNext(o: Objective, requests: seq<Request>, schedule: seq<nat>, n: nat, first: Option<Vector>,
                   held: Option<Vector>, at: seq<Progress>, hits: seq<bool>, held': Option<Vector>, p: Progress, hit: bool)
    requires n < |schedule| && InStep(o, requests, schedule, n, first, held, at, hits)
    requires var r := schedule[n];
      && r < |requests| && !at[r].Answered? && Regions(p) > Regions(at[r]) && Consistent(o, requests[r], p)
      && (hit <==> at[r].Waiting? && requests[r].Gradient? && held == Some(requests[r].x))
      && (hit ==> p.Answered?) && (at[r].Waiting? && !hit ==> !p.Answered?)
      && held' == HeldAfter(o.callback, requests[r], Regions(at[r]), held)
    ensures var r := schedule[n];
      InStep(o, requests, schedule, n + 1, first, held', at[r := p], hits[r := hit])
  {
    ReachedNext(o.callback, requests, schedule, n, first, held, at, hits, held', p, hit);
    hide Reached, Consistent;
  }

  // The next region of the schedule.
  method Turn(o: Objective, requests: seq<Request>, schedule: seq<nat>, i: nat, ghost first: Option<Vector>,
              at: seq<Progress>, hits: seq<bool>)
    returns (at': seq<Progress>, hits': seq<bool>)
    requires o.Valid() && i < |schedule| && InStep(o, requests, schedule, i, first, o.Holds(o.fusedCache), at, hits)
    modifies o, o.tensors
    ensures o.Valid() && InStep(o, requests, schedule, i + 1, first, o.Holds(o.fusedCache), at', hits')
    ensures |at| == |hits| == |at'| == |hits'| == |requests|
    ensures |o.calls| == |old(o.calls)| + Total(requests, at', hits', |requests|) - Total(requests, at, hits, |requests|)
    ensures o.served == old(o.served) + Hits(hits') - Hits(hits)
    ensures o.tensors.live == old(o.tensors.live)
  {
    var r := schedule[i];
    ghost var held := o.Holds(o.fusedCache);
    hide Reached, Total, Hits, IsPlain, Found, Held;
    if r < |requests| && !at[r].Answered? {
      var p, hit := Advance(o, requests[r], at[r]);
      TotalUpdate(requests, at, hits, |requests|, r, p, hit);
      HitsUpdate(hits, r, hit);
      InStepNext(o, requests, schedule, i, first, held, at, hits, o.Holds(o.fusedCache), p, hit);
      at', hits' := at[r := p], hits[r := hit];
    } else {
      ReachedSame(o.callback, requests, schedule, i, first, held, at, hits);
      at', hits' := at, hits;
    }
  }

  lemma InStepStart(o: Objective, requests: seq<Request>, schedule: seq<nat>, first: Option<Vector>)
    ensures InStep(o, requests, schedule, 0, first, first,
                   seq(|requests|, _ => Waiting), seq(|requests|, _ => false))
  {
    assert schedule[..0] == [];
  }

  lemma InStepEnd(o: Objective, requests: seq<Request>, schedule: seq<nat>, first: Option<Vector>,
                  held: Option<Vector>, at: seq<Progress>, hits: seq<bool>)
    requires InStep(o, requests, schedule, |schedule|, first, held, at, hits)
    ensures |at| == |hits| == |requests|
    ensures forall r :: 0 <= r < |requests| && at[r].Answered? ==> IsPlain(o.callback, requests[r], at[r].answer)
    ensures forall r :: 0 <= r < |requests| ==> hits[r] ==> at[r].Answered? && requests[r].Gradient?
    ensures forall r :: 0 <= r < |requests| && Occurrences(schedule, r) >= 2 ==> at[r].Answered?
    ensures forall r :: 0 <= r < |requests| ==>
      (hits[r] <==> Found(o.callback, requests, schedule, |schedule|, first, r))
  {
    ReachedEnd(o.callback, requests, schedule, first, held, at, hits);
    hide Reached, IsPlain, Found;
  }

  // Any requests, their regions run in any order: every answer is the one
  // without a cache, a request scheduled twice is answered, none makes more
  // than one callback, all tensors are freed. A gradient comes from the cache
  // exactly when its first region finds an evaluation at its positions, and
  // each such answer uses up an evaluation stored before.
  method Interleave(o: Objective, requests: seq<Request>, schedule: seq<nat>)
    returns (at: seq<Progress>, hits: seq<bool>)
    requires o.Valid()
    modifies o, o.tensors
    ensures o.Valid() && |at| == |hits| == |requests|
    ensures forall r :: 0 <= r < |requests| && at[r].Answered? ==> IsPlain(o.callback, requests[r], at[r].answer)
    ensures |o.calls| == |old(o.calls)| + Total(requests, at, hits, |requests|)
    ensures forall r :: 0 <= r < |requests| ==> hits[r] ==> at[r].Answered? && requests[r].Gradient?
    ensures forall r :: 0 <= r < |requests| && Occurrences(schedule, r) >= 2 ==> at[r].Answered?
    ensures forall r :: 0 <= r < |requests| ==>
      (hits[r] <==> Found(o.callback, requests, schedule, |schedule|, o.Holds(old(o.fusedCache)), r))
    ensures o.served == old(o.served) + Hits(hits) && o.served <= o.stored
    ensures o.tensors.live == old(o.tensors.live)
  {
    at := seq(|requests|, _ => Waiting);
    hits := seq(|requests|, _ => false);
    ghost var first := o.Holds(o.fusedCache);
    NothingYet(requests, |requests|);
    NoHits(|requests|);
    InStepStart(o, requests, schedule, first);
    hide InStep, Total, Hits;
    for i := 0 to |schedule|
      invariant o.Valid() && |at| == |hits| == |requests|
      invariant InStep(o, requests, schedule, i, first, o.Holds(o.fusedCache), at, hits)
      invariant |o.calls| == |old(o.calls)| + Total(requests, at, hits, |requests|)
      invariant o.served == old(o.served) + Hits(hits)
      invariant o.tensors.live == old(o.tensors.live)
    {
      at, hits := Turn(o, requests, schedule, i, first, at, hits);
    }
    InStepEnd(o, requests, schedule, first, o.Holds(o.fusedCache), at, hits);
  }
}
