// How the requests of a collective session end, from the payload and from
// what happens on each rank.
module SessionEndings {
  import opened Wrappers
  import opened Spmd
  import opened MpiHost
  import opened MpiPefSession

  // Not turned down on rank 0.
  predicate Sendable(e: Entry) {
    !e.weather.preparation && (e.request.Force? ==> e.request.cols == 3 && e.request.rows == |e.request.numbers| / 4)
  }

  // The collective() calls of a request: three vectors, the check and the
  // evaluation, or one vector and the configuration.
  function Stages(q: Request): nat {
    if q.Force? then 5 else 2
  }

  // Why a rank cannot hold a vector of that many bytes.
  function NoMemory(bytes: nat, width: nat, allocation: Option<string>): Option<string>
    requires width > 0
  {
    if bytes / width > 0x7fff_ffff_ffff_ffff / width then Some(LENGTH_ERROR) else allocation
  }

  // Why rank r fails in a stage; None if it does not.
  function Cause(e: Entry, n: nat, stage: nat, r: nat): Option<string>
    requires ForRanks(e.weather, n) && r < n
  {
    var w := e.weather;
    match e.request
    case Force(_, _, positions, numbers, box) =>
      if stage == 0 then NoMemory(|positions|, 8, w.firstVector[r])
      else if stage == 1 then NoMemory(|numbers|, 4, w.secondVector[r])
      else if stage == 2 then NoMemory(|box|, 8, w.thirdVector[r])
      else if stage == 3 then
        if !(1 <= |numbers| / 4 <= 715827882) then Some(GEOMETRY_ERROR)
        else if !w.available[r] then Some(UNAVAILABLE_ERROR)
        else w.emplace[r]
      else w.evaluate[r]
    case Config(words) =>
      if stage == 0 then NoMemory(|words|, 8, w.firstVector[r]) else w.apply[r]
  }

  predicate Passes(e: Entry, n: nat, stage: nat)
    requires ForRanks(e.weather, n)
  {
    forall r :: 0 <= r < n ==> Cause(e, n, stage, r).None?
  }

  // The error is that of the lowest rank failing in the stage, its text cut
  // to 1023 characters.
  predicate IsErrorOf(x: HostError, e: Entry, n: nat, stage: nat)
    requires ForRanks(e.weather, n)
  {
    && x.rank < n && Cause(e, n, stage, x.rank).Some?
    && (forall r :: 0 <= r < x.rank ==> Cause(e, n, stage, r).None?)
    && x.text <= Cause(e, n, stage, x.rank).value
    && |x.text| == (if |Cause(e, n, stage, x.rank).value| <= 1023 then |Cause(e, n, stage, x.rank).value| else 1023)
  }

  // The number of collective() calls among the calls.
  function Collectives(calls: seq<Call>): nat {
    multiset(calls)[AllreduceMin(1)]
  }

  // A request that rank 0 sends goes through its stages until a rank fails:
  // it ends well exactly when all stages pass, else with the error of the
  // first stage that does not; no stage after that is entered.
  predicate EndsRightly(e: Entry, n: nat, outcome: Outcome, calls: seq<Call>)
    requires ForRanks(e.weather, n)
  {
    var stages := Stages(e.request);
    match outcome
    case Finished => (forall s :: 0 <= s < stages ==> Passes(e, n, s)) && Collectives(calls) == stages
    case Failed(x) =>
      exists s :: 0 <= s < stages && (forall t :: 0 <= t < s ==> Passes(e, n, t))
        && IsErrorOf(x, e, n, s) && Collectives(calls) == s + 1
  }

  // ---- One collective() call ----

  lemma CollectivesOfStage(endings: Endings)
    ensures Collectives(CollectiveCalls(endings)) == 1
  {
  }

  lemma CollectivesOfTransfer(bytes: nat, width: nat, allocations: Endings)
    requires width > 0
    ensures Collectives(TransferCalls(bytes, width, allocations)) == 1
  {
    var endings := ResizeEndings(bytes / width, width, allocations);
    CollectivesOfStage(endings);
    var front, rest := [Bcast(0, 8)] + CollectiveCalls(endings), BcastCalls(0, Chunks(bytes));
    assert multiset(front) == multiset([Bcast(0, 8)]) + multiset(CollectiveCalls(endings));
    assert multiset(front + rest) == multiset(front) + multiset(rest);
    forall c | c in rest
      ensures c.Bcast?
    {
    }
    hide CollectiveCalls;
  }

  lemma CollectivesConcat(a: seq<Call>, b: seq<Call>)
    ensures Collectives(a + b) == Collectives(a) + Collectives(b)
  {
    assert multiset(a + b) == multiset(a) + multiset(b);
  }

  // What an agreed error is for a stage whose causes are these endings.
  lemma StageError(e: Entry, n: nat, stage: nat, endings: Endings)
    requires ForRanks(e.weather, n) && |endings| == n
    requires forall r :: 0 <= r < n ==> endings[r] == Cause(e, n, stage, r)
    ensures Agreed(endings).None? <==> Passes(e, n, stage)
    ensures Agreed(endings).Some? ==> IsErrorOf(Agreed(endings).value, e, n, stage)
  {
    hide Cause;
  }

  lemma VectorStage(e: Entry, n: nat, stage: nat, bytes: nat, width: nat, allocations: Endings)
    requires ForRanks(e.weather, n) && |allocations| == n && (width == 4 || width == 8)
    requires forall r :: 0 <= r < n ==> Cause(e, n, stage, r) == NoMemory(bytes, width, allocations[r])
    ensures VectorError(bytes, width, allocations).None? <==> Passes(e, n, stage)
    ensures VectorError(bytes, width, allocations).Some? ==>
      IsErrorOf(VectorError(bytes, width, allocations).value, e, n, stage)
  {
    hide Cause, IsErrorOf, Passes;
    StageError(e, n, stage, ResizeEndings(bytes / width, width, allocations));
  }

  // ---- The stages in order ----

  // The rest of a request from a stage on.
  predicate EndsFrom(e: Entry, n: nat, from: nat, outcome: Outcome, calls: seq<Call>)
    requires ForRanks(e.weather, n)
  {
    var stages := Stages(e.request);
    match outcome
    case Finished => (forall s :: from <= s < stages ==> Passes(e, n, s)) && Collectives(calls) == stages - from
    case Failed(x) =>
      exists s :: from <= s < stages && (forall t :: from <= t < s ==> Passes(e, n, t))
        && IsErrorOf(x, e, n, s) && Collectives(calls) == s + 1 - from
  }

  lemma EndsHere(e: Entry, n: nat, from: nat, x: HostError, calls: seq<Call>)
    requires ForRanks(e.weather, n) && from < Stages(e.request)
    requires IsErrorOf(x, e, n, from) && Collectives(calls) == 1
    ensures EndsFrom(e, n, from, Failed(x), calls)
  {
    hide IsErrorOf, Collectives, Passes;
  }

  lemma EndsLater(e: Entry, n: nat, from: nat, outcome: Outcome, calls: seq<Call>, rest: seq<Call>)
    requires ForRanks(e.weather, n) && from < Stages(e.request)
    requires Passes(e, n, from) && Collectives(calls) == 1 && EndsFrom(e, n, from + 1, outcome, rest)
    ensures EndsFrom(e, n, from, outcome, calls + rest)
  {
    CollectivesConcat(calls, rest);
    hide IsErrorOf, Collectives, Passes;
    if outcome.Failed? {
      var s :| from + 1 <= s < Stages(e.request) && (forall t :: from + 1 <= t < s ==> Passes(e, n, t))
        && IsErrorOf(outcome.error, e, n, s) && Collectives(rest) == s + 1 - (from + 1);
      assert forall t :: from <= t < s ==> Passes(e, n, t);
    }
  }

  lemma LastStage(e: Entry, n: nat, endings: Endings)
    requires ForRanks(e.weather, n) && |endings| == n
    requires forall r :: 0 <= r < n ==> endings[r] == Cause(e, n, Stages(e.request) - 1, r)
    ensures EndsFrom(e, n, Stages(e.request) - 1, OutcomeOf(Agreed(endings)), CollectiveCalls(endings))
  {
    var last := Stages(e.request) - 1;
    StageError(e, n, last, endings);
    CollectivesOfStage(endings);
    hide Cause, IsErrorOf, Passes, Collectives, CollectiveCalls;
    if Agreed(endings).Some? {
      EndsHere(e, n, last, Agreed(endings).value, CollectiveCalls(endings));
    }
  }

  // ---- A force request ----

  predicate IsForce(e: Entry, d: Delivery, n: nat) {
    && e.request.Force? && ForRanks(e.weather, n) && Sendable(e)
    && |e.request.positions| == 24 * e.request.rows && |e.request.box| == 72
    && d == Geometry(e.request.positions, e.request.numbers, e.request.box)
  }

  lemma ForceFacts(e: Entry, d: Delivery, n: nat)
    requires IsForce(e, d, n)
    ensures ForRanks(e.weather, n) && e.request.Force? && d.Geometry?
    ensures d.coordinates == e.request.positions && d.numbers == e.request.numbers && d.cell == e.request.box
  {
  }

  // What is left of the check when the payload comes from rank 0.
  lemma GoodWhen(e: Entry, d: Delivery, n: nat)
    requires IsForce(e, d, n)
    ensures GoodGeometry(d) <==> 1 <= |d.numbers| / 4 <= 715827882
  {
  }

  lemma CheckStage(e: Entry, d: Delivery, n: nat)
    requires IsForce(e, d, n)
    ensures var effect := ValidateEffect(d, e.weather, n); EndsFrom(e, n, 3, effect.outcome, effect.calls)
  {
    var w, endings := e.weather, ValidateEndings(d, e.weather, n);
    GoodWhen(e, d, n);
    StageError(e, n, 3, endings);
    CollectivesOfStage(endings);
    LastStage(e, n, w.evaluate);
    hide Cause, IsErrorOf, Passes, Collectives, CollectiveCalls, EndsFrom, GoodGeometry, ValidateEndings;
    if Agreed(endings).Some? {
      EndsHere(e, n, 3, Agreed(endings).value, CollectiveCalls(endings));
    } else {
      EndsLater(e, n, 3, OutcomeOf(Agreed(w.evaluate)), CollectiveCalls(endings), CollectiveCalls(w.evaluate));
    }
  }

  lemma CellStage(e: Entry, d: Delivery, n: nat)
    requires IsForce(e, d, n)
    ensures var effect := CellEffect(d, e.weather, n); EndsFrom(e, n, 2, effect.outcome, effect.calls)
  {
    hide IsForce, Sendable, NoMemory;
    ForceFacts(e, d, n);
    VectorStage(e, n, 2, |d.cell|, 8, e.weather.thirdVector);
    CollectivesOfTransfer(|d.cell|, 8, e.weather.thirdVector);
    hide Cause, IsErrorOf, Passes, Collectives, EndsFrom, TransferCalls, VectorError, ValidateEffect;
    CheckStage(e, d, n);
    NextStage(e, n, 2, VectorError(|d.cell|, 8, e.weather.thirdVector),
              TransferCalls(|d.cell|, 8, e.weather.thirdVector), ValidateEffect(d, e.weather, n));
  }

  lemma NumbersStage(e: Entry, d: Delivery, n: nat)
    requires IsForce(e, d, n)
    ensures var effect := NumbersEffect(d, e.weather, n); EndsFrom(e, n, 1, effect.outcome, effect.calls)
  {
    hide IsForce, Sendable, NoMemory;
    ForceFacts(e, d, n);
    VectorStage(e, n, 1, |d.numbers|, 4, e.weather.secondVector);
    CollectivesOfTransfer(|d.numbers|, 4, e.weather.secondVector);
    hide Cause, IsErrorOf, Passes, Collectives, EndsFrom, TransferCalls, VectorError, CellEffect;
    CellStage(e, d, n);
    NextStage(e, n, 1, VectorError(|d.numbers|, 4, e.weather.secondVector),
              TransferCalls(|d.numbers|, 4, e.weather.secondVector), CellEffect(d, e.weather, n));
  }

  // The first vector, as a stage.
  lemma CoordinateStage(e: Entry, d: Delivery, n: nat)
    requires IsForce(e, d, n)
    ensures ForRanks(e.weather, n) && d.Geometry? && e.request.Force?
    ensures VectorError(|d.coordinates|, 8, e.weather.firstVector).None? <==> Passes(e, n, 0)
    ensures VectorError(|d.coordinates|, 8, e.weather.firstVector).Some? ==>
      IsErrorOf(VectorError(|d.coordinates|, 8, e.weather.firstVector).value, e, n, 0)
    ensures Collectives(TransferCalls(|d.coordinates|, 8, e.weather.firstVector)) == 1
  {
    hide NoMemory;
    VectorStage(e, n, 0, |d.coordinates|, 8, e.weather.firstVector);
    CollectivesOfTransfer(|d.coordinates|, 8, e.weather.firstVector);
  }

  lemma ForceStages(e: Entry, d: Delivery, n: nat)
    requires IsForce(e, d, n)
    ensures var effect := CalculateEffect(d, e.weather, n); EndsFrom(e, n, 0, effect.outcome, effect.calls)
  {
    hide IsForce, Sendable, Cause, IsErrorOf, Passes, Collectives, EndsFrom, TransferCalls, VectorError, NumbersEffect;
    ForceFacts(e, d, n);
    NumbersStage(e, d, n);
    CoordinateStage(e, d, n);
    NextStage(e, n, 0, VectorError(|d.coordinates|, 8, e.weather.firstVector),
              TransferCalls(|d.coordinates|, 8, e.weather.firstVector), NumbersEffect(d, e.weather, n));
  }

  // A vector stage in front of the rest.
  lemma NextStage(e: Entry, n: nat, stage: nat, error: Option<HostError>, calls: seq<Call>, rest: Effect)
    requires ForRanks(e.weather, n) && stage + 1 < Stages(e.request) && Collectives(calls) == 1
    requires error.None? <==> Passes(e, n, stage)
    requires error.Some? ==> IsErrorOf(error.value, e, n, stage)
    requires EndsFrom(e, n, stage + 1, rest.outcome, rest.calls)
    ensures error.Some? ==> EndsFrom(e, n, stage, Failed(error.value), calls)
    ensures error.None? ==> EndsFrom(e, n, stage, After(calls, rest).outcome, After(calls, rest).calls)
  {
    hide Cause, IsErrorOf, Passes, Collectives, EndsFrom;
    if error.Some? {
      EndsHere(e, n, stage, error.value, calls);
    } else {
      EndsLater(e, n, stage, rest.outcome, calls, rest.calls);
    }
  }

  // ---- A configuration ----

  lemma ConfigStages(e: Entry, n: nat)
    requires e.request.Config? && Proper(e.request) && ForRanks(e.weather, n)
    ensures var effect := ConfigureEffect(Settings(e.request.words), e.weather);
      EndsFrom(e, n, 0, effect.outcome, effect.calls)
  {
    var w, words := e.weather, e.request.words;
    VectorStage(e, n, 0, |words|, 8, w.firstVector);
    CollectivesOfTransfer(|words|, 8, w.firstVector);
    LastStage(e, n, w.apply);
    NextStage(e, n, 0, VectorError(|words|, 8, w.firstVector), TransferCalls(|words|, 8, w.firstVector),
              Effect(CollectiveCalls(w.apply), None, OutcomeOf(Agreed(w.apply))));
  }

  // ---- What one request adds to the history of every rank ----

  // Every rank holds the payload exactly when all ranks have memory for it.
  predicate Arrives(e: Entry, n: nat)
    requires ForRanks(e.weather, n)
  {
    Passes(e, n, 0) && (e.request.Force? ==> Passes(e, n, 1) && Passes(e, n, 2))
  }

  function Sent(q: Request): Delivery {
    match q
    case Force(_, _, positions, numbers, box) => Geometry(positions, numbers, box)
    case Config(words) => Settings(words)
  }

  // A request turned down on rank 0 leaves no trace. Any other is announced
  // by its command, delivered when all ranks have memory for it, and ends as
  // its stages do.
  lemma RequestEnds(h: History, e: Entry, n: nat)
    requires Proper(e.request) && ForRanks(e.weather, n)
    ensures !Sendable(e) ==> Grown(h, e, n) == h
    ensures Sendable(e) ==> exists outcome, calls ::
      && EndsRightly(e, n, outcome, calls)
      && Grown(h, e, n) == History(
           h.calls + ([Bcast(0, 4)] + calls),
           h.commands + [if e.request.Force? then Calculate else Configure],
           h.delivered + (if Arrives(e, n) then [Sent(e.request)] else []),
           h.outcomes + [outcome])
  {
    if Sendable(e) {
      var effect := RequestEffect(e.request, e.weather, n);
      RequestEffectIs(e.request, e.weather, n);
      EffectDelivers(e, n);
      if e.request.Force? {
        WholePayload(e);
        ForceStages(e, Sent(e.request), n);
        ForceArrives(e, n);
      } else {
        ConfigStages(e, n);
        VectorStage(e, n, 0, |e.request.words|, 8, e.weather.firstVector);
      }
      hide EndsFrom, EndsRightly, RequestEffect, Cause, IsErrorOf, Passes;
      FromStart(e, n, effect.outcome, effect.calls);
    }
  }

  lemma WholePayload(e: Entry)
    requires e.request.Force? && Proper(e.request) && e.request.cols == 3
    ensures e.request.positions[..8 * (e.request.rows * 3)] == e.request.positions
    ensures |e.request.positions| == 24 * e.request.rows && |e.request.box| == 72
    ensures Payload(e.request) == Sent(e.request)
  {
  }

  lemma ForceArrives(e: Entry, n: nat)
    requires e.request.Force? && Proper(e.request) && ForRanks(e.weather, n) && Sendable(e)
    ensures Transferred(e, n) <==> Arrives(e, n)
  {
    WholePayload(e);
    VectorStage(e, n, 0, |e.request.positions|, 8, e.weather.firstVector);
    VectorStage(e, n, 1, |e.request.numbers|, 4, e.weather.secondVector);
    VectorStage(e, n, 2, |e.request.box|, 8, e.weather.thirdVector);
  }

  lemma FromStart(e: Entry, n: nat, outcome: Outcome, calls: seq<Call>)
    requires ForRanks(e.weather, n) && EndsFrom(e, n, 0, outcome, calls)
    ensures EndsRightly(e, n, outcome, calls)
  {
    hide Cause, IsErrorOf, Passes, Collectives;
    if outcome.Failed? {
      var s :| 0 <= s < Stages(e.request) && (forall t :: 0 <= t < s ==> Passes(e, n, t))
        && IsErrorOf(outcome.error, e, n, s) && Collectives(calls) == s + 1 - 0;
    }
  }

  // All ranks have memory for the vectors, the geometry is one, and neither
  // the check nor the engine fails anywhere.
  predicate FitsOn(bytes: nat, width: nat, allocation: Option<string>)
    requires width > 0
  {
    bytes / width <= 0x7fff_ffff_ffff_ffff / width && allocation.None?
  }

  predicate Fits(bytes: nat, width: nat, allocations: Endings)
    requires width > 0
  {
    forall r :: 0 <= r < |allocations| ==> FitsOn(bytes, width, allocations[r])
  }

  predicate Succeeds(e: Entry, n: nat)
    requires ForRanks(e.weather, n)
  {
    var w := e.weather;
    match e.request
    case Force(_, _, positions, numbers, box) =>
      && Fits(|positions|, 8, w.firstVector) && Fits(|numbers|, 4, w.secondVector) && Fits(|box|, 8, w.thirdVector)
      && (n > 0 ==> 1 <= |numbers| / 4 <= 715827882)
      && forall r :: 0 <= r < n ==> w.available[r] && w.emplace[r].None? && w.evaluate[r].None?
    case Config(words) =>
      Fits(|words|, 8, w.firstVector) && forall r :: 0 <= r < n ==> w.apply[r].None?
  }

  // When a request ends well, said at once.
  lemma FinishedExactlyWhen(h: History, e: Entry, n: nat)
    requires Proper(e.request) && ForRanks(e.weather, n) && Sendable(e)
    ensures var after := Grown(h, e, n);
      && |after.outcomes| == |h.outcomes| + 1
      && (after.outcomes[|h.outcomes|] == Finished <==> Succeeds(e, n))
  {
    RequestEnds(h, e, n);
    var outcome, calls :| EndsRightly(e, n, outcome, calls) && Grown(h, e, n).outcomes == h.outcomes + [outcome];
    SuccessMeans(e, n);
    hide Grown, Succeeds, Passes, Cause, IsErrorOf, Collectives;
    if outcome.Failed? {
      var s :| 0 <= s < Stages(e.request) && IsErrorOf(outcome.error, e, n, s);
      FailedStage(outcome.error, e, n, s);
    }
  }

  lemma FailedStage(x: HostError, e: Entry, n: nat, stage: nat)
    requires ForRanks(e.weather, n) && IsErrorOf(x, e, n, stage)
    ensures !Passes(e, n, stage)
  {
    hide Cause;
  }

  lemma SuccessMeans(e: Entry, n: nat)
    requires ForRanks(e.weather, n)
    ensures Succeeds(e, n) <==> forall s :: 0 <= s < Stages(e.request) ==> Passes(e, n, s)
  {
    var w := e.weather;
    match e.request {
      case Force(_, _, positions, numbers, box) =>
        FitsMeans(e, n, 0, |positions|, 8, w.firstVector);
        FitsMeans(e, n, 1, |numbers|, 4, w.secondVector);
        FitsMeans(e, n, 2, |box|, 8, w.thirdVector);
        forall r | 0 <= r < n
          ensures Cause(e, n, 3, r).None? <==> 1 <= |numbers| / 4 <= 715827882 && w.available[r] && w.emplace[r].None?
          ensures Cause(e, n, 4, r).None? <==> w.evaluate[r].None?
        {
        }
        hide Fits, NoMemory, Cause;
        if n > 0 && Passes(e, n, 3) {
          assert Cause(e, n, 3, 0).None?;
        }
        assert Succeeds(e, n) <==>
          Passes(e, n, 0) && Passes(e, n, 1) && Passes(e, n, 2) && Passes(e, n, 3) && Passes(e, n, 4);
      case Config(words) =>
        FitsMeans(e, n, 0, |words|, 8, w.firstVector);
        forall r | 0 <= r < n
          ensures Cause(e, n, 1, r).None? <==> w.apply[r].None?
        {
        }
        hide Fits, NoMemory, Cause;
        assert Succeeds(e, n) <==> Passes(e, n, 0) && Passes(e, n, 1);
    }
    hide Succeeds, Passes;
  }

  lemma FitsMeans(e: Entry, n: nat, stage: nat, bytes: nat, width: nat, allocations: Endings)
    requires ForRanks(e.weather, n) && |allocations| == n && (width == 4 || width == 8)
    requires forall r :: 0 <= r < n ==> Cause(e, n, stage, r) == NoMemory(bytes, width, allocations[r])
    ensures Passes(e, n, stage) <==> Fits(bytes, width, allocations)
  {
    hide Cause;
    forall r | 0 <= r < n
      ensures Cause(e, n, stage, r).None? <==> FitsOn(bytes, width, allocations[r])
    {
    }
    hide NoMemory, FitsOn;
  }
}
