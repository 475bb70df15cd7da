// The collective session of a potential server: rank 0 takes the requests,
// all other ranks follow its commands until it stops them.
module MpiPefSession {
  import opened Wrappers
  import opened Spmd
  import opened MpiHost
  import opened Sequences

  datatype Command = Stop | Calculate | Configure

  // Requests as rank 0 receives them; data as bytes.
  datatype Request =
    | Force(rows: nat, cols: nat, positions: seq<int>, numbers: seq<int>, box: seq<int>)
    | Config(words: seq<int>)

  // Sizes the C++ types guarantee.
  predicate Proper(q: Request) {
    match q
    case Force(rows, cols, positions, numbers, box) =>
      |positions| == 8 * (rows * cols) && |numbers| % 4 == 0 && |box| == 72
    case Config(words) => |words| % 8 == 0
  }

  // Everything outside the session that one request meets: an exception while
  // rank 0 prepares, and on every rank the allocator, the engine and the
  // exceptions of the functions it runs.
  datatype Weather = Weather(
    preparation: bool,
    firstVector: Endings, secondVector: Endings, thirdVector: Endings,
    available: seq<bool>, emplace: Endings,
    evaluate: Endings, apply: Endings)

  predicate ForRanks(w: Weather, n: nat) {
    |w.firstVector| == |w.secondVector| == |w.thirdVector| == |w.available| == |w.emplace| == |w.evaluate|
      == |w.apply| == n
  }

  datatype Entry = Entry(request: Request, weather: Weather)

  // What a rank holds once the payload has arrived, and how a request ends.
  datatype Delivery = Geometry(coordinates: seq<int>, numbers: seq<int>, cell: seq<int>) | Settings(words: seq<int>)
  datatype Outcome = Finished | Failed(error: HostError)

  function OutcomeOf(e: Option<HostError>): Outcome {
    match e case None => Finished case Some(x) => Failed(x)
  }

  // ---- Rank 0 alone ----

  // The request is turned down, or preparing it throws, before any command
  // is sent.
  predicate RefusedLocally(e: Entry) {
    || (e.request.Force? && (e.request.cols != 3 || e.request.rows != |e.request.numbers| / 4))
    || e.weather.preparation
  }

  function CommandFor(q: Request): Command {
    match q case Force(_, _, _, _, _) => Calculate case Config(_) => Configure
  }

  function Payload(q: Request): Delivery
    requires Proper(q) && (q.Force? ==> q.cols == 3)
  {
    match q
    case Force(rows, _, positions, numbers, box) => Geometry(positions[..8 * (rows * 3)], numbers, box)
    case Config(words) => Settings(words)
  }

  // ---- The functions run inside collective() ----

  const GEOMETRY_ERROR := "invalid collective force geometry"
  const UNAVAILABLE_ERROR := "collective engine is unavailable"

  predicate GoodGeometry(d: Delivery)
    requires d.Geometry?
  {
    var atoms := |d.numbers| / 4;
    0 < atoms <= INT_MAX / 3 && |d.coordinates| / 8 == atoms * 3 && |d.cell| / 8 == 9
  }

  function ValidateEnding(d: Delivery, available: bool, emplace: Option<string>): Option<string>
    requires d.Geometry?
  {
    if !GoodGeometry(d) then Some(GEOMETRY_ERROR)
    else if !available then Some(UNAVAILABLE_ERROR)
    else emplace
  }

  function ValidateEndings(d: Delivery, w: Weather, n: nat): (e: Endings)
    requires d.Geometry? && ForRanks(w, n)
    ensures |e| == n
  {
    seq(n, r requires 0 <= r < n => ValidateEnding(d, w.available[r], w.emplace[r]))
  }

  // ---- What a request does, from rank 0's payload alone ----

  // The collectives entered, the payload if all of it arrived, the ending.
  datatype Effect = Effect(calls: seq<Call>, delivered: Option<Delivery>, outcome: Outcome)

  function VectorError(bytes: nat, width: nat, allocations: Endings): Option<HostError>
    requires width > 0
  {
    Agreed(ResizeEndings(bytes / width, width, allocations))
  }

  function After(calls: seq<Call>, e: Effect): Effect {
    e.(calls := calls + e.calls)
  }

  // A failed stage ends the request; later stages are not entered.
  function EvaluateEffect(d: Delivery, w: Weather): Effect {
    Effect(CollectiveCalls(w.evaluate), Some(d), OutcomeOf(Agreed(w.evaluate)))
  }

  function ValidateEffect(d: Delivery, w: Weather, n: nat): Effect
    requires d.Geometry? && ForRanks(w, n)
  {
    var endings := ValidateEndings(d, w, n);
    match Agreed(endings)
    case Some(e) => Effect(CollectiveCalls(endings), Some(d), Failed(e))
    case None => After(CollectiveCalls(endings), EvaluateEffect(d, w))
  }

  function CellEffect(d: Delivery, w: Weather, n: nat): Effect
    requires d.Geometry? && ForRanks(w, n)
  {
    var calls := TransferCalls(|d.cell|, 8, w.thirdVector);
    match VectorError(|d.cell|, 8, w.thirdVector)
    case Some(e) => Effect(calls, None, Failed(e))
    case None => After(calls, ValidateEffect(d, w, n))
  }

  function NumbersEffect(d: Delivery, w: Weather, n: nat): Effect
    requires d.Geometry? && ForRanks(w, n)
  {
    var calls := TransferCalls(|d.numbers|, 4, w.secondVector);
    match VectorError(|d.numbers|, 4, w.secondVector)
    case Some(e) => Effect(calls, None, Failed(e))
    case None => After(calls, CellEffect(d, w, n))
  }

  function CalculateEffect(d: Delivery, w: Weather, n: nat): Effect
    requires d.Geometry? && ForRanks(w, n)
  {
    var calls := TransferCalls(|d.coordinates|, 8, w.firstVector);
    match VectorError(|d.coordinates|, 8, w.firstVector)
    case Some(e) => Effect(calls, None, Failed(e))
    case None => After(calls, NumbersEffect(d, w, n))
  }

  function ConfigureEffect(d: Delivery, w: Weather): Effect
    requires d.Settings?
  {
    var calls := TransferCalls(|d.words|, 8, w.firstVector);
    match VectorError(|d.words|, 8, w.firstVector)
    case Some(e) => Effect(calls, None, Failed(e))
    case None => Effect(calls + CollectiveCalls(w.apply), Some(d), OutcomeOf(Agreed(w.apply)))
  }

  function RequestEffect(q: Request, w: Weather, n: nat): Effect
    requires Proper(q) && ForRanks(w, n) && (q.Force? ==> q.cols == 3)
  {
    var d := Payload(q);
    if q.Force? then CalculateEffect(d, w, n) else ConfigureEffect(d, w)
  }

  // ---- calculateReceived() and configureReceived() on all ranks at once ----

  // How a rank leaves the call.
  function Thrown(thrown: seq<Option<HostError>>): (r: seq<Outcome>)
    ensures |r| == |thrown|
    ensures forall i :: 0 <= i < |thrown| ==> r[i] == OutcomeOf(thrown[i])
  {
    seq(|thrown|, r requires 0 <= r < |thrown| => OutcomeOf(thrown[r]))
  }

  // Rank 0 brings the data, the others empty vectors. Returns how the call
  // ends on every rank and what every rank received.
  method CalculateReceived(comm: Communicator, coordinates: seq<seq<int>>, numbers: seq<seq<int>>,
                           cells: seq<seq<int>>, w: Weather)
    returns (outcomes: seq<Outcome>, received: seq<Option<Delivery>>)
    requires |coordinates| == |numbers| == |cells| == comm.size > 0 && ForRanks(w, comm.size)
    requires forall r :: 0 <= r < comm.size ==>
      |coordinates[r]| % 8 == 0 && |numbers[r]| % 4 == 0 && |cells[r]| % 8 == 0
    modifies comm
    ensures var e := CalculateEffect(Geometry(coordinates[0], numbers[0], cells[0]), w, comm.size);
      && outcomes == Everywhere(comm.size, e.outcome)
      && received == Everywhere(comm.size, e.delivered)
      && comm.log == old(comm.log) + e.calls
  {
    var n := comm.size;
    ghost var d := Geometry(coordinates[0], numbers[0], cells[0]);
    var xs, thrown := BroadcastVector(comm, 8, coordinates, w.firstVector);
    if forall r :: 0 <= r < n ==> thrown[r].Some? {
      assert thrown[0].Some?;
      outcomes, received := Thrown(thrown), Everywhere(n, None);
    } else {
      assert thrown[0].None?;
      Assoc(old(comm.log), TransferCalls(|d.coordinates|, 8, w.firstVector), NumbersEffect(d, w, n).calls);
      hide NumbersEffect, TransferCalls;
      outcomes, received := ReceiveNumbers(comm, xs, numbers, cells, w);
    }
  }

  method ReceiveNumbers(comm: Communicator, coordinates: seq<seq<int>>, numbers: seq<seq<int>>,
                        cells: seq<seq<int>>, w: Weather)
    returns (outcomes: seq<Outcome>, received: seq<Option<Delivery>>)
    requires |coordinates| == |numbers| == |cells| == comm.size > 0 && ForRanks(w, comm.size)
    requires coordinates == Everywhere(comm.size, coordinates[0])
    requires forall r :: 0 <= r < comm.size ==> |numbers[r]| % 4 == 0 && |cells[r]| % 8 == 0
    modifies comm
    ensures var e := NumbersEffect(Geometry(coordinates[0], numbers[0], cells[0]), w, comm.size);
      && outcomes == Everywhere(comm.size, e.outcome)
      && received == Everywhere(comm.size, e.delivered)
      && comm.log == old(comm.log) + e.calls
  {
    var n := comm.size;
    ghost var d := Geometry(coordinates[0], numbers[0], cells[0]);
    var zs, thrown := BroadcastVector(comm, 4, numbers, w.secondVector);
    if forall r :: 0 <= r < n ==> thrown[r].Some? {
      assert thrown[0].Some?;
      outcomes, received := Thrown(thrown), Everywhere(n, None);
    } else {
      assert thrown[0].None?;
      Assoc(old(comm.log), TransferCalls(|d.numbers|, 4, w.secondVector), CellEffect(d, w, n).calls);
      hide CellEffect, TransferCalls;
      outcomes, received := ReceiveCell(comm, coordinates, zs, cells, w);
    }
  }

  method ReceiveCell(comm: Communicator, coordinates: seq<seq<int>>, numbers: seq<seq<int>>,
                     cells: seq<seq<int>>, w: Weather)
    returns (outcomes: seq<Outcome>, received: seq<Option<Delivery>>)
    requires |coordinates| == |numbers| == |cells| == comm.size > 0 && ForRanks(w, comm.size)
    requires coordinates == Everywhere(comm.size, coordinates[0]) && numbers == Everywhere(comm.size, numbers[0])
    requires forall r :: 0 <= r < comm.size ==> |cells[r]| % 8 == 0
    modifies comm
    ensures var e := CellEffect(Geometry(coordinates[0], numbers[0], cells[0]), w, comm.size);
      && outcomes == Everywhere(comm.size, e.outcome)
      && received == Everywhere(comm.size, e.delivered)
      && comm.log == old(comm.log) + e.calls
  {
    var n := comm.size;
    ghost var d := Geometry(coordinates[0], numbers[0], cells[0]);
    var boxes, thrown := BroadcastVector(comm, 8, cells, w.thirdVector);
    if forall r :: 0 <= r < n ==> thrown[r].Some? {
      assert thrown[0].Some?;
      outcomes, received := Thrown(thrown), Everywhere(n, None);
    } else {
      assert thrown[0].None?;
      var held := seq(n, r requires 0 <= r < n => Geometry(coordinates[r], numbers[r], boxes[r]));
      assert held == Everywhere(n, d);
      Assoc(old(comm.log), TransferCalls(|d.cell|, 8, w.thirdVector), ValidateEffect(d, w, n).calls);
      hide ValidateEffect, TransferCalls;
      outcomes := RunForce(comm, held, w, d);
      received := seq(n, r requires 0 <= r < n => Some(held[r]));
      SettledDelivery(d, w, n);
    }
  }

  lemma SettledDelivery(d: Delivery, w: Weather, n: nat)
    requires d.Geometry? && ForRanks(w, n)
    ensures ValidateEffect(d, w, n).delivered == Some(d)
  {
  }

  // The two collective() calls: validate, then evaluate. Each rank judges the
  // geometry it holds.
  method RunForce(comm: Communicator, held: seq<Delivery>, w: Weather, ghost d: Delivery) returns (outcomes: seq<Outcome>)
    requires comm.size > 0 && ForRanks(w, comm.size) && d.Geometry? && held == Everywhere(comm.size, d)
    modifies comm
    ensures var e := ValidateEffect(d, w, comm.size);
      outcomes == Everywhere(comm.size, e.outcome) && comm.log == old(comm.log) + e.calls
  {
    var n := comm.size;
    var endings := seq(n, r requires 0 <= r < n => ValidateEnding(held[r], w.available[r], w.emplace[r]));
    assert endings == ValidateEndings(d, w, n);
    var thrown := Collective(comm, endings);
    if forall r :: 0 <= r < n ==> thrown[r].Some? {
      assert thrown[0].Some?;
      outcomes := Thrown(thrown);
    } else {
      assert thrown[0].None?;
      Assoc(old(comm.log), CollectiveCalls(endings), CollectiveCalls(w.evaluate));
      hide CollectiveCalls;
      thrown := Collective(comm, w.evaluate);
      outcomes := Thrown(thrown);
    }
  }

  method ConfigureReceived(comm: Communicator, words: seq<seq<int>>, w: Weather)
    returns (outcomes: seq<Outcome>, received: seq<Option<Delivery>>)
    requires |words| == comm.size > 0 && ForRanks(w, comm.size)
    requires forall r :: 0 <= r < comm.size ==> |words[r]| % 8 == 0
    modifies comm
    ensures var e := ConfigureEffect(Settings(words[0]), w);
      && outcomes == Everywhere(comm.size, e.outcome)
      && received == Everywhere(comm.size, e.delivered)
      && comm.log == old(comm.log) + e.calls
  {
    var n := comm.size;
    var messages, thrown := BroadcastVector(comm, 8, words, w.firstVector);
    if forall r :: 0 <= r < n ==> thrown[r].Some? {
      assert thrown[0].Some?;
      outcomes, received := Thrown(thrown), Everywhere(n, None);
    } else {
      assert thrown[0].None?;
      Assoc(old(comm.log), TransferCalls(|words[0]|, 8, w.firstVector), CollectiveCalls(w.apply));
      hide CollectiveCalls, TransferCalls;
      thrown := Collective(comm, w.apply);
      outcomes := Thrown(thrown);
      received := seq(n, r requires 0 <= r < n => Some(Settings(messages[r])));
    }
  }

  // ---- A whole session ----

  const COMMAND_CALL: Call := Bcast(0, 4)

  // What a list of requests amounts to: the collectives, and for every rank
  // the commands, payloads and endings, in order.
  datatype History = History(calls: seq<Call>, commands: seq<Command>, delivered: seq<Delivery>, outcomes: seq<Outcome>)

  function Listed(d: Option<Delivery>): seq<Delivery> {
    match d case None => [] case Some(x) => [x]
  }

  // A request refused on rank 0 leaves no trace on any rank.
  function Grown(h: History, e: Entry, n: nat): History
    requires Proper(e.request) && ForRanks(e.weather, n)
  {
    if RefusedLocally(e) then h
    else
      var effect := RequestEffect(e.request, e.weather, n);
      History(h.calls + ([COMMAND_CALL] + effect.calls), h.commands + [CommandFor(e.request)],
              h.delivered + Listed(effect.delivered), h.outcomes + [effect.outcome])
  }

  predicate ProperScript(script: seq<Entry>, n: nat) {
    forall i :: 0 <= i < |script| ==> Proper(script[i].request) && ForRanks(script[i].weather, n)
  }

  function HistoryOf(script: seq<Entry>, k: nat, n: nat): History
    requires k <= |script| && ProperScript(script, n)
  {
    if k == 0 then History([], [], [], []) else Grown(HistoryOf(script, k - 1, n), script[k - 1], n)
  }

  class Session {
    const comm: Communicator
    // The stopped_ field of every rank.
    var stopped: seq<bool>
    // What every rank has seen: commands, payloads, endings.
    ghost var commands: seq<seq<Command>>
    ghost var delivered: seq<seq<Delivery>>
    ghost var outcomes: seq<seq<Outcome>>

    // All workers wait in work() and every rank has seen h.
    ghost predicate Serving(h: History)
      reads this, comm
    {
      && comm.size > 0
      && stopped == Everywhere(comm.size, false)
      && comm.log == h.calls
      && commands == Everywhere(comm.size, h.commands)
      && delivered == Everywhere(comm.size, h.delivered)
      && outcomes == Everywhere(comm.size, h.outcomes)
    }

    constructor (comm: Communicator)
      requires comm.size > 0 && comm.log == []
      ensures this.comm == comm && Serving(History([], [], [], []))
    {
      this.comm := comm;
      stopped := Everywhere(comm.size, false);
      commands := Everywhere(comm.size, []);
      delivered := Everywhere(comm.size, []);
      outcomes := Everywhere(comm.size, []);
    }

    // broadcastCommand() on all ranks: rank 0 sends, a worker that has not
    // stopped receives in work().
    method SendCommand(command: Command) returns (got: seq<Command>)
      requires comm.size > 0 && stopped == Everywhere(comm.size, false)
      modifies comm
      ensures got == Everywhere(comm.size, command)
      ensures comm.log == old(comm.log) + [COMMAND_CALL]
    {
      var n := comm.size;
      var halted := stopped;
      var calls := seq(n, r requires 0 <= r < n => if r == 0 || !halted[r] then Some(Bcast(0, 4)) else None);
      var values := seq(n, r requires 0 <= r < n => if r == 0 then command else Stop);
      got := comm.Broadcast(calls, values);
    }

    // calculate() or configure() on rank 0, one turn of work() elsewhere.
    method Handle(e: Entry, ghost h: History)
      requires Serving(h) && Proper(e.request) && ForRanks(e.weather, comm.size)
      modifies this, comm
      ensures Serving(Grown(h, e, comm.size))
    {
      if e.request.Force? && (e.request.cols != 3 || e.request.rows != |e.request.numbers| / 4) {
        return;
      }
      if e.weather.preparation {
        return;
      }
      var n, command := comm.size, CommandFor(e.request);
      var got := SendCommand(command);
      var ended, received := Dispatch(e, got);
      ghost var effect := RequestEffect(e.request, e.weather, n);
      Assoc(h.calls, [COMMAND_CALL], effect.calls);
      hide RequestEffect, CommandFor;
      commands := seq(n, r requires 0 <= r < n => h.commands + [got[r]]);
      delivered := seq(n, r requires 0 <= r < n => h.delivered + Listed(received[r]));
      outcomes := seq(n, r requires 0 <= r < n => h.outcomes + [ended[r]]);
    }

    // Rank 0 runs what it was asked, each worker what it was told. The vectors
    // a rank enters the received half with: rank 0 its payload, a worker
    // nothing.
    method Dispatch(e: Entry, got: seq<Command>) returns (ended: seq<Outcome>, received: seq<Option<Delivery>>)
      requires comm.size > 0 && Proper(e.request) && ForRanks(e.weather, comm.size)
      requires e.request.Force? ==> e.request.cols == 3
      requires got == Everywhere(comm.size, CommandFor(e.request))
      modifies comm
      ensures var effect := RequestEffect(e.request, e.weather, comm.size);
        && ended == Everywhere(comm.size, effect.outcome)
        && received == Everywhere(comm.size, effect.delivered)
        && comm.log == old(comm.log) + effect.calls
    {
      var n := comm.size;
      var entered := seq(n, r requires 0 <= r < n =>
        if r > 0 then got[r] == Calculate else e.request.Force?);
      assert forall r :: 0 <= r < n ==> entered[r] == e.request.Force?;
      match e.request {
        case Force(rows, cols, positions, numbers, box) =>
          var coordinates := positions[..8 * (rows * 3)];
          RequestEffectIs(e.request, e.weather, n);
          SizesAtRoot(n, coordinates, 8);
          SizesAtRoot(n, numbers, 4);
          SizesAtRoot(n, box, 8);
          hide *;
          ended, received := CalculateReceived(comm, AtRoot(n, coordinates), AtRoot(n, numbers), AtRoot(n, box), e.weather);
        case Config(words) =>
          RequestEffectIs(e.request, e.weather, n);
          SizesAtRoot(n, words, 8);
          hide *;
          ended, received := ConfigureReceived(comm, AtRoot(n, words), e.weather);
      }
    }

    // The destructor on rank 0 and the last turn of work() elsewhere.
    method Destroy(ghost h: History)
      requires Serving(h)
      modifies this, comm
      ensures stopped == seq(comm.size, r requires 0 <= r < comm.size => r > 0)
      ensures commands == Everywhere(comm.size, h.commands + [Stop])
      ensures comm.log == h.calls + [COMMAND_CALL]
      ensures delivered == old(delivered) && outcomes == old(outcomes)
    {
      var n := comm.size;
      if !stopped[0] {
        var got := SendCommand(Stop);
        stopped := seq(n, r requires 0 <= r < n => r > 0 && got[r] == Stop);
        commands := seq(n, r requires 0 <= r < n => h.commands + [got[r]]);
      }
    }

    // Any requests under any conditions, then destruction: every collective
    // is matched on all ranks, every rank has the same commands, payloads
    // and endings in the same order, and one Stop ends every worker.
    method Run(script: seq<Entry>)
      requires Serving(History([], [], [], [])) && ProperScript(script, comm.size)
      modifies this, comm
      ensures var h := HistoryOf(script, |script|, comm.size);
        && comm.log == h.calls + [COMMAND_CALL]
        && commands == Everywhere(comm.size, h.commands + [Stop])
        && delivered == Everywhere(comm.size, h.delivered)
        && outcomes == Everywhere(comm.size, h.outcomes)
        && stopped == seq(comm.size, r requires 0 <= r < comm.size => r > 0)
    {
      ghost var h := History([], [], [], []);
      for k := 0 to |script|
        invariant h == HistoryOf(script, k, comm.size) && Serving(h)
      {
        hide Grown;
        Handle(script[k], h);
        h := Grown(h, script[k], comm.size);
      }
      Destroy(h);
    }
  }

  function AtRoot(n: nat, data: seq<int>): (r: seq<seq<int>>)
    ensures |r| == n && forall i :: 0 <= i < n ==> r[i] == if i == 0 then data else []
  {
    seq(n, i requires 0 <= i < n => if i == 0 then data else [])
  }

  lemma SizesAtRoot(n: nat, data: seq<int>, width: nat)
    requires width > 0 && |data| % width == 0
    ensures forall r :: 0 <= r < n ==> |AtRoot(n, data)[r]| % width == 0
    ensures n > 0 ==> AtRoot(n, data)[0] == data
  {
  }

  lemma WholeWords(n: nat)
    ensures 8 * n % 8 == 0
  {
  }

  lemma RequestEffectIs(q: Request, w: Weather, n: nat)
    requires Proper(q) && ForRanks(w, n) && (q.Force? ==> q.cols == 3)
    ensures q.Force? ==>
      && 8 * (q.rows * 3) <= |q.positions| && |q.positions[..8 * (q.rows * 3)]| % 8 == 0
      && |q.numbers| % 4 == 0 && |q.box| % 8 == 0
      && RequestEffect(q, w, n) == CalculateEffect(Geometry(q.positions[..8 * (q.rows * 3)], q.numbers, q.box), w, n)
    ensures q.Config? ==> |q.words| % 8 == 0 && RequestEffect(q, w, n) == ConfigureEffect(Settings(q.words), w)
  {
    hide CalculateEffect, ConfigureEffect, ForRanks;
    if q.Force? {
      WholeWords(q.rows * 3);
      assert |q.positions| == 8 * (q.rows * 3) && |q.box| == 8 * 9;
      assert RequestEffect(q, w, n) == CalculateEffect(Payload(q), w, n);
    }
  }

  // The only Stop is the one the destructor sends.
  lemma {:induction false} NoStopBeforeTheEnd(script: seq<Entry>, k: nat, n: nat)
    requires k <= |script| && ProperScript(script, n)
    ensures Stop !in HistoryOf(script, k, n).commands
    ensures |HistoryOf(script, k, n).commands| == |HistoryOf(script, k, n).outcomes| == |Sent(script, k)|
  {
    if k > 0 {
      hide *;
      NoStopBeforeTheEnd(script, k - 1, n);
      StillNoStop(script, k, n);
    }
  }

  lemma StillNoStop(script: seq<Entry>, k: nat, n: nat)
    requires 0 < k <= |script| && ProperScript(script, n)
    requires var before := HistoryOf(script, k - 1, n);
      Stop !in before.commands && |before.commands| == |before.outcomes| == |Sent(script, k - 1)|
    ensures Stop !in HistoryOf(script, k, n).commands
    ensures |HistoryOf(script, k, n).commands| == |HistoryOf(script, k, n).outcomes| == |Sent(script, k)|
  {
    NextCommand(script, k, n);
    hide *;
  }

  lemma NextCommand(script: seq<Entry>, k: nat, n: nat)
    requires 0 < k <= |script| && ProperScript(script, n)
    ensures var e, before, after := script[k - 1], HistoryOf(script, k - 1, n), HistoryOf(script, k, n);
      if RefusedLocally(e) then after == before && Sent(script, k) == Sent(script, k - 1)
      else
        && after.commands == before.commands + [CommandFor(e.request)] && CommandFor(e.request) != Stop
        && |after.outcomes| == |before.outcomes| + 1 && |Sent(script, k)| == |Sent(script, k - 1)| + 1
  {
    hide RequestEffect, RefusedLocally;
  }

  // The requests rank 0 sends on, in order.
  function Sent(script: seq<Entry>, k: nat): (r: seq<Entry>)
    requires k <= |script|
    ensures forall e :: e in r ==> e in script && !RefusedLocally(e)
  {
    if k == 0 then []
    else if RefusedLocally(script[k - 1]) then Sent(script, k - 1)
    else Sent(script, k - 1) + [script[k - 1]]
  }

  // No rank fails to allocate any of the vectors.
  predicate Transferred(e: Entry, n: nat)
    requires Proper(e.request) && ForRanks(e.weather, n) && (e.request.Force? ==> e.request.cols == 3)
  {
    match Payload(e.request)
    case Geometry(xs, zs, cell) =>
      && VectorError(|xs|, 8, e.weather.firstVector).None?
      && VectorError(|zs|, 4, e.weather.secondVector).None?
      && VectorError(|cell|, 8, e.weather.thirdVector).None?
    case Settings(words) => VectorError(|words|, 8, e.weather.firstVector).None?
  }

  // The payloads of rank 0, in order, without refused requests and without
  // those whose transfer failed.
  function Arrivals(script: seq<Entry>, k: nat, n: nat): seq<Delivery>
    requires k <= |script| && ProperScript(script, n)
  {
    if k == 0 then []
    else
      var e := script[k - 1];
      if RefusedLocally(e) || !Transferred(e, n) then Arrivals(script, k - 1, n)
      else Arrivals(script, k - 1, n) + [Payload(e.request)]
  }

  lemma EffectDelivers(e: Entry, n: nat)
    requires Proper(e.request) && ForRanks(e.weather, n) && !RefusedLocally(e)
    ensures RequestEffect(e.request, e.weather, n).delivered
         == if Transferred(e, n) then Some(Payload(e.request)) else None
  {
    hide TransferCalls, CollectiveCalls;
    var d := Payload(e.request);
    if d.Geometry? {
      SettledDelivery(d, e.weather, n);
    }
  }

  lemma {:induction false} EveryPayloadInOrder(script: seq<Entry>, k: nat, n: nat)
    requires k <= |script| && ProperScript(script, n)
    ensures HistoryOf(script, k, n).delivered == Arrivals(script, k, n)
  {
    if k > 0 {
      NextDelivery(script, k, n);
      NextArrival(script, k, n);
      var e := script[k - 1];
      if !RefusedLocally(e) {
        EffectDelivers(e, n);
        Empties(Arrivals(script, k - 1, n));
      }
      hide HistoryOf, Arrivals, RequestEffect, Transferred, Payload, RefusedLocally;
      EveryPayloadInOrder(script, k - 1, n);
    }
  }

  lemma NextDelivery(script: seq<Entry>, k: nat, n: nat)
    requires 0 < k <= |script| && ProperScript(script, n)
    ensures var e, before := script[k - 1], HistoryOf(script, k - 1, n).delivered;
      HistoryOf(script, k, n).delivered ==
        if RefusedLocally(e) then before else before + Listed(RequestEffect(e.request, e.weather, n).delivered)
  {
    hide RequestEffect, RefusedLocally;
  }

  lemma NextArrival(script: seq<Entry>, k: nat, n: nat)
    requires 0 < k <= |script| && ProperScript(script, n)
    ensures var e, before := script[k - 1], Arrivals(script, k - 1, n);
      Arrivals(script, k, n) ==
        if RefusedLocally(e) || !Transferred(e, n) then before else before + [Payload(e.request)]
  {
    hide Transferred, Payload;
  }
}
