// librgpot_mpi: the error exchange of one calculator. Its ranks move on their
// own, the two gathers are non-blocking, and a rank with an error gives up
// waiting after a while: a state machine over the steps of single ranks.
module PublishedErrors {
  import opened CalculatorSplit
  import opened Sequences

  const CAP: nat := 512

  datatype Line = Line(worldRank: int, text: string)

  // Where a rank is. Second carries what it holds after the first gather.
  datatype Phase = Entering | First | Second(counts: seq<nat>, width: nat) | Returned

  // The ranks of one calculator, each with the message it passes (empty for
  // none). blocks[r] is what rank r has posted to the second gather.
  datatype Exchange = Exchange(group: Group, messages: seq<string>, phases: seq<Phase>, blocks: seq<string>,
                               aborted: bool, printed: seq<Line>)

  datatype Step =
    | Enter(r: nat)         // post the first gather, or act alone
    | FinishCounts(r: nat)  // the first gather completes; post the second
    | FinishTexts(r: nat)   // the second gather completes; print and abort
    | GiveUp(r: nat)        // the wait of a rank with a message runs out
    | Fail(r: nat)          // MPI refuses a post

  function Count(message: string): (n: nat)
    ensures n <= CAP && n <= |message| && (n == 0 <==> message == "")
    ensures (|message| <= 512 ==> n == |message|) && (|message| >= 512 ==> n == 512)
  {
    if |message| < CAP then |message| else CAP
  }

  function Counts(messages: seq<string>): (counts: seq<nat>)
    ensures |counts| == |messages| && forall r :: 0 <= r < |messages| ==> counts[r] == Count(messages[r])
  {
    seq(|messages|, r requires 0 <= r < |messages| => Count(messages[r]))
  }

  // The largest of the first n counts.
  function Widest(counts: seq<nat>, n: nat): (w: nat)
    requires n <= |counts|
    ensures forall r :: 0 <= r < n ==> counts[r] <= w
    ensures w == 0 || exists r :: 0 <= r < n && counts[r] == w
  {
    if n == 0 then 0
    else
      var w := Widest(counts, n - 1);
      if counts[n - 1] > w then counts[n - 1] else w
  }

  // The block a rank sends: its text, then zeros.
  function Block(message: string, width: nat): (b: string)
    requires Count(message) <= width
    ensures |b| == width && b[..Count(message)] == message[..Count(message)]
  {
    message[..Count(message)] + seq(width - Count(message), _ => '\0')
  }

  // What the receive buffer holds after the second gather.
  function Received(blocks: seq<string>): string {
    if blocks == [] then "" else Received(blocks[..|blocks| - 1]) + blocks[|blocks| - 1]
  }

  // A string is printed up to its first zero.
  function UpToZero(s: string): (t: string)
    ensures t <= s && '\0' !in t && (|t| < |s| ==> s[|t|] == '\0')
  {
    if s == "" || s[0] == '\0' then "" else [s[0]] + UpToZero(s[1..])
  }

  // ---- What is meant to be printed ----

  function Own(group: Group, messages: seq<string>, r: nat): Line
    requires r < |messages|
  {
    Line(WorldRank(group, group.index, r), UpToZero(messages[r][..Count(messages[r])]))
  }

  // One line for each of the first n ranks with a message, by rank.
  function Report(group: Group, messages: seq<string>, n: nat): seq<Line>
    requires n <= |messages|
  {
    if n == 0 then []
    else Report(group, messages, n - 1) + (if messages[n - 1] == "" then [] else [Own(group, messages, n - 1)])
  }

  // ---- Printing out of the receive buffer ----

  lemma Within(src: nat, n: nat, width: nat)
    requires src < n
    ensures 0 <= src * width && src * width + width <= n * width
  {
    Scale(src + 1, n, width);
    assert (src + 1) * width == src * width + width;
  }

  lemma {:induction false} BlockAt(blocks: seq<string>, width: nat, src: nat, from: nat)
    requires src < |blocks| && forall r :: 0 <= r < |blocks| ==> |blocks[r]| == width
    requires from == src * width
    ensures from + width <= |Received(blocks)| && Received(blocks)[from..from + width] == blocks[src]
  {
    var last := |blocks| - 1;
    var front := blocks[..last];
    ReceivedSize(front, width);
    if src < last {
      BlockAt(front, width, src, from);
      Within(src, last, width);
      Inside(Received(front), blocks[last], from, from + width);
    }
  }

  lemma Inside(s: string, t: string, i: nat, j: nat)
    requires i <= j <= |s|
    ensures (s + t)[i..j] == s[i..j]
  {
  }

  lemma {:induction false} ReceivedSize(blocks: seq<string>, width: nat)
    requires forall r :: 0 <= r < |blocks| ==> |blocks[r]| == width
    ensures |Received(blocks)| == |blocks| * width
  {
    if blocks != [] {
      ReceivedSize(blocks[..|blocks| - 1], width);
      assert |blocks| * width == (|blocks| - 1) * width + width;
    }
  }

  // The blocks of ranks that all reached the second gather.
  predicate Posted(messages: seq<string>, blocks: seq<string>, width: nat) {
    && |blocks| == |messages|
    && forall r :: 0 <= r < |messages| ==> Count(messages[r]) <= width && blocks[r] == Block(messages[r], width)
  }

  lemma TextInBuffer(messages: seq<string>, blocks: seq<string>, width: nat, src: nat, from: int)
    requires Posted(messages, blocks, width) && src < |messages| && from == src * width
    ensures var count := Count(messages[src]);
      0 <= from && count <= width && from + count <= |Received(blocks)|
      && Received(blocks)[from..from + count] == messages[src][..count]
  {
    var count, all := Count(messages[src]), Received(blocks);
    BlockAt(blocks, width, src, from);
    assert all[from..from + count] == all[from..from + width][..count];
  }

  // Where the text of a rank begins in the buffer.
  function Place(src: nat, width: nat): int {
    src * width
  }

  // What the buffer holds at the place of one rank is its line of the report.
  lemma LineInBuffer(group: Group, counts: seq<nat>, received: string, width: nat, messages: seq<string>,
                     blocks: seq<string>, src: nat, from: int)
    requires counts == Counts(messages) && Posted(messages, blocks, width) && received == Received(blocks)
    requires src < |messages| && from == Place(src, width)
    ensures |counts| == |messages| && 0 <= from && counts[src] <= width && from + counts[src] <= |received|
    ensures Report(group, messages, src + 1) == Report(group, messages, src) +
      if counts[src] == 0 then []
      else [Line(WorldRank(group, group.index, 0) + src, UpToZero(received[from..from + counts[src]]))]
  {
    NextInReport(group, messages, src);
    TextInBuffer(messages, blocks, width, src, from);
    WorldRanks(group, src);
    hide Posted, Received, Report, WorldRank, UpToZero;
  }

  // The printing loop: every rank of the calculator prints the report.
  method PrintReport(group: Group, counts: seq<nat>, received: string, width: nat,
                     ghost messages: seq<string>, ghost blocks: seq<string>)
    returns (lines: seq<Line>)
    requires counts == Counts(messages) && Posted(messages, blocks, width) && received == Received(blocks)
    ensures lines == Report(group, messages, |messages|)
  {
    lines := [];
    for src := 0 to |counts|
      invariant lines == Report(group, messages, src)
    {
      hide *;
      var offset := Place(src, width);
      LineInBuffer(group, counts, received, width, messages, blocks, src, offset);
      if counts[src] > 0 {
        var count := if counts[src] < width then counts[src] else width;
        assert count == counts[src];
        var text := received[offset..offset + count];
        lines := lines + [Line(WorldRank(group, group.index, 0) + src, UpToZero(text))];
      } else {
        Empties(lines);
      }
    }
  }

  lemma NextInReport(group: Group, messages: seq<string>, src: nat)
    requires src < |messages|
    ensures Report(group, messages, src + 1) ==
      Report(group, messages, src) + if messages[src] == "" then [] else [Own(group, messages, src)]
  {
  }

  lemma WorldRanks(group: Group, src: nat)
    ensures WorldRank(group, group.index, 0) + src == WorldRank(group, group.index, src)
  {
  }

  // ---- Steps ----

  function Start(group: Group, messages: seq<string>): Exchange {
    Exchange(group, messages, seq(|messages|, _ => Entering), seq(|messages|, _ => ""), false, [])
  }

  predicate WellFormed(e: Exchange) {
    |e.phases| == |e.blocks| == |e.messages|
  }

  predicate AllIn(e: Exchange) {
    forall q :: 0 <= q < |e.phases| ==> !e.phases[q].Entering?
  }

  predicate SomeMessage(messages: seq<string>) {
    exists q :: 0 <= q < |messages| && messages[q] != ""
  }

  function Width(e: Exchange): nat {
    Widest(Counts(e.messages), |e.messages|)
  }

  predicate Enabled(e: Exchange, s: Step)
    requires WellFormed(e)
  {
    && !e.aborted && s.r < |e.messages|
    && match s
       case Enter(r) => e.phases[r].Entering?
       case FinishCounts(r) => e.phases[r].First? && AllIn(e)
       case FinishTexts(r) => e.phases[r].Second? && forall q :: 0 <= q < |e.phases| ==> e.phases[q].Second?
       case GiveUp(r) => e.messages[r] != "" && (e.phases[r].First? || e.phases[r].Second?)
       case Fail(r) =>
         |e.messages| >= 2 && (e.phases[r].Entering? || (e.phases[r].First? && AllIn(e) && Width(e) > 0))
  }

  function Alone(e: Exchange, r: nat): seq<Line>
    requires r < |e.messages|
  {
    if e.messages[r] == "" then []
    else [Line(WorldRank(e.group, e.group.index, r), UpToZero(e.messages[r]))]
  }

  // A rank on its own prints its whole message, if any, and takes the world down.
  function AbortAlone(e: Exchange, r: nat): Exchange
    requires r < |e.messages|
  {
    e.(aborted := true, printed := Alone(e, r))
  }

  function Apply(e: Exchange, s: Step): (e': Exchange)
    requires WellFormed(e) && Enabled(e, s)
    ensures WellFormed(e') && e'.group == e.group && e'.messages == e.messages
  {
    match s
    case Enter(r) =>
      if |e.messages| >= 2 then e.(phases := e.phases[r := First])
      else if e.messages[r] != "" then AbortAlone(e, r)
      else e.(phases := e.phases[r := Returned])
    case FinishCounts(r) =>
      var counts := Counts(e.messages);
      var width := Widest(counts, |counts|);
      assert counts[r] <= width;
      if width == 0 then e.(phases := e.phases[r := Returned])
      else e.(phases := e.phases[r := Second(counts, width)], blocks := e.blocks[r := Block(e.messages[r], width)])
    case FinishTexts(r) => e.(aborted := true, printed := Report(e.group, e.messages, |e.messages|))
    case GiveUp(r) => AbortAlone(e, r)
    case Fail(r) => AbortAlone(e, r)
  }

  // Any finite run: each step is one its rank can take at that point.
  predicate IsRun(e: Exchange, steps: seq<Step>)
    requires WellFormed(e)
    decreases |steps|
  {
    steps == [] || (Enabled(e, steps[0]) && IsRun(Apply(e, steps[0]), steps[1..]))
  }

  function After(e: Exchange, steps: seq<Step>): (e': Exchange)
    requires WellFormed(e) && IsRun(e, steps)
    ensures WellFormed(e') && e'.messages == e.messages && e'.group == e.group
    decreases |steps|
  {
    if steps == [] then e else After(Apply(e, steps[0]), steps[1..])
  }

  // ---- The invariant ----

  predicate Sound(e: Exchange, failed: bool) {
    && WellFormed(e)
    && (!e.aborted ==> e.printed == [])
    && (e.aborted ==> ProperOutput(e))
    && (e.aborted ==> SomeMessage(e.messages) || failed)
    && (forall r :: 0 <= r < |e.phases| ==> SoundAt(e, r))
  }

  // All there is to print: the report, or the whole message of one rank.
  predicate ProperOutput(e: Exchange) {
    || e.printed == Report(e.group, e.messages, |e.messages|)
    || exists r :: 0 <= r < |e.messages| && e.printed == Alone(e, r)
  }

  predicate SoundAt(e: Exchange, r: nat)
    requires WellFormed(e) && r < |e.phases|
  {
    match e.phases[r]
    case Entering => true
    case First => |e.messages| >= 2
    case Second(counts, width) =>
      && |e.messages| >= 2 && AllIn(e) && SomeMessage(e.messages)
      && counts == Counts(e.messages) && width == Width(e) && Count(e.messages[r]) <= width
      && e.blocks[r] == Block(e.messages[r], width)
    case Returned => AllIn(e) && !SomeMessage(e.messages)
  }

  lemma WidthMeansMessage(messages: seq<string>)
    ensures Widest(Counts(messages), |messages|) > 0 <==> SomeMessage(messages)
  {
    var counts := Counts(messages);
    var width := Widest(counts, |messages|);
    if width > 0 {
      var r :| 0 <= r < |messages| && counts[r] == width;
      assert messages[r] != "";
    }
    if SomeMessage(messages) {
      var q :| 0 <= q < |messages| && messages[q] != "";
      assert counts[q] > 0;
    }
  }

  lemma StepKeepsSound(e: Exchange, s: Step, failed: bool)
    requires Sound(e, failed) && Enabled(e, s)
    ensures Sound(Apply(e, s), failed || s.Fail?)
  {
    hide Widest, Report, Block;
    WidthMeansMessage(e.messages);
    var e' := Apply(e, s);
    forall r | 0 <= r < |e'.phases|
      ensures SoundAt(e', r)
    {
      assert SoundAt(e, r);
    }
    assert SoundAt(e, s.r);
    assert e'.aborted ==> s.FinishTexts? || e'.printed == Alone(e', s.r);
  }

  // ---- Work left ----

  function Weight(p: Phase): nat {
    match p case Entering => 3 case First => 2 case Second(_, _) => 1 case Returned => 0
  }

  function Weights(phases: seq<Phase>): nat {
    if phases == [] then 0 else Weight(phases[0]) + Weights(phases[1..])
  }

  function Left(e: Exchange): nat {
    if e.aborted then 0 else Weights(e.phases)
  }

  lemma {:induction false} WeightsUpdate(phases: seq<Phase>, r: nat, p: Phase)
    requires r < |phases|
    ensures Weights(phases[r := p]) == Weights(phases) - Weight(phases[r]) + Weight(p)
    ensures Weights(phases) >= Weight(phases[r])
  {
    if r == 0 {
      assert phases[0 := p][1..] == phases[1..];
    } else {
      WeightsUpdate(phases[1..], r - 1, p);
      assert phases[r := p][1..] == phases[1..][r - 1 := p];
    }
  }

  lemma {:induction false} WeightsAtStart(n: nat)
    ensures Weights(seq(n, _ => Entering)) == 3 * n
  {
    if n > 0 {
      WeightsAtStart(n - 1);
      assert seq(n, _ => Entering)[1..] == seq(n - 1, _ => Entering);
    }
  }

  lemma StepTakesWork(e: Exchange, s: Step, failed: bool)
    requires Sound(e, failed) && Enabled(e, s)
    ensures Left(Apply(e, s)) < Left(e)
  {
    hide Widest, Report, Block, Weights;
    var e' := Apply(e, s);
    assert SoundAt(e, s.r);
    WeightsUpdate(e.phases, s.r, e'.phases[s.r]);
  }

  // ---- Every run ----

  predicate Fails(steps: seq<Step>) {
    exists i :: 0 <= i < |steps| && steps[i].Fail?
  }

  lemma {:induction false} RunIsSound(e: Exchange, steps: seq<Step>, failed: bool)
    requires Sound(e, failed) && IsRun(e, steps)
    ensures Sound(After(e, steps), failed || Fails(steps))
    ensures |steps| + Left(After(e, steps)) <= Left(e)
    decreases |steps|
  {
    if steps != [] {
      var s, rest := steps[0], steps[1..];
      StepKeepsSound(e, s, failed);
      StepTakesWork(e, s, failed);
      RunIsSound(Apply(e, s), rest, failed || s.Fail?);
      if Fails(rest) {
        var i :| 0 <= i < |rest| && rest[i].Fail?;
        assert steps[i + 1].Fail?;
      }
    }
  }

  lemma StartIsSound(group: Group, messages: seq<string>)
    ensures Sound(Start(group, messages), false) && Left(Start(group, messages)) == 3 * |messages|
  {
    WeightsAtStart(|messages|);
  }

  // No rank returns while a rank of its calculator has an error to report.
  lemma NoReturnWithAMessage(group: Group, messages: seq<string>, steps: seq<Step>, r: nat)
    requires IsRun(Start(group, messages), steps) && r < |messages|
    ensures SomeMessage(messages) ==> !After(Start(group, messages), steps).phases[r].Returned?
  {
    StartIsSound(group, messages);
    RunIsSound(Start(group, messages), steps, false);
    assert SoundAt(After(Start(group, messages), steps), r);
  }

  // The world goes down only for a reported error or a failure inside MPI.
  lemma AbortHasACause(group: Group, messages: seq<string>, steps: seq<Step>)
    requires IsRun(Start(group, messages), steps) && After(Start(group, messages), steps).aborted
    ensures SomeMessage(messages) || Fails(steps)
  {
    StartIsSound(group, messages);
    RunIsSound(Start(group, messages), steps, false);
  }

  // Each printed line names a rank with a message and gives that message, cut
  // to 512 characters in a report; a report has a line for every message.
  lemma LinesAreMessages(group: Group, messages: seq<string>, steps: seq<Step>, k: nat) returns (r: nat)
    requires IsRun(Start(group, messages), steps) && k < |After(Start(group, messages), steps).printed|
    ensures r < |messages| && messages[r] != ""
    ensures var line := After(Start(group, messages), steps).printed[k];
      && line.worldRank == WorldRank(group, group.index, r)
      && line.text <= messages[r] && '\0' !in line.text
      && (line.text == messages[r] || messages[r][|line.text|] == '\0' || |line.text| == 512)
  {
    StartIsSound(group, messages);
    RunIsSound(Start(group, messages), steps, false);
    var e := After(Start(group, messages), steps);
    if e.printed == Report(group, messages, |messages|) {
      r := ReportLine(group, messages, |messages|, k);
    } else {
      r :| 0 <= r < |messages| && e.printed == Alone(e, r);
    }
  }

  lemma {:induction false} ReportLine(group: Group, messages: seq<string>, n: nat, k: nat) returns (r: nat)
    requires n <= |messages| && k < |Report(group, messages, n)|
    ensures r < n && messages[r] != "" && Report(group, messages, n)[k] == Own(group, messages, r)
  {
    if k < |Report(group, messages, n - 1)| {
      r := ReportLine(group, messages, n - 1, k);
    } else {
      r := n - 1;
    }
  }

  lemma {:induction false} ReportHasAll(group: Group, messages: seq<string>, n: nat, r: nat)
    requires r < n <= |messages| && messages[r] != ""
    ensures Own(group, messages, r) in Report(group, messages, n)
  {
    if r < n - 1 {
      ReportHasAll(group, messages, n - 1, r);
    }
    NextInReport(group, messages, n - 1);
    hide Report, Own;
  }

  // A report is in the order of the ranks, with one line for each at most.
  lemma {:induction false} ReportInOrder(group: Group, messages: seq<string>, n: nat)
    requires n <= |messages|
    ensures var lines := Report(group, messages, n);
      && (forall i, j :: 0 <= i < j < |lines| ==> lines[i].worldRank < lines[j].worldRank)
      && (forall i :: 0 <= i < |lines| ==> lines[i].worldRank < WorldRank(group, group.index, n))
  {
    if n > 0 {
      ReportInOrder(group, messages, n - 1);
      NextInReport(group, messages, n - 1);
      assert WorldRank(group, group.index, n) == WorldRank(group, group.index, n - 1) + 1;
      hide Report, WorldRank;
      var before, lines := Report(group, messages, n - 1), Report(group, messages, n);
      assert forall i :: 0 <= i < |before| ==> lines[i] == before[i];
    }
  }

  // What the step that takes the world down prints: the report at the end of
  // an exchange, else the whole message of the rank that stops waiting.
  lemma LastStepPrints(group: Group, messages: seq<string>, steps: seq<Step>, s: Step)
    requires IsRun(Start(group, messages), steps) && Enabled(After(Start(group, messages), steps), s)
    ensures Apply(After(Start(group, messages), steps), s).aborted ==>
      var printed := Apply(After(Start(group, messages), steps), s).printed;
      if s.FinishTexts? then printed == Report(group, messages, |messages|)
      else if messages[s.r] == "" then printed == []
      else |printed| == 1 && printed[0].worldRank == WorldRank(group, group.index, s.r)
           && printed[0].text <= messages[s.r] && '\0' !in printed[0].text
           && (printed[0].text == messages[s.r] || messages[s.r][|printed[0].text|] == '\0')
  {
    StartIsSound(group, messages);
    RunIsSound(Start(group, messages), steps, false);
  }

  // When MPI can refuse a post: the first one of a rank that has not entered
  // yet, and the second one, which is made when all ranks are in and some
  // rank has a message. A world of one rank makes no posts.
  lemma PostsThatCanFail(group: Group, messages: seq<string>, steps: seq<Step>, r: nat)
    requires IsRun(Start(group, messages), steps) && r < |messages|
    ensures var e := After(Start(group, messages), steps);
      Enabled(e, Fail(r)) <==>
        && !e.aborted && |messages| >= 2
        && (|| e.phases[r].Entering?
            || (e.phases[r].First? && (forall q :: 0 <= q < |messages| ==> !e.phases[q].Entering?)
                && exists q :: 0 <= q < |messages| && messages[q] != ""))
  {
    WidthMeansMessage(messages);
    StartIsSound(group, messages);
    RunIsSound(Start(group, messages), steps, false);
    hide Widest, Counts, IsRun, After;
  }

  // Every run is short, and one that cannot go on has ended in one of two
  // ways: all ranks returned, or the world is down. With a message it is the
  // latter; without one and without an MPI failure the former.
  lemma EveryRunEnds(group: Group, messages: seq<string>, steps: seq<Step>)
    requires IsRun(Start(group, messages), steps)
    ensures |steps| <= 3 * |messages|
    ensures var e := After(Start(group, messages), steps);
      (forall s: Step :: !Enabled(e, s)) ==>
        if SomeMessage(messages) then e.aborted
        else if e.aborted then Fails(steps)
        else forall r :: 0 <= r < |messages| ==> e.phases[r].Returned?
  {
    StartIsSound(group, messages);
    RunIsSound(Start(group, messages), steps, false);
    var e := After(Start(group, messages), steps);
    if !e.aborted && exists r :: 0 <= r < |messages| && !e.phases[r].Returned? {
      var s := NeverStuck(e, false || Fails(steps));
    }
    if SomeMessage(messages) && !e.aborted {
      var q :| 0 <= q < |messages| && messages[q] != "";
      assert SoundAt(e, q);
    }
  }

  // Until the world is down or all have returned, some rank can go on by
  // itself, with no wait running out and no failure.
  lemma NeverStuck(e: Exchange, failed: bool) returns (s: Step)
    requires Sound(e, failed) && !e.aborted
    requires exists r :: 0 <= r < |e.phases| && !e.phases[r].Returned?
    ensures Enabled(e, s) && (s.Enter? || s.FinishCounts? || s.FinishTexts?)
  {
    if !AllIn(e) {
      var q :| 0 <= q < |e.phases| && e.phases[q].Entering?;
      s := Enter(q);
    } else if exists q :: 0 <= q < |e.phases| && e.phases[q].First? {
      var q :| 0 <= q < |e.phases| && e.phases[q].First?;
      s := FinishCounts(q);
    } else {
      var q :| 0 <= q < |e.phases| && !e.phases[q].Returned?;
      assert SoundAt(e, q);
      forall p | 0 <= p < |e.phases|
        ensures e.phases[p].Second?
      {
        assert SoundAt(e, p);
      }
      s := FinishTexts(q);
    }
  }

  // A rank with an error that has entered never depends on its peers to get
  // out: whatever they do, it can give up.
  lemma MessageHolderCanAlwaysLeave(group: Group, messages: seq<string>, steps: seq<Step>, r: nat)
    requires IsRun(Start(group, messages), steps) && r < |messages| && messages[r] != ""
    ensures var e := After(Start(group, messages), steps);
      e.aborted || Enabled(e, Enter(r)) || Enabled(e, GiveUp(r))
  {
    NoReturnWithAMessage(group, messages, steps, r);
    StartIsSound(group, messages);
    RunIsSound(Start(group, messages), steps, false);
  }

  // When the last wait of a rank is over, every rank has posted its block, so
  // what PrintReport reads out of the buffer is the report the step prints.
  lemma AllBlocksPosted(group: Group, messages: seq<string>, steps: seq<Step>, r: nat)
    requires IsRun(Start(group, messages), steps)
    requires Enabled(After(Start(group, messages), steps), FinishTexts(r))
    ensures var e := After(Start(group, messages), steps);
      Posted(messages, e.blocks, e.phases[r].width) && e.phases[r].counts == Counts(messages)
  {
    StartIsSound(group, messages);
    RunIsSound(Start(group, messages), steps, false);
    var e := After(Start(group, messages), steps);
    hide After, IsRun, Start, Counts, Widest, Block, Left, Fails;
    assert SoundAt(e, r);
    forall q | 0 <= q < |messages|
      ensures Count(messages[q]) <= e.phases[r].width && e.blocks[q] == Block(messages[q], e.phases[r].width)
    {
      assert SoundAt(e, q);
    }
  }

  // The rank printed in front of a text is the world rank of its sender.
  lemma LinesNameTheSender(requested: int, size: nat, index: int, messages: seq<string>, src: nat)
    requires size > 0 && Divides(requested, size) && 0 <= index < CalculatorSplit.Count(Bind(requested, 0, size))
    requires |messages| == Bind(requested, 0, size).ranks && src < |messages|
    ensures var rank := Own(Bind(requested, 0, size).(index := index), messages, src).worldRank;
      0 <= rank < size && Bind(requested, rank, size).index == index && Bind(requested, rank, size).rankInGroup == src
  {
    PairToRankAndBack(requested, size, index, src);
  }
}
