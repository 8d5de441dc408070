/** The browser's client of the engine worker (web/src/lib/engine.ts) as a transition system: any
    number of overlapping analyses and aborts against a worker that answers every go with its info
    lines and then one bestmove, in order. */
module EngineClient {
  import opened Text
  import opened Sorting

  /** A parsed info line; the score is relative to the side to move. */
  datatype Info = Info(depth: int, multipv: int, cp: Option<int>, mate: Option<int>, pv: seq<string>)

  datatype Line = InfoLine(info: Info) | BestMove | OtherLine

  datatype Score = Score(cp: Option<int>, mate: Option<int>, depth: int, pv: seq<string>, bestMove: Option<string>)

  function Signed(v: Option<int>, black: bool): Option<int> {
    match v case None => None case Some(n) => Some(if black then -n else n)
  }

  /** From White's point of view. */
  function ToScore(info: Info, black: bool): Score {
    Score(Signed(info.cp, black), Signed(info.mate, black), info.depth, info.pv,
          if info.pv == [] then None else Some(info.pv[0]))
  }

  /** What a listener keeps of a line. */
  function Hear(byLine: map<int, Info>, line: Line): map<int, Info> {
    if line.InfoLine? && line.info.pv != [] then byLine[line.info.multipv := line.info] else byLine
  }

  /** What a listener keeps of lines. */
  function HearAll(lines: seq<Line>): map<int, Info> {
    if lines == [] then map[] else Hear(HearAll(lines[..|lines| - 1]), lines[|lines| - 1])
  }

  /** Line i is an info line with moves for the line number k. */
  predicate Names(lines: seq<Line>, i: nat, k: int) {
    i < |lines| && lines[i].InfoLine? && lines[i].info.pv != [] && lines[i].info.multipv == k
  }

  /** ... and no later line is. */
  ghost predicate LastNamed(lines: seq<Line>, i: nat, k: int) {
    Names(lines, i, k) && forall j :: i < j < |lines| ==> !Names(lines, j, k)
  }

  /** For every line number that was named with moves, the last such info and no other. */
  ghost predicate KeepsLast(lines: seq<Line>, byLine: map<int, Info>) {
    && (forall k :: k in byLine ==> exists i: nat :: LastNamed(lines, i, k))
    && (forall i: nat, k: int :: LastNamed(lines, i, k) ==> k in byLine && byLine[k] == lines[i].info)
  }

  predicate IntLe(a: int, b: int) { a <= b }

  /** The scores in the order of their line numbers. */
  ghost function Ordered(byLine: map<int, Info>, black: bool): seq<Score> {
    InOrderElements(byLine.Keys, IntLe);
    var keys := InOrder(byLine.Keys, IntLe);
    seq(|keys|, i requires 0 <= i < |keys| => ToScore(byLine[keys[i]], black))
  }

  // ---------- states ----------

  /** A search in progress: its call, the number of its go, and what its listener has kept. */
  datatype Running = Running(call: nat, go: nat, byLine: map<int, Info>)

  datatype Command = Stop | Go(go: nat)

  /** How a call was resolved: unstarted because it was aborted, or by a search. */
  datatype Outcome = Unstarted | Searched(go: nat, byLine: map<int, Info>)

  datatype State = State(
    chain: seq<nat>,                     // calls waiting for their turn
    running: Option<Running>,
    calls: set<nat>,                     // every call made so far
    aborted: set<nat>,
    results: map<nat, Outcome>,
    toWorker: seq<Command>,
    search: Option<nat>,                 // the go the worker is working on
    outbox: seq<(nat, Line)>,            // lines on their way back, with the go they answer
    goes: nat,
    emitted: map<nat, seq<Line>>)        // everything the worker ever said for a go

  function Opened(): State {
    State([], None, {}, {}, map[], [], None, [], 0, map[])
  }

  datatype Step =
    | Analyze(call: nat)
    | Begin                              // the next analysis takes its turn
    | Abort(call: nat)
    | WorkerReads                        // the worker takes a command
    | WorkerSays(line: Line)
    | Deliver                            // a line reaches the page

  predicate Enabled(s: State, step: Step) {
    match step
    case Analyze(call) => call !in s.calls
    case Begin => s.running.None? && s.chain != []
    case Abort(call) => call in s.calls
    case WorkerReads => s.toWorker != []
    case WorkerSays(line) => s.search.Some?
    case Deliver => s.outbox != []
  }

  function Apply(s: State, step: Step): State
    requires Enabled(s, step)
  {
    match step
    case Analyze(call) =>
      s.(calls := s.calls + {call}, toWorker := s.toWorker + [Stop], chain := s.chain + [call])
    case Begin =>
      var call, rest := s.chain[0], s.chain[1..];
      if call in s.aborted then s.(chain := rest, results := s.results[call := Unstarted])
      else
        s.(chain := rest, running := Some(Running(call, s.goes, map[])), toWorker := s.toWorker + [Go(s.goes)],
           goes := s.goes + 1, emitted := s.emitted[s.goes := []])
    case Abort(call) =>
      var listening := s.running.Some? && s.running.value.call == call && call !in s.aborted;
      s.(aborted := s.aborted + {call}, toWorker := if listening then s.toWorker + [Stop] else s.toWorker)
    case WorkerReads =>
      var cmd := s.toWorker[0];
      s.(toWorker := s.toWorker[1..], search := if cmd.Go? then Some(cmd.go) else s.search)
    case WorkerSays(line) =>
      var g := s.search.value;
      s.(outbox := s.outbox + [(g, line)], search := if line.BestMove? then None else s.search,
         emitted := s.emitted[g := (if g in s.emitted then s.emitted[g] else []) + [line]])
    case Deliver =>
      var line := s.outbox[0].1;
      var s1 := s.(outbox := s.outbox[1..]);
      if s.running.None? then s1
      else
        var run := s.running.value;
        if line.BestMove? then
          s1.(running := None, results := s.results[run.call := Searched(run.go, run.byLine)])
        else s1.(running := Some(run.(byLine := Hear(run.byLine, line))))
  }

  ghost predicate IsRun(steps: seq<Step>, states: seq<State>) {
    && |states| == |steps| + 1 && states[0] == Opened()
    && forall i :: 0 <= i < |steps| ==> Enabled(states[i], steps[i]) && states[i + 1] == Apply(states[i], steps[i])
  }

  // ---------- invariants ----------

  function GoesIn(cmds: seq<Command>): nat {
    if cmds == [] then 0 else (if cmds[0].Go? then 1 else 0) + GoesIn(cmds[1..])
  }

  lemma {:induction false} GoesAppend(a: seq<Command>, b: seq<Command>)
    ensures GoesIn(a + b) == GoesIn(a) + GoesIn(b)
  {
    if a == [] {
      assert a + b == b;
    } else {
      assert (a + b)[1..] == a[1..] + b;
      GoesAppend(a[1..], b);
    }
  }

  lemma {:induction false} NoGoes(cmds: seq<Command>)
    ensures GoesIn(cmds) == 0 <==> forall i :: 0 <= i < |cmds| ==> cmds[i].Stop?
  {
    if cmds == [] {
    } else {
      NoGoes(cmds[1..]);
    }
  }

  function LinesOf(outbox: seq<(nat, Line)>): (lines: seq<Line>)
    ensures |lines| == |outbox|
    ensures forall i :: 0 <= i < |outbox| ==> lines[i] == outbox[i].1
  {
    seq(|outbox|, i requires 0 <= i < |outbox| => outbox[i].1)
  }

  /** How many goes the worker still has to answer, up to the arrival of the bestmove. */
  function Outstanding(s: State): nat {
    GoesIn(s.toWorker) + (if s.search.Some? then 1 else 0)
    + (if s.outbox != [] && s.outbox[|s.outbox| - 1].1.BestMove? then 1 else 0)
  }

  /** Nothing is under way between searches. */
  ghost predicate Quiet(s: State) {
    GoesIn(s.toWorker) == 0 && s.search == None && s.outbox == []
  }

  /** The whole traffic belongs to the running search: its go is unread, or being answered, or
      answered up to a last bestmove that is on its way. */
  ghost predicate Traffic(s: State, run: Running) {
    && run.go < s.goes && run.go in s.emitted
    && (forall i :: 0 <= i < |s.toWorker| && s.toWorker[i].Go? ==> s.toWorker[i].go == run.go)
    && (s.search.Some? ==> s.search.value == run.go)
    && (forall i :: 0 <= i < |s.outbox| ==> s.outbox[i].0 == run.go)
    && (forall i :: 0 <= i < |s.outbox| - 1 ==> !s.outbox[i].1.BestMove?)
    && Outstanding(s) == 1
    && (GoesIn(s.toWorker) == 1 ==> s.outbox == [] && s.emitted[run.go] == [])
  }

  /** The listener has kept what was said for its go, up to what is still on its way. */
  ghost predicate Heard(s: State, run: Running)
    requires run.go in s.emitted
  {
    HeardBut(s.emitted[run.go], LinesOf(s.outbox), run.byLine)
  }

  ghost predicate HeardBut(said: seq<Line>, underWay: seq<Line>, byLine: map<int, Info>) {
    && |underWay| <= |said| && underWay == said[|said| - |underWay|..]
    && byLine == HearAll(said[..|said| - |underWay|])
    && (forall i :: 0 <= i < |said| - |underWay| ==> !said[i].BestMove?)
  }

  /** Everything the worker said for a finished go: some lines and one bestmove at the end. */
  predicate Complete(said: seq<Line>) {
    said != [] && said[|said| - 1].BestMove? && forall i :: 0 <= i < |said| - 1 ==> !said[i].BestMove?
  }

  /** Every result comes from a search of its own, and from all that was said for it. */
  ghost predicate ResultsOwn(s: State) {
    && (forall c :: c in s.results && s.results[c].Searched? ==>
          var g := s.results[c].go;
          && g < s.goes && g in s.emitted && Complete(s.emitted[g])
          && s.results[c].byLine == HearAll(s.emitted[g])
          && (s.running.Some? ==> g != s.running.value.go))
    && (forall c, d :: (c in s.results && d in s.results && s.results[c].Searched? && s.results[d].Searched?
                        && s.results[c].go == s.results[d].go) ==> c == d)
    && (forall g :: g in s.emitted ==> g < s.goes)
  }

  /** A call waits once, or runs, or has its result. */
  ghost predicate CallsOnce(s: State) {
    && (forall i :: 0 <= i < |s.chain| ==> s.chain[i] in s.calls && s.chain[i] !in s.results)
    && (forall i, j :: 0 <= i < j < |s.chain| ==> s.chain[i] != s.chain[j])
    && (s.running.Some? ==> s.running.value.call in s.calls && s.running.value.call !in s.results
                            && s.running.value.call !in s.chain)
    && (forall c :: c in s.results ==> c in s.calls)
    && (forall c :: c in s.calls ==> c in s.chain || c in s.results || (s.running.Some? && s.running.value.call == c))
  }

  ghost predicate Inv(s: State) {
    && (match s.running
        case None => Quiet(s)
        case Some(run) => Traffic(s, run) && Heard(s, run))
    && ResultsOwn(s) && CallsOnce(s)
  }

  // ---------- every step keeps them ----------

  lemma CallsStep(s: State, step: Step)
    requires CallsOnce(s) && Enabled(s, step)
    ensures CallsOnce(Apply(s, step))
  {
    match step
    case Begin => CallsBegin(s);
    case Analyze(call) => CallsAnalyze(s, call);
    case Deliver => CallsDeliver(s);
    case _ =>
  }

  lemma CallsBegin(s: State)
    requires CallsOnce(s) && Enabled(s, Begin)
    ensures CallsOnce(Apply(s, Begin))
  {
    assert s.chain == [s.chain[0]] + s.chain[1..];
  }

  lemma CallsAnalyze(s: State, call: nat)
    requires CallsOnce(s) && Enabled(s, Analyze(call))
    ensures CallsOnce(Apply(s, Analyze(call)))
  {
    var s' := Apply(s, Analyze(call));
    forall c | c in s'.calls
      ensures c in s'.chain || c in s'.results || (s'.running.Some? && s'.running.value.call == c)
    {
      if c == call { assert s'.chain[|s.chain|] == call; }
    }
  }

  lemma CallsDeliver(s: State)
    requires CallsOnce(s) && Enabled(s, Deliver)
    ensures CallsOnce(Apply(s, Deliver))
  {
  }

  /** A stop on its way to the worker changes nothing. */
  lemma StopKeeps(s: State, s': State)
    requires Inv(s) && (s'.toWorker == s.toWorker || s'.toWorker == s.toWorker + [Stop])
    requires s'.running == s.running && s'.search == s.search && s'.outbox == s.outbox
    requires s'.goes == s.goes && s'.emitted == s.emitted
    ensures match s'.running case None => Quiet(s') case Some(run) => Traffic(s', run) && Heard(s', run)
  {
    GoesAppend(s.toWorker, [Stop]);
    assert GoesIn([Stop]) == 0 && GoesIn(s'.toWorker) == GoesIn(s.toWorker);
  }

  lemma TrafficAnalyze(s: State, call: nat)
    requires Inv(s) && Enabled(s, Analyze(call))
    ensures var s' := Apply(s, Analyze(call));
      match s'.running case None => Quiet(s') case Some(run) => Traffic(s', run) && Heard(s', run)
  {
    StopKeeps(s, Apply(s, Analyze(call)));
  }

  lemma TrafficAbort(s: State, call: nat)
    requires Inv(s) && Enabled(s, Abort(call))
    ensures var s' := Apply(s, Abort(call));
      match s'.running case None => Quiet(s') case Some(run) => Traffic(s', run) && Heard(s', run)
  {
    StopKeeps(s, Apply(s, Abort(call)));
  }

  lemma TrafficBegin(s: State)
    requires Inv(s) && Enabled(s, Begin)
    ensures var s' := Apply(s, Begin);
      match s'.running case None => Quiet(s') case Some(run) => Traffic(s', run) && Heard(s', run)
  {
    GoesAppend(s.toWorker, [Go(s.goes)]);
    assert GoesIn([Go(s.goes)]) == 1;
    NoGoes(s.toWorker);
    OnlyNewGo(s.toWorker, s.goes);
  }

  lemma OnlyNewGo(cmds: seq<Command>, g: nat)
    requires forall i :: 0 <= i < |cmds| ==> cmds[i].Stop?
    ensures forall i :: 0 <= i < |cmds + [Go(g)]| && (cmds + [Go(g)])[i].Go? ==> (cmds + [Go(g)])[i].go == g
  {
  }

  lemma TrafficReads(s: State)
    requires Inv(s) && Enabled(s, WorkerReads)
    ensures var s' := Apply(s, WorkerReads);
      match s'.running case None => Quiet(s') case Some(run) => Traffic(s', run) && Heard(s', run)
  {
    match s.running
    case None => assert s.toWorker[0].Stop?;
    case Some(run) =>
      ReadsKeepTraffic(s, run);
      assert Heard(Apply(s, WorkerReads), run);
  }

  lemma ReadsKeepTraffic(s: State, run: Running)
    requires Traffic(s, run) && s.toWorker != []
    ensures Traffic(Apply(s, WorkerReads), run)
  {
    var s', cmd := Apply(s, WorkerReads), s.toWorker[0];
    assert GoesIn(s.toWorker) == (if cmd.Go? then 1 else 0) + GoesIn(s'.toWorker);
    forall i | 0 <= i < |s'.toWorker| && s'.toWorker[i].Go? ensures s'.toWorker[i].go == run.go {
      assert s.toWorker[i + 1] == s'.toWorker[i];
    }
  }

  /** The worker never receives a go while it is searching. */
  lemma WorkerIsFree(s: State)
    requires Inv(s) && s.toWorker != [] && s.toWorker[0].Go?
    ensures s.search == None && s.outbox == []
  {
  }

  lemma TrafficSays(s: State, line: Line)
    requires Inv(s) && Enabled(s, WorkerSays(line))
    ensures var s' := Apply(s, WorkerSays(line));
      match s'.running case None => Quiet(s') case Some(run) => Traffic(s', run) && Heard(s', run)
  {
    var s', run := Apply(s, WorkerSays(line)), s.running.value;
    var said, said' := s.emitted[run.go], s'.emitted[run.go];
    assert said' == said + [line];
    var n := |said| - |s.outbox|;
    assert said'[..n] == said[..n];
    assert LinesOf(s'.outbox) == LinesOf(s.outbox) + [line];
    assert said'[n..] == said[n..] + [line];
  }

  lemma TrafficDeliver(s: State)
    requires Inv(s) && Enabled(s, Deliver)
    ensures var s' := Apply(s, Deliver);
      match s'.running case None => Quiet(s') case Some(run) => Traffic(s', run) && Heard(s', run)
  {
    if s.outbox[0].1.BestMove? { DeliverBest(s); } else { DeliverInfo(s, s.running.value); }
  }

  /** Nothing follows a bestmove. */
  lemma DeliverBest(s: State)
    requires Inv(s) && Enabled(s, Deliver) && s.outbox[0].1.BestMove?
    ensures Apply(s, Deliver).running == None && Quiet(Apply(s, Deliver))
  {
    assert |s.outbox| == 1;
  }

  lemma DeliverInfo(s: State, run: Running)
    requires Traffic(s, run) && Heard(s, run) && s.running == Some(run)
    requires Enabled(s, Deliver) && !s.outbox[0].1.BestMove?
    ensures var s', run' := Apply(s, Deliver), run.(byLine := Hear(run.byLine, s.outbox[0].1));
      s'.running == Some(run') && Traffic(s', run') && Heard(s', run')
  {
    var s' := Apply(s, Deliver);
    InfoKeepsTraffic(s, s', run);
    InfoIsHeard(s, s', run);
  }

  lemma InfoKeepsTraffic(s: State, s': State, run: Running)
    requires Traffic(s, run) && s.outbox != [] && !s.outbox[0].1.BestMove?
    requires s' == s.(outbox := s.outbox[1..], running := s'.running)
    ensures forall run': Running :: run'.go == run.go ==> Traffic(s', run')
  {
    if s'.outbox != [] { assert s'.outbox[|s'.outbox| - 1] == s.outbox[|s.outbox| - 1]; }
  }

  lemma InfoIsHeard(s: State, s': State, run: Running)
    requires run.go in s.emitted && Heard(s, run) && s.outbox != [] && !s.outbox[0].1.BestMove?
    requires s' == s.(outbox := s.outbox[1..], running := s'.running)
    ensures Heard(s', run.(byLine := Hear(run.byLine, s.outbox[0].1)))
  {
    assert LinesOf(s'.outbox) == LinesOf(s.outbox)[1..];
    HearOne(s.emitted[run.go], LinesOf(s.outbox), run.byLine);
  }

  lemma HearOne(said: seq<Line>, underWay: seq<Line>, byLine: map<int, Info>)
    requires HeardBut(said, underWay, byLine) && underWay != [] && !underWay[0].BestMove?
    ensures HeardBut(said, underWay[1..], Hear(byLine, underWay[0]))
  {
    var n := |said| - |underWay|;
    assert said[n] == said[n..][0] && said[n + 1..] == said[n..][1..];
    assert said[..n + 1][..n] == said[..n];
  }

  lemma ResultsStep(s: State, step: Step)
    requires Inv(s) && Enabled(s, step)
    ensures ResultsOwn(Apply(s, step))
  {
    match step
    case Deliver => ResultsDeliver(s);
    case _ =>
  }

  lemma ResultsDeliver(s: State)
    requires Inv(s) && Enabled(s, Deliver)
    ensures ResultsOwn(Apply(s, Deliver))
  {
    var run := s.running.value;
    var said := s.emitted[run.go];
    var n := |said| - |s.outbox|;
    if s.outbox[0].1.BestMove? {
      assert |s.outbox| == 1;
      assert LinesOf(s.outbox) == said[n..] && LinesOf(s.outbox)[0] == s.outbox[0].1;
      assert said[n] == said[n..][0];
      assert Complete(said) && HearAll(said) == Hear(HearAll(said[..n]), said[n]);
    }
  }

  lemma StepInv(s: State, step: Step)
    requires Inv(s) && Enabled(s, step)
    ensures Inv(Apply(s, step))
  {
    CallsStep(s, step);
    ResultsStep(s, step);
    match step
    case Analyze(call) => TrafficAnalyze(s, call);
    case Begin => TrafficBegin(s);
    case Abort(call) => TrafficAbort(s, call);
    case WorkerReads => TrafficReads(s);
    case WorkerSays(line) => TrafficSays(s, line);
    case Deliver => TrafficDeliver(s);
  }

  lemma {:induction false} RunInv(steps: seq<Step>, states: seq<State>, i: nat)
    requires IsRun(steps, states) && i < |states|
    ensures Inv(states[i])
  {
    if i == 0 {
    } else {
      RunInv(steps, states, i - 1);
      assert Enabled(states[i - 1], steps[i - 1]) && states[i] == Apply(states[i - 1], steps[i - 1]);
      StepInv(states[i - 1], steps[i - 1]);
    }
  }

  /** In every state of every run exactly one go is outstanding while an analysis runs and none
      otherwise, the worker never gets a go while it searches, and every result holds, for every line
      number, the last info with moves that the worker said for a search of its own. */
  lemma ClientSafety(steps: seq<Step>, states: seq<State>, i: nat)
    requires IsRun(steps, states) && i < |states|
    ensures var s := states[i];
      && Outstanding(s) == (if s.running.Some? then 1 else 0)
      && (s.toWorker != [] && s.toWorker[0].Go? ==> s.search == None)
      && (forall c :: c in s.results && s.results[c].Searched? ==>
            var g := s.results[c].go;
            g in s.emitted && Complete(s.emitted[g]) && KeepsLast(s.emitted[g], s.results[c].byLine))
      && (forall c, d :: (c in s.results && d in s.results && s.results[c].Searched? && s.results[d].Searched?
                          && s.results[c].go == s.results[d].go) ==> c == d)
      && (forall c :: c in s.calls ==> c in s.chain || c in s.results || (s.running.Some? && s.running.value.call == c))
  {
    RunInv(steps, states, i);
    var s := states[i];
    if s.toWorker != [] && s.toWorker[0].Go? { WorkerIsFree(s); }
    forall c | c in s.results && s.results[c].Searched?
      ensures KeepsLast(s.emitted[s.results[c].go], s.results[c].byLine)
    {
      HearsLast(s.emitted[s.results[c].go]);
    }
  }

  /** A listener keeps the last info of every line number. */
  lemma {:induction false} HearsLast(lines: seq<Line>)
    ensures KeepsLast(lines, HearAll(lines))
  {
    if lines == [] {
    } else {
      HearsLast(lines[..|lines| - 1]);
      KeepsOneMore(lines[..|lines| - 1], lines[|lines| - 1], HearAll(lines[..|lines| - 1]));
      assert lines == lines[..|lines| - 1] + [lines[|lines| - 1]];
    }
  }

  lemma KeepsOneMore(lines: seq<Line>, line: Line, byLine: map<int, Info>)
    requires KeepsLast(lines, byLine)
    ensures KeepsLast(lines + [line], Hear(byLine, line))
  {
    var all, byLine' := lines + [line], Hear(byLine, line);
    forall i: nat, k: int ensures Names(all, i, k) <==> Names(lines, i, k) || (i == |lines| && Names([line], 0, k)) {}
    forall k | k in byLine' ensures exists i: nat :: LastNamed(all, i, k) {
      if Names([line], 0, k) {
        assert LastNamed(all, |lines|, k);
      } else {
        var i: nat :| LastNamed(lines, i, k);
        assert LastNamed(all, i, k);
      }
    }
    forall i: nat, k: int | LastNamed(all, i, k) ensures k in byLine' && byLine'[k] == all[i].info {
      if i < |lines| {
        assert !Names(all, |lines|, k);
        assert LastNamed(lines, i, k);
      }
    }
  }

  // ---------- turns and aborts ----------

  lemma RunStep(steps: seq<Step>, states: seq<State>, i: nat)
    requires IsRun(steps, states) && i < |steps|
    ensures Enabled(states[i], steps[i]) && states[i + 1] == Apply(states[i], steps[i])
  {
  }

  lemma RunCalls(steps: seq<Step>, states: seq<State>, i: nat)
    requires IsRun(steps, states) && i < |states|
    ensures CallsOnce(states[i]) && (states[i].running.Some? ==> states[i].running.value.go < states[i].goes)
  {
    RunInv(steps, states, i);
  }

  predicate Runs(s: State, call: nat) {
    s.running.Some? && s.running.value.call == call
  }

  /** c has its result, or d still waits behind it. */
  ghost predicate Ahead(s: State, c: nat, d: nat) {
    || c in s.results
    || (Runs(s, c) && d in s.chain)
    || (exists i, j :: 0 <= i < j < |s.chain| && s.chain[i] == c && s.chain[j] == d)
  }

  lemma AheadStep(s: State, step: Step, c: nat, d: nat)
    requires Ahead(s, c, d) && Enabled(s, step)
    ensures Ahead(Apply(s, step), c, d)
  {
    var s' := Apply(s, step);
    if i, j :| 0 <= i < j < |s.chain| && s.chain[i] == c && s.chain[j] == d {
      match step
      case Begin =>
        assert s'.chain[j - 1] == d;
        if i > 0 { assert s'.chain[i - 1] == c; }
      case _ => assert s'.chain[i] == c && s'.chain[j] == d;
    }
  }

  /** Calls are served in the order in which they came. */
  lemma {:induction false} ServedInOrder(
    steps: seq<Step>, states: seq<State>, i: nat, j: nat, n: nat, c: nat, d: nat)
    requires IsRun(steps, states) && i < j < n < |states| && steps[i] == Analyze(c) && steps[j] == Analyze(d)
    ensures Ahead(states[n], c, d)
    ensures Runs(states[n], d) || d in states[n].results ==> c in states[n].results
    decreases n
  {
    if n == j + 1 {
      Queued(steps, states, i, j, c, d);
    } else {
      ServedInOrder(steps, states, i, j, n - 1, c, d);
      RunStep(steps, states, n - 1);
      AheadStep(states[n - 1], steps[n - 1], c, d);
    }
    RunCalls(steps, states, n);
    AheadDone(states[n], c, d);
  }

  lemma AheadDone(s: State, c: nat, d: nat)
    requires CallsOnce(s) && Ahead(s, c, d)
    ensures Runs(s, d) || d in s.results ==> c in s.results
  {
  }

  lemma Queued(steps: seq<Step>, states: seq<State>, i: nat, j: nat, c: nat, d: nat)
    requires IsRun(steps, states) && i < j < |steps| && steps[i] == Analyze(c) && steps[j] == Analyze(d)
    ensures Ahead(states[j + 1], c, d)
  {
    RunStep(steps, states, i);
    CallsStay(steps, states, i + 1, j, c);
    RunCalls(steps, states, j);
    RunStep(steps, states, j);
    LastInChain(states[j], c, d);
  }

  lemma LastInChain(s: State, c: nat, d: nat)
    requires CallsOnce(s) && c in s.calls && Enabled(s, Analyze(d))
    ensures Ahead(Apply(s, Analyze(d)), c, d)
  {
    var s' := Apply(s, Analyze(d));
    assert s'.chain[|s.chain|] == d;
    if c in s.chain {
      var i :| 0 <= i < |s.chain| && s.chain[i] == c;
      assert s'.chain[i] == c;
    }
  }

  lemma {:induction false} CallsStay(steps: seq<Step>, states: seq<State>, i: nat, j: nat, c: nat)
    requires IsRun(steps, states) && i <= j < |states| && c in states[i].calls
    ensures c in states[j].calls
    decreases j
  {
    if i == j {
    } else {
      CallsStay(steps, states, i, j - 1, c);
      RunStep(steps, states, j - 1);
    }
  }

  /** Aborted, and not searched for: it waits, or it was resolved without a search. */
  ghost predicate PassedOver(s: State, c: nat) {
    && c in s.aborted && !Runs(s, c) && (c in s.chain || c in s.results)
    && (c in s.results ==> s.results[c] == Unstarted)
  }

  /** A call that is aborted while it waits is never searched for. */
  lemma {:induction false} AbortedNeverStarts(steps: seq<Step>, states: seq<State>, i: nat, j: nat, c: nat)
    requires IsRun(steps, states) && i <= j < |states| && c in states[i].chain && c in states[i].aborted
    ensures PassedOver(states[j], c)
    decreases j
  {
    if i == j {
      RunCalls(steps, states, i);
      WaitingPassedOver(states[i], c);
    } else {
      AbortedNeverStarts(steps, states, i, j - 1, c);
      PassedOverOn(steps, states, j - 1, c);
    }
  }

  lemma PassedOverOn(steps: seq<Step>, states: seq<State>, n: nat, c: nat)
    requires IsRun(steps, states) && n < |steps| && n + 1 < |states| && PassedOver(states[n], c)
    ensures PassedOver(states[n + 1], c)
  {
    RunCalls(steps, states, n);
    RunStep(steps, states, n);
    PassedOverStep(states[n], steps[n], c);
  }

  lemma WaitingPassedOver(s: State, c: nat)
    requires CallsOnce(s) && c in s.chain && c in s.aborted
    ensures PassedOver(s, c)
  {
  }

  lemma PassedOverStep(s: State, step: Step, c: nat)
    requires CallsOnce(s) && Enabled(s, step) && PassedOver(s, c)
    ensures PassedOver(Apply(s, step), c)
  {
    if step.Begin? { assert s.chain == [s.chain[0]] + s.chain[1..]; }
  }

  /** Only an aborted call ends without a search. */
  lemma {:induction false} UnstartedWasAborted(steps: seq<Step>, states: seq<State>, i: nat)
    requires IsRun(steps, states) && i < |states|
    ensures forall c :: c in states[i].results && states[i].results[c] == Unstarted ==> c in states[i].aborted
  {
    if i == 0 {
    } else {
      UnstartedWasAborted(steps, states, i - 1);
      RunStep(steps, states, i - 1);
    }
  }

  /** The worker took a stop at the n-th step, as the last of what was on its way. */
  predicate StopRead(steps: seq<Step>, states: seq<State>, n: nat)
    requires n < |steps| && |states| == |steps| + 1
  {
    steps[n] == WorkerReads && states[n].toWorker == [Stop]
  }

  ghost predicate StopReadBetween(steps: seq<Step>, states: seq<State>, i: nat, j: nat)
    requires i <= j <= |steps| && |states| == |steps| + 1
  {
    exists n :: i <= n < j && StopRead(steps, states, n)
  }

  /** While the search runs, the last command on its way to the worker is a stop. */
  predicate StopLast(s: State, go: nat) {
    s.running.Some? && s.running.value.go == go ==> s.toWorker != [] && s.toWorker[|s.toWorker| - 1] == Stop
  }

  /** A call comes while the search runs, or its own call is aborted. */
  predicate AsksToStop(s: State, step: Step, go: nat) {
    && s.running.Some? && s.running.value.go == go
    && (step.Analyze? || (step == Abort(s.running.value.call) && s.running.value.call !in s.aborted))
  }

  lemma StopComes(s: State, step: Step, go: nat)
    requires Enabled(s, step) && AsksToStop(s, step, go)
    ensures StopLast(Apply(s, step), go) && Apply(s, step).goes == s.goes
  {
  }

  lemma StopStays(s: State, step: Step, go: nat)
    requires Enabled(s, step) && go < s.goes && StopLast(s, go)
    ensures StopLast(Apply(s, step), go) || (step == WorkerReads && s.toWorker == [Stop])
    ensures Apply(s, step).goes >= s.goes
  {
  }

  /** Since step i a stop is the last command on its way while the search runs, or the worker took it. */
  ghost predicate StopOrTaken(steps: seq<Step>, states: seq<State>, i: nat, j: nat, go: nat)
    requires i <= j <= |steps| && |states| == |steps| + 1
  {
    go < states[j].goes && (StopLast(states[j], go) || StopReadBetween(steps, states, i, j))
  }

  lemma StopOneMore(steps: seq<Step>, states: seq<State>, i: nat, j: nat, go: nat)
    requires IsRun(steps, states) && i <= j < |steps| && StopOrTaken(steps, states, i, j, go)
    ensures StopOrTaken(steps, states, i, j + 1, go)
  {
    RunStep(steps, states, j);
    if StopLast(states[j], go) {
      StopStays(states[j], steps[j], go);
      assert steps[j] == WorkerReads && states[j].toWorker == [Stop] ==> StopRead(steps, states, j);
    } else {
      var n :| i <= n < j && StopRead(steps, states, n);
      assert StopRead(steps, states, n);
    }
  }

  /** A newer call, or the abort of the running one, asks the running search to stop: as long as it
      runs, a stop is the last command on its way, or the worker has taken it. */
  lemma {:induction false} StopIsSent(steps: seq<Step>, states: seq<State>, i: nat, j: nat, go: nat)
    requires IsRun(steps, states) && i < j < |states| && AsksToStop(states[i], steps[i], go)
    ensures StopOrTaken(steps, states, i, j, go)
    decreases j
  {
    if j == i + 1 {
      RunStep(steps, states, i);
      RunCalls(steps, states, i);
      StopComes(states[i], steps[i], go);
    } else {
      StopIsSent(steps, states, i, j - 1, go);
      StopOneMore(steps, states, i, j - 1, go);
    }
  }

  // ---------- the order of the result ----------

  lemma IntOrder()
    ensures TotalOrder(IntLe)
  {
  }

  lemma {:induction false} HearKeys(lines: seq<Line>)
    ensures forall k :: k in HearAll(lines) <==>
      exists i :: 0 <= i < |lines| && lines[i].InfoLine? && lines[i].info.pv != [] && lines[i].info.multipv == k
    ensures forall k :: k in HearAll(lines) ==> HearAll(lines)[k].multipv == k && HearAll(lines)[k].pv != []
  {
    if lines == [] {
    } else {
      var init, last := lines[..|lines| - 1], lines[|lines| - 1];
      HearKeys(init);
      forall k ensures k in HearAll(lines) <==>
        exists i :: 0 <= i < |lines| && lines[i].InfoLine? && lines[i].info.pv != [] && lines[i].info.multipv == k
      {
        if k in HearAll(init) {
          var i :| 0 <= i < |init| && init[i].InfoLine? && init[i].info.pv != [] && init[i].info.multipv == k;
          assert lines[i] == init[i];
        }
        if last.InfoLine? && last.info.pv != [] && last.info.multipv == k { assert lines[|lines| - 1] == last; }
        if i :| 0 <= i < |lines| && lines[i].InfoLine? && lines[i].info.pv != [] && lines[i].info.multipv == k {
          if i < |init| { assert init[i] == lines[i]; }
        }
      }
    }
  }

  /** An evaluation for the side to move, told from White's point of view. */
  predicate FromWhite(info: Info, black: bool, score: Score) {
    && score.cp == (if black && info.cp.Some? then Some(0 - info.cp.value) else info.cp)
    && score.mate == (if black && info.mate.Some? then Some(0 - info.mate.value) else info.mate)
    && score.depth == info.depth && score.pv == info.pv
    && (score.bestMove.Some? <==> info.pv != []) && (info.pv != [] ==> score.bestMove.value == info.pv[0])
  }

  /** The result lists one score for every line number that was heard, in increasing order. */
  lemma OrderedByLine(byLine: map<int, Info>, black: bool) returns (keys: seq<int>)
    ensures forall k :: k in keys <==> k in byLine
    ensures forall i, j :: 0 <= i < j < |keys| ==> keys[i] < keys[j]
    ensures |Ordered(byLine, black)| == |keys|
    ensures forall i :: 0 <= i < |keys| ==>
      keys[i] in byLine && FromWhite(byLine[keys[i]], black, Ordered(byLine, black)[i])
  {
    IntOrder();
    InOrderElements(byLine.Keys, IntLe);
    keys := InOrder(byLine.Keys, IntLe);
    StrictlyIncreasing(keys, byLine.Keys);
    forall i | 0 <= i < |keys|
      ensures keys[i] in byLine && FromWhite(byLine[keys[i]], black, Ordered(byLine, black)[i])
    {
      ScoreFromWhite(byLine[keys[i]], black);
    }
  }

  lemma ScoreFromWhite(info: Info, black: bool)
    ensures FromWhite(info, black, ToScore(info, black))
  {
  }

  lemma StrictlyIncreasing(keys: seq<int>, elements: set<int>)
    requires multiset(keys) == multiset(elements) && Sorted(keys, IntLe)
    ensures forall i, j :: 0 <= i < j < |keys| ==> keys[i] < keys[j]
  {
    forall i, j | 0 <= i < j < |keys| ensures keys[i] < keys[j] {
      if keys[i] == keys[j] { TwiceInMultiset(keys, i, j); }
      assert IntLe(keys[i], keys[j]);
    }
  }

  lemma TwiceInMultiset(keys: seq<int>, i: nat, j: nat)
    requires i < j < |keys| && keys[i] == keys[j]
    ensures multiset(keys)[keys[i]] >= 2
  {
    assert keys == keys[..i] + [keys[i]] + keys[i + 1..j] + [keys[j]] + keys[j + 1..];
  }
}
