/** `run_pass`: the collector's pass over several files whose checkpoints share one state
    file, and what that means for shipping each line once. */
module CollectorPass {
  import opened Collections
  import opened FirstReceipts
  import opened Options
  import opened LogCollector

  // ---------------------------------------------------------------------
  // Several files, one state file
  // ---------------------------------------------------------------------

  /** The state of each file; at most one is being passed at a time. */
  type Files = map<string, State>

  datatype Event =
    | At(path: string, a: Action)     // an append, or a step of the pass over this file
    | RestartAll(lost: bool)          // the process dies and starts again

  predicate OthersIdle(s: Files, path: string) {
    forall q :: q in s && q != path ==> s[q].pass.Idle?
  }

  predicate Possible(s: Files, x: Event) {
    match x
    case At(path, a) =>
      && path in s && Enabled(s[path], a) && !a.Restart? && !a.SaveElsewhere?
      && (a.Append? || OthersIdle(s, path))
    case RestartAll(_) => true
  }

  /** A save writes the checkpoints of all files. */
  function Next(batch: nat, s: Files, x: Event): Files
    requires Possible(s, x)
  {
    match x
    case At(path, a) =>
      map q | q in s ::
        if q == path then Step(batch, s[q], a)
        else if a.SaveOk? then Step(batch, s[q], SaveElsewhere)
        else s[q]
    case RestartAll(lost) => map q | q in s :: Step(batch, s[q], Restart(lost))
  }

  predicate AllRuns(batch: nat, s: Files, run: seq<Event>)
    decreases |run|
  {
    run == [] || (Possible(s, run[0]) && AllRuns(batch, Next(batch, s, run[0]), run[1..]))
  }

  function AllAfter(batch: nat, s: Files, run: seq<Event>): Files
    requires AllRuns(batch, s, run)
    decreases |run|
  {
    if run == [] then s else AllAfter(batch, Next(batch, s, run[0]), run[1..])
  }

  /** The process may die at any moment, wherever a pass stands; every file then goes on
      from its checkpoint in the state file, or from its top when that cannot be read. */
  lemma MayRestart(batch: nat, s: Files, lost: bool)
    ensures
      Possible(s, RestartAll(lost)) &&
      var t := Next(batch, s, RestartAll(lost));
      t.Keys == s.Keys && forall q :: q in s ==> t[q] == s[q].(pass := Idle, mem := if lost then 0 else s[q].disk)
  {
  }

  function AllInitial(paths: set<string>): Files {
    map q | q in paths :: Initial()
  }

  // ---------------------------------------------------------------------
  // Exactly once, for every file
  // ---------------------------------------------------------------------

  /** A restart does no harm when it does none to any file. */
  ghost predicate AllHarmless(s: Files, x: Event) {
    match x
    case At(path, a) => path in s ==> Harmless(s[path], a)
    case RestartAll(lost) => forall q :: q in s ==> Harmless(s[q], Restart(lost))
  }

  ghost predicate AllClean(batch: nat, s: Files, run: seq<Event>)
    requires AllRuns(batch, s, run)
    decreases |run|
  {
    run == [] || (AllHarmless(s, run[0]) && AllClean(batch, Next(batch, s, run[0]), run[1..]))
  }

  ghost predicate AllOnce(s: Files) {
    forall q :: q in s ==> Once(s[q]) && Inv(s[q])
  }

  lemma AllOnceStep(batch: nat, s: Files, x: Event)
    requires batch > 0 && AllOnce(s) && Possible(s, x) && AllHarmless(s, x)
    ensures AllOnce(Next(batch, s, x))
  {
    hide Once, Inv, Harmless, Step, Enabled;
    var t := Next(batch, s, x);
    forall q | q in t ensures Once(t[q]) && Inv(t[q]) {
      if x.RestartAll? {
        RestartEnabled(s[q], x.lost);
        CleanStep(batch, s[q], Restart(x.lost));
      } else if q == x.path {
        CleanStep(batch, s[q], x.a);
      } else if x.a.SaveOk? {
        ElsewhereHarmless(s[q]);
        CleanStep(batch, s[q], SaveElsewhere);
      }
    }
  }

  lemma RestartEnabled(s: State, lost: bool)
    ensures Enabled(s, Restart(lost))
  {
  }

  lemma ElsewhereHarmless(s: State)
    ensures Harmless(s, SaveElsewhere) && (s.pass.Idle? ==> Enabled(s, SaveElsewhere))
  {
  }

  lemma {:induction false} AllOnceRun(batch: nat, s: Files, run: seq<Event>)
    requires batch > 0 && AllOnce(s) && AllRuns(batch, s, run) && AllClean(batch, s, run)
    ensures AllOnce(AllAfter(batch, s, run))
    decreases |run|
  {
    if run != [] {
      hide AllOnce, Next, Possible, AllHarmless;
      AllOnceStep(batch, s, run[0]);
      AllOnceRun(batch, Next(batch, s, run[0]), run[1..]);
    }
  }

  lemma AllInitialOnce(paths: set<string>)
    ensures AllOnce(AllInitial(paths))
  {
    InitialOnce();
  }

  /** Over every run of any number of files, restarts included, in which no restart does
      harm to any of them and no ship that arrived is taken for a failure: of every file
      the lines received are, between passes, exactly those before its checkpoint, in
      order, and never one of them twice. */
  lemma AllExactlyOnce(batch: nat, paths: set<string>, run: seq<Event>, q: string)
    requires batch > 0 && AllRuns(batch, AllInitial(paths), run) && AllClean(batch, AllInitial(paths), run)
    requires q in AllAfter(batch, AllInitial(paths), run)
    ensures
      var t := AllAfter(batch, AllInitial(paths), run)[q];
      Distinct(t.received) && (t.pass.Idle? ==> Boundary(t.file, t.mem) && t.received == NonBlank(t.file, 0, t.mem))
  {
    AllInitialOnce(paths);
    AllOnceRun(batch, AllInitial(paths), run);
    OnceIsDistinct(AllAfter(batch, AllInitial(paths), run)[q]);
  }

  /** Right after a save for any one path a restart does no harm to any: the checkpoints
      of paths whose own save failed went with it. */
  lemma SavedTogether(batch: nat, s: Files, path: string)
    requires AllOnce(s) && Possible(s, At(path, SaveOk))
    ensures AllHarmless(Next(batch, s, At(path, SaveOk)), RestartAll(false))
  {
    hide NonBlank, Inv;
    var t := Next(batch, s, At(path, SaveOk));
    forall q | q in t ensures Harmless(t[q], Restart(false)) {
      assert Once(s[q]) && Frontier(t[q]) == t[q].mem == t[q].disk;
    }
  }

  // The pass over one file, with the others waiting.

  function AllAt(path: string, run: seq<Action>): seq<Event> {
    if run == [] then [] else [At(path, run[0])] + AllAt(path, run[1..])
  }

  predicate OfPass(run: seq<Action>) {
    forall k :: 0 <= k < |run| ==> !run[k].Append? && !run[k].Restart? && !run[k].SaveElsewhere?
  }

  /** What the pass over one file leaves of all: the others' checkpoints are in the state
      file if it saved. */
  ghost predicate Passed(s: Files, path: string, run: seq<Action>, mine: State, t: Files) {
    && t.Keys == s.Keys && path in t && t[path] == mine
    && forall q :: q in s && q != path ==> t[q] == if SaveOk in run then s[q].(disk := s[q].mem) else s[q]
  }

  lemma {:induction false} Lift(batch: nat, s: Files, path: string, run: seq<Action>)
    requires path in s && Runs(batch, s[path], run) && OfPass(run) && OthersIdle(s, path)
    ensures AllRuns(batch, s, AllAt(path, run))
    ensures Passed(s, path, run, After(batch, s[path], run), AllAfter(batch, s, AllAt(path, run)))
    ensures CleanRun(batch, s[path], run) ==> AllClean(batch, s, AllAt(path, run))
    decreases |run|
  {
    if run != [] {
      var x, rest := At(path, run[0]), run[1..];
      assert AllAt(path, run)[0] == x && AllAt(path, run)[1..] == AllAt(path, rest);
      assert forall k :: 0 <= k < |rest| ==> rest[k] == run[k + 1];
      assert forall a :: a in run <==> a == run[0] || a in rest;
      LiftStep(batch, s, x);
      hide Step, Enabled, Harmless, Next;
      Lift(batch, Next(batch, s, x), path, rest);
    }
  }

  lemma LiftStep(batch: nat, s: Files, x: Event)
    requires x.At? && Possible(s, x) && !x.a.Append? && OthersIdle(s, x.path)
    ensures
      var t := Next(batch, s, x);
      && t.Keys == s.Keys && OthersIdle(t, x.path) && t[x.path] == Step(batch, s[x.path], x.a)
      && forall q :: q in s && q != x.path ==> t[q] == if x.a.SaveOk? then s[q].(disk := s[q].mem) else s[q]
  {
  }

  /** The condition is exact: after any clean run a step is harmless if and only if no
      clean continuation ever receives a line of any file twice. */
  lemma AllRepeatsIff(batch: nat, paths: set<string>, run: seq<Event>, x: Event)
    requires batch > 0 && AllRuns(batch, AllInitial(paths), run) && AllClean(batch, AllInitial(paths), run)
    requires Possible(AllAfter(batch, AllInitial(paths), run), x)
    ensures
      var s := AllAfter(batch, AllInitial(paths), run);
      AllHarmless(s, x) <==>
        forall more, q ::
          (AllRuns(batch, Next(batch, s, x), more) && AllClean(batch, Next(batch, s, x), more)
           && q in AllAfter(batch, Next(batch, s, x), more))
          ==> Distinct(AllAfter(batch, Next(batch, s, x), more)[q].received)
  {
    hide AllRuns, AllClean, AllAfter, AllOnce, AllHarmless, Next, Possible, Distinct;
    AllInitialOnce(paths);
    AllOnceRun(batch, AllInitial(paths), run);
    var s := AllAfter(batch, AllInitial(paths), run);
    if AllHarmless(s, x) {
      AllOnceStep(batch, s, x);
      forall more, q | AllRuns(batch, Next(batch, s, x), more) && AllClean(batch, Next(batch, s, x), more)
                       && q in AllAfter(batch, Next(batch, s, x), more)
        ensures Distinct(AllAfter(batch, Next(batch, s, x), more)[q].received)
      {
        AllOnceRun(batch, Next(batch, s, x), more);
        ReceivedOnce(AllAfter(batch, Next(batch, s, x), more), q);
      }
    } else {
      var more, q := HarmSomewhere(batch, s, x);
    }
  }

  lemma ReceivedOnce(s: Files, q: string)
    requires AllOnce(s) && q in s
    ensures Distinct(s[q].received)
  {
    OnceIsDistinct(s[q]);
  }

  /** After a step that harms some file, the next pass over that file sends a line of it
      again. */
  lemma HarmSomewhere(batch: nat, s: Files, x: Event) returns (more: seq<Event>, q: string)
    requires batch > 0 && AllOnce(s) && Possible(s, x) && !AllHarmless(s, x)
    ensures AllRuns(batch, Next(batch, s, x), more) && AllClean(batch, Next(batch, s, x), more)
    ensures q in AllAfter(batch, Next(batch, s, x), more)
    ensures !Distinct(AllAfter(batch, Next(batch, s, x), more)[q].received)
  {
    hide Harmless, AllHarmless, Next, Once, Inv, Runs, CleanRun, AllRuns, AllClean, AllAfter, After, Step, Enabled, AllAt, Distinct;
    var a: Action;
    q, a := HarmedFile(s, x);
    HarmedState(batch, s, x, q, a);
    HarmRepeats(batch, s[q], a);
    var again := [Begin, Read, ShipOk];
    Lift(batch, Next(batch, s, x), q, again);
    more := AllAt(q, again);
  }

  lemma HarmedFile(s: Files, x: Event) returns (q: string, a: Action)
    requires Possible(s, x) && !AllHarmless(s, x)
    ensures q in s && Enabled(s[q], a) && !Harmless(s[q], a)
    ensures if x.At? then q == x.path && a == x.a else a == Restart(x.lost)
  {
    hide Harmless;
    match x
    case At(path, b) => q, a := path, b;
    case RestartAll(lost) =>
      q :| q in s && !Harmless(s[q], Restart(lost));
      a := Restart(lost);
  }

  lemma HarmedState(batch: nat, s: Files, x: Event, q: string, a: Action)
    requires Possible(s, x) && q in s && Enabled(s[q], a) && !Harmless(s[q], a)
    requires if x.At? then q == x.path && a == x.a else a == Restart(x.lost)
    ensures q in Next(batch, s, x) && Next(batch, s, x)[q] == Step(batch, s[q], a) && OthersIdle(Next(batch, s, x), q)
  {
  }

  // ---------------------------------------------------------------------
  // run_pass
  // ---------------------------------------------------------------------

  datatype Record = Record(inode: nat, offset: nat)

  /** The offset recorded for this file: 0 when there is no record or the path now
      names another file. */
  function OffsetIn(data: map<string, Record>, path: string, inode: nat): nat {
    if path !in data || data[path].inode != inode then 0 else data[path].offset
  }

  class Checkpoint {
    var data: map<string, Record>
    var stateFile: Option<map<string, Record>>

    /** A start of the process: a missing or unreadable state file is an empty one. */
    constructor (stateFile: Option<map<string, Record>>)
      ensures this.stateFile == stateFile
      ensures data == if stateFile.None? then map[] else stateFile.value
    {
      this.stateFile := stateFile;
      data := if stateFile.None? then map[] else stateFile.value;
    }

    function OffsetFor(path: string, inode: nat): nat
      reads this
    {
      OffsetIn(data, path, inode)
    }

    /** What a restart would find. */
    ghost function Saved(): map<string, Record>
      reads this
    {
      if stateFile.None? then map[] else stateFile.value
    }

    ghost function SavedOffset(path: string, inode: nat): nat
      reads this
    {
      OffsetIn(Saved(), path, inode)
    }

    method Set(path: string, inode: nat, offset: nat)
      modifies this`data
      ensures data == old(data)[path := Record(inode, offset)]
    {
      data := data[path := Record(inode, offset)];
    }

    /** The replacement of the state file is atomic: it happens or it does not. */
    method Save(possible: bool) returns (ok: bool)
      modifies this`stateFile
      ensures ok == possible
      ensures stateFile == if ok then Some(data) else old(stateFile)
    {
      if possible {
        stateFile := Some(data);
      }
      ok := possible;
    }
  }

  datatype Outcome = Ok | Lost | TimedOut

  /** One request that arrived: which lines of which file it held. */
  datatype Batch = Batch(path: string, lines: seq<Line>)

  function LinesOf(log: seq<Batch>, path: string): seq<Line> {
    if log == [] then []
    else
      var last := log[|log| - 1];
      LinesOf(log[..|log| - 1], path) + (if last.path == path then last.lines else [])
  }

  function AllTexts(log: seq<Batch>): seq<seq<byte>> {
    if log == [] then [] else AllTexts(log[..|log| - 1]) + Texts(log[|log| - 1].lines)
  }

  lemma LogSnoc(log: seq<Batch>, last: Batch)
    ensures forall q :: LinesOf(log + [last], q) == LinesOf(log, q) + (if last.path == q then last.lines else [])
    ensures AllTexts(log + [last]) == AllTexts(log) + Texts(last.lines)
  {
    assert (log + [last])[..|log|] == log;
  }

  /** No ship and no save fails. */
  ghost predicate Works(net: nat -> Outcome, disk: nat -> bool) {
    forall i :: net(i).Ok? && disk(i)
  }

  lemma AllWork(net: nat -> Outcome, disk: nat -> bool)
    ensures Works(net, disk) ==> forall i :: net(i).Ok? && disk(i)
  {
  }

  /** The ingest endpoint. It receives texts; `log` says which lines they were. */
  class Endpoint {
    var received: seq<seq<byte>>
    ghost var log: seq<Batch>

    ghost predicate Valid()
      reads this
    {
      received == AllTexts(log)
    }

    method Ship(texts: seq<seq<byte>>, ghost which: Batch, outcome: Outcome) returns (ok: bool)
      requires Valid() && texts == Texts(which.lines)
      modifies this
      ensures Valid()
      ensures ok == outcome.Ok?
      ensures received == if outcome.Lost? then old(received) else old(received) + texts
      ensures log == if outcome.Lost? then old(log) else old(log) + [which]
    {
      if !outcome.Lost? {
        LogSnoc(log, which);
        received := received + texts;
        log := log + [which];
      }
      ok := outcome.Ok?;
    }
  }

  ghost function StateOf(file: seq<byte>, path: string, inode: nat, c: Checkpoint, e: Endpoint, pass: Pass): State
    reads c, e
  {
    State(file, c.OffsetFor(path, inode), c.SavedOffset(path, inode), pass, LinesOf(e.log, path))
  }

  lemma {:induction false} TextsLength(lines: seq<Line>)
    ensures |Texts(lines)| == |lines|
  {
    if lines != [] {
      TextsLength(lines[..|lines| - 1]);
    }
  }

  // The actions of one turn of the loop, on explicit states.

  lemma TurnRuns(batch: nat, s: State, which: seq<Line>, end: nat)
    requires s.pass == Holding(which, end)
    ensures Runs(batch, s, [ShipLost]) && After(batch, s, [ShipLost]) == s.(pass := Idle)
    ensures Runs(batch, s, [ShipTimedOut])
    ensures After(batch, s, [ShipTimedOut]) == s.(pass := Idle, received := s.received + which)
    ensures
      var run := [ShipOk, SetCheckpoint, SaveFailed];
      Runs(batch, s, run) && After(batch, s, run) == s.(pass := Idle, received := s.received + which, mem := end)
    ensures
      var run := [ShipOk, SetCheckpoint, SaveOk];
      Runs(batch, s, run)
      && After(batch, s, run) == s.(pass := if |which| < batch then Idle else Looking(end),
                                    received := s.received + which, mem := end, disk := end)
  {
    var got := s.received + which;
    var sent := s.(pass := Sent(|which|, end), received := got);
    var noted := sent.(pass := Noted(|which|, end), mem := end);
    Chain(batch, [s, s.(pass := Idle)], [ShipLost]);
    Chain(batch, [s, s.(pass := Idle, received := got)], [ShipTimedOut]);
    Chain(batch, [s, sent, noted, noted.(pass := Idle)], [ShipOk, SetCheckpoint, SaveFailed]);
    Chain(batch, [s, sent, noted, noted.(pass := if |which| < batch then Idle else Looking(end), disk := end)],
          [ShipOk, SetCheckpoint, SaveOk]);
  }

  lemma ReadRuns(batch: nat, s: State, c: Chunk)
    requires s.pass.Looking? && s.pass.offset <= |s.file| && c == ReadFrom(s.file, s.pass.offset, batch)
    ensures Runs(batch, s, [Read])
    ensures After(batch, s, [Read]) == s.(pass := if c.lines == [] then Idle else Holding(c.lines, c.end))
  {
    hide ReadFrom;
    Chain(batch, [s, s.(pass := if c.lines == [] then Idle else Holding(c.lines, c.end))], [Read]);
  }

  lemma BeginRuns(batch: nat, s: State)
    requires s.pass.Idle?
    ensures Runs(batch, s, [Begin]) && After(batch, s, [Begin]) == s.(pass := Looking(s.mem))
  {
    Chain(batch, [s, s.(pass := Looking(s.mem))], [Begin]);
  }

  /** Reading on from where the last read ended. */
  lemma ReadOn(file: seq<byte>, start: nat, off: nat, batch: nat)
    requires start <= off <= |file| && (off == start || Boundary(file, off)) && batch > 0
    ensures
      var c := ReadFrom(file, off, batch);
      && NonBlank(file, start, off) + c.lines == NonBlank(file, start, c.end)
      && (c.lines != [] ==> c.end > off && Boundary(file, c.end))
      && (|c.lines| < batch ==> NonBlank(file, start, off) + c.lines == NonBlank(file, start, |file|))
  {
    hide LineLen, ReadFrom, LineAt;
    var c := ReadFrom(file, off, batch);
    ReadFromIs(file, off, batch);
    assert NonBlank(file, off, off) == [];
    if off > start {
      NonBlankSplit(file, start, off, c.end);
      NonBlankSplit(file, start, off, |file|);
    }
    if |c.lines| < batch {
      assert NonBlank(file, c.end, |file|) == [];
      if c.end > off {
        NonBlankSplit(file, off, c.end, |file|);
      }
    }
  }

  /** One turn: ship, set the checkpoint, save it. */
  method ShipChunk(ghost file: seq<byte>, path: string, inode: nat, c: Checkpoint, e: Endpoint,
                   texts: seq<seq<byte>>, end: nat, ghost which: seq<Line>, ghost batch: nat,
                   outcome: Outcome, possible: bool)
    returns (ok: bool, ghost steps: seq<Action>)
    requires e.Valid() && texts == Texts(which)
    modifies c, e
    ensures e.Valid()
    ensures ok <==> outcome.Ok? && possible
    ensures
      var before := old(StateOf(file, path, inode, c, e, Holding(which, end)));
      var after := StateOf(file, path, inode, c, e, if ok && |which| >= batch then Looking(end) else Idle);
      Runs(batch, before, steps) && After(batch, before, steps) == after
    ensures ok ==> e.log == old(e.log) + [Batch(path, which)] && e.received == old(e.received) + texts
    ensures e.log == old(e.log) || e.log == old(e.log) + [Batch(path, which)]
    ensures ok ==> c.OffsetFor(path, inode) == end
    ensures c.OffsetFor(path, inode) == end || c.OffsetFor(path, inode) == old(c.OffsetFor(path, inode))
    ensures forall q :: q != path ==> LinesOf(e.log, q) == LinesOf(old(e.log), q)
    ensures c.data - {path} == old(c.data) - {path}
    ensures c.Saved() - {path} == (if ok then c.data else old(c.Saved())) - {path}
    ensures if ok then c.SavedOffset(path, inode) == end else c.Saved() == old(c.Saved())
    ensures OfPass(steps) && (ok <==> SaveOk in steps)
  {
    hide Step, Enabled, Runs, After, Texts, LinesOf, AllTexts;
    TurnRuns(batch, StateOf(file, path, inode, c, e, Holding(which, end)), which, end);
    LogSnoc(e.log, Batch(path, which));
    ok := e.Ship(texts, Batch(path, which), outcome);
    if !ok {
      steps := if outcome.Lost? then [ShipLost] else [ShipTimedOut];
      return;
    }
    c.Set(path, inode, end);
    assert c.data - {path} == old(c.data) - {path};
    ok := c.Save(possible);
    steps := [ShipOk, SetCheckpoint, if ok then SaveOk else SaveFailed];
  }

  /** One turn of the loop: read, and ship what was read. */
  method Turn(file: seq<byte>, path: string, inode: nat, c: Checkpoint, e: Endpoint, offset: nat,
              outcome: Outcome, possible: bool, batch: nat)
    returns (count: nat, end: nat, ok: bool, ghost which: seq<Line>, ghost steps: seq<Action>)
    requires batch > 0 && e.Valid()
    modifies c, e
    ensures e.Valid()
    ensures Chunk(which, end) == ReadFrom(file, if offset > |file| then 0 else offset, batch) && count == |which|
    ensures count == 0 ==> ok && TablesOf(c, e) == old(TablesOf(c, e)) && e.received == old(e.received)
    ensures count > 0 ==> (ok <==> outcome.Ok? && possible)
    ensures offset <= |file| ==>
      var before := old(StateOf(file, path, inode, c, e, Looking(offset)));
      && Runs(batch, before, steps)
      && After(batch, before, steps) == StateOf(file, path, inode, c, e, if ok && count >= batch then Looking(end) else Idle)
      && OfPass(steps) && (SaveOk in steps <==> ok && count > 0)
    ensures count > 0 && ok ==>
      && LinesOf(e.log, path) == LinesOf(old(e.log), path) + which && |e.received| == |old(e.received)| + count
      && c.OffsetFor(path, inode) == c.SavedOffset(path, inode) == end
    ensures c.OffsetFor(path, inode) == end || c.OffsetFor(path, inode) == old(c.OffsetFor(path, inode))
    ensures !(ok && count > 0) ==> c.Saved() == old(c.Saved())
    ensures forall q :: q != path ==> LinesOf(e.log, q) == LinesOf(old(e.log), q)
    ensures e.log == old(e.log) || e.log == old(e.log) + [Batch(path, which)]
    ensures c.data - {path} == old(c.data) - {path}
    ensures c.Saved() - {path} == (if ok && count > 0 then c.data else old(c.Saved())) - {path}
  {
    hide Step, Enabled, Runs, After, ReadFrom, Texts, LinesOf, AllTexts, OffsetIn, OfPass;
    ghost var chunk := ReadFrom(file, if offset > |file| then 0 else offset, batch);
    which, steps := chunk.lines, [Read];
    TextsLength(which);
    PassBegins();
    ghost var s0 := StateOf(file, path, inode, c, e, Looking(offset));
    if offset <= |file| { ReadRuns(batch, s0, chunk); }
    var texts;
    ghost var ats;
    texts, end, ats := ReadNewLines(file, offset, batch);
    count, ok := |texts|, true;
    if texts == [] {
      return;
    }
    LogSnoc(e.log, Batch(path, which));
    ghost var ship;
    ok, ship := ShipChunk(file, path, inode, c, e, texts, end, which, batch, outcome, possible);
    if offset <= |file| { RunsConcat(batch, s0, [Read], ship); }
    OfPassConcat([Read], ship);
    steps := [Read] + ship;
  }

  /** A request that holds nothing but non-blank complete lines of the file. */
  ghost predicate Honest(file: seq<byte>, start: nat, b: Batch) {
    forall l :: l in b.lines ==> l.text != [] && LineBy(file, start, l.at, l.text, |file|)
  }

  /** All requests since are of this path, and honest. */
  ghost predicate HonestFrom(before: seq<Batch>, log: seq<Batch>, path: string, file: seq<byte>, start: nat) {
    before <= log && forall k :: |before| <= k < |log| ==> log[k].path == path && Honest(file, start, log[k])
  }

  lemma NothingNew(log: seq<Batch>, path: string, file: seq<byte>, start: nat)
    ensures HonestFrom(log, log, path, file, start)
  {
  }

  lemma HonestOn(before: seq<Batch>, log: seq<Batch>, path: string, file: seq<byte>, start: nat, b: Batch)
    requires HonestFrom(before, log, path, file, start) && b.path == path && Honest(file, start, b)
    ensures HonestFrom(before, log + [b], path, file, start)
  {
    hide Honest;
  }

  lemma ReadHonest(file: seq<byte>, start: nat, off: nat, batch: nat, path: string)
    requires start <= off <= |file| && (off == start || Boundary(file, off)) && batch > 0
    ensures Honest(file, start, Batch(path, ReadFrom(file, off, batch).lines))
  {
    hide ReadFrom, NonBlank, LineBy;
    var c := ReadFrom(file, off, batch);
    ReadFromIs(file, off, batch);
    forall l | l in c.lines ensures l.text != [] && LineBy(file, start, l.at, l.text, |file|) {
      NonBlankIs(file, start, off, c.end, l);
      EndsEarlier(file, start, l.at, l.text, c.end, |file|);
    }
  }

  lemma EndsEarlier(file: seq<byte>, start: nat, at: nat, text: seq<byte>, a: nat, b: nat)
    requires LineBy(file, start, at, text, a) && a <= b
    ensures LineBy(file, start, at, text, b)
  {
    hide LineIn;
  }

  lemma Untouched(path: string, t: Tables)
    ensures OnlyThis(path, t, t, false)
  {
  }

  lemma PassBegins()
    ensures OfPass([Begin]) && SaveOk !in [Begin] && OfPass([Read]) && SaveOk !in [Read]
  {
  }

  lemma OfPassConcat(a: seq<Action>, b: seq<Action>)
    requires OfPass(a) && OfPass(b)
    ensures OfPass(a + b) && (SaveOk in a + b <==> SaveOk in a || SaveOk in b)
  {
  }

  /** What the pass over one file does to the rest: the checkpoints of other paths stay
      as they are in memory, and are in the state file if it was saved. */
  ghost predicate OnlyThis(path: string, before: Tables, after: Tables, saved: bool) {
    && after.data - {path} == before.data - {path}
    && after.disk - {path} == (if saved then before.data else before.disk) - {path}
    && forall q :: q != path ==> LinesOf(after.log, q) == LinesOf(before.log, q)
  }

  /** What a pass reads and writes. */
  datatype Tables = Tables(data: map<string, Record>, disk: map<string, Record>, log: seq<Batch>)

  ghost function TablesOf(c: Checkpoint, e: Endpoint): Tables
    reads c, e
  {
    Tables(c.data, c.Saved(), e.log)
  }

  lemma OnlyThisOn(path: string, before: Tables, now: Tables, after: Tables, saved: bool, ok: bool)
    requires OnlyThis(path, before, now, saved)
    requires after.data - {path} == now.data - {path}
    requires after.disk - {path} == (if ok then after.data else now.disk) - {path}
    requires forall q :: q != path ==> LinesOf(after.log, q) == LinesOf(now.log, q)
    ensures OnlyThis(path, before, after, saved || ok)
  {
  }

  /** The part of a pass that concerns one file, whose content does not change
      meanwhile. `run` is the same pass as a run of the protocol above (when the
      recorded offset is not beyond the end of the file), so what holds of every run
      holds of it. A pass without a failure ships every line there was to ship. */
  method ShipFile(file: seq<byte>, path: string, inode: nat, c: Checkpoint, e: Endpoint,
                  net: nat -> Outcome, disk: nat -> bool, batch: nat)
    returns (shipped: nat, ok: bool, ghost run: seq<Action>, ghost saved: bool)
    requires batch > 0 && e.Valid()
    modifies c, e
    ensures e.Valid()
    ensures old(c.OffsetFor(path, inode)) <= |file| ==>
      && Runs(batch, old(StateOf(file, path, inode, c, e, Idle)), run)
      && After(batch, old(StateOf(file, path, inode, c, e, Idle)), run) == StateOf(file, path, inode, c, e, Idle)
      && OfPass(run) && (saved <==> SaveOk in run) && c.OffsetFor(path, inode) <= |file|
    ensures OnlyThis(path, old(TablesOf(c, e)), TablesOf(c, e), saved)
    ensures HonestFrom(old(e.log), e.log, path, file, if old(c.OffsetFor(path, inode)) > |file| then 0 else old(c.OffsetFor(path, inode)))
    // Counted are the lines whose checkpoint was saved.
    ensures
      var start := if old(c.OffsetFor(path, inode)) > |file| then 0 else old(c.OffsetFor(path, inode));
      if saved then start <= c.SavedOffset(path, inode) <= |file| && shipped == |NonBlank(file, start, c.SavedOffset(path, inode))|
      else shipped == 0
    ensures
      var start := if old(c.OffsetFor(path, inode)) > |file| then 0 else old(c.OffsetFor(path, inode));
      ok ==>
        && LinesOf(e.log, path) == LinesOf(old(e.log), path) + NonBlank(file, start, |file|)
        && shipped == |NonBlank(file, start, |file|)| && |e.received| == |old(e.received)| + shipped
    ensures Works(net, disk) ==> ok
  {
    AllWork(net, disk);
    hide Step, Enabled, Runs, After, ReadFrom, NonBlank, Boundary, Texts, LinesOf, AllTexts, OffsetIn, OfPass, OnlyThis, HonestFrom, Honest, Works;
    ghost var before := TablesOf(c, e);
    Untouched(path, before);
    NothingNew(before.log, path, file, if c.OffsetFor(path, inode) > |file| then 0 else c.OffsetFor(path, inode));
    ghost var s0 := StateOf(file, path, inode, c, e, Idle);
    ghost var valid := s0.mem <= |file|;
    ghost var start := if valid then s0.mem else 0;
    var offset, turn := c.OffsetFor(path, inode), 0;
    shipped, ok, run, saved := 0, true, [Begin], false;
    BeginRuns(batch, s0);
    PassBegins();
    NoLines(file, start);
    while true
      invariant e.Valid()
      invariant ok && OnlyThis(path, before, TablesOf(c, e), saved) && HonestFrom(before.log, e.log, path, file, start)
      invariant valid ==> offset <= |file| && c.OffsetFor(path, inode) <= |file|
      invariant valid ==> Runs(batch, s0, run) && After(batch, s0, run) == StateOf(file, path, inode, c, e, Looking(offset))
      invariant if saved then offset <= |file| && c.SavedOffset(path, inode) == offset else shipped == 0
      invariant valid ==> OfPass(run) && (saved <==> SaveOk in run)
      invariant var at := if offset > |file| then 0 else offset;
        start <= at && (at == start || Boundary(file, at))
      invariant var at := if offset > |file| then 0 else offset;
        && LinesOf(e.log, path) == LinesOf(old(e.log), path) + NonBlank(file, start, at)
        && shipped == |NonBlank(file, start, at)| && |e.received| == |old(e.received)| + shipped
      decreases if offset > |file| then |file| + 1 else |file| - offset
    {
      ghost var at := if offset > |file| then 0 else offset;
      ghost var now := TablesOf(c, e);
      ReadOn(file, start, at, batch);
      ghost var which, steps;
      var count, end;
      count, end, ok, which, steps := Turn(file, path, inode, c, e, offset, net(turn), disk(turn), batch);
      OnlyThisOn(path, before, now, TablesOf(c, e), saved, ok && count > 0);
      ReadHonest(file, start, at, batch, path);
      HonestOn(before.log, now.log, path, file, start, Batch(path, which));
      if valid {
        RunsConcat(batch, s0, run, steps);
        OfPassConcat(run, steps);
        run := run + steps;
      }
      if count == 0 {
        return;
      }
      saved := saved || ok;
      if !ok {
        return;
      }
      turn := turn + 1;
      shipped := shipped + count;
      offset := end;
      if count < batch {
        return;
      }
    }
  }

  lemma NoLines(file: seq<byte>, a: nat)
    requires a <= |file|
    ensures NonBlank(file, a, a) == []
  {
  }

  /** A file as `os.stat` and its content show it; a path without one raises. */
  datatype File = File(inode: nat, content: seq<byte>)

  ghost function AllStates(files: map<string, File>, c: Checkpoint, e: Endpoint): Files
    reads c, e
  {
    map q | q in files :: StateOf(files[q].content, q, files[q].inode, c, e, Idle)
  }

  /** No recorded offset is beyond the end of its file. */
  ghost predicate NoneTruncated(files: map<string, File>, c: Checkpoint)
    reads c
  {
    forall q :: q in files ==> c.OffsetFor(q, files[q].inode) <= |files[q].content|
  }

  /** Where the pass begins to read. */
  ghost function StartOf(file: File, path: string, data: map<string, Record>): (start: nat)
    ensures start <= |file.content|
  {
    var o := OffsetIn(data, path, file.inode);
    if o > |file.content| then 0 else o
  }

  lemma SameOffset(a: map<string, Record>, b: map<string, Record>, path: string)
    requires a - {path} == b - {path}
    ensures forall q, inode :: q != path ==> OffsetIn(a, q, inode) == OffsetIn(b, q, inode)
  {
    forall q | q != path ensures (q in a <==> q in b) && (q in a ==> a[q] == b[q]) {
      assert q in a <==> q in a - {path};
      assert q in b <==> q in b - {path};
    }
  }

  lemma {:induction false} AllRunsConcat(batch: nat, s: Files, a: seq<Event>, b: seq<Event>)
    requires AllRuns(batch, s, a) && AllRuns(batch, AllAfter(batch, s, a), b)
    ensures AllRuns(batch, s, a + b) && AllAfter(batch, s, a + b) == AllAfter(batch, AllAfter(batch, s, a), b)
    decreases |a|
  {
    hide Next, Possible;
    if a == [] {
      assert a + b == b;
    } else {
      assert (a + b)[0] == a[0] && (a + b)[1..] == a[1..] + b;
      AllRunsConcat(batch, Next(batch, s, a[0]), a[1..], b);
    }
  }

  lemma AllIdle(files: map<string, File>, c: Checkpoint, e: Endpoint, path: string)
    ensures OthersIdle(AllStates(files, c, e), path)
  {
  }

  lemma StillWhole(files: map<string, File>, path: string, before: map<string, Record>, now: map<string, Record>)
    requires forall q :: q in files ==> OffsetIn(before, q, files[q].inode) <= |files[q].content|
    requires now - {path} == before - {path}
    requires path in files && OffsetIn(now, path, files[path].inode) <= |files[path].content|
    ensures forall q :: q in files ==> OffsetIn(now, q, files[q].inode) <= |files[q].content|
  {
    hide OffsetIn;
    SameOffset(now, before, path);
  }

  /** What the pass over one file does to the tables is what it does to the states. */
  lemma PassedIsNow(files: map<string, File>, path: string, before: Tables, now: Tables, saved: bool, run: seq<Action>,
                    s: Files, after: Files, t: Files)
    requires path in files && OnlyThis(path, before, now, saved) && (saved <==> SaveOk in run)
    requires s.Keys == t.Keys == files.Keys && Passed(s, path, run, t[path], after)
    requires forall q :: q in files ==> s[q] == StateIn(files[q], q, before) && t[q] == StateIn(files[q], q, now)
    ensures after == t
  {
    hide OffsetIn, LinesOf;
    SameOffset(now.data, before.data, path);
    SameOffset(now.disk, if saved then before.data else before.disk, path);
    forall q | q in files ensures after[q] == t[q] {
      assert q in s;
    }
  }

  ghost function StateIn(file: File, path: string, t: Tables): State {
    State(file.content, OffsetIn(t.data, path, file.inode), OffsetIn(t.disk, path, file.inode), Idle, LinesOf(t.log, path))
  }

  /** One file's pass among all files. */
  method PassFile(path: string, files: map<string, File>, c: Checkpoint, e: Endpoint,
                  net: nat -> Outcome, disk: nat -> bool, batch: nat)
    returns (shipped: nat, ok: bool, ghost run: seq<Event>)
    requires batch > 0 && e.Valid() && path in files
    modifies c, e
    ensures e.Valid()
    ensures old(NoneTruncated(files, c)) ==>
      && NoneTruncated(files, c)
      && AllRuns(batch, old(AllStates(files, c, e)), run)
      && AllAfter(batch, old(AllStates(files, c, e)), run) == AllStates(files, c, e)
    ensures c.data - {path} == old(c.data) - {path}
    ensures forall q :: q != path ==> LinesOf(e.log, q) == LinesOf(old(e.log), q)
    ensures HonestFrom(old(e.log), e.log, path, files[path].content, StartOf(files[path], path, old(c.data)))
    ensures ok ==>
      && LinesOf(e.log, path) == LinesOf(old(e.log), path)
                                 + NonBlank(files[path].content, StartOf(files[path], path, old(c.data)), |files[path].content|)
      && |e.received| == |old(e.received)| + shipped
    ensures Works(net, disk) ==> ok
  {
    hide Runs, After, AllRuns, AllAfter, NonBlank, LinesOf, OfPass, Passed, OffsetIn, OthersIdle, HonestFrom;
    var f := files[path];
    ghost var before, tables := AllStates(files, c, e), TablesOf(c, e);
    assert OthersIdle(before, path) by { AllIdle(files, c, e, path); }
    ghost var valid := NoneTruncated(files, c);
    ghost var steps, saved;
    shipped, ok, steps, saved := ShipFile(f.content, path, f.inode, c, e, net, disk, batch);
    run := AllAt(path, steps);
    if valid {
      Lift(batch, before, path, steps);
      PassedIsNow(files, path, tables, TablesOf(c, e), saved, steps, before, AllAfter(batch, before, run), AllStates(files, c, e));
      StillWhole(files, path, tables.data, c.data);
    }
  }

  /** The pass over all files: whatever fails for one, the next has its turn. `run` is the
      same pass as a run of the protocol over several files. Of every file for which
      nothing fails, every line there was to ship has been shipped. */
  method RunPass(paths: seq<string>, files: map<string, File>, c: Checkpoint, e: Endpoint,
                 net: string -> nat -> Outcome, disk: string -> nat -> bool, batch: nat)
    returns (shipped: nat, ghost run: seq<Event>)
    requires batch > 0 && e.Valid() && Distinct(paths)
    modifies c, e
    ensures e.Valid()
    ensures old(NoneTruncated(files, c)) ==>
      && AllRuns(batch, old(AllStates(files, c, e)), run)
      && AllAfter(batch, old(AllStates(files, c, e)), run) == AllStates(files, c, e)
    ensures forall q :: q !in paths ==> LinesOf(e.log, q) == LinesOf(old(e.log), q)
    ensures forall q :: q in paths && q in files && Works(net(q), disk(q)) ==>
      LinesOf(e.log, q) == LinesOf(old(e.log), q)
                           + NonBlank(files[q].content, StartOf(files[q], q, old(c.data)), |files[q].content|)
    ensures (forall q :: q in paths ==> Works(net(q), disk(q))) ==> |e.received| == |old(e.received)| + shipped
    // The same byte by byte: what is received are non-blank complete lines of the files; and
    // of a file for which nothing fails all of them, each once and in order.
    ensures old(e.received) <= e.received
    ensures forall k :: |old(e.received)| <= k < |e.received| ==> IsDue(paths, files, old(c.data), e.received[k])
    ensures forall q :: q in paths && q in files && Works(net(q), disk(q)) ==>
      var due := LinesOf(e.log, q)[|LinesOf(old(e.log), q)|..];
      && AreLines(files[q].content, StartOf(files[q], q, old(c.data)), |files[q].content|, Texts(due), Starts(due))
      && forall l :: l in due ==> l.text in e.received[|old(e.received)|..]
  {
    hide AllRuns, AllAfter, NonBlank, LinesOf, NoneTruncated, AllStates, Distinct, Works, StartOf, HonestFrom, AllHonest, AllTexts;
    shipped, run := 0, [];
    ghost var s0 := AllStates(files, c, e);
    ghost var valid := NoneTruncated(files, c);
    ghost var fine := forall q :: q in paths ==> Works(net(q), disk(q));
    NothingRun(batch, s0);
    NothingDue(e.log, paths, files, c.data);
    for k := 0 to |paths|
      invariant e.Valid()
      invariant valid ==> NoneTruncated(files, c) && AllRuns(batch, s0, run) && AllAfter(batch, s0, run) == AllStates(files, c, e)
      invariant forall q :: q !in paths[..k] ==> LinesOf(e.log, q) == LinesOf(old(e.log), q)
      invariant AllHonest(old(e.log), e.log, paths, files, old(c.data))
      invariant forall q :: q !in paths[..k] && q in files ==> StartOf(files[q], q, c.data) == StartOf(files[q], q, old(c.data))
      invariant forall q :: q in paths[..k] && q in files && Works(net(q), disk(q)) ==>
        LinesOf(e.log, q) == LinesOf(old(e.log), q)
                             + NonBlank(files[q].content, StartOf(files[q], q, old(c.data)), |files[q].content|)
      invariant fine ==> |e.received| == |old(e.received)| + shipped
    {
      var path := paths[k];
      assert paths[..k + 1] == paths[..k] + [path];
      NotYet(paths, k);
      if path in files {
        ghost var data, log := c.data, e.log;
        var n, ok;
        ghost var steps;
        n, ok, steps := PassFile(path, files, c, e, net(path), disk(path), batch);
        StartsElsewhere(files, c.data, data, path);
        AllHonestOn(old(e.log), log, e.log, paths, files, old(c.data), path);
        if valid {
          AllRunsConcat(batch, s0, run, steps);
          run := run + steps;
        }
        shipped := shipped + n;
      }
    }
    assert paths[..|paths|] == paths;
    ReceivedIsDue(old(e.log), e.log, paths, files, old(c.data));
    forall q | q in paths && q in files && Works(net(q), disk(q))
      ensures
        var due := LinesOf(e.log, q)[|LinesOf(old(e.log), q)|..];
        && AreLines(files[q].content, StartOf(files[q], q, old(c.data)), |files[q].content|, Texts(due), Starts(due))
        && forall l :: l in due ==> l.text in e.received[|old(e.received)|..]
    {
      DueArrived(old(e.log), e.log, q, files[q], StartOf(files[q], q, old(c.data)));
    }
  }

  /** A non-blank complete line of one of the files, from where its pass began. */
  ghost predicate IsDue(paths: seq<string>, files: map<string, File>, data: map<string, Record>, text: seq<byte>) {
    text != [] && exists q :: q in paths && q in files && HasLine(files[q], StartOf(files[q], q, data), text)
  }

  ghost predicate HasLine(file: File, start: nat, text: seq<byte>) {
    exists at: nat :: LineBy(file.content, start, at, text, |file.content|)
  }

  ghost predicate AllHonest(before: seq<Batch>, log: seq<Batch>, paths: seq<string>, files: map<string, File>, data: map<string, Record>) {
    before <= log && forall k :: |before| <= k < |log| ==>
      var q := log[k].path; q in paths && q in files && Honest(files[q].content, StartOf(files[q], q, data), log[k])
  }

  lemma NothingDue(log: seq<Batch>, paths: seq<string>, files: map<string, File>, data: map<string, Record>)
    ensures AllHonest(log, log, paths, files, data)
  {
  }

  lemma AllHonestOn(before: seq<Batch>, now: seq<Batch>, log: seq<Batch>, paths: seq<string>, files: map<string, File>,
                    data: map<string, Record>, path: string)
    requires AllHonest(before, now, paths, files, data) && path in paths && path in files
    requires HonestFrom(now, log, path, files[path].content, StartOf(files[path], path, data))
    ensures AllHonest(before, log, paths, files, data)
  {
    hide Honest, StartOf;
    forall k | 0 <= k < |now| ensures log[k] == now[k] { }
  }

  lemma StartsElsewhere(files: map<string, File>, now: map<string, Record>, before: map<string, Record>, path: string)
    requires now - {path} == before - {path}
    ensures forall q :: q in files && q != path ==> StartOf(files[q], q, now) == StartOf(files[q], q, before)
  {
    hide OffsetIn;
    SameOffset(now, before, path);
  }

  /** Some request from the n-th on held the text. */
  ghost predicate Held(log: seq<Batch>, n: nat, text: seq<byte>) {
    exists b, l :: n <= b < |log| && l in log[b].lines && l.text == text
  }

  lemma SuffixOf<T>(a: seq<T>, more: seq<T>, n: nat)
    requires n <= |a|
    ensures (a + more)[n..] == a[n..] + more
  {
  }

  lemma HeldOn(init: seq<Batch>, last: Batch, n: nat, text: seq<byte>)
    requires n <= |init|
    ensures Held(init + [last], n, text) <==> Held(init, n, text) || text in Texts(last.lines)
  {
    hide Texts;
    var log := init + [last];
    TextsAt(last.lines);
    assert forall b :: 0 <= b < |init| ==> log[b] == init[b];
    if text in Texts(last.lines) {
      var k :| 0 <= k < |last.lines| && Texts(last.lines)[k] == text;
      assert last.lines[k] in log[|init|].lines;
    }
    if b, l :| n <= b < |log| && l in log[b].lines && l.text == text {
      if b == |init| {
        var k :| 0 <= k < |last.lines| && last.lines[k] == l;
        assert Texts(last.lines)[k] == text;
      } else {
        assert l in init[b].lines;
      }
    }
  }

  /** What was received since is what the requests since held. */
  lemma {:induction false} TextsOfMore(before: seq<Batch>, log: seq<Batch>)
    requires before <= log
    ensures AllTexts(before) <= AllTexts(log)
    ensures forall text :: text in AllTexts(log)[|AllTexts(before)|..] <==> Held(log, |before|, text)
    decreases |log|
  {
    if before == log {
      assert AllTexts(log)[|AllTexts(before)|..] == [];
    } else {
      hide Texts, Held;
      var init, last := log[..|log| - 1], log[|log| - 1];
      assert log == init + [last];
      TextsOfMore(before, init);
      forall text { HeldOn(init, last, |before|, text); }
      SuffixOf(AllTexts(init), Texts(last.lines), |AllTexts(before)|);
    }
  }

  lemma ReceivedIsDue(before: seq<Batch>, log: seq<Batch>, paths: seq<string>, files: map<string, File>, data: map<string, Record>)
    requires AllHonest(before, log, paths, files, data)
    ensures before <= log && AllTexts(before) <= AllTexts(log)
    ensures forall k :: |AllTexts(before)| <= k < |AllTexts(log)| ==> IsDue(paths, files, data, AllTexts(log)[k])
  {
    hide AllTexts, StartOf, LineBy;
    TextsOfMore(before, log);
    forall k | |AllTexts(before)| <= k < |AllTexts(log)| ensures IsDue(paths, files, data, AllTexts(log)[k]) {
      assert AllTexts(log)[|AllTexts(before)|..][k - |AllTexts(before)|] == AllTexts(log)[k];
      assert Held(log, |before|, AllTexts(log)[k]);
      var b, l :| |before| <= b < |log| && l in log[b].lines && l.text == AllTexts(log)[k];
      assert LineBy(files[log[b].path].content, StartOf(files[log[b].path], log[b].path, data), l.at, l.text,
                    |files[log[b].path].content|);
    }
  }

  lemma {:induction false} LinesOfMore(before: seq<Batch>, log: seq<Batch>, q: string)
    requires before <= log
    ensures LinesOf(before, q) <= LinesOf(log, q)
    ensures forall l :: l in LinesOf(log, q)[|LinesOf(before, q)|..] ==> exists b :: |before| <= b < |log| && l in log[b].lines
    decreases |log|
  {
    if before == log {
      assert LinesOf(log, q)[|LinesOf(before, q)|..] == [];
    } else {
      var init, last := log[..|log| - 1], log[|log| - 1];
      LinesOfMore(before, init, q);
      var n := |LinesOf(before, q)|;
      var more := if last.path == q then last.lines else [];
      assert LinesOf(log, q)[n..] == LinesOf(init, q)[n..] + more;
      forall l | l in LinesOf(log, q)[n..] ensures exists b :: |before| <= b < |log| && l in log[b].lines {
        if l in LinesOf(init, q)[n..] {
          var b :| |before| <= b < |init| && l in init[b].lines;
          assert log[b] == init[b];
        } else {
          assert l in log[|log| - 1].lines;
        }
      }
    }
  }

  /** What a file had to ship, byte by byte, arrived. */
  lemma DueArrived(before: seq<Batch>, log: seq<Batch>, q: string, file: File, start: nat)
    requires before <= log && start <= |file.content|
    requires LinesOf(log, q) == LinesOf(before, q) + NonBlank(file.content, start, |file.content|)
    ensures AllTexts(before) <= AllTexts(log)
    ensures
      var due := LinesOf(log, q)[|LinesOf(before, q)|..];
      && AreLines(file.content, start, |file.content|, Texts(due), Starts(due))
      && forall l :: l in due ==> l.text in AllTexts(log)[|AllTexts(before)|..]
  {
    hide LinesOf, NonBlank, AllTexts, AreLines, Texts;
    var due := LinesOf(log, q)[|LinesOf(before, q)|..];
    assert due == NonBlank(file.content, start, |file.content|);
    NonBlankAreLines(file.content, start, |file.content|);
    TextsOfMore(before, log);
    LinesOfMore(before, log, q);
    forall l | l in due ensures l.text in AllTexts(log)[|AllTexts(before)|..] {
      var b :| |before| <= b < |log| && l in log[b].lines;
      assert Held(log, |before|, l.text);
    }
  }

  lemma NothingRun(batch: nat, s: Files)
    ensures AllRuns(batch, s, []) && AllAfter(batch, s, []) == s
  {
  }

  lemma NotYet(paths: seq<string>, k: nat)
    requires k < |paths| && Distinct(paths)
    ensures paths[k] !in paths[..k]
  {
  }

  function Concat(matches: seq<seq<string>>): seq<string> {
    if matches == [] then [] else Concat(matches[..|matches| - 1]) + matches[|matches| - 1]
  }

  lemma {:induction false} InConcat(matches: seq<seq<string>>, p: string)
    ensures p in Concat(matches) <==> exists i :: 0 <= i < |matches| && p in matches[i]
  {
    if matches != [] {
      var init, last := matches[..|matches| - 1], matches[|matches| - 1];
      InConcat(init, p);
      assert forall i :: 0 <= i < |init| ==> init[i] == matches[i];
      assert p in Concat(matches) <==> p in Concat(init) || p in last;
    }
  }

  /** Every path some pattern matches, once, in the order of first appearance.
      `matches` holds the sorted files of each pattern. */
  method Discover(matches: seq<seq<string>>) returns (uniq: seq<string>)
    ensures uniq == Dedup(Concat(matches))
    ensures Distinct(uniq) && forall p :: p in uniq <==> exists i :: 0 <= i < |matches| && p in matches[i]
  {
    hide Dedup;
    forall p { InConcat(matches, p); }
    var out: seq<string> := [];
    for i := 0 to |matches|
      invariant out == Concat(matches[..i])
    {
      assert matches[..i + 1][..i] == matches[..i];
      out := out + matches[i];
    }
    assert matches[..|matches|] == matches;
    var seen: set<string> := {};
    uniq := [];
    DedupFixed(out[..0]);
    for i := 0 to |out|
      invariant uniq == Dedup(out[..i])
      invariant forall p :: p in seen <==> p in uniq
    {
      DedupAppend(out[..i], out[i]);
      assert out[..i] + [out[i]] == out[..i + 1];
      if out[i] !in seen {
        seen := seen + {out[i]};
        uniq := uniq + [out[i]];
      }
    }
    assert out[..|out|] == out;
  }
}
