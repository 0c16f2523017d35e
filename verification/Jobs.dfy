/** The search jobs and what they share: the current depth, the stop flag and the lines found. Any
    number of jobs, callers of `stop` and one reader take atomic steps in any order. Proved over all
    runs: one line at most for a depth, never from a search that was cut short, nothing lost. */
module Jobs {
  /** A line, with the job that found it and whether that search had been cut short. */
  datatype Line = Line(depth: nat, job: nat, cut: bool)

  /** What to do once `stop` has returned. */
  datatype Then = GiveUp | Leave

  datatype Pc =
    | Search                 // inside the search at the depth of the job
    | PollDepth              // in `mustStop`, about to read the shared depth
    | StopSwap(next: Then)   // in `stop`, about to set the flag
    | StopLock(next: Then)   // about to lock and unlock
    | StopNotify(next: Then)
    | CheckStopped           // the search has returned
    | Finish                 // about to swap the shared depth
    | Publish                // about to add the line
    | PublishNotify
    | Outside                // a caller of `stop` that is no job
    | Done

  /** `cut` tells that `mustStop` was true at some time since the search at this depth began. */
  datatype Job = Job(pc: Pc, depth: nat, counter: nat, cut: bool)

  datatype Event = Timeout | Stopped | NewLines

  datatype Reader = Away | Holding | Asleep | Awake

  datatype State = State(
    maxDepth: nat,
    jobs: seq<Job>,
    depth: nat,
    stopped: bool,
    lines: seq<Line>,
    handled: seq<Line>,
    reader: Reader,
    events: seq<Event>)

  datatype Step =
    | Poll(j: nat, late: bool)
    | Return(j: nat)
    | CallStop(j: nat)
    | Go(j: nat)
    | Wait
    | Sleep
    | Wake
    | Extract

  predicate Enabled(s: State, step: Step) {
    match step
    case Poll(j, _) => j < |s.jobs| && s.jobs[j].pc.Search?
    case Return(j) => j < |s.jobs| && s.jobs[j].pc.Search?
    case CallStop(j) => j < |s.jobs| && s.jobs[j].pc.Outside?
    case Go(j) =>
      && j < |s.jobs|
      && !s.jobs[j].pc.Search? && !s.jobs[j].pc.Outside? && !s.jobs[j].pc.Done?
      && (s.jobs[j].pc.StopLock? || s.jobs[j].pc.Publish? ==> !s.reader.Holding?)
    case Wait => s.reader.Away? || s.reader.Awake?
    case Sleep => s.reader.Holding?
    case Wake => s.reader.Asleep?
    case Extract => s.reader.Away?
  }

  function At(s: State, j: nat, job: Job): State
    requires j < |s.jobs|
  {
    s.(jobs := s.jobs[j := job])
  }

  /** One call of `mustStop`, up to the reading of the shared depth. Every 1024th call looks at the
      clock instead of the depth. */
  function PollStep(s: State, j: nat, late: bool): State
    requires j < |s.jobs|
  {
    var job := s.jobs[j];
    if s.stopped then At(s, j, job.(cut := true))
    else
      var counted := job.(counter := job.counter + 1);
      if counted.counter % 1024 != 0 then At(s, j, counted.(pc := PollDepth))
      else if late then At(s, j, counted.(pc := StopSwap(GiveUp)))
      else At(s, j, counted)
  }

  /** Where a job goes on after `stop`. */
  function AfterStop(job: Job): Job
    requires job.pc.StopSwap? || job.pc.StopNotify?
  {
    if job.pc.next.GiveUp? then job.(pc := Search, cut := true) else job.(pc := Done)
  }

  function NextDepth(maxDepth: nat, job: Job): Job {
    if job.depth < maxDepth then job.(pc := Search, depth := job.depth + 1, cut := false)
    else job.(pc := StopSwap(Leave))
  }

  function Notified(r: Reader): Reader {
    if r.Asleep? then Awake else r
  }

  function GoStep(s: State, j: nat): State
    requires Enabled(s, Go(j))
  {
    var job := s.jobs[j];
    match job.pc
    case PollDepth => At(s, j, job.(pc := Search, cut := job.cut || s.depth != job.depth))
    case StopSwap(next) =>
      if s.stopped then At(s, j, AfterStop(job))
      else At(s, j, job.(pc := StopLock(next))).(stopped := true)
    case StopLock(next) => At(s, j, job.(pc := StopNotify(next)))
    case StopNotify(_) => At(s, j, AfterStop(job)).(reader := Notified(s.reader))
    case CheckStopped => At(s, j, job.(pc := if s.stopped then Done else Finish))
    case Finish =>
      if s.depth == job.depth then At(s, j, job.(pc := Publish)).(depth := job.depth + 1)
      else At(s, j, NextDepth(s.maxDepth, job))
    case Publish => At(s, j, job.(pc := PublishNotify)).(lines := s.lines + [Line(job.depth, j, job.cut)])
    case PublishNotify => At(s, j, NextDepth(s.maxDepth, job)).(reader := Notified(s.reader))
  }

  /** What `checkEventUnlocked` tells: new lines come first. */
  function EventOf(s: State): Event {
    if s.lines != [] then NewLines else if s.stopped then Stopped else Timeout
  }

  function Apply(s: State, step: Step): State
    requires Enabled(s, step)
  {
    match step
    case Poll(j, late) => PollStep(s, j, late)
    case Return(j) => At(s, j, s.jobs[j].(pc := CheckStopped))
    case CallStop(j) => At(s, j, s.jobs[j].(pc := StopSwap(Leave)))
    case Go(j) => GoStep(s, j)
    case Wait =>
      if s.reader.Away? && EventOf(s).Timeout? then s.(reader := Holding)
      else s.(reader := Away, events := s.events + [EventOf(s)])
    case Sleep => s.(reader := Asleep)
    case Wake => s.(reader := Awake)
    case Extract => s.(handled := s.handled + s.lines, lines := [])
  }

  predicate IsRun(s: State, steps: seq<Step>)
    decreases steps
  {
    steps == [] || (Enabled(s, steps[0]) && IsRun(Apply(s, steps[0]), steps[1..]))
  }

  function After(s: State, steps: seq<Step>): State
    requires IsRun(s, steps)
    decreases steps
  {
    if steps == [] then s else After(Apply(s, steps[0]), steps[1..])
  }

  /** `n` jobs that are about to start and `m` callers of `stop`. */
  function Init(n: nat, m: nat, maxDepth: nat): State {
    State(maxDepth,
      seq(n + m, j => Job(
        if j >= n then Outside else if maxDepth >= 1 then Search else StopSwap(Leave), 1, 0, false)),
      1, false, [], [], Away, [])
  }

  // ---- Invariants ----

  /** A cut at the depth of the job means that the flag is set or that the depth was passed for good;
      past the check of the flag, it means the second. */
  predicate JobOk(depth: nat, stopped: bool, job: Job) {
    && 1 <= job.depth <= depth
    && (job.pc.Finish? || (job.cut ==> stopped || job.depth < depth))
    && (job.pc.Finish? && job.cut ==> job.depth < depth)
    && (job.pc.Publish? || job.pc.PublishNotify? ==> !job.cut && job.depth < depth)
    && (job.pc.StopLock? || job.pc.StopNotify? || job.pc.Done? ==> stopped)
  }

  predicate JobsOk(s: State) {
    forall j :: 0 <= j < |s.jobs| ==> JobOk(s.depth, s.stopped, s.jobs[j])
  }

  /** All lines ever added. */
  function Published(s: State): seq<Line> {
    s.handled + s.lines
  }

  predicate DistinctLines(lines: seq<Line>) {
    forall i, k :: 0 <= i < k < |lines| ==> lines[i].depth != lines[k].depth
  }

  predicate IsPublishing(s: State, j: nat, d: nat) {
    j < |s.jobs| && s.jobs[j].pc.Publish? && s.jobs[j].depth == d
  }

  predicate HasLine(lines: seq<Line>, d: nat) {
    exists i :: 0 <= i < |lines| && lines[i].depth == d
  }

  /** Every depth below the shared one has one line, which is added or about to be added by the one job
      that won the depth. */
  ghost predicate LinesOk(s: State) {
    && DistinctLines(Published(s))
    && (forall i :: 0 <= i < |Published(s)| ==> !Published(s)[i].cut && 1 <= Published(s)[i].depth < s.depth)
    && (forall j: nat, k: nat, d: nat :: IsPublishing(s, j, d) && IsPublishing(s, k, d) ==> j == k)
    && (forall j: nat, d: nat :: IsPublishing(s, j, d) ==> !HasLine(Published(s), d))
    && (forall d :: 1 <= d < s.depth ==> HasLine(Published(s), d) || exists j :: IsPublishing(s, j, d))
  }

  predicate WillNotify(job: Job, stop: bool) {
    if stop then job.pc.StopLock? || job.pc.StopNotify? else job.pc.PublishNotify?
  }

  predicate AnyWillNotify(s: State, stop: bool) {
    exists j :: 0 <= j < |s.jobs| && WillNotify(s.jobs[j], stop)
  }

  /** The reader holds the lock with the flag set only while the thread that set it waits for the lock. */
  predicate AnyAtLock(s: State) {
    exists j :: 0 <= j < |s.jobs| && s.jobs[j].pc.StopLock?
  }

  /** While the reader sleeps, or is about to, it has missed nothing. */
  predicate ReaderOk(s: State) {
    && (s.reader.Holding? ==> s.lines == [] && (s.stopped ==> AnyAtLock(s)))
    && (s.reader.Asleep? && s.stopped ==> AnyWillNotify(s, true))
    && (s.reader.Asleep? && s.lines != [] ==> AnyWillNotify(s, false))
  }

  ghost predicate Inv(s: State) {
    1 <= s.depth && JobsOk(s) && LinesOk(s) && ReaderOk(s)
  }

  lemma InitOk(n: nat, m: nat, maxDepth: nat)
    ensures Inv(Init(n, m, maxDepth))
  {}

  lemma JobsStep(s: State, step: Step)
    requires Enabled(s, step) && JobsOk(s)
    ensures JobsOk(Apply(s, step)) && s.depth <= Apply(s, step).depth
    ensures s.stopped ==> Apply(s, step).stopped
  {}

  /** Nothing that the lines depend on has changed. */
  lemma LinesQuiet(s: State, t: State)
    requires LinesOk(s) && t.depth == s.depth && Published(t) == Published(s)
    requires forall j: nat, d: nat :: IsPublishing(s, j, d) <==> IsPublishing(t, j, d)
    ensures LinesOk(t)
  {}

  /** A job has won its depth: the first to finish it. */
  lemma DepthWon(s: State, j: nat)
    requires Enabled(s, Go(j)) && JobsOk(s) && LinesOk(s) && 1 <= s.depth
    requires s.jobs[j].pc.Finish? && s.depth == s.jobs[j].depth
    ensures LinesOk(GoStep(s, j))
  {
    var t := GoStep(s, j);
    assert Published(t) == Published(s);
    assert IsPublishing(t, j, s.depth);
    assert forall k: nat, d: nat :: k != j ==> (IsPublishing(t, k, d) <==> IsPublishing(s, k, d));
    assert forall k: nat, d: nat :: IsPublishing(s, k, d) ==> k != j && d < s.depth;
    hide IsPublishing;
    hide Published;
    forall d | 1 <= d < t.depth && !HasLine(Published(t), d)
      ensures exists k :: IsPublishing(t, k, d)
    {
      if d == s.depth {
        assert IsPublishing(t, j, d);
      } else {
        var k :| IsPublishing(s, k, d);
        assert IsPublishing(t, k, d);
      }
    }
  }

  /** The winner adds its line. */
  lemma LineAdded(s: State, j: nat)
    requires Enabled(s, Go(j)) && JobsOk(s) && LinesOk(s) && s.jobs[j].pc.Publish?
    ensures LinesOk(GoStep(s, j))
  {
    var t, n, d0 := GoStep(s, j), |Published(s)|, s.jobs[j].depth;
    assert IsPublishing(s, j, d0);
    assert JobOk(s.depth, s.stopped, s.jobs[j]);
    assert Published(t) == Published(s) + [Line(d0, j, false)];
    assert forall k: nat, d: nat :: IsPublishing(t, k, d) <==> k != j && IsPublishing(s, k, d);
    hide IsPublishing;
    hide Published;
    forall d | HasLine(Published(s), d) || d == d0
      ensures HasLine(Published(t), d)
    {
      if d == d0 {
        assert Published(t)[n].depth == d;
      } else {
        var i :| 0 <= i < |Published(s)| && Published(s)[i].depth == d;
        assert Published(t)[i].depth == d;
      }
    }
    forall k: nat, d: nat | IsPublishing(t, k, d)
      ensures !HasLine(Published(t), d)
    {
      assert !HasLine(Published(s), d) && d != d0;
    }
    forall d | 1 <= d < t.depth && !HasLine(Published(t), d)
      ensures exists k :: IsPublishing(t, k, d)
    {
      var k :| IsPublishing(s, k, d);
      assert IsPublishing(t, k, d);
    }
  }

  lemma LinesStep(s: State, step: Step)
    requires Enabled(s, step) && JobsOk(s) && LinesOk(s) && 1 <= s.depth
    ensures LinesOk(Apply(s, step))
  {
    hide LinesOk;
    hide JobsOk;
    if step.Go? && s.jobs[step.j].pc.Publish? {
      LineAdded(s, step.j);
    } else if step.Go? && s.jobs[step.j].pc.Finish? && s.depth == s.jobs[step.j].depth {
      DepthWon(s, step.j);
    } else {
      LinesQuiet(s, Apply(s, step));
    }
  }

  lemma ReaderStep(s: State, step: Step)
    requires Enabled(s, step) && JobsOk(s) && ReaderOk(s)
    ensures ReaderOk(Apply(s, step))
  {
    var t := Apply(s, step);
    hide JobsOk;
    if s.reader.Holding? && s.stopped {
      var j :| 0 <= j < |s.jobs| && s.jobs[j].pc.StopLock?;
      assert t.jobs[j].pc.StopLock? && WillNotify(t.jobs[j], true);
    }
    forall stop | s.reader.Asleep? && t.reader.Asleep? && AnyWillNotify(s, stop)
      ensures AnyWillNotify(t, stop)
    {
      var j :| 0 <= j < |s.jobs| && WillNotify(s.jobs[j], stop);
      assert WillNotify(t.jobs[j], stop);
    }
    if step.Go? {
      assert t.stopped && !s.stopped ==> t.jobs[step.j].pc.StopLock? && WillNotify(t.jobs[step.j], true);
      assert t.lines != s.lines ==> WillNotify(t.jobs[step.j], false);
    }
  }

  lemma StepKeepsInv(s: State, step: Step)
    requires Enabled(s, step) && Inv(s)
    ensures Inv(Apply(s, step))
  {
    hide JobsOk;
    hide LinesOk;
    hide ReaderOk;
    hide Apply;
    JobsStep(s, step);
    LinesStep(s, step);
    ReaderStep(s, step);
  }

  lemma {:induction false} RunKeepsInv(s: State, steps: seq<Step>)
    requires IsRun(s, steps) && Inv(s)
    ensures Inv(After(s, steps))
    decreases steps
  {
    hide Inv;
    hide Apply;
    if steps != [] {
      StepKeepsInv(s, steps[0]);
      RunKeepsInv(Apply(s, steps[0]), steps[1..]);
    }
  }

  /** Of two lines ever added no two have the same depth, and none comes from a search that was cut
      short. Every depth that was passed has its line, or the job that won it is about to add it. */
  lemma OneLinePerDepth(n: nat, m: nat, maxDepth: nat, steps: seq<Step>)
    requires IsRun(Init(n, m, maxDepth), steps)
    ensures var s := After(Init(n, m, maxDepth), steps);
      && DistinctLines(Published(s))
      && (forall line :: line in Published(s) ==> !line.cut && 1 <= line.depth < s.depth)
      && (forall d: nat :: 1 <= d < s.depth ==> HasLine(Published(s), d) || exists j :: IsPublishing(s, j, d))
  {
    InitOk(n, m, maxDepth);
    RunKeepsInv(Init(n, m, maxDepth), steps);
    hide After;
    hide Init;
  }

  /** Taking the lines leaves none behind, and gives those of all passed depths but for the one that the job that
      won it is about to add. */
  lemma ExtractTakesAll(n: nat, m: nat, maxDepth: nat, steps: seq<Step>)
    requires IsRun(Init(n, m, maxDepth), steps) && Enabled(After(Init(n, m, maxDepth), steps), Extract)
    ensures var s := After(Init(n, m, maxDepth), steps); var t := Apply(s, Extract);
      && t.lines == [] && t.handled == Published(s)
      && (forall d: nat :: 1 <= d < t.depth ==> HasLine(t.handled, d) || exists j :: IsPublishing(t, j, d))
  {
    OneLinePerDepth(n, m, maxDepth, steps);
    hide After;
    hide Init;
    hide HasLine;
    var s := After(Init(n, m, maxDepth), steps);
    forall d: nat | 1 <= d < s.depth
      ensures HasLine(Published(s), d) || exists j :: IsPublishing(Apply(s, Extract), j, d)
    {
      if !HasLine(Published(s), d) {
        var j :| IsPublishing(s, j, d);
        assert IsPublishing(Apply(s, Extract), j, d);
      }
    }
  }

  /** The job is still in the round in which it was cut, and not past it. */
  lemma {:induction false} CutIsFinal(s: State, steps: seq<Step>, j: nat)
    requires Inv(s) && IsRun(s, steps) && j < |s.jobs| && s.jobs[j].cut
    ensures var t := After(s, steps);
      && j < |t.jobs|
      && (t.jobs[j].depth == s.jobs[j].depth ==> t.jobs[j].cut && !t.jobs[j].pc.Publish?)
      && s.jobs[j].depth <= t.jobs[j].depth
    decreases steps
  {
    hide Inv;
    CutOrMovedOn(s, j);
    if steps != [] {
      var t := Apply(s, steps[0]);
      StepKeepsInv(s, steps[0]);
      CutStep(s, steps[0], j);
      hide Apply;
      if t.jobs[j].depth == s.jobs[j].depth {
        CutIsFinal(t, steps[1..], j);
      } else {
        DepthGrows(t, steps[1..], j);
      }
    }
  }

  lemma CutOrMovedOn(s: State, j: nat)
    requires Inv(s) && j < |s.jobs| && s.jobs[j].cut
    ensures !s.jobs[j].pc.Publish?
    ensures s.stopped || s.jobs[j].depth < s.depth
  {
    hide LinesOk;
    hide ReaderOk;
    assert JobOk(s.depth, s.stopped, s.jobs[j]);
  }

  lemma CutStep(s: State, step: Step, j: nat)
    requires Enabled(s, step) && j < |s.jobs|
    ensures var t := Apply(s, step);
      && |t.jobs| == |s.jobs|
      && s.jobs[j].depth <= t.jobs[j].depth
      && (t.jobs[j].depth == s.jobs[j].depth && s.jobs[j].cut ==> t.jobs[j].cut)
  {}

  lemma {:induction false} DepthGrows(s: State, steps: seq<Step>, j: nat)
    requires IsRun(s, steps) && j < |s.jobs|
    ensures var t := After(s, steps); j < |t.jobs| && s.jobs[j].depth <= t.jobs[j].depth
    decreases steps
  {
    if steps != [] {
      CutStep(s, steps[0], j);
      DepthGrows(Apply(s, steps[0]), steps[1..], j);
    }
  }

  /** The next line of a job that is at most one step of its own away from adding one. */
  predicate MayPublish(s: State, j: nat)
    requires j < |s.jobs|
  {
    s.jobs[j].pc.Publish? || (s.jobs[j].pc.Finish? && s.jobs[j].depth == s.depth)
  }

  /** No job will add a line any more. */
  predicate NoMoreLines(s: State) {
    forall j :: 0 <= j < |s.jobs| ==> !MayPublish(s, j)
  }

  lemma QuietStep(s: State, step: Step)
    requires Enabled(s, step) && s.stopped && s.lines == [] && NoMoreLines(s)
    ensures var t := Apply(s, step); t.stopped && t.lines == [] && NoMoreLines(t)
  {
    var t := Apply(s, step);
    assert step.Go? ==> !MayPublish(s, step.j);
    forall j | 0 <= j < |t.jobs|
      ensures !MayPublish(t, j)
    {
      assert !MayPublish(s, j);
    }
  }

  lemma {:induction false} QuietRun(s: State, steps: seq<Step>)
    requires IsRun(s, steps) && s.stopped && s.lines == [] && NoMoreLines(s)
    ensures EventOf(After(s, steps)).Stopped?
    decreases steps
  {
    hide Apply;
    if steps != [] {
      QuietStep(s, steps[0]);
      hide NoMoreLines;
      QuietRun(Apply(s, steps[0]), steps[1..]);
    }
  }

  lemma OneMoreStep(s: State, step: Step, steps: seq<Step>)
    requires Enabled(s, step) && IsRun(Apply(s, step), steps)
    ensures IsRun(s, [step] + steps) && After(s, [step] + steps) == After(Apply(s, step), steps)
  {
    var all := [step] + steps;
    assert all[0] == step && all[1..] == steps;
    assert IsRun(s, all) <==> Enabled(s, all[0]) && IsRun(Apply(s, all[0]), all[1..]);
  }

  /** A run in which job `j` adds its late line; the reader first lets go of the lock. */
  lemma LateLine(s: State, j: nat) returns (steps: seq<Step>)
    requires j < |s.jobs| && MayPublish(s, j)
    ensures IsRun(s, steps) && EventOf(After(s, steps)).NewLines?
    decreases s.reader.Holding?, s.jobs[j].pc.Finish?
  {
    var step := if s.reader.Holding? then Sleep else Go(j);
    var t := Apply(s, step);
    if step.Go? && s.jobs[j].pc.Publish? {
      assert IsRun(t, []) && After(t, []) == t;
      OneMoreStep(s, step, []);
      return [step] + [];
    }
    var rest := LateLine(t, j);
    OneMoreStep(s, step, rest);
    return [step] + rest;
  }

  /** The flag and an empty list make `Stopped` the answer of every later call exactly when no job is
      about to win its depth or to add a line: a late line is reported first. */
  lemma StoppedIsFinal(s: State)
    requires s.stopped && s.lines == []
    ensures (forall steps :: IsRun(s, steps) ==> EventOf(After(s, steps)).Stopped?) <==> NoMoreLines(s)
  {
    if NoMoreLines(s) {
      forall steps | IsRun(s, steps)
        ensures EventOf(After(s, steps)).Stopped?
      {
        QuietRun(s, steps);
      }
    } else {
      var j :| 0 <= j < |s.jobs| && MayPublish(s, j);
      var steps := LateLine(s, j);
    }
    hide Inv;
    hide Apply;
  }

  /** A late line in one concrete run: the reader is told `Stopped`, and `NewLines` after that. */
  lemma StoppedIsNotPermanent() returns (steps: seq<Step>)
    ensures IsRun(Init(1, 1, 1), steps) && After(Init(1, 1, 1), steps).events == [Stopped, NewLines]
  {
    var s0 := Init(1, 1, 1);
    var s1 := Apply(s0, Return(0));
    var s2 := Apply(s1, Go(0));
    var s3 := Apply(s2, CallStop(1));
    var s4 := Apply(s3, Go(1));
    var s5 := Apply(s4, Wait);
    var s6 := Apply(s5, Go(0));
    var s7 := Apply(s6, Go(0));
    var s8 := Apply(s7, Wait);
    assert s8.events == [Stopped, NewLines];
    assert After(s8, []) == s8;
    hide Apply;
    hide Enabled;
    OneMoreStep(s7, Wait, []);
    OneMoreStep(s6, Go(0), [Wait] + []);
    OneMoreStep(s5, Go(0), [Go(0)] + ([Wait] + []));
    steps := [Go(0)] + ([Go(0)] + ([Wait] + []));
    OneMoreStep(s4, Wait, steps);
    OneMoreStep(s3, Go(1), [Wait] + steps);
    steps := [Go(1)] + ([Wait] + steps);
    OneMoreStep(s2, CallStop(1), steps);
    OneMoreStep(s1, Go(0), [CallStop(1)] + steps);
    steps := [Go(0)] + ([CallStop(1)] + steps);
    OneMoreStep(s0, Return(0), steps);
    steps := [Return(0)] + steps;
  }

  /** A sleeping reader has missed nothing: when the flag is set or lines wait, a thread that will wake
      it is on its way. */
  lemma ReaderIsWoken(n: nat, m: nat, maxDepth: nat, steps: seq<Step>)
    requires IsRun(Init(n, m, maxDepth), steps)
    ensures var s := After(Init(n, m, maxDepth), steps);
      s.reader.Asleep? && !EventOf(s).Timeout? ==> AnyWillNotify(s, true) || AnyWillNotify(s, false)
  {
    InitOk(n, m, maxDepth);
    RunKeepsInv(Init(n, m, maxDepth), steps);
    hide After;
    hide Init;
    hide LinesOk;
    hide JobsOk;
  }

  /** A job leaves only when the stop flag is set. */
  lemma DoneMeansStopped(n: nat, m: nat, maxDepth: nat, steps: seq<Step>, j: nat)
    requires IsRun(Init(n, m, maxDepth), steps)
    requires var s := After(Init(n, m, maxDepth), steps); j < |s.jobs| && s.jobs[j].pc.Done?
    ensures After(Init(n, m, maxDepth), steps).stopped
  {
    InitOk(n, m, maxDepth);
    RunKeepsInv(Init(n, m, maxDepth), steps);
    hide After;
    hide Init;
    hide LinesOk;
    hide ReaderOk;
  }

  // ---- When a job is told to stop, and when not ----

  /** The job is inside a call of `mustStop`. */
  predicate IsPolling(job: Job) {
    job.pc.PollDepth? || ((job.pc.StopSwap? || job.pc.StopLock? || job.pc.StopNotify?) && job.pc.next.GiveUp?)
  }

  predicate IsStepOf(step: Step, j: nat) {
    (step.Poll? || step.Return? || step.CallStop? || step.Go?) && step.j == j
  }

  /** A call of `mustStop` that returns has told the job to stop exactly when it saw the flag or, if it came to look
      at the shared depth, another depth than its own. One that goes on has told nothing yet. */
  lemma PollAnswers(s: State, step: Step, j: nat)
    requires Enabled(s, step) && JobsOk(s) && IsStepOf(step, j) && (step.Poll? || (step.Go? && IsPolling(s.jobs[j])))
    ensures var t := Apply(s, step);
      && t.jobs[j].depth == s.jobs[j].depth && (t.jobs[j].pc.Search? || IsPolling(t.jobs[j]))
      && (t.jobs[j].pc.Search? ==>
           (t.jobs[j].cut <==>
              (s.jobs[j].cut || if s.jobs[j].pc.PollDepth? then s.depth != s.jobs[j].depth else t.stopped)))
      && (!t.jobs[j].pc.Search? ==> t.jobs[j].cut == s.jobs[j].cut)
    ensures step.Poll? && s.stopped ==> Apply(s, step).jobs[j].cut
    ensures step.Poll? && !s.stopped && (s.jobs[j].counter + 1) % 1024 != 0 ==> Apply(s, step).jobs[j].pc.PollDepth?
    ensures step.Poll? && !s.stopped && (s.jobs[j].counter + 1) % 1024 == 0 ==>
      (step.late <==> Apply(s, step).jobs[j].pc == StopSwap(GiveUp))
  {
    assert JobOk(s.depth, s.stopped, s.jobs[j]);
  }

  /** The step with which job `j` is told to stop. */
  predicate TellsStop(s: State, step: Step, j: nat)
    requires Enabled(s, step) && j < |s.jobs|
  {
    && IsStepOf(step, j)
    && match step
       case Poll(_, _) => s.stopped
       case Go(_) =>
         || (s.jobs[j].pc.PollDepth? && s.depth != s.jobs[j].depth)
         || (s.jobs[j].pc == StopSwap(GiveUp) && s.stopped)
         || s.jobs[j].pc == StopNotify(GiveUp)
       case _ => false
  }

  ghost predicate ToldToStop(s: State, steps: seq<Step>, j: nat)
    requires IsRun(s, steps) && j < |s.jobs|
    decreases steps
  {
    steps != [] && (TellsStop(s, steps[0], j) || (SameJobs(s, steps[0]); ToldToStop(Apply(s, steps[0]), steps[1..], j)))
  }

  lemma SameJobs(s: State, step: Step)
    requires Enabled(s, step)
    ensures |Apply(s, step).jobs| == |s.jobs|
  {}

  lemma CutByStep(s: State, step: Step, j: nat)
    requires Enabled(s, step) && j < |s.jobs|
    ensures var t := Apply(s, step);
      j < |t.jobs| && s.jobs[j].depth <= t.jobs[j].depth
      && (t.jobs[j].depth == s.jobs[j].depth ==> (t.jobs[j].cut <==> s.jobs[j].cut || TellsStop(s, step, j)))
  {}

  /** Over a run within one depth: the job counts as cut exactly when it was told to stop. */
  lemma {:induction false} CutMeansTold(s: State, steps: seq<Step>, j: nat)
    requires IsRun(s, steps) && j < |s.jobs|
    ensures var t := After(s, steps);
      && j < |t.jobs|
      && (t.jobs[j].depth == s.jobs[j].depth ==> (t.jobs[j].cut <==> s.jobs[j].cut || ToldToStop(s, steps, j)))
    decreases steps
  {
    hide TellsStop;
    if steps != [] {
      CutByStep(s, steps[0], j);
      DepthGrows(Apply(s, steps[0]), steps[1..], j);
      hide Apply;
      CutMeansTold(Apply(s, steps[0]), steps[1..], j);
    }
  }

  /** The job has found the clock late, and has not come out of the call yet. */
  predicate IsGivingUp(job: Job) {
    IsPolling(job) && !job.pc.PollDepth?
  }

  lemma GivingUpStep(s: State, step: Step, j: nat)
    requires Enabled(s, step) && JobsOk(s) && j < |s.jobs|
    requires IsGivingUp(s.jobs[j]) || (s.jobs[j].cut && s.stopped)
    ensures var t := Apply(s, step);
      && |t.jobs| == |s.jobs| && s.jobs[j].depth <= t.jobs[j].depth
      && (t.jobs[j].depth == s.jobs[j].depth ==> IsGivingUp(t.jobs[j]) || (t.jobs[j].cut && t.stopped))
  {
    assert JobOk(s.depth, s.stopped, s.jobs[j]);
  }

  /** A late clock is noticed: the job that found it late comes out of the call with the flag set, and is cut. */
  lemma {:induction false} LateMeansStopped(s: State, steps: seq<Step>, j: nat)
    requires IsRun(s, steps) && JobsOk(s) && j < |s.jobs|
    requires IsGivingUp(s.jobs[j]) || (s.jobs[j].cut && s.stopped)
    ensures var t := After(s, steps);
      && j < |t.jobs|
      && (t.jobs[j].depth == s.jobs[j].depth ==> IsGivingUp(t.jobs[j]) || (t.jobs[j].cut && t.stopped))
    decreases steps
  {
    if steps != [] {
      hide IsGivingUp;
      JobsStep(s, steps[0]);
      GivingUpStep(s, steps[0], j);
      DepthGrows(Apply(s, steps[0]), steps[1..], j);
      hide Apply;
      hide JobsOk;
      if Apply(s, steps[0]).jobs[j].depth == s.jobs[j].depth {
        LateMeansStopped(Apply(s, steps[0]), steps[1..], j);
      }
    }
  }

  /** Past the check of the flag, and so on the way to one more depth. */
  predicate IsPastCheck(job: Job) {
    job.pc.Finish? || job.pc.Publish? || job.pc.PublishNotify?
  }

  /** Once the flag is set, a job begins at most one more depth, and only if it was past the check. */
  lemma {:induction false} StopIsObeyed(s: State, steps: seq<Step>, j: nat)
    requires IsRun(s, steps) && s.stopped && j < |s.jobs|
    ensures var t := After(s, steps);
      && t.stopped && j < |t.jobs|
      && t.jobs[j].depth + (if IsPastCheck(t.jobs[j]) then 1 else 0)
         <= s.jobs[j].depth + (if IsPastCheck(s.jobs[j]) then 1 else 0)
    decreases steps
  {
    if steps != [] {
      ObeyedStep(s, steps[0], j);
      hide Apply;
      hide IsPastCheck;
      StopIsObeyed(Apply(s, steps[0]), steps[1..], j);
    }
  }

  lemma ObeyedStep(s: State, step: Step, j: nat)
    requires Enabled(s, step) && s.stopped && j < |s.jobs|
    ensures var t := Apply(s, step);
      && t.stopped && j < |t.jobs|
      && t.jobs[j].depth + (if IsPastCheck(t.jobs[j]) then 1 else 0)
         <= s.jobs[j].depth + (if IsPastCheck(s.jobs[j]) then 1 else 0)
  {}

  /** Nobody has set the flag or is about to. */
  predicate NobodyStops(s: State) {
    !s.stopped && forall j :: 0 <= j < |s.jobs| ==>
      !s.jobs[j].pc.StopSwap? && !s.jobs[j].pc.StopLock? && !s.jobs[j].pc.StopNotify?
  }

  /** The step calls `stop` from outside or finds the clock late. */
  predicate AsksToStop(step: Step) {
    step.CallStop? || (step.Poll? && step.late)
  }

  lemma NobodyStopsStep(s: State, step: Step)
    requires Enabled(s, step) && NobodyStops(s) && !AsksToStop(step)
    ensures NobodyStops(Apply(s, step)) || (step.Go? && s.jobs[step.j].depth >= s.maxDepth)
    ensures Apply(s, step).maxDepth == s.maxDepth && (step.Go? ==> step.j < |s.jobs|)
  {}

  /** The flag is set for a reason only: a call from outside, a late clock, or a job at its last depth. */
  lemma {:induction false} StopHasReason(s: State, steps: seq<Step>)
    requires IsRun(s, steps) && NobodyStops(s)
    requires forall k :: 0 <= k < |steps| ==> !AsksToStop(steps[k])
    requires forall j :: 0 <= j < |After(s, steps).jobs| ==> After(s, steps).jobs[j].depth < s.maxDepth
    ensures NobodyStops(After(s, steps))
    decreases steps
  {
    hide AsksToStop;
    hide NobodyStops;
    if steps != [] {
      var step := steps[0];
      assert !AsksToStop(step);
      NobodyStopsStep(s, step);
      assert forall k :: 0 <= k < |steps[1..]| ==> steps[1..][k] == steps[k + 1];
      if step.Go? {
        DepthGrows(s, steps, step.j);
        assert After(s, steps).jobs[step.j].depth < s.maxDepth;
      }
      hide Apply;
      hide Enabled;
      assert NobodyStops(Apply(s, step));
      assert After(s, steps) == After(Apply(s, step), steps[1..]);
      StopHasReason(Apply(s, step), steps[1..]);
    }
  }
}
