/** The buffered blocking queue: one mutex, two condition variables and `notify_one`. Every thread
    takes atomic steps, in any order and with spurious wakeups. Proved over all runs: the queue is
    FIFO within its capacity, loses and repeats nothing, and no wakeup is ever lost. */
module Queue {
  type Thread = nat

  /** Where a thread is: outside, asleep on a condition variable, awake again but not yet holding
      the mutex, or out of the critical section with notifications still to send. */
  datatype Pc<T> =
    | Idle
    | WaitFull(value: T)
    | RetryPush(value: T)
    | WaitEmpty
    | RetryPop
    | NotifyEmpty
    | NotifyFull
    | NotifyAllEmpty
    | NotifyAllFull

  /** What a call returned, in the order in which the calls took effect. */
  datatype Event<T> =
    | Pushed(i: Thread, value: T)
    | Rejected(i: Thread, value: T)
    | Popped(i: Thread, value: T)
    | Drained(i: Thread)
    | Closed(i: Thread)

  datatype State<T> = State(
    size: nat,
    queue: seq<T>,
    closed: bool,
    threads: seq<Pc<T>>,
    log: seq<Event<T>>)

  datatype Step<T> =
    | Push(i: Thread, value: T)
    | Pop(i: Thread)
    | Close(i: Thread)
    | Resume(i: Thread)
    | Spurious(i: Thread)
    | Notify(i: Thread, waiter: Thread)

  /** The critical section of `push`, entered with the mutex held. */
  function TryPush<T>(s: State<T>, i: Thread, v: T): State<T>
    requires i < |s.threads|
  {
    if s.closed then s.(threads := s.threads[i := Idle], log := s.log + [Rejected(i, v)])
    else if |s.queue| == s.size then s.(threads := s.threads[i := WaitFull(v)])
    else s.(queue := s.queue + [v], threads := s.threads[i := NotifyEmpty], log := s.log + [Pushed(i, v)])
  }

  /** The critical section of `pop`. */
  function TryPop<T>(s: State<T>, i: Thread): State<T>
    requires i < |s.threads|
  {
    if s.queue == [] then
      if s.closed then s.(threads := s.threads[i := Idle], log := s.log + [Drained(i)])
      else s.(threads := s.threads[i := WaitEmpty])
    else
      s.(queue := s.queue[1..], threads := s.threads[i := NotifyEmpty], log := s.log + [Popped(i, s.queue[0])])
  }

  /** The critical section of `close`. */
  function TryClose<T>(s: State<T>, i: Thread): State<T>
    requires i < |s.threads|
  {
    if s.closed then s
    else s.(closed := true, threads := s.threads[i := NotifyAllEmpty], log := s.log + [Closed(i)])
  }

  /** Asleep on the "not full" or on the "not empty" variable. */
  predicate Sleeps<T>(full: bool, pc: Pc<T>) {
    if full then pc.WaitFull? else pc.WaitEmpty?
  }

  predicate AnySleeps<T>(full: bool, threads: seq<Pc<T>>) {
    exists j :: 0 <= j < |threads| && Sleeps(full, threads[j])
  }

  /** A sleeping thread wakes up. */
  function Woken<T>(pc: Pc<T>): Pc<T> {
    if pc.WaitEmpty? then RetryPop else if pc.WaitFull? then RetryPush(pc.value) else pc
  }

  function WakeAllEmpty<T>(threads: seq<Pc<T>>): seq<Pc<T>> {
    seq(|threads|, j requires 0 <= j < |threads| => if threads[j].WaitEmpty? then Woken(threads[j]) else threads[j])
  }

  function WakeAllFull<T>(threads: seq<Pc<T>>): seq<Pc<T>> {
    seq(|threads|, j requires 0 <= j < |threads| => if threads[j].WaitFull? then Woken(threads[j]) else threads[j])
  }

  /** `notify_one` wakes one sleeper of its variable, any of them; with no sleeper it is lost. */
  predicate MayWake<T>(threads: seq<Pc<T>>, i: Thread, waiter: Thread)
    requires i < |threads|
  {
    match threads[i]
    case NotifyEmpty =>
      if AnySleeps(false, threads) then waiter < |threads| && Sleeps(false, threads[waiter]) else waiter == i
    case NotifyFull =>
      if AnySleeps(true, threads) then waiter < |threads| && Sleeps(true, threads[waiter]) else waiter == i
    case NotifyAllEmpty => waiter == i
    case NotifyAllFull => waiter == i
    case _ => false
  }

  predicate Enabled<T>(s: State<T>, step: Step<T>) {
    && step.i < |s.threads|
    && match step
       case Push(i, _) => s.threads[i].Idle?
       case Pop(i) => s.threads[i].Idle?
       case Close(i) => s.threads[i].Idle?
       case Resume(i) => s.threads[i].RetryPush? || s.threads[i].RetryPop?
       case Spurious(i) => s.threads[i].WaitEmpty? || s.threads[i].WaitFull?
       case Notify(i, waiter) => MayWake(s.threads, i, waiter)
  }

  function NotifyStep<T>(threads: seq<Pc<T>>, i: Thread, waiter: Thread): (r: seq<Pc<T>>)
    requires i < |threads| && MayWake(threads, i, waiter)
    ensures |r| == |threads|
  {
    match threads[i]
    case NotifyEmpty => threads[waiter := Woken(threads[waiter])][i := NotifyFull]
    case NotifyFull => threads[waiter := Woken(threads[waiter])][i := Idle]
    case NotifyAllEmpty => WakeAllEmpty(threads)[i := NotifyAllFull]
    case NotifyAllFull => WakeAllFull(threads)[i := Idle]
  }

  function Apply<T>(s: State<T>, step: Step<T>): State<T>
    requires Enabled(s, step)
  {
    match step
    case Push(i, v) => TryPush(s, i, v)
    case Pop(i) => TryPop(s, i)
    case Close(i) => TryClose(s, i)
    case Resume(i) => if s.threads[i].RetryPush? then TryPush(s, i, s.threads[i].value) else TryPop(s, i)
    case Spurious(i) => s.(threads := s.threads[i := Woken(s.threads[i])])
    case Notify(i, waiter) => s.(threads := NotifyStep(s.threads, i, waiter))
  }

  function Init<T>(size: nat, n: nat): State<T> {
    State(size, [], false, seq(n, _ => Idle), [])
  }

  predicate IsRun<T>(s: State<T>, steps: seq<Step<T>>)
    decreases steps
  {
    steps == [] || (Enabled(s, steps[0]) && IsRun(Apply(s, steps[0]), steps[1..]))
  }

  function After<T>(s: State<T>, steps: seq<Step<T>>): State<T>
    requires IsRun(s, steps)
    decreases steps
  {
    if steps == [] then s else After(Apply(s, steps[0]), steps[1..])
  }

  // ---- The sequential queue that the log is compared with ----

  datatype Abstract<T> = Broken | Model(queue: seq<T>, closed: bool)

  /** A bounded queue that is used by one caller at a time. */
  ghost function Serve<T>(size: nat, q: Abstract<T>, e: Event<T>): Abstract<T> {
    if q.Broken? then Broken
    else match e
      case Pushed(_, v) => if !q.closed && |q.queue| < size then q.(queue := q.queue + [v]) else Broken
      case Rejected(_, _) => if q.closed then q else Broken
      case Popped(_, v) => if q.queue != [] && q.queue[0] == v then q.(queue := q.queue[1..]) else Broken
      case Drained(_) => if q.closed && q.queue == [] then q else Broken
      case Closed(_) => if q.closed then Broken else q.(closed := true)
  }

  ghost function Replay<T>(size: nat, log: seq<Event<T>>): Abstract<T> {
    if log == [] then Model([], false) else Serve(size, Replay(size, log[..|log| - 1]), log[|log| - 1])
  }

  lemma ReplayAppend<T>(size: nat, log: seq<Event<T>>, e: Event<T>)
    ensures Replay(size, log + [e]) == Serve(size, Replay(size, log), e)
  {
    assert (log + [e])[..|log|] == log;
  }

  function AllPushed<T>(log: seq<Event<T>>): seq<T> {
    if log == [] then []
    else
      var e, rest := log[|log| - 1], AllPushed(log[..|log| - 1]);
      if e.Pushed? then rest + [e.value] else rest
  }

  function AllPopped<T>(log: seq<Event<T>>): seq<T> {
    if log == [] then []
    else
      var e, rest := log[|log| - 1], AllPopped(log[..|log| - 1]);
      if e.Popped? then rest + [e.value] else rest
  }

  /** First in, first out, with nothing lost or repeated and never more than `size` items held. */
  lemma {:induction false} SequentialIsFifo<T>(size: nat, log: seq<Event<T>>)
    requires Replay(size, log).Model?
    ensures AllPopped(log) + Replay(size, log).queue == AllPushed(log)
    ensures |Replay(size, log).queue| <= size
  {
    if log != [] {
      var before, e := log[..|log| - 1], log[|log| - 1];
      SequentialIsFifo(size, before);
      var q := Replay(size, before).queue;
      if e.Popped? {
        assert AllPopped(before) + q == (AllPopped(before) + [q[0]]) + q[1..];
      }
    }
  }

  // ---- Notifications ----

  /** Wakeups on their way to a consumer because of this thread: one that it is still to send on the
      "not empty" variable, or one that it received and has not yet acted on. */
  function EmptyCredit<T>(pc: Pc<T>): nat {
    if pc.RetryPop? || pc.NotifyEmpty? then 1 else 0
  }

  function FullCredit<T>(pc: Pc<T>): nat {
    if pc.RetryPush? || pc.NotifyEmpty? || pc.NotifyFull? then 1 else 0
  }

  function Credit<T>(full: bool, pc: Pc<T>): nat {
    if full then FullCredit(pc) else EmptyCredit(pc)
  }

  function Credits<T>(full: bool, threads: seq<Pc<T>>): nat {
    if threads == [] then 0 else Credit(full, threads[0]) + Credits(full, threads[1..])
  }

  lemma {:induction false} CreditsUpdate<T>(full: bool, threads: seq<Pc<T>>, i: Thread, pc: Pc<T>)
    requires i < |threads|
    ensures Credits(full, threads[i := pc]) == Credits(full, threads) - Credit(full, threads[i]) + Credit(full, pc)
  {
    hide Credit;
    if i > 0 {
      CreditsUpdate(full, threads[1..], i - 1, pc);
      assert threads[i := pc][1..] == threads[1..][i - 1 := pc];
    } else {
      assert threads[i := pc][1..] == threads[1..];
    }
  }

  /** While a consumer sleeps on an open queue, every item has a wakeup of its own on the way; while a
      producer sleeps, every free slot has. */
  predicate NoLostWakeup<T>(s: State<T>) {
    !s.closed ==>
      && (AnySleeps(false, s.threads) ==> |s.queue| <= Credits(false, s.threads))
      && (AnySleeps(true, s.threads) ==> s.size - |s.queue| <= Credits(true, s.threads))
  }

  predicate WillNotifyAll<T>(full: bool, pc: Pc<T>) {
    pc.NotifyAllEmpty? || (full && pc.NotifyAllFull?)
  }

  predicate AnyWillNotifyAll<T>(full: bool, threads: seq<Pc<T>>) {
    exists j :: 0 <= j < |threads| && WillNotifyAll(full, threads[j])
  }

  /** Whoever still sleeps after the closing will be woken by the thread that closed. */
  predicate ClosingReachesAll<T>(s: State<T>) {
    && (AnyWillNotifyAll(true, s.threads) ==> s.closed)
    && (s.closed ==> forall full :: AnySleeps(full, s.threads) ==> AnyWillNotifyAll(full, s.threads))
  }

  /** The log is a history of the sequential queue, which ends in the current contents. */
  ghost predicate LogIsHistory<T>(s: State<T>) {
    Replay(s.size, s.log) == Model(s.queue, s.closed)
  }

  ghost predicate Inv<T>(s: State<T>) {
    LogIsHistory(s) && NoLostWakeup(s) && ClosingReachesAll(s)
  }

  /** A step answers at most one call, as the sequential queue would. */
  lemma StepServes<T>(s: State<T>, step: Step<T>)
    requires Enabled(s, step) && |s.queue| <= s.size
    ensures var t, n := Apply(s, step), |s.log|;
      && t.size == s.size
      && (|| (t.log == s.log && t.queue == s.queue && t.closed == s.closed)
          || (|t.log| == n + 1 && t.log == s.log + [t.log[n]]
              && Serve(s.size, Model(s.queue, s.closed), t.log[n]) == Model(t.queue, t.closed)))
  {}

  /** The answers that a call of this step can have. */
  ghost predicate IsAnswer<T>(s: State<T>, step: Step<T>, e: Event<T>)
    requires Enabled(s, step)
  {
    match step
    case Push(i, v) => e == Pushed(i, v) || e == Rejected(i, v)
    case Pop(i) => e == Drained(i) || (e.Popped? && e.i == i)
    case Close(i) => e == Closed(i)
    case Resume(i) =>
      if s.threads[i].RetryPush? then e == Pushed(i, s.threads[i].value) || e == Rejected(i, s.threads[i].value)
      else e == Drained(i) || (e.Popped? && e.i == i)
    case _ => false
  }

  /** What the sequential queue can answer now is answered now. A caller falls asleep exactly when it can answer
      nothing, and to a second `close` there is no answer. */
  lemma StepAnswers<T>(s: State<T>, step: Step<T>)
    requires Enabled(s, step) && |s.queue| <= s.size
    ensures forall e :: IsAnswer(s, step, e) && Serve(s.size, Model(s.queue, s.closed), e).Model? ==>
      Apply(s, step).log == s.log + [e]
    ensures (forall e :: IsAnswer(s, step, e) ==> Serve(s.size, Model(s.queue, s.closed), e).Broken?) ==>
      Apply(s, step).log == s.log
    ensures step.Push? || step.Pop? || step.Resume? ==>
      (Apply(s, step).threads[step.i].WaitFull? || Apply(s, step).threads[step.i].WaitEmpty? <==>
        forall e :: IsAnswer(s, step, e) ==> Serve(s.size, Model(s.queue, s.closed), e).Broken?)
  {
    var t := Apply(s, step);
    if t.log != s.log {
      assert IsAnswer(s, step, t.log[|s.log|]);
    }
  }

  /** `close` closes, and a closed queue stays closed. */
  lemma CloseCloses<T>(s: State<T>, step: Step<T>)
    requires Enabled(s, step)
    ensures step.Close? || s.closed ==> Apply(s, step).closed
    ensures Apply(s, step).closed ==> step.Close? || s.closed
    ensures s.closed ==> forall k :: |s.log| <= k < |Apply(s, step).log| ==> !Apply(s, step).log[k].Pushed?
    ensures s.log <= Apply(s, step).log
  {}

  /** In every continuation a closed queue is closed and has taken nothing more. */
  lemma {:induction false} ClosedStays<T>(s: State<T>, steps: seq<Step<T>>)
    requires IsRun(s, steps) && s.closed
    ensures After(s, steps).closed && s.log <= After(s, steps).log
    ensures forall k :: |s.log| <= k < |After(s, steps).log| ==> !After(s, steps).log[k].Pushed?
    decreases steps
  {
    hide Enabled;
    hide Apply;
    if steps != [] {
      CloseCloses(s, steps[0]);
      ClosedStays(Apply(s, steps[0]), steps[1..]);
    }
  }

  /** The queue is closed exactly when some thread has called `close`. */
  lemma {:induction false} ClosedByClose<T>(s: State<T>, steps: seq<Step<T>>)
    requires IsRun(s, steps)
    ensures After(s, steps).closed <==> s.closed || exists k :: 0 <= k < |steps| && steps[k].Close?
    decreases steps
  {
    hide Enabled;
    hide Apply;
    if steps != [] {
      CloseCloses(s, steps[0]);
      ClosedByClose(Apply(s, steps[0]), steps[1..]);
      if k :| 0 <= k < |steps| && steps[k].Close? {
        assert k == 0 || steps[1..][k - 1].Close?;
      }
      if k :| 0 <= k < |steps[1..]| && steps[1..][k].Close? {
        assert steps[k + 1].Close?;
      }
    }
  }

  lemma LogStep<T>(s: State<T>, step: Step<T>)
    requires Enabled(s, step) && LogIsHistory(s)
    ensures LogIsHistory(Apply(s, step))
  {
    var t := Apply(s, step);
    SequentialIsFifo(s.size, s.log);
    StepServes(s, step);
    hide Apply;
    hide Enabled;
    hide Serve;
    if t.log != s.log {
      ReplayAppend(s.size, s.log, t.log[|s.log|]);
    }
    hide Replay;
  }

  /** Only the state of thread `i` and the number of items change. */
  lemma WakeupsAfterChange<T>(s: State<T>, t: State<T>, i: Thread)
    requires NoLostWakeup(s) && i < |s.threads| && t.size == s.size && t.closed == s.closed
    requires |t.threads| == |s.threads| && t.threads == s.threads[i := t.threads[i]]
    requires Sleeps(false, t.threads[i]) ==> t.queue == []
    requires Sleeps(true, t.threads[i]) ==> |t.queue| == t.size
    requires t.queue == [] || |t.queue| + EmptyCredit(s.threads[i]) <= |s.queue| + EmptyCredit(t.threads[i])
    requires |t.queue| == t.size || |s.queue| + FullCredit(s.threads[i]) <= |t.queue| + FullCredit(t.threads[i])
    ensures NoLostWakeup(t)
  {
    CreditsUpdate(false, s.threads, i, t.threads[i]);
    CreditsUpdate(true, s.threads, i, t.threads[i]);
    hide Credits;
    forall full | AnySleeps(full, t.threads) && !Sleeps(full, t.threads[i])
      ensures AnySleeps(full, s.threads)
    {
      var j :| 0 <= j < |t.threads| && Sleeps(full, t.threads[j]);
      assert Sleeps(full, s.threads[j]);
    }
  }

  lemma SectionKeepsWakeups<T>(s: State<T>, step: Step<T>)
    requires Enabled(s, step) && Inv(s) && !step.Notify?
    ensures NoLostWakeup(Apply(s, step))
  {
    var t := Apply(s, step);
    hide NoLostWakeup;
    hide ClosingReachesAll;
    if !t.closed {
      WakeupsAfterChange(s, t, step.i);
    } else {
      ClosedLosesNothing(t);
    }
  }

  lemma ClosedLosesNothing<T>(s: State<T>)
    requires s.closed
    ensures NoLostWakeup(s)
  {}

  /** One waiter gets the notification; if there was none, nobody needed it. */
  lemma NotifyKeepsWakeups<T>(s: State<T>, step: Step<T>)
    requires Enabled(s, step) && Inv(s) && step.Notify?
    ensures NoLostWakeup(Apply(s, step))
  {
    if !s.closed {
      var i, w, mid := step.i, step.waiter, s.threads[step.waiter := Woken(s.threads[step.waiter])];
      var t := Apply(s, step);
      forall full
        ensures Credits(full, t.threads) == Credits(full, s.threads)
          - Credit(full, s.threads[w]) + Credit(full, mid[w]) - Credit(full, mid[i]) + Credit(full, t.threads[i])
      {
        CreditsUpdate(full, s.threads, w, mid[w]);
        CreditsUpdate(full, mid, i, t.threads[i]);
      }
      hide Credits;
      forall full | AnySleeps(full, t.threads)
        ensures AnySleeps(full, s.threads)
      {
        var j :| 0 <= j < |t.threads| && Sleeps(full, t.threads[j]);
        assert Sleeps(full, s.threads[j]);
      }
    }
  }

  /** A step wakes other threads at most. */
  lemma OtherThread<T>(s: State<T>, step: Step<T>, j: Thread)
    requires Enabled(s, step) && j < |s.threads| && j != step.i
    ensures |Apply(s, step).threads| == |s.threads|
    ensures Apply(s, step).threads[j] == s.threads[j] || Apply(s, step).threads[j] == Woken(s.threads[j])
  {}

  /** The thread that takes the step. */
  lemma OwnThread<T>(s: State<T>, step: Step<T>, full: bool)
    requires Enabled(s, step)
    ensures var t, i := Apply(s, step), step.i;
      && |t.threads| == |s.threads|
      && (s.closed ==> t.closed && !Sleeps(full, t.threads[i]))
      && (t.closed && !s.closed ==> WillNotifyAll(full, t.threads[i]))
      && (WillNotifyAll(full, t.threads[i]) ==> t.closed || WillNotifyAll(full, s.threads[i]))
      && (WillNotifyAll(full, s.threads[i]) ==> WillNotifyAll(full, t.threads[i]) || !AnySleeps(full, t.threads))
  {}

  lemma ClosingStep<T>(s: State<T>, step: Step<T>)
    requires Enabled(s, step) && ClosingReachesAll(s)
    ensures ClosingReachesAll(Apply(s, step))
  {
    var t, i := Apply(s, step), step.i;
    forall full
      ensures AnyWillNotifyAll(full, t.threads) ==> t.closed || AnyWillNotifyAll(full, s.threads)
      ensures t.closed && AnySleeps(full, t.threads) ==> AnyWillNotifyAll(full, t.threads)
    {
      OwnThread(s, step, full);
      forall j | 0 <= j < |s.threads| && j != i
        ensures Sleeps(full, t.threads[j]) ==> Sleeps(full, s.threads[j])
        ensures WillNotifyAll(full, t.threads[j]) == WillNotifyAll(full, s.threads[j])
      {
        OtherThread(s, step, j);
      }
      hide Apply;
      hide Enabled;
      hide Sleeps;
      hide WillNotifyAll;
      assert s.closed && AnySleeps(full, t.threads) ==> AnySleeps(full, s.threads);
    }
    OwnThread(s, step, false);
    hide Apply;
    hide Enabled;
    hide AnySleeps;
    hide AnyWillNotifyAll;
  }

  lemma StepKeepsInv<T>(s: State<T>, step: Step<T>)
    requires Enabled(s, step) && Inv(s)
    ensures Inv(Apply(s, step))
  {
    LogStep(s, step);
    ClosingStep(s, step);
    if step.Notify? {
      NotifyKeepsWakeups(s, step);
    } else {
      SectionKeepsWakeups(s, step);
    }
    hide LogIsHistory;
    hide ClosingReachesAll;
    hide NoLostWakeup;
    hide Apply;
  }

  lemma {:induction false} RunKeepsInv<T>(s: State<T>, steps: seq<Step<T>>)
    requires IsRun(s, steps) && Inv(s)
    ensures Inv(After(s, steps))
    decreases steps
  {
    hide Inv;
    hide Enabled;
    hide Apply;
    if steps != [] {
      StepKeepsInv(s, steps[0]);
      RunKeepsInv(Apply(s, steps[0]), steps[1..]);
    }
  }

  lemma {:induction false} RunKeepsSize<T>(s: State<T>, steps: seq<Step<T>>)
    requires IsRun(s, steps)
    ensures After(s, steps).size == s.size && |After(s, steps).threads| == |s.threads|
    decreases steps
  {
    if steps != [] {
      RunKeepsSize(Apply(s, steps[0]), steps[1..]);
    }
  }

  lemma InitOk<T>(size: nat, n: nat)
    ensures Inv(Init<T>(size, n))
  {}

  /** Whatever the threads do: what was popped, then what is held, is what was pushed, in order. */
  lemma FifoInEveryRun<T>(size: nat, n: nat, steps: seq<Step<T>>)
    requires IsRun(Init(size, n), steps)
    ensures var s := After(Init(size, n), steps);
      && LogIsHistory(s)
      && AllPopped(s.log) + s.queue == AllPushed(s.log) && |s.queue| <= size
  {
    InitOk<T>(size, n);
    RunKeepsInv(Init(size, n), steps);
    RunKeepsSize(Init(size, n), steps);
    var s := After(Init(size, n), steps);
    hide After;
    hide NoLostWakeup;
    hide ClosingReachesAll;
    SequentialIsFifo(s.size, s.log);
  }

  /** No thread can go on by itself: all are outside or asleep. */
  predicate Quiet<T>(s: State<T>) {
    forall j :: 0 <= j < |s.threads| ==>
      s.threads[j].Idle? || s.threads[j].WaitEmpty? || s.threads[j].WaitFull?
  }

  lemma {:induction false} QuietHasNoCredits<T>(full: bool, threads: seq<Pc<T>>)
    requires forall j :: 0 <= j < |threads| ==> Credit(full, threads[j]) == 0
    ensures Credits(full, threads) == 0
  {
    if threads != [] {
      QuietHasNoCredits(full, threads[1..]);
    }
  }

  /** When nothing moves any more, a consumer sleeps only on an open empty queue, and a producer only
      on an open full one; after `close` nobody sleeps. */
  lemma SleepersHaveAReason<T>(size: nat, n: nat, steps: seq<Step<T>>)
    requires IsRun(Init(size, n), steps) && Quiet(After(Init(size, n), steps))
    ensures var s := After(Init(size, n), steps);
      && (AnySleeps(false, s.threads) ==> !s.closed && s.queue == [])
      && (AnySleeps(true, s.threads) ==> !s.closed && |s.queue| == size)
  {
    InitOk<T>(size, n);
    RunKeepsInv(Init(size, n), steps);
    RunKeepsSize(Init(size, n), steps);
    FifoInEveryRun(size, n, steps);
    var s := After(Init(size, n), steps);
    hide After;
    hide LogIsHistory;
    QuietHasNoCredits(false, s.threads);
    QuietHasNoCredits(true, s.threads);
    hide Credits;
  }
}
