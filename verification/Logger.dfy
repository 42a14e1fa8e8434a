/**
 The asynchronous logger: producers, the worker thread, callers of `Flush` and one
 caller of `Shutdown`, interleaved step by step. A step is one critical section of the
 log mutex, one entry written to the file, or one look at an atomic flag.
 */
module Logger {

  type Line = string

  datatype Worker = Waiting | Writing | Checking | Locked | Draining | Exited

  datatype Closer = NotCalled | Joining | Taking | Emptying | Closed

  /**
   `local` holds what the worker has taken and not yet written; `flushing` has one list
   for each call of `Flush`. The last four fields are history: the lines accepted, whether
   the worker has seen the shutdown flag after a batch, whether the check under the lock
   ever found lines queued, and which lines it found the first time.
   */
  datatype State = State(
    queue: seq<Line>, local: seq<Line>, file: seq<Line>, worker: Worker,
    shutdown: bool, open: bool, flushing: seq<seq<Line>>, closer: Closer, remaining: seq<Line>,
    accepted: seq<Line>, observed: bool, cycled: bool, found: seq<Line>)

  datatype Step =
    | Enqueue(line: Line)
    | Take | Write | Written | Check | CheckLocked | Drain | Exit
    | FlushTake | FlushWrite(call: nat)
    | ShutdownCall | ShutdownJoin | ShutdownTake | ShutdownWrite | ShutdownClose

  predicate Init(s: State) {
    s == State([], [], [], Waiting, false, true, [], NotCalled, [], [], false, false, [])
  }

  predicate Enabled(s: State, step: Step) {
    match step
    case Enqueue(_) => true
    case Take => s.worker == Waiting && (s.shutdown || s.queue != [])
    case Write => s.worker == Writing && s.local != []
    case Written => s.worker == Writing && s.local == []
    case Check => s.worker == Checking
    case CheckLocked => s.worker == Locked
    case Drain => s.worker == Draining && s.local != []
    case Exit => s.worker == Draining && s.local == []
    case FlushTake => true
    case FlushWrite(call) => call < |s.flushing| && s.flushing[call] != []
    case ShutdownCall => s.closer == NotCalled
    case ShutdownJoin => s.closer == Joining && s.worker == Exited
    case ShutdownTake => s.closer == Taking
    case ShutdownWrite => s.closer == Emptying && s.remaining != []
    case ShutdownClose => s.closer == Emptying && s.remaining == []
  }

  function After(s: State, step: Step): State
    requires Enabled(s, step)
  {
    match step
    case Enqueue(line) =>
      if s.open then s.(queue := s.queue + [line], accepted := s.accepted + [line]) else s
    case Take => s.(local := s.queue, queue := s.local, worker := Writing)
    case Write => s.(file := s.file + [s.local[0]], local := s.local[1..])
    case Written => s.(worker := Checking)
    case Check => if s.shutdown then s.(worker := Locked, observed := true) else s.(worker := Waiting)
    case CheckLocked =>
      if s.queue == [] then s.(worker := Draining)
      else s.(local := s.queue, queue := s.local, worker := Waiting,
              cycled := true, found := if s.cycled then s.found else s.queue)
    case Drain => s.(file := s.file + [s.local[0]], local := s.local[1..])
    case Exit => s.(worker := Exited)
    case FlushTake => s.(flushing := s.flushing + [s.queue], queue := [])
    case FlushWrite(call) =>
      s.(file := s.file + [s.flushing[call][0]], flushing := s.flushing[call := s.flushing[call][1..]])
    case ShutdownCall => s.(shutdown := true, closer := Joining)
    case ShutdownJoin => s.(closer := Taking)
    case ShutdownTake => s.(remaining := s.queue, queue := [], closer := Emptying)
    case ShutdownWrite => s.(file := s.file + [s.remaining[0]], remaining := s.remaining[1..])
    case ShutdownClose => s.(open := false, closer := Closed)
  }

  /** The steps can be taken one after the other from `s`. */
  predicate Runs(s: State, steps: seq<Step>)
    decreases |steps|
  {
    steps == [] || (Enabled(s, steps[0]) && Runs(After(s, steps[0]), steps[1..]))
  }

  function Exec(s: State, steps: seq<Step>): State
    requires Runs(s, steps)
    decreases |steps|
  {
    if steps == [] then s else Exec(After(s, steps[0]), steps[1..])
  }

  predicate NoFlush(steps: seq<Step>) { FlushTake !in steps }

  // ----- conservation -----------------------------------------------------------

  function Held(lists: seq<seq<Line>>): multiset<Line> {
    if lists == [] then multiset{} else multiset(lists[0]) + Held(lists[1..])
  }

  lemma {:induction false} HeldPush(lists: seq<seq<Line>>, last: seq<Line>)
    ensures Held(lists + [last]) == Held(lists) + multiset(last)
  {
    if lists == [] {
      assert lists + [last] == [last];
    } else {
      assert (lists + [last])[1..] == lists[1..] + [last];
      HeldPush(lists[1..], last);
    }
  }

  lemma {:induction false} HeldPop(lists: seq<seq<Line>>, k: nat)
    requires k < |lists| && lists[k] != []
    ensures Held(lists) == Held(lists[k := lists[k][1..]]) + multiset{lists[k][0]}
  {
    var popped := lists[k := lists[k][1..]];
    HeadTail(lists[k]);
    if k == 0 {
      assert popped[1..] == lists[1..];
    } else {
      assert popped[1..] == lists[1..][k - 1 := lists[k][1..]];
      HeldPop(lists[1..], k - 1);
    }
  }

  lemma HeadTail(list: seq<Line>)
    requires list != []
    ensures multiset(list) == multiset{list[0]} + multiset(list[1..])
  {
    assert list == [list[0]] + list[1..];
  }

  /** What is in the file, queued, or held by a thread on its way to the file. */
  function Kept(s: State): multiset<Line> {
    multiset(s.file) + multiset(s.queue) + multiset(s.local) + multiset(s.remaining) + Held(s.flushing)
  }

  /** Every line ever accepted is in the file, queued, or held by exactly one thread. */
  predicate Conserved(s: State) {
    && (s.closer != Emptying ==> s.remaining == [])
    && Kept(s) == multiset(s.accepted)
  }

  lemma WriteConserves(s: State, t: State, list: seq<Line>)
    requires list != [] && t.file == s.file + [list[0]] && t.queue == s.queue && t.flushing == s.flushing
    requires || (list == s.local && t.local == s.local[1..] && t.remaining == s.remaining)
             || (list == s.remaining && t.remaining == s.remaining[1..] && t.local == s.local)
    ensures Kept(t) == Kept(s)
  {
    hide Held;
    HeadTail(list);
    assert multiset(t.file) == multiset(s.file) + multiset{list[0]};
  }

  lemma SwapSecond<T>(a: multiset<T>, b: multiset<T>, c: multiset<T>, d: multiset<T>, e: multiset<T>)
    ensures a + b + c + d + e == a + c + b + d + e
    ensures a + b + c + d + e == a + d + c + b + e
  {
  }

  /** Steps that hand whole lists over. */
  lemma HandoverConserves(s: State, step: Step)
    requires Enabled(s, step) && (s.closer != Emptying ==> s.remaining == [])
    requires step in {Take, CheckLocked, ShutdownTake}
    ensures Kept(After(s, step)) == Kept(s)
  {
    hide Held;
    SwapSecond(multiset(s.file), multiset(s.queue), multiset(s.local), multiset(s.remaining), Held(s.flushing));
  }

  lemma FlushTakeConserves(s: State)
    ensures Kept(After(s, FlushTake)) == Kept(s)
  {
    hide Held;
    HeldPush(s.flushing, s.queue);
  }

  /** Steps that move no line. */
  lemma IdleConserves(s: State, step: Step)
    requires Enabled(s, step) && step in {Written, Check, Exit, ShutdownCall, ShutdownJoin, ShutdownClose}
    ensures Kept(After(s, step)) == Kept(s)
  {
    hide Held;
  }

  lemma EnqueueConserves(s: State, line: Line)
    requires Kept(s) == multiset(s.accepted)
    ensures Kept(After(s, Enqueue(line))) == multiset(After(s, Enqueue(line)).accepted)
  {
    hide Held;
    assert multiset(s.queue + [line]) == multiset(s.queue) + multiset{line};
    assert multiset(s.accepted + [line]) == multiset(s.accepted) + multiset{line};
  }

  lemma StepConserves(s: State, step: Step)
    requires Conserved(s) && Enabled(s, step)
    ensures Conserved(After(s, step))
  {
    hide Kept;
    match step {
      case Write => WriteConserves(s, After(s, step), s.local);
      case Drain => WriteConserves(s, After(s, step), s.local);
      case ShutdownWrite => WriteConserves(s, After(s, step), s.remaining);
      case FlushWrite(call) => FlushWriteConserves(s, call);
      case Enqueue(line) => EnqueueConserves(s, line);
      case FlushTake => FlushTakeConserves(s);
      case Take => HandoverConserves(s, step);
      case CheckLocked => HandoverConserves(s, step);
      case ShutdownTake => HandoverConserves(s, step);
      case _ => IdleConserves(s, step);
    }
  }

  lemma FlushWriteConserves(s: State, call: nat)
    requires Conserved(s) && Enabled(s, FlushWrite(call))
    ensures Conserved(After(s, FlushWrite(call)))
  {
    hide Held;
    HeldPop(s.flushing, call);
    assert multiset(s.file + [s.flushing[call][0]]) == multiset(s.file) + multiset{s.flushing[call][0]};
  }

  lemma {:induction false} RunConserves(s: State, steps: seq<Step>)
    requires Conserved(s) && Runs(s, steps)
    ensures Conserved(Exec(s, steps))
    decreases |steps|
  {
    if steps != [] {
      StepConserves(s, steps[0]);
      RunConserves(After(s, steps[0]), steps[1..]);
    }
  }

  // ----- order and termination, when nobody flushes -----------------------------

  predicate InOrder(s: State) {
    && s.flushing == []
    && (s.remaining != [] ==> s.closer == Emptying)
    && (s.closer in {Taking, Emptying, Closed} ==> s.worker == Exited)
    && (s.worker in {Checking, Locked, Draining, Exited} ==> s.local == [])
    && (s.shutdown <==> s.closer != NotCalled)
    && (!s.cycled ==> s.accepted == s.file + s.local + s.remaining + s.queue)
    && (!s.cycled && s.worker == Waiting ==> s.local == [])
    && (s.worker in {Locked, Draining, Exited} || s.cycled ==> s.observed)
    && (s.observed ==> s.shutdown)
    && (s.observed && !s.cycled ==> s.worker in {Locked, Draining, Exited})
  }

  /** Once the check has found lines queued, those lines keep going back and forth. */
  predicate Stuck(s: State) {
    s.cycled ==>
      && s.found != []
      && s.worker !in {Draining, Exited}
      && s.found <= (if s.worker == Waiting then s.local else s.queue)
  }

  predicate IsWorkerStep(step: Step) {
    step in {Take, Write, Written, Check, CheckLocked, Drain, Exit}
  }

  lemma WorkerKeepsOrder(s: State, step: Step)
    requires InOrder(s) && Stuck(s) && Enabled(s, step) && IsWorkerStep(step)
    ensures InOrder(After(s, step)) && Stuck(After(s, step))
  {
  }

  lemma OthersKeepOrder(s: State, step: Step)
    requires InOrder(s) && Stuck(s) && Enabled(s, step) && !IsWorkerStep(step) && step != FlushTake
    ensures InOrder(After(s, step)) && Stuck(After(s, step))
  {
  }

  lemma StepKeepsOrder(s: State, step: Step)
    requires InOrder(s) && Stuck(s) && Enabled(s, step) && step != FlushTake
    ensures InOrder(After(s, step)) && Stuck(After(s, step))
  {
    hide *;
    if IsWorkerStep(step) {
      WorkerKeepsOrder(s, step);
    } else {
      OthersKeepOrder(s, step);
    }
  }

  lemma {:induction false} RunKeepsOrder(s: State, steps: seq<Step>)
    requires InOrder(s) && Stuck(s) && Runs(s, steps) && NoFlush(steps)
    ensures InOrder(Exec(s, steps)) && Stuck(Exec(s, steps))
    decreases |steps|
  {
    if steps != [] {
      StepKeepsOrder(s, steps[0]);
      RunKeepsOrder(After(s, steps[0]), steps[1..]);
    }
  }

  /** Over all interleavings no line is lost, invented or duplicated. */
  lemma NothingLost(s: State, steps: seq<Step>)
    requires Init(s) && Runs(s, steps)
    ensures Conserved(Exec(s, steps))
  {
    RunConserves(s, steps);
  }

  /** Without `Flush` the file, the worker's batch and the queue spell the accepted lines in order until shutdown is seen. */
  lemma OrderUntilShutdownSeen(s: State, steps: seq<Step>)
    requires Init(s) && Runs(s, steps) && NoFlush(steps)
    ensures var t := Exec(s, steps); !t.observed ==> t.accepted == t.file + t.local + t.queue
  {
    RunKeepsOrder(s, steps);
  }

  /** Without `Flush` the worker has exited only if its check never found a line queued. */
  lemma ExitOnlyIfFoundEmpty(s: State, steps: seq<Step>)
    requires Init(s) && Runs(s, steps) && NoFlush(steps)
    ensures var t := Exec(s, steps); t.worker in {Draining, Exited} ==> t.observed && !t.cycled
  {
    RunKeepsOrder(s, steps);
  }

  /** If the check finds the queue empty the worker's next step is to exit, with nothing left to drain. */
  lemma FoundEmptyExits(s: State, steps: seq<Step>)
    requires Init(s) && Runs(s, steps) && NoFlush(steps)
    requires Exec(s, steps).worker == Locked && Exec(s, steps).queue == []
    ensures Runs(Exec(s, steps), [CheckLocked, Exit])
    ensures var t := Exec(Exec(s, steps), [CheckLocked, Exit]);
      t.worker == Exited && t.file == t.accepted
  {
    RunKeepsOrder(s, steps);
    var t := Exec(s, steps);
    var u := After(t, CheckLocked);
    assert [CheckLocked, Exit][1..] == [Exit];
    assert Runs(u, [Exit]) && Exec(u, [Exit]) == After(u, Exit);
    assert t.cycled ==> |t.found| <= |t.queue|;
  }

  /** A closed log without `Flush` holds every accepted line in order, but for those accepted after the last drain. */
  lemma ClosedFileIsComplete(s: State, steps: seq<Step>)
    requires Init(s) && Runs(s, steps) && NoFlush(steps)
    ensures var t := Exec(s, steps); t.closer == Closed ==> t.accepted == t.file + t.queue
  {
    RunKeepsOrder(s, steps);
  }

  /**
   If the check finds lines queued and nobody flushes, no continuation ends it: the worker goes
   on cycling, `Shutdown` never gets past its join, and those lines stay unwritten.
   */
  lemma FoundQueuedNeverExits(s: State, steps: seq<Step>, more: seq<Step>)
    requires Init(s) && Runs(s, steps) && NoFlush(steps) && Exec(s, steps).cycled
    requires Runs(Exec(s, steps), more) && NoFlush(more)
    ensures var t, u := Exec(s, steps), Exec(Exec(s, steps), more);
      && u.cycled && u.found == t.found != []
      && u.worker !in {Draining, Exited} && u.closer == Joining
      && multiset(u.file) + multiset(u.found) <= multiset(u.accepted)
  {
    RunKeepsOrder(s, steps);
    RunConserves(s, steps);
    var t := Exec(s, steps);
    RunKeepsOrder(t, more);
    RunConserves(t, more);
    FoundStays(t, more);
    StuckUnwritten(Exec(t, more));
  }

  /** What the check found the first time is never forgotten. */
  lemma {:induction false} FoundStays(s: State, steps: seq<Step>)
    requires s.cycled && Runs(s, steps)
    ensures Exec(s, steps).cycled && Exec(s, steps).found == s.found
    decreases |steps|
  {
    if steps != [] {
      FoundStays(After(s, steps[0]), steps[1..]);
    }
  }

  lemma StuckUnwritten(t: State)
    requires Conserved(t) && Stuck(t) && t.cycled
    ensures multiset(t.file) + multiset(t.found) <= multiset(t.accepted)
  {
    hide Held;
    var kept := if t.worker == Waiting then t.local else t.queue;
    assert kept == t.found + kept[|t.found|..];
    assert multiset(kept) == multiset(t.found) + multiset(kept[|t.found|..]);
  }

  /** The bad case is real: a line that arrives between the worker's last batch and its check. */
  lemma FoundQueuedHappens(s: State, line: Line)
    requires Init(s)
    ensures exists steps :: Runs(s, steps) && NoFlush(steps) && Exec(s, steps).cycled && Exec(s, steps).found == [line]
  {
    hide Runs, Exec;
    var steps := ReachLocked(s);
    RunMore(s, steps, Enqueue(line));
    RunMore(s, steps + [Enqueue(line)], CheckLocked);
    assert NoFlush(steps + [Enqueue(line)] + [CheckLocked]);
  }

  lemma ReachLocked(s: State) returns (steps: seq<Step>)
    requires Init(s)
    ensures Runs(s, steps) && NoFlush(steps)
    ensures Exec(s, steps) == s.(shutdown := true, closer := Joining, worker := Locked, observed := true)
  {
    hide Runs, Exec;
    RunNone(s);
    RunMore(s, [], ShutdownCall);
    RunMore(s, [ShutdownCall], Take) by {
      assert [] + [ShutdownCall] == [ShutdownCall];
    }
    RunMore(s, [ShutdownCall] + [Take], Written);
    RunMore(s, [ShutdownCall] + [Take] + [Written], Check);
    steps := [ShutdownCall] + [Take] + [Written] + [Check];
  }

  lemma {:induction false} RunMore(s: State, steps: seq<Step>, step: Step)
    requires Runs(s, steps) && Enabled(Exec(s, steps), step)
    ensures Runs(s, steps + [step]) && Exec(s, steps + [step]) == After(Exec(s, steps), step)
    decreases |steps|
  {
    hide Enabled, After;
    if steps == [] {
      assert steps + [step] == [step];
      assert [step][1..] == [];
    } else {
      assert (steps + [step])[1..] == steps[1..] + [step];
      RunMore(After(s, steps[0]), steps[1..], step);
    }
  }

  // ----- the code of the critical sections --------------------------------------

  class AsyncLog {
    var logQueue: seq<Line>
    var logFile: seq<Line>
    var shutdownFlag: bool
    var logFileOpen: bool

    constructor ()
      ensures logQueue == [] && logFile == [] && !shutdownFlag && logFileOpen
    {
      logQueue, logFile, shutdownFlag, logFileOpen := [], [], false, true;
    }

    /** The object and a worker's own list show the shared part of a state. */
    predicate Shows(s: State, localQueue: seq<Line>)
      reads this
    {
      && logQueue == s.queue && logFile == s.file && localQueue == s.local
      && shutdownFlag == s.shutdown && logFileOpen == s.open
    }

    /** The tail of `WriteLog`: queued if the log is open, dropped otherwise. */
    method Enqueue(line: Line, ghost s: State)
      requires Shows(s, s.local)
      modifies this`logQueue
      ensures Shows(After(s, Step.Enqueue(line)), s.local)
      ensures logQueue == if logFileOpen then old(logQueue) + [line] else old(logQueue)
    {
      if !logFileOpen {
        return;
      }
      logQueue := logQueue + [line];
    }

    /** The worker's wait has returned: the two lists change places. */
    method TakeBatch(localQueue: seq<Line>, ghost s: State) returns (taken: seq<Line>)
      requires Shows(s, localQueue) && Enabled(s, Take)
      modifies this`logQueue
      ensures Shows(After(s, Take), taken)
      ensures taken == old(logQueue) && logQueue == localQueue
    {
      taken := logQueue;
      logQueue := localQueue;
    }

    /** The batch is written entry by entry and the list cleared. */
    method WriteBatch(localQueue: seq<Line>, ghost s: State) returns (cleared: seq<Line>, ghost steps: seq<Step>)
      requires Shows(s, localQueue) && s.worker == Writing
      modifies this`logFile
      ensures cleared == [] && logFile == old(logFile) + localQueue
      ensures Runs(s, steps) && Shows(Exec(s, steps), cleared) && Exec(s, steps).worker == Checking
      ensures steps == seq(|localQueue|, _ => Write) + [Written]
    {
      hide Runs, Exec;
      RunNone(s);
      steps := [];
      for i := 0 to |localQueue|
        invariant Runs(s, steps) && Exec(s, steps) == s.(file := logFile, local := localQueue[i..])
        invariant logFile == old(logFile) + localQueue[..i]
        invariant steps == seq(i, _ => Write)
      {
        RunMore(s, steps, Write);
        steps := steps + [Write];
        logFile := logFile + [localQueue[i]];
      }
      RunMore(s, steps, Written);
      steps := steps + [Written];
      cleared := [];
    }

    /** The look at the flag, and under the lock the look at the queue. */
    method CheckShutdown(localQueue: seq<Line>, ghost s: State)
      returns (exits: bool, next: seq<Line>, ghost steps: seq<Step>)
      requires Shows(s, localQueue) && s.worker == Checking && localQueue == []
      modifies this`logQueue
      ensures Runs(s, steps) && Shows(Exec(s, steps), next)
      ensures exits <==> Exec(s, steps).worker == Draining
      ensures exits <==> shutdownFlag && old(logQueue) == []
      ensures steps == if shutdownFlag then [Check, CheckLocked] else [Check]
      ensures if shutdownFlag && old(logQueue) != [] then next == old(logQueue) && logQueue == []
              else next == [] && logQueue == old(logQueue)
    {
      hide Runs, Exec;
      RunNone(s);
      RunMore(s, [], Check);
      steps := [] + [Check];
      if shutdownFlag {
        RunMore(s, steps, CheckLocked);
        steps := steps + [CheckLocked];
        if logQueue == [] {
          return true, localQueue, steps;
        }
        var queued := logQueue;
        logQueue := localQueue;
        return false, queued, steps;
      }
      return false, localQueue, steps;
    }

    /** `Flush` takes the queue and writes it itself. */
    method Flush(ghost s: State) returns (ghost steps: seq<Step>)
      requires Shows(s, s.local)
      modifies this`logQueue, this`logFile
      ensures logQueue == [] && logFile == old(logFile) + old(logQueue)
      ensures Runs(s, steps) && Shows(Exec(s, steps), s.local)
      ensures Exec(s, steps).flushing == s.flushing + [[]]
      ensures steps == [FlushTake] + seq(|old(logQueue)|, _ => FlushWrite(|s.flushing|))
    {
      hide Runs, Exec;
      RunNone(s);
      RunMore(s, [], FlushTake);
      steps := [] + [FlushTake];
      var entries := logQueue;
      logQueue := [];
      ghost var call := |s.flushing|;
      for i := 0 to |entries|
        invariant logQueue == [] && Runs(s, steps)
        invariant Exec(s, steps) == s.(queue := [], file := logFile, flushing := s.flushing + [entries[i..]])
        invariant logFile == old(logFile) + entries[..i]
        invariant steps == [FlushTake] + seq(i, _ => FlushWrite(call))
      {
        ghost var lists := s.flushing + [entries[i..]];
        RunMore(s, steps, FlushWrite(call));
        assert lists[call := lists[call][1..]] == s.flushing + [entries[i + 1..]];
        steps := steps + [FlushWrite(call)];
        logFile := logFile + [entries[i]];
      }
      assert entries[..|entries|] == entries && entries[|entries|..] == [];
    }
  }

  lemma RunNone(s: State)
    ensures Runs(s, []) && Exec(s, []) == s
  {
  }
}
