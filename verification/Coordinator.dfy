/**
 The collector loops of the module coordinator and the callbacks that hurry them.
 A loop collects, then tests its dirty flags in order, stopping at the first one it
 finds raised; only when none is raised does it sleep. The disk and network loops have
 one flag, the power loop two. Callbacks raise flags at any moment.
 */
module Coordinator {

  datatype Loop = Top | Collecting | Testing(next: nat) | Sleeping | Stopped

  /** A callback raised `flag` at the moment `time`. */
  datatype Event = Event(flag: nat, time: nat)

  /**
   Every step takes one tick of `clock`. The last three fields are history: the events so
   far, when the latest collection began, and when each flag was last tested.
   */
  datatype State = State(
    flags: seq<bool>, loop: Loop, clock: nat,
    events: seq<Event>, begun: nat, tested: seq<nat>)

  datatype Step = Raise(flag: nat) | Begin | Collected | Test | Wake | Stop

  predicate Init(s: State, n: nat) {
    s == State(seq(n, _ => false), Top, 1, [], 0, seq(n, _ => 0))
  }

  predicate Enabled(s: State, step: Step) {
    match step
    case Raise(flag) => flag < |s.flags|
    case Begin => s.loop == Top
    case Collected => s.loop == Collecting
    case Test => s.loop.Testing? && s.loop.next < |s.flags| == |s.tested|
    case Wake => s.loop == Sleeping
    case Stop => s.loop == Top
  }

  /** One `exchange(false)`: a raised flag ends the tests and skips the sleep. */
  function Tested(s: State): State
    requires Enabled(s, Test)
  {
    var k := s.loop.next;
    var next := if s.flags[k] then Top else if k + 1 == |s.flags| then Sleeping else Testing(k + 1);
    s.(flags := s.flags[k := false], tested := s.tested[k := s.clock], loop := next)
  }

  function After(s: State, step: Step): State
    requires Enabled(s, step)
  {
    var t := match step
      case Raise(flag) => s.(flags := s.flags[flag := true], events := s.events + [Event(flag, s.clock)])
      case Begin => s.(loop := Collecting, begun := s.clock)
      case Collected => s.(loop := if s.flags == [] then Sleeping else Testing(0))
      case Test => Tested(s)
      case Wake => s.(loop := Top)
      case Stop => s.(loop := Stopped);
    t.(clock := s.clock + 1)
  }

  predicate Runs(s: State, steps: seq<Step>)
    decreases |steps|
  {
    steps == [] || (Enabled(s, steps[0]) && Runs(After(s, steps[0]), steps[1..]))
  }

  function Exec(s: State, steps: seq<Step>): State
    requires Runs(s, steps)
    decreases |steps|
  {
    if steps == [] then s else Exec(After(s, steps[0]), steps[1..])
  }

  /** The event is followed by the beginning of a collection. */
  predicate Covered(s: State, e: Event) { e.time < s.begun }

  predicate WellTimed(s: State) {
    && |s.tested| == |s.flags|
    && s.begun < s.clock
    && (forall k | 0 <= k < |s.events| :: s.events[k].flag < |s.flags| && s.events[k].time < s.clock)
    && (forall k | 0 <= k < |s.tested| :: s.tested[k] < s.clock)
    && (s.loop.Testing? ==> s.loop.next < |s.flags|)
  }

  /** An event not yet covered still has its flag up, or the loop is on its way to collect. */
  predicate NoneLost(s: State) {
    forall k | 0 <= k < |s.events| ::
      Covered(s, s.events[k]) || s.events[k].flag >= |s.flags| || s.flags[s.events[k].flag] || s.loop in {Top, Stopped}
  }

  /** Flags already found down in this round had no uncovered event when they were tested. */
  predicate TestedCovered(s: State) {
    forall k | 0 <= k < |s.events| ::
      var e := s.events[k];
      (&& e.flag < |s.tested| && e.time < s.tested[e.flag]
       && (s.loop == Sleeping || (s.loop.Testing? && e.flag < s.loop.next)))
      ==> Covered(s, e)
  }

  /** A raised flag has an event behind it that came after the flag's latest test. */
  predicate RaisedByEvent(s: State) {
    forall i | 0 <= i < |s.flags| && s.flags[i] ::
      exists k | 0 <= k < |s.events| :: s.events[k].flag == i && i < |s.tested| && s.tested[i] < s.events[k].time
  }

  /** The flags behind the loop's position were tested in this round: after its collection began. */
  predicate TestedThisRound(s: State) {
    forall k | 0 <= k < |s.tested| ::
      (s.loop == Sleeping || (s.loop.Testing? && k < s.loop.next)) ==> s.begun < s.tested[k]
  }

  predicate Inv(s: State) { WellTimed(s) && NoneLost(s) && TestedCovered(s) && TestedThisRound(s) }

  lemma StepKeepsInv(s: State, step: Step)
    requires Inv(s) && Enabled(s, step)
    ensures Inv(After(s, step))
  {
  }

  /**
   Whenever a loop goes to sleep it has tested every flag since this round's collection
   began, and every event raised before the test of its flag is followed by the beginning
   of a collection, however callbacks interleave.
   */
  lemma NeverSleepsOverAnEvent(n: nat, s: State, steps: seq<Step>, k: nat)
    requires Init(s, n) && Runs(s, steps)
    requires Exec(s, steps).loop == Sleeping && k < |Exec(s, steps).events|
    ensures var t := Exec(s, steps); var e := t.events[k];
      && e.flag < |t.tested| == |t.flags|
      && (forall i | 0 <= i < |t.tested| :: t.begun < t.tested[i])
      && (e.time < t.tested[e.flag] ==> Covered(t, e))
  {
    RunKeepsInv(s, steps);
  }

  /** An event not covered came after this round's test of its flag, and the flag is still up while the loop sleeps. */
  lemma LateEventStaysRaised(n: nat, s: State, steps: seq<Step>, k: nat)
    requires Init(s, n) && Runs(s, steps)
    requires Exec(s, steps).loop == Sleeping && k < |Exec(s, steps).events|
    ensures var t := Exec(s, steps); var e := t.events[k];
      && e.flag < |t.flags| == |t.tested|
      && (Covered(t, e) || (t.flags[e.flag] && t.begun < t.tested[e.flag] <= e.time))
  {
    RunKeepsInv(s, steps);
  }

  /** Every collection covers every event before it. */
  lemma CollectionCoversAll(n: nat, s: State, steps: seq<Step>, k: nat)
    requires Init(s, n) && Runs(s, steps)
    requires Exec(s, steps).loop == Top && k < |Exec(s, steps).events|
    ensures Covered(After(Exec(s, steps), Begin), Exec(s, steps).events[k])
  {
    RunKeepsInv(s, steps);
  }

  /** Going to sleep takes a test of every flag since this round's collection began, events or none. */
  lemma SleepsAfterItsTests(n: nat, s: State, steps: seq<Step>)
    requires Init(s, n) && Runs(s, steps) && Exec(s, steps).loop == Sleeping
    ensures var t := Exec(s, steps);
      |t.tested| == |t.flags| && forall i | 0 <= i < |t.tested| :: t.begun < t.tested[i] < t.clock
  {
    RunKeepsInv(s, steps);
  }

  /** A collection has begun since the moment `time`, or will before the next test. */
  predicate CollectsSince(s: State, time: nat) { time <= s.begun || s.loop in {Top, Stopped} }

  /** An event is slept over at most once: when the loop sleeps again, everything from before is covered. */
  lemma SleptOverAtMostOnce(n: nat, s: State, steps: seq<Step>, more: seq<Step>, k: nat)
    requires Init(s, n) && Runs(s, steps) && k < |Exec(s, steps).events|
    requires Runs(Exec(s, steps), more) && Wake in more && Exec(Exec(s, steps), more).loop == Sleeping
    ensures Covered(Exec(Exec(s, steps), more), Exec(s, steps).events[k])
  {
    RunKeepsInv(s, steps);
    WakingCollects(Exec(s, steps), more, Exec(s, steps).clock);
  }

  /** A sleep is skipped only because of an event since the raised flag's previous test. */
  lemma SkipsOnlyForAnEvent(n: nat, s: State, steps: seq<Step>)
    requires Init(s, n) && Runs(s, steps) && Enabled(Exec(s, steps), Test)
    requires After(Exec(s, steps), Test).loop == Top
    ensures var t := Exec(s, steps);
      exists k | 0 <= k < |t.events| :: t.events[k].flag == t.loop.next && t.tested[t.loop.next] < t.events[k].time
  {
    RunKeepsInv(s, steps);
    var t := Exec(s, steps);
    assert t.flags[t.loop.next];
  }

  // ----- the code of the tests --------------------------------------------------

  /** The dirty flags one loop tests, in the order it tests them. */
  class DirtyFlags {
    const flags: array<bool>

    constructor (n: nat)
      ensures fresh(flags) && flags.Length == n && forall k | 0 <= k < n :: !flags[k]
    {
      flags := new bool[n](_ => false);
    }

    method Exchange(k: nat) returns (was: bool)
      requires k < flags.Length
      modifies flags
      ensures was == old(flags[k]) && flags[..] == old(flags[..])[k := false]
    {
      was := flags[k];
      flags[k] := false;
    }

    /** The short-circuited conjunction: the first raised flag is lowered, later ones are left alone. */
    method NoneRaised(ghost s: State) returns (sleep: bool, ghost steps: seq<Step>)
      requires Inv(s) && s.loop == Testing(0) && flags[..] == s.flags && flags.Length > 0
      modifies flags
      ensures sleep <==> forall k | 0 <= k < flags.Length :: !old(flags[k])
      ensures sleep ==> flags[..] == old(flags[..])
      ensures !sleep ==> exists k | 0 <= k < flags.Length ::
        old(flags[k]) && (forall j | 0 <= j < k :: !old(flags[j])) && flags[..] == old(flags[..])[k := false]
      ensures forall step <- steps :: step == Test
      ensures Runs(s, steps) && Exec(s, steps).flags == flags[..]
      ensures Exec(s, steps).loop == if sleep then Sleeping else Top
    {
      hide Runs, Exec, NoneLost, TestedCovered, TestedThisRound;
      RunNone(s);
      steps := [];
      sleep := true;
      var k := 0;
      while sleep && k < flags.Length
        invariant k <= flags.Length
        invariant Runs(s, steps) && Exec(s, steps).flags == flags[..] && |Exec(s, steps).tested| == flags.Length
        invariant Exec(s, steps).loop == if !sleep then Top else if k == flags.Length then Sleeping else Testing(k)
        invariant forall step <- steps :: step == Test
        invariant sleep ==> (forall j | 0 <= j < k :: !old(flags[j])) && flags[..] == old(flags[..])
        invariant !sleep ==> 0 < k && old(flags[k - 1]) && (forall j | 0 <= j < k - 1 :: !old(flags[j]))
        invariant !sleep ==> flags[..] == old(flags[..])[k - 1 := false]
        decreases flags.Length - k, sleep
      {
        RunMore(s, steps, Test);
        steps := steps + [Test];
        var was := Exchange(k);
        sleep := !was;
        k := k + 1;
      }
    }
  }

  // ----- over whole runs ---------------------------------------------------------

  lemma StepKeepsRaised(s: State, step: Step)
    requires WellTimed(s) && RaisedByEvent(s) && Enabled(s, step)
    ensures RaisedByEvent(After(s, step))
  {
    var t := After(s, step);
    forall i | 0 <= i < |t.flags| && t.flags[i]
      ensures exists k | 0 <= k < |t.events| :: t.events[k].flag == i && i < |t.tested| && t.tested[i] < t.events[k].time
    {
      if step == Raise(i) {
        assert t.events[|s.events|] == Event(i, s.clock);
      } else {
        assert s.flags[i];
        var k :| 0 <= k < |s.events| && s.events[k].flag == i && i < |s.tested| && s.tested[i] < s.events[k].time;
        assert t.events[k] == s.events[k];
      }
    }
  }

  lemma {:induction false} RunKeepsInv(s: State, steps: seq<Step>)
    requires Inv(s) && RaisedByEvent(s) && Runs(s, steps)
    ensures Inv(Exec(s, steps)) && RaisedByEvent(Exec(s, steps))
    decreases |steps|
  {
    if steps != [] {
      StepKeepsInv(s, steps[0]);
      StepKeepsRaised(s, steps[0]);
      RunKeepsInv(After(s, steps[0]), steps[1..]);
    }
  }

  lemma {:induction false} WakingCollects(s: State, steps: seq<Step>, time: nat)
    requires Runs(s, steps) && time <= s.clock && (CollectsSince(s, time) || Wake in steps)
    ensures CollectsSince(Exec(s, steps), time)
    decreases |steps|
  {
    if steps != [] {
      WakingCollects(After(s, steps[0]), steps[1..], time);
    }
  }

  lemma RunNone(s: State)
    ensures Runs(s, []) && Exec(s, []) == s
  {
  }

  lemma {:induction false} RunMore(s: State, steps: seq<Step>, step: Step)
    requires Runs(s, steps) && Enabled(Exec(s, steps), step)
    ensures Runs(s, steps + [step]) && Exec(s, steps + [step]) == After(Exec(s, steps), step)
    decreases |steps|
  {
    hide Enabled, After;
    if steps == [] {
      assert steps + [step] == [step];
      assert [step][1..] == [];
    } else {
      assert (steps + [step])[1..] == steps[1..] + [step];
      RunMore(After(s, steps[0]), steps[1..], step);
    }
  }
}
