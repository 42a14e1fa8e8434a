/**
 The sequence counter around the shared block. A writer raises it before and after
 every write, whichever way the write ends; a reader keeps a copy only if it saw the
 same even value before and after copying. Steps are atomic and sequentially
 consistent, and the writer does not die in the middle of a write.
 */
module Seqlock {

  const WORD := 0x1_0000_0000

  function Inc(n: nat): (r: nat)
    ensures r < WORD
  {
    (n + 1) % WORD
  }

  datatype Reader =
    | Outside
    | Copying(seen: nat, since: nat, copy: map<nat, bv8>)
    | Kept(from: nat, until: nat, copied: map<nat, bv8>)

  /**
   The shared counter and block, whether a write is under way, and the reader. The last
   two fields are history: how often the counter was raised, and the block as it stood
   at each quiescent moment.
   */
  datatype State = State(
    counter: nat, block: seq<bv8>, writing: bool, reader: Reader,
    raised: nat, quiescent: seq<seq<bv8>>)

  /** How a write ends: by running to its end, or through one of the two handlers. */
  datatype Exit = Normal | Caught | CaughtUnknown

  datatype Step =
    | Begin
    | Store(at: nat, value: bv8)
    | Finish(exit: Exit)
    | LookBefore
    | CopyCell(cell: nat)
    | LookAfter

  predicate Init(s: State) {
    !s.writing && s.reader == Outside && s.counter == 0 && s.raised == 0 && s.quiescent == [s.block]
  }

  predicate Enabled(s: State, step: Step) {
    match step
    case Begin => !s.writing
    case Store(at, _) => s.writing && at < |s.block|
    case Finish(_) => s.writing
    case LookBefore => !s.reader.Copying?
    case CopyCell(cell) => s.reader.Copying? && cell < |s.block| && cell !in s.reader.copy
    case LookAfter => s.reader.Copying? && forall k | 0 <= k < |s.block| :: k in s.reader.copy
  }

  function After(s: State, step: Step): State
    requires Enabled(s, step)
  {
    match step
    case Begin => s.(writing := true, counter := Inc(s.counter), raised := s.raised + 1)
    case Store(at, value) => s.(block := s.block[at := value])
    case Finish(_) =>
      s.(writing := false, counter := Inc(s.counter), raised := s.raised + 1, quiescent := s.quiescent + [s.block])
    case LookBefore =>
      s.(reader := if s.counter % 2 == 1 then Outside else Copying(s.counter, s.raised, map[]))
    case CopyCell(cell) =>
      s.(reader := Copying(s.reader.seen, s.reader.since, s.reader.copy[cell := s.block[cell]]))
    case LookAfter =>
      s.(reader := if s.counter == s.reader.seen then Kept(s.reader.since, s.raised, s.reader.copy) else Outside)
  }

  ghost predicate Next(s: State, t: State) {
    exists step :: Enabled(s, step) && After(s, step) == t
  }

  ghost predicate IsRun(run: seq<State>) {
    run != [] && forall k | 0 <= k < |run| - 1 :: Next(run[k], run[k + 1])
  }

  // ----- safety -----------------------------------------------------------------

  predicate Matches(copy: map<nat, bv8>, block: seq<bv8>) {
    forall k | k in copy :: k < |block| && copy[k] == block[k]
  }

  /** The counter tells how often it was raised, and its parity whether a write is under way. */
  predicate CounterInv(s: State) {
    && s.counter == s.raised % WORD
    && (s.writing <==> s.raised % 2 == 1)
    && |s.quiescent| == s.raised / 2 + 1
    && (forall k | 0 <= k < |s.quiescent| :: |s.quiescent[k]| == |s.block|)
    && (!s.writing ==> s.block == s.quiescent[s.raised / 2])
  }

  /** While the counter has not moved, the copy so far is of the last quiescent block. */
  predicate ReaderInv(s: State) {
    match s.reader
    case Outside => true
    case Copying(seen, since, copy) =>
      && since <= s.raised && since % 2 == 0 && since / 2 < |s.quiescent|
      && seen == since % WORD
      && (since == s.raised ==> Matches(copy, s.quiescent[since / 2]))
    case Kept(from, until, copied) =>
      && from <= until <= s.raised && from % 2 == 0 && from / 2 < |s.quiescent|
      && until % WORD == from % WORD
      && (from == until ==> Matches(copied, s.quiescent[from / 2]))
      && (forall k | 0 <= k < |s.block| :: k in copied)
  }

  predicate Inv(s: State) { CounterInv(s) && ReaderInv(s) }

  lemma EvenWord(n: nat)
    ensures (n % WORD) % 2 == n % 2
    ensures Inc(n % WORD) == (n + 1) % WORD
  {
    var q, r := n / WORD, n % WORD;
    assert n == q * WORD + r;
    if r + 1 == WORD {
      assert n + 1 == (q + 1) * WORD;
    } else {
      assert n + 1 == q * WORD + (r + 1);
    }
  }

  lemma StepKeepsInv(s: State, step: Step)
    requires Inv(s) && Enabled(s, step)
    ensures Inv(After(s, step))
  {
    EvenWord(s.raised);
  }

  lemma {:induction false} RunKeepsInv(run: seq<State>)
    requires IsRun(run) && Init(run[0])
    ensures forall k | 0 <= k < |run| :: Inv(run[k])
    decreases |run|
  {
    if |run| > 1 {
      var n := |run| - 1;
      var front := run[..n];
      assert forall k | 0 <= k < |front| - 1 :: Next(front[k], front[k + 1]) by {
        forall k | 0 <= k < |front| - 1 ensures Next(front[k], front[k + 1]) {
          assert Next(run[k], run[k + 1]);
        }
      }
      RunKeepsInv(front);
      assert Inv(front[n - 1]);
      assert Next(run[n - 1], run[n - 1 + 1]);
      var step :| Enabled(run[n - 1], step) && After(run[n - 1], step) == run[n];
      StepKeepsInv(run[n - 1], step);
    }
  }

  /** The writes completed between the reader's two looks at the counter. */
  function WritesBetween(r: Reader): int
    requires r.Kept?
  {
    (r.until - r.from) / 2
  }

  /**
   A copy that is kept is the block as it stood at one quiescent moment, namely the last
   one before the reader's first look, unless the counter went all the way round.
   */
  lemma KeptCopyIsQuiescent(run: seq<State>, k: nat)
    requires IsRun(run) && Init(run[0]) && k < |run|
    requires run[k].reader.Kept? && WritesBetween(run[k].reader) < WORD / 2
    ensures var s := run[k];
      && s.reader.from / 2 < |s.quiescent| && |s.quiescent[s.reader.from / 2]| == |s.block|
      && s.reader.copied == map i | 0 <= i < |s.block| :: s.quiescent[s.reader.from / 2][i]
  {
    RunKeepsInv(run);
    var s := run[k];
    SameResidue(s.reader.from, s.reader.until);
    assert |s.quiescent[s.reader.from / 2]| == |s.block|;
  }

  lemma SameResidue(a: nat, b: nat)
    requires a <= b && a % WORD == b % WORD && a % 2 == 0 && (b - a) / 2 < WORD / 2
    ensures a == b
  {
  }

  /** At rest the counter is even and counts the completed writes. */
  lemma AtRestEven(run: seq<State>, k: nat)
    requires IsRun(run) && Init(run[0]) && k < |run|
    ensures run[k].counter % 2 == 0 <==> !run[k].writing
    ensures !run[k].writing ==> run[k].counter == 2 * (|run[k].quiescent| - 1) % WORD
  {
    RunKeepsInv(run);
    assert Inv(run[k]);
    EvenWord(run[k].raised);
  }

  // ----- the bound is sharp -----------------------------------------------------

  ghost predicate Leads(s: State, t: State) {
    exists run :: IsRun(run) && run[0] == s && run[|run| - 1] == t
  }

  lemma LeadsByStep(s: State, step: Step)
    requires Enabled(s, step)
    ensures Leads(s, After(s, step))
  {
    var run := [s, After(s, step)];
    assert Next(run[0], run[1]);
    assert IsRun(run);
  }

  lemma LeadsTrans(s: State, t: State, u: State)
    requires Leads(s, t) && Leads(t, u)
    ensures Leads(s, u)
  {
    var a :| IsRun(a) && a[0] == s && a[|a| - 1] == t;
    var b :| IsRun(b) && b[0] == t && b[|b| - 1] == u;
    var run := a + b[1..];
    forall k | 0 <= k < |run| - 1
      ensures Next(run[k], run[k + 1])
    {
      if k < |a| - 1 {
        assert Next(a[k], a[k + 1]);
      } else {
        var j := k - (|a| - 1);
        assert run[k] == b[j] && run[k + 1] == b[j + 1];
        assert Next(b[j], b[j + 1]);
      }
    }
    assert IsRun(run);
  }

  /** One write of the value 1 into both cells of a two-cell block. */
  function Written(s: State): State
    requires |s.block| == 2
  {
    s.(counter := Inc(Inc(s.counter)), block := [1, 1], raised := s.raised + 2, quiescent := s.quiescent + [[1, 1]])
  }

  lemma OneWrite(s: State)
    requires !s.writing && |s.block| == 2
    ensures Leads(s, Written(s))
  {
    var s1 := After(s, Begin);
    var s2 := After(s1, Store(0, 1));
    var s3 := After(s2, Store(1, 1));
    var s4 := After(s3, Finish(Normal));
    LeadsByStep(s, Begin);
    LeadsByStep(s1, Store(0, 1));
    LeadsByStep(s2, Store(1, 1));
    LeadsByStep(s3, Finish(Normal));
    LeadsTrans(s, s1, s2);
    LeadsTrans(s, s2, s3);
    LeadsTrans(s, s3, s4);
    assert s3.block == [1, 1];
  }

  lemma {:induction false} ManyWrites(s: State, n: nat) returns (t: State)
    requires !s.writing && |s.block| == 2 && s.counter == s.raised % WORD
    ensures Leads(s, t) && !t.writing && t.reader == s.reader
    ensures t.raised == s.raised + 2 * n && t.counter == t.raised % WORD
    ensures t.block == if n == 0 then s.block else [1, 1]
    ensures |t.quiescent| == |s.quiescent| + n && t.quiescent[..|s.quiescent|] == s.quiescent
    ensures forall k | |s.quiescent| <= k < |t.quiescent| :: t.quiescent[k] == [1, 1]
    decreases n
  {
    if n == 0 {
      var run := [s];
      assert IsRun(run);
      t := s;
    } else {
      EvenWord(s.raised);
      EvenWord(s.raised + 1);
      OneWrite(s);
      t := ManyWrites(Written(s), n - 1);
      LeadsTrans(s, Written(s), t);
    }
  }

  /** A kept copy that equals no quiescent block, read across exactly 2^31 writes. */
  predicate KeptTorn(s: State) {
    && s.reader.Kept? && WritesBetween(s.reader) == WORD / 2
    && s.reader.copied == map[0 := 0, 1 := 1]
    && forall k | 0 <= k < |s.quiescent| :: s.quiescent[k] == [0, 0] || s.quiescent[k] == [1, 1]
  }

  /** A reader has looked and copied the first cell of an untouched block. */
  function HalfCopied(): State {
    State(0, [0, 0], false, Copying(0, 0, map[0 := 0]), 0, [[0, 0]])
  }

  lemma HalfCopiedReached(s: State)
    requires s == State(0, [0, 0], false, Outside, 0, [[0, 0]])
    ensures Leads(s, HalfCopied())
  {
    hide Leads, IsRun, Next;
    var s1 := After(s, LookBefore);
    LeadsByStep(s, LookBefore);
    LeadsByStep(s1, CopyCell(0));
    LeadsTrans(s, s1, HalfCopied());
  }

  /** After a full round of the counter the reader copies the other cell and keeps the copy. */
  lemma CopyFinished(s: State) returns (t: State)
    requires s.reader == Copying(0, 0, map[0 := 0]) && s.block == [1, 1] && s.counter == 0 && s.raised == WORD
    ensures Leads(s, t) && t.reader == Kept(0, WORD, map[0 := 0, 1 := 1]) && t.quiescent == s.quiescent
  {
    hide Leads, IsRun, Next;
    var s1 := After(s, CopyCell(1));
    LeadsByStep(s, CopyCell(1));
    t := After(s1, LookAfter);
    LeadsByStep(s1, LookAfter);
    LeadsTrans(s, s1, t);
  }

  lemma WrapAroundFools()
    ensures exists run :: IsRun(run) && Init(run[0]) && KeptTorn(run[|run| - 1])
  {
    hide IsRun, Next, Leads;
    var s := State(0, [0, 0], false, Outside, 0, [[0, 0]]);
    HalfCopiedReached(s);
    var u := ManyWrites(HalfCopied(), WORD / 2);
    var t := CopyFinished(u);
    LeadsTrans(s, HalfCopied(), u);
    LeadsTrans(s, u, t);
    forall k | 0 <= k < |t.quiescent|
      ensures t.quiescent[k] == [0, 0] || t.quiescent[k] == [1, 1]
    {
      if k < 1 {
        assert u.quiescent[..1][k] == [[0, 0]][k];
      }
    }
    var run := RunOf(s, t);
  }

  lemma RunOf(s: State, t: State) returns (run: seq<State>)
    requires Leads(s, t)
    ensures IsRun(run) && run[0] == s && run[|run| - 1] == t
  {
    run :| IsRun(run) && run[0] == s && run[|run| - 1] == t;
  }

  // ----- the writer's code ------------------------------------------------------

  /** What cuts a write short: nothing, or a throw before the store of that number. */
  datatype Fault = NoFault | Throws(before: nat) | ThrowsUnknown(before: nat)

  function Stored(block: seq<bv8>, stores: seq<(nat, bv8)>): (r: seq<bv8>)
    requires forall k | 0 <= k < |stores| :: stores[k].0 < |block|
    ensures |r| == |block|
  {
    if stores == [] then block
    else
      var front, last := stores[..|stores| - 1], stores[|stores| - 1];
      Stored(block, front)[last.0 := last.1]
  }

  /** How many of the stores are made before the write ends. */
  function Made(stores: seq<(nat, bv8)>, fault: Fault): (n: nat)
    ensures n <= |stores|
  {
    match fault
    case NoFault => |stores|
    case Throws(before) => if before < |stores| then before else |stores|
    case ThrowsUnknown(before) => if before < |stores| then before else |stores|
  }

  /** Each cell holds what was last stored to it, or what it held before. */
  predicate Holds(before: seq<bv8>, after: seq<bv8>, stores: seq<(nat, bv8)>) {
    && |after| == |before|
    && (forall at | 0 <= at < |before| && (forall k | 0 <= k < |stores| :: stores[k].0 != at) :: after[at] == before[at])
    && (forall k | 0 <= k < |stores| && stores[k].0 < |after| && (forall j | k < j < |stores| :: stores[j].0 != stores[k].0) ::
          after[stores[k].0] == stores[k].1)
  }

  lemma {:induction false} StoredHolds(block: seq<bv8>, stores: seq<(nat, bv8)>)
    requires forall k | 0 <= k < |stores| :: stores[k].0 < |block|
    ensures Holds(block, Stored(block, stores), stores)
    decreases |stores|
  {
    hide Holds;
    if stores == [] {
      NothingHeld(block);
    } else {
      var n := |stores| - 1;
      StoredHolds(block, stores[..n]);
      assert stores[..n] + [stores[n]] == stores;
      OneMoreHeld(block, Stored(block, stores[..n]), stores[..n], stores[n]);
    }
  }

  lemma NothingHeld(block: seq<bv8>)
    ensures Holds(block, block, [])
  {
  }

  lemma OneMoreHeld(before: seq<bv8>, after: seq<bv8>, stores: seq<(nat, bv8)>, store: (nat, bv8))
    requires Holds(before, after, stores) && store.0 < |before|
    ensures Holds(before, after[store.0 := store.1], stores + [store])
  {
    var all, r := stores + [store], after[store.0 := store.1];
    assert all[|stores|] == store && forall k | 0 <= k < |stores| :: all[k] == stores[k];
    forall k | 0 <= k < |all| && all[k].0 < |r| && forall j | k < j < |all| :: all[j].0 != all[k].0
      ensures r[all[k].0] == all[k].1
    {
      if k < |stores| {
        assert all[|stores|].0 != all[k].0;
        assert forall j | k < j < |stores| :: all[j] == stores[j];
      }
    }
  }

  class SharedBlock {
    var writeSequence: nat
    const cells: array<bv8>

    constructor (size: nat)
      ensures writeSequence == 0 && fresh(cells) && cells.Length == size
    {
      writeSequence := 0;
      cells := new bv8[size](_ => 0);
    }

    /**
     One write under the writers' mutex. `trail` lists the states of the shared block
     between the atomic steps: every exit makes it a run of the machine above that ends
     at rest with the counter raised twice.
     */
    method WriteToSharedMemory(stores: seq<(nat, bv8)>, fault: Fault, ghost s: State)
      returns (exit: Exit, ghost trail: seq<State>)
      requires forall k | 0 <= k < |stores| :: stores[k].0 < cells.Length
      requires Inv(s) && !s.writing && s.counter == writeSequence && s.block == cells[..]
      modifies this`writeSequence, cells
      ensures exit.Normal? <==> Made(stores, fault) == |stores|
      ensures cells[..] == Stored(old(cells[..]), stores[..Made(stores, fault)])
      ensures fault.NoFault? ==> exit.Normal? && Holds(old(cells[..]), cells[..], stores)
      ensures !fault.NoFault? && fault.before < |stores| ==>
        !exit.Normal? && Holds(old(cells[..]), cells[..], stores[..fault.before])
      ensures writeSequence == (old(writeSequence) + 2) % WORD && writeSequence % 2 == 0
      ensures IsRun(trail) && trail[0] == s
      ensures var t := trail[|trail| - 1];
        && Inv(t) && !t.writing && t.counter == writeSequence && t.block == cells[..]
        && t.raised == s.raised + 2 && t.reader == s.reader && t.quiescent == s.quiescent + [cells[..]]
    {
      hide Inv, IsRun, Next, Stored, Holds;
      ghost var t := After(s, Begin);
      StepKeepsInv(s, Begin);
      RunOfOne(s);
      trail := Extend([s], Begin);
      writeSequence := Inc(writeSequence);
      exit := Normal;
      var k := 0;
      StoreNone(cells[..], stores);
      while k < |stores| && exit == Normal
        invariant k <= Made(stores, fault)
        invariant exit == Normal || k == Made(stores, fault) < |stores|
        invariant trail != [] && IsRun(trail) && trail[0] == s && trail[|trail| - 1] == t
        invariant writeSequence == t.counter && Inv(t) && t == After(s, Begin).(block := cells[..])
        invariant cells[..] == Stored(old(cells[..]), stores[..k])
        decreases |stores| - k, exit == Normal
      {
        if fault.Throws? && fault.before == k {
          exit := Caught;
        } else if fault.ThrowsUnknown? && fault.before == k {
          exit := CaughtUnknown;
        } else {
          var (at, value) := stores[k];
          StoreNext(old(cells[..]), stores, k);
          StepKeepsInv(t, Store(at, value));
          trail := Extend(trail, Store(at, value));
          t := After(t, Store(at, value));
          cells[at] := value;
          k := k + 1;
        }
      }
      StepKeepsInv(t, Finish(exit));
      trail := Extend(trail, Finish(exit));
      writeSequence := Inc(writeSequence);
      RaisedTwice(s);
      StoredHolds(old(cells[..]), stores[..Made(stores, fault)]);
      assert stores[..|stores|] == stores;
    }
  }

  lemma RunOfOne(s: State)
    ensures IsRun([s])
  {
  }

  lemma RaisedTwice(s: State)
    requires Inv(s) && !s.writing
    ensures Inc(Inc(s.counter)) == (s.counter + 2) % WORD && Inc(Inc(s.counter)) % 2 == 0
  {
    EvenWord(s.raised);
    TwiceIncremented(s.counter);
  }

  lemma TwiceIncremented(n: nat)
    requires n < WORD && n % 2 == 0
    ensures Inc(Inc(n)) == (n + 2) % WORD && Inc(Inc(n)) % 2 == 0
  {
    assert n + 1 < WORD && Inc(n) == n + 1;
    if n + 2 == WORD {
      assert Inc(n + 1) == 0;
    } else {
      assert n + 2 < WORD && Inc(n + 1) == n + 2;
    }
  }

  lemma StoreNone(block: seq<bv8>, stores: seq<(nat, bv8)>)
    ensures Stored(block, stores[..0]) == block
  {
  }

  lemma StoreNext(block: seq<bv8>, stores: seq<(nat, bv8)>, k: nat)
    requires k < |stores| && forall i | 0 <= i < |stores| :: stores[i].0 < |block|
    ensures Stored(block, stores[..k + 1]) == Stored(block, stores[..k])[stores[k].0 := stores[k].1]
  {
    assert stores[..k + 1][..k] == stores[..k];
  }

  lemma Extend(run: seq<State>, step: Step) returns (longer: seq<State>)
    requires run != [] && IsRun(run) && Enabled(run[|run| - 1], step)
    ensures longer == run + [After(run[|run| - 1], step)] && IsRun(longer)
  {
    longer := run + [After(run[|run| - 1], step)];
    forall k | 0 <= k < |longer| - 1
      ensures Next(longer[k], longer[k + 1])
    {
      if k < |run| - 1 {
        assert Next(run[k], run[k + 1]);
      } else {
        assert Next(longer[k], longer[k + 1]);
      }
    }
  }
}
