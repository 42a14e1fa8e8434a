/**
 The background writer of sensor history: producers, the worker thread and the caller
 of `Shutdown`, interleaved step by step over a database that commits a batch as a
 whole or not at all.
 */
module HistoryLogger {
  import opened Sequences

  datatype Snapshot = Snapshot(name: string, value: real, units: string, timestampMs: nat)

  datatype Worker = Testing | Locking | Sleeping | Flushing | Rotating | Exited

  datatype Closer = NotCalled | Joining | Taking | LastFlush | Closed

  /** What is asked of the database: to take a batch, committed or not, or to drop rows older than a cutoff. */
  datatype Request = Batch(rows: seq<Snapshot>, committed: bool) | Deletion(cutoff: int)

  /** The last three fields are history: what was enqueued, how much of it when `Shutdown` was called, and every request so far. */
  datatype State = State(
    pending: seq<Snapshot>, batch: seq<Snapshot>, rows: seq<Snapshot>, worker: Worker, running: bool,
    closer: Closer, remaining: seq<Snapshot>,
    enqueued: seq<Snapshot>, atCall: nat, requests: seq<Request>)

  datatype Step =
    | WriteBatch(snapshots: seq<Snapshot>)
    | Test | Sleep | Take | Flush(ok: bool) | Rotate(deletes: bool, cutoff: int)
    | ShutdownCall | ShutdownJoin | ShutdownTake | ShutdownFlush(ok: bool)

  predicate Init(s: State) {
    s == State([], [], [], Testing, true, NotCalled, [], [], 0, [])
  }

  predicate Enabled(s: State, step: Step) {
    match step
    case WriteBatch(_) => true
    case Test => s.worker == Testing
    case Sleep => s.worker == Locking && s.pending == []
    case Take => s.worker == Sleeping || (s.worker == Locking && s.pending != [])
    case Flush(_) => s.worker == Flushing
    case Rotate(_, _) => s.worker == Rotating
    case ShutdownCall => s.closer == NotCalled && s.running
    case ShutdownJoin => s.closer == Joining && s.worker == Exited
    case ShutdownTake => s.closer == Taking
    case ShutdownFlush(_) => s.closer == LastFlush
  }

  /** An empty batch is not handed to the database at all. */
  function Flushed(requests: seq<Request>, rows: seq<Snapshot>, ok: bool): seq<Request> {
    if rows == [] then requests else requests + [Batch(rows, ok)]
  }

  function IfRecent(row: Snapshot, cutoff: int): seq<Snapshot> {
    if row.timestampMs >= cutoff then [row] else []
  }

  /** The rows no older than a cutoff. */
  function Recent(rows: seq<Snapshot>, cutoff: int): seq<Snapshot> {
    if rows == [] then [] else IfRecent(rows[0], cutoff) + Recent(rows[1..], cutoff)
  }

  function After(s: State, step: Step): State
    requires Enabled(s, step)
  {
    match step
    case WriteBatch(snapshots) =>
      s.(pending := s.pending + snapshots, enqueued := s.enqueued + snapshots)
    case Test => s.(worker := if s.running then Locking else Exited)
    case Sleep => s.(worker := Sleeping)
    case Take => s.(batch := s.pending, pending := [], worker := Flushing)
    case Flush(ok) =>
      s.(rows := if ok then s.rows + s.batch else s.rows, requests := Flushed(s.requests, s.batch, ok),
         batch := [], worker := Rotating)
    case Rotate(deletes, cutoff) =>
      s.(rows := if deletes then Recent(s.rows, cutoff) else s.rows,
         requests := if deletes then s.requests + [Deletion(cutoff)] else s.requests,
         worker := Testing)
    case ShutdownCall => s.(running := false, closer := Joining, atCall := |s.enqueued|)
    case ShutdownJoin => s.(closer := Taking)
    case ShutdownTake => s.(remaining := s.pending, pending := [], closer := LastFlush)
    case ShutdownFlush(ok) =>
      s.(rows := if ok then s.rows + s.remaining else s.rows, requests := Flushed(s.requests, s.remaining, ok),
         remaining := [], closer := Closed)
  }

  predicate Runs(s: State, steps: seq<Step>)
    decreases |steps|
  {
    steps == [] || (Enabled(s, steps[0]) && Runs(After(s, steps[0]), steps[1..]))
  }

  function Exec(s: State, steps: seq<Step>): State
    requires Runs(s, steps)
    decreases |steps|
  {
    if steps == [] then s else Exec(After(s, steps[0]), steps[1..])
  }

  /** All rows handed to the database, in order. */
  function Handed(requests: seq<Request>): seq<Snapshot> {
    if requests == [] then []
    else Rows(requests[0]) + Handed(requests[1..])
  }

  /** The highest cutoff of the deletions, or 0. */
  function Highest(requests: seq<Request>): (cutoff: int)
    ensures cutoff >= 0
  {
    if requests == [] then 0
    else
      var later := Highest(requests[1..]);
      if requests[0].Deletion? && requests[0].cutoff > later then requests[0].cutoff else later
  }

  /** The committed batches in order, each without the rows a later deletion found too old. */
  function Alive(requests: seq<Request>): seq<Snapshot> {
    if requests == [] then []
    else
      var later := requests[1..];
      Left(requests[0], later) + Alive(later)
  }

  lemma {:induction false} RecentConcat(x: seq<Snapshot>, y: seq<Snapshot>, cutoff: int)
    ensures Recent(x + y, cutoff) == Recent(x, cutoff) + Recent(y, cutoff)
  {
    hide IfRecent;
    var whole := x + y;
    if x == [] {
      assert whole == y;
    } else {
      assert whole[0] == x[0] && whole[1..] == x[1..] + y;
      RecentConcat(x[1..], y, cutoff);
      assert Recent(whole, cutoff) == IfRecent(x[0], cutoff) + (Recent(x[1..], cutoff) + Recent(y, cutoff));
    }
  }

  /** A deletion keeps the rows no older than its cutoff, as often as they are there, and drops the others. */
  lemma {:induction false} RecentCounts(rows: seq<Snapshot>, cutoff: int)
    ensures forall r <- Recent(rows, cutoff) :: r.timestampMs >= cutoff
    ensures forall r: Snapshot :: multiset(Recent(rows, cutoff))[r] == if r.timestampMs >= cutoff then multiset(rows)[r] else 0
  {
    if rows != [] {
      RecentCounts(rows[1..], cutoff);
      assert rows == [rows[0]] + rows[1..];
    }
  }

  function NotOlder(cutoff: int): Snapshot -> bool { (row: Snapshot) => row.timestampMs >= cutoff }

  /** The kept rows are those rows, in their old order. */
  lemma {:induction false} RecentSelects(rows: seq<Snapshot>, cutoff: int)
    ensures Selects(rows, Recent(rows, cutoff), NotOlder(cutoff))
  {
    hide IfRecent;
    if rows == [] {
      SelectsNone(NotOlder(cutoff));
    } else {
      var last := |rows| - 1;
      var front, row := rows[..last], rows[last];
      RecentSelects(front, cutoff);
      SelectsMore(front, Recent(front, cutoff), row, NotOlder(cutoff));
      assert rows == front + [row];
      RecentConcat(front, [row], cutoff);
      RecentOne(row, cutoff);
    }
  }

  lemma RecentOne(row: Snapshot, cutoff: int)
    ensures Recent([row], cutoff) == if NotOlder(cutoff)(row) then [row] else []
  {
  }

  /** A cutoff that is not positive drops nothing. */
  lemma {:induction false} RecentAll(x: seq<Snapshot>, cutoff: int)
    requires cutoff <= 0
    ensures Recent(x, cutoff) == x
  {
    if x != [] {
      RecentAll(x[1..], cutoff);
    }
  }

  lemma RecentNone(cutoff: int)
    ensures Recent([], cutoff) == []
  {
  }

  function Higher(c: int, d: int): int { if c > d then c else d }

  /** Of two cutoffs the higher one decides. */
  lemma {:induction false} RecentTwice(x: seq<Snapshot>, c: int, d: int)
    ensures Recent(Recent(x, c), d) == Recent(x, Higher(c, d))
  {
    if x != [] {
      RecentTwice(x[1..], c, d);
      RecentConcat(IfRecent(x[0], c), Recent(x[1..], c), d);
      OneTwice(x[0], c, d);
    }
  }

  lemma OneTwice(x: Snapshot, c: int, d: int)
    ensures Recent(IfRecent(x, c), d) == IfRecent(x, Higher(c, d))
  {
    assert Recent([], d) == [];
    assert Recent([x], d) == IfRecent(x, d) + Recent([], d);
  }

  /** What is left of one request after those that follow it. */
  function Left(q: Request, later: seq<Request>): seq<Snapshot> {
    if q.Batch? && q.committed then Recent(q.rows, Highest(later)) else []
  }

  function Rows(q: Request): seq<Snapshot> { if q.Batch? then q.rows else [] }

  /** What one more request does to each view of the requests. */
  lemma {:induction false} HandedMore(requests: seq<Request>, q: Request)
    ensures Handed(requests + [q]) == Handed(requests) + Rows(q)
  {
    var all := requests + [q];
    if requests == [] {
      assert all == [q] && all[1..] == [];
    } else {
      assert all[0] == requests[0] && all[1..] == requests[1..] + [q];
      HandedMore(requests[1..], q);
    }
  }

  lemma {:induction false} HighestMore(requests: seq<Request>, q: Request)
    ensures Highest(requests + [q]) == if q.Deletion? then Higher(q.cutoff, Highest(requests)) else Highest(requests)
  {
    var all := requests + [q];
    if requests == [] {
      assert all == [q] && all[1..] == [];
    } else {
      assert all[0] == requests[0] && all[1..] == requests[1..] + [q];
      HighestMore(requests[1..], q);
    }
  }

  /** The rows left after one more request. */
  function Kept(rows: seq<Snapshot>, q: Request): seq<Snapshot> {
    match q
    case Batch(batch, committed) => if committed then rows + batch else rows
    case Deletion(cutoff) => Recent(rows, cutoff)
  }

  lemma {:induction false} AliveMore(requests: seq<Request>, q: Request)
    ensures Alive(requests + [q]) == Kept(Alive(requests), q)
  {
    hide Recent, Left, Kept, Highest;
    var all := requests + [q];
    if requests == [] {
      assert all == [q] && all[1..] == [];
      FirstRequest(q);
    } else {
      var first, later := requests[0], requests[1..];
      assert all[0] == first && all[1..] == later + [q];
      AliveMore(later, q);
      HighestMore(later, q);
      LeftMore(first, later, Alive(later), q);
    }
  }

  lemma FirstRequest(q: Request)
    ensures Left(q, []) + [] == Kept([], q)
  {
    if q.Batch? {
      RecentAll(q.rows, 0);
    } else {
      RecentNone(q.cutoff);
    }
  }

  lemma LeftMore(first: Request, later: seq<Request>, rest: seq<Snapshot>, q: Request)
    ensures Left(first, later + [q]) + Kept(rest, q) == Kept(Left(first, later) + rest, q)
  {
    hide Recent, Highest;
    HighestMore(later, q);
    if q.Deletion? {
      RecentConcat(Left(first, later), rest, q.cutoff);
      RecentNone(q.cutoff);
      if first.Batch? {
        RecentTwice(first.rows, Highest(later), q.cutoff);
      }
    }
  }

  lemma FlushedAdds(requests: seq<Request>, rows: seq<Snapshot>, ok: bool)
    ensures Handed(Flushed(requests, rows, ok)) == Handed(requests) + rows
    ensures Alive(Flushed(requests, rows, ok)) == Alive(requests) + if ok then rows else []
  {
    hide Handed, Alive;
    if rows != [] {
      HandedMore(requests, Batch(rows, ok));
      AliveMore(requests, Batch(rows, ok));
    }
  }

  /**
   Rows are the committed batches without what was deleted since, and everything enqueued is
   handed over, in flight or pending, in order.
   */
  predicate Ledger(s: State) {
    && s.rows == Alive(s.requests)
    && s.enqueued == Handed(s.requests) + s.batch + s.remaining + s.pending
  }

  predicate Phases(s: State) {
    && (s.worker != Flushing ==> s.batch == [])
    && (s.closer != LastFlush ==> s.remaining == [])
    && (s.closer in {Taking, LastFlush, Closed} ==> s.worker == Exited)
    && (s.running <==> s.closer == NotCalled)
    && (s.closer != NotCalled ==> s.atCall <= |s.enqueued|)
    && (s.closer == LastFlush ==> s.atCall <= |Handed(s.requests)| + |s.remaining|)
    && (s.closer == Closed ==> s.atCall <= |Handed(s.requests)|)
  }

  predicate Inv(s: State) { Ledger(s) && Phases(s) }

  lemma StepKeepsInv(s: State, step: Step)
    requires Inv(s) && Enabled(s, step)
    ensures Inv(After(s, step))
  {
    hide Ledger, Phases, Enabled, After;
    StepKeepsLedger(s, step);
    StepKeepsPhases(s, step);
  }

  lemma StepKeepsLedger(s: State, step: Step)
    requires Inv(s) && Enabled(s, step)
    ensures Ledger(After(s, step))
  {
    hide Handed, Alive, Recent, Flushed;
    var handed := Handed(s.requests);
    match step
    case WriteBatch(snapshots) => assert handed + s.batch + s.remaining + s.pending + snapshots
      == handed + s.batch + s.remaining + (s.pending + snapshots);
    case Take => Emptied(handed, s.pending);
    case ShutdownTake => Emptied(handed, s.pending);
    case Flush(ok) =>
      FlushedAdds(s.requests, s.batch, ok);
      Emptied(handed + s.batch, s.remaining);
    case Rotate(deletes, cutoff) =>
      HandedMore(s.requests, Deletion(cutoff));
      AliveMore(s.requests, Deletion(cutoff));
      Emptied(handed, []);
    case ShutdownFlush(ok) =>
      FlushedAdds(s.requests, s.remaining, ok);
      Emptied(handed, s.remaining);
      Emptied(handed + s.remaining, []);
    case _ =>
  }

  lemma Emptied(h: seq<Snapshot>, p: seq<Snapshot>)
    ensures h + [] == h && h + [] + p == h + p && h + p + [] == h + p && h + [] + [] + p == h + p && h + p + [] + [] == h + p
    ensures h + [] + p + [] == h + p
  {
  }

  lemma StepKeepsPhases(s: State, step: Step)
    requires Inv(s) && Enabled(s, step)
    ensures Phases(After(s, step))
  {
    hide Handed, Alive, Recent, Flushed;
    match step
    case Flush(ok) => FlushedAdds(s.requests, s.batch, ok);
    case ShutdownFlush(ok) => FlushedAdds(s.requests, s.remaining, ok);
    case _ =>
  }

  lemma {:induction false} RunKeepsInv(s: State, steps: seq<Step>)
    requires Inv(s) && Runs(s, steps)
    ensures Inv(Exec(s, steps))
    decreases |steps|
  {
    if steps != [] {
      StepKeepsInv(s, steps[0]);
      RunKeepsInv(After(s, steps[0]), steps[1..]);
    }
  }

  lemma Reachable(s: State, steps: seq<Step>)
    requires Init(s) && Runs(s, steps)
    ensures Inv(Exec(s, steps))
  {
    RunKeepsInv(s, steps);
  }

  predicate AllCommitted(requests: seq<Request>) {
    forall k | 0 <= k < |requests| :: requests[k].Batch? ==> requests[k].committed
  }

  /** If every batch was committed, what was handed over is there but for rows older than some cutoff used. */
  lemma {:induction false} AliveIsHanded(requests: seq<Request>, c: int)
    requires AllCommitted(requests) && c >= Highest(requests)
    ensures Recent(Alive(requests), c) == Recent(Handed(requests), c)
    ensures Highest(requests) == 0 ==> Alive(requests) == Handed(requests)
  {
    hide Recent;
    if requests != [] {
      var first, later := requests[0], requests[1..];
      assert forall k | 0 <= k < |later| :: later[k] == requests[k + 1];
      AliveIsHanded(later, c);
      RecentConcat(Left(first, later), Alive(later), c);
      RecentConcat(Rows(first), Handed(later), c);
      RecentTwice(Rows(first), Highest(later), c);
      if Highest(later) == 0 {
        RecentAll(Rows(first), 0);
      }
    }
  }

  /**
   Rows, the batch in flight and the pending snapshots spell what was enqueued, as long as commits
   succeed: entirely if nothing was deleted, and else but for what is older than a cutoff used.
   */
  lemma NothingLost(s: State, steps: seq<Step>, c: int)
    requires Init(s) && Runs(s, steps)
    requires AllCommitted(Exec(s, steps).requests) && c >= Highest(Exec(s, steps).requests)
    ensures var t := Exec(s, steps);
      && Recent(t.enqueued, c) == Recent(t.rows + (t.batch + t.remaining + t.pending), c)
      && (Highest(t.requests) == 0 ==> t.enqueued == t.rows + (t.batch + t.remaining + t.pending))
  {
    hide Recent, Handed, Alive, Highest, Runs, Exec, AllCommitted, Init;
    Reachable(s, steps);
    var t := Exec(s, steps);
    var open := t.batch + t.remaining + t.pending;
    AliveIsHanded(t.requests, c);
    assert t.enqueued == Handed(t.requests) + open;
    RecentConcat(Handed(t.requests), open, c);
    RecentConcat(t.rows, open, c);
  }

  /** With failing statements too, the rows are whole batches in order, but for rows deleted for their age since. */
  lemma RowsAreWholeBatches(s: State, steps: seq<Step>)
    requires Init(s) && Runs(s, steps)
    ensures var t := Exec(s, steps);
      && t.rows == Alive(t.requests)
      && t.enqueued == Handed(t.requests) + t.batch + t.remaining + t.pending
  {
    RunKeepsInv(s, steps);
  }

  /**
   After `Shutdown` everything enqueued before it was handed over and, unless deleted for its age,
   is in the database, in order; later snapshots stay behind.
   */
  lemma ShutdownIsComplete(s: State, steps: seq<Step>, c: int)
    requires Init(s) && Runs(s, steps)
    requires Exec(s, steps).closer == Closed && AllCommitted(Exec(s, steps).requests)
    requires c >= Highest(Exec(s, steps).requests)
    ensures var t := Exec(s, steps);
      && t.atCall <= |Handed(t.requests)| && t.enqueued == Handed(t.requests) + t.pending
      && Recent(t.rows, c) == Recent(Handed(t.requests), c)
      && (Highest(t.requests) == 0 ==> t.rows == Handed(t.requests))
  {
    hide Recent, Handed, Alive, Highest, Runs, Exec, AllCommitted, Init;
    Reachable(s, steps);
    AliveIsHanded(Exec(s, steps).requests, c);
  }

  function StepsToExit(w: Worker): nat {
    match w
    case Locking => 5
    case Sleeping => 4
    case Flushing => 3
    case Rotating => 2
    case Testing => 1
    case Exited => 0
  }

  predicate IsWorkerStep(step: Step) {
    step.Test? || step.Sleep? || step.Take? || step.Flush? || step.Rotate?
  }

  /** Once `Shutdown` has cleared the flag the worker can always move, and every move brings it nearer to its exit. */
  lemma WorkerExits(s: State)
    requires !s.running && s.worker != Exited
    ensures exists step :: IsWorkerStep(step) && Enabled(s, step)
    ensures forall step | IsWorkerStep(step) && Enabled(s, step) ::
      StepsToExit(After(s, step).worker) < StepsToExit(s.worker)
  {
    var step :=
      match s.worker
      case Testing => Test
      case Locking => if s.pending == [] then Sleep else Take
      case Sleeping => Take
      case Flushing => Flush(true)
      case Rotating => Rotate(false, 0);
    assert IsWorkerStep(step) && Enabled(s, step);
  }

  // ----- the transaction --------------------------------------------------------

  /** How each statement of one transaction turns out. */
  datatype Outcome = Outcome(begins: bool, prepares: bool, inserts: seq<bool>, commits: bool)

  function Succeeds(o: Outcome, n: nat): bool {
    o.begins && o.prepares && (forall k | 0 <= k < n :: k < |o.inserts| && o.inserts[k]) && o.commits
  }

  /** A table with at most one transaction open on it. */
  class Database {
    var rows: seq<Snapshot>
    var uncommitted: seq<Snapshot>
    var open: bool

    constructor ()
      ensures rows == [] && uncommitted == [] && !open
    {
      rows, uncommitted, open := [], [], false;
    }

    method Rollback()
      modifies this`uncommitted, this`open
      ensures uncommitted == [] && !open
    {
      uncommitted, open := [], false;
    }

    /** Rows older than the cutoff are deleted, unless the statement fails. */
    method RotateIfNeeded(cutoff: int, prepares: bool, steps: bool)
      modifies this`rows
      ensures rows == if prepares && steps then Recent(old(rows), cutoff) else old(rows)
      ensures prepares && steps ==> forall r <- rows :: r.timestampMs >= cutoff
      ensures prepares && steps ==> forall r: Snapshot ::
        multiset(rows)[r] == if r.timestampMs >= cutoff then multiset(old(rows))[r] else 0
      ensures prepares && steps ==> Selects(old(rows), rows, NotOlder(cutoff))
    {
      if !prepares { return; }
      if !steps { return; }
      RecentCounts(rows, cutoff);
      RecentSelects(rows, cutoff);
      rows := Recent(rows, cutoff);
    }

    /** All of the batch reaches the table, or none of it does; no transaction stays open. */
    method FlushBatch(batch: seq<Snapshot>, o: Outcome)
      requires !open && uncommitted == []
      modifies this
      ensures !open && uncommitted == []
      ensures rows == if Succeeds(o, |batch|) then old(rows) + batch else old(rows)
    {
      if batch == [] {
        assert rows + batch == rows;
        return;
      }
      if !o.begins {
        return;
      }
      open := true;
      if !o.prepares {
        Rollback();
        return;
      }
      for k := 0 to |batch|
        invariant open && uncommitted == batch[..k] && rows == old(rows)
        invariant forall i | 0 <= i < k :: i < |o.inserts| && o.inserts[i]
      {
        if k >= |o.inserts| || !o.inserts[k] {
          assert !Succeeds(o, |batch|);
          Rollback();
          return;
        }
        uncommitted := uncommitted + [batch[k]];
      }
      if !o.commits {
        Rollback();
        return;
      }
      assert Succeeds(o, |batch|);
      assert batch[..|batch|] == batch;
      rows, uncommitted, open := rows + uncommitted, [], false;
    }
  }

  // ----- the code of the critical sections --------------------------------------

  class HistoryLogger {
    var pending: seq<Snapshot>
    var running: bool
    const db: Database

    constructor (db: Database)
      ensures pending == [] && running && this.db == db
    {
      pending, running := [], true;
      this.db := db;
    }

    /** The object and its database show the shared part of a state, between transactions. */
    predicate Shows(s: State)
      reads this, db
    {
      pending == s.pending && running == s.running && db.rows == s.rows && !db.open && db.uncommitted == []
    }

    method WriteBatch(batch: seq<Snapshot>, ghost s: State)
      requires Shows(s)
      modifies this`pending
      ensures Shows(After(s, Step.WriteBatch(batch)))
    {
      pending := pending + batch;
    }

    /** One pass of the worker after its wait: pending snapshots go to the database, old rows once an hour. */
    method FlushPending(o: Outcome, hourPassed: bool, cutoff: int, prepares: bool, steps: bool, ghost s: State)
      returns (ghost t: State)
      requires Shows(s) && Enabled(s, Take) && s.batch == []
      modifies this`pending, db
      ensures t == After(After(After(s, Take), Flush(Succeeds(o, |s.pending|))), Rotate(hourPassed && prepares && steps, cutoff))
      ensures Shows(t) && t.worker == Testing && pending == []
    {
      hide Recent;
      assert s.rows + [] == s.rows;
      var batch: seq<Snapshot> := [];
      if pending != [] {
        batch, pending := pending, batch;
      }
      if batch != [] {
        db.FlushBatch(batch, o);
      }
      if hourPassed {
        db.RotateIfNeeded(cutoff, prepares, steps);
      }
      t := After(After(After(s, Take), Flush(Succeeds(o, |s.pending|))), Rotate(hourPassed && prepares && steps, cutoff));
    }

    /** What `Shutdown` does once the worker has been joined. */
    method FlushRemaining(o: Outcome, ghost s: State) returns (ghost t: State)
      requires Shows(s) && s.closer == Taking
      modifies this`pending, db
      ensures t == After(After(s, ShutdownTake), ShutdownFlush(Succeeds(o, |s.pending|)))
      ensures Shows(t) && t.closer == Closed && pending == []
    {
      var remaining := pending;
      pending := [];
      if remaining != [] {
        db.FlushBatch(remaining, o);
      }
      t := After(After(s, ShutdownTake), ShutdownFlush(Succeeds(o, |s.pending|)));
    }
  }
}
