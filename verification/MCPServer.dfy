/**
 The tool-call limiter of the MCP server: a counter that starts anew with the first call
 more than 1000 ms after its window began. Times are nanoseconds of the steady clock;
 the elapsed time is cut down to whole milliseconds before it is compared.
 */
module MCPServer {

  const LIMIT := 30
  const MS := 1_000_000
  /** The least time between two window starts: 1001 whole milliseconds. */
  const PERIOD := 1001 * MS

  datatype Window = Window(start: nat, count: nat)

  predicate Fresh(w: Window, now: nat)
    requires w.start <= now
  {
    (now - w.start) / MS > 1000
  }

  function Next(w: Window, now: nat): Window
    requires w.start <= now
  {
    if Fresh(w, now) then Window(now, 1) else Window(w.start, w.count + 1)
  }

  predicate Admits(w: Window, now: nat)
    requires w.start <= now
  {
    Next(w, now).count <= LIMIT
  }

  /** Call times that never go back, beginning at `from` or later. */
  predicate Ordered(from: nat, calls: seq<nat>)
    decreases |calls|
  {
    calls == [] || (from <= calls[0] && Ordered(calls[0], calls[1..]))
  }

  /** How many of the calls are admitted at times from `a` to `b`. */
  function Admitted(w: Window, calls: seq<nat>, a: nat, b: nat): nat
    requires Ordered(w.start, calls)
    decreases |calls|
  {
    if calls == [] then 0
    else
      NextOrdered(w, calls);
      (if Admits(w, calls[0]) && a <= calls[0] <= b then 1 else 0) + Admitted(Next(w, calls[0]), calls[1..], a, b)
  }

  lemma NextOrdered(w: Window, calls: seq<nat>)
    requires calls != [] && Ordered(w.start, calls)
    ensures Ordered(Next(w, calls[0]).start, calls[1..])
  {
    OrderedFrom(calls[0], Next(w, calls[0]).start, calls[1..]);
  }

  lemma OrderedFrom(from: nat, earlier: nat, calls: seq<nat>)
    requires earlier <= from && Ordered(from, calls)
    ensures Ordered(earlier, calls)
  {
  }

  lemma FreshAfterPeriod(w: Window, now: nat)
    requires w.start <= now
    ensures Fresh(w, now) <==> w.start + PERIOD <= now
  {
  }

  /** A call more than 1000 ms after the window began is always admitted. */
  lemma LateCallAdmitted(w: Window, now: nat)
    requires w.start <= now && now - w.start >= PERIOD
    ensures Admits(w, now) && Next(w, now).start == now
  {
    FreshAfterPeriod(w, now);
  }

  // ----- the bound --------------------------------------------------------------

  /** How many windows can still begin by `b` if none begins before `first`. */
  function Windows(first: nat, b: nat): nat {
    if b < first then 0 else (b - first) / PERIOD + 1
  }

  function Left(count: nat): nat { if count < LIMIT then LIMIT - count else 0 }

  function Max(x: nat, y: nat): nat { if x < y then y else x }

  lemma WindowsMonotone(x: nat, y: nat, b: nat)
    requires x <= y
    ensures Windows(y, b) <= Windows(x, b)
  {
    if y <= b {
      DivMonotone(b - y, b - x);
    }
  }

  lemma DivMonotone(x: nat, y: nat)
    requires x <= y
    ensures x / PERIOD <= y / PERIOD
  {
    assert PERIOD * (x / PERIOD) <= x && y < PERIOD * (y / PERIOD + 1);
  }

  lemma WindowsStep(now: nat, b: nat)
    requires now <= b
    ensures Windows(now, b) == 1 + Windows(now + PERIOD, b)
  {
    if now + PERIOD <= b {
      assert (b - now) / PERIOD == (b - now - PERIOD) / PERIOD + 1;
    } else {
      assert b - now < PERIOD;
    }
  }

  /** From a window on, with calls from `lo` on, no more than this many can be admitted by `b`. */
  function Room(w: Window, lo: nat, b: nat): nat {
    Left(w.count) + LIMIT * Windows(Max(lo, w.start + PERIOD), b)
  }

  lemma RoomStep(w: Window, lo: nat, now: nat, b: nat)
    requires w.start <= lo <= now <= b
    ensures (if Admits(w, now) then 1 else 0) + Room(Next(w, now), now, b) <= Room(w, lo, b)
  {
    FreshAfterPeriod(w, now);
    if Fresh(w, now) {
      WindowsStep(now, b);
      WindowsMonotone(Max(lo, w.start + PERIOD), now, b);
    }
  }

  lemma {:induction false} AdmittedWithinRoom(w: Window, lo: nat, calls: seq<nat>, a: nat, b: nat)
    requires w.start <= lo && Ordered(lo, calls) && Ordered(w.start, calls)
    ensures Admitted(w, calls, a, b) <= Room(w, lo, b)
    decreases |calls|
  {
    if calls != [] {
      var now := calls[0];
      NextOrdered(w, calls);
      if now <= b {
        RoomStep(w, lo, now, b);
        AdmittedWithinRoom(Next(w, now), now, calls[1..], a, b);
      } else {
        NoneAfter(Next(w, now), now, calls[1..], a, b);
      }
    }
  }

  lemma {:induction false} NoneAfter(w: Window, lo: nat, calls: seq<nat>, a: nat, b: nat)
    requires b < lo && Ordered(lo, calls) && Ordered(w.start, calls)
    ensures Admitted(w, calls, a, b) == 0
    decreases |calls|
  {
    if calls != [] {
      NextOrdered(w, calls);
      NoneAfter(Next(w, calls[0]), calls[0], calls[1..], a, b);
    }
  }

  /** In any interval of `ms` milliseconds at most `30 * (ms / 1001 + 2)` calls are admitted. */
  lemma {:induction false} IntervalBound(w: Window, calls: seq<nat>, a: nat, ms: nat)
    requires Ordered(w.start, calls)
    ensures Admitted(w, calls, a, a + ms * MS) <= LIMIT * (ms / 1001 + 2)
    decreases |calls|
  {
    if calls != [] {
      var now, b := calls[0], a + ms * MS;
      NextOrdered(w, calls);
      if now < a {
        IntervalBound(Next(w, now), calls[1..], a, ms);
      } else {
        AdmittedWithinRoom(w, now, calls, a, b);
        WindowsMonotone(a, Max(now, w.start + PERIOD), b);
        WholePeriods(ms);
      }
    }
  }

  lemma WholePeriods(ms: nat)
    ensures ms * MS / PERIOD == ms / 1001
  {
    var q, r := ms / 1001, ms % 1001;
    assert ms * MS == q * PERIOD + r * MS;
  }

  /** Hence at most 60 calls in any second. */
  lemma SixtyPerSecond(w: Window, calls: seq<nat>, a: nat)
    requires Ordered(w.start, calls)
    ensures Admitted(w, calls, a, a + 1000 * MS) <= 60
  {
    IntervalBound(w, calls, a, 1000);
  }

  // ----- the bound is met -------------------------------------------------------

  function Burst(k: nat, at: nat, after: seq<nat>): seq<nat> {
    if k == 0 then after else [at] + Burst(k - 1, at, after)
  }

  lemma {:induction false} BurstAdmitted(w: Window, k: nat, at: nat, after: seq<nat>, a: nat, b: nat)
    requires w.start <= at && !Fresh(w, at) && w.count + k <= LIMIT && a <= at <= b && Ordered(at, after)
    ensures Ordered(at, Burst(k, at, after)) && Ordered(w.start, Burst(k, at, after)) && Ordered(w.start, after)
    ensures Admitted(w, Burst(k, at, after), a, b) == k + Admitted(Window(w.start, w.count + k), after, a, b)
    decreases k
  {
    OrderedFrom(at, w.start, after);
    if k > 0 {
      var calls := Burst(k, at, after);
      BurstAdmitted(Next(w, at), k - 1, at, after, a, b);
      assert calls[0] == at && calls[1..] == Burst(k - 1, at, after);
    }
  }

  /** Thirty calls at the end of the first window and thirty at the start of the next: sixty in one second. */
  lemma SixtyIsMet()
    ensures exists calls :: Ordered(0, calls) && Admitted(Window(0, 0), calls, 1000 * MS, 2000 * MS) == 60
  {
    var a, b, at := 1000 * MS, 2000 * MS, 1001 * MS;
    var second := Burst(29, at, []);
    BurstAdmitted(Window(at, 1), 29, at, [], a, b);
    var later := [at] + second;
    assert later[1..] == second && Ordered(at, later);
    BurstAdmitted(Window(0, 0), 30, a, later, a, b);
    assert Admitted(Window(0, 30), later, a, b) == 30;
    var calls := Burst(30, a, later);
    assert Admitted(Window(0, 0), calls, a, b) == 60;
  }

  // ----- the server -------------------------------------------------------------

  datatype Tool = Tool(name: string, data: string)

  datatype Response = NotInitialized | RateLimited | ToolNotFound | ToolResult(data: string)

  class MCPServer {
    var initialized: bool
    var rateWindowStart: nat
    var rateCount: nat
    var tools: seq<Tool>

    constructor ()
      ensures !initialized && Rate() == Window(0, 0) && tools == []
    {
      initialized, rateWindowStart, rateCount, tools := false, 0, 0, [];
    }

    function Rate(): Window
      reads this
    {
      Window(rateWindowStart, rateCount)
    }

    method CheckRateLimit(now: nat) returns (admitted: bool)
      requires rateWindowStart <= now && rateCount < 0x7FFF_FFFF
      modifies this`rateWindowStart, this`rateCount
      ensures admitted == old(Admits(Rate(), now)) && Rate() == old(Next(Rate(), now))
      ensures now - old(rateWindowStart) >= 1_001_000_000 ==> admitted && rateWindowStart == now && rateCount == 1
      ensures now - old(rateWindowStart) < 1_001_000_000 ==>
        (admitted <==> old(rateCount) < 30) && rateWindowStart == old(rateWindowStart) && rateCount == old(rateCount) + 1
    {
      var elapsed := (now - rateWindowStart) / MS;
      if elapsed > 1000 {
        rateWindowStart := now;
        rateCount := 0;
      }
      rateCount := rateCount + 1;
      return rateCount <= LIMIT;
    }

    /**
     Calls before initialization are refused without touching the limiter; a call the
     limiter admits is answered by the first tool of that name, and counts even if there
     is none.
     */
    method HandleToolsCall(now: nat, name: string) returns (response: Response)
      requires rateWindowStart <= now && rateCount < 0x7FFF_FFFF
      modifies this`rateWindowStart, this`rateCount
      ensures response == NotInitialized <==> !initialized
      ensures response == RateLimited <==> initialized && !old(Admits(Rate(), now))
      ensures Rate() == if initialized then old(Next(Rate(), now)) else old(Rate())
      ensures response == ToolNotFound ==> forall k | 0 <= k < |tools| :: tools[k].name != name
      ensures response.ToolResult? ==> exists k | 0 <= k < |tools| ::
        tools[k] == Tool(name, response.data) && forall j | 0 <= j < k :: tools[j].name != name
    {
      if !initialized {
        return NotInitialized;
      }
      var admitted := CheckRateLimit(now);
      if !admitted {
        return RateLimited;
      }
      for k := 0 to |tools|
        invariant forall j | 0 <= j < k :: tools[j].name != name
      {
        if tools[k].name == name {
          return ToolResult(tools[k].data);
        }
      }
      return ToolNotFound;
    }
  }
}
