/**
 * The deterministic clock of the tests: time moves only on request, and every live ticker's
 * boundaries lie on the grid that started when it was created.  Times are whole nanoseconds.
 */
module FakeClock {
  import opened Wrappers

  datatype Ticker = Ticker(buffer: Option<int>, interval: int, next: int, closed: bool, created: int)

  datatype Clock = Clock(now: int, tickers: seq<Ticker>)

  // ----- Advancing, in closed form -----

  // How many boundaries lie at or before `now`.
  function Crossed(next: int, interval: int, now: int): nat
    requires interval > 0
  {
    if now < next then 0 else (now - next) / interval + 1
  }

  // The channel holds one tick: the first boundary crossed fills it, the others are dropped.
  function AdvanceTicker(t: Ticker, now: int): Ticker
    requires t.interval > 0
  {
    var crossed := Crossed(t.next, t.interval, now);
    if t.closed || crossed == 0 then t
    else t.(next := t.next + crossed * t.interval, buffer := if t.buffer.Some? then t.buffer else Some(t.next))
  }

  function TicksInto(t: Ticker, now: int): nat
    requires t.interval > 0
  {
    if !t.closed && t.buffer.None? && t.next <= now then 1 else 0
  }

  predicate Wellformed(c: Clock) {
    forall i :: 0 <= i < |c.tickers| ==> c.tickers[i].interval > 0
  }

  function TicksUpTo(tickers: seq<Ticker>, now: int, k: nat): nat
    requires k <= |tickers| && forall i :: 0 <= i < |tickers| ==> tickers[i].interval > 0
  {
    if k == 0 then 0 else TicksUpTo(tickers, now, k - 1) + TicksInto(tickers[k - 1], now)
  }

  function AdvanceTickers(tickers: seq<Ticker>, now: int): (r: seq<Ticker>)
    requires forall i :: 0 <= i < |tickers| ==> tickers[i].interval > 0
    ensures |r| == |tickers|
    ensures forall i :: 0 <= i < |tickers| ==> r[i] == AdvanceTicker(tickers[i], now) && r[i].interval > 0
  {
    seq(|tickers|, i requires 0 <= i < |tickers| => AdvanceTicker(tickers[i], now))
  }

  function AdvanceClock(c: Clock, d: int): (Clock, nat)
    requires Wellformed(c)
  {
    (Clock(c.now + d, AdvanceTickers(c.tickers, c.now + d)), TicksUpTo(c.tickers, c.now + d, |c.tickers|))
  }

  // ----- Arithmetic of the grid -----

  lemma MultipleOrder(a: int, b: int, d: int)
    requires a <= b && d > 0
    ensures a * d <= b * d
  {
  }

  lemma WholeQuotientIs(x: int, d: int, q: int)
    requires d > 0 && q * d <= x < (q + 1) * d
    ensures x / d == q
  {
    var p := x / d;
    assert p * d <= x < (p + 1) * d;
    if p < q { MultipleOrder(p + 1, q, d); }
    if p > q { MultipleOrder(q + 1, p, d); }
  }

  // The number of boundaries crossed is the k whose boundary is the first one after `now`.
  lemma CrossedIs(next: int, interval: int, now: int, k: nat)
    requires interval > 0
    requires now < next + k * interval
    requires k > 0 ==> next + (k - 1) * interval <= now
    ensures Crossed(next, interval, now) == k
  {
    if k > 0 {
      assert k * interval == (k - 1) * interval + interval;
      assert (k - 1) * interval >= 0;
      WholeQuotientIs(now - next, interval, k - 1);
    }
  }

  lemma CrossedFits(next: int, interval: int, now: int)
    requires interval > 0
    ensures var k := Crossed(next, interval, now);
            now < next + k * interval && (k > 0 ==> next + (k - 1) * interval <= now)
  {
  }

  // ----- The objects -----

  class FakeTicker {
    var buffer: Option<int>
    const interval: int
    var next: int
    var closed: bool
    ghost const created: int

    constructor (interval: int, now: int)
      ensures Contents() == Ticker(None, interval, now + interval, interval <= 0, now)
    {
      this.interval, this.created := interval, now;
      buffer, next, closed := None, now + interval, interval <= 0;
    }

    ghost function Contents(): (c: Ticker)
      reads this
      ensures c.interval == interval
    {
      Ticker(buffer, interval, next, closed, created)
    }

    method Stop()
      modifies `closed
      ensures Contents() == old(Contents()).(closed := true)
    {
      closed := true;
    }

    method Receive() returns (tick: Option<int>)
      modifies `buffer
      ensures tick == old(buffer) && Contents() == old(Contents()).(buffer := None)
    {
      tick := buffer;
      buffer := None;
    }

    // The inner loop of Advance for one ticker.
    method Deliver(now: int) returns (delivered: nat)
      requires interval > 0 && !closed
      modifies `buffer, `next
      ensures Contents() == AdvanceTicker(old(Contents()), now)
      ensures delivered == TicksInto(old(Contents()), now)
    {
      delivered := 0;
      ghost var k := 0;
      while next <= now
        invariant next == old(next) + k * interval
        invariant k >= 0 && (k > 0 ==> old(next) + (k - 1) * interval <= now)
        invariant buffer == if k == 0 || old(buffer).Some? then old(buffer) else Some(old(next))
        invariant delivered == if k > 0 && old(buffer).None? then 1 else 0
        decreases now - next
      {
        if buffer.None? {
          buffer := Some(next);
          delivered := delivered + 1;
        }
        next := next + interval;
        k := k + 1;
      }
      CrossedIs(old(next), interval, now, k);
    }

    // Stopped tickers are passed over.
    method Serve(now: int) returns (delivered: nat)
      requires interval > 0
      modifies `buffer, `next
      ensures Contents() == AdvanceTicker(old(Contents()), now)
      ensures delivered == TicksInto(old(Contents()), now)
    {
      if closed {
        return 0;
      }
      delivered := Deliver(now);
    }
  }

  class FakeClock {
    var now: int
    var tickers: seq<FakeTicker>

    constructor (start: int)
      ensures Contents() == Clock(start, []) && Valid()
    {
      now, tickers := start, [];
    }

    ghost predicate Valid()
      reads this
    {
      && (forall i :: 0 <= i < |tickers| ==> tickers[i].interval > 0)
      && (forall i, j :: 0 <= i < j < |tickers| ==> tickers[i] != tickers[j])
    }

    ghost function Contents(): (c: Clock)
      reads this, tickers
      ensures |c.tickers| == |tickers|
      ensures forall i :: 0 <= i < |tickers| ==> c.tickers[i] == tickers[i].Contents()
    {
      Clock(now, seq(|tickers|, i requires 0 <= i < |tickers| reads this, tickers => tickers[i].Contents()))
    }

    // A non-positive interval gives a dead ticker that is never registered.
    method NewTicker(d: int) returns (t: FakeTicker)
      requires Valid()
      modifies `tickers
      ensures Valid() && fresh(t)
      ensures t.Contents() == Ticker(None, d, now + d, d <= 0, now)
      ensures tickers == if d <= 0 then old(tickers) else old(tickers) + [t]
    {
      t := new FakeTicker(d, now);
      if d > 0 {
        tickers := tickers + [t];
      }
    }

    method Advance(d: int) returns (delivered: nat)
      requires Valid()
      modifies `now, tickers
      ensures Valid() && tickers == old(tickers)
      ensures (Contents(), delivered) == AdvanceClock(old(Contents()), d)
    {
      hide AdvanceTicker, AdvanceTickers, TicksInto, FakeTicker.Contents;
      ghost var was := Contents();
      now := now + d;
      delivered := 0;
      for i := 0 to |tickers|
        invariant tickers == old(tickers) && now == was.now + d
        invariant forall j :: 0 <= j < |tickers| ==>
                    tickers[j].Contents() == if j < i then AdvanceTicker(was.tickers[j], now) else was.tickers[j]
        invariant delivered == TicksUpTo(was.tickers, now, i)
      {
        var n := tickers[i].Serve(now);
        delivered := delivered + n;
      }
      assert Contents().tickers == AdvanceTickers(was.tickers, was.now + d);
    }

    method Set(to: int) returns (delivered: nat)
      requires Valid()
      modifies `now, tickers
      ensures Valid() && tickers == old(tickers)
      ensures (Contents(), delivered)
           == if to <= old(now) then (old(Contents()), 0) else AdvanceClock(old(Contents()), to - old(now))
    {
      var d := to - now;
      if d <= 0 {
        return 0;
      }
      delivered := Advance(d);
    }
  }

  // ----- Runs -----

  datatype Op = NewTicker(d: int) | Advance(d: int) | Set(to: int) | Stop(i: nat) | Receive(i: nat)

  // `delivered` adds up what Advance and Set returned, `received` the ticks taken from channels.
  datatype World = World(clock: Clock, delivered: nat, received: nat)

  function Apply(w: World, op: Op): World
    requires Wellformed(w.clock)
  {
    var c := w.clock;
    match op
    case NewTicker(d) =>
      if d <= 0 then w else w.(clock := c.(tickers := c.tickers + [Ticker(None, d, c.now + d, false, c.now)]))
    case Advance(d) => var (n, ticks) := AdvanceClock(c, d); World(n, w.delivered + ticks, w.received)
    case Set(to) =>
      if to <= c.now then w
      else var (n, ticks) := AdvanceClock(c, to - c.now); World(n, w.delivered + ticks, w.received)
    case Stop(i) =>
      if i < |c.tickers| then w.(clock := c.(tickers := c.tickers[i := c.tickers[i].(closed := true)])) else w
    case Receive(i) =>
      if i < |c.tickers| && c.tickers[i].buffer.Some? then
        w.(clock := c.(tickers := c.tickers[i := c.tickers[i].(buffer := None)]), received := w.received + 1)
      else w
  }

  lemma ApplyWellformed(w: World, op: Op)
    requires Wellformed(w.clock)
    ensures Wellformed(Apply(w, op).clock)
  {
  }

  ghost predicate Forward(op: Op) {
    op.Advance? ==> op.d >= 0
  }

  ghost predicate OnGrid(t: Ticker, time: int) {
    t.interval > 0 && exists k: nat :: k > 0 && time == Boundary(t, k)
  }

  ghost function Boundary(t: Ticker, k: nat): int {
    t.created + k * t.interval
  }

  // The next boundary is the first grid point after now; a buffered tick is an earlier grid point.
  ghost predicate TickerInv(t: Ticker, now: int) {
    && t.interval > 0
    && OnGrid(t, t.next)
    && (!t.closed ==> now < t.next <= now + t.interval)
    && (t.buffer.Some? ==> t.buffer.value <= now && OnGrid(t, t.buffer.value))
  }

  ghost predicate GridInv(c: Clock) {
    forall i :: 0 <= i < |c.tickers| ==> c.tickers[i].interval > 0 && TickerInv(c.tickers[i], c.now)
  }

  lemma AdvanceTickerKeepsGrid(t: Ticker, now: int, later: int)
    requires t.interval > 0 && OnGrid(t, t.next) && now <= later
    requires !t.closed ==> now < t.next <= now + t.interval
    requires t.buffer.Some? ==> t.buffer.value <= now && OnGrid(t, t.buffer.value)
    ensures var u := AdvanceTicker(t, later);
            && u.interval == t.interval && u.created == t.created
            && OnGrid(u, u.next)
            && (!u.closed ==> later < u.next <= later + u.interval)
            && (u.buffer.Some? ==> u.buffer.value <= later && OnGrid(u, u.buffer.value))
  {
    var k, u := Crossed(t.next, t.interval, later), AdvanceTicker(t, later);
    CrossedFits(t.next, t.interval, later);
    var m: nat :| m > 0 && t.next == Boundary(t, m);
    assert (m + k) * t.interval == m * t.interval + k * t.interval;
    assert k * t.interval == (k - 1) * t.interval + t.interval;
    assert t.next == Boundary(u, m);
    assert u.next == Boundary(u, if u.next == t.next then m else m + k);
    if t.buffer.Some? {
      var b: nat :| b > 0 && t.buffer.value == Boundary(t, b);
      assert t.buffer.value == Boundary(u, b);
    }
  }

  lemma AdvanceKeepsGrid(c: Clock, d: int)
    requires GridInv(c) && d >= 0
    ensures Wellformed(c) && GridInv(AdvanceClock(c, d).0)
  {
    hide OnGrid, AdvanceTicker;
    var n := AdvanceClock(c, d).0;
    forall i | 0 <= i < |n.tickers|
      ensures n.tickers[i].interval > 0 && OnGrid(n.tickers[i], n.tickers[i].next)
      ensures !n.tickers[i].closed ==> n.now < n.tickers[i].next <= n.now + n.tickers[i].interval
      ensures n.tickers[i].buffer.Some? ==>
                n.tickers[i].buffer.value <= n.now && OnGrid(n.tickers[i], n.tickers[i].buffer.value)
    {
      AdvanceTickerKeepsGrid(c.tickers[i], c.now, c.now + d);
    }
  }

  lemma SameGrid(t: Ticker, u: Ticker, time: int)
    requires t.interval == u.interval && t.created == u.created && OnGrid(t, time)
    ensures OnGrid(u, time)
  {
    var k: nat :| k > 0 && time == Boundary(t, k);
    assert time == Boundary(u, k);
  }

  // Stopping a ticker or emptying its channel takes nothing from its grid.
  lemma SameGridInv(t: Ticker, u: Ticker, now: int)
    requires TickerInv(t, now) && t.interval == u.interval && t.created == u.created && t.next == u.next
    requires (t.closed ==> u.closed) && (u.buffer == t.buffer || u.buffer.None?)
    ensures TickerInv(u, now)
  {
    SameGrid(t, u, t.next);
    if u.buffer.Some? { SameGrid(t, u, u.buffer.value); }
  }

  lemma NewTickerInv(d: int, now: int)
    requires d > 0
    ensures TickerInv(Ticker(None, d, now + d, false, now), now)
  {
    assert now + d == Boundary(Ticker(None, d, now + d, false, now), 1);
  }

  lemma StepKeepsGrid(w: World, op: Op)
    requires GridInv(w.clock) && Forward(op)
    ensures Wellformed(w.clock) && GridInv(Apply(w, op).clock)
  {
    hide TickerInv, AdvanceTickers, TicksUpTo, OnGrid;
    var c := w.clock;
    match op {
      case NewTicker(d) => if d > 0 { NewTickerInv(d, c.now); }
      case Advance(d) => AdvanceKeepsGrid(c, d);
      case Set(to) => if to > c.now { AdvanceKeepsGrid(c, to - c.now); }
      case Stop(i) =>
        if i < |c.tickers| { SameGridInv(c.tickers[i], c.tickers[i].(closed := true), c.now); }
      case Receive(i) =>
        if i < |c.tickers| { SameGridInv(c.tickers[i], c.tickers[i].(buffer := None), c.now); }
    }
  }

  ghost function Run(start: int, ops: seq<Op>): (w: World)
    ensures Wellformed(w.clock)
  {
    if ops == [] then World(Clock(start, []), 0, 0)
    else
      var w := Run(start, ops[..|ops| - 1]);
      ApplyWellformed(w, ops[|ops| - 1]);
      Apply(w, ops[|ops| - 1])
  }

  // After any run of operations with non-negative advances, every live ticker's next boundary is
  // the first point of its own grid after now, and a buffered tick is a past point of that grid.
  lemma {:induction false} RunKeepsGrid(start: int, ops: seq<Op>)
    requires forall i :: 0 <= i < |ops| ==> Forward(ops[i])
    ensures GridInv(Run(start, ops).clock)
  {
    if ops != [] {
      RunKeepsGrid(start, ops[..|ops| - 1]);
      StepKeepsGrid(Run(start, ops[..|ops| - 1]), ops[|ops| - 1]);
    }
  }

  // ----- What a consumer sees -----

  // A ticker, then n times its interval and a receive.
  function Rhythm(d: int, n: nat): seq<Op> {
    if n == 0 then [NewTicker(d)] else Rhythm(d, n - 1) + [Advance(d)] + [Receive(0)]
  }

  lemma OneBeat(t: Ticker, now: int, delivered: nat, received: nat)
    requires t.interval > 0 && t.next == now + t.interval && !t.closed && t.buffer.None?
    ensures var w := World(Clock(now, [t]), delivered, received);
            Apply(Apply(w, Advance(t.interval)), Receive(0))
              == World(Clock(now + t.interval, [t.(next := t.next + t.interval)]), delivered + 1, received + 1)
  {
    CrossedIs(t.next, t.interval, now + t.interval, 1);
    assert TicksUpTo([t], now + t.interval, 1) == TicksUpTo([t], now + t.interval, 0) + 1;
  }

  // A consumer that keeps up receives exactly one tick per interval.
  lemma {:induction false} EveryIntervalTicks(start: int, d: int, n: nat)
    requires d > 0
    ensures Run(start, Rhythm(d, n))
         == World(Clock(start + n * d, [Ticker(None, d, start + n * d + d, false, start)]), n, n)
  {
    hide Apply;
    if n == 0 {
      FirstTicker(start, d);
    } else {
      EveryIntervalTicks(start, d, n - 1);
      RunSnoc(start, Rhythm(d, n - 1), Advance(d));
      RunSnoc(start, Rhythm(d, n - 1) + [Advance(d)], Receive(0));
      OneBeat(Ticker(None, d, start + (n - 1) * d + d, false, start), start + (n - 1) * d, n - 1, n - 1);
    }
  }

  lemma FirstTicker(start: int, d: int)
    requires d > 0
    ensures Run(start, [NewTicker(d)]) == World(Clock(start, [Ticker(None, d, start + d, false, start)]), 0, 0)
  {
    RunSnoc(start, [], NewTicker(d));
    assert [] + [NewTicker(d)] == [NewTicker(d)];
  }

  // A new ticker's channel holds its first tick as soon as its interval has passed, however far the
  // clock has gone, and nothing before.
  lemma FirstTick(w: World, d: int, e: int)
    requires Wellformed(w.clock) && d > 0
    ensures var with := Apply(w, NewTicker(d));
            && Wellformed(with.clock)
            && var tickers := Apply(with, Advance(e)).clock.tickers;
               && |tickers| == |w.clock.tickers| + 1
               && tickers[|w.clock.tickers|].buffer == if e >= d then Some(w.clock.now + d) else None
  {
    CrossedFits(w.clock.now + d, d, w.clock.now + e);
  }

  // Setting a later time is advancing by the difference, and setting any other does nothing.
  lemma SetIsAdvance(w: World, to: int)
    requires Wellformed(w.clock)
    ensures Apply(w, Set(to)) == if to > w.clock.now then Apply(w, Advance(to - w.clock.now)) else w
    ensures to >= w.clock.now ==> Apply(w, Set(to)).clock.now == to
  {
  }

  // Once stopped, a ticker gets no more ticks and moves no more: only a receive can empty its channel.
  lemma {:induction false} StopSilences(start: int, ops: seq<Op>, more: seq<Op>, i: nat)
    requires i < |Run(start, ops).clock.tickers| && Receive(i) !in more
    ensures i < |Run(start, ops + [Stop(i)] + more).clock.tickers|
    ensures Run(start, ops + [Stop(i)] + more).clock.tickers[i]
              == Run(start, ops).clock.tickers[i].(closed := true)
  {
    if more == [] {
      assert ops + [Stop(i)] + more == ops + [Stop(i)];
      RunSnoc(start, ops, Stop(i));
    } else {
      var front, op := more[..|more| - 1], more[|more| - 1];
      assert ops + [Stop(i)] + more == ops + [Stop(i)] + front + [op];
      assert op in more;
      StopSilences(start, ops, front, i);
      RunSnoc(start, ops + [Stop(i)] + front, op);
      SilentStep(Run(start, ops + [Stop(i)] + front), op, i);
    }
  }

  lemma SilentStep(w: World, op: Op, i: nat)
    requires Wellformed(w.clock) && i < |w.clock.tickers| && w.clock.tickers[i].closed && op != Receive(i)
    ensures i < |Apply(w, op).clock.tickers| && Apply(w, op).clock.tickers[i] == w.clock.tickers[i]
  {
    hide Crossed;
  }

  // ----- Moving back -----

  // Nothing a ticker has delivered or passed lies after `time`: for a live one its last boundary,
  // for a stopped one the tick that may still wait in its channel.
  ghost predicate NothingAfter(t: Ticker, time: int) {
    if t.closed then t.buffer.Some? ==> t.buffer.value <= time
    else t.next - t.interval <= time
  }

  // A live ticker's buffered tick is no later than its last boundary.
  lemma BufferedBeforeLast(t: Ticker, now: int)
    requires OnGrid(t, t.next) && now < t.next
    requires t.buffer.Some? && t.buffer.value <= now && OnGrid(t, t.buffer.value)
    ensures t.buffer.value <= t.next - t.interval
  {
    var k: nat :| k > 0 && t.next == Boundary(t, k);
    var b: nat :| b > 0 && t.buffer.value == Boundary(t, b);
    assert b >= k ==> b * t.interval >= k * t.interval;
    assert b <= k - 1 ==> b * t.interval <= (k - 1) * t.interval;
  }

  lemma BackIsIdentity(t: Ticker, now: int, d: int)
    requires t.interval > 0 && (!t.closed ==> now < t.next) && d < 0
    ensures AdvanceTicker(t, now + d) == t
  {
  }

  // A negative Advance is accepted and moves time back.  The grid survives it exactly when no
  // ticker had passed a boundary, and no stopped one had buffered a tick, after the new time.
  lemma NegativeAdvance(c: Clock, d: int)
    requires GridInv(c) && d < 0
    ensures Wellformed(c)
    ensures GridInv(AdvanceClock(c, d).0) <==>
              forall i :: 0 <= i < |c.tickers| ==> NothingAfter(c.tickers[i], c.now + d)
  {
    hide OnGrid, AdvanceTicker;
    var n := AdvanceClock(c, d).0;
    forall i | 0 <= i < |c.tickers|
      ensures n.tickers[i] == c.tickers[i]
      ensures !c.tickers[i].closed && c.tickers[i].buffer.Some? ==>
                c.tickers[i].buffer.value <= c.tickers[i].next - c.tickers[i].interval
    {
      BackIsIdentity(c.tickers[i], c.now, d);
      if !c.tickers[i].closed && c.tickers[i].buffer.Some? {
        BufferedBeforeLast(c.tickers[i], c.now);
      }
    }
  }

  // An operation that does not step back past what a ticker has already passed.
  ghost predicate StepsBackSafely(c: Clock, op: Op) {
    op.Advance? && op.d < 0 ==> forall i :: 0 <= i < |c.tickers| ==> NothingAfter(c.tickers[i], c.now + op.d)
  }

  // In any run, the grid holds at every moment if and only if every operation was harmless.
  lemma {:induction false} GridHoldsThroughout(start: int, ops: seq<Op>)
    ensures (forall k :: 0 <= k <= |ops| ==> GridInv(Run(start, ops[..k]).clock)) <==>
              forall k :: 0 <= k < |ops| ==> StepsBackSafely(Run(start, ops[..k]).clock, ops[k])
  {
    hide GridInv, StepsBackSafely, Run;
    if ops == [] {
      RunKeepsGrid(start, ops[..0]);
    } else {
      var n := |ops| - 1;
      var before := ops[..n];
      GridHoldsThroughout(start, before);
      assert forall k :: 0 <= k <= n ==> before[..k] == ops[..k];
      assert forall k :: 0 <= k < n ==> before[k] == ops[k];
      assert ops[..n + 1] == ops;
      if GridInv(Run(start, before).clock) {
        LastStepGrid(start, ops);
      }
    }
  }

  lemma LastStepGrid(start: int, ops: seq<Op>)
    requires ops != [] && GridInv(Run(start, ops[..|ops| - 1]).clock)
    ensures GridInv(Run(start, ops).clock) <==> StepsBackSafely(Run(start, ops[..|ops| - 1]).clock, ops[|ops| - 1])
  {
    hide Run, GridInv, StepsBackSafely, Apply;
    assert ops == ops[..|ops| - 1] + [ops[|ops| - 1]];
    RunSnoc(start, ops[..|ops| - 1], ops[|ops| - 1]);
    StepGrid(Run(start, ops[..|ops| - 1]), ops[|ops| - 1]);
  }

  lemma StepGrid(w: World, op: Op)
    requires GridInv(w.clock)
    ensures Wellformed(w.clock) && (GridInv(Apply(w, op).clock) <==> StepsBackSafely(w.clock, op))
  {
    hide GridInv, NothingAfter, AdvanceTickers, TicksUpTo;
    if Forward(op) {
      StepKeepsGrid(w, op);
    } else {
      NegativeAdvance(w.clock, op.d);
    }
  }

  // Two runs that break it: a boundary more than one interval ahead, and a stopped ticker whose
  // waiting tick lies in the future.
  lemma SteppingBackBreaksGrid()
    ensures !GridInv(Run(0, [NewTicker(10), Advance(-1)]).clock)
    ensures !GridInv(Run(0, [NewTicker(10), Advance(10), Stop(0), Advance(-1)]).clock)
  {
    hide Run, GridInv, Apply;
    RunRegistered();
    RunSnoc(0, [NewTicker(10)], Advance(-1));
    assert [NewTicker(10)] + [Advance(-1)] == [NewTicker(10), Advance(-1)];
    AdvanceOne(Run(0, [NewTicker(10)]), Ticker(None, 10, 10, false, 0), -1);
    TooFarAhead(Run(0, [NewTicker(10), Advance(-1)]).clock);
    RunStopped();
    RunSnoc(0, [NewTicker(10), Advance(10), Stop(0)], Advance(-1));
    assert [NewTicker(10), Advance(10), Stop(0)] + [Advance(-1)] == [NewTicker(10), Advance(10), Stop(0), Advance(-1)];
    AdvanceOne(Run(0, [NewTicker(10), Advance(10), Stop(0)]), Ticker(Some(10), 10, 20, true, 0), -1);
    TickAhead(Run(0, [NewTicker(10), Advance(10), Stop(0), Advance(-1)]).clock);
  }

  lemma RunRegistered()
    ensures Run(0, [NewTicker(10)]).clock == Clock(0, [Ticker(None, 10, 10, false, 0)])
  {
    hide Run;
    RunStart(0);
    RunSnoc(0, [], NewTicker(10));
    assert [] + [NewTicker(10)] == [NewTicker(10)];
  }

  lemma RunStopped()
    ensures Run(0, [NewTicker(10), Advance(10), Stop(0)]).clock == Clock(10, [Ticker(Some(10), 10, 20, true, 0)])
  {
    hide Run;
    RunRegistered();
    RunSnoc(0, [NewTicker(10)], Advance(10));
    assert [NewTicker(10)] + [Advance(10)] == [NewTicker(10), Advance(10)];
    AdvanceOne(Run(0, [NewTicker(10)]), Ticker(None, 10, 10, false, 0), 10);
    RunSnoc(0, [NewTicker(10), Advance(10)], Stop(0));
    assert [NewTicker(10), Advance(10)] + [Stop(0)] == [NewTicker(10), Advance(10), Stop(0)];
  }

  lemma AdvanceOne(w: World, t: Ticker, d: int)
    requires t.interval > 0 && w.clock.tickers == [t]
    ensures Wellformed(w.clock)
    ensures Apply(w, Advance(d)).clock == Clock(w.clock.now + d, [AdvanceTicker(t, w.clock.now + d)])
  {
    assert AdvanceTickers([t], w.clock.now + d) == [AdvanceTicker(t, w.clock.now + d)];
  }

  lemma RunStart(start: int)
    ensures Run(start, []) == World(Clock(start, []), 0, 0)
  {
  }

  lemma RunSnoc(start: int, ops: seq<Op>, op: Op)
    ensures Run(start, ops + [op]) == Apply(Run(start, ops), op)
  {
    assert (ops + [op])[..|ops|] == ops;
  }

  lemma TooFarAhead(c: Clock)
    requires |c.tickers| > 0 && !c.tickers[0].closed && c.tickers[0].next > c.now + c.tickers[0].interval
    ensures !GridInv(c)
  {
  }

  lemma TickAhead(c: Clock)
    requires |c.tickers| > 0 && c.tickers[0].buffer.Some? && c.tickers[0].buffer.value > c.now
    ensures !GridInv(c)
  {
  }

  // ----- No tick is lost or made up -----

  function Buffered(tickers: seq<Ticker>): nat {
    if tickers == [] then 0
    else Buffered(tickers[..|tickers| - 1]) + if tickers[|tickers| - 1].buffer.Some? then 1 else 0
  }

  lemma {:induction false} AdvanceFills(tickers: seq<Ticker>, now: int, k: nat)
    requires k <= |tickers| && forall i :: 0 <= i < |tickers| ==> tickers[i].interval > 0
    ensures Buffered(AdvanceTickers(tickers, now)[..k]) == Buffered(tickers[..k]) + TicksUpTo(tickers, now, k)
  {
    if k > 0 {
      AdvanceFills(tickers, now, k - 1);
      assert tickers[..k][..k - 1] == tickers[..k - 1];
      assert AdvanceTickers(tickers, now)[..k][..k - 1] == AdvanceTickers(tickers, now)[..k - 1];
    }
  }

  lemma {:induction false} BufferedUpdate(tickers: seq<Ticker>, i: nat, t: Ticker)
    requires i < |tickers|
    ensures Buffered(tickers[i := t]) + (if tickers[i].buffer.Some? then 1 else 0)
         == Buffered(tickers) + (if t.buffer.Some? then 1 else 0)
  {
    var n := |tickers| - 1;
    if i < n {
      BufferedUpdate(tickers[..n], i, t);
      assert tickers[i := t][..n] == tickers[..n][i := t];
    } else {
      assert tickers[i := t][..n] == tickers[..n];
    }
  }

  // Over any run whatever: ticks delivered = ticks received + ticks still buffered.
  lemma {:induction false} TicksConserved(start: int, ops: seq<Op>)
    ensures var w := Run(start, ops); w.delivered == w.received + Buffered(w.clock.tickers)
  {
    if ops != [] {
      TicksConserved(start, ops[..|ops| - 1]);
      StepConserves(Run(start, ops[..|ops| - 1]), ops[|ops| - 1]);
    }
  }

  lemma StepConserves(w: World, op: Op)
    requires Wellformed(w.clock) && w.delivered == w.received + Buffered(w.clock.tickers)
    ensures var n := Apply(w, op); n.delivered == n.received + Buffered(n.clock.tickers)
  {
    hide AdvanceTicker, AdvanceTickers, TicksUpTo;
    var ts, now := w.clock.tickers, w.clock.now;
    match op {
      case NewTicker(d) => assert (ts + [Ticker(None, d, now + d, false, now)])[..|ts|] == ts;
      case Advance(d) => AllFilled(ts, now + d);
      case Set(to) => AllFilled(ts, to);
      case Stop(i) => if i < |ts| { BufferedUpdate(ts, i, ts[i].(closed := true)); }
      case Receive(i) => if i < |ts| { BufferedUpdate(ts, i, ts[i].(buffer := None)); }
    }
  }

  lemma AllFilled(tickers: seq<Ticker>, now: int)
    requires forall i :: 0 <= i < |tickers| ==> tickers[i].interval > 0
    ensures Buffered(AdvanceTickers(tickers, now)) == Buffered(tickers) + TicksUpTo(tickers, now, |tickers|)
  {
    AdvanceFills(tickers, now, |tickers|);
    assert tickers[..|tickers|] == tickers;
    assert AdvanceTickers(tickers, now)[..|tickers|] == AdvanceTickers(tickers, now);
  }

  // ----- Two advances make one -----

  lemma CrossedTwice(next: int, interval: int, mid: int, end: int)
    requires interval > 0 && mid <= end
    ensures var k := Crossed(next, interval, mid);
            Crossed(next, interval, end) == k + Crossed(next + k * interval, interval, end)
  {
    var k := Crossed(next, interval, mid);
    var m := Crossed(next + k * interval, interval, end);
    CrossedFits(next, interval, mid);
    CrossedFits(next + k * interval, interval, end);
    assert (k + m) * interval == k * interval + m * interval;
    assert (k + m - 1) * interval == k * interval + (m - 1) * interval;
    CrossedIs(next, interval, end, k + m);
  }

  lemma TickerAdvancesCompose(t: Ticker, mid: int, end: int)
    requires t.interval > 0 && mid <= end
    ensures AdvanceTicker(AdvanceTicker(t, mid), end) == AdvanceTicker(t, end)
    ensures TicksInto(t, mid) + TicksInto(AdvanceTicker(t, mid), end) == TicksInto(t, end)
  {
    var k := Crossed(t.next, t.interval, mid);
    var m := Crossed(t.next + k * t.interval, t.interval, end);
    CrossedTwice(t.next, t.interval, mid, end);
    CrossedFits(t.next, t.interval, mid);
    CrossedFits(t.next, t.interval, end);
    assert (k + m) * t.interval == k * t.interval + m * t.interval;
  }

  lemma {:induction false} TicksCompose(tickers: seq<Ticker>, mid: int, end: int, k: nat)
    requires k <= |tickers| && mid <= end
    requires forall i :: 0 <= i < |tickers| ==> tickers[i].interval > 0
    ensures TicksUpTo(tickers, mid, k) + TicksUpTo(AdvanceTickers(tickers, mid), end, k) == TicksUpTo(tickers, end, k)
  {
    if k > 0 {
      TicksCompose(tickers, mid, end, k - 1);
      TickerAdvancesCompose(tickers[k - 1], mid, end);
    }
  }

  // With nothing received in between, Advance(a) then Advance(b) is Advance(a + b): the same time,
  // boundaries and buffered ticks, and the same number of ticks in total.
  lemma AdvancesCompose(c: Clock, a: nat, b: nat)
    requires Wellformed(c)
    ensures var (mid, first) := AdvanceClock(c, a);
            var (end, second) := AdvanceClock(mid, b);
            (end, first + second) == AdvanceClock(c, a + b)
  {
    hide AdvanceTicker, TicksInto;
    var mid := AdvanceClock(c, a).0;
    TicksCompose(c.tickers, c.now + a, c.now + a + b, |c.tickers|);
    forall i | 0 <= i < |c.tickers|
      ensures AdvanceTicker(mid.tickers[i], mid.now + b) == AdvanceTicker(c.tickers[i], c.now + (a + b))
    {
      TickerAdvancesCompose(c.tickers[i], c.now + a, c.now + a + b);
    }
    assert AdvanceTickers(mid.tickers, mid.now + b) == AdvanceTickers(c.tickers, c.now + (a + b));
  }
}
