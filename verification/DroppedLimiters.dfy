/**
 * Limiters that a cleanup has dropped while a thread still holds them.  What they admit is all that
 * an interleaved run can have beyond the bound of a sequential one, and at a positive rate and burst
 * some run does go beyond it.
 */
module DroppedLimiters {
  import opened Wrappers
  import opened RateLimit
  import opened InterleavedAdmission
  import Limiters = LimiterMap

  // ----- The excess over the sequential bound -----

  // The step is an admission of the key by a limiter from before the last cleanup.
  predicate IsStale(l: Limits, s: State, step: Step, key: string)
    requires Enabled(s, step)
  {
    match step
    case MapStep(_, _) => false
    case AllowAt(t, time) =>
      var d := Limiters.PcOf(s.limiters, t).d;
      d.key == key && d.epoch != s.limiters.epoch && Take(l, BucketOf(l, s, d.id), time).1
  }

  function Stale(l: Limits, s: State, steps: seq<Step>, key: string): nat
    requires IsRun(l, s, steps)
    decreases |steps|
  {
    if steps == [] then 0
    else (if IsStale(l, s, steps[0], key) then 1 else 0) + Stale(l, Apply(l, s, steps[0]), steps[1..], key)
  }

  // What a sequential run would know of the key: the bucket of the limiter now in the map.
  function Mapped(l: Limits, s: State, key: string): Buckets {
    if key in s.limiters.limiters then map[key := BucketOf(l, s, s.limiters.limiters[key])] else map[]
  }

  // All admissions of the key but `stale` of them are covered by one fill per epoch and one refill.
  ghost predicate MappedBudget(l: Limits, s: State, key: string, stale: nat, start: real) {
    && stale <= Count(s.served, key)
    && WithinBudget(l, Mapped(l, s, key), key, Count(s.served, key) - stale, s.limiters.epoch, start, s.now)
  }

  // A step of the map leaves the key's limiter alone, inserts a new one, or drops it.
  lemma LimiterAfterMapStep(s: Limiters.State, t: nat, a: Limiters.Action, key: string)
    requires Limiters.Inv(s) && Limiters.Enabled(s, t, a)
    ensures var n := Limiters.Apply(s, t, a);
            || (n.epoch == s.epoch && (key in n.limiters <==> key in s.limiters)
                && (key in s.limiters ==> n.limiters[key] == s.limiters[key]))
            || (n.epoch == s.epoch && key !in s.limiters && key in n.limiters && n.limiters[key] !in s.born)
            || (n.epoch == s.epoch + 1 && key !in n.limiters)
  {
    assert Limiters.PcInv(s, Limiters.PcOf(s, t));
    hide Limiters.LockInv, Limiters.MapInv;
  }

  lemma MappedByMapStep(l: Limits, s: State, t: nat, a: Limiters.Action, key: string, start: real)
    requires Limiters.Inv(s.limiters) && BucketsInv(l, s, start) && Enabled(s, MapStep(t, a))
    ensures var n := Apply(l, s, MapStep(t, a));
            || (n.limiters.epoch == s.limiters.epoch && Mapped(l, n, key) == Mapped(l, s, key))
            || (n.limiters.epoch == s.limiters.epoch && Mapped(l, s, key) == map[]
                && Mapped(l, n, key) == map[key := Fresh(l)])
            || (n.limiters.epoch == s.limiters.epoch + 1 && Mapped(l, n, key) == map[])
  {
    hide Limiters.Inv, Limiters.Apply, Limiters.Enabled, Budget, Fresh;
    LimiterAfterMapStep(s.limiters, t, a, key);
  }

  lemma FreshWithinBudget(l: Limits, key: string, admitted: nat, cleanups: nat, start: real, now: real)
    requires WithinBudget(l, map[], key, admitted, cleanups, start, now)
    ensures WithinBudget(l, map[key := Fresh(l)], key, admitted, cleanups, start, now)
  {
    FillsAddUp(l, cleanups, now - start);
  }

  lemma MapStepKeepsBudget(l: Limits, s: State, t: nat, a: Limiters.Action, key: string, stale: nat, start: real)
    requires l.rate >= 0.0 && Inv(l, s, start) && Enabled(s, MapStep(t, a))
    requires MappedBudget(l, s, key, stale, start)
    ensures MappedBudget(l, Apply(l, s, MapStep(t, a)), key, stale, start)
  {
    hide Limiters.Inv, Limiters.Apply, Limiters.Enabled, BucketsInv, Mapped, WithinBudget, Fresh;
    MappedByMapStep(l, s, t, a, key, start);
    var timely, epoch := Count(s.served, key) - stale, s.limiters.epoch;
    ResetWithinBudget(l, Mapped(l, s, key), key, timely, epoch, start, s.now);
    if Mapped(l, s, key) == map[] {
      FreshWithinBudget(l, key, timely, epoch, start, s.now);
    }
  }

  lemma AskMapped(l: Limits, key: string, b: Bucket, now: real)
    ensures Ask(l, map[key := b], key, now) == (map[key := Take(l, b, now).0], Take(l, b, now).1)
  {
    hide Refilled;
    assert forall x: Bucket :: map[key := b][key := x] == map[key := x];
  }

  lemma TakeWithinBudget(l: Limits, key: string, b: Bucket, admitted: nat, cleanups: nat, start: real, now: real)
    requires l.rate >= 0.0 && WithinBudget(l, map[key := b], key, admitted, cleanups, start, now)
    ensures var (after, ok) := Take(l, b, now);
            WithinBudget(l, map[key := after], key, admitted + (if ok then 1 else 0), cleanups, start, now)
  {
    AskWithinBudget(l, map[key := b], key, admitted, cleanups, start, now);
    AskMapped(l, key, b, now);
    hide WithinBudget, Ask, Take;
  }

  // A returned limiter is the one in the map for its key exactly if no cleanup has come since.
  lemma ReturnedIsMapped(s: Limiters.State, t: nat, key: string)
    requires Limiters.Inv(s) && Limiters.PcOf(s, t).Returned?
    ensures var d := Limiters.PcOf(s, t).d;
            key in s.limiters && s.limiters[key] == d.id <==> key == d.key && d.epoch == s.epoch
  {
    ReturnedIsBorn(s, t);
    hide Limiters.LockInv, Limiters.PcInv;
  }

  // An admission changes the bucket in the map exactly if it is not stale and of the same key.
  lemma MappedByAllow(l: Limits, s: State, t: nat, time: real, key: string)
    requires Limiters.Inv(s.limiters) && Enabled(s, AllowAt(t, time))
    ensures var d, n := Limiters.PcOf(s.limiters, t).d, Apply(l, s, AllowAt(t, time));
            var (b, ok) := Take(l, BucketOf(l, s, d.id), time);
            && n.limiters.epoch == s.limiters.epoch && n.now == time
            && Count(n.served, key) == Count(s.served, key) + (if d.key == key && ok then 1 else 0)
            && if d.key == key && d.epoch == s.limiters.epoch
               then Mapped(l, s, key) == map[key := BucketOf(l, s, d.id)] && Mapped(l, n, key) == map[key := b]
               else Mapped(l, n, key) == Mapped(l, s, key)
  {
    hide Take, Limiters.Apply, Limiters.Inv, Fresh;
    ReturnedIsBorn(s.limiters, t);
    ReturnedIsMapped(s.limiters, t, key);
  }

  lemma AllowKeepsBudget(l: Limits, s: State, t: nat, time: real, key: string, stale: nat, start: real)
    requires l.rate >= 0.0 && Limiters.Inv(s.limiters) && Enabled(s, AllowAt(t, time))
    requires MappedBudget(l, s, key, stale, start)
    ensures MappedBudget(l, Apply(l, s, AllowAt(t, time)), key,
                         stale + (if IsStale(l, s, AllowAt(t, time), key) then 1 else 0), start)
  {
    hide Limiters.Inv, Apply, Mapped, WithinBudget, Take;
    MappedByAllow(l, s, t, time, key);
    var d := Limiters.PcOf(s.limiters, t).d;
    var timely, epoch := Count(s.served, key) - stale, s.limiters.epoch;
    TimePasses(l, Mapped(l, s, key), key, timely, epoch, start, s.now, time);
    if d.key == key && d.epoch == epoch {
      TakeWithinBudget(l, key, BucketOf(l, s, d.id), timely, epoch, start, time);
    }
  }

  lemma StepKeepsBudget(l: Limits, s: State, step: Step, key: string, stale: nat, start: real)
    requires l.rate >= 0.0 && Inv(l, s, start) && Enabled(s, step)
    requires MappedBudget(l, s, key, stale, start)
    ensures MappedBudget(l, Apply(l, s, step), key, stale + (if IsStale(l, s, step, key) then 1 else 0), start)
  {
    hide Apply, MappedBudget, BucketsInv, GroupsInv, ServedInv;
    match step
    case MapStep(t, a) => MapStepKeepsBudget(l, s, t, a, key, stale, start);
    case AllowAt(t, time) => AllowKeepsBudget(l, s, t, time, key, stale, start);
  }

  lemma {:induction false} RunKeepsBudget(
    l: Limits, s: State, steps: seq<Step>, key: string, stale: nat, start: real)
    requires l.rate >= 0.0 && Inv(l, s, start) && IsRun(l, s, steps)
    requires MappedBudget(l, s, key, stale, start)
    ensures MappedBudget(l, Reached(l, s, steps), key, stale + Stale(l, s, steps, key), start)
    decreases |steps|
  {
    hide Apply, Enabled, Inv, MappedBudget, IsStale;
    if steps != [] {
      StepKeepsInv(l, s, steps[0], start);
      StepKeepsBudget(l, s, steps[0], key, stale, start);
      var more := if IsStale(l, s, steps[0], key) then 1 else 0;
      RunKeepsBudget(l, Apply(l, s, steps[0]), steps[1..], key, stale + more, start);
    }
  }

  lemma BudgetAtInit(l: Limits, s: State, key: string)
    requires Init(s)
    ensures MappedBudget(l, s, key, 0, s.now)
  {
    EmptyBudget(l, key, s.now);
  }

  // In every interleaving with k cleanups, one key is admitted at most (k + 1) * burst + rate * elapsed
  // times, as in a sequential run, by limiters that are in the map when asked; only the admissions of
  // dropped limiters come on top.
  lemma ExcessIsStale(l: Limits, s: State, steps: seq<Step>, key: string)
    requires l.rate >= 0.0 && Init(s) && IsRun(l, s, steps)
    ensures var n := Reached(l, s, steps);
            && s.now <= n.now
            && Stale(l, s, steps, key) <= Count(n.served, key)
            && Count(n.served, key) as real
                 <= Allowance(l, n.limiters.epoch + 1, n.now - s.now) + Stale(l, s, steps, key) as real
  {
    hide WithinBudget, Allowance, Mapped, Stale, Reached, IsRun, BucketsInv, GroupsInv, ServedInv;
    InitInv(l, s);
    RunKeepsInv(l, s, steps, s.now);
    BudgetAtInit(l, s, key);
    RunKeepsBudget(l, s, steps, key, 0, s.now);
    var n := Reached(l, s, steps);
    BudgetBounds(l, Mapped(l, n, key), key, Count(n.served, key) - Stale(l, s, steps, key),
                 n.limiters.epoch, s.now, n.now);
  }

  // ----- When the sequential bound holds -----

  ghost predicate Reaches(l: Limits, start: State, s: State) {
    exists steps :: IsRun(l, start, steps) && Reached(l, start, steps) == s
  }

  lemma {:induction false} RunAppend(l: Limits, s: State, steps: seq<Step>, step: Step)
    requires IsRun(l, s, steps) && Enabled(Reached(l, s, steps), step)
    ensures IsRun(l, s, steps + [step])
    ensures Reached(l, s, steps + [step]) == Apply(l, Reached(l, s, steps), step)
    decreases |steps|
  {
    hide Apply, Enabled;
    if steps == [] {
      assert steps + [step] == [step];
    } else {
      RunAppend(l, Apply(l, s, steps[0]), steps[1..], step);
      assert (steps + [step])[1..] == steps[1..] + [step];
    }
  }

  lemma StaysReached(l: Limits, start: State, s: State, step: Step)
    requires Reaches(l, start, s) && Enabled(s, step)
    ensures Reaches(l, start, Apply(l, s, step))
  {
    hide Apply, Enabled, IsRun, Reached;
    var steps :| IsRun(l, start, steps) && Reached(l, start, steps) == s;
    RunAppend(l, start, steps, step);
    assert IsRun(l, start, steps + [step]);
  }

  // At a zero rate or burst no limiter gains a token, so it does not matter how long one lives.
  ghost predicate NeverRefills(l: Limits) {
    l.rate == 0.0 || l.burst == 0
  }

  // The bound of a sequential run holds for every key at every moment of every interleaving.
  ghost predicate SequentialBound(l: Limits) {
    forall s, n, key :: Init(s) && Reaches(l, s, n) ==>
      Count(n.served, key) as real <= Allowance(l, n.limiters.epoch + 1, n.now - s.now)
  }

  lemma AtZeroRate(l: Limits, fills: nat, elapsed: real)
    requires l.rate == 0.0
    ensures Times(fills, Allowance(l, 1, elapsed)) == Allowance(l, fills, elapsed)
  {
  }

  lemma {:induction false} AtZeroBurst(l: Limits, s: State, steps: seq<Step>)
    requires l.burst == 0 && IsRun(l, s, steps)
    ensures Reached(l, s, steps).served == s.served
    decreases |steps|
  {
    if steps != [] {
      AtZeroBurst(l, Apply(l, s, steps[0]), steps[1..]);
    }
  }

  lemma WithoutRefills(l: Limits, s: State, steps: seq<Step>, key: string)
    requires l.rate >= 0.0 && NeverRefills(l) && Init(s) && IsRun(l, s, steps)
    ensures var n := Reached(l, s, steps);
            Count(n.served, key) as real <= Allowance(l, n.limiters.epoch + 1, n.now - s.now)
  {
    hide Reached, IsRun, Times, Allowance;
    InterleavedBound(l, s, steps, key);
    var n := Reached(l, s, steps);
    if l.rate == 0.0 {
      AtZeroRate(l, n.limiters.epoch + 1, n.now - s.now);
    } else {
      AtZeroBurst(l, s, steps);
      FillsNonNegative(l, n.limiters.epoch + 1, n.now - s.now);
    }
  }

  lemma FillsNonNegative(l: Limits, fills: nat, elapsed: real)
    requires l.rate >= 0.0 && elapsed >= 0.0
    ensures Allowance(l, fills, elapsed) >= 0.0
  {
    assert l.rate * elapsed >= 0.0;
    assert fills * l.burst >= 0;
  }

  // ----- A run beyond the sequential bound -----

  predicate Free(s: Limiters.State) {
    s.readers == {} && s.writer.None?
  }

  ghost predicate OthersKept(s: Limiters.State, n: Limiters.State, t: nat) {
    forall u: nat :: u != t ==> Limiters.PcOf(n, u) == Limiters.PcOf(s, u)
  }

  lemma Do(l: Limits, start: State, s: State, t: nat, a: Limiters.Action) returns (n: State)
    requires Reaches(l, start, s) && Limiters.Enabled(s.limiters, t, a) && !a.Return?
    ensures Reaches(l, start, n) && n == s.(limiters := Limiters.Apply(s.limiters, t, a))
  {
    hide Reaches, Limiters.Enabled, Limiters.Apply;
    StaysReached(l, start, s, MapStep(t, a));
    n := Apply(l, s, MapStep(t, a));
  }

  // The lookup under the read lock: the limiter of a known key, or a miss.
  lemma LookUp(l: Limits, start: State, s: State, t: nat, key: string) returns (n: State)
    requires Reaches(l, start, s) && Free(s.limiters) && Limiters.PcOf(s.limiters, t).Idle?
    ensures Reaches(l, start, n) && n == s.(limiters := n.limiters)
    ensures var m := n.limiters;
            && Free(m) && OthersKept(s.limiters, m, t)
            && m.limiters == s.limiters.limiters && m.epoch == s.limiters.epoch
            && Limiters.PcOf(m, t)
               == if key in m.limiters
                  then Limiters.Returned(key, Limiters.Decision(key, m.limiters[key], m.epoch))
                  else Limiters.WantsWrite(key)
  {
    hide Reaches;
    n := Do(l, start, s, t, Limiters.Call(key));
    n := Do(l, start, n, t, Limiters.RLock);
    n := Do(l, start, n, t, Limiters.Lookup);
    n := Do(l, start, n, t, Limiters.RUnlock);
  }

  // The re-check under the write lock of a key that is still missing.
  lemma StillMissing(l: Limits, start: State, s: State, t: nat, key: string) returns (n: State)
    requires Reaches(l, start, s) && Free(s.limiters) && Limiters.PcOf(s.limiters, t) == Limiters.WantsWrite(key)
    requires key !in s.limiters.limiters
    ensures Reaches(l, start, n)
    ensures n == s.(limiters := Limiters.Goto(s.limiters.(writer := Some(t)), t, Limiters.CheckedMissing(key)))
  {
    hide Reaches;
    n := Do(l, start, s, t, Limiters.Lock);
    n := Do(l, start, n, t, Limiters.Recheck);
    assert n.limiters.pcs == s.limiters.pcs[t := Limiters.CheckedMissing(key)];
  }

  lemma PutIn(l: Limits, start: State, s: State, t: nat, key: string) returns (n: State, id: nat)
    requires Reaches(l, start, s) && Free(s.limiters) && Limiters.PcOf(s.limiters, t) == Limiters.WantsWrite(key)
    requires key !in s.limiters.limiters
    ensures Reaches(l, start, n) && n == s.(limiters := n.limiters)
    ensures var m := n.limiters;
            && Free(m) && OthersKept(s.limiters, m, t)
            && m.limiters == s.limiters.limiters[key := id] && m.epoch == s.limiters.epoch && id == s.limiters.nextId
            && Limiters.PcOf(m, t) == Limiters.Returned(key, Limiters.Decision(key, id, m.epoch))
  {
    hide Reaches;
    id := s.limiters.nextId;
    n := StillMissing(l, start, s, t, key);
    n := Do(l, start, n, t, Limiters.Make);
    n := Do(l, start, n, t, Limiters.Insert);
    n := Do(l, start, n, t, Limiters.Unlock);
  }

  // A whole call: a known key gives its limiter, a new one a limiter that no bucket belongs to.
  lemma Obtain(l: Limits, start: State, s: State, t: nat, key: string) returns (n: State, id: nat)
    requires l.rate >= 0.0 && Init(start) && Reaches(l, start, s)
    requires Free(s.limiters) && Limiters.PcOf(s.limiters, t).Idle?
    ensures Reaches(l, start, n) && n == s.(limiters := n.limiters)
    ensures Free(n.limiters) && OthersKept(s.limiters, n.limiters, t) && n.limiters.epoch == s.limiters.epoch
    ensures n.limiters.limiters == s.limiters.limiters[key := id]
    ensures if key in s.limiters.limiters then id == s.limiters.limiters[key] else id !in s.buckets
    ensures Limiters.PcOf(n.limiters, t) == Limiters.Returned(key, Limiters.Decision(key, id, n.limiters.epoch))
  {
    hide Reaches, Limiters.PcOf, Init;
    NextIdIsNew(l, start, s);
    n := LookUp(l, start, s, t, key);
    if key in s.limiters.limiters {
      id := s.limiters.limiters[key];
    } else {
      NextIdIsNew(l, start, n);
      n, id := PutIn(l, start, n, t, key);
    }
  }

  lemma NextIdIsNew(l: Limits, start: State, s: State)
    requires l.rate >= 0.0 && Init(start) && Reaches(l, start, s)
    ensures s.limiters.nextId !in s.buckets
  {
    hide Budget, IsRun, Reached, Limiters.LockInv, Limiters.PcInv;
    var steps :| IsRun(l, start, steps) && Reached(l, start, steps) == s;
    InitInv(l, start);
    RunKeepsInv(l, start, steps, start.now);
  }

  // An admission by the limiter that a thread holds.
  lemma AskHeld(l: Limits, start: State, s: State, t: nat, time: real) returns (n: State)
    requires Reaches(l, start, s) && Limiters.PcOf(s.limiters, t).Returned? && s.now <= time
    requires Refilled(l, BucketOf(l, s, Limiters.PcOf(s.limiters, t).d.id), time) >= 1.0
    ensures Reaches(l, start, n)
    ensures var d := Limiters.PcOf(s.limiters, t).d;
            && n.buckets
               == s.buckets[d.id := Bucket(Refilled(l, BucketOf(l, s, d.id), time) - 1.0, Some(time))]
            && Count(n.served, d.key) == Count(s.served, d.key) + 1
            && n.now == time
            && n.limiters == Limiters.Goto(s.limiters, t, Limiters.Idle)
  {
    hide Reaches, Refilled;
    StaysReached(l, start, s, AllowAt(t, time));
    n := Apply(l, s, AllowAt(t, time));
  }

  // A new limiter's bucket after k admissions at time zero.
  function SpentBucket(l: Limits, k: nat): Bucket
    requires k <= l.burst
  {
    if k == 0 then Fresh(l) else Bucket((l.burst - k) as real, Some(0.0))
  }

  lemma RefilledAtZero(l: Limits, k: nat)
    requires k <= l.burst
    ensures Refilled(l, SpentBucket(l, k), 0.0) == (l.burst - k) as real
  {
  }

  // One thread spends k tokens of a new limiter at time zero, calling for the key again and again.
  lemma {:induction false} Spend(l: Limits, start: State, s: State, t: nat, key: string, k: nat)
    returns (n: State, id: nat)
    requires l.rate >= 0.0 && 1 <= k <= l.burst && Init(start) && Reaches(l, start, s) && s.now == 0.0
    requires Free(s.limiters) && Limiters.PcOf(s.limiters, t).Idle? && key !in s.limiters.limiters
    ensures Reaches(l, start, n) && n.now == 0.0 && Free(n.limiters)
    ensures OthersKept(s.limiters, n.limiters, t) && Limiters.PcOf(n.limiters, t).Idle?
    ensures n.limiters.epoch == s.limiters.epoch && n.limiters.limiters == s.limiters.limiters[key := id]
    ensures id !in s.buckets && n.buckets == s.buckets[id := SpentBucket(l, k)]
    ensures Count(n.served, key) == Count(s.served, key) + k
  {
    hide Reaches, Init, Refilled, Count;
    RefilledAtZero(l, k - 1);
    if k == 1 {
      n, id := Obtain(l, start, s, t, key);
    } else {
      n, id := Spend(l, start, s, t, key, k - 1);
      n, id := Obtain(l, start, n, t, key);
    }
    assert BucketOf(l, n, id) == SpentBucket(l, k - 1);
    n := AskHeld(l, start, n, t, 0.0);
  }

  lemma CleanUp(l: Limits, start: State, s: State, t: nat) returns (n: State)
    requires Reaches(l, start, s) && Free(s.limiters) && Limiters.PcOf(s.limiters, t).Idle?
    ensures Reaches(l, start, n) && n == s.(limiters := n.limiters)
    ensures Free(n.limiters) && OthersKept(s.limiters, n.limiters, t) && Limiters.PcOf(n.limiters, t).Idle?
    ensures n.limiters.limiters == map[] && n.limiters.epoch == s.limiters.epoch + 1
  {
    hide Reaches;
    n := Do(l, start, s, t, Limiters.CleanupLock);
    n := Do(l, start, n, t, Limiters.CleanupReset);
    n := Do(l, start, n, t, Limiters.CleanupUnlock);
  }

  // A spent bucket has one token again after the time the rate takes to make one.
  lemma RefilledOnce(l: Limits)
    requires l.rate > 0.0 && l.burst >= 1
    ensures Refilled(l, SpentBucket(l, l.burst), 1.0 / l.rate) == 1.0
  {
    assert l.rate * (1.0 / l.rate) == 1.0;
  }

  function AtStart(): State {
    State(Limiters.State({}, None, map[], 0, 0, map[], [], map[]), map[], 0.0, map[], map[])
  }

  // Thread 1 spends a limiter, thread 0 obtains it, a cleanup drops it, and thread 1 spends the next
  // one; both are asked once more as soon as they have a token again.
  lemma StaleAskExceeds(l: Limits, key: string) returns (n: State)
    requires l.rate > 0.0 && l.burst >= 1
    ensures Init(AtStart()) && Reaches(l, AtStart(), n)
    ensures n.limiters.epoch == 1 && n.now == 1.0 / l.rate && Count(n.served, key) == 2 * l.burst + 2
  {
    hide Reaches, Refilled, SpentBucket, IsRun, Reached;
    var start := AtStart();
    assert Reaches(l, start, start) by { ReachesItself(l, start); }
    var dropped, held: nat, id: nat;
    n, dropped := Spend(l, start, start, 1, key, l.burst);
    n, held := Obtain(l, start, n, 0, key);
    n := CleanUp(l, start, n, 1);
    n, id := Spend(l, start, n, 1, key, l.burst);
    n, held := Obtain(l, start, n, 1, key);
    RefilledOnce(l);
    n := AskHeld(l, start, n, 0, 1.0 / l.rate);
    n := AskHeld(l, start, n, 1, 1.0 / l.rate);
  }

  lemma ReachesItself(l: Limits, s: State)
    ensures Reaches(l, s, s)
  {
    assert IsRun(l, s, []) && Reached(l, s, []) == s;
  }

  lemma TwoFillsAndOneToken(l: Limits)
    requires l.rate > 0.0
    ensures Allowance(l, 2, 1.0 / l.rate) == (2 * l.burst + 1) as real
  {
    assert l.rate * (1.0 / l.rate) == 1.0;
  }

  // The bound of a sequential run carries over to every interleaving if and only if limiters never
  // refill; otherwise a dropped limiter can admit beyond it.
  lemma WhenSequentialBoundHolds(l: Limits)
    requires l.rate >= 0.0
    ensures SequentialBound(l) <==> NeverRefills(l)
  {
    hide IsRun, Reached, Allowance;
    if NeverRefills(l) {
      forall s, n, key | Init(s) && Reaches(l, s, n)
        ensures Count(n.served, key) as real <= Allowance(l, n.limiters.epoch + 1, n.now - s.now)
      {
        var steps :| IsRun(l, s, steps) && Reached(l, s, steps) == n;
        WithoutRefills(l, s, steps, key);
      }
    } else {
      var n := StaleAskExceeds(l, "");
      TwoFillsAndOneToken(l);
      assert Count(n.served, "") as real > Allowance(l, n.limiters.epoch + 1, n.now - AtStart().now);
    }
  }
}
