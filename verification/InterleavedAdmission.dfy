/**
 * `getLimiter(key).Allow()` by any number of threads: the steps of the limiter map interleaved with
 * the admissions on the limiters it handed out.  A thread may ask a limiter that a cleanup has
 * dropped from the map in the meantime.  `Allow` is atomic, and time does not run backwards.
 */
module InterleavedAdmission {
  import opened Wrappers
  import opened RateLimit
  import Limiters = LimiterMap

  datatype State = State(
    limiters: Limiters.State,
    buckets: map<nat, Bucket>,               // by limiter object; a new one is full
    now: real,
    served: map<string, nat>,                // admissions by key
    byEpoch: map<(string, nat), nat>)        // the same, split by the epoch of the limiter

  datatype Step = MapStep(t: nat, a: Limiters.Action) | AllowAt(t: nat, time: real)

  function Count<K>(m: map<K, nat>, k: K): nat {
    if k in m then m[k] else 0
  }

  function BucketOf(l: Limits, s: State, id: nat): Bucket {
    if id in s.buckets then s.buckets[id] else Fresh(l)
  }

  predicate Enabled(s: State, step: Step) {
    match step
    case MapStep(t, a) => !a.Return? && Limiters.Enabled(s.limiters, t, a)
    case AllowAt(t, time) => Limiters.PcOf(s.limiters, t).Returned? && s.now <= time
  }

  function Apply(l: Limits, s: State, step: Step): State
    requires Enabled(s, step)
  {
    match step
    case MapStep(t, a) => s.(limiters := Limiters.Apply(s.limiters, t, a))
    case AllowAt(t, time) =>
      var d := Limiters.PcOf(s.limiters, t).d;
      var (b, ok) := Take(l, BucketOf(l, s, d.id), time);
      var n := s.(limiters := Limiters.Apply(s.limiters, t, Limiters.Return),
                  buckets := s.buckets[d.id := b],
                  now := time);
      if !ok then n
      else
        var group := (d.key, d.epoch);
        n.(served := s.served[d.key := Count(s.served, d.key) + 1],
           byEpoch := s.byEpoch[group := Count(s.byEpoch, group) + 1])
  }

  predicate IsRun(l: Limits, s: State, steps: seq<Step>)
    decreases |steps|
  {
    steps == [] || (Enabled(s, steps[0]) && IsRun(l, Apply(l, s, steps[0]), steps[1..]))
  }

  function Reached(l: Limits, s: State, steps: seq<Step>): State
    requires IsRun(l, s, steps)
    decreases |steps|
  {
    if steps == [] then s else Reached(l, Apply(l, s, steps[0]), steps[1..])
  }

  predicate Init(s: State) {
    Limiters.Init(s.limiters) && s.buckets == map[] && s.served == map[] && s.byEpoch == map[]
  }

  // ----- The invariant -----

  // What one limiter has admitted since `start` fits one fill and the time that has passed.
  ghost predicate Budget(l: Limits, b: Bucket, admitted: nat, start: real, now: real) {
    WithinBudget(l, map["" := b], "", admitted, 0, start, now)
  }

  // Admissions of a key on limiters of the first n epochs.
  ghost function UpTo(byEpoch: map<(string, nat), nat>, key: string, n: nat): nat {
    if n == 0 then 0 else UpTo(byEpoch, key, n - 1) + Count(byEpoch, (key, n - 1))
  }

  ghost predicate BucketsInv(l: Limits, s: State, start: real) {
    && (forall id :: id in s.buckets ==> id in s.limiters.born)
    && (forall id :: id in s.limiters.born ==>
          Budget(l, BucketOf(l, s, id), Count(s.byEpoch, s.limiters.born[id]), start, s.now))
  }

  ghost predicate GroupsInv(l: Limits, s: State, start: real) {
    forall p :: p in s.byEpoch ==>
      && p.1 <= s.limiters.epoch
      && (p.1 == s.limiters.epoch ==> p.0 in s.limiters.limiters)
      && s.byEpoch[p] as real <= Allowance(l, 1, s.now - start)
  }

  ghost predicate ServedInv(s: State) {
    forall key :: Count(s.served, key) == UpTo(s.byEpoch, key, s.limiters.epoch + 1)
  }

  ghost predicate Inv(l: Limits, s: State, start: real) {
    Limiters.Inv(s.limiters) && start <= s.now && BucketsInv(l, s, start) && GroupsInv(l, s, start) && ServedInv(s)
  }

  lemma FreshBudget(l: Limits, start: real, now: real)
    requires l.rate >= 0.0 && start <= now
    ensures Budget(l, Fresh(l), 0, start, now)
  {
    assert l.rate * (now - start) >= 0.0;
  }

  lemma LaterBudget(l: Limits, b: Bucket, admitted: nat, start: real, now: real, later: real)
    requires l.rate >= 0.0 && now <= later && Budget(l, b, admitted, start, now)
    ensures Budget(l, b, admitted, start, later)
  {
    hide WithinBudget;
    TimePasses(l, map["" := b], "", admitted, 0, start, now, later);
  }

  lemma TakeBudget(l: Limits, b: Bucket, admitted: nat, start: real, now: real)
    requires l.rate >= 0.0 && Budget(l, b, admitted, start, now)
    ensures var (after, ok) := Take(l, b, now);
            var n := admitted + if ok then 1 else 0;
            Budget(l, after, n, start, now) && n as real <= Allowance(l, 1, now - start)
  {
    var (m, ok) := Ask(l, map["" := b], "", now);
    AskWithinBudget(l, map["" := b], "", admitted, 0, start, now);
    BudgetBounds(l, m, "", admitted + (if ok then 1 else 0), 0, start, now);
    hide WithinBudget;
    assert m == map["" := m[""]];
  }

  lemma AllowanceGrows(l: Limits, start: real, now: real, later: real)
    requires l.rate >= 0.0 && now <= later
    ensures Allowance(l, 1, now - start) <= Allowance(l, 1, later - start)
  {
    assert l.rate * (later - now) >= 0.0;
  }

  // ----- Steps of the map -----

  // A limiter only becomes known by an insertion, for a key that was absent.
  lemma BornStep(s: Limiters.State, t: nat, a: Limiters.Action)
    requires Limiters.Inv(s) && Limiters.Enabled(s, t, a)
    ensures var n := Limiters.Apply(s, t, a);
            && s.epoch <= n.epoch <= s.epoch + 1
            && (n.epoch == s.epoch ==> forall k :: k in s.limiters ==> k in n.limiters)
            && (forall id :: id in s.born ==> id in n.born && n.born[id] == s.born[id])
            && (forall id :: id in n.born && id !in s.born ==>
                  n.born[id].1 == s.epoch == n.epoch && n.born[id].0 !in s.limiters)
  {
    assert Limiters.PcInv(s, Limiters.PcOf(s, t));
  }

  lemma {:induction false} NothingAdded(byEpoch: map<(string, nat), nat>, key: string, n: nat)
    requires (key, n) !in byEpoch
    ensures UpTo(byEpoch, key, n + 1) == UpTo(byEpoch, key, n)
  {
  }

  lemma MapStepKeepsInv(l: Limits, s: State, t: nat, a: Limiters.Action, start: real)
    requires l.rate >= 0.0 && Inv(l, s, start) && Enabled(s, MapStep(t, a))
    ensures Inv(l, Apply(l, s, MapStep(t, a)), start)
  {
    hide Limiters.Inv, Limiters.Apply, Limiters.Enabled, Budget, Allowance;
    var n := Apply(l, s, MapStep(t, a));
    Limiters.StepKeepsInv(s.limiters, t, a);
    BornStep(s.limiters, t, a);
    FreshBudget(l, start, s.now);
    forall key ensures Count(n.served, key) == UpTo(n.byEpoch, key, n.limiters.epoch + 1) {
      if n.limiters.epoch == s.limiters.epoch + 1 {
        NothingAdded(s.byEpoch, key, s.limiters.epoch + 1);
      }
    }
  }

  // ----- Admissions -----

  lemma {:induction false} CountsInItsEpoch(byEpoch: map<(string, nat), nat>, key: string, group: (string, nat), n: nat)
    ensures UpTo(byEpoch[group := Count(byEpoch, group) + 1], key, n)
              == UpTo(byEpoch, key, n) + if key == group.0 && group.1 < n then 1 else 0
  {
    if n > 0 {
      CountsInItsEpoch(byEpoch, key, group, n - 1);
    }
  }

  lemma ServedStep(
    served: map<string, nat>, byEpoch: map<(string, nat), nat>, key: string, group: (string, nat), epoch: nat)
    requires group.1 <= epoch && Count(served, key) == UpTo(byEpoch, key, epoch + 1)
    ensures Count(served[group.0 := Count(served, group.0) + 1], key)
              == UpTo(byEpoch[group := Count(byEpoch, group) + 1], key, epoch + 1)
  {
    hide UpTo;
    CountsInItsEpoch(byEpoch, key, group, epoch + 1);
  }

  // What the limiter map guarantees about a limiter it has returned.
  lemma ReturnedIsBorn(s: Limiters.State, t: nat)
    requires Limiters.Inv(s) && Limiters.PcOf(s, t).Returned?
    ensures var d := Limiters.PcOf(s, t).d;
            && d.id in s.born && s.born[d.id] == (d.key, d.epoch) && d.epoch <= s.epoch
            && (d.epoch == s.epoch ==> d.key in s.limiters)
            && forall id :: id in s.born && s.born[id] == (d.key, d.epoch) ==> id == d.id
    ensures Limiters.Enabled(s, t, Limiters.Return)
    ensures var n := Limiters.Apply(s, t, Limiters.Return);
            n.born == s.born && n.epoch == s.epoch && n.limiters == s.limiters
  {
    assert Limiters.PcInv(s, Limiters.PcOf(s, t));
  }

  lemma AllowKeepsBuckets(l: Limits, s: State, t: nat, time: real, start: real)
    requires l.rate >= 0.0 && Inv(l, s, start) && Enabled(s, AllowAt(t, time))
    ensures BucketsInv(l, Apply(l, s, AllowAt(t, time)), start)
  {
    hide Limiters.Inv, Limiters.Apply, Budget, Take, GroupsInv;
    var d, n := Limiters.PcOf(s.limiters, t).d, Apply(l, s, AllowAt(t, time));
    ReturnedIsBorn(s.limiters, t);
    forall id | id in s.limiters.born
      ensures Budget(l, BucketOf(l, n, id), Count(n.byEpoch, s.limiters.born[id]), start, time)
    {
      var count := Count(s.byEpoch, s.limiters.born[id]);
      LaterBudget(l, BucketOf(l, s, id), count, start, s.now, time);
      if id == d.id {
        TakeBudget(l, BucketOf(l, s, id), count, start, time);
      }
    }
  }

  lemma AllowKeepsGroups(l: Limits, s: State, t: nat, time: real, start: real)
    requires l.rate >= 0.0 && Inv(l, s, start) && Enabled(s, AllowAt(t, time))
    ensures GroupsInv(l, Apply(l, s, AllowAt(t, time)), start)
  {
    hide Limiters.Inv, Limiters.Apply, Budget, Take, Allowance, ServedInv;
    var d := Limiters.PcOf(s.limiters, t).d;
    var count := Count(s.byEpoch, (d.key, d.epoch));
    ReturnedIsBorn(s.limiters, t);
    AllowanceGrows(l, start, s.now, time);
    LaterBudget(l, BucketOf(l, s, d.id), count, start, s.now, time);
    TakeBudget(l, BucketOf(l, s, d.id), count, start, time);
  }

  lemma AllowKeepsServed(l: Limits, s: State, t: nat, time: real)
    requires Limiters.Inv(s.limiters) && ServedInv(s) && Enabled(s, AllowAt(t, time))
    ensures ServedInv(Apply(l, s, AllowAt(t, time)))
  {
    hide Limiters.Inv, Limiters.Apply, Take;
    var d, n := Limiters.PcOf(s.limiters, t).d, Apply(l, s, AllowAt(t, time));
    ReturnedIsBorn(s.limiters, t);
    forall key ensures Count(n.served, key) == UpTo(n.byEpoch, key, n.limiters.epoch + 1) {
      assert Count(s.served, key) == UpTo(s.byEpoch, key, s.limiters.epoch + 1);
      ServedStep(s.served, s.byEpoch, key, (d.key, d.epoch), s.limiters.epoch);
    }
  }

  lemma StepKeepsInv(l: Limits, s: State, step: Step, start: real)
    requires l.rate >= 0.0 && Inv(l, s, start) && Enabled(s, step)
    ensures Inv(l, Apply(l, s, step), start)
  {
    hide BucketsInv, GroupsInv, ServedInv, Limiters.Inv, Limiters.Apply, Take;
    match step
    case MapStep(t, a) => MapStepKeepsInv(l, s, t, a, start);
    case AllowAt(t, time) =>
      AllowKeepsBuckets(l, s, t, time, start);
      AllowKeepsGroups(l, s, t, time, start);
      AllowKeepsServed(l, s, t, time);
      ReturnedIsBorn(s.limiters, t);
      Limiters.StepKeepsInv(s.limiters, t, Limiters.Return);
  }

  lemma {:induction false} RunKeepsInv(l: Limits, s: State, steps: seq<Step>, start: real)
    requires l.rate >= 0.0 && Inv(l, s, start) && IsRun(l, s, steps)
    ensures Inv(l, Reached(l, s, steps), start)
    decreases |steps|
  {
    hide Apply, Enabled, Inv;
    if steps != [] {
      StepKeepsInv(l, s, steps[0], start);
      RunKeepsInv(l, Apply(l, s, steps[0]), steps[1..], start);
    }
  }

  lemma InitInv(l: Limits, s: State)
    requires Init(s)
    ensures Inv(l, s, s.now)
  {
    assert forall key :: UpTo(s.byEpoch, key, 1) == UpTo(s.byEpoch, key, 0) + Count(s.byEpoch, (key, 0));
  }

  lemma {:induction false} EpochsAddUp(byEpoch: map<(string, nat), nat>, key: string, n: nat, bound: real)
    requires bound >= 0.0 && forall p :: p in byEpoch ==> byEpoch[p] as real <= bound
    ensures UpTo(byEpoch, key, n) as real <= Times(n, bound)
  {
    hide Times;
    if n == 0 {
      TimesNone(bound);
    } else {
      EpochsAddUp(byEpoch, key, n - 1, bound);
      TimesNext(n - 1, bound);
      assert Count(byEpoch, (key, n - 1)) as real <= bound;
    }
  }

  function Times(n: nat, x: real): real { n as real * x }

  lemma TimesNone(x: real)
    ensures Times(0, x) == 0.0
  {
  }

  lemma TimesNext(n: nat, x: real)
    ensures Times(n + 1, x) == Times(n, x) + x
  {
    assert (n + 1) as real == n as real + 1.0;
  }

  lemma AllowanceNonNegative(l: Limits, elapsed: real)
    requires l.rate >= 0.0 && elapsed >= 0.0
    ensures Allowance(l, 1, elapsed) == l.burst as real + l.rate * elapsed >= 0.0
  {
  }

  // In every interleaving with k cleanups, one key is admitted at most k + 1 times what one limiter
  // can admit over the whole time, whether it is in the map or dropped.  `DroppedLimiters` bounds the
  // admissions of limiters in the map more sharply.
  lemma InterleavedBound(l: Limits, s: State, steps: seq<Step>, key: string)
    requires l.rate >= 0.0 && Init(s) && IsRun(l, s, steps)
    ensures var n := Reached(l, s, steps);
            && s.now <= n.now
            && Count(n.served, key) as real <= Times(n.limiters.epoch + 1, Allowance(l, 1, n.now - s.now))
  {
    hide Limiters.Inv, BucketsInv, Allowance, Reached, IsRun, Times;
    InitInv(l, s);
    RunKeepsInv(l, s, steps, s.now);
    var n := Reached(l, s, steps);
    AllowanceNonNegative(l, n.now - s.now);
    EpochsAddUp(n.byEpoch, key, n.limiters.epoch + 1, Allowance(l, 1, n.now - s.now));
  }
}
