/**
 * Request admission in a sequential run: per-key token buckets, the wholesale periodic reset, and
 * the user layer stacked behind the IP layer.  `rate.Limiter` is a plain token bucket that starts
 * full; times are reals and do not run backwards.
 */
module RateLimit {
  import opened Wrappers

  datatype Limits = Limits(rate: real, burst: nat)

  datatype Bucket = Bucket(tokens: real, last: Option<real>)

  type Buckets = map<string, Bucket>

  // Tokens at time `now`: refilled at the rate since the last admission, never above the burst.
  function Refilled(l: Limits, b: Bucket, now: real): real {
    var elapsed := if b.last.Some? && now > b.last.value then now - b.last.value else 0.0;
    var tokens := b.tokens + l.rate * elapsed;
    if tokens > l.burst as real then l.burst as real else tokens
  }

  function Fresh(l: Limits): Bucket {
    Bucket(l.burst as real, None)
  }

  // One request for a key: the bucket is made on first use, and pays one token if it has one.
  function Ask(l: Limits, m: Buckets, key: string, now: real): (Buckets, bool) {
    var b := if key in m then m[key] else Fresh(l);
    var tokens := Refilled(l, b, now);
    if tokens >= 1.0 then (m[key := Bucket(tokens - 1.0, Some(now))], true)
    else (m[key := b], false)
  }

  // One token, if the refilled bucket has it.
  function Take(l: Limits, b: Bucket, now: real): (Bucket, bool) {
    var (m, ok) := Ask(l, map["" := b], "", now);
    (m[""], ok)
  }

  // ----- The objects -----

  class Limiter {
    const limits: Limits
    var tokens: real
    var last: Option<real>

    constructor (limits: Limits)
      ensures this.limits == limits && Contents() == Fresh(limits)
    {
      this.limits := limits;
      tokens := limits.burst as real;
      last := None;
    }

    function Contents(): Bucket
      reads this
    {
      Bucket(tokens, last)
    }

    method Allow(now: real) returns (ok: bool)
      modifies this
      ensures ok <==> Refilled(limits, old(Contents()), now) >= 1.0
      ensures Contents()
                == if ok then Bucket(Refilled(limits, old(Contents()), now) - 1.0, Some(now)) else old(Contents())
    {
      var available := Refilled(limits, Bucket(tokens, last), now);
      ok := available >= 1.0;
      if ok {
        tokens, last := available - 1.0, Some(now);
      }
    }
  }

  // ipRateLimiter and userRateLimiter
  class KeyedLimiters {
    const limits: Limits
    var limiters: map<string, Limiter>

    constructor (limits: Limits)
      ensures this.limits == limits && limiters == map[] && Valid()
    {
      this.limits := limits;
      limiters := map[];
    }

    // Different keys never share a limiter object.
    ghost predicate Valid()
      reads this
    {
      && (forall k :: k in limiters ==> limiters[k].limits == limits)
      && (forall j, k :: j in limiters && k in limiters && j != k ==> limiters[j] != limiters[k])
    }

    ghost function Objects(): set<object>
      reads this
    {
      set k | k in limiters :: limiters[k]
    }

    ghost function Contents(): Buckets
      reads this, Objects()
    {
      map k | k in limiters :: limiters[k].Contents()
    }

    method GetLimiter(key: string) returns (limiter: Limiter)
      requires Valid()
      modifies this
      ensures Valid() && key in limiters && limiters[key] == limiter
      ensures key in old(limiters) ==> limiters == old(limiters)
      ensures key !in old(limiters) ==>
                fresh(limiter) && limiters == old(limiters)[key := limiter] && limiter.Contents() == Fresh(limits)
      ensures Objects() == old(Objects()) + {limiter}
    {
      if key in limiters {
        return limiters[key];
      }
      limiter := new Limiter(limits);
      limiters := limiters[key := limiter];
      assert forall k :: k in old(limiters) ==> limiters[k] == old(limiters)[k];
    }

    method Cleanup()
      modifies this
      ensures limiters == map[] && Valid()
    {
      limiters := map[];
    }

    // The middleware's `getLimiter(key).Allow()`.
    method Admit(key: string, now: real) returns (ok: bool)
      requires Valid()
      modifies this, Objects()
      ensures Valid() && fresh(Objects() - old(Objects()))
      ensures (Contents(), ok) == Ask(limits, old(Contents()), key, now)
    {
      hide Refilled, Ask, Fresh, Take;
      ghost var was := Contents();
      var limiter := GetLimiter(key);
      ghost var b, objects := limiter.Contents(), Objects();
      ok := limiter.Allow(now);
      assert Objects() == objects;
      assert forall k :: k in limiters && k != key ==> limiters[k] != limiter && limiters[k].Contents() == was[k];
      assert Contents() == was[key := limiter.Contents()];
      AskIs(limits, was, key, now, b, limiter.Contents(), ok);
    }
  }

  lemma AskIs(l: Limits, m: Buckets, key: string, now: real, before: Bucket, after: Bucket, ok: bool)
    requires before == if key in m then m[key] else Fresh(l)
    requires ok <==> Refilled(l, before, now) >= 1.0
    requires after == if ok then Bucket(Refilled(l, before, now) - 1.0, Some(now)) else before
    ensures Ask(l, m, key, now) == (m[key := after], ok)
  {
  }

  // ----- Runs of the two stacked layers -----

  datatype Op = Request(ip: string, email: string, now: real) | CleanupTick

  datatype Gate = Gate(ips: Buckets, users: Buckets)

  // IP layer first; the user layer is skipped for a request without an identity.
  function Serve(ipL: Limits, userL: Limits, g: Gate, op: Op): (Gate, bool) {
    match op
    case CleanupTick => (Gate(map[], map[]), false)
    case Request(ip, email, now) =>
      var (ips, ipOk) := Ask(ipL, g.ips, ip, now);
      if !ipOk then (Gate(ips, g.users), false)
      else if email == "" then (Gate(ips, g.users), true)
      else
        var (users, userOk) := Ask(userL, g.users, email, now);
        (Gate(ips, users), userOk)
  }

  method ServeRequest(ips: KeyedLimiters, users: KeyedLimiters, ip: string, email: string, now: real)
    returns (ok: bool)
    requires ips != users && ips.Valid() && users.Valid() && ips.Objects() !! users.Objects()
    requires users !in ips.Objects() && ips !in users.Objects()
    modifies ips, users, ips.Objects(), users.Objects()
    ensures ips.Valid() && users.Valid()
    ensures (Gate(ips.Contents(), users.Contents()), ok)
         == Serve(ips.limits, users.limits, old(Gate(ips.Contents(), users.Contents())), Request(ip, email, now))
  {
    hide Ask;
    ghost var wasUsers, wasIps, userObjects := users.Contents(), ips.Contents(), users.Objects();
    ok := ips.Admit(ip, now);
    assert users.Contents() == wasUsers && users.Objects() == userObjects;
    assert ips.Objects() !! users.Objects();
    ghost var ipsNow := ips.Contents();
    assert Ask(ips.limits, wasIps, ip, now) == (ipsNow, ok);
    if !ok || email == "" {
      return;
    }
    ok := users.Admit(email, now);
    assert ips.Contents() == ipsNow;
  }

  function RunGate(ipL: Limits, userL: Limits, ops: seq<Op>): Gate {
    if ops == [] then Gate(map[], map[])
    else Serve(ipL, userL, RunGate(ipL, userL, ops[..|ops| - 1]), ops[|ops| - 1]).0
  }

  function PassedLast(ipL: Limits, userL: Limits, ops: seq<Op>): bool
    requires ops != []
  {
    Serve(ipL, userL, RunGate(ipL, userL, ops[..|ops| - 1]), ops[|ops| - 1]).1
  }

  // Requests that got through both layers under an identity, or from an address.
  function PassedAs(ipL: Limits, userL: Limits, ops: seq<Op>, email: string): nat {
    if ops == [] then 0
    else
      var op := ops[|ops| - 1];
      PassedAs(ipL, userL, ops[..|ops| - 1], email) +
      if op.Request? && op.email == email && PassedLast(ipL, userL, ops) then 1 else 0
  }

  function PassedFrom(ipL: Limits, userL: Limits, ops: seq<Op>, ip: string): nat {
    if ops == [] then 0
    else
      var op := ops[|ops| - 1];
      PassedFrom(ipL, userL, ops[..|ops| - 1], ip) +
      if op.Request? && op.ip == ip && PassedLast(ipL, userL, ops) then 1 else 0
  }

  function Cleanups(ops: seq<Op>): nat {
    if ops == [] then 0
    else Cleanups(ops[..|ops| - 1]) + if ops[|ops| - 1].CleanupTick? then 1 else 0
  }

  function EndTime(start: real, ops: seq<Op>): real {
    if ops == [] then start
    else if ops[|ops| - 1].Request? then ops[|ops| - 1].now
    else EndTime(start, ops[..|ops| - 1])
  }

  ghost predicate InOrder(start: real, ops: seq<Op>) {
    ops == [] ||
    (InOrder(start, ops[..|ops| - 1]) &&
     (ops[|ops| - 1].Request? ==> EndTime(start, ops[..|ops| - 1]) <= ops[|ops| - 1].now))
  }

  // ----- The admission bound -----

  // What `cleanups` resets and `elapsed` time allow a key that starts without a bucket.
  function Allowance(l: Limits, fills: nat, elapsed: real): real {
    fills as real * l.burst as real + l.rate * elapsed
  }

  // Admissions so far, plus what the bucket still holds and will have earned by now, fit the
  // allowance; a key without a bucket has one fill in reserve.
  ghost predicate WithinBudget(
    l: Limits, m: Buckets, key: string, admitted: nat, cleanups: nat, start: real, now: real)
  {
    if key in m then
      var b := m[key];
      && b.tokens >= 0.0
      && (b.last.Some? ==> b.last.value <= now)
      && admitted as real + b.tokens + l.rate * (if b.last.Some? then now - b.last.value else 0.0)
         <= Allowance(l, cleanups + 1, now - start)
    else
      admitted as real <= Allowance(l, cleanups, now - start)
  }

  lemma FillsAddUp(l: Limits, fills: nat, elapsed: real)
    ensures Allowance(l, fills + 1, elapsed) == Allowance(l, fills, elapsed) + l.burst as real
  {
  }

  lemma TimePasses(
    l: Limits, m: Buckets, key: string, admitted: nat, cleanups: nat, start: real, now: real, later: real)
    requires l.rate >= 0.0 && now <= later
    requires WithinBudget(l, m, key, admitted, cleanups, start, now)
    ensures WithinBudget(l, m, key, admitted, cleanups, start, later)
  {
  }

  lemma AskWithinBudget(l: Limits, m: Buckets, key: string, admitted: nat, cleanups: nat, start: real, now: real)
    requires l.rate >= 0.0
    requires WithinBudget(l, m, key, admitted, cleanups, start, now)
    ensures var (n, ok) := Ask(l, m, key, now);
            WithinBudget(l, n, key, admitted + (if ok then 1 else 0), cleanups, start, now)
  {
  }

  lemma AskOtherKey(
    l: Limits, m: Buckets, key: string, other: string, admitted: nat, cleanups: nat, start: real, now: real)
    requires other != key && WithinBudget(l, m, key, admitted, cleanups, start, now)
    ensures WithinBudget(l, Ask(l, m, other, now).0, key, admitted, cleanups, start, now)
  {
  }

  lemma ResetWithinBudget(l: Limits, m: Buckets, key: string, admitted: nat, cleanups: nat, start: real, now: real)
    requires l.rate >= 0.0 && WithinBudget(l, m, key, admitted, cleanups, start, now)
    ensures WithinBudget(l, map[], key, admitted, cleanups + 1, start, now)
  {
  }

  lemma {:induction false} UserBudget(ipL: Limits, userL: Limits, ops: seq<Op>, email: string, start: real)
    requires userL.rate >= 0.0 && InOrder(start, ops) && email != ""
    ensures WithinBudget(userL, RunGate(ipL, userL, ops).users, email, PassedAs(ipL, userL, ops, email),
                         Cleanups(ops), start, EndTime(start, ops))
  {
    hide WithinBudget, Ask;
    if ops == [] {
      EmptyBudget(userL, email, start);
    } else {
      var before, op := ops[..|ops| - 1], ops[|ops| - 1];
      UserBudget(ipL, userL, before, email, start);
      var g, n := RunGate(ipL, userL, before), PassedAs(ipL, userL, before, email);
      var c, t := Cleanups(before), EndTime(start, before);
      match op {
        case CleanupTick => ResetWithinBudget(userL, g.users, email, n, c, start, t);
        case Request(ip, e, now) =>
          TimePasses(userL, g.users, email, n, c, start, t, now);
          AskWithinBudget(userL, g.users, email, n, c, start, now);
          if e != email { AskOtherKey(userL, g.users, email, e, n, c, start, now); }
      }
    }
  }

  lemma EmptyBudget(l: Limits, key: string, start: real)
    ensures WithinBudget(l, map[], key, 0, 0, start, start)
  {
  }

  lemma BudgetBounds(l: Limits, m: Buckets, key: string, admitted: nat, cleanups: nat, start: real, now: real)
    requires l.rate >= 0.0 && WithinBudget(l, m, key, admitted, cleanups, start, now)
    ensures admitted as real <= Allowance(l, cleanups + 1, now - start)
  {
    FillsAddUp(l, cleanups, now - start);
    if key in m && m[key].last.Some? {
      assert l.rate * (now - m[key].last.value) >= 0.0;
    }
  }

  // One identity gets through at most (cleanups + 1) * burst + rate * elapsed times, whatever mix of
  // addresses it uses.
  lemma UserBound(ipL: Limits, userL: Limits, ops: seq<Op>, email: string, start: real)
    requires userL.rate >= 0.0 && InOrder(start, ops) && email != ""
    ensures PassedAs(ipL, userL, ops, email) as real
         <= Allowance(userL, Cleanups(ops) + 1, EndTime(start, ops) - start)
  {
    hide WithinBudget, RunGate, Allowance;
    UserBudget(ipL, userL, ops, email, start);
    BudgetBounds(userL, RunGate(ipL, userL, ops).users, email, PassedAs(ipL, userL, ops, email),
                 Cleanups(ops), start, EndTime(start, ops));
  }

  // Admissions by the IP layer alone; at least as many as get through both layers.
  function AdmittedFrom(ipL: Limits, userL: Limits, ops: seq<Op>, ip: string): nat {
    if ops == [] then 0
    else
      var before, op := ops[..|ops| - 1], ops[|ops| - 1];
      AdmittedFrom(ipL, userL, before, ip) +
      if op.Request? && op.ip == ip && Ask(ipL, RunGate(ipL, userL, before).ips, ip, op.now).1 then 1 else 0
  }

  lemma {:induction false} PassedWereAdmitted(ipL: Limits, userL: Limits, ops: seq<Op>, ip: string)
    ensures PassedFrom(ipL, userL, ops, ip) <= AdmittedFrom(ipL, userL, ops, ip)
  {
    hide Ask;
    if ops != [] { PassedWereAdmitted(ipL, userL, ops[..|ops| - 1], ip); }
  }

  lemma {:induction false} AddressBudget(ipL: Limits, userL: Limits, ops: seq<Op>, ip: string, start: real)
    requires ipL.rate >= 0.0 && InOrder(start, ops)
    ensures WithinBudget(ipL, RunGate(ipL, userL, ops).ips, ip, AdmittedFrom(ipL, userL, ops, ip),
                         Cleanups(ops), start, EndTime(start, ops))
  {
    hide WithinBudget, Ask;
    if ops == [] {
      EmptyBudget(ipL, ip, start);
    } else {
      var before, op := ops[..|ops| - 1], ops[|ops| - 1];
      AddressBudget(ipL, userL, before, ip, start);
      var g, n := RunGate(ipL, userL, before), AdmittedFrom(ipL, userL, before, ip);
      var c, t := Cleanups(before), EndTime(start, before);
      match op {
        case CleanupTick => ResetWithinBudget(ipL, g.ips, ip, n, c, start, t);
        case Request(address, e, now) =>
          TimePasses(ipL, g.ips, ip, n, c, start, t, now);
          AskWithinBudget(ipL, g.ips, ip, n, c, start, now);
          if address != ip { AskOtherKey(ipL, g.ips, ip, address, n, c, start, now); }
      }
    }
  }

  lemma AddressBound(ipL: Limits, userL: Limits, ops: seq<Op>, ip: string, start: real)
    requires ipL.rate >= 0.0 && InOrder(start, ops)
    ensures PassedFrom(ipL, userL, ops, ip) as real
         <= Allowance(ipL, Cleanups(ops) + 1, EndTime(start, ops) - start)
  {
    hide WithinBudget, RunGate, Allowance;
    AddressBudget(ipL, userL, ops, ip, start);
    PassedWereAdmitted(ipL, userL, ops, ip);
    BudgetBounds(ipL, RunGate(ipL, userL, ops).ips, ip, AdmittedFrom(ipL, userL, ops, ip),
                 Cleanups(ops), start, EndTime(start, ops));
  }

  // ----- The bound is attained -----

  // n requests of one client at one instant, and such a volley before and after each of k resets.
  function Volley(ip: string, email: string, n: nat): seq<Op> {
    seq(n, _ => Request(ip, email, 0.0))
  }

  function Waves(ip: string, email: string, n: nat, k: nat): seq<Op> {
    if k == 0 then Volley(ip, email, n) else Waves(ip, email, n, k - 1) + [CleanupTick] + Volley(ip, email, n)
  }

  function Spent(l: Limits, key: string, n: nat): Buckets
    requires n <= l.burst
  {
    if n == 0 then map[] else map[key := Bucket((l.burst - n) as real, Some(0.0))]
  }

  lemma NothingSpent(l: Limits, key: string)
    ensures Spent(l, key, 0) == map[]
  {
  }

  lemma SpendOne(l: Limits, key: string, n: nat)
    requires l.rate >= 0.0 && n < l.burst
    ensures Ask(l, Spent(l, key, n), key, 0.0) == (Spent(l, key, n + 1), true)
  {
    var m := Spent(l, key, n);
    var b := if key in m then m[key] else Fresh(l);
    assert Refilled(l, b, 0.0) == (l.burst - n) as real;
    assert m[key := Bucket((l.burst - n) as real - 1.0, Some(0.0))] == Spent(l, key, n + 1);
  }

  lemma AppendRequest(ipL: Limits, userL: Limits, before: seq<Op>, ip: string, email: string)
    requires InOrder(0.0, before) && EndTime(0.0, before) == 0.0
    ensures var op := Request(ip, email, 0.0);
            var ops := before + [op];
            var (gate, ok) := Serve(ipL, userL, RunGate(ipL, userL, before), op);
            && RunGate(ipL, userL, ops) == gate
            && PassedAs(ipL, userL, ops, email) == PassedAs(ipL, userL, before, email) + (if ok then 1 else 0)
            && Cleanups(ops) == Cleanups(before)
            && InOrder(0.0, ops) && EndTime(0.0, ops) == 0.0
  {
  }

  lemma {:induction false} VolleyPasses(ipL: Limits, userL: Limits, before: seq<Op>, ip: string, email: string, n: nat)
    requires ipL.rate >= 0.0 && userL.rate >= 0.0 && email != ""
    requires n <= userL.burst <= ipL.burst
    requires RunGate(ipL, userL, before) == Gate(map[], map[])
    requires InOrder(0.0, before) && EndTime(0.0, before) == 0.0
    ensures var ops := before + Volley(ip, email, n);
            && PassedAs(ipL, userL, ops, email) == PassedAs(ipL, userL, before, email) + n
            && Cleanups(ops) == Cleanups(before)
            && InOrder(0.0, ops) && EndTime(0.0, ops) == 0.0
            && RunGate(ipL, userL, ops) == Gate(Spent(ipL, ip, n), Spent(userL, email, n))
  {
    hide Ask, Spent, RunGate, PassedAs, Cleanups, InOrder, EndTime;
    var ops := before + Volley(ip, email, n);
    if n == 0 {
      NothingSpent(ipL, ip);
      NothingSpent(userL, email);
      assert ops == before;
    } else {
      SpendOne(ipL, ip, n - 1);
      SpendOne(userL, email, n - 1);
      VolleyPasses(ipL, userL, before, ip, email, n - 1);
      assert Volley(ip, email, n) == Volley(ip, email, n - 1) + [Request(ip, email, 0.0)];
      assert ops == (before + Volley(ip, email, n - 1)) + [Request(ip, email, 0.0)];
      AppendRequest(ipL, userL, before + Volley(ip, email, n - 1), ip, email);
    }
  }

  // Every volley of a full burst gets through, so k resets really do allow (k + 1) * burst.
  lemma {:induction false} BoundAttained(ipL: Limits, userL: Limits, ip: string, email: string, k: nat)
    requires ipL.rate >= 0.0 && userL.rate >= 0.0 && email != "" && userL.burst <= ipL.burst
    ensures var ops := Waves(ip, email, userL.burst, k);
            && Cleanups(ops) == k && InOrder(0.0, ops) && EndTime(0.0, ops) == 0.0
            && PassedAs(ipL, userL, ops, email) == (k + 1) * userL.burst
  {
    if k == 0 {
      VolleyPasses(ipL, userL, [], ip, email, userL.burst);
      assert [] + Volley(ip, email, userL.burst) == Volley(ip, email, userL.burst);
    } else {
      BoundAttained(ipL, userL, ip, email, k - 1);
      var before := Waves(ip, email, userL.burst, k - 1) + [CleanupTick];
      assert before[..|before| - 1] == Waves(ip, email, userL.burst, k - 1);
      VolleyPasses(ipL, userL, before, ip, email, userL.burst);
      assert (k + 1) * userL.burst == k * userL.burst + userL.burst;
    }
  }
}
