/**
 * One bucket over a sequence of asks: exactly which of them it admits, read off their times alone,
 * and what this means for the requests of one key among those of others.
 */
module TokenBucket {
  import opened Wrappers
  import opened RateLimit

  predicate Ordered(times: seq<real>) {
    forall i, j :: 0 <= i <= j < |times| ==> times[i] <= times[j]
  }

  // The bucket after these asks, and what it answers to ask i.
  function After(l: Limits, times: seq<real>): Bucket {
    if times == [] then Fresh(l)
    else Take(l, After(l, times[..|times| - 1]), times[|times| - 1]).0
  }

  predicate Admitted(l: Limits, times: seq<real>, i: nat)
    requires i < |times|
  {
    Take(l, After(l, times[..i]), times[i]).1
  }

  // Admissions among the asks j to i - 1.
  function Admissions(l: Limits, times: seq<real>, j: nat, i: nat): nat
    requires i <= |times|
  {
    if i <= j then 0 else Admissions(l, times, j, i - 1) + if Admitted(l, times, i - 1) then 1 else 0
  }

  // What the rate earns in a time.
  function Earned(l: Limits, time: real): real { l.rate * time }

  lemma EarnedAdds(l: Limits, a: real, b: real)
    ensures Earned(l, a) + Earned(l, b) == Earned(l, a + b)
    ensures Earned(l, 0.0) == 0.0
    ensures l.rate >= 0.0 && a >= 0.0 ==> Earned(l, a) >= 0.0
  {
  }

  // What ask i can still take if the window starting at ask j is the tightest.
  function Room(l: Limits, times: seq<real>, j: nat, i: nat): real
    requires j <= i < |times|
  {
    l.burst as real + Earned(l, times[i] - times[j]) - Admissions(l, times, j, i) as real
  }

  function Level(l: Limits, times: seq<real>, i: nat): real
    requires i < |times|
  {
    Refilled(l, After(l, times[..i]), times[i])
  }

  function Least(a: real, b: real): real { if a <= b then a else b }

  // A bucket before an ask at `now`.
  ghost predicate Sound(l: Limits, b: Bucket, now: real) {
    && 0.0 <= b.tokens <= l.burst as real
    && (b.last.None? ==> b.tokens == l.burst as real)
    && (b.last.Some? ==> b.last.value <= now && l.burst >= 1)
  }

  // Between two asks the level rises at the rate, up to the burst.
  lemma LevelRises(l: Limits, b: Bucket, now: real, later: real)
    requires l.rate >= 0.0 && Sound(l, b, now) && now <= later
    ensures var (after, ok) := Take(l, b, now);
            && Sound(l, after, later)
            && (ok <==> Refilled(l, b, now) >= 1.0)
            && Refilled(l, after, later)
               == Least(l.burst as real, Refilled(l, b, now) - (if ok then 1.0 else 0.0) + Earned(l, later - now))
  {
    if b.last.Some? {
      EarnedAdds(l, now - b.last.value, later - now);
    }
    EarnedAdds(l, later - now, 0.0);
  }

  lemma RoomStep(l: Limits, times: seq<real>, j: nat, i: nat)
    requires j < i < |times|
    ensures Room(l, times, j, i)
              == Room(l, times, j, i - 1) - (if Admitted(l, times, i - 1) then 1.0 else 0.0)
                 + Earned(l, times[i] - times[i - 1])
    ensures Room(l, times, i, i) == l.burst as real
  {
    hide Earned, Admitted;
    EarnedAdds(l, times[i - 1] - times[j], times[i] - times[i - 1]);
    EarnedAdds(l, times[i] - times[i], 0.0);
  }

  lemma LevelStep(l: Limits, times: seq<real>, i: nat)
    requires l.rate >= 0.0 && Ordered(times) && 0 < i < |times|
    requires Sound(l, After(l, times[..i - 1]), times[i - 1])
    ensures Sound(l, After(l, times[..i]), times[i])
    ensures Admitted(l, times, i - 1) <==> Level(l, times, i - 1) >= 1.0
    ensures Level(l, times, i)
              == Least(l.burst as real, Level(l, times, i - 1) - (if Admitted(l, times, i - 1) then 1.0 else 0.0)
                                        + Earned(l, times[i] - times[i - 1]))
  {
    hide Earned, Take, Refilled, Sound;
    assert times[..i][..i - 1] == times[..i - 1];
    LevelRises(l, After(l, times[..i - 1]), times[i - 1], times[i]);
  }

  // The level before an ask is the room of the tightest window that ends there.
  lemma {:induction false} LevelIsLeastRoom(l: Limits, times: seq<real>, i: nat)
    requires l.rate >= 0.0 && Ordered(times) && i < |times|
    ensures Sound(l, After(l, times[..i]), times[i])
    ensures forall j :: 0 <= j <= i ==> Level(l, times, i) <= Room(l, times, j, i)
    ensures exists j :: 0 <= j <= i && Level(l, times, i) == Room(l, times, j, i)
  {
    hide Earned, Admitted, Room, Level, Sound;
    if i == 0 {
      FirstLevel(l, times);
    } else {
      LevelIsLeastRoom(l, times, i - 1);
      LevelStep(l, times, i);
      var p :| 0 <= p <= i - 1 && Level(l, times, i - 1) == Room(l, times, p, i - 1);
      RoomStep(l, times, p, i);
      forall j | 0 <= j <= i ensures Level(l, times, i) <= Room(l, times, j, i) {
        RoomStep(l, times, if j < i then j else p, i);
      }
      assert Level(l, times, i) == Room(l, times, p, i) || Level(l, times, i) == Room(l, times, i, i);
    }
  }

  lemma FirstLevel(l: Limits, times: seq<real>)
    requires times != []
    ensures Sound(l, After(l, times[..0]), times[0])
    ensures Level(l, times, 0) == Room(l, times, 0, 0)
  {
    EarnedAdds(l, times[0] - times[0], 0.0);
  }

  // Admitting ask i as well would leave the window that starts with ask j within the burst and what
  // the rate earns in its length.
  predicate WindowAllows(l: Limits, times: seq<real>, j: nat, i: nat)
    requires j <= i < |times|
  {
    (Admissions(l, times, j, i) + 1) as real <= l.burst as real + l.rate * (times[i] - times[j])
  }

  lemma RoomAllows(l: Limits, times: seq<real>, j: nat, i: nat)
    requires j <= i < |times|
    ensures Room(l, times, j, i) >= 1.0 <==> WindowAllows(l, times, j, i)
  {
    hide Admissions;
  }

  // An ask is admitted if and only if every window that ends with it allows it.
  lemma AdmittedExactly(l: Limits, times: seq<real>, i: nat)
    requires l.rate >= 0.0 && Ordered(times) && i < |times|
    ensures Admitted(l, times, i) <==> forall j :: 0 <= j <= i ==> WindowAllows(l, times, j, i)
  {
    hide Take, Refilled, Room, Sound, WindowAllows;
    LevelIsLeastRoom(l, times, i);
    TakesOne(l, After(l, times[..i]), times[i]);
    var p :| 0 <= p <= i && Level(l, times, i) == Room(l, times, p, i);
    RoomAllows(l, times, p, i);
    forall j | 0 <= j <= i ensures Room(l, times, j, i) >= 1.0 <==> WindowAllows(l, times, j, i) {
      RoomAllows(l, times, j, i);
    }
  }

  lemma TakesOne(l: Limits, b: Bucket, now: real)
    ensures Take(l, b, now).1 <==> Refilled(l, b, now) >= 1.0
  {
  }

  // Hence no window ever holds more.
  lemma {:induction false} WindowsBounded(l: Limits, times: seq<real>, j: nat, i: nat)
    requires l.rate >= 0.0 && Ordered(times) && j <= i < |times|
    ensures Admissions(l, times, j, i + 1) as real <= l.burst as real + Earned(l, times[i] - times[j])
    decreases i
  {
    hide Admitted, Earned;
    if Admitted(l, times, i) {
      AdmittedExactly(l, times, i);
      RoomAllows(l, times, j, i);
    } else if j < i {
      WindowsBounded(l, times, j, i - 1);
      EarnedAdds(l, times[i] - times[i - 1], times[i - 1] - times[j]);
      assert (times[i] - times[i - 1]) + (times[i - 1] - times[j]) == times[i] - times[j];
    } else {
      EarnedAdds(l, times[i] - times[j], 0.0);
    }
  }

  // ----- Two layers -----

  lemma AskIsTake(l: Limits, m: Buckets, key: string, now: real)
    ensures var b := if key in m then m[key] else Fresh(l);
            Ask(l, m, key, now) == (m[key := Take(l, b, now).0], Take(l, b, now).1)
  {
    hide Refilled;
  }

  // One more ask, after these, would be admitted.
  ghost predicate Allowed(l: Limits, times: seq<real>, now: real) {
    var n := |times|;
    forall j :: 0 <= j <= n ==> WindowAllows(l, times + [now], j, n)
  }

  lemma AllowedIsTaken(l: Limits, times: seq<real>, now: real)
    requires l.rate >= 0.0 && Ordered(times + [now])
    ensures Take(l, After(l, times), now).1 <==> Allowed(l, times, now)
    ensures After(l, times + [now]) == Take(l, After(l, times), now).0
  {
    hide Take, WindowAllows;
    AdmittedExactly(l, times + [now], |times|);
    assert (times + [now])[..|times|] == times;
  }

  // When the address was asked for since the last cleanup, and when the identity was: by the
  // requests that the address layer let through.
  ghost function IpTimes(ops: seq<Op>, ip: string): seq<real> {
    if ops == [] || ops[|ops| - 1].CleanupTick? then []
    else
      var op := ops[|ops| - 1];
      IpTimes(ops[..|ops| - 1], ip) + if op.ip == ip then [op.now] else []
  }

  ghost function UserTimes(ipL: Limits, ops: seq<Op>, email: string): seq<real> {
    if ops == [] || ops[|ops| - 1].CleanupTick? then []
    else
      var before, op := ops[..|ops| - 1], ops[|ops| - 1];
      UserTimes(ipL, before, email)
      + if op.email == email && Allowed(ipL, IpTimes(before, op.ip), op.now) then [op.now] else []
  }

  ghost predicate OrderedUpTo(times: seq<real>, end: real) {
    Ordered(times) && forall i :: 0 <= i < |times| ==> times[i] <= end
  }

  lemma OrderedNext(times: seq<real>, end: real, now: real)
    requires OrderedUpTo(times, end) && end <= now
    ensures Ordered(times + [now]) && OrderedUpTo(times + [now], now) && OrderedUpTo(times, now)
  {
  }

  lemma {:induction false} TimesInOrder(ipL: Limits, ops: seq<Op>, start: real, key: string)
    requires InOrder(start, ops)
    ensures OrderedUpTo(IpTimes(ops, key), EndTime(start, ops))
    ensures OrderedUpTo(UserTimes(ipL, ops, key), EndTime(start, ops))
  {
    hide Allowed, OrderedUpTo;
    NoTimes(EndTime(start, ops));
    if ops != [] && ops[|ops| - 1].Request? {
      var before, op := ops[..|ops| - 1], ops[|ops| - 1];
      TimesInOrder(ipL, before, start, key);
      OrderedNext(IpTimes(before, key), EndTime(start, before), op.now);
      OrderedNext(UserTimes(ipL, before, key), EndTime(start, before), op.now);
      assert IpTimes(before, key) + [] == IpTimes(before, key);
      assert UserTimes(ipL, before, key) + [] == UserTimes(ipL, before, key);
    }
  }

  lemma NoTimes(end: real)
    ensures OrderedUpTo([], end)
  {
  }

  // The bucket of a key is what its asks since the last cleanup have left.
  ghost predicate Holds(l: Limits, m: Buckets, key: string, times: seq<real>) {
    if key in m then m[key] == After(l, times) else times == []
  }

  lemma AskHolds(l: Limits, m: Buckets, key: string, times: seq<real>, now: real)
    requires l.rate >= 0.0 && Holds(l, m, key, times) && Ordered(times + [now])
    ensures Ask(l, m, key, now).1 <==> Allowed(l, times, now)
    ensures Holds(l, Ask(l, m, key, now).0, key, times + [now])
  {
    hide Ask, Take, Allowed;
    AskIsTake(l, m, key, now);
    AllowedIsTaken(l, times, now);
  }

  lemma OtherHolds(l: Limits, m: Buckets, key: string, other: string, times: seq<real>, now: real)
    requires Holds(l, m, key, times) && other != key
    ensures Holds(l, Ask(l, m, other, now).0, key, times)
  {
    hide Take, After;
    AskIsTake(l, m, other, now);
  }

  lemma {:induction false} GateHolds(ipL: Limits, userL: Limits, ops: seq<Op>, start: real, ip: string, email: string)
    requires ipL.rate >= 0.0 && userL.rate >= 0.0 && InOrder(start, ops) && email != ""
    ensures Holds(ipL, RunGate(ipL, userL, ops).ips, ip, IpTimes(ops, ip))
    ensures Holds(userL, RunGate(ipL, userL, ops).users, email, UserTimes(ipL, ops, email))
    decreases |ops|, 1
  {
    hide Allowed, Holds, Ask, OrderedUpTo, Ordered;
    NothingHeld(ipL, ip);
    NothingHeld(userL, email);
    if ops != [] && ops[|ops| - 1].Request? {
      var before, op := ops[..|ops| - 1], ops[|ops| - 1];
      IpStepHolds(ipL, userL, before, start, op, ip, email);
      UserStepHolds(ipL, userL, before, start, op, email);
      assert IpTimes(before, ip) + [] == IpTimes(before, ip);
      assert UserTimes(ipL, before, email) + [] == UserTimes(ipL, before, email);
    }
  }

  lemma NothingHeld(l: Limits, key: string)
    ensures Holds(l, map[], key, [])
  {
  }

  // One request: its address is asked, and its identity if the address was let through.
  lemma {:induction false} IpStepHolds(
    ipL: Limits, userL: Limits, ops: seq<Op>, start: real, op: Op, ip: string, email: string)
    requires ipL.rate >= 0.0 && userL.rate >= 0.0 && InOrder(start, ops) && email != ""
    requires op.Request? && EndTime(start, ops) <= op.now
    ensures var m := RunGate(ipL, userL, ops).ips;
            && Holds(ipL, Ask(ipL, m, op.ip, op.now).0, ip, IpTimes(ops, ip) + if op.ip == ip then [op.now] else [])
            && (Ask(ipL, m, op.ip, op.now).1 <==> Allowed(ipL, IpTimes(ops, op.ip), op.now))
    decreases |ops|, 2
  {
    hide Allowed, Holds, Ask;
    var m := RunGate(ipL, userL, ops).ips;
    GateHolds(ipL, userL, ops, start, op.ip, email);
    GateHolds(ipL, userL, ops, start, ip, email);
    TimesInOrder(ipL, ops, start, op.ip);
    OrderedNext(IpTimes(ops, op.ip), EndTime(start, ops), op.now);
    AskHolds(ipL, m, op.ip, IpTimes(ops, op.ip), op.now);
    if op.ip != ip {
      OtherHolds(ipL, m, ip, op.ip, IpTimes(ops, ip), op.now);
      assert IpTimes(ops, ip) + [] == IpTimes(ops, ip);
    }
  }

  lemma {:induction false} UserStepHolds(
    ipL: Limits, userL: Limits, ops: seq<Op>, start: real, op: Op, email: string)
    requires ipL.rate >= 0.0 && userL.rate >= 0.0 && InOrder(start, ops) && email != ""
    requires op.Request? && EndTime(start, ops) <= op.now
    ensures var g := RunGate(ipL, userL, ops);
            var asks := op.email == email && Allowed(ipL, IpTimes(ops, op.ip), op.now);
            Holds(userL, Serve(ipL, userL, g, op).0.users, email,
                  UserTimes(ipL, ops, email) + if asks then [op.now] else [])
    decreases |ops|, 3
  {
    hide Allowed, Holds, Ask;
    var g := RunGate(ipL, userL, ops);
    GateHolds(ipL, userL, ops, start, op.ip, email);
    IpStepHolds(ipL, userL, ops, start, op, op.ip, email);
    TimesInOrder(ipL, ops, start, email);
    OrderedNext(UserTimes(ipL, ops, email), EndTime(start, ops), op.now);
    AskHolds(userL, g.users, email, UserTimes(ipL, ops, email), op.now);
    if op.email != email {
      OtherHolds(userL, g.users, email, op.email, UserTimes(ipL, ops, email), op.now);
    }
    assert UserTimes(ipL, ops, email) + [] == UserTimes(ipL, ops, email);
  }

  // A request gets through both layers if and only if every window of its address since the last
  // cleanup allows it and, if it has an identity, every window of that identity's requests that the
  // address layer let through.
  lemma GateExactly(ipL: Limits, userL: Limits, ops: seq<Op>, start: real, ip: string, email: string, now: real)
    requires ipL.rate >= 0.0 && userL.rate >= 0.0 && InOrder(start, ops) && EndTime(start, ops) <= now
    ensures PassedLast(ipL, userL, ops + [Request(ip, email, now)]) <==>
              Allowed(ipL, IpTimes(ops, ip), now) && (email == "" || Allowed(userL, UserTimes(ipL, ops, email), now))
  {
    hide Allowed, Holds, Ask, RunGate;
    var op := Request(ip, email, now);
    assert (ops + [op])[..|ops|] == ops;
    IpStepHolds(ipL, userL, ops, start, op, ip, "x");
    if email != "" {
      GateHolds(ipL, userL, ops, start, ip, email);
      TimesInOrder(ipL, ops, start, email);
      OrderedNext(UserTimes(ipL, ops, email), EndTime(start, ops), now);
      AskHolds(userL, RunGate(ipL, userL, ops).users, email, UserTimes(ipL, ops, email), now);
    }
  }
}
