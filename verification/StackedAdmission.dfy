/**
 * The two layers of the middleware under any interleaving: a request asks the limiter of its address
 * and, once admitted, that of its identity if it has one.  Both layers read one clock; their maps
 * are cleaned up independently.
 */
module StackedAdmission {
  import opened RateLimit
  import opened DroppedLimiters
  import Limiters = LimiterMap
  import Layer = InterleavedAdmission

  // What a thread is serving and how far it is; behind the address layer only with an identity.
  datatype Phase =
    | NoRequest
    | AtAddress(ip: string, email: string)
    | AtIdentity(ip: string, email: string)

  datatype State = State(
    ips: Layer.State,
    users: Layer.State,
    phases: map<nat, Phase>,
    passed: seq<(string, string)>,   // address and identity of every request that got through
    refused: seq<(string, string)>)  // and of those that the identity layer refused

  datatype Step =
    | Arrive(t: nat, ip: string, email: string)
    | IpMap(t: nat, a: Limiters.Action)
    | AskIp(t: nat, time: real)
    | UserMap(t: nat, a: Limiters.Action)
    | AskUser(t: nat, time: real)

  function PhaseOf(s: State, t: nat): Phase {
    if t in s.phases then s.phases[t] else NoRequest
  }

  predicate IsCleanup(a: Limiters.Action) {
    a.CleanupLock? || a.CleanupReset? || a.CleanupUnlock?
  }

  // A thread works on a map for the key of its request, and cleans up only without a request.
  predicate MayStep(idle: bool, here: bool, key: string, a: Limiters.Action) {
    if IsCleanup(a) then idle else here && (a.Call? ==> a.key == key)
  }

  predicate Enabled(s: State, step: Step) {
    var phase := PhaseOf(s, step.t);
    match step
    case Arrive(t, _, _) =>
      phase.NoRequest? && Limiters.PcOf(s.ips.limiters, t).Idle? && Limiters.PcOf(s.users.limiters, t).Idle?
    case IpMap(t, a) =>
      Layer.Enabled(s.ips, Layer.MapStep(t, a))
      && MayStep(phase.NoRequest?, phase.AtAddress?, if phase.AtAddress? then phase.ip else "", a)
    case AskIp(t, time) =>
      Layer.Enabled(s.ips, Layer.AllowAt(t, time)) && phase.AtAddress? && s.users.now <= time
    case UserMap(t, a) =>
      Layer.Enabled(s.users, Layer.MapStep(t, a))
      && MayStep(phase.NoRequest?, phase.AtIdentity?, if phase.AtIdentity? then phase.email else "", a)
    case AskUser(t, time) =>
      Layer.Enabled(s.users, Layer.AllowAt(t, time)) && phase.AtIdentity? && s.ips.now <= time
  }

  // The answer of the limiter that a thread holds.
  function Admits(l: Limits, s: Layer.State, t: nat, time: real): bool
    requires Layer.Enabled(s, Layer.AllowAt(t, time))
  {
    Take(l, Layer.BucketOf(l, s, Limiters.PcOf(s.limiters, t).d.id), time).1
  }

  function Apply(ipL: Limits, userL: Limits, s: State, step: Step): State
    requires Enabled(s, step)
  {
    var phase := PhaseOf(s, step.t);
    match step
    case Arrive(t, ip, email) => s.(phases := s.phases[t := AtAddress(ip, email)])
    case IpMap(t, a) => s.(ips := Layer.Apply(ipL, s.ips, Layer.MapStep(t, a)))
    case AskIp(t, time) =>
      var ok := Admits(ipL, s.ips, t, time);
      s.(ips := Layer.Apply(ipL, s.ips, Layer.AllowAt(t, time)),
         phases := s.phases[t := if ok && phase.email != "" then AtIdentity(phase.ip, phase.email) else NoRequest],
         passed := With(s.passed, ok && phase.email == "", (phase.ip, phase.email)))
    case UserMap(t, a) => s.(users := Layer.Apply(userL, s.users, Layer.MapStep(t, a)))
    case AskUser(t, time) =>
      s.(users := Layer.Apply(userL, s.users, Layer.AllowAt(t, time)),
         phases := s.phases[t := NoRequest],
         passed := With(s.passed, Admits(userL, s.users, t, time), (phase.ip, phase.email)),
         refused := With(s.refused, !Admits(userL, s.users, t, time), (phase.ip, phase.email)))
  }

  predicate IsRun(ipL: Limits, userL: Limits, s: State, steps: seq<Step>)
    decreases |steps|
  {
    steps == [] || (Enabled(s, steps[0]) && IsRun(ipL, userL, Apply(ipL, userL, s, steps[0]), steps[1..]))
  }

  function Reached(ipL: Limits, userL: Limits, s: State, steps: seq<Step>): State
    requires IsRun(ipL, userL, s, steps)
    decreases |steps|
  {
    if steps == [] then s else Reached(ipL, userL, Apply(ipL, userL, s, steps[0]), steps[1..])
  }

  predicate Init(s: State) {
    && Layer.Init(s.ips) && Layer.Init(s.users) && s.ips.now == s.users.now
    && s.phases == map[] && s.passed == s.refused == []
  }

  function PassedAs(passed: seq<(string, string)>, email: string): nat {
    if passed == [] then 0
    else PassedAs(passed[..|passed| - 1], email) + if passed[|passed| - 1].1 == email then 1 else 0
  }

  function PassedFrom(passed: seq<(string, string)>, ip: string): nat {
    if passed == [] then 0
    else PassedFrom(passed[..|passed| - 1], ip) + if passed[|passed| - 1].0 == ip then 1 else 0
  }

  // The list when a request may have been added.
  function With(passed: seq<(string, string)>, through: bool, p: (string, string)): seq<(string, string)> {
    if through then passed + [p] else passed
  }

  lemma PassedGrows(passed: seq<(string, string)>, through: bool, p: (string, string), key: string)
    ensures PassedAs(With(passed, through, p), key)
              == PassedAs(passed, key) + if through && p.1 == key then 1 else 0
    ensures PassedFrom(With(passed, through, p), key)
              == PassedFrom(passed, key) + if through && p.0 == key then 1 else 0
  {
    assert (passed + [p])[..|passed|] == passed;
  }

  // ----- Each layer sees a run of its own -----

  function IpSteps(steps: seq<Step>): seq<Layer.Step> {
    if steps == [] then []
    else (match steps[0]
          case IpMap(t, a) => [Layer.MapStep(t, a)]
          case AskIp(t, time) => [Layer.AllowAt(t, time)]
          case _ => []) + IpSteps(steps[1..])
  }

  function UserSteps(steps: seq<Step>): seq<Layer.Step> {
    if steps == [] then []
    else (match steps[0]
          case UserMap(t, a) => [Layer.MapStep(t, a)]
          case AskUser(t, time) => [Layer.AllowAt(t, time)]
          case _ => []) + UserSteps(steps[1..])
  }

  lemma LayerStep(l: Limits, s: Layer.State, step: Layer.Step, rest: seq<Layer.Step>)
    requires Layer.Enabled(s, step) && Layer.IsRun(l, Layer.Apply(l, s, step), rest)
    ensures Layer.IsRun(l, s, [step] + rest)
    ensures Layer.Reached(l, s, [step] + rest) == Layer.Reached(l, Layer.Apply(l, s, step), rest)
  {
    hide Layer.Enabled, Layer.Apply;
    assert ([step] + rest)[1..] == rest;
  }

  lemma {:induction false} LayersRun(ipL: Limits, userL: Limits, s: State, steps: seq<Step>)
    requires IsRun(ipL, userL, s, steps)
    ensures var n := Reached(ipL, userL, s, steps);
            && Layer.IsRun(ipL, s.ips, IpSteps(steps)) && Layer.Reached(ipL, s.ips, IpSteps(steps)) == n.ips
            && Layer.IsRun(userL, s.users, UserSteps(steps))
            && Layer.Reached(userL, s.users, UserSteps(steps)) == n.users
    decreases |steps|
  {
    hide Layer.Enabled, Layer.Apply, Admits, MayStep;
    if steps != [] {
      LayersRun(ipL, userL, Apply(ipL, userL, s, steps[0]), steps[1..]);
      assert [] + IpSteps(steps[1..]) == IpSteps(steps[1..]);
      assert [] + UserSteps(steps[1..]) == UserSteps(steps[1..]);
      match steps[0] {
        case Arrive(_, _, _) =>
        case IpMap(t, a) => LayerStep(ipL, s.ips, Layer.MapStep(t, a), IpSteps(steps[1..]));
        case AskIp(t, time) => LayerStep(ipL, s.ips, Layer.AllowAt(t, time), IpSteps(steps[1..]));
        case UserMap(t, a) => LayerStep(userL, s.users, Layer.MapStep(t, a), UserSteps(steps[1..]));
        case AskUser(t, time) => LayerStep(userL, s.users, Layer.AllowAt(t, time), UserSteps(steps[1..]));
      }
    }
  }

  // ----- What got through was admitted -----

  // The thread is outside the map, or works on it for this key.
  ghost predicate WorksFor(pc: Limiters.Pc, key: string) {
    match pc
    case Idle => true
    case CleanupLocked => false
    case CleanupLeaving => false
    case ReadHit(k, d) => k == d.key == key
    case Leaving(k, d) => k == d.key == key
    case Returned(k, d) => k == d.key == key
    case _ => pc.key == key
  }

  ghost predicate ThreadInv(s: State, t: nat) {
    var ipPc, userPc := Limiters.PcOf(s.ips.limiters, t), Limiters.PcOf(s.users.limiters, t);
    match PhaseOf(s, t)
    case NoRequest => true
    case AtAddress(ip, _) => WorksFor(ipPc, ip) && userPc.Idle?
    case AtIdentity(_, email) => ipPc.Idle? && WorksFor(userPc, email) && email != ""
  }

  // Requests admitted for their address that still wait for the answer of the identity layer.
  ghost function Waiting(s: State, ip: string): set<nat> {
    set t | t in s.phases && s.phases[t].AtIdentity? && s.phases[t].ip == ip
  }

  // What got through as an identity is what its limiters admitted.  What the limiters of an address
  // admitted got through, or waits for the identity layer, or was refused there.
  ghost predicate CountsInv(s: State, key: string) {
    && (key != "" ==> PassedAs(s.passed, key) == Layer.Count(s.users.served, key))
    && Layer.Count(s.ips.served, key)
         == PassedFrom(s.passed, key) + |Waiting(s, key)| + PassedFrom(s.refused, key)
    && PassedAs(s.refused, "") == 0
  }

  ghost predicate Inv(s: State) {
    (forall t: nat :: ThreadInv(s, t)) && (forall key :: CountsInv(s, key))
  }

  lemma MapStepWorksFor(s: Limiters.State, t: nat, a: Limiters.Action, key: string)
    requires Limiters.Enabled(s, t, a) && WorksFor(Limiters.PcOf(s, t), key)
    requires !IsCleanup(a) && (a.Call? ==> a.key == key)
    ensures WorksFor(Limiters.PcOf(Limiters.Apply(s, t, a), t), key)
  {
  }

  // An admission is counted for the key the thread works for, and leaves it outside the map.
  lemma AllowCounts(l: Limits, s: Layer.State, t: nat, time: real, key: string)
    requires Layer.Enabled(s, Layer.AllowAt(t, time)) && WorksFor(Limiters.PcOf(s.limiters, t), key)
    ensures var n := Layer.Apply(l, s, Layer.AllowAt(t, time));
            && (forall k :: Layer.Count(n.served, k)
                  == Layer.Count(s.served, k) + if Admits(l, s, t, time) && k == key then 1 else 0)
            && Limiters.PcOf(n.limiters, t).Idle?
            && OthersKept(s.limiters, n.limiters, t)
  {
    hide Take;
  }

  lemma MapStepCountsNothing(l: Limits, s: Layer.State, t: nat, a: Limiters.Action)
    requires Layer.Enabled(s, Layer.MapStep(t, a))
    ensures var n := Layer.Apply(l, s, Layer.MapStep(t, a));
            n.served == s.served && OthersKept(s.limiters, n.limiters, t)
  {
    hide Limiters.Apply, Limiters.Enabled;
    var n := Limiters.Apply(s.limiters, t, a);
    forall u: nat | u != t ensures Limiters.PcOf(n, u) == Limiters.PcOf(s.limiters, u) {
      Limiters.OthersPcKept(s.limiters, t, a, u);
    }
  }

  lemma ArriveKeepsInv(ipL: Limits, userL: Limits, s: State, t: nat, ip: string, email: string)
    requires Inv(s) && Enabled(s, Arrive(t, ip, email))
    ensures Inv(Apply(ipL, userL, s, Arrive(t, ip, email)))
  {
    hide PassedAs, PassedFrom, Layer.Count;
    var n := Apply(ipL, userL, s, Arrive(t, ip, email));
    forall u: nat ensures ThreadInv(n, u) {
      assert ThreadInv(s, u);
    }
    forall key ensures CountsInv(n, key) {
      assert CountsInv(s, key);
      assert Waiting(n, key) == Waiting(s, key);
    }
  }

  lemma MapKeepsInv(ipL: Limits, userL: Limits, s: State, step: Step)
    requires Inv(s) && Enabled(s, step) && (step.IpMap? || step.UserMap?)
    ensures Inv(Apply(ipL, userL, s, step))
  {
    hide PassedAs, PassedFrom, Layer.Count, Limiters.Apply, Limiters.Enabled, WorksFor;
    var n, t, a := Apply(ipL, userL, s, step), step.t, step.a;
    assert ThreadInv(s, t);
    var phase := PhaseOf(s, t);
    if step.IpMap? {
      MapStepCountsNothing(ipL, s.ips, t, a);
      if phase.AtAddress? && !IsCleanup(a) { MapStepWorksFor(s.ips.limiters, t, a, phase.ip); }
    } else {
      MapStepCountsNothing(userL, s.users, t, a);
      if phase.AtIdentity? && !IsCleanup(a) { MapStepWorksFor(s.users.limiters, t, a, phase.email); }
    }
    forall u: nat ensures ThreadInv(n, u) {
      assert ThreadInv(s, u);
    }
    forall key ensures CountsInv(n, key) {
      assert CountsInv(s, key);
      assert Waiting(n, key) == Waiting(s, key);
    }
  }

  lemma IdleWorksFor(pc: Limiters.Pc, key: string)
    ensures pc.Idle? ==> WorksFor(pc, key)
  {
  }

  lemma AskIpKeepsThreads(ipL: Limits, userL: Limits, s: State, t: nat, time: real)
    requires (forall u: nat :: ThreadInv(s, u)) && Enabled(s, AskIp(t, time))
    ensures forall u: nat :: ThreadInv(Apply(ipL, userL, s, AskIp(t, time)), u)
  {
    hide With, Layer.Count, Layer.Apply, WorksFor, Admits, Layer.Enabled;
    var n, phase := Apply(ipL, userL, s, AskIp(t, time)), PhaseOf(s, t);
    assert ThreadInv(s, t);
    AllowCounts(ipL, s.ips, t, time, phase.ip);
    IdleWorksFor(Limiters.PcOf(s.users.limiters, t), phase.email);
    forall u: nat ensures ThreadInv(n, u) {
      assert ThreadInv(s, u);
    }
  }

  lemma AskIpWaiting(ipL: Limits, userL: Limits, s: State, t: nat, time: real, ip: string)
    requires Enabled(s, AskIp(t, time))
    ensures var phase := PhaseOf(s, t);
            |Waiting(Apply(ipL, userL, s, AskIp(t, time)), ip)|
              == |Waiting(s, ip)|
                 + if Admits(ipL, s.ips, t, time) && phase.email != "" && phase.ip == ip then 1 else 0
  {
    hide With, Layer.Apply, Admits, Layer.Enabled;
    var n, phase, ok := Apply(ipL, userL, s, AskIp(t, time)), PhaseOf(s, t), Admits(ipL, s.ips, t, time);
    assert Waiting(n, ip) == Waiting(s, ip) + if ok && phase.email != "" && phase.ip == ip then {t} else {};
  }

  lemma AskIpKeepsInv(ipL: Limits, userL: Limits, s: State, t: nat, time: real)
    requires Inv(s) && Enabled(s, AskIp(t, time))
    ensures Inv(Apply(ipL, userL, s, AskIp(t, time)))
  {
    hide PassedAs, PassedFrom, With, Waiting, Layer.Count, Layer.Apply, WorksFor, Admits, Layer.Enabled, ThreadInv;
    var n, phase, ok := Apply(ipL, userL, s, AskIp(t, time)), PhaseOf(s, t), Admits(ipL, s.ips, t, time);
    AskIpKeepsThreads(ipL, userL, s, t, time);
    assert ThreadInv(s, t);
    AtAddressWorksFor(s, t);
    AllowCounts(ipL, s.ips, t, time, phase.ip);
    forall key ensures CountsInv(n, key) {
      assert CountsInv(s, key);
      PassedGrows(s.passed, ok && phase.email == "", (phase.ip, phase.email), key);
      AskIpWaiting(ipL, userL, s, t, time, key);
    }
  }

  lemma AtAddressWorksFor(s: State, t: nat)
    requires ThreadInv(s, t) && PhaseOf(s, t).AtAddress?
    ensures WorksFor(Limiters.PcOf(s.ips.limiters, t), PhaseOf(s, t).ip)
  {
  }

  lemma AskUserKeepsThreads(ipL: Limits, userL: Limits, s: State, t: nat, time: real)
    requires (forall u: nat :: ThreadInv(s, u)) && Enabled(s, AskUser(t, time))
    ensures forall u: nat :: ThreadInv(Apply(ipL, userL, s, AskUser(t, time)), u)
  {
    hide With, Layer.Count, Layer.Apply, WorksFor, Admits, Layer.Enabled;
    var n, phase := Apply(ipL, userL, s, AskUser(t, time)), PhaseOf(s, t);
    assert ThreadInv(s, t);
    AllowCounts(userL, s.users, t, time, phase.email);
    forall u: nat ensures ThreadInv(n, u) {
      assert ThreadInv(s, u);
    }
  }

  lemma AskUserWaiting(ipL: Limits, userL: Limits, s: State, t: nat, time: real, ip: string)
    requires Enabled(s, AskUser(t, time))
    ensures |Waiting(Apply(ipL, userL, s, AskUser(t, time)), ip)|
              == |Waiting(s, ip)| - if PhaseOf(s, t).ip == ip then 1 else 0
  {
    hide With, Layer.Apply, Admits, Layer.Enabled;
    var n, gone := Apply(ipL, userL, s, AskUser(t, time)), if PhaseOf(s, t).ip == ip then {t} else {};
    assert Waiting(n, ip) == Waiting(s, ip) - gone && gone <= Waiting(s, ip);
  }

  lemma AskUserKeepsInv(ipL: Limits, userL: Limits, s: State, t: nat, time: real)
    requires Inv(s) && Enabled(s, AskUser(t, time))
    ensures Inv(Apply(ipL, userL, s, AskUser(t, time)))
  {
    hide PassedAs, PassedFrom, With, Waiting, Layer.Count, Layer.Apply, WorksFor, Admits, Layer.Enabled, ThreadInv;
    var n, phase, ok := Apply(ipL, userL, s, AskUser(t, time)), PhaseOf(s, t), Admits(userL, s.users, t, time);
    AskUserKeepsThreads(ipL, userL, s, t, time);
    assert ThreadInv(s, t);
    AtIdentityWorksFor(s, t);
    AllowCounts(userL, s.users, t, time, phase.email);
    forall key ensures CountsInv(n, key) {
      assert CountsInv(s, key);
      PassedGrows(s.passed, ok, (phase.ip, phase.email), key);
      PassedGrows(s.refused, !ok, (phase.ip, phase.email), key);
      PassedGrows(s.refused, !ok, (phase.ip, phase.email), "");
      AskUserWaiting(ipL, userL, s, t, time, key);
    }
  }

  lemma AtIdentityWorksFor(s: State, t: nat)
    requires ThreadInv(s, t) && PhaseOf(s, t).AtIdentity?
    ensures WorksFor(Limiters.PcOf(s.users.limiters, t), PhaseOf(s, t).email) && PhaseOf(s, t).email != ""
  {
  }

  lemma StepKeepsInv(ipL: Limits, userL: Limits, s: State, step: Step)
    requires Inv(s) && Enabled(s, step)
    ensures Inv(Apply(ipL, userL, s, step))
  {
    hide Inv, Apply, Enabled;
    match step
    case Arrive(t, ip, email) => ArriveKeepsInv(ipL, userL, s, t, ip, email);
    case AskIp(t, time) => AskIpKeepsInv(ipL, userL, s, t, time);
    case AskUser(t, time) => AskUserKeepsInv(ipL, userL, s, t, time);
    case _ => MapKeepsInv(ipL, userL, s, step);
  }

  lemma {:induction false} RunKeepsInv(ipL: Limits, userL: Limits, s: State, steps: seq<Step>)
    requires Inv(s) && IsRun(ipL, userL, s, steps)
    ensures Inv(Reached(ipL, userL, s, steps))
    decreases |steps|
  {
    hide Apply, Enabled, Inv;
    if steps != [] {
      StepKeepsInv(ipL, userL, s, steps[0]);
      RunKeepsInv(ipL, userL, Apply(ipL, userL, s, steps[0]), steps[1..]);
    }
  }

  lemma InitInv(s: State)
    requires Init(s)
    ensures Inv(s)
  {
    assert forall ip :: Waiting(s, ip) == {};
  }

  lemma AdmissionsAccounted(
    ipL: Limits, userL: Limits, s: State, steps: seq<Step>, ip: string, email: string)
    requires Init(s) && IsRun(ipL, userL, s, steps)
    ensures var n := Reached(ipL, userL, s, steps);
            && Layer.Count(n.ips.served, ip) == PassedFrom(n.passed, ip) + |Waiting(n, ip)| + PassedFrom(n.refused, ip)
            && (email != "" ==> PassedAs(n.passed, email) == Layer.Count(n.users.served, email))
            && PassedAs(n.refused, "") == 0
  {
    hide IsRun, Reached, PassedAs, PassedFrom, Waiting;
    InitInv(s);
    RunKeepsInv(ipL, userL, s, steps);
    assert CountsInv(Reached(ipL, userL, s, steps), ip) && CountsInv(Reached(ipL, userL, s, steps), email);
  }

  // A request starts with its address, goes on to its identity exactly if it is admitted and has one,
  // and is over after that; in each layer its first step is to look its own key up.
  lemma RequestGoesOn(ipL: Limits, userL: Limits, s: State, t: nat, ip: string, email: string, time: real)
    ensures Enabled(s, Arrive(t, ip, email)) ==>
              var n := Apply(ipL, userL, s, Arrive(t, ip, email));
              PhaseOf(n, t) == AtAddress(ip, email) && Enabled(n, IpMap(t, Limiters.Call(ip)))
    ensures Enabled(s, AskIp(t, time)) && PhaseOf(s, t) == AtAddress(ip, email) ==>
              PhaseOf(Apply(ipL, userL, s, AskIp(t, time)), t)
                == if Admits(ipL, s.ips, t, time) && email != "" then AtIdentity(ip, email) else NoRequest
    ensures PhaseOf(s, t) == AtIdentity(ip, email) && Limiters.PcOf(s.users.limiters, t).Idle? ==>
              Enabled(s, UserMap(t, Limiters.Call(email)))
    ensures Enabled(s, AskUser(t, time)) ==> PhaseOf(Apply(ipL, userL, s, AskUser(t, time)), t).NoRequest?
  {
    hide Admits, Layer.Apply;
  }

  // In every interleaving one identity gets through at most (k + 1) * burst + rate * elapsed times,
  // k being the cleanups of its layer, whatever mix of addresses its requests come from and whatever
  // the address layer does; only the admissions of dropped limiters come on top.
  lemma StackedUserBound(ipL: Limits, userL: Limits, s: State, steps: seq<Step>, email: string)
    requires userL.rate >= 0.0 && email != "" && Init(s) && IsRun(ipL, userL, s, steps)
    ensures var n := Reached(ipL, userL, s, steps);
            && Layer.IsRun(userL, s.users, UserSteps(steps))
            && PassedAs(n.passed, email) as real
              <= Allowance(userL, n.users.limiters.epoch + 1, n.users.now - s.users.now)
                 + Stale(userL, s.users, UserSteps(steps), email) as real
  {
    hide Allowance, Stale, IsRun, Reached, Layer.IsRun, Layer.Reached, PassedAs;
    InitInv(s);
    RunKeepsInv(ipL, userL, s, steps);
    LayersRun(ipL, userL, s, steps);
    ExcessIsStale(userL, s.users, UserSteps(steps), email);
    assert CountsInv(Reached(ipL, userL, s, steps), email);
  }

  // The same for the requests of one address, with or without an identity.
  lemma StackedAddressBound(ipL: Limits, userL: Limits, s: State, steps: seq<Step>, ip: string)
    requires ipL.rate >= 0.0 && Init(s) && IsRun(ipL, userL, s, steps)
    ensures var n := Reached(ipL, userL, s, steps);
            && Layer.IsRun(ipL, s.ips, IpSteps(steps))
            && PassedFrom(n.passed, ip) as real
              <= Allowance(ipL, n.ips.limiters.epoch + 1, n.ips.now - s.ips.now)
                 + Stale(ipL, s.ips, IpSteps(steps), ip) as real
  {
    hide Allowance, Stale, IsRun, Reached, Layer.IsRun, Layer.Reached, PassedFrom;
    InitInv(s);
    RunKeepsInv(ipL, userL, s, steps);
    LayersRun(ipL, userL, s, steps);
    ExcessIsStale(ipL, s.ips, IpSteps(steps), ip);
    assert CountsInv(Reached(ipL, userL, s, steps), ip);
  }
}
