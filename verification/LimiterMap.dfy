/**
 * `getLimiter` and `cleanup` of a rate-limiter map under any interleaving of any number of threads.
 * The read-write lock, the lookup, the re-check, the allocation and the insertion are separate
 * steps.  The IP and the user limiter share this code.
 */
module LimiterMap {
  import opened Wrappers

  // Which limiter a call settled on, and in which cleanup epoch.
  datatype Decision = Decision(key: string, id: nat, epoch: nat)

  datatype Pc =
    | Idle
    | WantsRead(key: string)
    | ReadLocked(key: string)
    | ReadHit(key: string, d: Decision)  // found under the read lock
    | ReadMiss(key: string)
    | WantsWrite(key: string)
    | WriteLocked(key: string)
    | CheckedMissing(key: string) // still absent under the write lock
    | Made(key: string, id: nat)  // rate.NewLimiter has run
    | Leaving(key: string, d: Decision)  // about to release the write lock
    | Returned(key: string, d: Decision)
    | CleanupLocked
    | CleanupLeaving

  datatype State = State(
    readers: set<nat>,
    writer: Option<nat>,
    limiters: map<string, nat>,
    nextId: nat,
    epoch: nat,                   // cleanups so far
    pcs: map<nat, Pc>,
    log: seq<Decision>,           // every decision taken, in order
    born: map<nat, (string, nat)>) // for each limiter ever inserted: its key and epoch

  datatype Action = Call(key: string) | RLock | Lookup | RUnlock | Lock | Recheck | Make | Insert | Unlock | Return
                  | CleanupLock | CleanupReset | CleanupUnlock

  function PcOf(s: State, t: nat): Pc {
    if t in s.pcs then s.pcs[t] else Idle
  }

  predicate HoldsRead(pc: Pc) {
    pc.ReadLocked? || pc.ReadHit? || pc.ReadMiss?
  }

  predicate HoldsWrite(pc: Pc) {
    pc.WriteLocked? || pc.CheckedMissing? || pc.Made? || pc.Leaving? || pc.CleanupLocked? || pc.CleanupLeaving?
  }

  predicate Init(s: State) {
    s == State({}, None, map[], 0, 0, map[], [], map[])
  }

  predicate Enabled(s: State, t: nat, a: Action) {
    var pc := PcOf(s, t);
    match a
    case Call(_) => pc.Idle?
    case RLock => pc.WantsRead? && s.writer.None?
    case Lookup => pc.ReadLocked?
    case RUnlock => pc.ReadHit? || pc.ReadMiss?
    case Lock => pc.WantsWrite? && s.writer.None? && s.readers == {}
    case Recheck => pc.WriteLocked?
    case Make => pc.CheckedMissing?
    case Insert => pc.Made?
    case Unlock => pc.Leaving?
    case Return => pc.Returned?
    case CleanupLock => pc.Idle? && s.writer.None? && s.readers == {}
    case CleanupReset => pc.CleanupLocked?
    case CleanupUnlock => pc.CleanupLeaving?
  }

  function Goto(s: State, t: nat, pc: Pc): State {
    s.(pcs := s.pcs[t := pc])
  }

  function Apply(s: State, t: nat, a: Action): State
    requires Enabled(s, t, a)
  {
    var pc := PcOf(s, t);
    match a
    case Call(key) => Goto(s, t, WantsRead(key))
    case RLock => Goto(s.(readers := s.readers + {t}), t, ReadLocked(pc.key))
    case Lookup =>
      if pc.key in s.limiters then
        var d := Decision(pc.key, s.limiters[pc.key], s.epoch);
        Goto(s.(log := s.log + [d]), t, ReadHit(pc.key, d))
      else Goto(s, t, ReadMiss(pc.key))
    case RUnlock =>
      Goto(s.(readers := s.readers - {t}), t, if pc.ReadHit? then Returned(pc.key, pc.d) else WantsWrite(pc.key))
    case Lock => Goto(s.(writer := Some(t)), t, WriteLocked(pc.key))
    case Recheck =>
      if pc.key in s.limiters then
        var d := Decision(pc.key, s.limiters[pc.key], s.epoch);
        Goto(s.(log := s.log + [d]), t, Leaving(pc.key, d))
      else Goto(s, t, CheckedMissing(pc.key))
    case Make => Goto(s.(nextId := s.nextId + 1), t, Made(pc.key, s.nextId))
    case Insert =>
      var d := Decision(pc.key, pc.id, s.epoch);
      Goto(s.(limiters := s.limiters[pc.key := pc.id], born := s.born[pc.id := (pc.key, s.epoch)], log := s.log + [d]),
           t, Leaving(pc.key, d))
    case Unlock => Goto(s.(writer := None), t, Returned(pc.key, pc.d))
    case Return => Goto(s, t, Idle)
    case CleanupLock => Goto(s.(writer := Some(t)), t, CleanupLocked)
    case CleanupReset => Goto(s.(limiters := map[], epoch := s.epoch + 1), t, CleanupLeaving)
    case CleanupUnlock => Goto(s.(writer := None), t, Idle)
  }

  // One writer and no reader, or any number of readers; exactly the threads inside hold the lock.
  ghost predicate LockInv(s: State) {
    && (s.writer.Some? ==> s.readers == {})
    && (forall t: nat :: HoldsRead(PcOf(s, t)) <==> t in s.readers)
    && (forall t: nat :: HoldsWrite(PcOf(s, t)) <==> s.writer == Some(t))
  }

  ghost predicate MapInv(s: State) {
    && (forall k :: k in s.limiters ==> s.limiters[k] in s.born && s.born[s.limiters[k]] == (k, s.epoch))
    && (forall id :: id in s.born ==> id < s.nextId && s.born[id].1 <= s.epoch)
    && (forall id :: id in s.born && s.born[id].1 == s.epoch ==>
          s.born[id].0 in s.limiters && s.limiters[s.born[id].0] == id)
    && (forall i, j :: i in s.born && j in s.born && s.born[i] == s.born[j] ==> i == j)
  }

  ghost predicate Recorded(s: State, d: Decision) {
    d in s.log && d.id in s.born && s.born[d.id] == (d.key, d.epoch)
  }

  ghost predicate PcInv(s: State, pc: Pc) {
    match pc
    case ReadHit(key, d) => d.key == key && Recorded(s, d)
    case CheckedMissing(key) => key !in s.limiters
    case Made(key, id) => key !in s.limiters && id < s.nextId && id !in s.born
    case Leaving(key, d) => d.key == key && Recorded(s, d)
    case Returned(key, d) => d.key == key && Recorded(s, d)
    case _ => true
  }

  ghost predicate Inv(s: State) {
    && LockInv(s)
    && MapInv(s)
    && (forall d :: d in s.log ==> Recorded(s, d))
    && (forall t: nat :: PcInv(s, PcOf(s, t)))
  }

  lemma StepKeepsLockInv(s: State, t: nat, a: Action)
    requires LockInv(s) && Enabled(s, t, a)
    ensures LockInv(Apply(s, t, a))
  {
    var n := Apply(s, t, a);
    forall u: nat ensures HoldsRead(PcOf(n, u)) <==> u in n.readers
                  ensures HoldsWrite(PcOf(n, u)) <==> n.writer == Some(u)
    {
      assert u != t ==> PcOf(n, u) == PcOf(s, u);
      assert HoldsRead(PcOf(s, u)) <==> u in s.readers;
      assert HoldsWrite(PcOf(s, u)) <==> s.writer == Some(u);
      assert HoldsRead(PcOf(s, t)) <==> t in s.readers;
      assert HoldsWrite(PcOf(s, t)) <==> s.writer == Some(t);
    }
  }

  lemma StepKeepsMapInv(s: State, t: nat, a: Action)
    requires MapInv(s) && PcInv(s, PcOf(s, t)) && Enabled(s, t, a)
    ensures MapInv(Apply(s, t, a))
  {
  }

  // Decisions stay recorded, and limiters stay known, for ever.
  lemma StepKeepsRecords(s: State, t: nat, a: Action, d: Decision)
    requires MapInv(s) && PcInv(s, PcOf(s, t)) && Enabled(s, t, a)
    ensures Recorded(s, d) ==> Recorded(Apply(s, t, a), d)
    ensures d in Apply(s, t, a).log && d !in s.log ==> Recorded(Apply(s, t, a), d)
  {
  }

  // Another thread's step cannot disturb what a thread relies on at its own program counter: while
  // somebody is between the re-check and the insertion, nobody else can touch the map.
  lemma StepKeepsOther(s: State, t: nat, a: Action, u: nat)
    requires Inv(s) && Enabled(s, t, a) && u != t
    ensures PcInv(Apply(s, t, a), PcOf(s, u))
  {
    assert PcInv(s, PcOf(s, u)) && PcInv(s, PcOf(s, t));
    assert HoldsWrite(PcOf(s, u)) <==> s.writer == Some(u);
    assert HoldsWrite(PcOf(s, t)) <==> s.writer == Some(t);
    match PcOf(s, u) {
      case ReadHit(_, d) => StepKeepsRecords(s, t, a, d);
      case Leaving(_, d) => StepKeepsRecords(s, t, a, d);
      case Returned(_, d) => StepKeepsRecords(s, t, a, d);
      case _ =>
    }
  }

  lemma StepKeepsOwn(s: State, t: nat, a: Action)
    requires Inv(s) && Enabled(s, t, a)
    ensures PcInv(Apply(s, t, a), PcOf(Apply(s, t, a), t))
  {
    assert PcInv(s, PcOf(s, t));
  }

  lemma StepKeepsInv(s: State, t: nat, a: Action)
    requires Inv(s) && Enabled(s, t, a)
    ensures Inv(Apply(s, t, a))
  {
    var n := Apply(s, t, a);
    assert PcInv(s, PcOf(s, t));
    StepKeepsLockInv(s, t, a);
    StepKeepsMapInv(s, t, a);
    hide Apply, MapInv, LockInv, PcInv, Recorded;
    forall d | d in n.log ensures Recorded(n, d) {
      StepKeepsRecords(s, t, a, d);
    }
    StepKeepsOwn(s, t, a);
    forall u: nat ensures PcInv(n, PcOf(n, u)) {
      if u != t {
        OthersPcKept(s, t, a, u);
        StepKeepsOther(s, t, a, u);
      }
    }
  }

  lemma OthersPcKept(s: State, t: nat, a: Action, u: nat)
    requires Enabled(s, t, a) && u != t
    ensures PcOf(Apply(s, t, a), u) == PcOf(s, u)
  {
  }

  predicate IsRun(s: State, steps: seq<(nat, Action)>)
    decreases |steps|
  {
    steps == [] ||
    (Enabled(s, steps[0].0, steps[0].1) && IsRun(Apply(s, steps[0].0, steps[0].1), steps[1..]))
  }

  function Reached(s: State, steps: seq<(nat, Action)>): State
    requires IsRun(s, steps)
    decreases |steps|
  {
    if steps == [] then s else Reached(Apply(s, steps[0].0, steps[0].1), steps[1..])
  }

  lemma {:induction false} RunKeepsInv(s: State, steps: seq<(nat, Action)>)
    requires Inv(s) && IsRun(s, steps)
    ensures Inv(Reached(s, steps))
    decreases |steps|
  {
    hide Apply, Enabled, Inv;
    if steps != [] {
      StepKeepsInv(s, steps[0].0, steps[0].1);
      RunKeepsInv(Apply(s, steps[0].0, steps[0].1), steps[1..]);
    }
  }

  // In every interleaving, two calls settle on the same limiter object exactly when they ask for
  // the same key and decide in the same cleanup epoch.
  lemma OneLimiterPerKeyAndEpoch(s: State, steps: seq<(nat, Action)>, a: Decision, b: Decision)
    requires Init(s) && IsRun(s, steps)
    requires a in Reached(s, steps).log && b in Reached(s, steps).log
    ensures a.id == b.id <==> a.key == b.key && a.epoch == b.epoch
  {
    RunKeepsInv(s, steps);
    var n := Reached(s, steps);
    assert Recorded(n, a) && Recorded(n, b);
  }

  // What a finished call hands back is one of those decisions, for the key it asked for, so any two
  // results agree likewise.
  lemma ReturnedAreDecisions(s: State, steps: seq<(nat, Action)>, t: nat)
    requires Init(s) && IsRun(s, steps)
    requires PcOf(Reached(s, steps), t).Returned?
    ensures var pc := PcOf(Reached(s, steps), t); pc.d in Reached(s, steps).log && pc.d.key == pc.key
  {
    RunKeepsInv(s, steps);
    assert PcInv(Reached(s, steps), PcOf(Reached(s, steps), t));
  }

  // Mutual exclusion itself: while a thread is inside the write section nobody else is inside any.
  lemma WriterExcludesAll(s: State, steps: seq<(nat, Action)>, t: nat, u: nat)
    requires Init(s) && IsRun(s, steps) && t != u
    requires HoldsWrite(PcOf(Reached(s, steps), t))
    ensures !HoldsWrite(PcOf(Reached(s, steps), u)) && !HoldsRead(PcOf(Reached(s, steps), u))
  {
    RunKeepsInv(s, steps);
    var n := Reached(s, steps);
    assert HoldsWrite(PcOf(n, t)) <==> n.writer == Some(t);
    assert HoldsWrite(PcOf(n, u)) <==> n.writer == Some(u);
    assert HoldsRead(PcOf(n, u)) <==> u in n.readers;
  }
}
