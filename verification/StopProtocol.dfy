/**
 * The cleanup goroutine of the rate limiters and the idempotent `Stop`, under any interleaving of
 * ticks and any number of callers.
 */
module StopProtocol {
  const MAPS := 6 // auth, token, mcp and their per-user counterparts

  datatype Goroutine = Selecting | Cleaning(index: nat) | Exiting | Gone

  datatype Once = NotRun | Running(caller: nat) | Ran

  datatype Caller = Outside | AtOnce | ClosingDone | AwaitingExit | Returned

  datatype State = State(goroutine: Goroutine, tickPending: bool, once: Once, doneCloses: nat,
                         cleanupDone: bool, callers: map<nat, Caller>, resets: nat)

  datatype Step =
    | Tick
    | TakeTick | ResetMap | SeeDone | Exit          // the goroutine
    | CallStop(t: nat) | EnterOnce(t: nat) | CloseDone(t: nat) | SeeExit(t: nat) // a caller of Stop

  function CallerOf(s: State, t: nat): Caller {
    if t in s.callers then s.callers[t] else Outside
  }

  predicate Init(s: State) {
    s == State(Selecting, false, NotRun, 0, false, map[], 0)
  }

  predicate Enabled(s: State, step: Step) {
    match step
    case Tick => true
    case TakeTick => s.goroutine.Selecting? && s.tickPending
    case ResetMap => s.goroutine.Cleaning?
    case SeeDone => s.goroutine.Selecting? && s.doneCloses > 0
    case Exit => s.goroutine.Exiting?
    case CallStop(t) => CallerOf(s, t).Outside? || CallerOf(s, t).Returned?
    case EnterOnce(t) => CallerOf(s, t).AtOnce? && !s.once.Running?   // a second caller blocks until the first is done
    case CloseDone(t) => CallerOf(s, t).ClosingDone?
    case SeeExit(t) => CallerOf(s, t).AwaitingExit? && s.cleanupDone
  }

  function Goto(s: State, t: nat, c: Caller): State {
    s.(callers := s.callers[t := c])
  }

  function Apply(s: State, step: Step): State
    requires Enabled(s, step)
  {
    match step
    case Tick => s.(tickPending := true)
    case TakeTick => s.(tickPending := false, goroutine := Cleaning(0))
    case ResetMap =>
      s.(resets := s.resets + 1,
         goroutine := if s.goroutine.index + 1 < MAPS then Cleaning(s.goroutine.index + 1) else Selecting)
    case SeeDone => s.(goroutine := Exiting)
    case Exit => s.(goroutine := Gone, cleanupDone := true)
    case CallStop(t) => Goto(s, t, AtOnce)
    case EnterOnce(t) =>
      if s.once.NotRun? then Goto(s.(once := Running(t)), t, ClosingDone) else Goto(s, t, AwaitingExit)
    case CloseDone(t) => Goto(s.(doneCloses := s.doneCloses + 1, once := Ran), t, AwaitingExit)
    case SeeExit(t) => Goto(s, t, Returned)
  }

  predicate IsRun(s: State, steps: seq<Step>)
    decreases |steps|
  {
    steps == [] || (Enabled(s, steps[0]) && IsRun(Apply(s, steps[0]), steps[1..]))
  }

  function Reached(s: State, steps: seq<Step>): State
    requires IsRun(s, steps)
    decreases |steps|
  {
    if steps == [] then s else Reached(Apply(s, steps[0]), steps[1..])
  }

  ghost predicate Inv(s: State) {
    && s.doneCloses == (if s.once.Ran? then 1 else 0)
    && (forall t: nat :: CallerOf(s, t).ClosingDone? <==> s.once == Running(t))
    && (s.goroutine.Exiting? || s.goroutine.Gone? ==> s.doneCloses == 1)
    && (s.cleanupDone <==> s.goroutine.Gone?)
    && (forall t: nat :: CallerOf(s, t).Returned? ==> s.cleanupDone)
  }

  lemma StepKeepsInv(s: State, step: Step)
    requires Inv(s) && Enabled(s, step)
    ensures Inv(Apply(s, step))
  {
  }

  lemma {:induction false} RunKeepsInv(s: State, steps: seq<Step>)
    requires Inv(s) && IsRun(s, steps)
    ensures Inv(Reached(s, steps))
    decreases |steps|
  {
    hide Apply, Enabled, Inv;
    if steps != [] {
      StepKeepsInv(s, steps[0]);
      RunKeepsInv(Apply(s, steps[0]), steps[1..]);
    }
  }

  lemma {:induction false} GoneStaysGone(s: State, steps: seq<Step>)
    requires IsRun(s, steps) && s.goroutine.Gone?
    ensures Reached(s, steps).goroutine.Gone? && Reached(s, steps).resets == s.resets
    decreases |steps|
  {
    if steps != [] { GoneStaysGone(Apply(s, steps[0]), steps[1..]); }
  }

  // In every run: the done channel is closed at most once; as soon as one Stop has returned it was
  // closed exactly once and the goroutine is gone; and whatever follows, no map is reset again.
  lemma StopIsFinal(s: State, steps: seq<Step>, later: seq<Step>, t: nat)
    requires Init(s) && IsRun(s, steps)
    requires IsRun(Reached(s, steps), later)
    ensures Reached(s, steps).doneCloses <= 1
    ensures CallerOf(Reached(s, steps), t).Returned? ==>
              && Reached(s, steps).doneCloses == 1
              && Reached(s, steps).goroutine.Gone?
              && Reached(Reached(s, steps), later).resets == Reached(s, steps).resets
  {
    RunKeepsInv(s, steps);
    if CallerOf(Reached(s, steps), t).Returned? {
      GoneStaysGone(Reached(s, steps), later);
    }
  }

  // A sweep is never cut short: resets come in full rounds of six between selections.
  lemma {:induction false} SweepsAreWhole(s: State, steps: seq<Step>)
    requires Init(s) && IsRun(s, steps)
    ensures var n := Reached(s, steps);
            if n.goroutine.Cleaning? then n.goroutine.index < MAPS && n.resets % MAPS == n.goroutine.index
            else n.resets % MAPS == 0
  {
    SweepFrom(s, steps);
  }

  ghost predicate SweepInv(s: State) {
    if s.goroutine.Cleaning? then s.goroutine.index < MAPS && s.resets % MAPS == s.goroutine.index
    else s.resets % MAPS == 0
  }

  lemma {:induction false} SweepFrom(s: State, steps: seq<Step>)
    requires SweepInv(s) && IsRun(s, steps)
    ensures SweepInv(Reached(s, steps))
    decreases |steps|
  {
    if steps != [] { SweepFrom(Apply(s, steps[0]), steps[1..]); }
  }

  // ----- Ticks lead to sweeps -----

  function Takes(steps: seq<Step>): nat {
    if steps == [] then 0 else (if steps[0].TakeTick? then 1 else 0) + Takes(steps[1..])
  }

  // Maps still to be reset in the current sweep.
  function Due(s: State): int {
    if s.goroutine.Cleaning? then 6 - s.goroutine.index else 0
  }

  lemma {:induction false} SweepsFrom(s: State, steps: seq<Step>)
    requires SweepInv(s) && IsRun(s, steps)
    ensures Reached(s, steps).resets + Due(Reached(s, steps)) == s.resets + Due(s) + 6 * Takes(steps)
    decreases |steps|
  {
    if steps != [] { SweepsFrom(Apply(s, steps[0]), steps[1..]); }
  }

  // A tick was waiting from before, or one of the run has not been taken.
  ghost predicate Waiting(pending: bool, steps: seq<Step>) {
    (pending && NoTake(steps)) || exists i :: Untaken(steps, i)
  }

  lemma StepPending(s: State, step: Step)
    requires Enabled(s, step)
    ensures Apply(s, step).tickPending <==> step.Tick? || (s.tickPending && !step.TakeTick?)
  {
  }

  // The last tick of the run has not been taken.
  ghost predicate Untaken(steps: seq<Step>, i: int) {
    0 <= i < |steps| && steps[i].Tick? && forall j :: i < j < |steps| ==> !steps[j].TakeTick?
  }

  lemma UntakenTail(steps: seq<Step>, i: int)
    requires steps != []
    ensures i > 0 ==> (Untaken(steps, i) <==> Untaken(steps[1..], i - 1))
    ensures Untaken(steps, 0) <==> steps[0].Tick? && NoTake(steps[1..])
    ensures NoTake(steps) <==> !steps[0].TakeTick? && NoTake(steps[1..])
  {
    assert forall j :: 1 <= j < |steps| ==> steps[j] == steps[1..][j - 1];
  }

  ghost predicate NoTake(steps: seq<Step>) {
    forall j :: 0 <= j < |steps| ==> !steps[j].TakeTick?
  }

  lemma WaitingAfter(pending: bool, steps: seq<Step>)
    requires steps != []
    ensures var now := steps[0].Tick? || (pending && !steps[0].TakeTick?);
            Waiting(pending, steps) <==> Waiting(now, steps[1..])
  {
    hide Untaken, NoTake;
    UntakenTail(steps, 0);
    if i :| Untaken(steps, i) {
      UntakenTail(steps, i);
      UntakenFrom(steps, i);
    }
    if i :| Untaken(steps[1..], i) {
      UntakenTail(steps, i + 1);
      UntakenFrom(steps[1..], i);
    }
  }

  lemma UntakenFrom(steps: seq<Step>, i: int)
    requires Untaken(steps, i)
    ensures i >= 0
  {
  }

  lemma {:induction false} PendingFrom(s: State, steps: seq<Step>)
    requires IsRun(s, steps)
    ensures Reached(s, steps).tickPending <==> Waiting(s.tickPending, steps)
    decreases |steps|
  {
    hide Apply, Enabled, Waiting;
    if steps == [] {
      NoSteps(s.tickPending);
    } else {
      StepPending(s, steps[0]);
      WaitingAfter(s.tickPending, steps);
      PendingFrom(Apply(s, steps[0]), steps[1..]);
    }
  }

  lemma NoSteps(pending: bool)
    ensures Waiting(pending, []) <==> pending
  {
  }

  // In every run each tick taken resets all six maps, but for those still due in the current sweep;
  // and a tick that came after the last one was taken is there to be taken.
  lemma TicksSweep(s: State, steps: seq<Step>)
    requires Init(s) && IsRun(s, steps)
    ensures var n := Reached(s, steps);
            && n.resets == 6 * Takes(steps) - Due(n) && 0 <= Due(n) <= 6
            && (Due(n) == 0 <==> !n.goroutine.Cleaning?)
            && (n.goroutine.Selecting? ==> (Enabled(n, TakeTick) <==> Waiting(false, steps)))
  {
    SweepsFrom(s, steps);
    SweepFrom(s, steps);
    hide IsRun, Reached, Waiting;
    PendingFrom(s, steps);
  }

  // ----- Stop gets through -----

  // Steps of the goroutine until it is gone, if it takes no more ticks.
  function Distance(g: Goroutine): int {
    match g
    case Cleaning(i) => 8 - i
    case Selecting => 2
    case Exiting => 1
    case Gone => 0
  }

  // Once a caller waits for the exit, the goroutine always has a step that brings it closer to being
  // gone, and when it is gone the caller may return.
  lemma StopGetsThrough(s: State, steps: seq<Step>, t: nat)
    requires Init(s) && IsRun(s, steps) && CallerOf(Reached(s, steps), t).AwaitingExit?
    ensures var n := Reached(s, steps);
            if n.goroutine.Gone? then Enabled(n, SeeExit(t)) && CallerOf(Apply(n, SeeExit(t)), t).Returned?
            else exists step :: Enabled(n, step) && 0 <= Distance(Apply(n, step).goroutine) < Distance(n.goroutine)
  {
    RunKeepsInv(s, steps);
    SweepFrom(s, steps);
    WaitersFollowClose(s, steps, t);
    var n := Reached(s, steps);
    var step := match n.goroutine
      case Cleaning(_) => ResetMap
      case Selecting => SeeDone
      case _ => Exit;
    if !n.goroutine.Gone? {
      assert Enabled(n, step);
    }
  }

  // Whoever waits for the exit does so after the channel was closed.
  lemma {:induction false} WaitersFollowClose(s: State, steps: seq<Step>, t: nat)
    requires Inv(s) && IsRun(s, steps) && (CallerOf(s, t).AwaitingExit? ==> s.once.Ran?)
    ensures CallerOf(Reached(s, steps), t).AwaitingExit? ==> Reached(s, steps).once.Ran?
    decreases |steps|
  {
    if steps != [] {
      StepKeepsInv(s, steps[0]);
      WaitersFollowClose(Apply(s, steps[0]), steps[1..], t);
    }
  }

  // A caller of Stop that is not waiting for another always has its next step.
  lemma CallersGoOn(s: State, t: nat)
    requires Inv(s)
    ensures match CallerOf(s, t)
            case Outside => Enabled(s, CallStop(t)) && CallerOf(Apply(s, CallStop(t)), t).AtOnce?
            case AtOnce =>
              !s.once.Running? ==>
                && Enabled(s, EnterOnce(t))
                && CallerOf(Apply(s, EnterOnce(t)), t) == if s.once.NotRun? then ClosingDone else AwaitingExit
            case ClosingDone =>
              Enabled(s, CloseDone(t)) && Apply(s, CloseDone(t)).doneCloses == 1
              && CallerOf(Apply(s, CloseDone(t)), t).AwaitingExit?
            case _ => true
  {
    assert CallerOf(s, t).ClosingDone? <==> s.once == Running(t);
  }
}
