/**
 * `Shutdown` under any interleaving: any number of callers (the success-defer, the error path, the
 * signal handler), appenders, and stops that succeed, fail or panic.  The caller that does the work
 * has an explicit call stack; a panic unwinds it frame by frame, running what each frame deferred.
 */
module ShutdownProtocol {
  import opened Wrappers
  import opened Lifecycle

  datatype Once = NotRun | Running(caller: nat) | Ran

  // once.Do, the closure it runs, runOne with its deferred recover, and the stop function itself.
  datatype Frame =
    | Guarded
    | Teardown(taken: bool, next: nat)
    | RunOne(s: NamedStop, called: bool)
    | Body(s: NamedStop)

  // Outermost frame first.
  datatype Caller = Outside | AtOnce | Inside(stack: seq<Frame>, panicking: bool) | Returned | Crashed

  datatype State = State(
    stops: seq<NamedStop>,
    once: Once,
    snapshot: seq<NamedStop>,
    started: seq<NamedStop>,      // stops entered, in order
    finished: seq<NamedStop>,     // runOne calls that have come back
    log: seq<LogEntry>,
    hasLogger: bool,
    callers: map<nat, Caller>)

  datatype Action =
    | Call
    | EnterOnce
    | TakeSnapshot
    | CallRunOne
    | CallStop
    | StopReturns                 // with nil or an error
    | StopPanics
    | RunOneReturns
    | LoopEnds
    | OnceReturns
    | Unwind                      // a panicking caller leaves its innermost frame

  datatype Step = AppendStop(s: NamedStop) | By(t: nat, a: Action)

  function CallerOf(s: State, t: nat): Caller {
    if t in s.callers then s.callers[t] else Outside
  }

  function Registered(stops: seq<NamedStop>, hasLogger: bool): State {
    State(stops, NotRun, [], [], [], [], hasLogger, map[])
  }

  // What a caller can do from its innermost frame while its control flow is normal.
  predicate FrameEnabled(s: State, a: Action, top: Frame) {
    match a
    case TakeSnapshot => top.Teardown? && !top.taken
    case CallRunOne => top.Teardown? && top.taken && top.next < |s.snapshot|
    case LoopEnds => top.Teardown? && top.taken && top.next >= |s.snapshot|
    case CallStop => top.RunOne? && !top.called
    case RunOneReturns => top.RunOne? && top.called
    case StopReturns => top.Body? && !top.s.fn.outcome.Panics?
    case StopPanics => top.Body? && top.s.fn.outcome.Panics?
    case OnceReturns => top.Guarded?
    case _ => false
  }

  predicate Enabled(s: State, step: Step) {
    match step
    case AppendStop(_) => true
    case By(t, a) =>
      match CallerOf(s, t)
      case Outside => a.Call?
      case Returned => a.Call?
      case AtOnce => a.EnterOnce? && !s.once.Running?
      case Inside(stack, panicking) =>
        if panicking then a.Unwind? else stack != [] && FrameEnabled(s, a, stack[|stack| - 1])
      case Crashed => false
  }

  function Goto(s: State, t: nat, c: Caller): State {
    s.(callers := s.callers[t := c])
  }

  // runOne comes back, having logged a line if there is a logger.
  function Finish(s: State, stop: NamedStop, lines: seq<LogEntry>): State {
    s.(finished := s.finished + [stop], log := s.log + if s.hasLogger then lines else [])
  }

  function ApplyFrame(s: State, t: nat, a: Action, outer: seq<Frame>, top: Frame): State
    requires FrameEnabled(s, a, top)
  {
    match a
    case TakeSnapshot => Goto(s.(snapshot := s.stops), t, Inside(outer + [Teardown(true, 0)], false))
    case CallRunOne =>
      Goto(s, t, Inside(outer + [Teardown(true, top.next + 1), RunOne(s.snapshot[top.next], false)], false))
    case LoopEnds => Goto(s, t, Inside(outer, false))
    case CallStop =>
      Goto(s.(started := s.started + [top.s]), t, Inside(outer + [RunOne(top.s, true), Body(top.s)], false))
    case StopReturns => Goto(s, t, Inside(outer, false))
    case StopPanics => Goto(s, t, Inside(outer + [top], true))
    case RunOneReturns =>
      Goto(Finish(s, top.s, if top.s.fn.outcome.Fails? then [StopFailed(top.s.name)] else []), t, Inside(outer, false))
    case OnceReturns => Goto(s.(once := Ran), t, Returned)
  }

  // A panicking caller leaves its innermost frame after that frame's deferred calls: runOne's
  // recover, which comes before its test for a logger, and the mark that once.Do leaves behind.
  // Without a frame left the process dies.
  function ApplyUnwind(s: State, t: nat, stack: seq<Frame>): State {
    if stack == [] then Goto(s, t, Crashed)
    else
      var outer := stack[..|stack| - 1];
      match stack[|stack| - 1]
      case Body(_) => Goto(s, t, Inside(outer, true))
      case RunOne(stop, _) => Goto(Finish(s, stop, [StopPanicked(stop.name)]), t, Inside(outer, false))
      case Teardown(_, _) => Goto(s, t, Inside(outer, true))
      case Guarded => Goto(s.(once := Ran), t, Inside(outer, true))
  }

  function Apply(s: State, step: Step): State
    requires Enabled(s, step)
  {
    match step
    case AppendStop(stop) => s.(stops := s.stops + [stop])
    case By(t, a) =>
      match CallerOf(s, t)
      case AtOnce =>
        if s.once.NotRun? then Goto(s.(once := Running(t)), t, Inside([Guarded, Teardown(false, 0)], false))
        else Goto(s, t, Returned)
      case Inside(stack, panicking) =>
        if panicking then ApplyUnwind(s, t, stack)
        else ApplyFrame(s, t, a, stack[..|stack| - 1], stack[|stack| - 1])
      case _ => Goto(s, t, AtOnce)
  }

  predicate IsRun(s: State, steps: seq<Step>)
    decreases |steps|
  {
    steps == [] || (Enabled(s, steps[0]) && IsRun(Apply(s, steps[0]), steps[1..]))
  }

  function Reached(s: State, steps: seq<Step>): State
    requires IsRun(s, steps)
    decreases |steps|
  {
    if steps == [] then s else Reached(Apply(s, steps[0]), steps[1..])
  }

  // ----- The invariant -----

  // Where the working caller can be, and how far the chain then is.  A panicking caller still has
  // runOne on its stack.
  ghost predicate StackInv(snapshot: seq<NamedStop>, started: seq<NamedStop>, finished: seq<NamedStop>,
                           stack: seq<Frame>, panicking: bool)
  {
    var n := |finished|;
    || (stack == [Guarded, Teardown(false, 0)] && !panicking && snapshot == [] && started == finished == [])
    || (stack == [Guarded, Teardown(true, n)] && !panicking && started == finished)
    || (n < |snapshot| && InRunOne(snapshot[n], started, finished, stack, panicking))
    || (stack == [Guarded] && !panicking && started == finished == snapshot)
  }

  // Before the stop is called, while it runs or unwinds, and after it.
  ghost predicate InRunOne(stop: NamedStop, started: seq<NamedStop>, finished: seq<NamedStop>,
                           stack: seq<Frame>, panicking: bool)
  {
    var loop := Teardown(true, |finished| + 1);
    || (stack == [Guarded, loop, RunOne(stop, false)] && !panicking && started == finished)
    || (stack == [Guarded, loop, RunOne(stop, true), Body(stop)] && started == finished + [stop]
        && (panicking ==> stop.fn.outcome.Panics?))
    || (stack == [Guarded, loop, RunOne(stop, true)] && started == finished + [stop]
        && (panicking <==> stop.fn.outcome.Panics?))
  }

  ghost predicate CallerInv(s: State, t: nat, c: Caller) {
    && (c.Inside? <==> s.once == Running(t))
    && (c.Inside? ==> StackInv(s.snapshot, s.started, s.finished, c.stack, c.panicking))
    && (c.Returned? ==> s.once.Ran?)
    && !c.Crashed?
  }

  ghost predicate SharedInv(s: State) {
    && s.finished <= s.started <= s.snapshot <= s.stops
    && s.log == (if s.hasLogger then Complaints(s.finished) else [])
    && (s.once.NotRun? ==> s.snapshot == [])
    && (s.once.Ran? ==> s.finished == s.snapshot)
  }

  ghost predicate Inv(s: State) {
    SharedInv(s) && forall t: nat :: CallerInv(s, t, CallerOf(s, t))
  }

  ghost predicate FrameKept(n: State, t: nat) {
    SharedInv(n) && CallerInv(n, t, CallerOf(n, t))
  }

  lemma LoopStep(s: State, t: nat, a: Action, outer: seq<Frame>, top: Frame)
    requires SharedInv(s) && s.once == Running(t) && StackInv(s.snapshot, s.started, s.finished, outer + [top], false)
    requires top.Teardown? && FrameEnabled(s, a, top)
    ensures FrameKept(ApplyFrame(s, t, a, outer, top), t)
  {
    assert |outer + [top]| == |outer| + 1 && (outer + [top])[|outer|] == top && (outer + [top])[..|outer|] == outer;
  }

  lemma CallStep(s: State, t: nat, outer: seq<Frame>, top: Frame)
    requires SharedInv(s) && s.once == Running(t)
    requires StackInv(s.snapshot, s.started, s.finished, outer + [top], false)
    requires top.RunOne? && !top.called
    ensures FrameKept(ApplyFrame(s, t, CallStop, outer, top), t)
  {
    hide Complaints;
    assert |outer + [top]| == |outer| + 1 && (outer + [top])[|outer|] == top && (outer + [top])[..|outer|] == outer;
    assert outer == [Guarded, Teardown(true, |s.finished| + 1)];
  }

  lemma ReturnStep(s: State, t: nat, outer: seq<Frame>, top: Frame)
    requires SharedInv(s) && s.once == Running(t)
    requires StackInv(s.snapshot, s.started, s.finished, outer + [top], false)
    requires top.RunOne? && top.called
    ensures FrameKept(ApplyFrame(s, t, RunOneReturns, outer, top), t)
  {
    hide Complaints;
    assert |outer + [top]| == |outer| + 1 && (outer + [top])[|outer|] == top && (outer + [top])[..|outer|] == outer;
    assert outer == [Guarded, Teardown(true, |s.finished| + 1)];
    FinishedOne(s, top.s);
  }

  lemma BodyStep(s: State, t: nat, a: Action, outer: seq<Frame>, top: Frame)
    requires SharedInv(s) && s.once == Running(t) && StackInv(s.snapshot, s.started, s.finished, outer + [top], false)
    requires top.Body? && FrameEnabled(s, a, top)
    ensures FrameKept(ApplyFrame(s, t, a, outer, top), t)
  {
    assert |outer + [top]| == |outer| + 1 && (outer + [top])[|outer|] == top && (outer + [top])[..|outer|] == outer;
  }

  lemma FrameStep(s: State, t: nat, a: Action, stack: seq<Frame>)
    requires SharedInv(s) && s.once == Running(t) && StackInv(s.snapshot, s.started, s.finished, stack, false)
    requires stack != [] && FrameEnabled(s, a, stack[|stack| - 1])
    ensures FrameKept(ApplyFrame(s, t, a, stack[..|stack| - 1], stack[|stack| - 1]), t)
  {
    var outer, top := stack[..|stack| - 1], stack[|stack| - 1];
    assert stack == outer + [top];
    hide StackInv, FrameKept;
    match top
    case Teardown(_, _) => LoopStep(s, t, a, outer, top);
    case RunOne(_, called) => if called { ReturnStep(s, t, outer, top); } else { CallStep(s, t, outer, top); }
    case Body(_) => BodyStep(s, t, a, outer, top);
    case Guarded => OnceStep(s, t, a, stack);
  }

  lemma OnceStep(s: State, t: nat, a: Action, stack: seq<Frame>)
    requires SharedInv(s) && s.once == Running(t) && StackInv(s.snapshot, s.started, s.finished, stack, false)
    requires stack != [] && stack[|stack| - 1].Guarded? && a.OnceReturns?
    ensures FrameKept(ApplyFrame(s, t, a, stack[..|stack| - 1], stack[|stack| - 1]), t)
  {
    assert stack == [Guarded];
  }

  lemma FinishedOne(s: State, stop: NamedStop)
    ensures Complaints(s.finished + [stop]) == Complaints(s.finished) + Complaints([stop])
    ensures Complaints([stop]) ==
              match stop.fn.outcome
              case Succeeds => []
              case Fails => [StopFailed(stop.name)]
              case Panics => [StopPanicked(stop.name)]
  {
    ComplaintsAppend(s.finished, stop);
    assert [stop][..0] == [];
  }

  // A panic stops at runOne.
  lemma UnwindStep(s: State, t: nat, stack: seq<Frame>)
    requires SharedInv(s) && s.once == Running(t) && StackInv(s.snapshot, s.started, s.finished, stack, true)
    ensures FrameKept(ApplyUnwind(s, t, stack), t)
  {
    hide Complaints;
    assert stack == stack[..|stack| - 1] + [stack[|stack| - 1]];
    FinishedOne(s, s.snapshot[|s.finished|]);
  }

  lemma OwnStep(s: State, t: nat, a: Action)
    requires Inv(s) && Enabled(s, By(t, a))
    ensures FrameKept(Apply(s, By(t, a)), t)
  {
    hide StackInv, FrameEnabled, ApplyFrame, ApplyUnwind, Complaints;
    var c := CallerOf(s, t);
    assert CallerInv(s, t, c);
    if c.Inside? && c.panicking {
      UnwindStep(s, t, c.stack);
    } else if c.Inside? {
      FrameStep(s, t, a, c.stack);
    } else if c.AtOnce? && s.once.NotRun? {
      EntersOnce(s, t);
    }
  }

  lemma EntersOnce(s: State, t: nat)
    requires SharedInv(s) && s.once.NotRun?
    ensures FrameKept(Goto(s.(once := Running(t)), t, Inside([Guarded, Teardown(false, 0)], false)), t)
  {
  }

  // Whatever t does, another caller stays where it is, and only the working caller is inside.
  lemma OtherCaller(s: State, t: nat, a: Action, u: nat)
    requires Inv(s) && Enabled(s, By(t, a)) && u != t
    ensures CallerInv(Apply(s, By(t, a)), u, CallerOf(Apply(s, By(t, a)), u))
  {
    hide StackInv, Complaints, FrameEnabled;
    assert CallerInv(s, t, CallerOf(s, t)) && CallerInv(s, u, CallerOf(s, u));
  }

  lemma StepKeepsInv(s: State, step: Step)
    requires Inv(s) && Enabled(s, step)
    ensures Inv(Apply(s, step))
  {
    hide Apply, Enabled, CallerInv, SharedInv;
    if step.By? {
      OwnStep(s, step.t, step.a);
      forall u: nat ensures CallerInv(Apply(s, step), u, CallerOf(Apply(s, step), u)) {
        if u != step.t {
          OtherCaller(s, step.t, step.a, u);
        }
      }
    } else {
      AppendKeepsInv(s, step.s);
    }
  }

  lemma AppendKeepsInv(s: State, stop: NamedStop)
    requires Inv(s)
    ensures Inv(Apply(s, AppendStop(stop)))
  {
    hide Complaints;
    var n := Apply(s, AppendStop(stop));
    forall u: nat ensures CallerInv(n, u, CallerOf(n, u)) {
      assert CallerInv(s, u, CallerOf(s, u));
    }
  }

  lemma {:induction false} RunKeepsInv(s: State, steps: seq<Step>)
    requires Inv(s) && IsRun(s, steps)
    ensures Inv(Reached(s, steps))
    decreases |steps|
  {
    hide Apply, Enabled, Inv;
    if steps != [] {
      StepKeepsInv(s, steps[0]);
      RunKeepsInv(Apply(s, steps[0]), steps[1..]);
    }
  }

  lemma StartInv(stops: seq<NamedStop>, hasLogger: bool)
    ensures Inv(Registered(stops, hasLogger))
  {
  }

  // ----- What holds in every run -----

  // No panic leaves runOne: no caller ever dies, and the caller that does the work, panicking or
  // not, always has a next step.
  lemma PanicsStayInRunOne(stops: seq<NamedStop>, hasLogger: bool, steps: seq<Step>, t: nat)
    requires IsRun(Registered(stops, hasLogger), steps)
    ensures var n := Reached(Registered(stops, hasLogger), steps);
            var c := CallerOf(n, t);
            && !c.Crashed?
            && (c.Inside? ==> exists a :: Enabled(n, By(t, a)))
            && (c.Inside? && c.panicking ==> exists i :: 0 <= i < |c.stack| && c.stack[i].RunOne?)
  {
    StartInv(stops, hasLogger);
    RunKeepsInv(Registered(stops, hasLogger), steps);
    var n := Reached(Registered(stops, hasLogger), steps);
    var c := CallerOf(n, t);
    assert CallerInv(n, t, c);
    if c.Inside? {
      WorkerCanMove(n, t, c.stack, c.panicking);
      if c.panicking {
        assert c.stack[2].RunOne?;
      }
    }
  }

  lemma WorkerCanMove(s: State, t: nat, stack: seq<Frame>, panicking: bool)
    requires CallerOf(s, t) == Inside(stack, panicking)
    requires StackInv(s.snapshot, s.started, s.finished, stack, panicking)
    ensures exists a :: Enabled(s, By(t, a))
  {
    var top := stack[|stack| - 1];
    var a :=
      if panicking then Unwind
      else
        match top
        case Guarded => OnceReturns
        case Teardown(taken, next) =>
          if !taken then TakeSnapshot else if next < |s.snapshot| then CallRunOne else LoopEnds
        case RunOne(_, called) => if called then RunOneReturns else CallStop
        case Body(stop) => if stop.fn.outcome.Panics? then StopPanics else StopReturns;
    assert Enabled(s, By(t, a));
  }

  // How many steps the working caller is from the end: six per stop still to run.
  function WorkLeft(s: State, c: Caller): int {
    if !c.Inside? || c.stack == [] then 0
    else
      match c.stack[|c.stack| - 1]
      case Guarded => 0
      case Teardown(taken, next) => if taken then 6 * (|s.snapshot| - next) + 1 else 6 * |s.stops| + 2
      case RunOne(_, called) => AfterThisStop(s, c) + if called then 2 else 5
      case Body(_) => AfterThisStop(s, c) + if c.panicking then 3 else 4
  }

  function AfterThisStop(s: State, c: Caller): int {
    if c.Inside? && |c.stack| >= 2 && c.stack[1].Teardown? then 6 * (|s.snapshot| - c.stack[1].next) else 0
  }

  // The caller has returned or is nearer to it.
  ghost predicate Nearer(n: State, t: nat, before: int) {
    var c := CallerOf(n, t);
    c.Returned? || (c.Inside? && 0 <= WorkLeft(n, c) < before)
  }

  lemma LoopWork(s: State, t: nat, a: Action, outer: seq<Frame>, top: Frame)
    requires SharedInv(s) && StackInv(s.snapshot, s.started, s.finished, outer + [top], false)
    requires top.Teardown? && FrameEnabled(s, a, top)
    ensures Nearer(ApplyFrame(s, t, a, outer, top), t, WorkLeft(s, Inside(outer + [top], false)))
  {
    hide Complaints;
    assert |outer + [top]| == |outer| + 1 && (outer + [top])[|outer|] == top && (outer + [top])[..|outer|] == outer;
    assert outer == [Guarded];
    assert top.taken ==> top.next == |s.finished|;
  }

  lemma StopWork(s: State, t: nat, a: Action, outer: seq<Frame>, top: Frame)
    requires SharedInv(s) && StackInv(s.snapshot, s.started, s.finished, outer + [top], false)
    requires (top.RunOne? || top.Body?) && FrameEnabled(s, a, top)
    ensures Nearer(ApplyFrame(s, t, a, outer, top), t, WorkLeft(s, Inside(outer + [top], false)))
  {
    hide Complaints;
    assert |outer + [top]| == |outer| + 1 && (outer + [top])[|outer|] == top && (outer + [top])[..|outer|] == outer;
    assert outer[1] == Teardown(true, |s.finished| + 1) && |s.finished| < |s.snapshot|;
    assert top.RunOne? ==> outer == [Guarded, Teardown(true, |s.finished| + 1)];
  }

  lemma BodyUnwinds(s: State, t: nat, loop: Frame, stop: NamedStop)
    requires loop == Teardown(true, |s.finished| + 1) && |s.finished| < |s.snapshot|
    ensures var stack := [Guarded, loop, RunOne(stop, true), Body(stop)];
            Nearer(ApplyUnwind(s, t, stack), t, WorkLeft(s, Inside(stack, true)))
  {
    assert [Guarded, loop, RunOne(stop, true), Body(stop)][..3] == [Guarded, loop, RunOne(stop, true)];
  }

  lemma RunOneUnwinds(s: State, t: nat, loop: Frame, stop: NamedStop)
    requires loop == Teardown(true, |s.finished| + 1) && |s.finished| < |s.snapshot|
    ensures var stack := [Guarded, loop, RunOne(stop, true)];
            Nearer(ApplyUnwind(s, t, stack), t, WorkLeft(s, Inside(stack, true)))
  {
    assert [Guarded, loop, RunOne(stop, true)][..2] == [Guarded, loop];
  }

  lemma UnwindWork(s: State, t: nat, stack: seq<Frame>)
    requires SharedInv(s) && StackInv(s.snapshot, s.started, s.finished, stack, true)
    ensures Nearer(ApplyUnwind(s, t, stack), t, WorkLeft(s, Inside(stack, true)))
  {
    hide Complaints, Nearer, ApplyUnwind, WorkLeft;
    var loop, stop := Teardown(true, |s.finished| + 1), s.snapshot[|s.finished|];
    BodyUnwinds(s, t, loop, stop);
    RunOneUnwinds(s, t, loop, stop);
  }

  // Every step of the working caller, panicking or not, brings it nearer to its return; nobody
  // else's step takes it further away, unless a stop is registered before the snapshot is taken.
  lemma WorkEnds(s: State, t: nat, a: Action)
    requires Inv(s) && Enabled(s, By(t, a)) && CallerOf(s, t).Inside?
    ensures Nearer(Apply(s, By(t, a)), t, WorkLeft(s, CallerOf(s, t)))
  {
    hide StackInv, FrameEnabled, ApplyFrame, ApplyUnwind, SharedInv, Nearer, WorkLeft;
    var c := CallerOf(s, t);
    assert CallerInv(s, t, c);
    if c.panicking {
      UnwindWork(s, t, c.stack);
    } else {
      var outer, top := c.stack[..|c.stack| - 1], c.stack[|c.stack| - 1];
      assert c.stack == outer + [top];
      match top
      case Guarded => OnceWork(s, t, a, c.stack);
      case Teardown(_, _) => LoopWork(s, t, a, outer, top);
      case _ => StopWork(s, t, a, outer, top);
    }
  }

  lemma OnceWork(s: State, t: nat, a: Action, stack: seq<Frame>)
    requires stack != [] && stack[|stack| - 1].Guarded? && FrameEnabled(s, a, stack[|stack| - 1])
    ensures Nearer(ApplyFrame(s, t, a, stack[..|stack| - 1], stack[|stack| - 1]), t, WorkLeft(s, Inside(stack, false)))
  {
  }

  lemma OthersDoNotDelay(s: State, t: nat, step: Step)
    requires Inv(s) && Enabled(s, step) && CallerOf(s, t).Inside? && (step.By? ==> step.t != t)
    ensures CallerOf(Apply(s, step), t) == CallerOf(s, t)
    ensures step.By? || CallerOf(s, t).stack != [Guarded, Teardown(false, 0)] ==>
              WorkLeft(Apply(s, step), CallerOf(s, t)) == WorkLeft(s, CallerOf(s, t))
  {
    hide Complaints, FrameEnabled;
    assert CallerInv(s, t, CallerOf(s, t));
    if step.By? {
      assert CallerInv(s, step.t, CallerOf(s, step.t));
    }
  }

  // A caller gets in line, the first one does the work, and one that comes when it is done returns.
  lemma CallersGoOn(s: State, t: nat)
    requires Inv(s)
    ensures var c := CallerOf(s, t);
            && (c.Outside? || c.Returned? ==> Enabled(s, By(t, Call)) && CallerOf(Apply(s, By(t, Call)), t).AtOnce?)
            && (c.AtOnce? && !s.once.Running? ==>
                  && Enabled(s, By(t, EnterOnce))
                  && var n := Apply(s, By(t, EnterOnce));
                     if s.once.Ran? then CallerOf(n, t).Returned?
                     else CallerOf(n, t).Inside? && n.once == Running(t))
  {
  }

  // The stops entered are a prefix of the snapshot of the registered ones, each at most once and
  // in Append order; at most the last of them is still running; the log has one line for each
  // failure and panic so far; and when any caller has returned, the whole snapshot has run.
  lemma StopsRunOnceInOrder(stops: seq<NamedStop>, hasLogger: bool, steps: seq<Step>, t: nat)
    requires IsRun(Registered(stops, hasLogger), steps)
    ensures var n := Reached(Registered(stops, hasLogger), steps);
            && n.finished <= n.started <= n.snapshot <= n.stops
            && |n.started| <= |n.finished| + 1
            && n.log == (if n.hasLogger then Complaints(n.finished) else [])
            && (CallerOf(n, t).Returned? ==> n.finished == n.started == n.snapshot)
  {
    hide Complaints;
    StartInv(stops, hasLogger);
    RunKeepsInv(Registered(stops, hasLogger), steps);
    var n := Reached(Registered(stops, hasLogger), steps);
    assert CallerInv(n, t, CallerOf(n, t));
    if n.once.Running? {
      assert CallerInv(n, n.once.caller, CallerOf(n, n.once.caller));
    }
  }

  ghost predicate NoAppend(steps: seq<Step>) {
    forall i :: 0 <= i < |steps| ==> steps[i].By?
  }

  // The snapshot, once taken, is everything registered.
  ghost predicate Settled(s: State) {
    && (s.once.Ran? ==> s.snapshot == s.stops)
    && (forall t: nat :: CallerOf(s, t).Inside? ==>
          CallerOf(s, t).stack == [Guarded, Teardown(false, 0)] || s.snapshot == s.stops)
  }

  lemma StepKeepsSettled(s: State, t: nat, a: Action)
    requires Inv(s) && Settled(s) && Enabled(s, By(t, a))
    ensures Settled(Apply(s, By(t, a))) && Apply(s, By(t, a)).stops == s.stops
    ensures Apply(s, By(t, a)).hasLogger == s.hasLogger
  {
    hide Complaints;
    var n := Apply(s, By(t, a));
    assert CallerInv(s, t, CallerOf(s, t));
    forall u: nat
      ensures CallerOf(n, u).Inside? ==>
                CallerOf(n, u).stack == [Guarded, Teardown(false, 0)] || n.snapshot == n.stops
    {
      assert CallerInv(s, u, CallerOf(s, u));
    }
  }

  lemma {:induction false} NoAppendKeepsSettled(s: State, steps: seq<Step>)
    requires Inv(s) && Settled(s) && IsRun(s, steps) && NoAppend(steps)
    ensures Settled(Reached(s, steps)) && Reached(s, steps).stops == s.stops
    ensures Reached(s, steps).hasLogger == s.hasLogger
    decreases |steps|
  {
    hide Apply, Enabled, Inv, Settled;
    if steps != [] {
      assert steps[0].By?;
      StepKeepsInv(s, steps[0]);
      StepKeepsSettled(s, steps[0].t, steps[0].a);
      NoAppendKeepsSettled(Apply(s, steps[0]), steps[1..]);
    }
  }

  // With all registration done before the first Shutdown call, a returned caller knows that every
  // registered stop has run to its end, once and in order, whichever of them failed or panicked.
  // This is what the sequential `Shutdown` does.
  lemma ShutdownIsComplete(stops: seq<NamedStop>, hasLogger: bool, steps: seq<Step>, t: nat)
    requires IsRun(Registered(stops, hasLogger), steps) && NoAppend(steps)
    requires CallerOf(Reached(Registered(stops, hasLogger), steps), t).Returned?
    ensures var n := Reached(Registered(stops, hasLogger), steps);
            && n.started == n.finished == stops
            && n.log == (if hasLogger then Complaints(stops) else [])
  {
    hide Complaints;
    var s := Registered(stops, hasLogger);
    StartInv(stops, hasLogger);
    StopsRunOnceInOrder(stops, hasLogger, steps, t);
    NoAppendKeepsSettled(s, steps);
    RunKeepsInv(s, steps);
    assert CallerInv(Reached(s, steps), t, CallerOf(Reached(s, steps), t));
  }

  // Composed with the adapter: after any wiring and any interleaving of Shutdown callers, what has
  // run is exactly the stops of the hooks before the first failing start.
  lemma WiredStopsRun(prefix: string, hooks: seq<Hook>, k: nat, hasLogger: bool, steps: seq<Step>, t: nat)
    requires FirstFailure(hooks, k) || (NoFailure(hooks) && k == |hooks|)
    requires IsRun(Registered(WireAll(prefix, true, hooks).registered, hasLogger), steps) && NoAppend(steps)
    requires CallerOf(Reached(Registered(WireAll(prefix, true, hooks).registered, hasLogger), steps), t).Returned?
    ensures Reached(Registered(WireAll(prefix, true, hooks).registered, hasLogger), steps).finished
              == StopsOf(prefix, hooks[..k])
  {
    hide Reached, IsRun, WireAll, StopsOf;
    ShutdownIsComplete(WireAll(prefix, true, hooks).registered, hasLogger, steps, t);
    if NoFailure(hooks) && k == |hooks| {
      WiringWithoutFailure(prefix, hooks);
      assert hooks[..k] == hooks;
    } else {
      WiringAfterFailure(prefix, hooks, k);
    }
  }

  // The stops that the steps register.
  function Appended(steps: seq<Step>): seq<NamedStop> {
    if steps == [] then []
    else (if steps[0].AppendStop? then [steps[0].s] else []) + Appended(steps[1..])
  }

  lemma StopsAfterStep(s: State, step: Step)
    requires Enabled(s, step)
    ensures Apply(s, step).stops == s.stops + if step.AppendStop? then [step.s] else []
  {
  }

  // Every stop ever appended is registered, in order, and none is lost.
  lemma {:induction false} StopsOnlyGrow(s: State, steps: seq<Step>)
    requires IsRun(s, steps)
    ensures Reached(s, steps).stops == s.stops + Appended(steps)
    decreases |steps|
  {
    hide Apply, Enabled;
    if steps != [] {
      StopsAfterStep(s, steps[0]);
      StopsOnlyGrow(Apply(s, steps[0]), steps[1..]);
    }
  }

  // When a stop registered before the first Shutdown call has been entered, every one registered
  // before it has run to its end.
  lemma EarlierStopsFinished(stops: seq<NamedStop>, hasLogger: bool, steps: seq<Step>, i: nat, j: nat)
    requires IsRun(Registered(stops, hasLogger), steps)
    requires i < j < |Reached(Registered(stops, hasLogger), steps).started| && i < |stops|
    ensures var n := Reached(Registered(stops, hasLogger), steps);
            i < |n.finished| && n.finished[i] == n.started[i] == stops[i]
  {
    hide Complaints;
    StopsRunOnceInOrder(stops, hasLogger, steps, 0);
    StopsOnlyGrow(Registered(stops, hasLogger), steps);
  }

  ghost predicate HasFinished(s: State, name: string) {
    exists i :: 0 <= i < |s.finished| && s.finished[i].name == name
  }

  // The server's order, from what `RegisterLifecycle` leaves: in every run, whatever is appended
  // later and whichever stops fail or panic, the stop of the alert database is entered only after
  // those of the audit store and of the manager that writes to it have run to their ends.
  lemma DatabaseClosesAfterWriters(stops: seq<NamedStop>, hasLogger: bool, steps: seq<Step>, p: nat)
    requires Names(stops) == PHASE_C
    requires IsRun(Registered(stops, hasLogger), steps)
    requires p < |Reached(Registered(stops, hasLogger), steps).started|
    requires Reached(Registered(stops, hasLogger), steps).started[p].name == "alert_db"
    ensures HasFinished(Reached(Registered(stops, hasLogger), steps), "audit_store")
    ensures HasFinished(Reached(Registered(stops, hasLogger), steps), "kc_manager")
  {
    hide Complaints, Reached, IsRun;
    var n := Reached(Registered(stops, hasLogger), steps);
    StopsRunOnceInOrder(stops, hasLogger, steps, 0);
    StopsOnlyGrow(Registered(stops, hasLogger), steps);
    DatabaseIsFifth(stops, n.started, p);
    EarlierStopsFinished(stops, hasLogger, steps, 1, p);
    EarlierStopsFinished(stops, hasLogger, steps, 3, p);
    assert Names(stops)[1] == "audit_store" && Names(stops)[3] == "kc_manager";
  }

  lemma DatabaseIsFifth(stops: seq<NamedStop>, started: seq<NamedStop>, p: nat)
    requires Names(stops) == PHASE_C && p < |started| && started[p].name == "alert_db"
    requires forall i :: 0 <= i < |started| && i < |stops| ==> started[i] == stops[i]
    ensures p >= 4
  {
    assert Names(stops)[0] == "outbox_pump" && Names(stops)[1] == "audit_store";
    assert Names(stops)[2] == "telegram_bot" && Names(stops)[3] == "kc_manager";
    assert |"alert_db"| == 8;
  }
}
