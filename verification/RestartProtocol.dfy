/**
 * The graceful-restart protocol as a state machine: the listener goroutine, the fork-exec handler,
 * any number of children, a byte stream per child delivered in arbitrary pieces, the once-guarded
 * shutdown trigger and the in-flight counter.  Every failure, timeout and panic is a step.
 */
module RestartProtocol {
  import opened Wrappers
  import opened Handshake

  // `sent` is all a child has written to its socket; `delivered` counts the bytes the parent read.
  datatype Child = Child(serving: bool, sent: string, delivered: nat)

  datatype Pc =
    | Listening
    | MakingSocketpair
    | Forking
    | Probing(child: nat)
    | Reading(child: nat, got: string)
    | ChildReady(child: nat)
    | WaitingForDrain
    | ListenerGone

  datatype State = State(
    pc: Pc,
    signalPending: bool,       // the one-slot SIGUSR2 channel
    children: seq<Child>,
    injected: bool,            // shutdownCh is non-nil
    triggered: bool,           // shutdownOnce has fired
    channelCloses: nat,
    sigterms: nat,
    externalStop: bool,        // an OS signal unrelated to a restart
    accepting: bool,
    active: nat)

  // The last load was zero, or the deadline found requests in flight, or there is no counter.
  datatype DrainReport = Complete | OverDeadline | NoCounter

  datatype Step =
    | SignalArrives
    | TakeSignal
    | ContextDone
    | SocketpairFails | SocketpairMade
    | ForkFails | ForkStarts
    | ProbeFails | ProbeSent
    | BytesDelivered(count: nat)
    | ReadFails                // timeout, end of stream or any other read error
    | TriggerDrain(sigtermSent: bool)
    | DrainWaitEnds(report: DrainReport)
    | HandlerPanics
    | ExternalStop
    | StopAccepting            // the shutdown goroutine reaches srv.Shutdown
    | RequestStarts | RequestEnds
    | ChildServes(child: nat)
    | ChildWrites(child: nat, data: string)

  ghost predicate Init(s: State) {
    s.pc == Listening && !s.signalPending && s.children == [] && !s.triggered
    && s.channelCloses == 0 && s.sigterms == 0 && !s.externalStop && s.accepting && s.active == 0
  }

  // The child's first six bytes are exactly the ready message.
  predicate Announced(c: Child) {
    READY_MESSAGE <= c.sent
  }

  ghost predicate InHandler(pc: Pc) {
    !pc.Listening? && !pc.ListenerGone?
  }

  ghost predicate Enabled(s: State, step: Step) {
    match step
    case SignalArrives => true
    case TakeSignal => s.pc.Listening? && s.signalPending
    case ContextDone => s.pc.Listening?
    case SocketpairFails => s.pc.MakingSocketpair?
    case SocketpairMade => s.pc.MakingSocketpair?
    case ForkFails => s.pc.Forking?
    case ForkStarts => s.pc.Forking?
    case ProbeFails => s.pc.Probing?
    case ProbeSent => s.pc.Probing?
    case BytesDelivered(n) =>
      && s.pc.Reading? && s.pc.child < |s.children|
      && 0 < n <= |READY_MESSAGE| - |s.pc.got|
      && s.children[s.pc.child].delivered + n <= |s.children[s.pc.child].sent|
    case ReadFails => s.pc.Reading?
    case TriggerDrain(_) => s.pc.ChildReady?
    case DrainWaitEnds(report) =>
      && s.pc.WaitingForDrain?
      && (report.Complete? ==> s.active == 0)
      && (report.OverDeadline? ==> s.active > 0)
    case HandlerPanics => InHandler(s.pc)
    case ExternalStop => true
    case StopAccepting => s.channelCloses > 0 || s.sigterms > 0 || s.externalStop
    case RequestStarts => s.accepting
    case RequestEnds => s.active > 0
    case ChildServes(c) => c < |s.children|
    case ChildWrites(c, _) => c < |s.children|
  }

  ghost function Apply(s: State, step: Step): State
    requires Enabled(s, step)
  {
    match step
    case SignalArrives => s.(signalPending := true)
    case TakeSignal => s.(signalPending := false, pc := MakingSocketpair)
    case ContextDone => s.(pc := ListenerGone)
    case SocketpairFails => s.(pc := Listening)
    case SocketpairMade => s.(pc := Forking)
    case ForkFails => s.(pc := Listening)
    case ForkStarts => s.(pc := Probing(|s.children|), children := s.children + [Child(false, "", 0)])
    case ProbeFails => s.(pc := Listening)
    case ProbeSent => s.(pc := Reading(s.pc.child, ""))
    case BytesDelivered(n) =>
      var c := s.children[s.pc.child];
      var got := s.pc.got + c.sent[c.delivered..c.delivered + n];
      var next := if |got| < |READY_MESSAGE| then Reading(s.pc.child, got)
                  else if got == READY_MESSAGE then ChildReady(s.pc.child)
                  else Listening;
      s.(pc := next, children := s.children[s.pc.child := c.(delivered := c.delivered + n)])
    case ReadFails => s.(pc := Listening)
    case TriggerDrain(sigtermSent) =>
      var t := s.(pc := WaitingForDrain, triggered := true);
      if s.triggered then t
      else if s.injected then t.(channelCloses := s.channelCloses + 1)
      else if sigtermSent then t.(sigterms := s.sigterms + 1)
      else t
    // The listener loops back here after a success as well as after a failure.
    case DrainWaitEnds(_) => s.(pc := Listening)
    case HandlerPanics => s.(pc := Listening)
    case ExternalStop => s.(externalStop := true)
    case StopAccepting => s.(accepting := false)
    case RequestStarts => s.(active := s.active + 1)
    case RequestEnds => s.(active := s.active - 1)
    case ChildServes(c) => s.(children := s.children[c := s.children[c].(serving := true)])
    case ChildWrites(c, data) => s.(children := s.children[c := s.children[c].(sent := s.children[c].sent + data)])
  }

  // The child's contract: the ready message goes out only once it serves.
  ghost predicate HonestStep(s: State, step: Step)
    requires Enabled(s, step)
  {
    step.ChildWrites? ==>
      var c := s.children[step.child];
      READY_MESSAGE <= c.sent + step.data ==> c.serving
  }

  ghost predicate IsRun(s: State, steps: seq<Step>)
    decreases |steps|
  {
    steps == [] || (Enabled(s, steps[0]) && IsRun(Apply(s, steps[0]), steps[1..]))
  }

  ghost predicate IsHonestRun(s: State, steps: seq<Step>)
    decreases |steps|
  {
    steps == [] ||
    (Enabled(s, steps[0]) && HonestStep(s, steps[0]) && IsHonestRun(Apply(s, steps[0]), steps[1..]))
  }

  ghost function Reached(s: State, steps: seq<Step>): State
    requires IsRun(s, steps)
    decreases |steps|
  {
    if steps == [] then s else Reached(Apply(s, steps[0]), steps[1..])
  }

  ghost predicate SomeAnnounced(s: State) {
    exists c :: 0 <= c < |s.children| && Announced(s.children[c])
  }

  // The handler's view of the current child.
  ghost predicate HandlerInv(s: State) {
    && (forall c :: 0 <= c < |s.children| ==> s.children[c].delivered <= |s.children[c].sent|)
    && (s.pc.Probing? ==> s.pc.child < |s.children| && s.children[s.pc.child].delivered == 0)
    && (s.pc.Reading? ==>
          && s.pc.child < |s.children|
          && |s.pc.got| == s.children[s.pc.child].delivered < |READY_MESSAGE|
          && s.pc.got <= s.children[s.pc.child].sent)
    && (s.pc.ChildReady? ==>
          && s.pc.child < |s.children|
          && Announced(s.children[s.pc.child])
          && s.children[s.pc.child].delivered == |READY_MESSAGE|)
  }

  ghost predicate ServiceInv(s: State) {
    && (s.triggered ==> SomeAnnounced(s))
    && s.channelCloses + s.sigterms <= (if s.triggered then 1 else 0)
    && (s.accepting || s.channelCloses + s.sigterms > 0 || s.externalStop)
  }

  ghost predicate Inv(s: State) {
    HandlerInv(s) && ServiceInv(s)
  }

  lemma BytesKeepHandlerInv(s: State, n: nat)
    requires HandlerInv(s) && Enabled(s, BytesDelivered(n))
    ensures HandlerInv(Apply(s, BytesDelivered(n)))
  {
  }

  lemma ChildKeepsHandlerInv(s: State, step: Step, c: nat)
    requires HandlerInv(s) && Enabled(s, step) && (step == ChildServes(c) || (step.ChildWrites? && step.child == c))
    ensures HandlerInv(Apply(s, step))
  {
    var before, after := s.children[c], Apply(s, step).children[c];
    assert before.sent <= after.sent && before.delivered == after.delivered;
    assert Announced(before) ==> Announced(after);
  }

  lemma ForkKeepsHandlerInv(s: State)
    requires HandlerInv(s) && Enabled(s, ForkStarts)
    ensures HandlerInv(Apply(s, ForkStarts))
  {
  }

  // Every other step leaves the children alone; of those, only a sent probe leaves the handler
  // with a child to read from, and the rest keep its place or take it away from every child.
  lemma OtherKeepsHandlerInv(s: State, step: Step)
    requires HandlerInv(s) && Enabled(s, step)
    requires !step.BytesDelivered? && !step.ForkStarts? && !step.ChildServes? && !step.ChildWrites?
    ensures HandlerInv(Apply(s, step))
  {
    hide HandlerInv, Apply;
    OtherLeavesChildren(s, step);
    OtherLeavesPlace(s, step);
    if step.ProbeSent? {
      ProbeKeepsHandlerInv(s, Apply(s, step));
    } else {
      SameChildren(s, Apply(s, step));
    }
  }

  lemma OtherLeavesChildren(s: State, step: Step)
    requires Enabled(s, step)
    requires !step.BytesDelivered? && !step.ForkStarts? && !step.ChildServes? && !step.ChildWrites?
    ensures Apply(s, step).children == s.children
  {
  }

  lemma OtherLeavesPlace(s: State, step: Step)
    requires Enabled(s, step)
    requires !step.BytesDelivered? && !step.ForkStarts?
    ensures if step.ProbeSent? then s.pc.Probing? && Apply(s, step).pc == Reading(s.pc.child, "")
            else Apply(s, step).pc == s.pc || !ServesChild(Apply(s, step).pc)
  {
  }

  predicate ServesChild(pc: Pc) { pc.Probing? || pc.Reading? || pc.ChildReady? }

  lemma SameChildren(s: State, n: State)
    requires HandlerInv(s) && n.children == s.children && (n.pc == s.pc || !ServesChild(n.pc))
    ensures HandlerInv(n)
  {
  }

  lemma ProbeKeepsHandlerInv(s: State, n: State)
    requires HandlerInv(s) && s.pc.Probing? && n.children == s.children && n.pc == Reading(s.pc.child, "")
    ensures HandlerInv(n)
  {
  }

  lemma StepKeepsHandlerInv(s: State, step: Step)
    requires HandlerInv(s) && Enabled(s, step)
    ensures HandlerInv(Apply(s, step))
  {
    match step
    case BytesDelivered(n) => BytesKeepHandlerInv(s, n);
    case ForkStarts => ForkKeepsHandlerInv(s);
    case ChildServes(c) => ChildKeepsHandlerInv(s, step, c);
    case ChildWrites(c, _) => ChildKeepsHandlerInv(s, step, c);
    case _ => OtherKeepsHandlerInv(s, step);
  }

  lemma StepKeepsServiceInv(s: State, step: Step)
    requires HandlerInv(s) && ServiceInv(s) && Enabled(s, step)
    ensures ServiceInv(Apply(s, step))
  {
    hide Announced;
    if SomeAnnounced(s) {
      var i :| 0 <= i < |s.children| && Announced(s.children[i]);
      SentGrows(s, step, i);
      VerdictOfLonger(s.children[i], Apply(s, step).children[i]);
    }
    if step.TriggerDrain? {
      assert Announced(Apply(s, step).children[s.pc.child]);
    }
  }

  lemma StepKeepsInv(s: State, step: Step)
    requires Inv(s) && Enabled(s, step)
    ensures Inv(Apply(s, step))
  {
    hide Apply, HandlerInv, ServiceInv;
    StepKeepsHandlerInv(s, step);
    StepKeepsServiceInv(s, step);
  }

  lemma {:induction false} RunKeepsInv(s: State, steps: seq<Step>)
    requires Inv(s) && IsRun(s, steps)
    ensures Inv(Reached(s, steps))
    decreases |steps|
  {
    hide Apply, Enabled, Inv;
    if steps != [] {
      StepKeepsInv(s, steps[0]);
      RunKeepsInv(Apply(s, steps[0]), steps[1..]);
    }
  }

  // With no assumption on the children: in every reachable state the trigger has fired only if some
  // child's first six bytes were exactly the ready message, the shutdown channel was closed or the
  // process signalled at most once in all, and the parent still accepts traffic unless such a child
  // exists or somebody else stopped the process.
  lemma DrainOnlyAfterReady(s: State, steps: seq<Step>)
    requires Init(s) && IsRun(s, steps)
    ensures var t := Reached(s, steps);
            && (t.triggered || t.channelCloses > 0 || t.sigterms > 0 ==> SomeAnnounced(t))
            && t.channelCloses + t.sigterms <= 1
            && (t.accepting || t.externalStop || SomeAnnounced(t))
  {
    RunKeepsInv(s, steps);
  }

  // ----- What a run has done, read off its steps -----

  ghost function TriggerIn(step: Step): Option<bool> {
    if step.TriggerDrain? then Some(step.sigtermSent) else None
  }

  // Whether the first trigger of the run could signal the process, if there was one.
  ghost function FirstTrigger(steps: seq<Step>): Option<bool> {
    if steps == [] then None
    else if TriggerIn(steps[0]).Some? then TriggerIn(steps[0])
    else FirstTrigger(steps[1..])
  }

  // Requests started and ended in the run.
  ghost function Starts(steps: seq<Step>): nat {
    if steps == [] then 0 else (if steps[0].RequestStarts? then 1 else 0) + Starts(steps[1..])
  }

  ghost function Ends(steps: seq<Step>): nat {
    if steps == [] then 0 else (if steps[0].RequestEnds? then 1 else 0) + Ends(steps[1..])
  }

  // The trigger acts at the first TriggerDrain and never again.
  ghost predicate Fired(t: State, s: State, first: Option<bool>) {
    && t.injected == s.injected
    && t.triggered == (s.triggered || first.Some?)
    && t.channelCloses == s.channelCloses + (if !s.triggered && s.injected && first.Some? then 1 else 0)
    && t.sigterms == s.sigterms + (if !s.triggered && !s.injected && first == Some(true) then 1 else 0)
  }

  lemma StepFires(s: State, step: Step)
    requires Enabled(s, step)
    ensures Fired(Apply(s, step), s, TriggerIn(step))
  {
  }

  lemma {:induction false} TriggersCounted(s: State, steps: seq<Step>)
    requires IsRun(s, steps)
    ensures Fired(Reached(s, steps), s, FirstTrigger(steps))
    decreases |steps|
  {
    hide Apply, Enabled;
    if steps != [] {
      StepFires(s, steps[0]);
      TriggersCounted(Apply(s, steps[0]), steps[1..]);
    }
  }

  lemma StepAccepts(s: State, step: Step)
    requires Enabled(s, step)
    ensures Apply(s, step).accepting <==> s.accepting && !step.StopAccepting?
  {
  }

  lemma StepMarks(s: State, step: Step)
    requires Enabled(s, step)
    ensures Apply(s, step).externalStop <==> s.externalStop || step.ExternalStop?
    ensures step.ContextDone? ==> Apply(s, step).pc.ListenerGone?
    ensures s.pc.ListenerGone? ==> Apply(s, step).pc.ListenerGone? && |Apply(s, step).children| == |s.children|
  {
  }

  // An unrelated stop is never forgotten, and a listener that is done starts nothing any more.
  lemma {:induction false} StopsAreRemembered(s: State, steps: seq<Step>)
    requires IsRun(s, steps)
    ensures Reached(s, steps).externalStop <==> s.externalStop || ExternalStop in steps
    ensures s.pc.ListenerGone? || ContextDone in steps ==> Reached(s, steps).pc.ListenerGone?
    ensures s.pc.ListenerGone? ==> |Reached(s, steps).children| == |s.children|
    decreases |steps|
  {
    hide Apply, Enabled;
    if steps != [] {
      StepMarks(s, steps[0]);
      StopsAreRemembered(Apply(s, steps[0]), steps[1..]);
      assert steps == [steps[0]] + steps[1..];
    }
  }

  lemma StepServes(s: State, step: Step)
    requires Enabled(s, step)
    ensures step.RequestStarts? ==> Apply(s, step).active == s.active + 1
    ensures step.RequestEnds? ==> Apply(s, step).active == s.active - 1
    ensures !step.RequestStarts? && !step.RequestEnds? ==> Apply(s, step).active == s.active
  {
  }

  lemma {:induction false} AcceptsUntilStopped(s: State, steps: seq<Step>)
    requires IsRun(s, steps)
    ensures Reached(s, steps).accepting <==> s.accepting && StopAccepting !in steps
    ensures Reached(s, steps).active as int == s.active + Starts(steps) - Ends(steps)
    decreases |steps|
  {
    hide Apply, Enabled;
    if steps != [] {
      StepAccepts(s, steps[0]);
      StepServes(s, steps[0]);
      AcceptsUntilStopped(Apply(s, steps[0]), steps[1..]);
      assert steps == [steps[0]] + steps[1..];
    }
  }

  // An injected channel is closed exactly once a trigger has fired, and otherwise the process
  // signals itself exactly if the first trigger could; either way the parent can then stop accepting.
  lemma TriggerStopsTheParent(s: State, steps: seq<Step>)
    requires Init(s) && IsRun(s, steps)
    ensures var t := Reached(s, steps);
            && (s.injected ==>
                  t.sigterms == 0 && t.channelCloses == if exists b :: TriggerDrain(b) in steps then 1 else 0)
            && (!s.injected ==>
                  t.channelCloses == 0 && t.sigterms == if FirstTrigger(steps) == Some(true) then 1 else 0)
            && ((exists b :: TriggerDrain(b) in steps) && (s.injected || FirstTrigger(steps) == Some(true)) ==>
                  Enabled(t, StopAccepting) && !Apply(t, StopAccepting).accepting)
            && (ExternalStop in steps ==> Enabled(t, StopAccepting))
            && (t.accepting <==> StopAccepting !in steps)
            && t.active == Starts(steps) - Ends(steps)
  {
    hide IsRun, Reached, FirstTrigger, Starts, Ends;
    TriggersCounted(s, steps);
    AcceptsUntilStopped(s, steps);
    StopsAreRemembered(s, steps);
    FirstOfTriggers(steps);
  }

  lemma {:induction false} FirstOfTriggers(steps: seq<Step>)
    ensures FirstTrigger(steps).Some? <==> exists b :: TriggerDrain(b) in steps
  {
    if steps != [] {
      FirstOfTriggers(steps[1..]);
      assert steps == [steps[0]] + steps[1..];
    }
  }

  // Every way an attempt can fail, and the end of the drain wait, lead back to listening with nothing
  // else changed; the signal that started it is consumed.
  lemma BackToListening(s: State, step: Step)
    requires Enabled(s, step)
    requires step in {SocketpairFails, ForkFails, ProbeFails, ReadFails, HandlerPanics} || step.DrainWaitEnds?
    ensures Apply(s, step) == s.(pc := Listening)
    ensures InHandler(s.pc)
  {
  }

  // Whatever the handler is waiting for, six bytes that do not spell the message end the attempt.
  lemma WrongBytesEndTheAttempt(s: State, n: nat)
    requires HandlerInv(s) && Enabled(s, BytesDelivered(n))
    requires |s.pc.got| + n == |READY_MESSAGE| && !Announced(s.children[s.pc.child])
    ensures Apply(s, BytesDelivered(n)).pc == Listening
  {
    var c := s.children[s.pc.child];
    assert s.pc.got + c.sent[c.delivered..c.delivered + n] == c.sent[..|READY_MESSAGE|];
  }

  ghost predicate AllHonest(s: State) {
    forall c :: 0 <= c < |s.children| && Announced(s.children[c]) ==> s.children[c].serving
  }

  lemma StepKeepsHonest(s: State, step: Step)
    requires AllHonest(s) && Enabled(s, step) && HonestStep(s, step)
    ensures AllHonest(Apply(s, step))
  {
    match step
    case BytesDelivered(_) => HonestByChild(s, step);
    case ForkStarts =>
    case ChildServes(_) => HonestByChild(s, step);
    case ChildWrites(_, _) => HonestByChild(s, step);
    case _ => assert Apply(s, step).children == s.children;
  }

  lemma HonestByChild(s: State, step: Step)
    requires AllHonest(s) && Enabled(s, step) && HonestStep(s, step)
    requires step.BytesDelivered? || step.ChildServes? || step.ChildWrites?
    ensures AllHonest(Apply(s, step))
  {
    assert |Apply(s, step).children| == |s.children|;
  }

  lemma {:induction false} HonestRunKeeps(s: State, steps: seq<Step>)
    requires AllHonest(s) && IsHonestRun(s, steps)
    ensures IsRun(s, steps) && AllHonest(Reached(s, steps))
    decreases |steps|
  {
    hide Apply, Enabled, HonestStep, AllHonest;
    if steps != [] {
      StepKeepsHonest(s, steps[0]);
      HonestRunKeeps(Apply(s, steps[0]), steps[1..]);
    }
  }

  // With children that keep the contract, somebody always serves: the parent still accepts, or a
  // child that announced itself is serving (or an unrelated stop was requested).
  lemma SomebodyServes(s: State, steps: seq<Step>)
    requires Init(s) && IsHonestRun(s, steps)
    ensures IsRun(s, steps)
    ensures var t := Reached(s, steps);
            || t.accepting || t.externalStop
            || exists c :: 0 <= c < |t.children| && Announced(t.children[c]) && t.children[c].serving
  {
    HonestRunKeeps(s, steps);
    DrainOnlyAfterReady(s, steps);
    var t := Reached(s, steps);
    if SomeAnnounced(t) {
      var c :| 0 <= c < |t.children| && Announced(t.children[c]);
      assert t.children[c].serving;
    }
  }

  lemma {:induction false} RunSplits(s: State, a: seq<Step>, b: seq<Step>)
    requires IsRun(s, a + b)
    ensures IsRun(s, a) && IsRun(Reached(s, a), b) && Reached(s, a + b) == Reached(Reached(s, a), b)
    decreases |a|
  {
    if a == [] {
      assert a + b == b;
    } else {
      assert (a + b)[1..] == a[1..] + b;
      RunSplits(Apply(s, a[0]), a[1..], b);
    }
  }

  // At the moment the drain is triggered, the child of that attempt has been read exactly six
  // bytes, they were its first six, and they spell the ready message.
  lemma TriggerReadsReady(s: State, before: seq<Step>, sigtermSent: bool)
    requires Init(s) && IsRun(s, before + [TriggerDrain(sigtermSent)])
    ensures IsRun(s, before)
    ensures var t := Reached(s, before);
            && t.pc.ChildReady? && t.pc.child < |t.children|
            && var c := t.children[t.pc.child];
               c.delivered == |READY_MESSAGE| <= |c.sent| && c.sent[..c.delivered] == READY_MESSAGE
  {
    RunSplits(s, before, [TriggerDrain(sigtermSent)]);
    RunKeepsInv(s, before);
  }

  // The part of the state that clients of the parent can see.
  ghost function Service(s: State): (bool, bool, nat, nat) {
    (s.triggered, s.accepting, s.channelCloses, s.sigterms)
  }

  // A run in which no child ever announces itself leaves the service untouched, however many
  // restarts were attempted and in whatever way they failed.
  lemma FailedRestartsHarmless(s: State, steps: seq<Step>)
    requires Init(s) && IsRun(s, steps) && ExternalStop !in steps
    requires !SomeAnnounced(Reached(s, steps))
    ensures Service(Reached(s, steps)) == Service(s)
  {
    NoExternal(s, steps);
    DrainOnlyAfterReady(s, steps);
  }

  lemma {:induction false} NoExternal(s: State, steps: seq<Step>)
    requires IsRun(s, steps) && ExternalStop !in steps && !s.externalStop
    ensures !Reached(s, steps).externalStop
    decreases |steps|
  {
    if steps != [] { NoExternal(Apply(s, steps[0]), steps[1..]); }
  }

  // "Ready" is decided for good by the first six bytes: announcing is never undone, and a child
  // whose first six bytes differ never becomes acceptable.
  ghost predicate Garbled(c: Child) {
    |c.sent| >= |READY_MESSAGE| && !Announced(c)
  }

  lemma SentGrows(s: State, step: Step, c: nat)
    requires Enabled(s, step) && c < |s.children|
    ensures |s.children| <= |Apply(s, step).children|
    ensures s.children[c].sent <= Apply(s, step).children[c].sent
  {
    match step
    case ForkStarts =>
    case BytesDelivered(_) =>
    case ChildServes(_) =>
    case ChildWrites(_, _) =>
    case _ => assert Apply(s, step).children == s.children;
  }

  lemma VerdictOfLonger(c: Child, d: Child)
    requires c.sent <= d.sent
    ensures Announced(c) ==> Announced(d)
    ensures Garbled(c) ==> Garbled(d)
  {
    assert |c.sent| >= |READY_MESSAGE| ==> d.sent[..|READY_MESSAGE|] == c.sent[..|READY_MESSAGE|];
  }

  lemma {:induction false} VerdictIsFinal(s: State, steps: seq<Step>, c: nat)
    requires IsRun(s, steps) && c < |s.children|
    ensures c < |Reached(s, steps).children|
    ensures Announced(s.children[c]) ==> Announced(Reached(s, steps).children[c])
    ensures Garbled(s.children[c]) ==> Garbled(Reached(s, steps).children[c])
    decreases |steps|
  {
    hide Apply, Enabled, Announced, Garbled;
    if steps != [] {
      SentGrows(s, steps[0], c);
      VerdictOfLonger(s.children[c], Apply(s, steps[0]).children[c]);
      VerdictIsFinal(Apply(s, steps[0]), steps[1..], c);
    }
  }

  // ----- The drain wait -----

  lemma {:induction false} DrainMonotone(s: State, steps: seq<Step>)
    requires IsRun(s, steps) && !s.accepting
    ensures !Reached(s, steps).accepting && Reached(s, steps).active <= s.active
    decreases |steps|
  {
    if steps != [] { DrainMonotone(Apply(s, steps[0]), steps[1..]); }
  }

  // The polling loop wakes up after each leg of a run and loads the counter.
  ghost predicate Polled(s: State, wakes: seq<Wake>, legs: seq<seq<Step>>)
    decreases |legs|
  {
    |wakes| == |legs| &&
    (legs != [] ==>
       && IsRun(s, legs[0])
       && wakes[0].active == Reached(s, legs[0]).active
       && Polled(Reached(s, legs[0]), wakes[1..], legs[1..]))
  }

  ghost function AfterLegs(s: State, wakes: seq<Wake>, legs: seq<seq<Step>>): State
    requires Polled(s, wakes, legs)
    decreases |legs|
  {
    if legs == [] then s else AfterLegs(Reached(s, legs[0]), wakes[1..], legs[1..])
  }

  lemma {:induction false} LegsDrain(s: State, wakes: seq<Wake>, legs: seq<seq<Step>>)
    requires Polled(s, wakes, legs)
    ensures AfterLegs(s, wakes, legs).active == if wakes == [] then s.active else wakes[|wakes| - 1].active
    ensures !s.accepting ==>
              && AfterLegs(s, wakes, legs).active <= s.active
              && forall k :: 0 <= k < |wakes| ==> AfterLegs(s, wakes, legs).active <= wakes[k].active <= s.active
    decreases |legs|
  {
    hide Apply, Enabled, IsRun, Reached;
    if legs != [] {
      var n := Reached(s, legs[0]);
      LegsDrain(n, wakes[1..], legs[1..]);
      if !s.accepting {
        DrainMonotone(s, legs[0]);
        assert forall k :: 1 <= k < |wakes| ==> wakes[k] == wakes[1..][k - 1];
      }
    }
  }

  // The wait loop along any run: once the parent has stopped accepting, "drained" means that nothing
  // is in flight any more, whatever happened after the load that said so; a wait that goes on, or
  // runs into its deadline, does so for requests it has seen.
  method WaitDuringRun(first: int, wakes: seq<Wake>, ghost s: State, ghost legs: seq<seq<Step>>)
    returns (r: DrainResult)
    requires first == s.active && Polled(s, wakes, legs)
    ensures r.Drained? && !s.accepting ==> AfterLegs(s, wakes, legs).active == 0
    ensures r.StillWaiting? ==> AfterLegs(s, wakes, legs).active > 0
    ensures r.DeadlineExceeded? && !s.accepting ==> r.active <= s.active
  {
    LegsDrain(s, wakes, legs);
    r := WaitForDrain(first, wakes);
  }

  ghost predicate StaysEmpty(s: State) {
    forall later :: IsRun(s, later) ==> Reached(s, later).active == 0
  }

  // A wait that reports a complete drain is right for good if and only if the parent has stopped
  // accepting by then.
  lemma DrainedForGood(s: State)
    requires Enabled(s, DrainWaitEnds(Complete))
    ensures StaysEmpty(Apply(s, DrainWaitEnds(Complete))) <==> !s.accepting
  {
    var n := Apply(s, DrainWaitEnds(Complete));
    if s.accepting {
      OneMoreRequest(n);
    } else {
      forall later | IsRun(n, later) ensures Reached(n, later).active == 0 {
        DrainMonotone(n, later);
      }
    }
  }

  lemma OneMoreRequest(s: State)
    requires s.accepting
    ensures !StaysEmpty(s)
  {
    var n := Apply(s, RequestStarts);
    assert IsRun(n, []) && Reached(n, []) == n;
    assert [RequestStarts][1..] == [];
    assert IsRun(s, [RequestStarts]) && Reached(s, [RequestStarts]) == n;
  }

  ghost predicate Reaches(s: State, t: State) {
    exists steps :: IsRun(s, steps) && Reached(s, steps) == t
  }

  lemma Goes(s: State, t: State, step: Step) returns (n: State)
    requires Reaches(s, t) && Enabled(t, step)
    ensures Reaches(s, n) && n == Apply(t, step)
  {
    hide Apply, Enabled;
    n := Apply(t, step);
    var steps :| IsRun(s, steps) && Reached(s, steps) == t;
    assert IsRun(n, []) && Reached(n, []) == n;
    assert [step][1..] == [];
    assert IsRun(t, [step]) && Reached(t, [step]) == n;
    RunJoins(s, steps, [step]);
    assert IsRun(s, steps + [step]);
  }

  lemma {:induction false} RunJoins(s: State, a: seq<Step>, b: seq<Step>)
    requires IsRun(s, a) && IsRun(Reached(s, a), b)
    ensures IsRun(s, a + b) && Reached(s, a + b) == Reached(Reached(s, a), b)
    decreases |a|
  {
    hide Apply, Enabled;
    if a == [] {
      assert a + b == b;
    } else {
      assert (a + b)[1..] == a[1..] + b;
      RunJoins(Apply(s, a[0]), a[1..], b);
    }
  }

  lemma ForkAndProbe(s: State) returns (t: State)
    requires Init(s)
    ensures Reaches(s, t) && t == s.(pc := Reading(0, ""), children := [Child(false, "", 0)])
  {
    hide Reaches;
    assert Reaches(s, s) by { ReachesItself(s); }
    t := Goes(s, s, SignalArrives);
    t := Goes(s, t, TakeSignal);
    t := Goes(s, t, SocketpairMade);
    t := Goes(s, t, ForkStarts);
    t := Goes(s, t, ProbeSent);
  }

  lemma AnnounceAndRead(s: State, p: State) returns (t: State)
    requires Reaches(s, p) && p.pc == Reading(0, "") && p.children == [Child(false, "", 0)]
    ensures Reaches(s, t)
    ensures t == p.(pc := ChildReady(0), children := [Child(true, READY_MESSAGE, |READY_MESSAGE|)])
  {
    hide Reaches;
    assert "" + READY_MESSAGE == READY_MESSAGE;
    t := Goes(s, p, ChildServes(0));
    assert t.children == [Child(true, "", 0)];
    t := Goes(s, t, ChildWrites(0, READY_MESSAGE));
    assert t.children == [Child(true, READY_MESSAGE, 0)];
    t := Goes(s, t, BytesDelivered(|READY_MESSAGE|));
  }

  // A restart can go through, and its drain be reported complete, before the parent stops accepting.
  lemma DrainReportedEarly(s: State)
    requires Init(s)
    ensures exists t :: Reaches(s, t) && Enabled(t, DrainWaitEnds(Complete)) && t.accepting
  {
    hide Reaches;
    var t := ForkAndProbe(s);
    t := AnnounceAndRead(s, t);
    t := Goes(s, t, TriggerDrain(true));
  }

  lemma ReachesItself(s: State)
    ensures Reaches(s, s)
  {
    assert IsRun(s, []) && Reached(s, []) == s;
  }
}
