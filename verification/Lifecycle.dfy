/**
 * The ordered-teardown manager and the adapter that feeds it.  A stop function is an identity with
 * an outcome; running it is recorded in `ran`.
 */
module Lifecycle {
  import opened Wrappers
  import opened Text

  datatype Outcome = Succeeds | Fails | Panics

  datatype Func = Func(id: nat, outcome: Outcome)

  datatype NamedStop = NamedStop(name: string, fn: Func)

  datatype LogEntry = StopFailed(name: string) | StopPanicked(name: string)

  // What the log shows after running the stops in order: one line per failure or panic.
  function Complaints(stops: seq<NamedStop>): seq<LogEntry> {
    if stops == [] then []
    else
      var s := stops[|stops| - 1];
      Complaints(stops[..|stops| - 1]) +
      match s.fn.outcome
      case Succeeds => []
      case Fails => [StopFailed(s.name)]
      case Panics => [StopPanicked(s.name)]
  }

  class LifecycleManager {
    var stops: seq<NamedStop>
    var shutDown: bool           // sync.Once
    var ran: seq<Func>           // effects, in order
    var log: seq<LogEntry>
    const hasLogger: bool

    constructor (hasLogger: bool)
      ensures stops == [] && !shutDown && ran == [] && log == [] && this.hasLogger == hasLogger
    {
      this.hasLogger := hasLogger;
      stops, shutDown, ran, log := [], false, [], [];
    }

    method Append(name: string, fn: Option<Func>)
      modifies `stops
      ensures stops == old(stops) + (if fn.Some? then [NamedStop(name, fn.value)] else [])
    {
      if fn.None? {
        return;
      }
      stops := stops + [NamedStop(name, fn.value)];
    }

    // A panic is recovered here, an error is logged here; neither leaves this method.
    method RunOne(s: NamedStop)
      modifies `ran, `log
      ensures ran == old(ran) + [s.fn]
      ensures log == old(log) + (if hasLogger then Complaints([s]) else [])
    {
      ran := ran + [s.fn];
      assert [s][..0] == [];
      if hasLogger {
        match s.fn.outcome {
          case Succeeds =>
          case Fails => log := log + [StopFailed(s.name)];
          case Panics => log := log + [StopPanicked(s.name)];
        }
      }
    }

    method Shutdown()
      modifies `shutDown, `ran, `log
      ensures shutDown
      ensures ran == if old(shutDown) then old(ran) else old(ran) + Funcs(stops)
      ensures log == if old(shutDown) || !hasLogger then old(log) else old(log) + Complaints(stops)
    {
      hide Complaints;
      if shutDown {
        return;
      }
      var snapshot := stops;
      NoComplaints();
      assert snapshot[..0] == [];
      for k := 0 to |snapshot|
        invariant ran == old(ran) + Funcs(snapshot[..k])
        invariant log == old(log) + (if hasLogger then Complaints(snapshot[..k]) else [])
      {
        ComplaintsAppend(snapshot[..k], snapshot[k]);
        assert snapshot[..k + 1] == snapshot[..k] + [snapshot[k]];
        RunOne(snapshot[k]);
      }
      assert snapshot[..|snapshot|] == snapshot;
      shutDown := true;
    }
  }

  function Funcs(stops: seq<NamedStop>): (funcs: seq<Func>)
    ensures |funcs| == |stops|
    ensures forall i :: 0 <= i < |stops| ==> funcs[i] == stops[i].fn
  {
    seq(|stops|, i requires 0 <= i < |stops| => stops[i].fn)
  }

  lemma NoComplaints()
    ensures Complaints([]) == []
  {
  }

  lemma ComplaintsAppend(stops: seq<NamedStop>, s: NamedStop)
    ensures Complaints(stops + [s]) == Complaints(stops) + Complaints([s])
  {
  }

  // Stops of this name and outcome.
  ghost function WithOutcome(stops: seq<NamedStop>, name: string, outcome: Outcome): set<nat> {
    set i: nat | i < |stops| && stops[i].name == name && stops[i].fn.outcome == outcome
  }

  lemma WithOutcomeStep(stops: seq<NamedStop>, s: NamedStop, name: string, outcome: Outcome)
    ensures |WithOutcome(stops + [s], name, outcome)|
              == |WithOutcome(stops, name, outcome)| + if s.name == name && s.fn.outcome == outcome then 1 else 0
  {
    assert WithOutcome(stops + [s], name, outcome)
        == WithOutcome(stops, name, outcome)
           + if s.name == name && s.fn.outcome == outcome then {|stops|} else {};
  }

  lemma ComplaintOfOne(s: NamedStop)
    ensures Complaints([s]) == match s.fn.outcome
                               case Succeeds => []
                               case Fails => [StopFailed(s.name)]
                               case Panics => [StopPanicked(s.name)]
  {
    assert [s][..0] == [];
  }

  // The log has a line of its kind and name for each failing and each panicking stop, and no other.
  lemma {:induction false} ComplaintsCounted(stops: seq<NamedStop>, name: string)
    ensures multiset(Complaints(stops))[StopFailed(name)] == |WithOutcome(stops, name, Fails)|
    ensures multiset(Complaints(stops))[StopPanicked(name)] == |WithOutcome(stops, name, Panics)|
  {
    hide Complaints, WithOutcome;
    if stops == [] {
      NoComplaints();
      NobodyWith(name);
    } else {
      var front, last := stops[..|stops| - 1], stops[|stops| - 1];
      assert stops == front + [last];
      ComplaintsCounted(front, name);
      ComplaintsAppend(front, last);
      ComplaintOfOne(last);
      WithOutcomeStep(front, last, name, Fails);
      WithOutcomeStep(front, last, name, Panics);
    }
  }

  lemma NobodyWith(name: string)
    ensures WithOutcome([], name, Fails) == {} && WithOutcome([], name, Panics) == {}
  {
  }

  // ----- The adapter -----

  datatype Start = Start(id: nat, fails: bool)

  datatype Hook = Hook(onStart: Option<Start>, onStop: Option<Func>)

  // The hook that failed to start, by its synthesized name.
  datatype StartError = StartError(name: string)

  datatype Wiring = Wiring(counter: nat, err: Option<StartError>, started: seq<Start>, registered: seq<NamedStop>)

  function HookName(prefix: string, n: nat): string {
    prefix + "-" + Itoa(n)
  }

  function StartFails(h: Hook): bool {
    h.onStart.Some? && h.onStart.value.fails
  }

  // Without a manager the stops are dropped.
  function WireHook(prefix: string, managed: bool, w: Wiring, h: Hook): Wiring {
    if w.err.Some? then w
    else
      var n := w.counter + 1;
      var started := w.started + if h.onStart.Some? then [h.onStart.value] else [];
      if StartFails(h) then Wiring(n, Some(StartError(HookName(prefix, n))), started, w.registered)
      else
        var stops := if h.onStop.Some? && managed then [NamedStop(HookName(prefix, n), h.onStop.value)] else [];
        Wiring(n, None, started, w.registered + stops)
  }

  function WireAll(prefix: string, managed: bool, hooks: seq<Hook>): Wiring {
    if hooks == [] then Wiring(0, None, [], [])
    else WireHook(prefix, managed, WireAll(prefix, managed, hooks[..|hooks| - 1]), hooks[|hooks| - 1])
  }

  class FxLifecycleAdapter {
    const prefix: string
    const mgr: LifecycleManager?
    var counter: nat
    var startErr: Option<StartError>
    var started: seq<Start>

    constructor (prefix: string, mgr: LifecycleManager?)
      ensures this.prefix == prefix && this.mgr == mgr
      ensures counter == 0 && startErr == None && started == []
    {
      this.prefix, this.mgr := prefix, mgr;
      counter, startErr, started := 0, None, [];
    }

    function Contents(): Wiring
      reads this, mgr
    {
      Wiring(counter, startErr, started, if mgr == null then [] else mgr.stops)
    }

    method Append(h: Hook)
      modifies `counter, `startErr, `started, mgr
      ensures Contents() == WireHook(prefix, mgr != null, old(Contents()), h)
      ensures mgr != null ==> mgr.ran == old(mgr.ran) && mgr.log == old(mgr.log) && mgr.shutDown == old(mgr.shutDown)
    {
      if startErr.Some? {
        return;
      }
      counter := counter + 1;
      var name := HookName(prefix, counter);
      if h.onStart.Some? {
        started := started + [h.onStart.value];
        if h.onStart.value.fails {
          startErr := Some(StartError(name));
          return;
        }
      }
      if h.onStop.Some? && mgr != null {
        mgr.Append(name, h.onStop);
      }
    }

    method Err() returns (e: Option<StartError>)
      ensures e == startErr
    {
      e := startErr;
    }
  }

  // ----- What any sequence of hooks leaves behind -----

  // The hook has an OnStart and it returns an error.
  ghost predicate DoesNotStart(h: Hook) {
    match h.onStart
    case None => false
    case Some(Start(_, fails)) => fails
  }

  ghost predicate FirstFailure(hooks: seq<Hook>, k: nat) {
    k < |hooks| && DoesNotStart(hooks[k]) && forall j :: 0 <= j < k ==> !DoesNotStart(hooks[j])
  }

  ghost predicate NoFailure(hooks: seq<Hook>) {
    forall j :: 0 <= j < |hooks| ==> !DoesNotStart(hooks[j])
  }

  // The non-nil OnStops of the hooks, each under the number of its hook.
  function StopsOf(prefix: string, hooks: seq<Hook>): seq<NamedStop> {
    if hooks == [] then []
    else
      var h := hooks[|hooks| - 1];
      StopsOf(prefix, hooks[..|hooks| - 1]) +
      if h.onStop.Some? then [NamedStop(HookName(prefix, |hooks|), h.onStop.value)] else []
  }

  function StartsOf(hooks: seq<Hook>): seq<Start> {
    if hooks == [] then []
    else
      var h := hooks[|hooks| - 1];
      StartsOf(hooks[..|hooks| - 1]) + if h.onStart.Some? then [h.onStart.value] else []
  }

  // While no start fails, everything is registered, in order, and nothing is reported.
  lemma {:induction false} WiringWithoutFailure(prefix: string, hooks: seq<Hook>)
    requires NoFailure(hooks)
    ensures WireAll(prefix, true, hooks) == Wiring(|hooks|, None, StartsOf(hooks), StopsOf(prefix, hooks))
  {
    if hooks != [] {
      WiringWithoutFailure(prefix, hooks[..|hooks| - 1]);
      assert !DoesNotStart(hooks[|hooks| - 1]);
    }
  }

  // From the first failing start on, the outcome is frozen: the stops are exactly those of the
  // hooks before it, no later hook is started, and the error names it for ever.
  lemma {:induction false} WiringAfterFailure(prefix: string, hooks: seq<Hook>, k: nat)
    requires FirstFailure(hooks, k)
    ensures WireAll(prefix, true, hooks) ==
              Wiring(k + 1, Some(StartError(HookName(prefix, k + 1))),
                     StartsOf(hooks[..k + 1]), StopsOf(prefix, hooks[..k]))
  {
    if k == |hooks| - 1 {
      WiringWithoutFailure(prefix, hooks[..k]);
      assert hooks[..k + 1] == hooks;
    } else {
      var before := hooks[..|hooks| - 1];
      WiringAfterFailure(prefix, before, k);
      assert before[..k + 1] == hooks[..k + 1] && before[..k] == hooks[..k];
    }
  }

  // Without a manager the same hooks are started and the same failure is kept, but nothing is
  // registered.
  lemma {:induction false} WiringUnmanaged(prefix: string, hooks: seq<Hook>)
    ensures var w, u := WireAll(prefix, true, hooks), WireAll(prefix, false, hooks);
            u.counter == w.counter && u.err == w.err && u.started == w.started && u.registered == []
  {
    if hooks != [] {
      WiringUnmanaged(prefix, hooks[..|hooks| - 1]);
    }
  }

  // Adapter, manager and Shutdown together: the stops that run are those of the hooks before the
  // first failing start, in order, and that failure is what Err reports.
  method WireAndShutDown(prefix: string, hooks: seq<Hook>) returns (ran: seq<Func>, err: Option<StartError>)
    ensures NoFailure(hooks) ==> ran == Funcs(StopsOf(prefix, hooks)) && err == None
    ensures forall k: nat :: FirstFailure(hooks, k) ==>
              ran == Funcs(StopsOf(prefix, hooks[..k])) && err == Some(StartError(HookName(prefix, k + 1)))
  {
    hide WireHook, Funcs, StopsOf, StartsOf, Complaints, HookName, NoFailure;
    var mgr := new LifecycleManager(true);
    var adapter := new FxLifecycleAdapter(prefix, mgr);
    assert hooks[..0] == [];
    for i := 0 to |hooks|
      invariant adapter.Contents() == WireAll(prefix, true, hooks[..i])
      invariant mgr.ran == [] && !mgr.shutDown
    {
      assert hooks[..i + 1][..i] == hooks[..i];
      adapter.Append(hooks[i]);
    }
    assert hooks[..|hooks|] == hooks;
    err := adapter.Err();
    mgr.Shutdown();
    ran := mgr.ran;
    if NoFailure(hooks) { WiringWithoutFailure(prefix, hooks); }
    forall k: nat | FirstFailure(hooks, k)
      ensures WireAll(prefix, true, hooks).registered == StopsOf(prefix, hooks[..k])
      ensures WireAll(prefix, true, hooks).err == Some(StartError(HookName(prefix, k + 1)))
    {
      WiringAfterFailure(prefix, hooks, k);
    }
  }

  // Every registered name is unique within its adapter.
  lemma {:induction false} HookNamesUnique(prefix: string, hooks: seq<Hook>, i: nat, j: nat)
    requires i < j < |StopsOf(prefix, hooks)|
    ensures StopsOf(prefix, hooks)[i].name != StopsOf(prefix, hooks)[j].name
  {
    var before := hooks[..|hooks| - 1];
    if j < |StopsOf(prefix, before)| {
      HookNamesUnique(prefix, before, i, j);
    } else {
      var m := NumberOf(prefix, before, i);
      NamesDiffer(prefix, m, |hooks|);
    }
  }

  lemma NamesDiffer(prefix: string, m: nat, n: nat)
    ensures HookName(prefix, m) == HookName(prefix, n) <==> m == n
  {
    ItoaInjective(m, n);
    assert HookName(prefix, m)[|prefix| + 1..] == Itoa(m);
    assert HookName(prefix, n)[|prefix| + 1..] == Itoa(n);
  }

  // The n-th name is the prefix, a dash and the number n without leading zeros.
  lemma HookNameTerms(prefix: string, n: nat)
    ensures var digits := Itoa(n);
            && HookName(prefix, n) == prefix + "-" + digits
            && Digits(digits) == Some(n) && (n > 0 ==> digits[0] != '0')
  {
    DigitsOfItoa(n);
    NoLeadingZero(n);
  }

  lemma {:induction false} NoLeadingZero(n: nat)
    ensures n > 0 ==> Itoa(n)[0] != '0'
  {
    if n >= 10 { NoLeadingZero(n / 10); }
  }

  lemma {:induction false} NumberOf(prefix: string, hooks: seq<Hook>, i: nat) returns (n: nat)
    requires i < |StopsOf(prefix, hooks)|
    ensures 1 <= n <= |hooks| && StopsOf(prefix, hooks)[i].name == HookName(prefix, n)
  {
    var before := hooks[..|hooks| - 1];
    if i < |StopsOf(prefix, before)| {
      n := NumberOf(prefix, before, i);
    } else {
      n := |hooks|;
    }
  }

  // ----- The server's own registration order -----

  const PHASE_C := ["outbox_pump", "audit_store", "telegram_bot", "kc_manager", "alert_db", "oauth_handler",
                    "rate_limit_reload", "invitation_cleanup", "paper_monitor", "fill_watcher", "metrics"]

  function Names(stops: seq<NamedStop>): (names: seq<string>)
    ensures |names| == |stops|
    ensures forall i :: 0 <= i < |stops| ==> names[i] == stops[i].name
  {
    seq(|stops|, i requires 0 <= i < |stops| => stops[i].name)
  }

  // registerLifecycle: one Append per worker, the stop of worker i given as fns[i].
  method RegisterLifecycle(mgr: LifecycleManager, fns: seq<Func>)
    requires |fns| == |PHASE_C| && mgr.stops == []
    modifies mgr`stops
    ensures Names(mgr.stops) == PHASE_C && Funcs(mgr.stops) == fns
  {
    mgr.Append("outbox_pump", Some(fns[0]));
    mgr.Append("audit_store", Some(fns[1]));
    mgr.Append("telegram_bot", Some(fns[2]));
    mgr.Append("kc_manager", Some(fns[3]));
    mgr.Append("alert_db", Some(fns[4]));
    mgr.Append("oauth_handler", Some(fns[5]));
    mgr.Append("rate_limit_reload", Some(fns[6]));
    mgr.Append("invitation_cleanup", Some(fns[7]));
    mgr.Append("paper_monitor", Some(fns[8]));
    mgr.Append("fill_watcher", Some(fns[9]));
    mgr.Append("metrics", Some(fns[10]));
  }
}
