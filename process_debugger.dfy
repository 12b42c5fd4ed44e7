/**
 * ProcessDebugger and SigIntHandler as objects. Every method of ProcessDebugger is proved to
 * make exactly the calls, and leave exactly the state, that its DebuggerSpec function
 * describes; the properties of the engine are stated and proved there.
 */
module ProcessDebugging {
  import opened Results
  import opened Win32
  import opened NativeCalls
  import opened Breakpoints
  import opened DebuggerSpec

  class ProcessDebugger {
    const native: Native
    var isDebugging: bool
    var isDetached: bool
    var breakpoints: seq<HardwareBreakPoint>
    var catchSigInt: bool

    /** The engine state the specification functions speak about. */
    function Current(): State
      reads this
    {
      State(isDebugging, isDetached, breakpoints)
    }

    /** The kept invariant: no more breakpoints than there are debug-address registers. */
    ghost predicate Valid()
      reads this
    {
      WithinBound(Current())
    }

    constructor (native: Native)
      ensures this.native == native
      ensures Current() == State(false, false, []) && !catchSigInt
      ensures Valid()
    {
      this.native := native;
      isDebugging := false;
      isDetached := false;
      breakpoints := [];
      catchSigInt := false;
    }

    method Attach() returns (outcome: Outcome)
      requires Valid()
      modifies this, native
      ensures Valid()
      ensures var t := AttachSpec(native.env, old(Current()));
        Current() == t.state && native.log == old(native.log) + t.calls && outcome == t.result
      ensures catchSigInt == old(catchSigInt)
    {
      var ok, present := native.CheckRemoteDebuggerPresent();
      if !ok {
        return Fail(DebuggerError(CheckFailed));
      }
      if present {
        return Fail(DebuggerError(AlreadyDebugged));
      }
      ghost var done := [Call.CheckRemoteDebuggerPresent];
      ok := native.Invoke(DebugActiveProcess(native.env.processId));
      AppendTwice(old(native.log), done, [DebugActiveProcess(native.env.processId)]);
      done := done + [DebugActiveProcess(native.env.processId)];
      if !ok {
        return Fail(DebuggerError(StartFailed));
      }
      ok := native.Invoke(DebugSetProcessKillOnExit(false));
      AppendTwice(old(native.log), done, [DebugSetProcessKillOnExit(false)]);
      done := done + [DebugSetProcessKillOnExit(false)];
      if !ok {
        return Fail(DebuggerError(KillOnExitFailed));
      }
      outcome := ClearUsedBreakpointSlots();
      AppendTwice(old(native.log), done, ClearUsedBreakpointSlotsSpec(native.env).calls);
      if outcome.Fail? {
        return;
      }
      isDebugging := true;
    }

    method ClearUsedBreakpointSlots() returns (outcome: Outcome)
      modifies native
      ensures var r := ClearUsedBreakpointSlotsSpec(native.env);
        native.log == old(native.log) + r.calls && outcome == r.outcome
    {
      var exited, threads := native.RefreshMemory();
      ghost var done := [RefreshMemory];
      var i := 0;
      while i < |threads|
        invariant 0 <= i <= |threads| && threads == native.env.threads
        invariant native.log == old(native.log) + done
        invariant done == [RefreshMemory] + ThreadScript(threads[..i])
        invariant ClearRun(native.env.failing, ThreadScript(threads[..i])).outcome.Pass?
      {
        ghost var x := ClearRun(native.env.failing, SlotCalls(threads[i]));
        outcome := ClearThreadSlots(threads[i]);
        AppendTwice(old(native.log), done, x.calls);
        if outcome.Fail? {
          assert ClearUsedBreakpointSlotsSpec(native.env) == Trace(done + x.calls, x.outcome) by {
            ClearSplit(native.env, i);
          }
          return;
        }
        assert ThreadScript(threads[..i + 1]) == ThreadScript(threads[..i]) + x.calls
            && ClearRun(native.env.failing, ThreadScript(threads[..i + 1])).outcome.Pass? by {
          ClearSplit(native.env, i);
        }
        AppendTwice([RefreshMemory], ThreadScript(threads[..i]), x.calls);
        done := done + x.calls;
        i := i + 1;
      }
      assert threads[..i] == threads;
      ClearComplete(native.env);
      outcome := Pass;
    }

    /** The body of the loop over Process.Threads. */
    method ClearThreadSlots(t: ThreadId) returns (outcome: Outcome)
      modifies native
      ensures var x := ClearRun(native.env.failing, SlotCalls(t));
        native.log == old(native.log) + x.calls && outcome == x.outcome
    {
      ghost var failing := native.env.failing;
      ghost var cs := SlotCalls(t);
      var ok := native.Invoke(OpenThread(t));
      if !ok {
        FailsAt(failing, cs, 0);
        return Fail(BreakPointError(CantOpenThread));
      }
      ok := native.Invoke(UnsetSlotsFromThread(t));
      if !ok {
        FailsAt(failing, cs, 1);
        return Fail(BreakPointError(BreakPointFailure));
      }
      ok := native.Invoke(CloseHandle(t));
      if !ok {
        FailsAt(failing, cs, 2);
        return Fail(BreakPointError(CloseHandleFailed));
      }
      FailsAt(failing, cs, 3);
      outcome := Pass;
    }

    method AddBreakPoint(bp: HardwareBreakPoint) returns (outcome: Outcome)
      requires Valid()
      modifies this, native
      ensures Valid()
      ensures var t := AddBreakPointSpec(native.env, old(Current()), bp);
        Current() == t.state && native.log == old(native.log) + t.calls && outcome == t.result
      ensures catchSigInt == old(catchSigInt)
    {
      if |breakpoints| >= MaxHardwareBreakpointsCount {
        return Fail(DebuggerError(NoFreeSlot));
      }
      native.Notify(SuspendThreads);
      var ok := native.Invoke(SetBreakPoint(bp.address));
      if ok {
        breakpoints := breakpoints + [Armed(bp, native.env.threads)];
      }
      native.Notify(ResumeThreads);
      outcome := if ok then Pass else Fail(DebuggerError(BreakPointFailure));
    }

    /** `foreach (var bp in Breakpoints) bp.Op(...)`, stopping at the first call that throws. */
    method SweepBreakpoints(op: Sweep) returns (outcome: Outcome)
      modifies this, native
      ensures var r := SweepAll(native.env.failing, op, old(breakpoints));
        breakpoints == r.breakpoints && native.log == old(native.log) + r.calls && outcome == r.outcome
      ensures isDebugging == old(isDebugging) && isDetached == old(isDetached)
      ensures catchSigInt == old(catchSigInt)
    {
      ghost var failing := native.env.failing;
      ghost var cs := SweepCalls(op, breakpoints);
      var bps := breakpoints;
      var i := 0;
      while i < |bps|
        invariant 0 <= i <= |bps| == |breakpoints|
        invariant forall j :: 0 <= j < i ==> breakpoints[j] == SweepEffect(op, bps[j])
        invariant forall j :: i <= j < |bps| ==> breakpoints[j] == bps[j]
        invariant forall j :: 0 <= j < i ==> SweepCall(op, bps[j]) !in failing
        invariant native.log == old(native.log) + cs[..i]
        invariant bps == old(breakpoints)
        invariant isDebugging == old(isDebugging) && isDetached == old(isDetached)
        invariant catchSigInt == old(catchSigInt)
      {
        assert cs[i] == SweepCall(op, bps[i]);
        var ok := native.Invoke(SweepCall(op, bps[i]));
        assert native.log == old(native.log) + cs[..i + 1] by {
          assert cs[..i] + [cs[i]] == cs[..i + 1];
        }
        if !ok {
          SweepAllAt(failing, op, bps, i);
          EffectsSplice(op, bps, breakpoints, i);
          return Fail(BreakPointError(BreakPointFailure));
        }
        breakpoints := breakpoints[i := SweepEffect(op, bps[i])];
        i := i + 1;
      }
      SweepAllAt(failing, op, bps, i);
      EffectsSplice(op, bps, breakpoints, i);
      outcome := Pass;
    }

    method RemoveBreakPoints() returns (outcome: Outcome)
      requires Valid()
      modifies this, native
      ensures Valid()
      ensures var t := RemoveBreakPointsSpec(native.env, old(Current()));
        Current() == t.state && native.log == old(native.log) + t.calls && outcome == t.result
      ensures catchSigInt == old(catchSigInt)
    {
      SweepShape(native.env.failing, UnSet, breakpoints);
      ghost var sweep := SweepAll(native.env.failing, UnSet, breakpoints);
      native.Notify(SuspendThreads);
      var swept := SweepBreakpoints(UnSet);
      AppendTwice(old(native.log), [SuspendThreads], sweep.calls);
      native.Notify(ResumeThreads);
      AppendTwice(old(native.log), [SuspendThreads] + sweep.calls, [ResumeThreads]);
      if swept.Fail? {
        return Fail(DebuggerError(swept.error.message));
      }
      breakpoints := [];
      outcome := Pass;
    }

    /** May be called from any context; the listener sees it at its next check of IsDebugging. */
    method StopDebugging()
      modifies this
      ensures Current() == old(Current()).(isDebugging := false)
      ensures catchSigInt == old(catchSigInt)
    {
      isDebugging := false;
    }

    method Detach() returns (outcome: Outcome)
      requires Valid()
      modifies this, native
      ensures Valid()
      ensures var t := DetachSpec(native.env, old(Current()));
        Current() == t.state && native.log == old(native.log) + t.calls && outcome == t.result
      ensures catchSigInt == old(catchSigInt)
    {
      if isDetached {
        return Pass;
      }
      isDetached := true;
      var exited, _ := native.RefreshMemory();
      if exited {
        return Pass;
      }
      ghost var removal := RemoveBreakPointsSpec(native.env, Current());
      outcome := RemoveBreakPoints();
      AppendTwice(old(native.log), [RefreshMemory], removal.calls);
      if outcome.Fail? {
        return;
      }
      var ok := native.Invoke(DebugActiveProcessStop(native.env.processId));
      AppendTwice(old(native.log), [RefreshMemory] + removal.calls, [DebugActiveProcessStop(native.env.processId)]);
      outcome := if ok then Pass else Fail(DebuggerError(StopFailed));
    }

    /** The STATUS_SINGLE_STEP branch of the exception case. */
    method SingleStep(threadId: ThreadId) returns (outcome: Outcome)
      modifies native
      ensures var r := SingleStepSpec(native.env, breakpoints, threadId);
        native.log == old(native.log) + r.calls && outcome == r.outcome
    {
      var ok := native.Invoke(OpenThread(threadId));
      if !ok {
        return Fail(DebuggerError(OpenThreadFailed));
      }
      var context := native.GetThreadContext(threadId);
      if context.None? {
        return Fail(DebuggerError(GetContextFailed));
      }
      var hit := FirstHit(breakpoints, context.value.eip);
      if hit.None? {
        return Pass;
      }
      var bp := breakpoints[hit.value];
      native.Notify(HandleException(bp.address));
      var reply := bp.handler(context.value);
      if reply.modified {
        ok := native.Invoke(SetThreadContext(threadId, reply.context));
        if !ok {
          return Fail(DebuggerError(SetContextFailed));
        }
      }
      outcome := Pass;
    }

    /** The switch on dwDebugEventCode for an event that does not end the process. */
    method DispatchEvent(ev: DebugEvent) returns (outcome: Outcome)
      requires Valid()
      modifies this, native
      ensures Valid()
      ensures var t := DispatchSpec(native.env, old(Current()), ev);
        Current() == t.state && native.log == old(native.log) + t.calls && outcome == t.result
      ensures catchSigInt == old(catchSigInt)
    {
      match ev.info
      case Exception(code) =>
        if code == STATUS_SINGLE_STEP {
          outcome := SingleStep(ev.threadId);
        } else {
          outcome := Pass;
        }
      case CreateThread(h) =>
        SweepShape(native.env.failing, AddThread(h, ev.threadId), breakpoints);
        outcome := SweepBreakpoints(AddThread(h, ev.threadId));
      case ExitThread =>
        SweepShape(native.env.failing, DropThread(ev.threadId), breakpoints);
        outcome := SweepBreakpoints(DropThread(ev.threadId));
      case _ =>
        outcome := Pass;
    }

    /** After the switch: the cooperative stop, or the acknowledgement that keeps the loop going. */
    method Acknowledge(ev: DebugEvent, okEvent: bool) returns (result: StepResult)
      requires Valid()
      modifies this, native
      ensures Valid()
      ensures var t := AcknowledgeSpec(native.env, old(Current()), ev, okEvent);
        Current() == t.state && native.log == old(native.log) + t.calls && result == t.result
      ensures catchSigInt == old(catchSigInt)
    {
      var ack := ContinueDebugEvent(ev.processId, ev.threadId, StatusOf(okEvent));
      if !isDebugging {
        isDetached := true;
        var removed := RemoveBreakPoints();
        if removed.Fail? {
          return Aborted(removed.error);
        }
        var ok := native.Invoke(ack);
        if !ok {
          return Aborted(DebuggerError(ContinueFailed));
        }
        ok := native.Invoke(DebugActiveProcessStop(native.env.processId));
        if !ok {
          return Aborted(DebuggerError(StopFailed));
        }
        return Returned;
      }
      var ok := native.Invoke(ack);
      result := if ok then Looping else Aborted(DebuggerError(ContinueFailed));
    }

    /** The RIP_EVENT and EXIT_PROCESS_DEBUG_EVENT case. */
    method ExitEvent(ev: DebugEvent) returns (result: StepResult)
      modifies this, native
      ensures var t := ExitEventSpec(native.env, old(Current()), ev);
        Current() == t.state && native.log == old(native.log) + t.calls && result == t.result
      ensures catchSigInt == old(catchSigInt)
    {
      isDebugging := false;
      isDetached := true;
      var ok := native.Invoke(ContinueDebugEvent(ev.processId, ev.threadId, StatusOf(false)));
      if !ok {
        return Aborted(DebuggerError(ContinueFailed));
      }
      ok := native.Invoke(DebugActiveProcessStop(native.env.processId));
      if !ok {
        return Aborted(DebuggerError(StopFailed));
      }
      return Returned;
    }

    /** The handling of one received event, from the switch to the end of the loop body. */
    method HandleEvent(ev: DebugEvent) returns (result: StepResult)
      requires Valid()
      modifies this, native
      ensures Valid()
      ensures var t := EventSpec(native.env, old(Current()), ev);
        Current() == t.state && native.log == old(native.log) + t.calls && result == t.result
      ensures catchSigInt == old(catchSigInt)
    {
      if ev.info.Ends() {
        result := ExitEvent(ev);
        return;
      }
      ghost var log0 := native.log;
      ghost var d := DispatchSpec(native.env, Current(), ev);
      var dispatched := DispatchEvent(ev);
      if dispatched.Fail? {
        return Aborted(dispatched.error);
      }
      ghost var a := AcknowledgeSpec(native.env, d.state, ev, ev.info.IsSingleStep());
      result := Acknowledge(ev, ev.info.IsSingleStep());
      AppendTwice(log0, d.calls, a.calls);
    }

    /** One turn of the listener loop; `tick.stopRequested` is a StopDebugging made during the wait. */
    method ListenerStep(tick: Tick) returns (result: StepResult)
      requires Valid() && isDebugging
      modifies this, native
      ensures Valid()
      ensures var t := StepSpec(native.env, old(Current()), tick);
        Current() == t.state && native.log == old(native.log) + t.calls && result == t.result
      ensures catchSigInt == old(catchSigInt)
    {
      ghost var log0 := native.log;
      ghost var s0 := Current().(isDebugging := !tick.stopRequested);
      native.Notify(WaitForDebugEvent);
      if tick.stopRequested {
        StopDebugging();
      }
      assert Current() == s0;
      match tick.wait
      case TimedOut =>
        result := Looping;
      case Received(ev) =>
        ghost var e := EventSpec(native.env, s0, ev);
        result := HandleEvent(ev);
        AppendTwice(log0, [WaitForDebugEvent], e.calls);
    }

    /**
     * StartListener over the ticks the environment delivers: loop while IsDebugging, then
     * Detach. The result is Listening when the ticks run out first.
     */
    method StartListener(ticks: seq<Tick>) returns (result: ListenerResult)
      requires Valid()
      modifies this, native
      ensures Valid()
      ensures var t := ListenerSpec(native.env, old(Current()), ticks);
        Current() == t.state && native.log == old(native.log) + t.calls && result == t.result
      ensures catchSigInt == old(catchSigInt)
    {
      ghost var whole := ListenerSpec(native.env, Current(), ticks);
      ghost var done: seq<Call> := [];
      var i := 0;
      while isDebugging && i < |ticks|
        invariant 0 <= i <= |ticks| && Valid()
        invariant native.log == old(native.log) + done
        invariant var rest := ListenerSpec(native.env, Current(), ticks[i..]);
          whole == Transition(rest.state, done + rest.calls, rest.result)
        invariant catchSigInt == old(catchSigInt)
      {
        ghost var st := StepSpec(native.env, Current(), ticks[i]);
        assert ticks[i..][0] == ticks[i] && ticks[i..][1..] == ticks[i + 1..];
        var step := ListenerStep(ticks[i]);
        AppendTwice(old(native.log), done, st.calls);
        match step
        case Looping =>
          AppendTwice(done, st.calls, ListenerSpec(native.env, Current(), ticks[i + 1..]).calls);
          done := done + st.calls;
          i := i + 1;
        case Returned =>
          return Finished(Pass);
        case Aborted(e) =>
          return Finished(Fail(e));
      }
      if isDebugging {
        assert ticks[i..] == [];
        assert done + [] == done;
        return Listening;
      }
      ghost var detach := DetachSpec(native.env, Current());
      var detached := Detach();
      AppendTwice(old(native.log), done, detach.calls);
      result := Finished(detached);
    }

    /** The body of Run's background thread: Attach and listen, then Detach in any case. */
    method Run(ticks: seq<Tick>) returns (result: RunResult)
      requires Valid()
      modifies this, native
      ensures Valid()
      ensures var t := RunSpec(native.env, old(Current()), ticks);
        Current() == t.state && native.log == old(native.log) + t.calls && result == t.result
      ensures catchSigInt == old(catchSigInt)
    {
      ghost var attach := AttachSpec(native.env, Current());
      var attached := Attach();
      ghost var done := attach.calls;
      var listened: ListenerResult;
      if attached.Pass? {
        ghost var body := ListenerSpec(native.env, Current(), ticks);
        listened := StartListener(ticks);
        AppendTwice(old(native.log), attach.calls, body.calls);
        done := attach.calls + body.calls;
      } else {
        listened := Finished(attached);
      }
      match listened
      case Listening =>
        result := StillRunning;
      case Finished(o) =>
        ghost var detach := DetachSpec(native.env, Current());
        var detached := Detach();
        AppendTwice(old(native.log), done, detach.calls);
        result := Ended(o, detached);
    }

    /** `raised`: whether the background session set IsDebugging during the sleep. */
    method WaitForComeUp(waitTime: int, raised: bool) returns (up: bool)
      modifies this, native
      ensures var t := WaitForComeUpSpec(old(Current()), waitTime, raised);
        Current() == t.state && native.log == old(native.log) + t.calls && up == t.result
      ensures catchSigInt == old(catchSigInt)
    {
      if isDebugging {
        return true;
      }
      native.Notify(Sleep(waitTime));
      if raised {
        isDebugging := true;
      }
      up := isDebugging;
    }

    /** `raisedAt`: the attempt during whose sleep the background session sets IsDebugging. */
    method WaitForComeUpRepeat(waitTime: int, repeatCount: int, raisedAt: Option<nat>) returns (up: bool)
      modifies this, native
      ensures var t := WaitForComeUpRepeatSpec(old(Current()), waitTime, repeatCount, raisedAt, 0);
        Current() == t.state && native.log == old(native.log) + t.calls && up == t.result
      ensures catchSigInt == old(catchSigInt)
    {
      ghost var whole := WaitForComeUpRepeatSpec(Current(), waitTime, repeatCount, raisedAt, 0);
      ghost var done: seq<Call> := [];
      var i: nat := 0;
      while i < repeatCount
        invariant native.log == old(native.log) + done
        invariant var rest := WaitForComeUpRepeatSpec(Current(), waitTime, repeatCount, raisedAt, i);
          whole == Transition(rest.state, done + rest.calls, rest.result)
        invariant catchSigInt == old(catchSigInt)
      {
        ghost var w := WaitForComeUpSpec(Current(), waitTime, raisedAt == Some(i));
        var attempt := WaitForComeUp(waitTime, raisedAt == Some(i));
        AppendTwice(old(native.log), done, w.calls);
        if attempt {
          return true;
        }
        AppendTwice(done, w.calls, WaitForComeUpRepeatSpec(Current(), waitTime, repeatCount, raisedAt, i + 1).calls);
        done := done + w.calls;
        i := i + 1;
      }
      assert done + [] == done;
      up := isDebugging;
    }

    /** The CatchSigInt setter: register with, or unregister from, the Ctrl+C handler. */
    method SetCatchSigInt(value: bool, handler: SigIntHandler)
      modifies this, handler
      ensures Current() == old(Current()) && catchSigInt == value
      ensures value ==> handler.affectedInstances == old(handler.affectedInstances) + [this]
      ensures !value ==> handler.affectedInstances == RemoveFirst(old(handler.affectedInstances), this)
    {
      catchSigInt := value;
      if value {
        handler.AddInstance(this);
      } else {
        handler.RemoveInstance(this);
      }
    }
  }

  /** List<T>.Remove: drop the first occurrence of `x`, if there is one. */
  function RemoveFirst<T(==)>(s: seq<T>, x: T): (r: seq<T>)
    ensures x !in s ==> r == s
    ensures x in s ==> |r| == |s| - 1
  {
    if s == [] then []
    else if s[0] == x then s[1..]
    else [s[0]] + RemoveFirst(s[1..], x)
  }

  /** Exactly one occurrence of `x` goes, and nothing else. */
  lemma {:induction false} RemoveFirstCount<T>(s: seq<T>, x: T)
    ensures multiset(RemoveFirst(s, x)) == multiset(s) - multiset{x}
  {
    if s != [] {
      assert s == [s[0]] + s[1..];
      if s[0] != x {
        RemoveFirstCount(s[1..], x);
      }
    }
  }

  /** The occurrence removed is the first one: everything before it and after it stays in order. */
  lemma {:induction false} RemoveFirstAt<T>(s: seq<T>, x: T, k: nat)
    requires k < |s| && s[k] == x && x !in s[..k]
    ensures RemoveFirst(s, x) == s[..k] + s[k + 1..]
  {
    if k > 0 {
      assert s[0] in s[..k];
      var t := s[1..];
      assert t[..k - 1] == s[1..k];
      assert x !in t[..k - 1];
      RemoveFirstAt(t, x, k - 1);
      assert RemoveFirst(s, x) == [s[0]] + RemoveFirst(t, x);
      assert t[k..] == s[k + 1..];
      assert s[..k] == [s[0]] + t[..k - 1];
    }
  }

  /** Registering and then unregistering a debugger that was not registered restores the list. */
  lemma {:induction false} AddThenRemove<T>(s: seq<T>, x: T)
    requires x !in s
    ensures RemoveFirst(s + [x], x) == s
  {
    if s != [] {
      assert (s + [x])[1..] == s[1..] + [x];
      AddThenRemove(s[1..], x);
    }
  }

  /** The static SigIntHandler and its Console.CancelKeyPress handler. */
  class SigIntHandler {
    var affectedInstances: seq<ProcessDebugger>

    constructor ()
      ensures affectedInstances == []
    {
      affectedInstances := [];
    }

    method AddInstance(debugger: ProcessDebugger)
      modifies this
      ensures affectedInstances == old(affectedInstances) + [debugger]
    {
      affectedInstances := affectedInstances + [debugger];
    }

    method RemoveInstance(debugger: ProcessDebugger)
      modifies this
      ensures affectedInstances == RemoveFirst(old(affectedInstances), debugger)
    {
      affectedInstances := RemoveFirst(affectedInstances, debugger);
    }

    /** Ctrl+C: when any debugger is registered, cancel the termination and stop them all. */
    method CancelKeyPress() returns (cancel: bool)
      modifies set d | d in affectedInstances
      ensures cancel == (|affectedInstances| > 0)
      ensures affectedInstances == old(affectedInstances)
      ensures forall d :: d in affectedInstances ==>
                d.Current() == old(d.Current()).(isDebugging := false) && d.catchSigInt == old(d.catchSigInt)
    {
      if |affectedInstances| == 0 {
        return false;
      }
      cancel := true;
      for i := 0 to |affectedInstances|
        invariant forall j :: 0 <= j < i ==> !affectedInstances[j].isDebugging
        invariant forall d :: d in affectedInstances ==>
                    d.isDetached == old(d.isDetached) && d.breakpoints == old(d.breakpoints) &&
                    d.catchSigInt == old(d.catchSigInt)
        invariant forall d :: d in affectedInstances && d !in affectedInstances[..i] ==>
                    d.isDebugging == old(d.isDebugging)
      {
        affectedInstances[i].StopDebugging();
      }
      assert affectedInstances[..|affectedInstances|] == affectedInstances;
    }
  }
}
