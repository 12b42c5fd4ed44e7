/**
 * The debugger engine of ProcessDebugger as a pure state machine. Each operation is a
 * function from the environment and the engine state to a Transition: the new state,
 * the calls made into the operating system (in order) and the result. The methods of
 * ProcessDebugging.ProcessDebugger are proved to do exactly this; the contracts here state
 * what the operations guarantee.
 */
module DebuggerSpec {
  import opened Results
  import opened Win32
  import opened NativeCalls
  import opened Breakpoints

  /** Kernel32.MaxHardwareBreakpointsCount: one per x86 debug-address register DR0-DR3. */
  const MaxHardwareBreakpointsCount := 4

  // The texts of the DebuggerExceptions the engine raises itself.
  const CheckFailed := "Failed to check if remote process is already being debugged"
  const AlreadyDebugged := "Process is already being debugged by another debugger"
  const StartFailed := "Failed to start debugging"
  const KillOnExitFailed := "Failed to set kill on exit"
  const NoFreeSlot := "Can't set any more breakpoints"
  const StopFailed := "Failed to stop process debugging"
  const ContinueFailed := "Failed to continue debug event"
  const OpenThreadFailed := "Failed to open thread"
  const GetContextFailed := "Failed to get thread context"
  const SetContextFailed := "Failed to set thread context"
  // The texts of the BreakPointExceptions ClearUsedBreakpointSlots raises.
  const CantOpenThread := "Can't open thread for access"
  const CloseHandleFailed := "Failed to close thread handle"

  /** IsDebugging, IsDetached and the ordered Breakpoints list. */
  datatype State = State(isDebugging: bool, isDetached: bool, breakpoints: seq<HardwareBreakPoint>)

  predicate WithinBound(s: State) {
    |s.breakpoints| <= MaxHardwareBreakpointsCount
  }

  datatype Transition<+R> = Transition(state: State, calls: seq<Call>, result: R)

  // ---------------------------------------------------------------------------
  // ClearUsedBreakpointSlots

  /** The calls for one thread: open it, clear all four slots, close the handle. */
  function SlotCalls(t: ThreadId): seq<Call> {
    [OpenThread(t), UnsetSlotsFromThread(t), CloseHandle(t)]
  }

  /** The calls for every live thread, in enumeration order. */
  function ThreadScript(threads: seq<ThreadId>): (cs: seq<Call>)
    ensures |cs| == 3 * |threads|
  {
    if threads == [] then []
    else ThreadScript(threads[..|threads| - 1]) + SlotCalls(threads[|threads| - 1])
  }

  /** The script of two runs of threads is the two scripts one after the other. */
  lemma {:induction false} ThreadScriptAppend(a: seq<ThreadId>, b: seq<ThreadId>)
    ensures ThreadScript(a + b) == ThreadScript(a) + ThreadScript(b)
  {
    if b == [] {
      assert a + b == a;
    } else {
      var init := b[..|b| - 1];
      assert (a + b)[..|a + b| - 1] == a + init;
      ThreadScriptAppend(a, init);
      AppendTwice(ThreadScript(a), ThreadScript(init), SlotCalls(b[|b| - 1]));
    }
  }

  /** The three calls for the i-th thread sit at positions 3i, 3i+1 and 3i+2. */
  lemma {:induction false} ThreadScriptAt(threads: seq<ThreadId>, i: nat)
    requires i < |threads|
    ensures ThreadScript(threads)[3 * i] == OpenThread(threads[i])
    ensures ThreadScript(threads)[3 * i + 1] == UnsetSlotsFromThread(threads[i])
    ensures ThreadScript(threads)[3 * i + 2] == CloseHandle(threads[i])
  {
    var init := threads[..|threads| - 1];
    if i < |threads| - 1 {
      ThreadScriptAt(init, i);
      assert init[i] == threads[i];
    }
  }

  function ClearSlotsError(c: Call): Error {
    match c
    case OpenThread(_) => BreakPointError(CantOpenThread)
    case CloseHandle(_) => BreakPointError(CloseHandleFailed)
    case _ => BreakPointError(BreakPointFailure)
  }

  /** A run of clearing calls: the calls made, and the exception of the one that throws. */
  function ClearRun(failing: set<Call>, cs: seq<Call>): (r: Trace)
    ensures r.calls == Performed(failing, cs)
    ensures r.outcome.Pass? <==> forall j :: 0 <= j < |cs| ==> cs[j] !in failing
    ensures r.outcome.Fail? ==> r.outcome.error == ClearSlotsError(r.calls[|r.calls| - 1])
  {
    var k := FirstFailure(failing, cs);
    Trace(Performed(failing, cs), if k < |cs| then Fail(ClearSlotsError(cs[k])) else Pass)
  }

  /** Running two lists of clearing calls in turn: the second runs only if the first went through. */
  lemma ClearRunAppend(failing: set<Call>, a: seq<Call>, b: seq<Call>)
    ensures ClearRun(failing, a + b) ==
              if ClearRun(failing, a).outcome.Fail? then ClearRun(failing, a)
              else Trace(a + ClearRun(failing, b).calls, ClearRun(failing, b).outcome)
  {
    FirstFailureAppend(failing, a, b);
    var k := FirstFailure(failing, a);
    if k < |a| {
      assert (a + b)[..k + 1] == a[..k + 1];
    } else {
      var m := FirstFailure(failing, b);
      if m < |b| {
        assert (a + b)[..|a| + m + 1] == a + b[..m + 1];
      }
    }
  }

  function ClearUsedBreakpointSlotsSpec(env: Env): (r: Trace)
    ensures 0 < |r.calls| && r.calls[0] == RefreshMemory
    ensures r.calls[1..] == Performed(env.failing, ThreadScript(env.threads))
    ensures r.outcome.Pass? <==> forall c :: c in ThreadScript(env.threads) ==> c !in env.failing
    ensures r.outcome.Fail? ==> r.outcome.error.BreakPointError?
  {
    var x := ClearRun(env.failing, ThreadScript(env.threads));
    Trace([RefreshMemory] + x.calls, x.outcome)
  }

  /**
   * The clear after the first i threads have gone through without a failure: either the
   * calls for thread i fail and the clear ends there, or the first i + 1 threads went through.
   */
  lemma ClearSplit(env: Env, i: nat)
    requires i < |env.threads|
    requires ClearRun(env.failing, ThreadScript(env.threads[..i])).outcome.Pass?
    ensures var x := ClearRun(env.failing, SlotCalls(env.threads[i]));
      && ThreadScript(env.threads[..i + 1]) == ThreadScript(env.threads[..i]) + SlotCalls(env.threads[i])
      && (x.outcome.Fail? ==>
            ClearUsedBreakpointSlotsSpec(env) ==
              Trace([RefreshMemory] + ThreadScript(env.threads[..i]) + x.calls, x.outcome))
      && (x.outcome.Pass? ==>
            && x.calls == SlotCalls(env.threads[i])
            && ClearRun(env.failing, ThreadScript(env.threads[..i + 1])).outcome.Pass?)
  {
    var threads := env.threads;
    var t := threads[i];
    var pre := ThreadScript(threads[..i]);
    var post := ThreadScript(threads[i + 1..]);
    assert threads[..i + 1][..i] == threads[..i];
    assert threads == threads[..i + 1] + threads[i + 1..];
    ThreadScriptAppend(threads[..i + 1], threads[i + 1..]);
    AppendTwice(pre, SlotCalls(t), post);
    ClearRunAppend(env.failing, pre, SlotCalls(t) + post);
    ClearRunAppend(env.failing, SlotCalls(t), post);
    ClearRunAppend(env.failing, pre, SlotCalls(t));
    var x := ClearRun(env.failing, SlotCalls(t));
    AppendTwice([RefreshMemory], pre, x.calls);
    if x.outcome.Pass? {
      FailsAt(env.failing, SlotCalls(t), 3);
    }
  }

  /** The clear when every thread went through. */
  lemma ClearComplete(env: Env)
    requires ClearRun(env.failing, ThreadScript(env.threads)).outcome.Pass?
    ensures ClearUsedBreakpointSlotsSpec(env) == Trace([RefreshMemory] + ThreadScript(env.threads), Pass)
  {
  }

  /** A successful clear has opened, cleared and closed every live thread, in order. */
  lemma ClearReachesEveryThread(env: Env, i: nat)
    requires ClearUsedBreakpointSlotsSpec(env).outcome.Pass?
    requires i < |env.threads|
    ensures var cs := ClearUsedBreakpointSlotsSpec(env).calls;
      && |cs| == 1 + 3 * |env.threads|
      && cs[1 + 3 * i] == OpenThread(env.threads[i])
      && cs[2 + 3 * i] == UnsetSlotsFromThread(env.threads[i])
      && cs[3 + 3 * i] == CloseHandle(env.threads[i])
  {
    ThreadScriptAt(env.threads, i);
  }

  // ---------------------------------------------------------------------------
  // Attach

  function AttachSpec(env: Env, s: State): (t: Transition<Outcome>)
    ensures 0 < |t.calls| && t.calls[0] == CheckRemoteDebuggerPresent
    ensures CheckRemoteDebuggerPresent !in env.failing && env.debuggerPresent ==>
              t == Transition(s, [CheckRemoteDebuggerPresent], Fail(DebuggerError(AlreadyDebugged)))
    ensures t.result.Pass? <==>
              && CheckRemoteDebuggerPresent !in env.failing
              && !env.debuggerPresent
              && DebugActiveProcess(env.processId) !in env.failing
              && DebugSetProcessKillOnExit(false) !in env.failing
              && ClearUsedBreakpointSlotsSpec(env).outcome.Pass?
    ensures t.result.Pass? ==> t.state == s.(isDebugging := true)
    ensures t.result.Pass? ==>
              t.calls == [CheckRemoteDebuggerPresent, DebugActiveProcess(env.processId),
                          DebugSetProcessKillOnExit(false), RefreshMemory] + ThreadScript(env.threads)
    ensures t.result.Fail? ==> t.state == s
  {
    var check := [CheckRemoteDebuggerPresent];
    var start := check + [DebugActiveProcess(env.processId)];
    var killOnExit := start + [DebugSetProcessKillOnExit(false)];
    if CheckRemoteDebuggerPresent in env.failing then
      Transition(s, check, Fail(DebuggerError(CheckFailed)))
    else if env.debuggerPresent then
      Transition(s, check, Fail(DebuggerError(AlreadyDebugged)))
    else if DebugActiveProcess(env.processId) in env.failing then
      Transition(s, start, Fail(DebuggerError(StartFailed)))
    else if DebugSetProcessKillOnExit(false) in env.failing then
      Transition(s, killOnExit, Fail(DebuggerError(KillOnExitFailed)))
    else
      var clear := ClearUsedBreakpointSlotsSpec(env);
      if clear.outcome.Fail? then Transition(s, killOnExit + clear.calls, clear.outcome)
      else Transition(s.(isDebugging := true), killOnExit + clear.calls, Pass)
  }

  /** A failing Kernel32 step ends Attach with its own error, after exactly the calls up to
    * and including that step. */
  lemma AttachStepFailures(env: Env, s: State)
    ensures CheckRemoteDebuggerPresent in env.failing ==>
              && AttachSpec(env, s).calls == [CheckRemoteDebuggerPresent]
              && AttachSpec(env, s).result == Fail(DebuggerError(CheckFailed))
    ensures CheckRemoteDebuggerPresent !in env.failing && !env.debuggerPresent &&
            DebugActiveProcess(env.processId) in env.failing ==>
              && AttachSpec(env, s).calls == [CheckRemoteDebuggerPresent, DebugActiveProcess(env.processId)]
              && AttachSpec(env, s).result == Fail(DebuggerError(StartFailed))
    ensures CheckRemoteDebuggerPresent !in env.failing && !env.debuggerPresent &&
            DebugActiveProcess(env.processId) !in env.failing &&
            DebugSetProcessKillOnExit(false) in env.failing ==>
              && AttachSpec(env, s).calls == [CheckRemoteDebuggerPresent, DebugActiveProcess(env.processId),
                                              DebugSetProcessKillOnExit(false)]
              && AttachSpec(env, s).result == Fail(DebuggerError(KillOnExitFailed))
  {
    assert [CheckRemoteDebuggerPresent] + [DebugActiveProcess(env.processId)]
        == [CheckRemoteDebuggerPresent, DebugActiveProcess(env.processId)];
    assert [CheckRemoteDebuggerPresent] + [DebugActiveProcess(env.processId)] + [DebugSetProcessKillOnExit(false)]
        == [CheckRemoteDebuggerPresent, DebugActiveProcess(env.processId), DebugSetProcessKillOnExit(false)];
  }

  /** When every Kernel32 step of Attach succeeds but clearing the slots fails, Attach ends with
    * the clear's error, after the three steps and the clear's own calls. */
  lemma AttachClearFailure(env: Env, s: State)
    ensures CheckRemoteDebuggerPresent !in env.failing && !env.debuggerPresent &&
            DebugActiveProcess(env.processId) !in env.failing &&
            DebugSetProcessKillOnExit(false) !in env.failing &&
            ClearUsedBreakpointSlotsSpec(env).outcome.Fail? ==>
              && AttachSpec(env, s).calls == [CheckRemoteDebuggerPresent, DebugActiveProcess(env.processId),
                                              DebugSetProcessKillOnExit(false)] + ClearUsedBreakpointSlotsSpec(env).calls
              && AttachSpec(env, s).result == ClearUsedBreakpointSlotsSpec(env).outcome
  {
    assert [CheckRemoteDebuggerPresent] + [DebugActiveProcess(env.processId)] + [DebugSetProcessKillOnExit(false)]
        == [CheckRemoteDebuggerPresent, DebugActiveProcess(env.processId), DebugSetProcessKillOnExit(false)];
  }

  // ---------------------------------------------------------------------------
  // Breakpoint orchestration

  function AddBreakPointSpec(env: Env, s: State, bp: HardwareBreakPoint): (t: Transition<Outcome>)
    ensures |s.breakpoints| >= MaxHardwareBreakpointsCount ==>
              t == Transition(s, [], Fail(DebuggerError(NoFreeSlot)))
    ensures |s.breakpoints| < MaxHardwareBreakpointsCount ==>
              t.calls == [SuspendThreads, SetBreakPoint(bp.address), ResumeThreads]
    ensures t.result.Pass? <==>
              |s.breakpoints| < MaxHardwareBreakpointsCount && SetBreakPoint(bp.address) !in env.failing
    ensures t.result.Pass? ==> t.state == s.(breakpoints := s.breakpoints + [Armed(bp, env.threads)])
    ensures t.result.Fail? ==> t.state == s && t.result.error.DebuggerError?
    ensures WithinBound(s) ==> WithinBound(t.state)
  {
    if |s.breakpoints| >= MaxHardwareBreakpointsCount then
      Transition(s, [], Fail(DebuggerError(NoFreeSlot)))
    else
      var calls := [SuspendThreads, SetBreakPoint(bp.address), ResumeThreads];
      if SetBreakPoint(bp.address) in env.failing then
        Transition(s, calls, Fail(DebuggerError(BreakPointFailure)))
      else
        Transition(s.(breakpoints := s.breakpoints + [Armed(bp, env.threads)]), calls, Pass)
  }

  function RemoveBreakPointsSpec(env: Env, s: State): (t: Transition<Outcome>)
    ensures t.calls == [SuspendThreads] + Performed(env.failing, SweepCalls(UnSet, s.breakpoints)) + [ResumeThreads]
    ensures t.result.Pass? <==> forall i :: 0 <= i < |s.breakpoints| ==> UnSetBreakPoint(s.breakpoints[i].address) !in env.failing
    ensures t.result.Pass? ==> t.state == s.(breakpoints := [])
    ensures t.result.Fail? ==> t.result.error.DebuggerError?
    ensures t.state.isDebugging == s.isDebugging && t.state.isDetached == s.isDetached
    ensures |t.state.breakpoints| <= |s.breakpoints|
  {
    var sweep := SweepAll(env.failing, UnSet, s.breakpoints);
    SweepShape(env.failing, UnSet, s.breakpoints);
    var calls := [SuspendThreads] + sweep.calls + [ResumeThreads];
    if sweep.outcome.Fail? then
      Transition(s.(breakpoints := sweep.breakpoints), calls, Fail(DebuggerError(sweep.outcome.error.message)))
    else
      Transition(s.(breakpoints := []), calls, Pass)
  }

  /** Removing twice in a row: the second removal finds the list empty and cannot fail. */
  lemma RemoveBreakPointsTwice(env: Env, s: State)
    requires RemoveBreakPointsSpec(env, s).result.Pass?
    ensures var first := RemoveBreakPointsSpec(env, s);
      var second := RemoveBreakPointsSpec(env, first.state);
      && first.state.breakpoints == []
      && second == Transition(first.state, [SuspendThreads, ResumeThreads], Pass)
  {
  }

  /** A failed removal has unset the breakpoints before the failing one and kept the whole list. */
  lemma RemoveBreakPointsPartialFailure(env: Env, s: State)
    requires RemoveBreakPointsSpec(env, s).result.Fail?
    ensures var t := RemoveBreakPointsSpec(env, s); var k := |t.calls| - 3;
      && 0 <= k < |s.breakpoints|
      && |t.state.breakpoints| == |s.breakpoints|
      && (forall i :: 0 <= i < k ==> !t.state.breakpoints[i].isSet)
      && (forall i :: k <= i < |s.breakpoints| ==> t.state.breakpoints[i] == s.breakpoints[i])
  {
    SweepStopsAtFailure(env.failing, UnSet, s.breakpoints);
  }

  // ---------------------------------------------------------------------------
  // Detach

  function DetachSpec(env: Env, s: State): (t: Transition<Outcome>)
    ensures s.isDetached ==> t == Transition(s, [], Pass)
    ensures t.state.isDetached && t.state.isDebugging == s.isDebugging
    ensures !s.isDetached ==> 0 < |t.calls| && t.calls[0] == RefreshMemory
    ensures !s.isDetached && env.exited ==>
              t == Transition(s.(isDetached := true), [RefreshMemory], Pass)
    ensures !s.isDetached && !env.exited ==>
              (t.result.Pass? <==> RemoveBreakPointsSpec(env, s).result.Pass? &&
                                   DebugActiveProcessStop(env.processId) !in env.failing)
    ensures !s.isDetached && !env.exited && t.result.Pass? ==>
              t.state.breakpoints == [] && 0 < |t.calls| && t.calls[|t.calls| - 1] == DebugActiveProcessStop(env.processId)
    ensures WithinBound(s) ==> WithinBound(t.state)
  {
    if s.isDetached then Transition(s, [], Pass)
    else
      var s1 := s.(isDetached := true);
      if env.exited then Transition(s1, [RefreshMemory], Pass)
      else
        var rm := RemoveBreakPointsSpec(env, s1);
        var stop := DebugActiveProcessStop(env.processId);
        if rm.result.Fail? then Transition(rm.state, [RefreshMemory] + rm.calls, rm.result)
        else if stop in env.failing then
          Transition(rm.state, [RefreshMemory] + rm.calls + [stop], Fail(DebuggerError(StopFailed)))
        else Transition(rm.state, [RefreshMemory] + rm.calls + [stop], Pass)
  }

  /** Detach is idempotent: whatever the first call did, a second one does nothing at all. */
  lemma DetachIdempotent(env: Env, s: State)
    ensures var first := DetachSpec(env, s);
      DetachSpec(env, first.state) == Transition(first.state, [], Pass)
  {
  }

  // ---------------------------------------------------------------------------
  // One iteration of the debug-event loop (StartListener)

  datatype StepResult = Looping | Returned | Aborted(error: Error)

  /** okEvent ? DBG_CONTINUE : DBG_EXCEPTION_NOT_HANDLED */
  function StatusOf(okEvent: bool): ContinueStatus {
    if okEvent then DbgContinue else DbgExceptionNotHandled
  }

  /** The continuation status each kind of event is acknowledged with. */
  function ExpectedStatus(info: EventInfo): ContinueStatus {
    match info
    case Exception(code) => if code == STATUS_SINGLE_STEP then DbgContinue else DbgExceptionNotHandled
    case CreateThread(_) => DbgExceptionNotHandled
    case CreateProcess => DbgExceptionNotHandled
    case ExitThread => DbgExceptionNotHandled
    case ExitProcess => DbgExceptionNotHandled
    case LoadDll => DbgExceptionNotHandled
    case UnloadDll => DbgExceptionNotHandled
    case OutputDebugString => DbgExceptionNotHandled
    case Rip => DbgExceptionNotHandled
  }

  /**
   * The breakpoint-hit path: open the faulting thread, read its context, run the handler of
   * the first armed breakpoint at EIP, and write the context back when the handler asks.
   */
  function SingleStepSpec(env: Env, bps: seq<HardwareBreakPoint>, tid: ThreadId): (r: Trace)
    ensures 0 < |r.calls| && r.calls[0] == OpenThread(tid)
    ensures OpenThread(tid) in env.failing ==> r == Trace([OpenThread(tid)], Fail(DebuggerError(OpenThreadFailed)))
    ensures OpenThread(tid) !in env.failing ==> |r.calls| >= 2 && r.calls[1] == GetThreadContext(tid)
    ensures OpenThread(tid) !in env.failing && ContextOf(env, tid).None? ==>
              r.outcome == Fail(DebuggerError(GetContextFailed))
    ensures OpenThread(tid) !in env.failing && ContextOf(env, tid).Some? ==>
              var ctx := ContextOf(env, tid).value;
              match FirstHit(bps, ctx.eip)
              case None => r == Trace([OpenThread(tid), GetThreadContext(tid)], Pass)
              case Some(i) =>
                var reply := bps[i].handler(ctx);
                && |r.calls| == (if reply.modified then 4 else 3)
                && r.calls[2] == HandleException(bps[i].address)
                && (reply.modified ==> r.calls[3] == SetThreadContext(tid, reply.context))
                && (r.outcome.Pass? <==> !reply.modified || SetThreadContext(tid, reply.context) !in env.failing)
  {
    var open := [OpenThread(tid)];
    if OpenThread(tid) in env.failing then Trace(open, Fail(DebuggerError(OpenThreadFailed)))
    else
      var get := open + [GetThreadContext(tid)];
      match ContextOf(env, tid)
      case None => Trace(get, Fail(DebuggerError(GetContextFailed)))
      case Some(ctx) =>
        match FirstHit(bps, ctx.eip)
        case None => Trace(get, Pass)
        case Some(i) =>
          var handled := get + [HandleException(bps[i].address)];
          var reply := bps[i].handler(ctx);
          if !reply.modified then Trace(handled, Pass)
          else
            var write := SetThreadContext(tid, reply.context);
            if write in env.failing then Trace(handled + [write], Fail(DebuggerError(SetContextFailed)))
            else Trace(handled + [write], Pass)
  }

  /** The switch on the event kind, for an event that does not end the process. */
  function DispatchSpec(env: Env, s: State, ev: DebugEvent): (t: Transition<Outcome>)
    ensures t.state.isDebugging == s.isDebugging && t.state.isDetached == s.isDetached
    ensures |t.state.breakpoints| == |s.breakpoints|
    ensures ev.info.CreateThread? && t.result.Pass? ==>
              forall i :: 0 <= i < |s.breakpoints| ==>
                t.state.breakpoints[i] == s.breakpoints[i].(threads := s.breakpoints[i].threads + {ev.threadId})
    ensures ev.info.ExitThread? && t.result.Pass? ==>
              forall i :: 0 <= i < |s.breakpoints| ==>
                t.state.breakpoints[i] == s.breakpoints[i].(threads := s.breakpoints[i].threads - {ev.threadId})
    ensures !ev.info.CreateThread? && !ev.info.ExitThread? ==> t.state == s
    ensures !ev.info.CreateThread? && !ev.info.ExitThread? && !ev.info.IsSingleStep() ==>
              t == Transition(s, [], Pass)
  {
    match ev.info
    case Exception(code) =>
      if code == STATUS_SINGLE_STEP then
        var r := SingleStepSpec(env, s.breakpoints, ev.threadId);
        Transition(s, r.calls, r.outcome)
      else Transition(s, [], Pass)
    case CreateThread(h) =>
      var r := SweepAll(env.failing, AddThread(h, ev.threadId), s.breakpoints);
      SweepShape(env.failing, AddThread(h, ev.threadId), s.breakpoints);
      Transition(s.(breakpoints := r.breakpoints), r.calls, r.outcome)
    case ExitThread =>
      var r := SweepAll(env.failing, DropThread(ev.threadId), s.breakpoints);
      SweepShape(env.failing, DropThread(ev.threadId), s.breakpoints);
      Transition(s.(breakpoints := r.breakpoints), r.calls, r.outcome)
    case _ => Transition(s, [], Pass)
  }

  /**
   * After the switch: when IsDebugging has been cleared, detach cooperatively (flag, remove
   * breakpoints, acknowledge, stop debugging, return); otherwise acknowledge and loop.
   */
  function AcknowledgeSpec(env: Env, s: State, ev: DebugEvent, okEvent: bool): (t: Transition<StepResult>)
    ensures !s.isDebugging ==> t.state.isDetached && !t.state.isDebugging
    ensures !s.isDebugging && t.result.Returned? ==>
              && t.state.breakpoints == []
              && 2 <= |t.calls|
              && t.calls[|t.calls| - 2] == ContinueDebugEvent(ev.processId, ev.threadId, StatusOf(okEvent))
              && t.calls[|t.calls| - 1] == DebugActiveProcessStop(env.processId)
    ensures s.isDebugging ==> t.state == s && t.calls == [ContinueDebugEvent(ev.processId, ev.threadId, StatusOf(okEvent))]
    ensures s.isDebugging ==> t.result != Returned
    ensures !s.isDebugging ==> !t.result.Looping?
    ensures forall c :: c in t.calls && c.ContinueDebugEvent? ==> c.status == StatusOf(okEvent)
    ensures |t.state.breakpoints| <= |s.breakpoints|
  {
    var ack := ContinueDebugEvent(ev.processId, ev.threadId, StatusOf(okEvent));
    var stop := DebugActiveProcessStop(env.processId);
    if !s.isDebugging then
      var rm := RemoveBreakPointsSpec(env, s.(isDetached := true));
      if rm.result.Fail? then Transition(rm.state, rm.calls, Aborted(rm.result.error))
      else if ack in env.failing then
        Transition(rm.state, rm.calls + [ack], Aborted(DebuggerError(ContinueFailed)))
      else if stop in env.failing then
        Transition(rm.state, rm.calls + [ack, stop], Aborted(DebuggerError(StopFailed)))
      else
        Transition(rm.state, rm.calls + [ack, stop], Returned)
    else if ack in env.failing then
      Transition(s, [ack], Aborted(DebuggerError(ContinueFailed)))
    else
      Transition(s, [ack], Looping)
  }

  /** EXIT_PROCESS or RIP: flags down, acknowledge with okEvent still false, stop debugging. */
  function ExitEventSpec(env: Env, s: State, ev: DebugEvent): (t: Transition<StepResult>)
    ensures t.state == s.(isDebugging := false, isDetached := true)
    ensures 0 < |t.calls| && t.calls[0] == ContinueDebugEvent(ev.processId, ev.threadId, DbgExceptionNotHandled)
    ensures t.result == Returned <==>
              t.calls == [ContinueDebugEvent(ev.processId, ev.threadId, DbgExceptionNotHandled),
                          DebugActiveProcessStop(env.processId)] &&
              forall c :: c in t.calls ==> c !in env.failing
    ensures t.result != Looping
  {
    var s1 := s.(isDebugging := false, isDetached := true);
    var ack := ContinueDebugEvent(ev.processId, ev.threadId, StatusOf(false));
    var stop := DebugActiveProcessStop(env.processId);
    if ack in env.failing then Transition(s1, [ack], Aborted(DebuggerError(ContinueFailed)))
    else if stop in env.failing then Transition(s1, [ack, stop], Aborted(DebuggerError(StopFailed)))
    else Transition(s1, [ack, stop], Returned)
  }

  /** The switch never acknowledges the event itself: it makes no ContinueDebugEvent call. */
  lemma DispatchDoesNotAcknowledge(env: Env, s: State, ev: DebugEvent)
    ensures forall c :: c in DispatchSpec(env, s, ev).calls ==> !c.ContinueDebugEvent?
  {
    if ev.info.CreateThread? {
      SweepCallsAreSweeps(env.failing, AddThread(ev.info.threadHandle, ev.threadId), s.breakpoints);
    } else if ev.info.ExitThread? {
      SweepCallsAreSweeps(env.failing, DropThread(ev.threadId), s.breakpoints);
    }
  }

  /** The calls a sweep makes are breakpoint operations only, so never acknowledgements. */
  lemma SweepCallsAreSweeps(failing: set<Call>, op: Sweep, bps: seq<HardwareBreakPoint>)
    ensures forall c :: c in SweepAll(failing, op, bps).calls ==>
              c.UnSetBreakPoint? || c.SetToThread? || c.UnregisterThread?
  {
    var cs := SweepCalls(op, bps);
    forall c | c in SweepAll(failing, op, bps).calls
      ensures c.UnSetBreakPoint? || c.SetToThread? || c.UnregisterThread?
    {
      var j :| 0 <= j < |Performed(failing, cs)| && Performed(failing, cs)[j] == c;
      assert c == cs[j] == SweepCall(op, bps[j]);
    }
  }

  /** The last two calls of a log extended by a run of calls are the run's own. */
  lemma LastCalls(pre: seq<Call>, cs: seq<Call>)
    ensures 0 < |cs| ==> (pre + cs)[|pre + cs| - 1] == cs[|cs| - 1]
    ensures 1 < |cs| ==> (pre + cs)[|pre + cs| - 2] == cs[|cs| - 2]
  {
  }

  /** The handling of one received event, from the switch to the end of the loop body. */
  function EventSpec(env: Env, s: State, ev: DebugEvent): (t: Transition<StepResult>)
    ensures s.isDetached ==> t.state.isDetached
    ensures t.state.isDebugging ==> s.isDebugging
    ensures |t.state.breakpoints| <= |s.breakpoints|
    ensures t.result.Returned? ==> !t.state.isDebugging && t.state.isDetached
    ensures t.result.Looping? ==> t.state.isDetached == s.isDetached && t.state.isDebugging
    ensures ev.info.Ends() ==> t.state == s.(isDebugging := false, isDetached := true) && !t.result.Looping?
    ensures forall c :: c in t.calls && c.ContinueDebugEvent? ==> c.status == ExpectedStatus(ev.info)
  {
    if ev.info.Ends() then ExitEventSpec(env, s, ev)
    else
      var d := DispatchSpec(env, s, ev);
      DispatchDoesNotAcknowledge(env, s, ev);
      if d.result.Fail? then Transition(d.state, d.calls, Aborted(d.result.error))
      else
        var a := AcknowledgeSpec(env, d.state, ev, ev.info.IsSingleStep());
        Transition(a.state, d.calls + a.calls, a.result)
  }

  /**
   * One turn of `for (; IsDebugging;)`: the wait, then the event's handling. A stop
   * requested during the wait is observed when the wait returns.
   */
  function StepSpec(env: Env, s: State, tick: Tick): (t: Transition<StepResult>)
    requires s.isDebugging
    ensures 0 < |t.calls| && t.calls[0] == WaitForDebugEvent
    ensures s.isDetached ==> t.state.isDetached
    ensures t.state.isDebugging ==> !tick.stopRequested
    ensures WithinBound(s) ==> WithinBound(t.state)
    ensures t.result.Returned? ==> !t.state.isDebugging && t.state.isDetached
    ensures t.result.Looping? ==> t.state.isDetached == s.isDetached
    ensures tick.wait.TimedOut? ==>
              t == Transition(s.(isDebugging := !tick.stopRequested), [WaitForDebugEvent], Looping)
    ensures tick.wait.Received? && tick.wait.event.info.Ends() ==>
              t.state == s.(isDebugging := false, isDetached := true) && !t.result.Looping?
    ensures tick.wait.Received? ==>
              forall c :: c in t.calls && c.ContinueDebugEvent? ==> c.status == ExpectedStatus(tick.wait.event.info)
  {
    var s0 := s.(isDebugging := !tick.stopRequested);
    match tick.wait
    case TimedOut => Transition(s0, [WaitForDebugEvent], Looping)
    case Received(ev) =>
      var e := EventSpec(env, s0, ev);
      Transition(e.state, [WaitForDebugEvent] + e.calls, e.result)
  }

  /**
   * A turn that goes on looping ends with the event's acknowledgement, with the status its
   * kind calls for; a turn that returns ends with that acknowledgement and then the stop,
   * and, unless the event was the target's exit, with every breakpoint removed.
   */
  lemma EventAcknowledged(env: Env, s: State, ev: DebugEvent)
    ensures var t := EventSpec(env, s, ev);
      && (t.result.Looping? ==>
            0 < |t.calls| && t.calls[|t.calls| - 1] == ContinueDebugEvent(ev.processId, ev.threadId, ExpectedStatus(ev.info)))
      && (t.result.Returned? ==>
            && 2 <= |t.calls|
            && t.calls[|t.calls| - 2] == ContinueDebugEvent(ev.processId, ev.threadId, ExpectedStatus(ev.info))
            && t.calls[|t.calls| - 1] == DebugActiveProcessStop(env.processId))
      && (t.result.Returned? && !ev.info.Ends() ==> t.state.breakpoints == [])
  {
    var t := EventSpec(env, s, ev);
    if !ev.info.Ends() {
      var d := DispatchSpec(env, s, ev);
      assert ExpectedStatus(ev.info) == StatusOf(ev.info.IsSingleStep());
      if d.result.Pass? {
        var a := AcknowledgeSpec(env, d.state, ev, ev.info.IsSingleStep());
        assert t.calls == d.calls + a.calls;
        LastCalls(d.calls, a.calls);
      }
    }
  }

  /** The same for a whole turn: the wait comes first, so the last calls are the event's. */
  lemma StepAcknowledged(env: Env, s: State, tick: Tick)
    requires s.isDebugging && tick.wait.Received?
    ensures var t := StepSpec(env, s, tick); var ev := tick.wait.event;
      && (t.result.Looping? ==>
            t.calls[|t.calls| - 1] == ContinueDebugEvent(ev.processId, ev.threadId, ExpectedStatus(ev.info)))
      && (t.result.Returned? ==>
            && 3 <= |t.calls|
            && t.calls[|t.calls| - 2] == ContinueDebugEvent(ev.processId, ev.threadId, ExpectedStatus(ev.info))
            && t.calls[|t.calls| - 1] == DebugActiveProcessStop(env.processId))
      && (t.result.Returned? && !ev.info.Ends() ==> t.state.breakpoints == [])
  {
    var ev := tick.wait.event;
    var s0 := s.(isDebugging := !tick.stopRequested);
    var e := EventSpec(env, s0, ev);
    EventAcknowledged(env, s0, ev);
    LastCalls([WaitForDebugEvent], e.calls);
  }

  /**
   * What an aborted turn leaves for Run's final Detach. A failure in the switch or in the
   * plain acknowledgement keeps both flags, so the final Detach still detaches. A failure on
   * the exit path has already set IsDetached, so the final Detach makes no call at all.
   */
  lemma AbortedEventFlags(env: Env, s: State, ev: DebugEvent)
    ensures var t := EventSpec(env, s, ev);
      t.result.Aborted? && !ev.info.Ends() && s.isDebugging ==>
        t.state.isDebugging && t.state.isDetached == s.isDetached
    ensures var t := EventSpec(env, s, ev);
      t.result.Aborted? && ev.info.Ends() ==>
        !t.state.isDebugging && t.state.isDetached && DetachSpec(env, t.state).calls == []
  {
  }

  /**
   * A failure on the cooperative-stop path (removal, acknowledgement or stop) has already set
   * IsDetached, so the final Detach makes no call, and DebugActiveProcessStop has not succeeded.
   */
  lemma StopPathAbortSkipsDetach(env: Env, s: State, ev: DebugEvent, okEvent: bool)
    requires !s.isDebugging
    ensures var t := AcknowledgeSpec(env, s, ev, okEvent);
      t.result.Aborted? ==>
        && !t.state.isDebugging && t.state.isDetached
        && DetachSpec(env, t.state).calls == []
        && forall c :: c in t.calls && c.DebugActiveProcessStop? ==> c in env.failing
  {
    SweepCallsAreSweeps(env.failing, UnSet, s.breakpoints);
  }

  // ---------------------------------------------------------------------------
  // The whole listener and the background session

  datatype ListenerResult = Listening | Finished(outcome: Outcome)

  /**
   * StartListener over a finite run of ticks: loop while IsDebugging, and Detach once the
   * loop condition fails or the timeout path breaks out. `Listening` means the ticks ran
   * out while the engine was still debugging.
   */
  function ListenerSpec(env: Env, s: State, ticks: seq<Tick>): (t: Transition<ListenerResult>)
    decreases |ticks|
    ensures s.isDetached ==> t.state.isDetached
    ensures t.state.isDebugging ==> s.isDebugging
    ensures WithinBound(s) ==> WithinBound(t.state)
    ensures t.result == Finished(Pass) ==> t.state.isDetached && !t.state.isDebugging
    ensures t.result.Listening? ==> t.state.isDebugging
  {
    if !s.isDebugging then
      var d := DetachSpec(env, s);
      Transition(d.state, d.calls, Finished(d.result))
    else if ticks == [] then Transition(s, [], Listening)
    else
      var st := StepSpec(env, s, ticks[0]);
      match st.result
      case Looping =>
        var rest := ListenerSpec(env, st.state, ticks[1..]);
        Transition(rest.state, st.calls + rest.calls, rest.result)
      case Returned => Transition(st.state, st.calls, Finished(Pass))
      case Aborted(e) => Transition(st.state, st.calls, Finished(Fail(e)))
  }

  /**
   * A stop requested during the first wait ends the listener after that turn. A clean end
   * removes every breakpoint, except when the turn's event was the target's exit (which
   * leaves them as they were) or when the wait timed out and the target was already gone
   * or already detached.
   */
  lemma {:induction false} StopEndsListener(env: Env, s: State, ticks: seq<Tick>)
    requires s.isDebugging && ticks != [] && ticks[0].stopRequested
    ensures var t := ListenerSpec(env, s, ticks);
      && t.result.Finished? && !t.state.isDebugging
      && (t.result.outcome.Pass? ==> t.state.isDetached)
    ensures var t := ListenerSpec(env, s, ticks); var w := ticks[0].wait;
      && (t.result == Finished(Pass) && w.Received? && !w.event.info.Ends() ==> t.state.breakpoints == [])
      && (t.result == Finished(Pass) && w.TimedOut? && !s.isDetached && !env.exited ==> t.state.breakpoints == [])
      && (w.Received? && w.event.info.Ends() ==> t.state.breakpoints == s.breakpoints)
  {
    var st := StepSpec(env, s, ticks[0]);
    if ticks[0].wait.Received? {
      StepAcknowledged(env, s, ticks[0]);
    }
    if st.result.Looping? {
      assert !st.state.isDebugging;
      assert ListenerSpec(env, st.state, ticks[1..]).result.Finished?;
    }
  }

  datatype RunResult = StillRunning | Ended(session: Outcome, detach: Outcome)

  /**
   * The body of Run's background thread: Attach, then the listener, then a final Detach
   * whatever happened before; the exceptions of both parts are caught and reported.
   */
  function RunSpec(env: Env, s: State, ticks: seq<Tick>): (t: Transition<RunResult>)
    ensures t.result.Ended? ==> t.state.isDetached
    ensures t.result.StillRunning? ==> t.state.isDebugging && AttachSpec(env, s).result.Pass?
    ensures AttachSpec(env, s).result.Fail? ==>
              t.result == Ended(AttachSpec(env, s).result, DetachSpec(env, s).result)
    ensures WithinBound(s) ==> WithinBound(t.state)
  {
    var a := AttachSpec(env, s);
    var l :=
      if a.result.Pass? then
        var body := ListenerSpec(env, a.state, ticks);
        Transition(body.state, a.calls + body.calls, body.result)
      else Transition(a.state, a.calls, Finished(a.result));
    match l.result
    case Listening => Transition(l.state, l.calls, StillRunning)
    case Finished(o) =>
      var d := DetachSpec(env, l.state);
      Transition(d.state, l.calls + d.calls, Ended(o, d.result))
  }

  // ---------------------------------------------------------------------------
  // WaitForComeUp

  /**
   * One wait: report at once when debugging, otherwise sleep and look again. `raised` says
   * whether the background session set IsDebugging while this thread slept.
   */
  function WaitForComeUpSpec(s: State, waitTime: int, raised: bool): (t: Transition<bool>)
    ensures s.isDebugging ==> t == Transition(s, [], true)
    ensures !s.isDebugging ==> t.calls == [Sleep(waitTime)] && t.result == raised
    ensures t.state == s.(isDebugging := t.result)
  {
    if s.isDebugging then Transition(s, [], true)
    else Transition(s.(isDebugging := raised), [Sleep(waitTime)], raised)
  }

  /**
   * The attempts i, i+1, ... < repeatCount of the repeating overload. `raisedAt` is the
   * attempt during whose sleep the background session sets IsDebugging, if any.
   */
  function WaitForComeUpRepeatSpec(s: State, waitTime: int, repeatCount: int, raisedAt: Option<nat>, i: nat)
    : (t: Transition<bool>)
    decreases repeatCount - i
    ensures s.isDebugging ==> t == Transition(s, [], true)
    ensures t.state == s.(isDebugging := t.result)
    ensures forall c :: c in t.calls ==> c == Sleep(waitTime)
    ensures |t.calls| <= if repeatCount > i then repeatCount - i else 0
    ensures !s.isDebugging ==> (t.result <==> raisedAt.Some? && i <= raisedAt.value < repeatCount)
    ensures !s.isDebugging && t.result ==> |t.calls| == raisedAt.value - i + 1
    ensures !s.isDebugging && !t.result ==> |t.calls| == if repeatCount > i then repeatCount - i else 0
  {
    if repeatCount <= i then Transition(s, [], s.isDebugging)
    else
      var w := WaitForComeUpSpec(s, waitTime, raisedAt == Some(i));
      if w.result then w
      else
        var rest := WaitForComeUpRepeatSpec(w.state, waitTime, repeatCount, raisedAt, i + 1);
        Transition(rest.state, w.calls + rest.calls, rest.result)
  }
}
