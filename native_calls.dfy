/**
 * The calls the engine makes into code it cannot see: Kernel32, the remote-process
 * collaborator (refresh, thread suspender) and the internals of HardwareBreakPoint.
 * None of their effects is modelled; each call is recorded, and a fixed environment
 * decides which of them fail and what the queries answer.
 */
module NativeCalls {
  import opened Results
  import opened Win32

  datatype Call =
    | CheckRemoteDebuggerPresent
    | DebugActiveProcess(processId: ProcessId)
    | DebugSetProcessKillOnExit(killOnExit: bool)
    | DebugActiveProcessStop(processId: ProcessId)
    | RefreshMemory
    | OpenThread(threadId: ThreadId)
    | CloseHandle(threadId: ThreadId)
    | UnsetSlotsFromThread(threadId: ThreadId)
    | SuspendThreads
    | ResumeThreads
    | SetBreakPoint(address: uint32)
    | UnSetBreakPoint(address: uint32)
    | SetToThread(address: uint32, threadHandle: uint32, threadId: ThreadId)
    | UnregisterThread(address: uint32, threadId: ThreadId)
    | WaitForDebugEvent
    | GetThreadContext(threadId: ThreadId)
    | HandleException(address: uint32)
    | SetThreadContext(threadId: ThreadId, context: ThreadContext)
    | ContinueDebugEvent(processId: ProcessId, threadId: ThreadId, status: ContinueStatus)
    | Sleep(milliseconds: int)

  /**
   * The world the engine runs against: the target's id, the calls that fail, what
   * CheckRemoteDebuggerPresent reports, whether RefreshMemory finds the process gone,
   * the live threads in enumeration order and the register state of each thread.
   */
  datatype Env = Env(
    processId: ProcessId,
    failing: set<Call>,
    debuggerPresent: bool,
    exited: bool,
    threads: seq<ThreadId>,
    contexts: map<ThreadId, ThreadContext>)

  /** What GetThreadContext yields for a thread: nothing when the call fails. */
  function ContextOf(env: Env, threadId: ThreadId): Option<ThreadContext> {
    if GetThreadContext(threadId) !in env.failing && threadId in env.contexts
    then Some(env.contexts[threadId]) else None
  }

  /** The position of the first call of `cs` that fails, or |cs| when none does. */
  function FirstFailure(failing: set<Call>, cs: seq<Call>): (k: nat)
    ensures k <= |cs|
    ensures forall j :: 0 <= j < k ==> cs[j] !in failing
    ensures k < |cs| ==> cs[k] in failing
  {
    if cs == [] then 0
    else if cs[0] in failing then 0
    else 1 + FirstFailure(failing, cs[1..])
  }

  /** The calls of `cs` a run actually makes: everything up to and including the first failure. */
  function Performed(failing: set<Call>, cs: seq<Call>): (p: seq<Call>)
    ensures p <= cs
    ensures (forall j :: 0 <= j < |cs| ==> cs[j] !in failing) ==> p == cs
    ensures (exists j :: 0 <= j < |cs| && cs[j] in failing) ==>
              0 < |p| && p[|p| - 1] in failing && forall j :: 0 <= j < |p| - 1 ==> p[j] !in failing
  {
    var k := FirstFailure(failing, cs);
    if k < |cs| then cs[..k + 1] else cs
  }

  /** The first failure is pinned down by the calls before it succeeding and it failing. */
  lemma FailsAt(failing: set<Call>, cs: seq<Call>, k: nat)
    requires k <= |cs|
    requires forall j :: 0 <= j < k ==> cs[j] !in failing
    requires k < |cs| ==> cs[k] in failing
    ensures FirstFailure(failing, cs) == k
    ensures Performed(failing, cs) == if k < |cs| then cs[..k + 1] else cs
  {
  }

  /** The first failure of a concatenation: in the first part if it has one, else after it. */
  lemma {:induction false} FirstFailureAppend(failing: set<Call>, a: seq<Call>, b: seq<Call>)
    ensures FirstFailure(failing, a + b) ==
              if FirstFailure(failing, a) < |a| then FirstFailure(failing, a)
              else |a| + FirstFailure(failing, b)
  {
    if a == [] {
      assert a + b == b;
    } else if a[0] !in failing {
      assert (a + b)[1..] == a[1..] + b;
      FirstFailureAppend(failing, a[1..], b);
    }
  }

  /** The trace of a run of calls: the calls made, and how the run ended. */
  datatype Trace = Trace(calls: seq<Call>, outcome: Outcome)

  /**
   * The operating system and the collaborators behind it. Every call is appended to `log`;
   * `env` fixes the answers.
   */
  class Native {
    const env: Env
    var log: seq<Call>

    constructor (env: Env)
      ensures this.env == env && log == []
    {
      this.env := env;
      log := [];
    }

    /** A call that reports failure (a false return, a null handle or an exception). */
    method Invoke(c: Call) returns (ok: bool)
      modifies this
      ensures log == old(log) + [c]
      ensures ok == (c !in env.failing)
    {
      log := log + [c];
      ok := c !in env.failing;
    }

    /** A call that has no failure path in the modelled code. */
    method Notify(c: Call)
      modifies this
      ensures log == old(log) + [c]
    {
      log := log + [c];
    }

    method CheckRemoteDebuggerPresent() returns (ok: bool, present: bool)
      modifies this
      ensures log == old(log) + [Call.CheckRemoteDebuggerPresent]
      ensures ok == (Call.CheckRemoteDebuggerPresent !in env.failing)
      ensures present == env.debuggerPresent
    {
      log := log + [Call.CheckRemoteDebuggerPresent];
      ok := Call.CheckRemoteDebuggerPresent !in env.failing;
      present := env.debuggerPresent;
    }

    /** RefreshMemory, then the remote process's validity and live threads. */
    method RefreshMemory() returns (exited: bool, threads: seq<ThreadId>)
      modifies this
      ensures log == old(log) + [Call.RefreshMemory]
      ensures exited == env.exited && threads == env.threads
    {
      log := log + [Call.RefreshMemory];
      exited, threads := env.exited, env.threads;
    }

    method GetThreadContext(threadId: ThreadId) returns (context: Option<ThreadContext>)
      modifies this
      ensures log == old(log) + [Call.GetThreadContext(threadId)]
      ensures context == ContextOf(env, threadId)
    {
      log := log + [Call.GetThreadContext(threadId)];
      context := ContextOf(env, threadId);
    }
  }
}
