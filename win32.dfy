/** The Win32 debugging values the engine receives from the operating system. */
module Win32 {

  /** A DWORD: thread and process identifiers, addresses in a 32-bit debuggee. */
  newtype uint32 = x: int | 0 <= x < 0x1_0000_0000

  type ThreadId = uint32
  type ProcessId = uint32

  /** The exception code of a single-step (trap flag or hardware breakpoint) exception. */
  const STATUS_SINGLE_STEP: uint32 := 0x8000_0004

  /**
   * A thread's register state as GetThreadContext returns it: the instruction pointer,
   * which the engine reads, and the rest of the register file, which it only passes on.
   */
  datatype ThreadContext = ThreadContext(eip: uint32, registers: seq<int>)

  /** The continuation status passed to ContinueDebugEvent. */
  datatype ContinueStatus =
    | DbgContinue             // DBG_CONTINUE, 0x00010002
    | DbgExceptionNotHandled  // DBG_EXCEPTION_NOT_HANDLED, 0x80010001

  /** The kind-specific part of a DEBUG_EVENT, one constructor per dwDebugEventCode. */
  datatype EventInfo =
    | Exception(exceptionCode: uint32)    // EXCEPTION_DEBUG_EVENT
    | CreateThread(threadHandle: uint32)  // CREATE_THREAD_DEBUG_EVENT
    | CreateProcess                       // CREATE_PROCESS_DEBUG_EVENT
    | ExitThread                          // EXIT_THREAD_DEBUG_EVENT
    | ExitProcess                         // EXIT_PROCESS_DEBUG_EVENT
    | LoadDll                             // LOAD_DLL_DEBUG_EVENT
    | UnloadDll                           // UNLOAD_DLL_DEBUG_EVENT
    | OutputDebugString                   // OUTPUT_DEBUG_STRING_EVENT
    | Rip                                 // RIP_EVENT
  {
    /** The events after which the debuggee is gone. */
    predicate Ends() {
      ExitProcess? || Rip?
    }

    /** A single-step exception: the only exception the engine treats as its own. */
    predicate IsSingleStep() {
      Exception? && exceptionCode == STATUS_SINGLE_STEP
    }
  }

  datatype DebugEvent = DebugEvent(processId: ProcessId, threadId: ThreadId, info: EventInfo)

  /** What one WaitForDebugEvent call returns: nothing within the interval, or an event. */
  datatype WaitResult = TimedOut | Received(event: DebugEvent)

  /**
   * One turn of the listener as seen from outside: what the wait returned, and whether
   * StopDebugging was called from another context while the wait was blocked.
   */
  datatype Tick = Tick(wait: WaitResult, stopRequested: bool)
}
