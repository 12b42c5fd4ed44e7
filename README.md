# DirtyMagic debugger engine and global keyboard input in Dafny

This project models two parts of the DirtyMagic process-manipulation library.

**ProcessDebugger** attaches to a running Win32 process as its debugger and keeps
a bounded list of hardware breakpoints, at most one per x86 debug-address register
(DR0-DR3). It runs a debug-event loop. The loop:
- dispatches single-step exceptions to the handler of the armed breakpoint at EIP;
- registers and unregisters new and exiting threads with every breakpoint;
- acknowledges each event with `ContinueDebugEvent`;
- detaches when the process exits or `IsDebugging` has been cleared.

A static `SigIntHandler` stops every registered debugger on Ctrl+C.

**GlobalKeyboardInput** turns a key together with a set of modifiers into the batch of
`INPUT` records handed to `SendInput`. The generic modifier keys are pressed in a fixed
order. A left or right modifier key does not also press its own generic modifier. A
release is sent in reverse order.

Modules:

- `Results`: `Option`, the exception kinds (`DebuggerException`, `BreakPointException`,
  `Win32Exception`), `Outcome`, and the fact that appending to a log in two steps is
  appending both parts at once.
- `Win32`: DWORD values, debug events, continuation statuses and thread contexts. A
  `Tick` is one turn of the wait: what `WaitForDebugEvent` returned, and whether
  `StopDebugging` ran concurrently during the wait.
- `NativeCalls`: the operating-system calls and the opaque `HardwareBreakPoint` and
  `RemoteProcess` operations the engine makes. A `Native` object records every call in
  `log`. A fixed environment `Env` decides which calls fail, whether another debugger is
  present, whether the process has exited, the live threads in enumeration order and each
  thread's register state.
- `Breakpoints`: breakpoints as values, the first armed breakpoint at an address
  (`FirstHit`), and the sweeps `foreach (var bp in Breakpoints) bp.Op(...)`. A sweep stops
  at the first call that throws.
- `DebuggerSpec`: the engine as a pure state machine. Each operation is a function from
  `(Env, State)` to a `Transition(state, calls, result)`. The properties of the engine are
  stated on these functions.
- `ProcessDebugging`: the classes `ProcessDebugger` (fields `IsDebugging`, `IsDetached`,
  `Breakpoints`, `CatchSigInt`) and `SigIntHandler`. Each method is proved to make exactly
  the calls, and leave exactly the state, that its `DebuggerSpec` function describes.
- `KeyboardInput`: `Keys`, `Modifiers`, the `INPUT` record, the pure description
  `KeyInputs` of what `SendKey` sends, and the classes `User32` (a recording `SendInput`)
  and `GlobalKeyboardInput`.

## Model

| member | source | states |
|---|---|---|
| DebuggerSpec.AttachSpec | DirtyMagic.Process/ProcessDebugger.cs:31-49 | The checks run in source order: remote-debugger check, another debugger present, DebugActiveProcess, DebugSetProcessKillOnExit(false), then clearing the slots. Attach succeeds iff every step succeeds. Only then is IsDebugging set, after exactly the calls check, start, kill-on-exit, RefreshMemory and the per-thread clearing. Any failure leaves the state unchanged. |
| DebuggerSpec.AttachStepFailures | DirtyMagic.Process/ProcessDebugger.cs:34-44 | A failing remote-debugger check, DebugActiveProcess or DebugSetProcessKillOnExit ends Attach with its own message, after exactly the calls up to and including that step. |
| DebuggerSpec.AttachClearFailure | DirtyMagic.Process/ProcessDebugger.cs:46 | When the three Kernel32 steps succeed and clearing the slots fails, Attach ends with the clear's error, after the three steps and exactly the clear's calls. |
| ProcessDebugging.ProcessDebugger.Attach | DirtyMagic.Process/ProcessDebugger.cs:31-49 | Makes exactly AttachSpec's calls, reaches its state and result, and keeps the breakpoint bound. |
| DebuggerSpec.ClearUsedBreakpointSlotsSpec | DirtyMagic.Process/ProcessDebugger.cs:51-65 | RefreshMemory first, then the per-thread calls up to and including the first that fails. Succeeds iff no call of the script fails. A failure is a BreakPointException. |
| DebuggerSpec.SlotCalls | DirtyMagic.Process/ProcessDebugger.cs:56-63 | Definition: one thread's OpenThread, UnsetSlotsFromThread and CloseHandle, in that order. ThreadScriptAt and ClearReachesEveryThread state where these calls fall in the clearing run. |
| DebuggerSpec.ClearSlotsError | DirtyMagic.Process/ProcessDebugger.cs:57-63 | Definition: the BreakPointException of each failing call. OpenThread gives "Can't open thread for access" (line 58) and CloseHandle gives "Failed to close thread handle" (line 63). A failing UnsetSlotsFromThread gives the placeholder BreakPointFailure message. ClearRun and ClearSplit state which call raised it. |
| DebuggerSpec.ThreadScript | DirtyMagic.Process/ProcessDebugger.cs:54-64 | Three calls per live thread. |
| DebuggerSpec.ThreadScriptAppend | DirtyMagic.Process/ProcessDebugger.cs:54-64 | The script for two runs of threads is their two scripts in turn. |
| DebuggerSpec.ThreadScriptAt | DirtyMagic.Process/ProcessDebugger.cs:54-64 | Thread i is opened at position 3i, cleared at 3i+1 and closed at 3i+2. |
| DebuggerSpec.ClearRun | DirtyMagic.Process/ProcessDebugger.cs:54-64 | The calls made stop at the first failing one. The run passes iff no call fails. The error is named by the failing call: "Can't open thread for access" for OpenThread, "Failed to close thread handle" for CloseHandle. |
| DebuggerSpec.ClearRunAppend | DirtyMagic.Process/ProcessDebugger.cs:54-64 | Two runs in sequence: the second runs only when the first went through. |
| DebuggerSpec.ClearSplit | DirtyMagic.Process/ProcessDebugger.cs:54-64 | After i clean threads, thread i either ends the clear with its failure or extends the clean prefix. |
| DebuggerSpec.ClearComplete | DirtyMagic.Process/ProcessDebugger.cs:51-65 | When no call fails, the clear is RefreshMemory followed by the whole script, and it passes. |
| DebuggerSpec.ClearReachesEveryThread | DirtyMagic.Process/ProcessDebugger.cs:51-65 | A successful clear opened, cleared and closed every live thread, in enumeration order. |
| ProcessDebugging.ProcessDebugger.ClearUsedBreakpointSlots | DirtyMagic.Process/ProcessDebugger.cs:51-65 | The thread loop makes exactly the spec's calls and returns its outcome. |
| ProcessDebugging.ProcessDebugger.ClearThreadSlots | DirtyMagic.Process/ProcessDebugger.cs:56-63 | One thread's open, clear and close, ending at the first failure. |
| Breakpoints.Armed | DirtyMagic.Process/ProcessDebugger.cs:76 | Definition: the abstract effect of a successful Set, the breakpoint armed on every live thread. AddBreakPointSpec states that it is appended only then. |
| DebuggerSpec.AddBreakPointSpec | DirtyMagic.Process/ProcessDebugger.cs:67-84 | With four breakpoints already, it fails with "Can't set any more breakpoints" and makes no call. Otherwise it suspends, sets and resumes. Success iff there is a free slot and Set does not throw; the armed breakpoint is then appended. On failure the list is unchanged and the BreakPointException is re-raised as a DebuggerException. The bound of four is preserved. |
| ProcessDebugging.ProcessDebugger.AddBreakPoint | DirtyMagic.Process/ProcessDebugger.cs:67-84 | Makes exactly AddBreakPointSpec's calls, reaches its state and result, and keeps the bound. |
| Breakpoints.FirstHit | DirtyMagic.Process/ProcessDebugger.cs:184-187 | Returns the index of the first breakpoint that is armed at EIP, or, when none is, says so. |
| Breakpoints.SweepEffect | DirtyMagic.Process/ProcessDebugger.cs:92-93 | Definition: the abstract effect of each per-breakpoint call. UnSet (line 93) disarms the breakpoint and removes it from every thread. SetToThread (line 203) adds the new thread, and UnregisterThread (line 210) drops it. UnSetDisarmsAll, AddThreadReachesAll and DropThreadReachesAll state it for whole lists. |
| Breakpoints.SweepAll | DirtyMagic.Process/ProcessDebugger.cs:92-93 | Definition: a foreach over the list that stops at the first call that throws. SweepAllAt, SweepShape, SweepInOrder and SweepStopsAtFailure state its properties. |
| Breakpoints.SweepAllAt | DirtyMagic.Process/ProcessDebugger.cs:92-93 | A sweep whose first throwing call is at k: the breakpoints before k have the effect, and the calls end at k. |
| Breakpoints.EffectsSplice | DirtyMagic.Process/ProcessDebugger.cs:92-93 | A list whose first k entries have the effect and whose rest is untouched is the sweep's list. |
| Breakpoints.SweepShape | DirtyMagic.Process/ProcessDebugger.cs:92-93 | A sweep keeps length, order and addresses. It succeeds iff no call throws, and then it has applied the effect to every breakpoint. |
| Breakpoints.SweepInOrder | DirtyMagic.Process/ProcessDebugger.cs:92-93 | A successful sweep makes one call per breakpoint, in list order. |
| Breakpoints.SweepStopsAtFailure | DirtyMagic.Process/ProcessDebugger.cs:92-93 | A failed sweep: the breakpoints before the throwing one are done, and it and the rest are untouched. |
| Breakpoints.UnSetDisarmsAll | DirtyMagic.Process/ProcessDebugger.cs:92-93 | After a successful UnSet sweep no breakpoint is armed or installed on any thread. |
| Breakpoints.AddThreadReachesAll | DirtyMagic.Process/ProcessDebugger.cs:200-205 | After a successful sweep for CREATE_THREAD, every breakpoint is registered on the new thread. |
| Breakpoints.DropThreadReachesAll | DirtyMagic.Process/ProcessDebugger.cs:207-212 | After a successful sweep for EXIT_THREAD, no breakpoint keeps the thread. |
| ProcessDebugging.ProcessDebugger.SweepBreakpoints | DirtyMagic.Process/ProcessDebugger.cs:92-93 | The foreach loop over Breakpoints produces exactly SweepAll's list, calls and outcome. |
| DebuggerSpec.RemoveBreakPointsSpec | DirtyMagic.Process/ProcessDebugger.cs:86-102 | Suspend, then UnSet in list order up to the first failure, then resume. It succeeds iff no UnSet throws, and then the list is empty. A failure surfaces as a DebuggerException. The flags are unchanged. |
| ProcessDebugging.ProcessDebugger.RemoveBreakPoints | DirtyMagic.Process/ProcessDebugger.cs:86-102 | Makes exactly RemoveBreakPointsSpec's calls, reaches its state and result. |
| DebuggerSpec.RemoveBreakPointsTwice | DirtyMagic.Process/ProcessDebugger.cs:86-102 | After a successful removal, removing again only suspends and resumes, and succeeds. |
| DebuggerSpec.RemoveBreakPointsPartialFailure | DirtyMagic.Process/ProcessDebugger.cs:88-101 | A failed removal keeps the whole list. The entries before the failing one are disarmed; it and the rest are as they were. |
| ProcessDebugging.ProcessDebugger.StopDebugging | DirtyMagic.Process/ProcessDebugger.cs:104 | Clears IsDebugging and changes nothing else. |
| DebuggerSpec.DetachSpec | DirtyMagic.Process/ProcessDebugger.cs:111-125 | Once detached it does nothing. Otherwise it sets IsDetached and refreshes. An exited process then makes no further call. Otherwise it removes the breakpoints and stops debugging, and it succeeds iff both succeed, ending with an empty list. IsDebugging is untouched. |
| DebuggerSpec.DetachIdempotent | DirtyMagic.Process/ProcessDebugger.cs:111-125 | A second Detach, whatever the first did, makes no call and changes nothing. |
| ProcessDebugging.ProcessDebugger.Detach | DirtyMagic.Process/ProcessDebugger.cs:111-125 | Makes exactly DetachSpec's calls, reaches its state and result. |
| DebuggerSpec.SingleStepSpec | DirtyMagic.Process/ProcessDebugger.cs:163-195 | Open the thread, then read its context; each failure has its own message. With no armed breakpoint at EIP it passes after those two calls. Otherwise the first armed breakpoint at EIP handles it, and the context is written back iff the handler reports a change; the write's failure is an error. |
| ProcessDebugging.ProcessDebugger.SingleStep | DirtyMagic.Process/ProcessDebugger.cs:163-195 | Makes exactly SingleStepSpec's calls and returns its outcome. |
| DebuggerSpec.DispatchSpec | DirtyMagic.Process/ProcessDebugger.cs:142-213 | Flags untouched, list length kept. On success, CREATE_THREAD adds the thread to every breakpoint and EXIT_THREAD drops it from every breakpoint; on failure the list keeps its length. Other events leave the state alone. Events other than these and the single step make no call. |
| ProcessDebugging.ProcessDebugger.DispatchEvent | DirtyMagic.Process/ProcessDebugger.cs:142-213 | Makes exactly DispatchSpec's calls, reaches its state and result. |
| DebuggerSpec.DispatchDoesNotAcknowledge | DirtyMagic.Process/ProcessDebugger.cs:142-213 | The switch itself never calls ContinueDebugEvent. |
| DebuggerSpec.SweepCallsAreSweeps | DirtyMagic.Process/ProcessDebugger.cs:200-212 | Every call a thread sweep makes is UnSetBreakPoint, SetToThread or UnregisterThread, so the sweeps never acknowledge an event. |
| DebuggerSpec.StatusOf | DirtyMagic.Process/ProcessDebugger.cs:151-154 | Definition: the `okEvent ? DBG_CONTINUE : DBG_EXCEPTION_NOT_HANDLED` choice. AcknowledgeSpec and ExitEventSpec state which status each acknowledgement carries. |
| DebuggerSpec.ExpectedStatus | DirtyMagic.Process/ProcessDebugger.cs:141-166 | Definition: DBG_CONTINUE exactly for a single-step exception, because only line 166 sets okEvent. EventSpec, EventAcknowledged and StepAcknowledged state that every acknowledgement carries it. |
| DebuggerSpec.AcknowledgeSpec | DirtyMagic.Process/ProcessDebugger.cs:215-228 | If IsDebugging was cleared, it sets IsDetached and never loops. A return then means the breakpoints were removed, and the calls end with the acknowledgement and DebugActiveProcessStop. Otherwise it makes exactly one ContinueDebugEvent, leaves the state unchanged and never returns. Every acknowledgement carries okEvent's status. |
| ProcessDebugging.ProcessDebugger.Acknowledge | DirtyMagic.Process/ProcessDebugger.cs:215-228 | Makes exactly AcknowledgeSpec's calls, reaches its state and result. |
| DebuggerSpec.ExitEventSpec | DirtyMagic.Process/ProcessDebugger.cs:144-159 | EXIT_PROCESS or RIP: IsDebugging cleared and IsDetached set. It acknowledges with DBG_EXCEPTION_NOT_HANDLED, then stops debugging. It returns iff both succeed, and it never loops. |
| ProcessDebugging.ProcessDebugger.ExitEvent | DirtyMagic.Process/ProcessDebugger.cs:144-159 | Makes exactly ExitEventSpec's calls, reaches its state and result. |
| DebuggerSpec.EventSpec | DirtyMagic.Process/ProcessDebugger.cs:141-228 | One received event. IsDetached never goes back and IsDebugging never comes back. Returning means detached and not debugging. Looping keeps the flags. Every ContinueDebugEvent carries DBG_CONTINUE exactly for a single-step exception. |
| DebuggerSpec.EventAcknowledged | DirtyMagic.Process/ProcessDebugger.cs:141-228 | A looping turn ends with ContinueDebugEvent for this event, with the status its kind calls for. A returning turn ends with that acknowledgement and then DebugActiveProcessStop. A return that is not the exit event has removed every breakpoint. |
| ProcessDebugging.ProcessDebugger.HandleEvent | DirtyMagic.Process/ProcessDebugger.cs:141-228 | Makes exactly EventSpec's calls, reaches its state and result. |
| DebuggerSpec.StepSpec | DirtyMagic.Process/ProcessDebugger.cs:130-228 | One loop turn: the wait first. A timeout loops with the calls [WaitForDebugEvent] and the state unchanged apart from a concurrent stop. The flags and the bound are kept as for EventSpec. |
| DebuggerSpec.StepAcknowledged | DirtyMagic.Process/ProcessDebugger.cs:130-228 | For a received event, as EventAcknowledged: a looping turn ends with the acknowledgement, a returning turn with the acknowledgement and the stop, and a cooperative return leaves no breakpoint. |
| DebuggerSpec.AbortedEventFlags | DirtyMagic.Process/ProcessDebugger.cs:141-228 | A failure in the switch or in the plain acknowledgement keeps both flags, so Run's final Detach still detaches. A failure on the EXIT_PROCESS/RIP path has already cleared IsDebugging and set IsDetached, so that Detach makes no call. |
| DebuggerSpec.StopPathAbortSkipsDetach | DirtyMagic.Process/ProcessDebugger.cs:215-223 | A failure on the cooperative-stop path has set IsDetached, so Run's final Detach makes no call, and no DebugActiveProcessStop has succeeded. |
| ProcessDebugging.ProcessDebugger.ListenerStep | DirtyMagic.Process/ProcessDebugger.cs:130-228 | Makes exactly StepSpec's calls, reaches its state and result. |
| DebuggerSpec.ListenerSpec | DirtyMagic.Process/ProcessDebugger.cs:127-232 | The loop over the turns. It detaches when IsDebugging is found false. A clean finish leaves the engine detached and not debugging. The bound is kept. |
| DebuggerSpec.StopEndsListener | DirtyMagic.Process/ProcessDebugger.cs:130-232 | A stop requested during the first wait ends the listener after that turn, not debugging, and detached when the run succeeds. A clean end has removed every breakpoint when the event was not the exit, or when the wait timed out on a live, attached target; the exit event leaves them as they were. |
| ProcessDebugging.ProcessDebugger.StartListener | DirtyMagic.Process/ProcessDebugger.cs:127-232 | The while loop makes exactly ListenerSpec's calls, reaches its state and result. |
| DebuggerSpec.RunSpec | DirtyMagic.Process/ProcessDebugger.cs:234-265 | Attach, then listen, then Detach in any case. An ended session is detached. A failed Attach skips the listener and reports both outcomes. The bound is kept. |
| ProcessDebugging.ProcessDebugger.Run | DirtyMagic.Process/ProcessDebugger.cs:234-265 | Makes exactly RunSpec's calls, reaches its state and result. |
| DebuggerSpec.WaitForComeUpSpec | DirtyMagic.Process/ProcessDebugger.cs:267-274 | Returns true at once, with no sleep, when debugging. Otherwise it sleeps once for waitTime and returns IsDebugging as it then is. |
| ProcessDebugging.ProcessDebugger.WaitForComeUp | DirtyMagic.Process/ProcessDebugger.cs:267-274 | Makes exactly WaitForComeUpSpec's calls and returns its result. |
| DebuggerSpec.WaitForComeUpRepeatSpec | DirtyMagic.Process/ProcessDebugger.cs:276-285 | Returns true at once when debugging. Otherwise it makes at most repeatCount sleeps of waitTime, and it returns true iff the session came up during one of them. After exactly that many sleeps it returns; with none it returns the final IsDebugging. |
| ProcessDebugging.ProcessDebugger.WaitForComeUpRepeat | DirtyMagic.Process/ProcessDebugger.cs:276-285 | The for loop makes exactly WaitForComeUpRepeatSpec's calls and returns its result. |
| ProcessDebugging.ProcessDebugger.constructor | DirtyMagic.Process/ProcessDebugger.cs:15-29 | A new debugger is neither debugging nor detached, and has no breakpoints. |
| ProcessDebugging.ProcessDebugger.SetCatchSigInt | DirtyMagic.Process/ProcessDebugger.cs:287-299 | Stores the flag. true registers the debugger with SigIntHandler; false removes its first registration. The engine state is unchanged. |
| ProcessDebugging.RemoveFirst | DirtyMagic.Process/ProcessDebugger.cs:322 | List.Remove: unchanged when absent, otherwise one element shorter. |
| ProcessDebugging.RemoveFirstCount | DirtyMagic.Process/ProcessDebugger.cs:322 | Exactly one occurrence of the debugger goes, and nothing else. |
| ProcessDebugging.RemoveFirstAt | DirtyMagic.Process/ProcessDebugger.cs:322 | It is the first occurrence that goes; the rest keeps its order. |
| ProcessDebugging.AddThenRemove | DirtyMagic.Process/ProcessDebugger.cs:320-322 | Registering and then unregistering a debugger that was not registered restores the list. |
| ProcessDebugging.SigIntHandler.constructor | DirtyMagic.Process/ProcessDebugger.cs:304 | The instance list starts empty. |
| ProcessDebugging.SigIntHandler.AddInstance | DirtyMagic.Process/ProcessDebugger.cs:320 | Appends the debugger. |
| ProcessDebugging.SigIntHandler.RemoveInstance | DirtyMagic.Process/ProcessDebugger.cs:322 | Removes its first occurrence. |
| ProcessDebugging.SigIntHandler.CancelKeyPress | DirtyMagic.Process/ProcessDebugger.cs:308-317 | Cancels the termination iff some debugger is registered. It stops every registered debugger and changes nothing else. |
| KeyboardInput.Int16 | DirtyMagic.Input/Input/GlobalKeyboardInput.cs:49 | The `(short)` cast gives a value in the 16-bit range congruent to the key modulo 65536, and leaves in-range codes alone. |
| KeyboardInput.Clear | DirtyMagic.Input/Input/GlobalKeyboardInput.cs:40-41 | `modifiers & ~keyMod` never adds a modifier, drops each modifier in the mask and keeps each one outside it. |
| KeyboardInput.KeyToModifier | DirtyMagic.Input/Input/GlobalKeyboardInput.cs:67-83 | Ctrl iff LControlKey or RControlKey; Alt iff LMenu or RMenu; Shift iff LShiftKey or RShiftKey. At most one modifier. |
| KeyboardInput.MakeInput | DirtyMagic.Input/Input/GlobalKeyboardInput.cs:47-52 | Definition: the record for one key: KEYEVENTF_KEYUP or no flag, the `(short)` cast key code, with no scan code, no timestamp and the caller's extra info. KeyInputsShape and GenericKeySent state what follows from it. |
| KeyboardInput.ModifierKeys | DirtyMagic.Input/Input/GlobalKeyboardInput.cs:87-93 | One generic key per pressed modifier, at most three in all. ControlKey, Menu and ShiftKey each appear iff their modifier is pressed, in the order ControlKey, Menu, ShiftKey. |
| KeyboardInput.ModifierInputs | DirtyMagic.Input/Input/GlobalKeyboardInput.cs:95-106 | One record per pressed modifier: the record for the i-th modifier key, in order. |
| KeyboardInput.GlobalKeyboardInput.BuildModifiersInput | DirtyMagic.Input/Input/GlobalKeyboardInput.cs:85-107 | Filling the key list and mapping it yields exactly ModifierInputs. |
| KeyboardInput.Reverse | DirtyMagic.Input/Input/GlobalKeyboardInput.cs:60-61 | Same length; element i is the original's element at the mirrored position. |
| KeyboardInput.ReverseMembers | DirtyMagic.Input/Input/GlobalKeyboardInput.cs:60-61 | Reversal keeps exactly the same elements. |
| KeyboardInput.PressOrder | DirtyMagic.Input/Input/GlobalKeyboardInput.cs:39-55 | Definition: the key's own modifier is cleared, the remaining generic modifier keys come in press order, then the key unless it is None. PressLayout, GenericKeySent and ModifierSentUnlessOwn state its properties. |
| KeyboardInput.KeyInputs | DirtyMagic.Input/Input/GlobalKeyboardInput.cs:37-61 | Definition: PressOrder, reversed for a release. KeyInputsShape, PressLayout, ReleaseLayout, ReleaseMirrorsPress and NothingToSend state its properties. |
| KeyboardInput.KeyInputsShape | DirtyMagic.Input/Input/GlobalKeyboardInput.cs:37-65 | SendKey sends one record per remaining modifier, plus one when the key is not None. Each record has KEYUP iff up, scan 0, time 0 and the extra info. |
| KeyboardInput.PressLayout | DirtyMagic.Input/Input/GlobalKeyboardInput.cs:43-55 | A press sends the remaining modifiers first, in order, then the key last. |
| KeyboardInput.ReleaseLayout | DirtyMagic.Input/Input/GlobalKeyboardInput.cs:43-61 | A release sends the key first, then the remaining modifiers in reverse order. |
| KeyboardInput.ReleaseMirrorsPress | DirtyMagic.Input/Input/GlobalKeyboardInput.cs:37-65 | The release batch is the press batch with KEYUP set on every record, reversed. |
| KeyboardInput.NothingToSend | DirtyMagic.Input/Input/GlobalKeyboardInput.cs:57-58 | Nothing is sent iff the key is None and no modifier is held. |
| KeyboardInput.ModifierRecordIn | DirtyMagic.Input/Input/GlobalKeyboardInput.cs:87-106 | A generic modifier key's record is among the modifier records iff that key is in the list. |
| KeyboardInput.GenericKeySent | DirtyMagic.Input/Input/GlobalKeyboardInput.cs:39-55 | A generic modifier key is sent iff it remains after clearing, or the key itself truncates to it. |
| KeyboardInput.ModifierSentUnlessOwn | DirtyMagic.Input/Input/GlobalKeyboardInput.cs:39-43 | Each generic modifier key is sent iff its modifier is held and the key is not that modifier's left or right key, or the key truncates to that code. Only the key's own modifier is dropped. |
| KeyboardInput.GenericControlKeySentTwice | DirtyMagic.Input/Input/GlobalKeyboardInput.cs:67-83 | Only the left and right keys are mapped: the generic ControlKey with Ctrl held sends ControlKey twice. |
| KeyboardInput.User32.SendInput | DirtyMagic.Input/Input/GlobalKeyboardInput.cs:63 | Records the batch. All its records are inserted unless the call, counted by the number of batches sent before it, is one that finds input blocked. |
| KeyboardInput.GlobalKeyboardInput.SendKey | DirtyMagic.Input/Input/GlobalKeyboardInput.cs:37-65 | Sends exactly KeyInputs as one batch, or nothing when it is empty. A short insert count for that call raises Win32Exception. |
| KeyboardInput.SendOutcome | DirtyMagic.Input/Input/GlobalKeyboardInput.cs:63-64 | Definition: a non-empty batch that comes back short raises Win32Exception; an empty batch is never sent. SendKey and KeyPressOutcome state its use. |
| KeyboardInput.KeyPressSpec | DirtyMagic.Input/Input/GlobalKeyboardInput.cs:15-22 | Definition: the press batch, then the release batch unless the press threw; each SendInput call gets its own answer. KeyPressOutcome and KeyPressMirrors state its properties. |
| KeyboardInput.KeyPressOutcome | DirtyMagic.Input/Input/GlobalKeyboardInput.cs:15-22 | Nothing to send: no batch, and success. Otherwise the press batch is sent first. A blocked press raises Win32Exception and sends no release. Otherwise the release batch is sent too, and it raises Win32Exception exactly when that call is blocked, leaving the key and modifiers held. Every failure is Win32Exception. |
| KeyboardInput.KeyPressMirrors | DirtyMagic.Input/Input/GlobalKeyboardInput.cs:15-22 | A completed key press with a key or a modifier sends two batches, the second being the first released and reversed. |
| KeyboardInput.GlobalKeyboardInput.KeyPress | DirtyMagic.Input/Input/GlobalKeyboardInput.cs:15-22 | Sends exactly KeyPressSpec's batches, counted from the batches already sent, and returns its outcome. |

## Left out

- Operating-system effects: Kernel32, User32 and the remote-process helpers are not
  modelled. Each call is recorded in order, and the environment fixes its answer. A
  Kernel32 or helper call fails the same way every time, and every RefreshMemory sees the
  same thread list and exit status. SendInput is the exception: its answer is fixed per call.
- HardwareBreakPoint internals: Set, UnSet, SetToThread, UnregisterThread,
  HandleException and UnsetSlotsFromThread are opaque calls with an abstract effect.
  - A successful Set arms the breakpoint on the live threads.
  - Their BreakPointException texts are not part of this model. One placeholder text
    stands for all of them.
  - Choosing debug-register slots and the debug registers themselves are not modelled.
- Notify calls never fail: RefreshMemory, SuspendThreads, ResumeThreads, WaitForDebugEvent,
  HandleException and Sleep are recorded but cannot throw. The properties of
  RemoveBreakPointsTwice, RemoveBreakPointsSpec, AddBreakPointSpec, SingleStepSpec,
  DetachSpec, the listener (StepSpec, ListenerSpec) and WaitForComeUpSpec and
  WaitForComeUpRepeatSpec depend on this. In particular, Thread.Sleep throws for a negative
  waitTime other than -1 and never returns for -1 (an infinite wait). The model records a
  Sleep call for either and goes on.
- `Breakpoints` is a public, mutable List in the source (ProcessDebugger.cs:21). The model
  changes it only through the engine's own operations, so the bound of four entries
  (DebuggerSpec.WithinBound, ProcessDebugger.Valid, AddBreakPointSpec) and the absence of
  null entries hold only as long as no caller edits the list directly.
- Breakpoints are values in the list, not shared objects, so aliasing with the caller is
  not captured. A null entry is not possible; the `e != null` test of line 184 is therefore
  not modelled.
- ContextWrapper: the handler receives the register context as a value and returns whether
  it changed it, together with the new context.
- Threads and timing:
  - The background thread of Run is modelled as a call on the same object, and Join is not
    modelled.
  - A concurrent StopDebugging is modelled only during the wait of a loop turn
    (`Tick.stopRequested`); a Ctrl+C during the rest of a turn is not.
  - The wait interval of 200 ms is not modelled.
- ListenerSpec: the listener runs over a finite sequence of turns. When they run out while
  the engine is still debugging, the result is `Listening`; the real loop would go on
  waiting. ListenerSpec states `Listening ==> t.state.isDebugging`, but not the converse
  (that the loop would never end by itself).
- WaitForComeUp: Thread.Sleep is a recorded `Sleep` call. Whether the background session
  raised IsDebugging during a sleep is a parameter (`raised`, `raisedAt`).
- The Console messages Run prints are not modelled. Run returns the session's and the
  final Detach's outcomes instead; it catches DebuggerException and every other exception
  alike.
- The INPUT `Type` field (always KEYBOARD here) and `INPUT.Size` are not modelled.
- Modifiers bits other than Ctrl, Alt and Shift are not modelled.
- SendInput reports an insert count; a blocked input stream is modelled as inserting
  nothing, and partial inserts are not distinguished. Which SendInput calls find input
  blocked is fixed in advance per call (`User32.blockedAt`, by the number of batches sent
  before the call), so the press and the release of one KeyPress can fare differently.
- KeyPress: the pause of DefaultKeypressTime between press and release is not modelled, so
  GlobalKeyboardInput holds no DefaultKeypressTime.
  The `keyPressTime` parameter is not used by the source either.
- SendChar, SendScanCode and the other IKeyboardInput members are not part of this model,
  and neither are HookManager, FunctionPointer, RegexExtensions, FreeType nor the memory
  reading of MemoryHandler.

## Notes on the source

- A single-step exception with no armed breakpoint at EIP is acknowledged with
  DBG_CONTINUE, because the `break` on line 185 leaves `okEvent` true.
- ClearUsedBreakpointSlots raises BreakPointException (lines 58 and 63). Attach does not
  translate it into a DebuggerException, so it leaves Attach unchanged; Run catches it
  as a generic exception.
- The thread handle opened for a single step (line 174) is never closed; the model records
  no CloseHandle for it.
- When the loop aborts on a failure inside the switch (lines 163-212), or on the plain
  ContinueDebugEvent of line 227, IsDebugging stays true. Run's final Detach still
  detaches (AbortedEventFlags).
- A failure on the cooperative-stop path (lines 215-223: RemoveBreakPoints, the
  acknowledgement or DebugActiveProcessStop) or on the EXIT_PROCESS/RIP path (lines
  148-157) comes after IsDetached has been set. Run's final Detach then returns at line 114
  without a call, so no DebugActiveProcessStop succeeds and the process stays attached.
  On the stop path a failed removal also leaves the pending event without
  ContinueDebugEvent (AbortedEventFlags and StopPathAbortSkipsDetach state the flags and the
  empty final Detach).
- An EXIT_PROCESS or RIP event is acknowledged with DBG_EXCEPTION_NOT_HANDLED, because
  `okEvent` is still false at that point.
- Kernel32.cs is not part of this model; MaxHardwareBreakpointsCount is taken to be 4, the
  number of x86 debug-address registers.
- KeyToModifier maps only the left and right modifier keys. The generic ControlKey,
  Menu and ShiftKey with their own modifier held are therefore sent twice
  (`GenericControlKeySentTwice`).
