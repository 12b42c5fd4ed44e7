/**
 * Hardware breakpoints as the engine sees them: an address, whether the breakpoint is
 * armed, the threads it has been installed on, and the handler its owner supplied.
 * How a breakpoint chooses debug-register slots is not part of this model; its
 * operations are opaque calls with the abstract effect stated here.
 */
module Breakpoints {
  import opened Results
  import opened Win32
  import opened NativeCalls

  /** What HandleException returns: whether it changed the context, and the context now. */
  datatype HandlerReply = HandlerReply(modified: bool, context: ThreadContext)

  datatype HardwareBreakPoint = HardwareBreakPoint(
    address: uint32,
    isSet: bool,
    threads: set<ThreadId>,
    handler: ThreadContext -> HandlerReply)

  /** The text of a BreakPointException raised inside HardwareBreakPoint (not part of this model). */
  const BreakPointFailure := "hardware breakpoint operation failed"

  /** A breakpoint that fires at instruction pointer `eip`. */
  predicate Hits(b: HardwareBreakPoint, eip: uint32) {
    b.isSet && b.address == eip
  }

  /** The first breakpoint of the list that is armed at `eip` (Breakpoints.First). */
  function FirstHit(bps: seq<HardwareBreakPoint>, eip: uint32): (r: Option<nat>)
    ensures r.Some? ==> r.value < |bps| && Hits(bps[r.value], eip)
    ensures r.Some? ==> forall j :: 0 <= j < r.value ==> !Hits(bps[j], eip)
    ensures r.None? <==> forall j :: 0 <= j < |bps| ==> !Hits(bps[j], eip)
  {
    if bps == [] then None
    else if Hits(bps[0], eip) then Some(0)
    else match FirstHit(bps[1..], eip)
      case None => None
      case Some(i) => Some(i + 1)
  }

  /** The abstract effect of a successful Set: armed on every live thread. */
  function Armed(b: HardwareBreakPoint, threads: seq<ThreadId>): (r: HardwareBreakPoint)
  {
    b.(isSet := true, threads := set t | t in threads)
  }

  /** The per-breakpoint operations the engine applies to the whole list. */
  datatype Sweep = UnSet | AddThread(threadHandle: uint32, threadId: ThreadId) | DropThread(threadId: ThreadId)

  /** The opaque call one sweep makes for one breakpoint. */
  function SweepCall(op: Sweep, b: HardwareBreakPoint): Call {
    match op
    case UnSet => UnSetBreakPoint(b.address)
    case AddThread(h, t) => SetToThread(b.address, h, t)
    case DropThread(t) => UnregisterThread(b.address, t)
  }

  /** The abstract effect of that call when it succeeds. */
  function SweepEffect(op: Sweep, b: HardwareBreakPoint): HardwareBreakPoint {
    match op
    case UnSet => b.(isSet := false, threads := {})
    case AddThread(_, t) => b.(threads := b.threads + {t})
    case DropThread(t) => b.(threads := b.threads - {t})
  }

  /** The call the sweep makes for each breakpoint, in list order. */
  function SweepCalls(op: Sweep, bps: seq<HardwareBreakPoint>): seq<Call> {
    seq(|bps|, i requires 0 <= i < |bps| => SweepCall(op, bps[i]))
  }

  /** Every breakpoint of the list with the sweep's effect applied. */
  function SweepEffects(op: Sweep, bps: seq<HardwareBreakPoint>): seq<HardwareBreakPoint> {
    seq(|bps|, i requires 0 <= i < |bps| => SweepEffect(op, bps[i]))
  }

  /** The result of `foreach (var bp in Breakpoints) bp.Op(...)`. */
  datatype SweepRun = SweepRun(breakpoints: seq<HardwareBreakPoint>, calls: seq<Call>, outcome: Outcome)

  /**
   * The sweep stops at the first breakpoint whose call throws: the breakpoints before it
   * have the effect, it and the rest are as they were.
   */
  function SweepAll(failing: set<Call>, op: Sweep, bps: seq<HardwareBreakPoint>): (r: SweepRun)
  {
    var k := FirstFailure(failing, SweepCalls(op, bps));
    SweepRun(SweepEffects(op, bps[..k]) + bps[k..],
             Performed(failing, SweepCalls(op, bps)),
             if k < |bps| then Fail(BreakPointError(BreakPointFailure)) else Pass)
  }

  /** A sweep whose first throwing call is the one for breakpoint k (k = |bps|: none throws). */
  lemma SweepAllAt(failing: set<Call>, op: Sweep, bps: seq<HardwareBreakPoint>, k: nat)
    requires k <= |bps|
    requires forall j :: 0 <= j < k ==> SweepCall(op, bps[j]) !in failing
    requires k < |bps| ==> SweepCall(op, bps[k]) in failing
    ensures SweepAll(failing, op, bps) ==
              SweepRun(SweepEffects(op, bps[..k]) + bps[k..],
                       SweepCalls(op, bps)[..if k < |bps| then k + 1 else k],
                       if k < |bps| then Fail(BreakPointError(BreakPointFailure)) else Pass)
  {
    FailsAt(failing, SweepCalls(op, bps), k);
    assert SweepCalls(op, bps)[..|bps|] == SweepCalls(op, bps);
  }

  /** A list whose first k breakpoints have had the effect and whose rest is untouched. */
  lemma EffectsSplice(op: Sweep, bps: seq<HardwareBreakPoint>, bs: seq<HardwareBreakPoint>, k: nat)
    requires k <= |bps| == |bs|
    requires forall j :: 0 <= j < k ==> bs[j] == SweepEffect(op, bps[j])
    requires forall j :: k <= j < |bps| ==> bs[j] == bps[j]
    ensures bs == SweepEffects(op, bps[..k]) + bps[k..]
  {
  }

  /** A sweep keeps the list's length, order and addresses, and succeeds iff no call throws. */
  lemma SweepShape(failing: set<Call>, op: Sweep, bps: seq<HardwareBreakPoint>)
    ensures var r := SweepAll(failing, op, bps);
      && |r.breakpoints| == |bps|
      && (forall i :: 0 <= i < |bps| ==> r.breakpoints[i].address == bps[i].address)
      && (r.outcome.Pass? <==> forall i :: 0 <= i < |bps| ==> SweepCall(op, bps[i]) !in failing)
      && (r.outcome.Pass? ==> r.breakpoints == SweepEffects(op, bps) && r.calls == SweepCalls(op, bps))
  {
    var r := SweepAll(failing, op, bps);
    var k := FirstFailure(failing, SweepCalls(op, bps));
    forall i | 0 <= i < |bps| ensures r.breakpoints[i].address == bps[i].address {
      if i < k {
        assert r.breakpoints[i] == SweepEffect(op, bps[i]);
      } else {
        assert r.breakpoints[i] == bps[i];
      }
    }
    if r.outcome.Pass? {
      forall i | 0 <= i < |bps| ensures SweepCall(op, bps[i]) !in failing {
        assert SweepCalls(op, bps)[i] == SweepCall(op, bps[i]);
      }
    }
    if k < |bps| {
      assert SweepCalls(op, bps)[k] == SweepCall(op, bps[k]);
    } else {
      assert bps[..k] == bps;
    }
  }

  /** A sweep that succeeds has made one call per breakpoint, in list order. */
  lemma SweepInOrder(failing: set<Call>, op: Sweep, bps: seq<HardwareBreakPoint>)
    requires SweepAll(failing, op, bps).outcome.Pass?
    ensures var r := SweepAll(failing, op, bps);
      && r.breakpoints == SweepEffects(op, bps)
      && |r.calls| == |bps|
      && forall i :: 0 <= i < |bps| ==> r.calls[i] == SweepCall(op, bps[i])
  {
    assert bps[..|bps|] == bps;
  }

  /** A failed sweep: the breakpoints before the failing one are done, it and the rest untouched. */
  lemma SweepStopsAtFailure(failing: set<Call>, op: Sweep, bps: seq<HardwareBreakPoint>)
    requires SweepAll(failing, op, bps).outcome.Fail?
    ensures var r := SweepAll(failing, op, bps); var k := |r.calls| - 1;
      && 0 <= k < |bps|
      && r.calls[k] == SweepCall(op, bps[k]) && r.calls[k] in failing
      && (forall i :: 0 <= i < k ==> r.calls[i] == SweepCall(op, bps[i]) && r.calls[i] !in failing)
      && (forall i :: 0 <= i < k ==> r.breakpoints[i] == SweepEffect(op, bps[i]))
      && (forall i :: k <= i < |bps| ==> r.breakpoints[i] == bps[i])
  {
    var cs := SweepCalls(op, bps);
    var k := FirstFailure(failing, cs);
    assert k < |bps|;
    assert cs[k] == SweepCall(op, bps[k]);
    forall j | 0 <= j < k ensures SweepCall(op, bps[j]) !in failing {
      assert cs[j] == SweepCall(op, bps[j]);
    }
    SweepAllAt(failing, op, bps, k);
    var r := SweepAll(failing, op, bps);
    assert r.calls == cs[..k + 1];
    var done := SweepEffects(op, bps[..k]);
    assert r.breakpoints == done + bps[k..];
    forall i | 0 <= i < k ensures r.breakpoints[i] == SweepEffect(op, bps[i]) {
      assert r.breakpoints[i] == done[i];
    }
    forall i | k <= i < |bps| ensures r.breakpoints[i] == bps[i] {
      assert r.breakpoints[i] == bps[k..][i - k];
    }
  }

  /** After a successful UnSet sweep no breakpoint is armed or installed anywhere. */
  lemma UnSetDisarmsAll(failing: set<Call>, bps: seq<HardwareBreakPoint>)
    requires SweepAll(failing, UnSet, bps).outcome.Pass?
    ensures forall b :: b in SweepAll(failing, UnSet, bps).breakpoints ==> !b.isSet && b.threads == {}
  {
    SweepInOrder(failing, UnSet, bps);
  }

  /** After a successful thread-creation sweep every breakpoint is registered on the new thread. */
  lemma AddThreadReachesAll(failing: set<Call>, h: uint32, t: ThreadId, bps: seq<HardwareBreakPoint>)
    requires SweepAll(failing, AddThread(h, t), bps).outcome.Pass?
    ensures var r := SweepAll(failing, AddThread(h, t), bps);
      forall i :: 0 <= i < |bps| ==>
        r.breakpoints[i] == bps[i].(threads := bps[i].threads + {t})
  {
    SweepInOrder(failing, AddThread(h, t), bps);
  }

  /** After a successful thread-exit sweep no breakpoint keeps the thread. */
  lemma DropThreadReachesAll(failing: set<Call>, t: ThreadId, bps: seq<HardwareBreakPoint>)
    requires SweepAll(failing, DropThread(t), bps).outcome.Pass?
    ensures var r := SweepAll(failing, DropThread(t), bps);
      forall i :: 0 <= i < |bps| ==>
        r.breakpoints[i] == bps[i].(threads := bps[i].threads - {t})
  {
    SweepInOrder(failing, DropThread(t), bps);
  }
}
