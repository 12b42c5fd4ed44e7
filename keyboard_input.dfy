/**
 * The key-event sequencing of GlobalKeyboardInput: the INPUT records SendKey hands to
 * SendInput for a key with modifiers, pressed or released, and KeyPress's press/release pair.
 * SendInput itself is a sink that records what it was given.
 */
module KeyboardInput {
  import Results

  /** System.Windows.Forms.Keys: a 32-bit enum whose low 16 bits are the virtual-key code. */
  newtype Keys = x: int | -0x8000_0000 <= x < 0x8000_0000

  const None: Keys := 0
  const ShiftKey: Keys := 16
  const ControlKey: Keys := 17
  const Menu: Keys := 18
  const LShiftKey: Keys := 160
  const RShiftKey: Keys := 161
  const LControlKey: Keys := 162
  const RControlKey: Keys := 163
  const LMenu: Keys := 164
  const RMenu: Keys := 165

  /** The `(short)` cast: the low 16 bits of the value, read as a signed (two's complement) number. */
  function Int16(x: int): (r: int)
    ensures -0x8000 <= r < 0x8000
    ensures (x - r) % 0x1_0000 == 0
    ensures -0x8000 <= x < 0x8000 ==> r == x
  {
    (x + 0x8000) % 0x1_0000 - 0x8000
  }

  /** The Modifiers flags: one bit each for Ctrl, Alt and Shift; no bit set is Modifiers.None. */
  datatype Modifiers = Modifiers(ctrl: bool, alt: bool, shift: bool)

  const NoModifiers := Modifiers(false, false, false)

  /** How many of the three modifiers are pressed. */
  function Count(m: Modifiers): nat {
    (if m.ctrl then 1 else 0) + (if m.alt then 1 else 0) + (if m.shift then 1 else 0)
  }

  /** `modifiers & ~mask`: never adds a modifier, drops those in the mask, keeps the rest. */
  function Clear(m: Modifiers, mask: Modifiers): (r: Modifiers)
    ensures Count(r) <= Count(m)
    ensures (r.ctrl ==> m.ctrl) && (r.alt ==> m.alt) && (r.shift ==> m.shift)
    ensures (mask.ctrl ==> !r.ctrl) && (mask.alt ==> !r.alt) && (mask.shift ==> !r.shift)
    ensures (!mask.ctrl ==> r.ctrl == m.ctrl) && (!mask.alt ==> r.alt == m.alt) && (!mask.shift ==> r.shift == m.shift)
  {
    Modifiers(m.ctrl && !mask.ctrl, m.alt && !mask.alt, m.shift && !mask.shift)
  }

  /** The modifier a left or right modifier key stands for; None for every other key. */
  function KeyToModifier(key: Keys): (r: Modifiers)
    ensures r.ctrl <==> key == LControlKey || key == RControlKey
    ensures r.alt <==> key == LMenu || key == RMenu
    ensures r.shift <==> key == LShiftKey || key == RShiftKey
    ensures Count(r) <= 1
  {
    if key == LMenu || key == RMenu then Modifiers(false, true, false)
    else if key == LControlKey || key == RControlKey then Modifiers(true, false, false)
    else if key == LShiftKey || key == RShiftKey then Modifiers(false, false, true)
    else NoModifiers
  }

  /** KEYEVENTF_KEYUP; a key press carries no flag. */
  const KEYEVENTF_KEYUP := 2
  const KEYEVENTF_NONE := 0

  /** The keyboard part of an INPUT record (its Type is always INPUT_KEYBOARD here). */
  datatype KeyboardEvent = KeyboardEvent(flags: int, vk: int, scan: int, time: int, extraInfo: int)

  /** The record built for one key: the flag says press or release, no scan code, no timestamp. */
  function MakeInput(key: Keys, up: bool, extraInfo: int): KeyboardEvent {
    KeyboardEvent(if up then KEYEVENTF_KEYUP else KEYEVENTF_NONE, Int16(key as int), 0, 0, extraInfo)
  }

  /** The position of a generic modifier key in the press order. */
  function Rank(key: Keys): nat {
    if key == ControlKey then 0 else if key == Menu then 1 else 2
  }

  /** The generic modifier keys for the pressed modifiers: ControlKey, then Menu, then ShiftKey. */
  function ModifierKeys(m: Modifiers): (keys: seq<Keys>)
    ensures |keys| == Count(m) <= 3
    ensures ControlKey in keys <==> m.ctrl
    ensures Menu in keys <==> m.alt
    ensures ShiftKey in keys <==> m.shift
    ensures forall k :: k in keys ==> k == ControlKey || k == Menu || k == ShiftKey
    ensures forall i, j :: 0 <= i < j < |keys| ==> Rank(keys[i]) < Rank(keys[j])
  {
    (if m.ctrl then [ControlKey] else []) + (if m.alt then [Menu] else []) + (if m.shift then [ShiftKey] else [])
  }

  /** What BuildModifiersInput yields: one record per pressed modifier, in press order. */
  function ModifierInputs(m: Modifiers, up: bool, extraInfo: int): (r: seq<KeyboardEvent>)
    ensures |r| == Count(m)
    ensures forall i :: 0 <= i < |r| ==> r[i] == MakeInput(ModifierKeys(m)[i], up, extraInfo)
  {
    var keys := ModifierKeys(m);
    seq(|keys|, i requires 0 <= i < |keys| => MakeInput(keys[i], up, extraInfo))
  }

  function Reverse<T>(s: seq<T>): (r: seq<T>)
    ensures |r| == |s|
    ensures forall i :: 0 <= i < |s| ==> r[i] == s[|s| - 1 - i]
  {
    if s == [] then [] else Reverse(s[1..]) + [s[0]]
  }

  /** Every element of a reversed list is in the list, and the other way round. */
  lemma ReverseMembers<T>(s: seq<T>, x: T)
    ensures x in Reverse(s) <==> x in s
  {
    if x in s {
      var i :| 0 <= i < |s| && s[i] == x;
      assert Reverse(s)[|s| - 1 - i] == x;
    }
  }

  /** The list SendKey builds before it is reversed: modifiers in press order, then the key. */
  function PressOrder(key: Keys, modifiers: Modifiers, up: bool, extraInfo: int): seq<KeyboardEvent> {
    ModifierInputs(Clear(modifiers, KeyToModifier(key)), up, extraInfo)
      + (if key != None then [MakeInput(key, up, extraInfo)] else [])
  }

  /** The records SendKey passes to SendInput, in the order they are sent. */
  function KeyInputs(key: Keys, modifiers: Modifiers, up: bool, extraInfo: int): seq<KeyboardEvent> {
    if up then Reverse(PressOrder(key, modifiers, true, extraInfo))
    else PressOrder(key, modifiers, false, extraInfo)
  }

  /** One record per remaining modifier plus one for the key; each flagged, with no scan code or time. */
  lemma KeyInputsShape(key: Keys, modifiers: Modifiers, up: bool, extraInfo: int)
    ensures var r := KeyInputs(key, modifiers, up, extraInfo);
      && |r| == Count(Clear(modifiers, KeyToModifier(key))) + (if key != None then 1 else 0)
      && forall i :: 0 <= i < |r| ==>
           && r[i].flags == (if up then KEYEVENTF_KEYUP else KEYEVENTF_NONE)
           && r[i].scan == 0 && r[i].time == 0 && r[i].extraInfo == extraInfo
  {
    var inputs := PressOrder(key, modifiers, up, extraInfo);
    assert forall i :: 0 <= i < |inputs| ==>
      inputs[i].flags == (if up then KEYEVENTF_KEYUP else KEYEVENTF_NONE)
      && inputs[i].scan == 0 && inputs[i].time == 0 && inputs[i].extraInfo == extraInfo;
  }

  /** A press sends the remaining modifiers first, in press order, and the key last. */
  lemma PressLayout(key: Keys, modifiers: Modifiers, extraInfo: int)
    ensures var r := KeyInputs(key, modifiers, false, extraInfo);
      var mods := Clear(modifiers, KeyToModifier(key)); var n := Count(mods);
      && n <= |r|
      && r[..n] == ModifierInputs(mods, false, extraInfo)
      && (key != None ==> |r| == n + 1 && r[n] == MakeInput(key, false, extraInfo))
  {
    var mine := ModifierInputs(Clear(modifiers, KeyToModifier(key)), false, extraInfo);
    assert PressOrder(key, modifiers, false, extraInfo)[..|mine|] == mine;
  }

  /** A release sends the key first, then the remaining modifiers in the opposite order. */
  lemma ReleaseLayout(key: Keys, modifiers: Modifiers, extraInfo: int)
    ensures var r := KeyInputs(key, modifiers, true, extraInfo);
      var mods := Clear(modifiers, KeyToModifier(key)); var n := Count(mods);
      && n <= |r|
      && r[|r| - n..] == Reverse(ModifierInputs(mods, true, extraInfo))
      && (key != None ==> |r| == n + 1 && r[0] == MakeInput(key, true, extraInfo))
  {
    var mine := ModifierInputs(Clear(modifiers, KeyToModifier(key)), true, extraInfo);
    var inputs := PressOrder(key, modifiers, true, extraInfo);
    var r := Reverse(inputs);
    var back := Reverse(mine);
    forall j | 0 <= j < |mine| ensures r[|inputs| - |mine|..][j] == back[j] {
      assert r[|inputs| - |mine| + j] == inputs[|mine| - 1 - j];
    }
  }

  /** The records of a release: the same records with KEYEVENTF_KEYUP set. */
  function Released(s: seq<KeyboardEvent>): (r: seq<KeyboardEvent>)
    ensures |r| == |s|
    ensures forall i :: 0 <= i < |s| ==> r[i] == s[i].(flags := KEYEVENTF_KEYUP)
  {
    seq(|s|, i requires 0 <= i < |s| => s[i].(flags := KEYEVENTF_KEYUP))
  }

  /** The release sequence undoes the press sequence: the same keys, flagged up, in reverse order. */
  lemma ReleaseMirrorsPress(key: Keys, modifiers: Modifiers, extraInfo: int)
    ensures KeyInputs(key, modifiers, true, extraInfo) == Reverse(Released(KeyInputs(key, modifiers, false, extraInfo)))
  {
    assert Released(PressOrder(key, modifiers, false, extraInfo)) == PressOrder(key, modifiers, true, extraInfo);
  }

  /** SendKey sends nothing exactly when there is no key and no modifier. */
  lemma NothingToSend(key: Keys, modifiers: Modifiers, up: bool, extraInfo: int)
    ensures KeyInputs(key, modifiers, up, extraInfo) == [] <==> key == None && modifiers == NoModifiers
  {
    if key == None {
      assert KeyToModifier(key) == NoModifiers;
    }
  }

  /** The records of the generic modifier keys are told apart from each other. */
  lemma ModifierRecordIn(m: Modifiers, mk: Keys, up: bool, extraInfo: int)
    requires mk == ControlKey || mk == Menu || mk == ShiftKey
    ensures MakeInput(mk, up, extraInfo) in ModifierInputs(m, up, extraInfo) <==> mk in ModifierKeys(m)
  {
    var keys := ModifierKeys(m);
    var r := ModifierInputs(m, up, extraInfo);
    if mk in keys {
      var i :| 0 <= i < |keys| && keys[i] == mk;
      assert r[i] == MakeInput(mk, up, extraInfo);
    }
    if MakeInput(mk, up, extraInfo) in r {
      var i :| 0 <= i < |r| && r[i] == MakeInput(mk, up, extraInfo);
      assert keys[i] in keys;
    }
  }

  /** A generic modifier key is sent when it is among the remaining modifiers or is the key itself. */
  lemma GenericKeySent(key: Keys, modifiers: Modifiers, up: bool, extraInfo: int, mk: Keys)
    requires mk == ControlKey || mk == Menu || mk == ShiftKey
    ensures MakeInput(mk, up, extraInfo) in KeyInputs(key, modifiers, up, extraInfo) <==>
              mk in ModifierKeys(Clear(modifiers, KeyToModifier(key))) || Int16(key as int) == mk as int
  {
    var mods := Clear(modifiers, KeyToModifier(key));
    var inputs := PressOrder(key, modifiers, up, extraInfo);
    var tail := if key != None then [MakeInput(key, up, extraInfo)] else [];
    assert inputs == ModifierInputs(mods, up, extraInfo) + tail;
    ReverseMembers(inputs, MakeInput(mk, up, extraInfo));
    ModifierRecordIn(mods, mk, up, extraInfo);
  }

  /**
   * The generic key of a modifier is sent exactly when the modifier is held and the key is not a
   * left or right key of that same modifier, or when the key itself truncates to that code.
   */
  lemma ModifierSentUnlessOwn(key: Keys, modifiers: Modifiers, up: bool, extraInfo: int)
    ensures var r := KeyInputs(key, modifiers, up, extraInfo);
      && (MakeInput(ControlKey, up, extraInfo) in r <==>
            (modifiers.ctrl && key != LControlKey && key != RControlKey) || Int16(key as int) == ControlKey as int)
      && (MakeInput(Menu, up, extraInfo) in r <==>
            (modifiers.alt && key != LMenu && key != RMenu) || Int16(key as int) == Menu as int)
      && (MakeInput(ShiftKey, up, extraInfo) in r <==>
            (modifiers.shift && key != LShiftKey && key != RShiftKey) || Int16(key as int) == ShiftKey as int)
  {
    GenericKeySent(key, modifiers, up, extraInfo, ControlKey);
    GenericKeySent(key, modifiers, up, extraInfo, Menu);
    GenericKeySent(key, modifiers, up, extraInfo, ShiftKey);
  }

  /**
   * Only the left and right modifier keys are recognised: the generic ControlKey with Ctrl
   * held sends ControlKey twice.
   */
  lemma GenericControlKeySentTwice(extraInfo: int)
    ensures KeyInputs(ControlKey, Modifiers(true, false, false), false, extraInfo) ==
              [MakeInput(ControlKey, false, extraInfo), MakeInput(ControlKey, false, extraInfo)]
  {
    var r := KeyInputs(ControlKey, Modifiers(true, false, false), false, extraInfo);
    assert ModifierKeys(Modifiers(true, false, false)) == [ControlKey];
  }

  /**
   * User32.SendInput as a sink: it records every batch it is given. Which calls find input
   * blocked (another desktop, UIPI) is fixed in advance: the call that receives batch number
   * i (counting from 0) inserts nothing exactly when i is in `blockedAt`.
   */
  class User32 {
    var sent: seq<seq<KeyboardEvent>>
    const blockedAt: set<nat>

    constructor (blockedAt: set<nat>)
      ensures sent == [] && this.blockedAt == blockedAt
    {
      sent := [];
      this.blockedAt := blockedAt;
    }

    /** Returns how many of the records were inserted into the input stream. */
    method SendInput(inputs: seq<KeyboardEvent>) returns (inserted: nat)
      modifies this
      ensures sent == old(sent) + [inputs]
      ensures inserted == if |old(sent)| in blockedAt then 0 else |inputs|
    {
      inserted := if |sent| in blockedAt then 0 else |inputs|;
      sent := sent + [inputs];
    }
  }

  /** What SendKey hands to SendInput: nothing for an empty list, else the list as one batch. */
  function Batches(inputs: seq<KeyboardEvent>): seq<seq<KeyboardEvent>> {
    if inputs == [] then [] else [inputs]
  }

  /** The outcome of sending one batch: a short count raises Win32Exception. */
  function SendOutcome(inputs: seq<KeyboardEvent>, blocked: bool): Results.Outcome {
    if inputs != [] && blocked then Results.Fail(Results.Win32Error) else Results.Pass
  }

  /** The batches a key press hands to SendInput, and how it ends. */
  datatype KeyPressRun = KeyPressRun(batches: seq<seq<KeyboardEvent>>, outcome: Results.Outcome)

  /**
   * KeyPress, starting when `n` batches have been sent: the press sequence, then the release
   * sequence for the same key and modifiers; an exception from the press skips the release.
   */
  function KeyPressSpec(key: Keys, modifiers: Modifiers, extraInfo: int, blockedAt: set<nat>, n: nat): KeyPressRun {
    var down := KeyInputs(key, modifiers, false, extraInfo);
    var up := KeyInputs(key, modifiers, true, extraInfo);
    var pressed := SendOutcome(down, n in blockedAt);
    if pressed.Fail? then KeyPressRun([down], pressed)
    else KeyPressRun(Batches(down) + Batches(up), SendOutcome(up, n + |Batches(down)| in blockedAt))
  }

  /**
   * A key press with nothing to send sends nothing and succeeds. Otherwise it sends the press
   * batch, and either that press raises Win32Exception and no release is sent, or the release
   * batch is sent too and raises Win32Exception exactly when it is blocked, leaving the key
   * and modifiers held.
   */
  lemma KeyPressOutcome(key: Keys, modifiers: Modifiers, extraInfo: int, blockedAt: set<nat>, n: nat)
    ensures var r := KeyPressSpec(key, modifiers, extraInfo, blockedAt, n);
      var down := KeyInputs(key, modifiers, false, extraInfo);
      var up := KeyInputs(key, modifiers, true, extraInfo);
      && (key == None && modifiers == NoModifiers ==> r == KeyPressRun([], Results.Pass))
      && (r.outcome.Fail? ==> r.outcome == Results.Fail(Results.Win32Error))
      && ((key != None || modifiers != NoModifiers) && n in blockedAt ==>
            r == KeyPressRun([down], Results.Fail(Results.Win32Error)))
      && ((key != None || modifiers != NoModifiers) && n !in blockedAt ==>
            && r.batches == [down, up]
            && (r.outcome.Fail? <==> n + 1 in blockedAt))
      && (r.outcome.Pass? <==> (key == None && modifiers == NoModifiers) || (n !in blockedAt && n + 1 !in blockedAt))
  {
    NothingToSend(key, modifiers, false, extraInfo);
    NothingToSend(key, modifiers, true, extraInfo);
  }

  /** A completed key press sends the release as the mirror image of the press. */
  lemma KeyPressMirrors(key: Keys, modifiers: Modifiers, extraInfo: int, blockedAt: set<nat>, n: nat)
    requires key != None || modifiers != NoModifiers
    requires KeyPressSpec(key, modifiers, extraInfo, blockedAt, n).outcome.Pass?
    ensures var batches := KeyPressSpec(key, modifiers, extraInfo, blockedAt, n).batches;
      |batches| == 2 && batches[1] == Reverse(Released(batches[0]))
  {
    KeyPressOutcome(key, modifiers, extraInfo, blockedAt, n);
    ReleaseMirrorsPress(key, modifiers, extraInfo);
  }

  class GlobalKeyboardInput {
    const user32: User32

    constructor (user32: User32)
      ensures this.user32 == user32
    {
      this.user32 := user32;
    }

    /** Fill the list of modifier keys, then map each to its record. */
    method BuildModifiersInput(modifiers: Modifiers, up: bool, extraInfo: int) returns (inputs: seq<KeyboardEvent>)
      ensures inputs == ModifierInputs(modifiers, up, extraInfo)
    {
      var keys: seq<Keys> := [];
      if modifiers.ctrl {
        keys := keys + [ControlKey];
      }
      if modifiers.alt {
        keys := keys + [Menu];
      }
      if modifiers.shift {
        keys := keys + [ShiftKey];
      }
      inputs := seq(|keys|, i requires 0 <= i < |keys| => MakeInput(keys[i], up, extraInfo));
    }

    method SendKey(key: Keys, modifiers: Modifiers, up: bool, extraInfo: int) returns (outcome: Results.Outcome)
      modifies user32
      ensures var r := KeyInputs(key, modifiers, up, extraInfo);
        user32.sent == old(user32.sent) + Batches(r) && outcome == SendOutcome(r, |old(user32.sent)| in user32.blockedAt)
    {
      var mods := modifiers;
      var keyMod := KeyToModifier(key);
      if keyMod != NoModifiers {
        mods := Clear(mods, keyMod);
      }
      assert mods == Clear(modifiers, keyMod);
      var inputs := BuildModifiersInput(mods, up, extraInfo);
      if key != None {
        inputs := inputs + [MakeInput(key, up, extraInfo)];
      }
      assert inputs == PressOrder(key, modifiers, up, extraInfo);
      ghost var sent := KeyInputs(key, modifiers, up, extraInfo);
      if |inputs| == 0 {
        assert sent == [];
        return Results.Pass;
      }
      if up {
        inputs := Reverse(inputs);
      }
      assert inputs == sent && sent != [];
      var inserted := user32.SendInput(inputs);
      if inserted != |inputs| {
        return Results.Fail(Results.Win32Error);
      }
      outcome := Results.Pass;
    }

    /** `keyPressTime` is not used: the pause between press and release is DefaultKeypressTime. */
    method KeyPress(key: Keys, modifiers: Modifiers, keyPressTime: int, extraInfo: int) returns (outcome: Results.Outcome)
      modifies user32
      ensures var r := KeyPressSpec(key, modifiers, extraInfo, user32.blockedAt, |old(user32.sent)|);
        user32.sent == old(user32.sent) + r.batches && outcome == r.outcome
    {
      ghost var n := |user32.sent|;
      ghost var down := KeyInputs(key, modifiers, false, extraInfo);
      ghost var up := KeyInputs(key, modifiers, true, extraInfo);
      ghost var r := KeyPressSpec(key, modifiers, extraInfo, user32.blockedAt, n);
      outcome := SendKey(key, modifiers, false, extraInfo);
      assert outcome == SendOutcome(down, n in user32.blockedAt);
      if outcome.Fail? {
        assert Batches(down) == [down] && r == KeyPressRun([down], outcome);
        return;
      }
      assert |user32.sent| == n + |Batches(down)|;
      outcome := SendKey(key, modifiers, true, extraInfo);
      assert r == KeyPressRun(Batches(down) + Batches(up), outcome);
      Results.AppendTwice(old(user32.sent), Batches(down), Batches(up));
    }
  }
}
