/** The engine's input hooks of main/input.c, over the button and stick
    state of Control. */
module Input {
  import opened CTypes
  import opened Control

  /** Quake key codes the table uses (engine key numbering). */
  const K_TAB: int := 9
  const K_ENTER: int := 13
  const K_ESCAPE: int := 27
  const K_SPACE: int := 32
  const K_BACKSPACE: int := 127
  const K_UPARROW: int := 128
  const K_DOWNARROW: int := 129
  const K_LEFTARROW: int := 130
  const K_RIGHTARROW: int := 131

  /** key_conv_tab: the engine key of each button, indexed by button. */
  const KEY_CONV_TAB: seq<int> := [
    K_ENTER,       // BUTTON_A
    K_ESCAPE,      // BUTTON_B
    K_BACKSPACE,   // BUTTON_X
    K_SPACE,       // BUTTON_Y
    K_LEFTARROW,   // BUTTON_LEFT
    K_RIGHTARROW,  // BUTTON_RIGHT
    K_UPARROW,     // BUTTON_UP
    K_DOWNARROW,   // BUTTON_DOWN
    K_TAB,         // BUTTON_ST
    'c' as int,    // BUTTON_SEL
    'a' as int,    // BUTTON_L
    'b' as int,    // BUTTON_R
    'd' as int     // BUTTON_SW
  ]

  /** Every button has an entry, all of them distinct non-zero bytes, so
      the engine can tell any two buttons apart. */
  lemma KeyTableCoversButtonsInjectively()
    ensures |KEY_CONV_TAB| == BUTTON_CNT
    ensures forall i :: 0 <= i < |KEY_CONV_TAB| ==> 0 < KEY_CONV_TAB[i] < 256
    ensures forall i, j :: 0 <= i < j < |KEY_CONV_TAB| ==> KEY_CONV_TAB[i] != KEY_CONV_TAB[j]
  {
  }

  /** The lowest-numbered button with an event waiting, or |keys| when none. */
  function FirstPending(keys: seq<Key>): (f: nat)
    ensures f <= |keys|
    ensures f < |keys| ==> Pending(keys[f])
    ensures forall j :: 0 <= j < f ==> !Pending(keys[j])
  {
    if |keys| == 0 then 0
    else if Pending(keys[0]) then 0
    else 1 + FirstPending(keys[1..])
  }

  /** QG_GetKey(): update the buttons, then report and consume the first
      waiting event.  `powerOff` is handle_hw's decision to drive the power
      enable pin low (select held); the pin write itself is not modelled. */
  method GetKey(ctrl: Buttons, levels: seq<int>, now: int)
      returns (ret: int, down: int, key: int, powerOff: bool)
    requires ctrl.Valid() && |levels| == BUTTON_CNT
    modifies ctrl.keymap
    ensures ctrl.Valid()
    ensures var u := UpdateAll(old(ctrl.keymap[..]), levels, now);
            var f := FirstPending(u);
            && powerOff == (u[BUTTON_SEL].keyState != 0)
            && (f == BUTTON_CNT ==> ret == 0 && down == 0 && key == 0 && ctrl.keymap[..] == u)
            && (f < BUTTON_CNT ==>
                  && ret == 1 && key == KEY_CONV_TAB[f]
                  && down == (if u[f].newlyPressed != 0 then 1 else 0)
                  && ctrl.keymap[..] == u[f := Consumed(u[f])])
  {
    var _ := ctrl.UpdateBtnState(levels, now);
    ghost var u := ctrl.keymap[..];
    key := 0;
    down := 0;
    powerOff := ctrl.GetBtnState(BUTTON_SEL);
    var i := 0;
    while i < BUTTON_CNT
      invariant 0 <= i <= BUTTON_CNT && ctrl.Valid()
      invariant ctrl.keymap[..] == u
      invariant forall j :: 0 <= j < i ==> !Pending(u[j])
    {
      var pressed := ctrl.GetBtnPressEvent(i);
      var released := ctrl.GetBtnReleaseEvent(i);
      if pressed || released {
        down := if pressed then 1 else 0;
        if i < |KEY_CONV_TAB| {
          key := KEY_CONV_TAB[i];
        }
        assert FirstPending(u) == i;
        assert ctrl.keymap[..] == u[i := Consumed(u[i])];
        return 1, down, key, powerOff;
      }
      i := i + 1;
    }
    ret := 0;
  }

  /** QG_GetMouseMove(): x is the stick's y deflection (read first), y the
      negated x deflection. */
  method GetMouseMove(ctrl: Buttons, xs: seq<int>, ys: seq<int>) returns (x: int, y: int)
    requires |xs| == ANA_SAMPLES && |ys| == ANA_SAMPLES
    requires !DividesByZero(Widen(ctrl.anaCalY, Average(ys)), Average(ys))
    requires !DividesByZero(Widen(ctrl.anaCalX, Average(xs)), Average(xs))
    modifies ctrl
    ensures ctrl.anaCalY == Widen(old(ctrl.anaCalY), Average(ys))
    ensures ctrl.anaCalX == Widen(old(ctrl.anaCalX), Average(xs))
    ensures x == Deflection(ctrl.anaCalY, Average(ys))
    ensures y == -Deflection(ctrl.anaCalX, Average(xs))
    ensures -100 <= x <= 100 && -100 <= y <= 100
    ensures ctrl.keymap == old(ctrl.keymap)
  {
    x := ctrl.GetAnaY(ys);
    var ax := ctrl.GetAnaX(xs);
    y := -ax;
  }

  /** The GPIO level of every button when nobody touches it: the opposite
      of its pressed level. */
  function IdleLevels(): (levels: seq<int>)
    ensures |levels| == BUTTON_CNT
    ensures forall i :: 0 <= i < BUTTON_CNT ==> levels[i] != BUTTON_ROWS[i].pressed
  {
    seq(BUTTON_CNT, i requires 0 <= i < BUTTON_CNT => 1 - BUTTON_ROWS[i].pressed)
  }

  /** With the keymap as written, the very first QG_GetKey reports the
      start button (K_TAB) as pressed although nobody touched a button: the
      start button boots with both event flags set, so whatever level its
      pin reads (ctrl_init now gives it a pull-up) a press is pending. */
  lemma AsWrittenIdleBootReportsTab(levels: seq<int>, now: int)
    requires |levels| == BUTTON_CNT
    requires forall i :: 0 <= i < BUTTON_ST ==> levels[i] != BUTTON_PRESSED_WHEN_LO
    ensures var u := UpdateAll(KeymapAsWritten(), levels, now);
            && FirstPending(u) == BUTTON_ST
            && u[BUTTON_ST].newlyPressed == 1
            && KEY_CONV_TAB[FirstPending(u)] == K_TAB
  {
    var u := UpdateAll(KeymapAsWritten(), levels, now);
    assert forall j :: 0 <= j < BUTTON_ST ==> !Pending(u[j]);
    assert Pending(u[BUTTON_ST]);
    FirstPendingIs(u, BUTTON_ST);
  }

  /** With the intended keymap the same idle boot reports nothing. */
  lemma IntendedIdleBootReportsNothing(now: int)
    ensures FirstPending(UpdateAll(KeymapIntended(), IdleLevels(), now)) == BUTTON_CNT
  {
    var u := UpdateAll(KeymapIntended(), IdleLevels(), now);
    assert forall j :: 0 <= j < BUTTON_CNT ==> !Pending(u[j]);
    FirstPendingIs(u, BUTTON_CNT);
  }

  /** The contract of FirstPending determines it. */
  lemma FirstPendingIs(keys: seq<Key>, f: nat)
    requires f <= |keys| && (f < |keys| ==> Pending(keys[f]))
    requires forall j :: 0 <= j < f ==> !Pending(keys[j])
    ensures FirstPending(keys) == f
  {
  }
}
