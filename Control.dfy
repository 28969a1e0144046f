/** Buttons and the analog stick of main/control.c.  GPIO levels, ADC
    readings and the millis() value are parameters of the operations. */
module Control {
  import opened CTypes
  import opened Wrappers

  const BUTTON_A: int := 0
  const BUTTON_B: int := 1
  const BUTTON_X: int := 2
  const BUTTON_Y: int := 3
  const BUTTON_LEFT: int := 4
  const BUTTON_RIGHT: int := 5
  const BUTTON_UP: int := 6
  const BUTTON_DOWN: int := 7
  const BUTTON_ST: int := 8
  const BUTTON_SEL: int := 9
  const BUTTON_L: int := 10
  const BUTTON_R: int := 11
  const BUTTON_SW: int := 12
  const BUTTON_CNT: int := 13

  const BUTTON_PRESSED_WHEN_LO: int := 0
  const BUTTON_PRESSED_WHEN_HI: int := 1
  /** gpio_pull_mode_t values of ESP-IDF. */
  const GPIO_PULLUP_ONLY: int := 0
  const GPIO_PULLDOWN_ONLY: int := 1

  /** keymap_t, one per button. */
  datatype Key = Key(pinId: int, gpioNum: int, keyState: int, newlyPressed: int,
                     newlyReleased: int, pullMode: int, pressedState: int, keyTimer: int)

  /** What every update keeps true of a button: 0/1 state and flags, and
      never a pending press and a pending release at once. */
  predicate KeyInv(k: Key)
  {
    && (k.keyState == 0 || k.keyState == 1)
    && (k.newlyPressed == 0 || k.newlyPressed == 1)
    && (k.newlyReleased == 0 || k.newlyReleased == 1)
    && !(k.newlyPressed == 1 && k.newlyReleased == 1)
  }

  /** One line of the keymap initialiser: button, pin, pull mode, pressed level. */
  datatype ButtonRow = ButtonRow(id: int, pin: int, pull: int, pressed: int)

  const BUTTON_ROWS: seq<ButtonRow> := [
    ButtonRow(BUTTON_A, 31, GPIO_PULLUP_ONLY, BUTTON_PRESSED_WHEN_LO),
    ButtonRow(BUTTON_B, 5, GPIO_PULLUP_ONLY, BUTTON_PRESSED_WHEN_LO),
    ButtonRow(BUTTON_X, 32, GPIO_PULLUP_ONLY, BUTTON_PRESSED_WHEN_LO),
    ButtonRow(BUTTON_Y, 54, GPIO_PULLUP_ONLY, BUTTON_PRESSED_WHEN_LO),
    ButtonRow(BUTTON_LEFT, 14, GPIO_PULLUP_ONLY, BUTTON_PRESSED_WHEN_LO),
    ButtonRow(BUTTON_RIGHT, 12, GPIO_PULLUP_ONLY, BUTTON_PRESSED_WHEN_LO),
    ButtonRow(BUTTON_UP, 13, GPIO_PULLUP_ONLY, BUTTON_PRESSED_WHEN_LO),
    ButtonRow(BUTTON_DOWN, 15, GPIO_PULLUP_ONLY, BUTTON_PRESSED_WHEN_LO),
    ButtonRow(BUTTON_ST, 45, GPIO_PULLDOWN_ONLY, BUTTON_PRESSED_WHEN_HI),
    ButtonRow(BUTTON_SEL, 35, GPIO_PULLUP_ONLY, BUTTON_PRESSED_WHEN_LO),
    ButtonRow(BUTTON_L, 11, GPIO_PULLUP_ONLY, BUTTON_PRESSED_WHEN_LO),
    ButtonRow(BUTTON_R, 4, GPIO_PULLUP_ONLY, BUTTON_PRESSED_WHEN_LO),
    ButtonRow(BUTTON_SW, 1, GPIO_PULLUP_ONLY, BUTTON_PRESSED_WHEN_LO)
  ]

  /** The keymap as the initialiser builds it: six positional values for a
      struct of eight fields, so the pull mode lands in key_newly_pressed,
      the pressed level in key_newly_released, and pull_mode and
      pressed_state are left 0. */
  function KeymapAsWritten(): (keys: seq<Key>)
    ensures |keys| == BUTTON_CNT
    ensures forall i :: 0 <= i < BUTTON_CNT ==> keys[i].pressedState == 0 && keys[i].pullMode == 0
  {
    seq(BUTTON_CNT, i requires 0 <= i < BUTTON_CNT =>
      var b := BUTTON_ROWS[i];
      Key(b.id, b.pin, 0, b.pull, b.pressed, 0, 0, 0))
  }

  /** As written, the start button begins with a pending press and a
      pending release, and its "pressed when high" level is lost. */
  lemma AsWrittenStartButtonBreaksKeyInv()
    ensures KeymapAsWritten()[BUTTON_ST].newlyPressed == 1
    ensures KeymapAsWritten()[BUTTON_ST].newlyReleased == 1
    ensures !KeyInv(KeymapAsWritten()[BUTTON_ST])
    ensures KeymapAsWritten()[BUTTON_ST].pressedState != BUTTON_ROWS[BUTTON_ST].pressed
  {
  }

  /** The keymap the initialiser evidently means: no state, no pending
      events, the listed pull mode and pressed level. */
  function KeymapIntended(): (keys: seq<Key>)
    ensures |keys| == BUTTON_CNT
    ensures forall i :: 0 <= i < BUTTON_CNT ==>
              KeyInv(keys[i]) && keys[i].keyState == 0 && keys[i].newlyPressed == 0 &&
              keys[i].newlyReleased == 0 && keys[i].pullMode == BUTTON_ROWS[i].pull &&
              keys[i].pressedState == BUTTON_ROWS[i].pressed
  {
    seq(BUTTON_CNT, i requires 0 <= i < BUTTON_CNT =>
      var b := BUTTON_ROWS[i];
      Key(b.id, b.pin, 0, 0, 0, b.pull, b.pressed, 0))
  }

  /** The per-button step of ctrl_update_btn_state for GPIO level `level`
      at time `now`. */
  function KeyUpdate(k: Key, level: int, now: int): (r: Key)
    ensures KeyInv(k) ==> KeyInv(r)
    ensures KeyInv(k) ==> r.keyState == (if level == k.pressedState then 1 else 0)
    // rising edge
    ensures k.keyState == 0 && level == k.pressedState ==>
              r.newlyPressed == 1 && r.newlyReleased == 0 && r.keyTimer == now
    // falling edge
    ensures k.keyState == 1 && level != k.pressedState ==>
              r.newlyPressed == 0 && r.newlyReleased == 1 && r.keyTimer == k.keyTimer
    // no edge: nothing changes
    ensures KeyInv(k) && (k.keyState == 1) == (level == k.pressedState) ==> r == k
    ensures r.pinId == k.pinId && r.gpioNum == k.gpioNum && r.pullMode == k.pullMode
    ensures r.pressedState == k.pressedState
  {
    if level == k.pressedState then
      if k.keyState == 0 then
        k.(keyState := 1, newlyReleased := 0, newlyPressed := 1, keyTimer := now)
      else k
    else
      if k.keyState == 1 then
        k.(newlyPressed := 0, newlyReleased := 1, keyState := 0)
      else k
  }

  function UpdateAll(keys: seq<Key>, levels: seq<int>, now: int): (r: seq<Key>)
    requires |levels| == |keys|
    ensures |r| == |keys|
  {
    seq(|keys|, i requires 0 <= i < |keys| => KeyUpdate(keys[i], levels[i], now))
  }

  /** An event is waiting on a button. */
  predicate Pending(k: Key) { k.newlyPressed != 0 || k.newlyReleased != 0 }

  /** Both event flags consumed. */
  function Consumed(k: Key): (r: Key)
    ensures !Pending(r) && (KeyInv(k) ==> KeyInv(r))
    ensures r.keyState == k.keyState && r.pressedState == k.pressedState
  {
    k.(newlyPressed := 0, newlyReleased := 0)
  }

  /** The guard as written in ctrl_get_btn_state and the event getters:
      it rejects only indices above BUTTON_CNT. */
  function GuardAcceptsAsWritten(button: nat): (accepts: bool)
    ensures accepts <==> button <= BUTTON_CNT
  {
    !(button > BUTTON_CNT)
  }

  /** BUTTON_CNT itself passes that guard, yet keymap has only BUTTON_CNT
      entries, so keymap[BUTTON_CNT] is read (and written) out of bounds. */
  lemma AsWrittenGuardAdmitsOnePastTheEnd()
    ensures GuardAcceptsAsWritten(BUTTON_CNT) && BUTTON_CNT >= |KeymapIntended()|
  {
  }

  /** The corrected guard: exactly the indices of keymap. */
  function ButtonInRange(button: nat): (ok: bool)
    ensures ok <==> button < |KeymapIntended()|
    ensures ok ==> GuardAcceptsAsWritten(button)
  {
    button < BUTTON_CNT
  }

  // ---------------------------------------------------------------- analog

  /** ana_cal_t: the extremes seen so far and the calibrated centre. */
  datatype AnaCal = AnaCal(min: int, center: int, max: int)

  const ANA_SAMPLES: int := 10
  const DEAD_ZONE: int := 18

  function Sum(s: seq<int>): int
  {
    if |s| == 0 then 0 else Sum(s[..|s| - 1]) + s[|s| - 1]
  }

  /** The averaged reading: the sum of the samples divided with C truncation. */
  function Average(samples: seq<int>): int
    requires |samples| == ANA_SAMPLES
  {
    CDiv(Sum(samples), ANA_SAMPLES)
  }

  /** The extremes grow to include the reading, and only as far as it. */
  function Widen(cal: AnaCal, reading: int): (r: AnaCal)
    ensures r.min <= reading <= r.max
    ensures r.min <= cal.min && cal.max <= r.max && r.center == cal.center
    ensures (r.min == cal.min || r.min == reading) && (r.max == cal.max || r.max == reading)
  {
    var lo := if reading < cal.min then reading else cal.min;
    var hi := if reading > cal.max then reading else cal.max;
    cal.(min := lo, max := hi)
  }

  /** The one case in which the source divides by zero: the reading is at
      the centre and no reading below the centre has been seen. */
  predicate DividesByZero(cal: AnaCal, reading: int)
  {
    reading <= cal.center && cal.min == cal.center
  }

  /** How far the reading lies from the centre toward the extreme on its
      side, in whole percent (a reference definition). */
  function Travel(cal: AnaCal, reading: int): (p: int)
    requires cal.min <= reading <= cal.max && !DividesByZero(cal, reading)
    ensures 0 <= p <= 100
  {
    if reading > cal.center then
      DivLe((reading - cal.center) * 100, 100, cal.max - cal.center);
      ((reading - cal.center) * 100) / (cal.max - cal.center)
    else
      DivLe((cal.center - reading) * 100, 100, cal.center - cal.min);
      ((cal.center - reading) * 100) / (cal.center - cal.min)
  }

  /** The stick value of ctrl_get_ana_x/_y for an already widened
      calibration: the travel in percent, 0 inside the dead zone, negative
      at or below the centre. */
  function Deflection(cal: AnaCal, reading: int): (ret: int)
    requires cal.min <= reading <= cal.max && !DividesByZero(cal, reading)
    ensures -100 <= ret <= 100
    ensures ret == 0 || DEAD_ZONE <= Abs(ret)
    ensures Abs(ret) == (if Travel(cal, reading) < DEAD_ZONE then 0 else Travel(cal, reading))
    ensures ret > 0 ==> reading > cal.center
    ensures ret < 0 ==> reading < cal.center
  {
    if reading > cal.center then
      var p := CDiv((reading - cal.center) * 100, cal.max - cal.center);
      var p1 := if p > 100 then 100 else p;
      if p1 < DEAD_ZONE then 0 else p1
    else
      var p := CDiv((reading - cal.center) * 100, cal.min - cal.center);
      var p1 := if p > 100 then 100 else p;
      var p2 := if p1 < DEAD_ZONE then 0 else p1;
      -p2
  }

  /** Ten ADC samples averaged, the calibration widened, the deflection
      computed: the shared body of ctrl_get_ana_x and ctrl_get_ana_y. */
  method ReadAxis(cal: AnaCal, samples: seq<int>) returns (cal': AnaCal, ret: int)
    requires |samples| == ANA_SAMPLES
    requires !DividesByZero(Widen(cal, Average(samples)), Average(samples))
    ensures cal' == Widen(cal, Average(samples))
    ensures ret == Deflection(cal', Average(samples))
    ensures -100 <= ret <= 100 && (ret == 0 || DEAD_ZONE <= Abs(ret))
    ensures ret > 0 ==> Average(samples) > cal.center
  {
    var reading := 0;
    var i := 0;
    while i < ANA_SAMPLES
      invariant 0 <= i <= ANA_SAMPLES
      invariant reading == Sum(samples[..i])
    {
      assert samples[..i + 1][..i] == samples[..i];
      reading := reading + samples[i];
      i := i + 1;
    }
    assert samples[..ANA_SAMPLES] == samples;
    reading := CDiv(reading, ANA_SAMPLES);
    cal' := cal;
    if reading < cal'.min {
      cal' := cal'.(min := reading);
    }
    if reading > cal'.max {
      cal' := cal'.(max := reading);
    }
    if reading > cal'.center {
      ret := CDiv((reading - cal'.center) * 100, cal'.max - cal'.center);
      if ret > 100 {
        ret := 100;
      }
      if ret < DEAD_ZONE {
        ret := 0;
      }
    } else {
      ret := CDiv((reading - cal'.center) * 100, cal'.min - cal'.center);
      if ret > 100 {
        ret := 100;
      }
      if ret < DEAD_ZONE {
        ret := 0;
      }
      ret := -ret;
    }
  }

  // ----------------------------------------------------------- calibration

  const CAL_SAMPLES: int := 20
  const TOLERANCE: int := 10
  /** Lower edge of the band in percent: 100 - tolerance for x ... */
  const X_LOW_PERCENT: int := 100 - TOLERANCE
  /** ... but 90 - tolerance for y, a wider band below the centre. */
  const Y_LOW_PERCENT: int := 90 - TOLERANCE

  /** The running average after sample i: (cal*i + r)/(i+1), truncated. */
  function CalStep(calVal: int, i: nat, r: int): int
  {
    CDiv(calVal * i + r, i + 1)
  }

  /** A sample outside the band around the running value restarts the pass. */
  predicate Restarts(r: int, calVal: int, lowPercent: int)
  {
    r * 100 > calVal * (100 + TOLERANCE) || r * 100 < calVal * lowPercent
  }

  /** The outcome of one axis's do/while over the finite reading stream
      `rs`, at sample i of a pass with running value cal: the centre and the
      number of readings consumed, or None when the stream ends first. */
  function Calib(rs: seq<int>, lowPercent: int, cal: int, i: nat): Option<(int, nat)>
    requires i < CAL_SAMPLES
    decreases |rs|
  {
    if |rs| == 0 then None
    else
      var c := CalStep(cal, i, rs[0]);
      var rest :=
        if Restarts(rs[0], c, lowPercent) then Calib(rs[1..], lowPercent, c, 0)
        else if i + 1 == CAL_SAMPLES then Some((c, 0))
        else Calib(rs[1..], lowPercent, c, i + 1);
      Shifted(rest, 1)
  }

  function Shifted(res: Option<(int, nat)>, k: nat): Option<(int, nat)>
  {
    match res
    case None => None
    case Some((v, n)) => Some((v, n + k))
  }

  /** The first sample of a pass replaces the running value whatever it was. */
  lemma FirstSampleResets(cal: int, r: int)
    ensures CalStep(cal, 0, r) == r
  {
  }

  /** A non-negative first sample never restarts its pass (the band is
      around the sample itself). */
  lemma FirstSampleNeverRestarts(cal: int, r: int, lowPercent: int)
    requires 0 <= r && lowPercent <= 100
    ensures !Restarts(r, CalStep(cal, 0, r), lowPercent)
  {
    FirstSampleResets(cal, r);
    assert r * lowPercent <= r * 100 <= r * (100 + TOLERANCE);
  }

  /** The value carried in from before a fresh pass does not affect the
      outcome: y's calibration starting from x's centre is y's alone. */
  lemma {:induction false} CarriedValueIrrelevant(rs: seq<int>, lowPercent: int, c1: int, c2: int)
    ensures Calib(rs, lowPercent, c1, 0) == Calib(rs, lowPercent, c2, 0)
  {
    if |rs| > 0 {
      FirstSampleResets(c1, rs[0]);
      FirstSampleResets(c2, rs[0]);
    }
  }

  /** A centre is produced only after a full pass of 20 samples. */
  lemma {:induction false} CalibConsumesFullPass(rs: seq<int>, lowPercent: int, cal: int, i: nat)
    requires i < CAL_SAMPLES
    requires Calib(rs, lowPercent, cal, i).Some?
    ensures Calib(rs, lowPercent, cal, i).value.1 >= CAL_SAMPLES - i
    ensures Calib(rs, lowPercent, cal, i).value.1 <= |rs|
  {
    var c := CalStep(cal, i, rs[0]);
    if Restarts(rs[0], c, lowPercent) {
      CalibConsumesFullPass(rs[1..], lowPercent, c, 0);
    } else if i + 1 < CAL_SAMPLES {
      CalibConsumesFullPass(rs[1..], lowPercent, c, i + 1);
    }
  }

  /** One reading of the stream, seen from position `used`. */
  lemma CalibUnfold(rs: seq<int>, used: nat, lowPercent: int, cal: int, i: nat)
    requires used < |rs| && i < CAL_SAMPLES
    ensures var c := CalStep(cal, i, rs[used]);
            Shifted(Calib(rs[used..], lowPercent, cal, i), used) ==
              if Restarts(rs[used], c, lowPercent) then Shifted(Calib(rs[used + 1..], lowPercent, c, 0), used + 1)
              else if i + 1 == CAL_SAMPLES then Some((c, used + 1))
              else Shifted(Calib(rs[used + 1..], lowPercent, c, i + 1), used + 1)
  {
    assert rs[used..][0] == rs[used] && rs[used..][1..] == rs[used + 1..];
    var c := CalStep(cal, i, rs[used]);
    match Calib(rs[used + 1..], lowPercent, c, 0)
    case None =>
    case Some(_) =>
    match Calib(rs[used + 1..], lowPercent, c, if i + 1 < CAL_SAMPLES then i + 1 else 0)
    case None =>
    case Some(_) =>
  }

  /** How one pass of 20 samples ended. */
  datatype PassEnd = Exhausted | StartOver | Completed

  /** The `for` loop of one calibration pass, reading from position
      `from` of the stream with running value `calIn`. */
  method CalibPass(rs: seq<int>, lowPercent: int, calIn: int, from: nat)
      returns (end: PassEnd, calVal: int, used: nat)
    requires from <= |rs|
    ensures from <= used <= |rs|
    ensures end == Exhausted ==> Shifted(Calib(rs[from..], lowPercent, calIn, 0), from) == None
    ensures end == StartOver ==>
              from < used &&
              Shifted(Calib(rs[from..], lowPercent, calIn, 0), from) ==
              Shifted(Calib(rs[used..], lowPercent, calVal, 0), used)
    ensures end == Completed ==>
              Shifted(Calib(rs[from..], lowPercent, calIn, 0), from) == Some((calVal, used))
  {
    ghost var target := Shifted(Calib(rs[from..], lowPercent, calIn, 0), from);
    calVal := calIn;
    used := from;
    var i := 0;
    while i < CAL_SAMPLES
      invariant 0 <= i <= CAL_SAMPLES && used == from + i <= |rs|
      invariant i < CAL_SAMPLES ==> Shifted(Calib(rs[used..], lowPercent, calVal, i), used) == target
      invariant i == CAL_SAMPLES ==> target == Some((calVal, used))
    {
      if used == |rs| {
        return Exhausted, calVal, used;
      }
      var r := rs[used];
      CalibUnfold(rs, used, lowPercent, calVal, i);
      used := used + 1;
      calVal := CalStep(calVal, i, r);
      if Restarts(r, calVal, lowPercent) {
        return StartOver, calVal, used;
      }
      i := i + 1;
    }
    end := Completed;
  }

  /** One axis of ctrl_ana_calib: the do/while that repeats passes of 20
      samples until one completes inside the band. */
  method CalibrateAxis(rs: seq<int>, lowPercent: int, calIn: int) returns (done: bool, calVal: int, used: nat)
    ensures done == Calib(rs, lowPercent, calIn, 0).Some?
    ensures done ==> Calib(rs, lowPercent, calIn, 0) == Some((calVal, used))
  {
    ghost var target := Calib(rs, lowPercent, calIn, 0);
    assert rs[0..] == rs;
    assert Shifted(target, 0) == target by {
      match target
      case None =>
      case Some(_) =>
    }
    calVal := calIn;
    used := 0;
    var end := StartOver;
    while end == StartOver
      invariant used <= |rs|
      invariant end == StartOver ==> Shifted(Calib(rs[used..], lowPercent, calVal, 0), used) == target
      invariant end == Exhausted ==> target == None
      invariant end == Completed ==> target == Some((calVal, used))
      decreases |rs| - used + (if end == StartOver then 1 else 0)
    {
      end, calVal, used := CalibPass(rs, lowPercent, calVal, used);
    }
    done := end == Completed;
  }

  /** `1u << BUTTON_CNT`: every mask of the thirteen buttons is below it. */
  const BUTTON_MASK_LIMIT: nat := 0x2000

  lemma MaskLimit()
    ensures Pow2(BUTTON_CNT) == BUTTON_MASK_LIMIT
  {
    assert Pow2(4) == 16;
    assert Pow2(8) == 256;
  }

  /** One step of building the pressed mask: bit i is added exactly when
      button i is a hit, and the mask keeps naming the hits so far. */
  lemma MaskStep(res: nat, i: nat, hits: seq<bool>, next: nat)
    requires i < |hits| && res < Pow2(i)
    requires forall j :: 0 <= j < |hits| ==> (TestBit(res, j) <==> j < i && hits[j])
    requires next == if hits[i] then res + Pow2(i) else res
    ensures next < Pow2(i + 1)
    ensures forall j :: 0 <= j < |hits| ==> (TestBit(next, j) <==> j < i + 1 && hits[j])
  {
    if hits[i] {
      SetBit(res, i, next);
    }
  }

  /** For m below 2^n, s = m + 2^n is m with bit n set (`m | (1 << n)`). */
  lemma SetBit(m: nat, n: nat, s: nat)
    requires m < Pow2(n) && s == m + Pow2(n)
    ensures s < Pow2(n + 1)
    ensures forall j: nat :: TestBit(s, j) <==> (j == n || TestBit(m, j))
  {
    forall j: nat
      ensures TestBit(s, j) <==> (j == n || TestBit(m, j))
    {
      BitOfAddPow2(m, n, j);
    }
  }

  class Buttons {
    var keymap: array<Key>
    var anaCalX: AnaCal
    var anaCalY: AnaCal

    ghost predicate Valid()
      reads this, keymap
    {
      keymap.Length == BUTTON_CNT && forall i :: 0 <= i < BUTTON_CNT ==> KeyInv(keymap[i])
    }

    /** The statics at start-up, with the keymap as intended. */
    constructor ()
      ensures Valid() && fresh(keymap) && keymap[..] == KeymapIntended()
      ensures anaCalX == AnaCal(1000, 0, 2000) && anaCalY == AnaCal(1000, 0, 2000)
    {
      keymap := new Key[BUTTON_CNT](i requires 0 <= i < BUTTON_CNT => KeymapIntended()[i]);
      anaCalX := AnaCal(1000, 0, 2000);
      anaCalY := AnaCal(1000, 0, 2000);
      new;
      assert keymap[..] == KeymapIntended();
    }

    /** ctrl_update_btn_state(): every button steps on its GPIO level; the
        result has bit i set exactly when button i is at its pressed level. */
    method UpdateBtnState(levels: seq<int>, now: int) returns (res: nat)
      requires Valid() && |levels| == BUTTON_CNT
      modifies keymap
      ensures Valid()
      ensures keymap[..] == UpdateAll(old(keymap[..]), levels, now)
      ensures res < BUTTON_MASK_LIMIT
      ensures forall i :: 0 <= i < BUTTON_CNT ==>
                (TestBit(res, i) <==> levels[i] == old(keymap[i]).pressedState)
      ensures forall j :: BUTTON_CNT <= j ==> !TestBit(res, j)
      ensures forall i :: 0 <= i < BUTTON_CNT ==>
                keymap[i].keyState == (if TestBit(res, i) then 1 else 0)
    {
      ghost var keys0 := keymap[..];
      ghost var hits := seq(BUTTON_CNT, j requires 0 <= j < BUTTON_CNT => levels[j] == keys0[j].pressedState);
      assert |hits| == BUTTON_CNT;
      res := 0;
      var i := 0;
      while i < BUTTON_CNT
        invariant 0 <= i <= BUTTON_CNT
        invariant res < Pow2(i)
        invariant forall j :: 0 <= j < BUTTON_CNT ==> (TestBit(res, j) <==> j < i && hits[j])
        invariant forall j :: 0 <= j < i ==> keymap[j] == KeyUpdate(keys0[j], levels[j], now)
        invariant forall j :: i <= j < BUTTON_CNT ==> keymap[j] == keys0[j]
        invariant forall j :: 0 <= j < i ==> keymap[j].keyState == (if hits[j] then 1 else 0)
      {
        var pressed := StepButton(i, levels[i], now);
        assert pressed == hits[i];
        // res |= 1u << i: bit i is still clear, so the OR is the sum
        var next := if pressed then res + Pow2(i) else res;
        MaskStep(res, i, hits, next);
        res := next;
        i := i + 1;
      }
      assert keymap[..] == UpdateAll(keys0, levels, now);
      MaskLimit();
      forall j | BUTTON_CNT <= j
        ensures !TestBit(res, j)
      {
        BitsAbove(res, BUTTON_CNT, j);
      }
    }

    /** The body of ctrl_update_btn_state's loop for button i: the key
        steps on its level, and the result says whether the button reads
        its pressed level. */
    method StepButton(i: int, level: int, now: int) returns (pressed: bool)
      requires Valid() && 0 <= i < BUTTON_CNT
      modifies keymap
      ensures Valid()
      ensures pressed == (level == old(keymap[i]).pressedState)
      ensures keymap[i] == KeyUpdate(old(keymap[i]), level, now)
      ensures keymap[i].keyState == if pressed then 1 else 0
      ensures forall j :: 0 <= j < BUTTON_CNT && j != i ==> keymap[j] == old(keymap[j])
    {
      var k := keymap[i];
      pressed := level == k.pressedState;
      if pressed {
        if k.keyState == 0 {
          keymap[i] := k.(keyState := 1, newlyReleased := 0, newlyPressed := 1, keyTimer := now);
        }
      } else {
        if k.keyState == 1 {
          keymap[i] := k.(newlyPressed := 0, newlyReleased := 1, keyState := 0);
        }
      }
    }

    /** ctrl_get_btn_state(), with the corrected guard. */
    method GetBtnState(button: nat) returns (down: bool)
      requires Valid()
      ensures down == (ButtonInRange(button) && keymap[button].keyState != 0)
    {
      if !ButtonInRange(button) {
        return false;
      }
      if keymap[button].keyState != 0 {
        down := true;
      } else {
        down := false;
      }
    }

    /** ctrl_get_btn_press_event(): report and clear this button's press flag only. */
    method GetBtnPressEvent(button: nat) returns (pressed: bool)
      requires Valid()
      modifies keymap
      ensures Valid()
      ensures !ButtonInRange(button) ==> !pressed && keymap[..] == old(keymap[..])
      ensures ButtonInRange(button) ==>
                pressed == (old(keymap[button]).newlyPressed != 0) &&
                keymap[..] == old(keymap[..])[button := old(keymap[button]).(newlyPressed := 0)]
    {
      if !ButtonInRange(button) {
        return false;
      }
      var flag := keymap[button].newlyPressed % TWO16;   // the uint16_t copy
      keymap[button] := keymap[button].(newlyPressed := 0);
      pressed := flag != 0;
    }

    /** ctrl_get_btn_release_event(): report and clear this button's release flag only. */
    method GetBtnReleaseEvent(button: nat) returns (released: bool)
      requires Valid()
      modifies keymap
      ensures Valid()
      ensures !ButtonInRange(button) ==> !released && keymap[..] == old(keymap[..])
      ensures ButtonInRange(button) ==>
                released == (old(keymap[button]).newlyReleased != 0) &&
                keymap[..] == old(keymap[..])[button := old(keymap[button]).(newlyReleased := 0)]
    {
      if !ButtonInRange(button) {
        return false;
      }
      var flag := keymap[button].newlyReleased % TWO16;   // the uint16_t copy
      keymap[button] := keymap[button].(newlyReleased := 0);
      released := flag != 0;
    }

    /** Reading an event consumes it: a press or release reported once is
        not reported by an immediate second read. */
    method EventsReportedOnce(button: nat) returns (p1: bool, p2: bool, r1: bool, r2: bool)
      requires Valid()
      modifies keymap
      ensures Valid() && !p2 && !r2
      ensures p1 == (ButtonInRange(button) && old(keymap[..])[button].newlyPressed != 0)
      ensures r1 == (ButtonInRange(button) && old(keymap[..])[button].newlyReleased != 0)
    {
      p1 := GetBtnPressEvent(button);
      p2 := GetBtnPressEvent(button);
      r1 := GetBtnReleaseEvent(button);
      r2 := GetBtnReleaseEvent(button);
    }

    /** ctrl_get_ana_x(): ten samples of ADC channel 0. */
    method GetAnaX(samples: seq<int>) returns (ret: int)
      requires |samples| == ANA_SAMPLES
      requires !DividesByZero(Widen(anaCalX, Average(samples)), Average(samples))
      modifies this
      ensures anaCalX == Widen(old(anaCalX), Average(samples))
      ensures ret == Deflection(anaCalX, Average(samples))
      ensures -100 <= ret <= 100
      ensures anaCalY == old(anaCalY) && keymap == old(keymap)
    {
      anaCalX, ret := ReadAxis(anaCalX, samples);
    }

    /** ctrl_get_ana_y(): ten samples of ADC channel 1. */
    method GetAnaY(samples: seq<int>) returns (ret: int)
      requires |samples| == ANA_SAMPLES
      requires !DividesByZero(Widen(anaCalY, Average(samples)), Average(samples))
      modifies this
      ensures anaCalY == Widen(old(anaCalY), Average(samples))
      ensures ret == Deflection(anaCalY, Average(samples))
      ensures -100 <= ret <= 100
      ensures anaCalX == old(anaCalX) && keymap == old(keymap)
    {
      anaCalY, ret := ReadAxis(anaCalY, samples);
    }

    /** ctrl_ana_calib(): x from channel 0 starting at 0, then y from
        channel 1 starting at x's result.  Each centre is stored when its
        axis completes; `done` is false when a stream ends first (the
        source would keep sampling). */
    method Calibrate(xs: seq<int>, ys: seq<int>) returns (done: bool)
      modifies this
      ensures keymap == old(keymap)
      ensures var rx := Calib(xs, X_LOW_PERCENT, 0, 0);
              var ry := Calib(ys, Y_LOW_PERCENT, 0, 0);
              && (rx.Some? ==> anaCalX == old(anaCalX).(center := rx.value.0))
              && (rx.None? ==> anaCalX == old(anaCalX) && anaCalY == old(anaCalY) && !done)
              && (rx.Some? && ry.Some? ==> anaCalY == old(anaCalY).(center := ry.value.0) && done)
              && (rx.Some? && ry.None? ==> anaCalY == old(anaCalY) && !done)
    {
      var ok, calVal, used := CalibrateAxis(xs, X_LOW_PERCENT, 0);
      if !ok {
        return false;
      }
      anaCalX := anaCalX.(center := calVal);
      CarriedValueIrrelevant(ys, Y_LOW_PERCENT, calVal, 0);
      ok, calVal, used := CalibrateAxis(ys, Y_LOW_PERCENT, calVal);
      if !ok {
        return false;
      }
      anaCalY := anaCalY.(center := calVal);
      done := true;
    }
  }
}
