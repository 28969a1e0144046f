/** The EK79007 MIPI-DSI panel driver: the MADCTL shadow register that
    mirror() and the init sequence update, the lane-count pad setting,
    the init-command scan and colour inversion.  The panel IO is a
    fallible transmitter: every esp_lcd_panel_io_tx_param call is recorded
    in `sent`, and the code it returns is an input of the operation. */
module Ek79007 {
  import opened CTypes
  import opened Wrappers

  /** esp_err_t codes. */
  const ESP_OK: int := 0
  const ESP_ERR_NO_MEM: int := 0x101
  const ESP_ERR_INVALID_ARG: int := 0x102
  const ESP_ERR_INVALID_STATE: int := 0x103

  /** MIPI DCS commands. */
  const LCD_CMD_INVOFF: byte := 0x20
  const LCD_CMD_INVON: byte := 0x21
  const LCD_CMD_MADCTL: byte := 0x36

  const EK79007_PAD_CONTROL: byte := 0xB2
  const EK79007_DSI_2_LANE: byte := 0x10
  const EK79007_DSI_4_LANE: byte := 0x00
  /** MADCTL bit 0 mirrors horizontally (SHLR), bit 1 vertically (UPDN). */
  const EK79007_CMD_SHLR_BIT: byte := 1
  const EK79007_CMD_UPDN_BIT: byte := 2
  const EK79007_MDCTL_VALUE_DEFAULT: byte := 0x01

  /** ek79007_lcd_init_cmd_t: a command byte, its parameter bytes, how many
      of them to send, and the delay after it. */
  datatype InitCmd = InitCmd(cmd: byte, data: seq<byte>, dataBytes: int, delayMs: int)

  /** data_bytes never exceeds the data it points at. */
  predicate WellFormed(c: InitCmd) { 0 <= c.dataBytes <= |c.data| }

  predicate AllWellFormed(cmds: seq<InitCmd>)
  {
    forall i :: 0 <= i < |cmds| ==> WellFormed(cmds[i])
  }

  /** One esp_lcd_panel_io_tx_param call: command and parameter bytes. */
  datatype Tx = Tx(cmd: byte, params: seq<byte>)

  /** The code the panel IO returns for its n-th transmission: listed in
      `results`, and ESP_OK past the end of the list. */
  function Outcome(results: seq<int>, n: int): int
    requires 0 <= n
  {
    if n < |results| then results[n] else ESP_OK
  }

  // ---------------------------------------------------------------- mirror

  /** `v |= bit` on a uint8_t, for one of the two mirror bits. */
  function OrBit(v: byte, bit: byte): (r: byte)
    requires bit == 1 || bit == 2
    ensures (r / bit) % 2 == 1
    ensures r % bit == v % bit && r / (2 * bit) == v / (2 * bit)
  {
    if (v / bit) % 2 == 1 then v else v + bit
  }

  /** `v &= ~bit` on a uint8_t, for one of the two mirror bits. */
  function AndNotBit(v: byte, bit: byte): (r: byte)
    requires bit == 1 || bit == 2
    ensures (r / bit) % 2 == 0
    ensures r % bit == v % bit && r / (2 * bit) == v / (2 * bit)
  {
    if (v / bit) % 2 == 1 then v - bit else v
  }

  /** The MADCTL value mirror() computes from the stored one: SHLR set or
      cleared as mirror_x asks, then UPDN as mirror_y asks. */
  function MirroredMadctl(madctl: byte, mirrorX: bool, mirrorY: bool): (r: byte)
    ensures r % 2 == (if mirrorX then 1 else 0)
    ensures (r / 2) % 2 == (if mirrorY then 1 else 0)
    ensures r / 4 == madctl / 4
  {
    var x := if mirrorX then OrBit(madctl, EK79007_CMD_SHLR_BIT) else AndNotBit(madctl, EK79007_CMD_SHLR_BIT);
    if mirrorY then OrBit(x, EK79007_CMD_UPDN_BIT) else AndNotBit(x, EK79007_CMD_UPDN_BIT)
  }

  /** A byte is determined by its two low bits and the rest. */
  lemma ByteFromBits(a: byte, b: byte)
    requires a % 2 == b % 2 && (a / 2) % 2 == (b / 2) % 2 && a / 4 == b / 4
    ensures a == b
  {
  }

  /** Repeating a mirror request gives the value it gave the first time,
      and a second request overrides the first entirely. */
  lemma MirrorIdempotent(madctl: byte, x1: bool, y1: bool, x2: bool, y2: bool)
    ensures MirroredMadctl(MirroredMadctl(madctl, x1, y1), x1, y1) == MirroredMadctl(madctl, x1, y1)
    ensures MirroredMadctl(MirroredMadctl(madctl, x1, y1), x2, y2) == MirroredMadctl(madctl, x2, y2)
  {
    var once := MirroredMadctl(madctl, x1, y1);
    ByteFromBits(MirroredMadctl(once, x1, y1), once);
    ByteFromBits(MirroredMadctl(once, x2, y2), MirroredMadctl(madctl, x2, y2));
  }

  // ------------------------------------------------------------ init table

  /** The pad-control parameter for a DSI lane count: two lanes (0 means
      the default of two) or four; any other count is refused. */
  function LaneCommand(lanes: byte): (r: Option<byte>)
    ensures r.Some? <==> lanes == 0 || lanes == 2 || lanes == 4
    ensures r == Some(EK79007_DSI_2_LANE) <==> lanes == 0 || lanes == 2
    ensures r == Some(EK79007_DSI_4_LANE) <==> lanes == 4
  {
    if lanes == 0 || lanes == 2 then Some(EK79007_DSI_2_LANE)
    else if lanes == 4 then Some(EK79007_DSI_4_LANE)
    else None
  }

  /** An init command that overrides the driver's MADCTL value. */
  predicate SetsMadctl(c: InitCmd)
  {
    c.dataBytes > 0 && c.cmd == LCD_CMD_MADCTL
  }

  /** madctl_val after scanning the first n commands of `cmds` from `v`:
      the first parameter of the last of them that sets MADCTL. */
  function CapturedMadctl(cmds: seq<InitCmd>, n: int, v: byte): byte
    requires AllWellFormed(cmds) && 0 <= n <= |cmds|
  {
    if n == 0 then v
    else if SetsMadctl(cmds[n - 1]) then cmds[n - 1].data[0]
    else CapturedMadctl(cmds, n - 1, v)
  }

  /** The last MADCTL command scanned decides the value ... */
  lemma {:induction false} CapturedIsLastMadctl(cmds: seq<InitCmd>, n: int, v: byte, j: int)
    requires AllWellFormed(cmds) && 0 <= j < n <= |cmds| && SetsMadctl(cmds[j])
    requires forall i :: j < i < n ==> !SetsMadctl(cmds[i])
    ensures CapturedMadctl(cmds, n, v) == cmds[j].data[0]
  {
    if j < n - 1 {
      CapturedIsLastMadctl(cmds, n - 1, v, j);
    }
  }

  /** ... and when none of them sets it, it is left as it was. */
  lemma {:induction false} CapturedWithoutMadctl(cmds: seq<InitCmd>, n: int, v: byte)
    requires AllWellFormed(cmds) && 0 <= n <= |cmds|
    requires forall i :: 0 <= i < n ==> !SetsMadctl(cmds[i])
    ensures CapturedMadctl(cmds, n, v) == v
  {
    if n > 0 {
      CapturedWithoutMadctl(cmds, n - 1, v);
    }
  }

  /** The transmission of one table command: its command byte and its
      first data_bytes parameters. */
  function TxOf(c: InitCmd): (t: Tx)
    requires WellFormed(c)
    ensures t.cmd == c.cmd && |t.params| == c.dataBytes
    ensures forall k :: 0 <= k < c.dataBytes ==> t.params[k] == c.data[k]
  {
    Tx(c.cmd, c.data[..c.dataBytes])
  }

  /** The transmissions of the first n table commands, in order. */
  function TableTxs(cmds: seq<InitCmd>, n: int): (txs: seq<Tx>)
    requires AllWellFormed(cmds) && 0 <= n <= |cmds|
    ensures |txs| == n
  {
    if n == 0 then [] else TableTxs(cmds, n - 1) + [TxOf(cmds[n - 1])]
  }

  /** Scanning further only appends: the transmissions of a shorter prefix
      are a prefix of those of a longer one. */
  lemma {:induction false} TableTxsPrefix(cmds: seq<InitCmd>, n: int, m: int)
    requires AllWellFormed(cmds) && 0 <= n <= m <= |cmds|
    ensures TableTxs(cmds, m)[..n] == TableTxs(cmds, n)
    decreases m - n
  {
    if n < m {
      TableTxsPrefix(cmds, n, m - 1);
      assert TableTxs(cmds, m)[..m - 1] == TableTxs(cmds, m - 1);
    }
  }

  /** The transmissions of send_init_cmds in order: the pad control byte,
      then every table command. */
  function Transmissions(lane: byte, cmds: seq<InitCmd>): (txs: seq<Tx>)
    requires AllWellFormed(cmds)
    ensures |txs| == |cmds| + 1
    ensures txs[0] == Tx(EK79007_PAD_CONTROL, [lane])
  {
    [Tx(EK79007_PAD_CONTROL, [lane])] + TableTxs(cmds, |cmds|)
  }

  /** Transmission j + 1 is table command j. */
  lemma TransmissionOf(lane: byte, cmds: seq<InitCmd>, j: int)
    requires AllWellFormed(cmds) && 0 <= j < |cmds|
    ensures Transmissions(lane, cmds)[j + 1] == TxOf(cmds[j])
  {
    TableTxsPrefix(cmds, j + 1, |cmds|);
    assert TableTxs(cmds, |cmds|)[j] == TableTxs(cmds, j + 1)[j];
  }

  /** The first k + 1 transmissions: the pad byte, then k table commands. */
  lemma TransmissionsPrefix(lane: byte, cmds: seq<InitCmd>, k: int)
    requires AllWellFormed(cmds) && 0 <= k <= |cmds|
    ensures Transmissions(lane, cmds)[..k + 1] == [Tx(EK79007_PAD_CONTROL, [lane])] + TableTxs(cmds, k)
  {
    TableTxsPrefix(cmds, k, |cmds|);
  }

  /** The first of `count` transmissions whose result is an error, or
      `count` when all of them succeed. */
  function FirstFailure(results: seq<int>, from: nat, count: nat): (f: nat)
    requires from <= count
    ensures from <= f <= count
    ensures f < count ==> Outcome(results, f) != ESP_OK
    decreases count - from
  {
    if from == count then count
    else if Outcome(results, from) != ESP_OK then from
    else FirstFailure(results, from + 1, count)
  }

  /** Every transmission before the first failure succeeded. */
  lemma {:induction false} SucceededBeforeFirstFailure(results: seq<int>, from: nat, count: nat, j: nat)
    requires from <= j && from <= count && j < FirstFailure(results, from, count)
    ensures Outcome(results, j) == ESP_OK
    decreases count - from
  {
    if from < j {
      SucceededBeforeFirstFailure(results, from + 1, count, j);
    }
  }

  /** The contract of FirstFailure determines it. */
  lemma {:induction false} FirstFailureIs(results: seq<int>, from: nat, count: nat, f: nat)
    requires from <= f <= count
    requires forall j :: from <= j < f ==> Outcome(results, j) == ESP_OK
    requires f < count ==> Outcome(results, f) != ESP_OK
    ensures FirstFailure(results, from, count) == f
    decreases count - from
  {
    if from < f {
      FirstFailureIs(results, from + 1, count, f);
    }
  }

  /** panel_dev_config's vendor part (ek79007_vendor_config_t). */
  datatype VendorConfig = VendorConfig(initCmds: Option<seq<InitCmd>>, laneNum: byte,
                                       hasDsiBus: bool, hasDpiConfig: bool)

  datatype DevConfig = DevConfig(resetGpioNum: int, resetActiveHigh: bool,
                                 vendorConfig: Option<VendorConfig>)

  /** What esp_lcd_new_panel_ek79007 requires of its vendor config. */
  predicate VendorConfigComplete(config: DevConfig)
  {
    config.vendorConfig.Some? && config.vendorConfig.value.hasDpiConfig && config.vendorConfig.value.hasDsiBus
  }

  /** ek79007_panel_t. */
  class Panel {
    /** The panel IO handle; None is a null handle. */
    var io: Option<int>
    var resetGpioNum: int
    var resetLevel: bool
    /** Shadow of the panel's MADCTL register. */
    var madctlVal: byte
    /** The caller's init table, or None for the built-in one. */
    var initCmds: Option<seq<InitCmd>>
    var laneNum: byte
    /** vendor_specific_init_default, whose bytes are not part of this model. */
    const defaultInitCmds: seq<InitCmd>
    /** Every transmission handed to the panel IO, in order. */
    var sent: seq<Tx>

    ghost predicate Valid()
      reads this
    {
      && AllWellFormed(defaultInitCmds)
      && (initCmds.Some? ==> AllWellFormed(initCmds.value))
    }

    /** The table send_init_cmds walks: the caller's when given, otherwise the default. */
    function Table(): (cmds: seq<InitCmd>)
      reads this
      requires Valid()
      ensures AllWellFormed(cmds)
      ensures initCmds.Some? ==> cmds == initCmds.value
      ensures initCmds.None? ==> cmds == defaultInitCmds
    {
      if initCmds.Some? then initCmds.value else defaultInitCmds
    }

    constructor (io: Option<int>, config: DevConfig, vendor: VendorConfig, defaults: seq<InitCmd>)
      requires AllWellFormed(defaults)
      requires vendor.initCmds.Some? ==> AllWellFormed(vendor.initCmds.value)
      ensures Valid()
      ensures this.io == io && initCmds == vendor.initCmds && laneNum == vendor.laneNum
      ensures resetGpioNum == config.resetGpioNum && resetLevel == config.resetActiveHigh
      ensures madctlVal == EK79007_MDCTL_VALUE_DEFAULT && defaultInitCmds == defaults && sent == []
    {
      this.io := io;
      initCmds := vendor.initCmds;
      laneNum := vendor.laneNum;
      resetGpioNum := config.resetGpioNum;
      resetLevel := config.resetActiveHigh;
      madctlVal := EK79007_MDCTL_VALUE_DEFAULT;
      defaultInitCmds := defaults;
      sent := [];
    }

    /** panel_ek79007_mirror(): set or clear the two mirror bits and send
        MADCTL; the new value is kept only when the transmission succeeds. */
    method Mirror(mirrorX: bool, mirrorY: bool, txResult: int) returns (ret: int)
      modifies this`madctlVal, this`sent
      ensures io.None? ==> ret == ESP_ERR_INVALID_STATE && sent == old(sent) && madctlVal == old(madctlVal)
      ensures io.Some? ==>
                && ret == txResult
                && sent == old(sent) + [Tx(LCD_CMD_MADCTL, [MirroredMadctl(old(madctlVal), mirrorX, mirrorY)])]
                && madctlVal == if txResult == ESP_OK then MirroredMadctl(old(madctlVal), mirrorX, mirrorY)
                                else old(madctlVal)
    {
      if io.None? {
        return ESP_ERR_INVALID_STATE;
      }
      var value := madctlVal;
      if mirrorX {
        value := OrBit(value, EK79007_CMD_SHLR_BIT);
      } else {
        value := AndNotBit(value, EK79007_CMD_SHLR_BIT);
      }
      if mirrorY {
        value := OrBit(value, EK79007_CMD_UPDN_BIT);
      } else {
        value := AndNotBit(value, EK79007_CMD_UPDN_BIT);
      }
      sent := sent + [Tx(LCD_CMD_MADCTL, [value])];
      if txResult != ESP_OK {
        return txResult;
      }
      madctlVal := value;
      ret := ESP_OK;
    }

    /** panel_ek79007_invert_color(): INVON to invert, INVOFF otherwise. */
    method InvertColor(invert: bool, txResult: int) returns (ret: int)
      modifies this`sent
      ensures io.None? ==> ret == ESP_ERR_INVALID_STATE && sent == old(sent)
      ensures io.Some? ==>
                ret == txResult &&
                sent == old(sent) + [Tx(if invert then LCD_CMD_INVON else LCD_CMD_INVOFF, [])]
    {
      if io.None? {
        return ESP_ERR_INVALID_STATE;
      }
      var command: byte := 0;
      if invert {
        command := LCD_CMD_INVON;
      } else {
        command := LCD_CMD_INVOFF;
      }
      sent := sent + [Tx(command, [])];
      ret := txResult;
    }

    /** panel_ek79007_send_init_cmds(): the pad control for the lane count,
        then the table in order, stopping at the first failed transmission;
        a MADCTL command in the table is captured before it is sent.
        `results` are the codes the IO returns, in call order.  With f the
        first failed call, min(f, |table|) table commands are sent and
        scanned. */
    method SendInitCmds(results: seq<int>) returns (ret: int)
      requires Valid()
      modifies this`madctlVal, this`sent
      ensures LaneCommand(laneNum).None? ==>
                ret == ESP_ERR_INVALID_ARG && sent == old(sent) && madctlVal == old(madctlVal)
      ensures LaneCommand(laneNum).Some? ==>
                var cmds := old(Table());
                var calls := Transmissions(LaneCommand(laneNum).value, cmds);
                var f := FirstFailure(results, 0, |calls|);
                var k := if f < |cmds| then f else |cmds|;
                && ret == (if f < |calls| then Outcome(results, f) else ESP_OK)
                && sent == old(sent) + calls[..k + 1]
                && madctlVal == CapturedMadctl(cmds, k, old(madctlVal))
    {
      var laneCmd := LaneCommand(laneNum);
      if laneCmd.None? {
        return ESP_ERR_INVALID_ARG;
      }
      var lane := laneCmd.value;
      var cmds := if initCmds.Some? then initCmds.value else defaultInitCmds;
      ghost var calls := Transmissions(lane, cmds);
      sent := sent + [Tx(EK79007_PAD_CONTROL, [lane])];
      if Outcome(results, 0) != ESP_OK {
        assert FirstFailure(results, 0, |calls|) == 0 by {
          FirstFailureIs(results, 0, |calls|, 0);
        }
        assert sent == old(sent) + calls[..1] by {
          TransmissionsPrefix(lane, cmds, 0);
        }
        return Outcome(results, 0);
      }
      ghost var k;
      ret, k := SendTable(cmds, results);
      TransmissionsPrefix(lane, cmds, k);
    }

    /** The loop of send_init_cmds over the table, once the pad control has
        been sent (call 0) and succeeded; `k` is how many commands it sent. */
    method SendTable(cmds: seq<InitCmd>, results: seq<int>) returns (ret: int, ghost k: int)
      requires AllWellFormed(cmds) && Outcome(results, 0) == ESP_OK
      modifies this`madctlVal, this`sent
      ensures var f := FirstFailure(results, 0, |cmds| + 1);
              && k == (if f < |cmds| then f else |cmds|)
              && ret == (if f < |cmds| + 1 then Outcome(results, f) else ESP_OK)
              && sent == old(sent) + TableTxs(cmds, k)
              && madctlVal == CapturedMadctl(cmds, k, old(madctlVal))
    {
      ret := ESP_OK;
      var i := 0;
      while i < |cmds|
        invariant 0 <= i <= |cmds|
        invariant forall j :: 0 <= j <= i ==> Outcome(results, j) == ESP_OK
        invariant sent == old(sent) + TableTxs(cmds, i)
        invariant madctlVal == CapturedMadctl(cmds, i, old(madctlVal))
      {
        if cmds[i].dataBytes > 0 {
          if cmds[i].cmd == LCD_CMD_MADCTL {
            madctlVal := cmds[i].data[0];
          }
        }
        sent := sent + [Tx(cmds[i].cmd, cmds[i].data[..cmds[i].dataBytes])];
        if Outcome(results, i + 1) != ESP_OK {
          FirstFailureIs(results, 0, |cmds| + 1, i + 1);
          return Outcome(results, i + 1), i + 1;
        }
        i := i + 1;
      }
      FirstFailureIs(results, 0, |cmds| + 1, |cmds| + 1);
      k := |cmds|;
    }
  }

  /** esp_lcd_new_panel_ek79007(): check the arguments, then build the
      panel with MADCTL at its default.  The allocation, the reset-pin
      setup and the DPI panel creation are calls this model does not see:
      whether the allocation succeeds and what the other two return are
      inputs. */
  method NewPanel(io: Option<int>, config: Option<DevConfig>, hasRetPanel: bool,
                  allocOk: bool, resetPinResult: int, dpiResult: int, defaults: seq<InitCmd>)
      returns (ret: int, panel: Panel?)
    requires AllWellFormed(defaults)
    requires config.Some? && config.value.vendorConfig.Some? && config.value.vendorConfig.value.initCmds.Some? ==>
               AllWellFormed(config.value.vendorConfig.value.initCmds.value)
    ensures (ret == ESP_OK) == (panel != null)
    ensures io.None? || config.None? || !hasRetPanel ==> ret == ESP_ERR_INVALID_ARG
    ensures io.Some? && config.Some? && hasRetPanel && !VendorConfigComplete(config.value) ==>
              ret == ESP_ERR_INVALID_ARG
    ensures io.Some? && config.Some? && hasRetPanel && VendorConfigComplete(config.value) ==>
              && (!allocOk ==> ret == ESP_ERR_NO_MEM)
              && (allocOk && config.value.resetGpioNum >= 0 && resetPinResult != ESP_OK ==> ret == resetPinResult)
              && (allocOk && (config.value.resetGpioNum < 0 || resetPinResult == ESP_OK) ==>
                    ret == dpiResult)
    ensures panel != null ==>
              && fresh(panel) && panel.Valid()
              && panel.io == io && panel.madctlVal == EK79007_MDCTL_VALUE_DEFAULT && panel.sent == []
              && panel.initCmds == config.value.vendorConfig.value.initCmds
              && panel.laneNum == config.value.vendorConfig.value.laneNum
              && panel.resetGpioNum == config.value.resetGpioNum
  {
    panel := null;
    if io.None? || config.None? || !hasRetPanel {
      return ESP_ERR_INVALID_ARG, null;
    }
    var cfg := config.value;
    if !VendorConfigComplete(cfg) {
      return ESP_ERR_INVALID_ARG, null;
    }
    if !allocOk {
      return ESP_ERR_NO_MEM, null;
    }
    if cfg.resetGpioNum >= 0 && resetPinResult != ESP_OK {
      return resetPinResult, null;
    }
    var p := new Panel(io, cfg, cfg.vendorConfig.value, defaults);
    if dpiResult != ESP_OK {
      return dpiResult, null;
    }
    ret, panel := ESP_OK, p;
  }
}
