/** The frame path of main/display.c: the 8-bit palette converted to
    RGB565, the engine's frames handed to the draw task through
    `cur_pixels`, the draw task's per-frame conversion and buffer flip, the
    frame-rate counter, and the text-mode end screen drawn with an 8x16
    font.  The PPA scale/rotate and the panel's draw call are not modelled: each
    cycle of the draw task records the converted frame it hands them and
    the buffer it targets. */
module Display {
  import opened CTypes
  import opened Wrappers

  const PALETTE_BYTES: int := 768
  const PALETTE_SIZE: int := 256
  const CHAR_W: int := 8
  const CHAR_H: int := 16
  const TEXT_COLS: int := 80
  const TEXT_ROWS: int := 25
  /** One byte of character and one of attribute per text cell. */
  const VGAMEM_BYTES: int := 4000
  /** 256 glyphs of 16 rows of 8 bits. */
  const FONT_BYTES: int := 4096
  /** QG_DrawFrame reports once fps_ticks exceeds this. */
  const FPS_WINDOW: int := 100

  /** pal[] entry for one palette triplet: the first byte's top five bits
      in 15..11, the second byte's top six in 10..5, the third's top five
      in 4..0. */
  function Rgb565(b: byte, g: byte, r: byte): (c: int)
    ensures 0 <= c < TWO16
  {
    r / 8 + (g / 4) * 32 + (b / 8) * 2048
  }

  /** Each field can be read back from the entry. */
  lemma Rgb565Fields(b: byte, g: byte, r: byte)
    ensures Rgb565(b, g, r) / 2048 == b / 8
    ensures (Rgb565(b, g, r) / 32) % 64 == g / 4
    ensures Rgb565(b, g, r) % 32 == r / 8
  {
    FieldsOf565(b / 8, g / 4, r / 8);
  }

  lemma FieldsOf565(hi: int, mid: int, lo: int)
    requires 0 <= hi < 32 && 0 <= mid < 64 && 0 <= lo < 32
    ensures var c := lo + mid * 32 + hi * 2048;
            0 <= c < TWO16 && c / 2048 == hi && (c / 32) % 64 == mid && c % 32 == lo
  {
    var c := lo + mid * 32 + hi * 2048;
    assert c / 32 == mid + hi * 64;
  }

  /** Only the bits each field keeps matter: channels differing only in
      the dropped low bits give the same entry. */
  lemma Rgb565DropsLowBits(b1: byte, g1: byte, r1: byte, b2: byte, g2: byte, r2: byte)
    requires b1 / 8 == b2 / 8 && g1 / 4 == g2 / 4 && r1 / 8 == r2 / 8
    ensures Rgb565(b1, g1, r1) == Rgb565(b2, g2, r2)
  {
  }

  /** Entries that differ are told apart by at least one channel field. */
  lemma Rgb565Injective(b1: byte, g1: byte, r1: byte, b2: byte, g2: byte, r2: byte)
    requires Rgb565(b1, g1, r1) == Rgb565(b2, g2, r2)
    ensures b1 / 8 == b2 / 8 && g1 / 4 == g2 / 4 && r1 / 8 == r2 / 8
  {
    Rgb565Fields(b1, g1, r1);
    Rgb565Fields(b2, g2, r2);
  }

  /** The 256 entries QG_SetPalette produces from a 768-byte palette. */
  function PaletteOf(p: seq<byte>): (pal: seq<int>)
    requires |p| == PALETTE_BYTES
    ensures |pal| == PALETTE_SIZE
    ensures forall i :: 0 <= i < PALETTE_SIZE ==> 0 <= pal[i] < TWO16
  {
    seq(PALETTE_SIZE, i requires 0 <= i < PALETTE_SIZE => Rgb565(p[3 * i], p[3 * i + 1], p[3 * i + 2]))
  }

  /** The sixteen EGA colours of draw_end_screen, as three bytes each. */
  const EGA_COLOURS: seq<(byte, byte, byte)> := [
    (0x00, 0x00, 0x00), (0x00, 0x00, 0xaa), (0x00, 0xaa, 0x00), (0x00, 0xaa, 0xaa),
    (0xaa, 0x00, 0x00), (0xaa, 0x00, 0xaa), (0xaa, 0x55, 0x00), (0xaa, 0xaa, 0xaa),
    (0x55, 0x55, 0x55), (0x55, 0x55, 0xff), (0x55, 0xff, 0x55), (0x55, 0xff, 0xff),
    (0xff, 0x55, 0x55), (0xff, 0x55, 0xff), (0xff, 0xff, 0x55), (0xff, 0xff, 0xff)
  ]

  function Channel(t: (byte, byte, byte), k: int): byte
  {
    if k == 0 then t.0 else if k == 1 then t.1 else t.2
  }

  /** The 768-byte array: the listed colours, the rest zero-initialised. */
  const EGA_PALETTE: seq<byte> :=
    seq(PALETTE_BYTES, j requires 0 <= j < PALETTE_BYTES =>
      if j < 48 then Channel(EGA_COLOURS[j / 3], j % 3) else 0)

  /** The RGB565 values the end screen draws with. */
  const EGA_RGB565: seq<int> := [
    0x0000, 0x0015, 0x0540, 0x0555, 0xA800, 0xA815, 0xAAA0, 0xAD55,
    0x52AA, 0x52BF, 0x57EA, 0x57FF, 0xFAAA, 0xFABF, 0xFFEA, 0xFFFF
  ]

  /** Each EGA triplet in RGB565 (checked four colours at a time). */
  lemma EgaTriplet(i: int)
    requires 0 <= i < 16
    ensures Rgb565(EGA_COLOURS[i].0, EGA_COLOURS[i].1, EGA_COLOURS[i].2) == EGA_RGB565[i]
  {
    if i < 4 {
      EgaTriplets0To3(i);
    } else if i < 8 {
      EgaTriplets4To7(i);
    } else if i < 12 {
      EgaTriplets8To11(i);
    } else {
      EgaTriplets12To15(i);
    }
  }

  lemma EgaTriplets0To3(i: int)
    requires 0 <= i < 4
    ensures Rgb565(EGA_COLOURS[i].0, EGA_COLOURS[i].1, EGA_COLOURS[i].2) == EGA_RGB565[i]
  {
    if i == 0 {} else if i == 1 {} else if i == 2 {} else {}
  }

  lemma EgaTriplets4To7(i: int)
    requires 4 <= i < 8
    ensures Rgb565(EGA_COLOURS[i].0, EGA_COLOURS[i].1, EGA_COLOURS[i].2) == EGA_RGB565[i]
  {
    if i == 4 {} else if i == 5 {} else if i == 6 {} else {}
  }

  lemma EgaTriplets8To11(i: int)
    requires 8 <= i < 12
    ensures Rgb565(EGA_COLOURS[i].0, EGA_COLOURS[i].1, EGA_COLOURS[i].2) == EGA_RGB565[i]
  {
    if i == 8 {} else if i == 9 {} else if i == 10 {} else {}
  }

  lemma EgaTriplets12To15(i: int)
    requires 12 <= i < 16
    ensures Rgb565(EGA_COLOURS[i].0, EGA_COLOURS[i].1, EGA_COLOURS[i].2) == EGA_RGB565[i]
  {
    if i == 12 {} else if i == 13 {} else if i == 14 {} else {}
  }

  /** After QG_SetPalette on the EGA table, entries 0..15 hold the EGA
      colours in RGB565 and every other entry is black. */
  lemma EgaPaletteValues()
    ensures forall i :: 0 <= i < 16 ==> PaletteOf(EGA_PALETTE)[i] == EGA_RGB565[i]
    ensures forall i :: 16 <= i < PALETTE_SIZE ==> PaletteOf(EGA_PALETTE)[i] == 0
  {
    var pal := PaletteOf(EGA_PALETTE);
    forall i | 0 <= i < 16
      ensures pal[i] == EGA_RGB565[i]
    {
      assert (3 * i) / 3 == i && (3 * i + 1) / 3 == i && (3 * i + 2) / 3 == i;
      assert (3 * i) % 3 == 0 && (3 * i + 1) % 3 == 1 && (3 * i + 2) % 3 == 2;
      EgaTriplet(i);
    }
    forall i | 16 <= i < PALETTE_SIZE
      ensures pal[i] == 0
    {
      assert EGA_PALETTE[3 * i] == 0 && EGA_PALETTE[3 * i + 1] == 0 && EGA_PALETTE[3 * i + 2] == 0;
    }
  }

  /** fps_ticks after one QG_DrawFrame. */
  function FpsNext(ticks: int): int
  {
    if ticks + 1 > FPS_WINDOW then 0 else ticks + 1
  }

  /** fps_ticks after n frames from start-up. */
  function TicksAfter(n: nat): int
  {
    if n == 0 then 0 else FpsNext(TicksAfter(n - 1))
  }

  /** The counter runs 0..100 and wraps on every 101st frame, which is the
      frame on which the rate is reported. */
  lemma {:induction false} TicksAfterIsModular(n: nat)
    ensures TicksAfter(n) == n % (FPS_WINDOW + 1)
    ensures n > 0 ==> (TicksAfter(n - 1) + 1 > FPS_WINDOW <==> n % (FPS_WINDOW + 1) == 0)
  {
    if n > 0 {
      TicksAfterIsModular(n - 1);
    }
  }

  /** The value QG_DrawFrame reports: microseconds per frame over the last
      window, int64 division truncated. */
  function FrameTime(start: int, now: int, frames: int): int
    requires frames != 0
  {
    CDiv(now - start, frames)
  }

  /** Time per frame never exceeds the time the window took. */
  lemma FrameTimeBelowWindow(start: int, now: int)
    requires start <= now
    ensures 0 <= FrameTime(start, now, FPS_WINDOW + 1) <= now - start
  {
  }

  /** The draw task's conversion of an 8-bit frame through the palette. */
  function Converted(pal: seq<int>, pixels: seq<byte>): (rgb: seq<int>)
    requires |pal| == PALETTE_SIZE
    ensures |rgb| == |pixels|
  {
    seq(|pixels|, k requires 0 <= k < |pixels| => pal[pixels[k]])
  }

  /** A frame the draw task passed to the scaler, and the buffer (0 or 1)
      the scaler wrote and the panel then showed. */
  datatype Presentation = Presentation(frame: seq<int>, surface: int)

  /** Buffer i of a sequence of presentations since start-up (cur_buf starts at 1). */
  function SurfaceOf(i: nat): (s: int)
    ensures s == 0 || s == 1
  {
    1 - i % 2
  }

  /** Consecutive frames go to different buffers: the one being shown is
      never the one being written. */
  lemma SurfacesAlternate(i: nat)
    ensures SurfaceOf(i) != SurfaceOf(i + 1)
    ensures SurfaceOf(i) == SurfaceOf(i + 2)
  {
  }

  /** Row y of a rows-by-width grid ends inside the grid. */
  lemma RowInside(y: int, rows: int, width: int)
    requires 0 <= y < rows && width > 0
    ensures y * width + width == (y + 1) * width <= rows * width == width * rows
  {
  }

  // ------------------------------------------------------- end screen

  /** The palette index draw_char uses for bit `px` of glyph row `py`:
      a set bit takes the foreground, a clear one the background. */
  function GlyphColour(font: seq<byte>, ch: byte, fore: int, back: int, py: int, px: int): (col: int)
    requires |font| == FONT_BYTES && 0 <= py < CHAR_H && 0 <= px < CHAR_W
    ensures col == fore || col == back
    ensures col == fore <== TestBit(font[ch * CHAR_H + py], px)
    ensures col == back <== !TestBit(font[ch * CHAR_H + py], px)
  {
    if TestBit(font[ch * CHAR_H + py], px) then fore else back
  }

  /** draw_char's bounds test: a cell is drawn only when it starts inside
      the panel and ends at least one pixel before its right and bottom
      edges. */
  predicate CellFits(x: int, y: int, hRes: int, vRes: int)
  {
    0 <= x && 0 <= y && x + CHAR_W < hRes && y + CHAR_H < vRes
  }

  /** Pixel (r, c) lies in the 8x16 cell whose top-left corner is (x, y). */
  predicate InCell(x: int, y: int, r: int, c: int)
  {
    y <= r < y + CHAR_H && x <= c < x + CHAR_W
  }

  /** A drawn cell lies wholly inside the panel. */
  lemma FittingCellInside(x: int, y: int, hRes: int, vRes: int, r: int, c: int)
    requires CellFits(x, y, hRes, vRes) && InCell(x, y, r, c)
    ensures 0 <= r < vRes && 0 <= c < hRes
  {
  }

  /** Foreground and background of a text attribute byte: the low nibble,
      and bits 4..6 (bit 7, blink, is ignored). */
  function Fore(attr: byte): (f: int)
    ensures 0 <= f < 16
  {
    attr % 16
  }

  function Back(attr: byte): (b: int)
    ensures 0 <= b < 8
  {
    (attr / 16) % 8
  }

  /** The attribute decoding reads back the byte's low seven bits. */
  lemma AttributeRoundTrip(attr: byte)
    ensures Fore(attr) + 16 * Back(attr) == attr % 128
  {
  }

  /** Offsets that centre the 640x400 text area (C division). */
  function OffX(hRes: int): int { CDiv(hRes - TEXT_COLS * CHAR_W, 2) }
  function OffY(vRes: int): int { CDiv(vRes - TEXT_ROWS * CHAR_H, 2) }

  /** Top-left corner of text cell k (row-major, 80 cells a row). */
  function CellX(k: int, hRes: int): int { (k % TEXT_COLS) * CHAR_W + OffX(hRes) }
  function CellY(k: int, vRes: int): int { (k / TEXT_COLS) * CHAR_H + OffY(vRes) }

  /** The text cell that pixel (r, c) falls in, or -1 outside the 80x25 grid. */
  function CellOf(r: int, c: int, hRes: int, vRes: int): (k: int)
    ensures -1 <= k < TEXT_COLS * TEXT_ROWS
  {
    var gx := (c - OffX(hRes)) / CHAR_W;
    var gy := (r - OffY(vRes)) / CHAR_H;
    if 0 <= gx < TEXT_COLS && 0 <= gy < TEXT_ROWS then gy * TEXT_COLS + gx else -1
  }

  /** v / d is q exactly when v lies in the q-th slot of width d (d is a
      glyph's width or height). */
  lemma DivSlot(v: int, q: int, d: int)
    requires d == CHAR_W || d == CHAR_H
    ensures v / d == q <==> q * d <= v < q * d + d
  {
    if d == CHAR_W {
      assert v == (v / 8) * 8 + v % 8;
    } else {
      assert v == (v / 16) * 16 + v % 16;
    }
  }

  /** The cells tile the grid: a pixel belongs to cell k exactly when it
      lies in k's 8x16 rectangle. */
  lemma {:induction false} CellOfIsRectangle(k: int, r: int, c: int, hRes: int, vRes: int)
    requires 0 <= k < TEXT_COLS * TEXT_ROWS
    ensures CellOf(r, c, hRes, vRes) == k <==> InCell(CellX(k, hRes), CellY(k, vRes), r, c)
  {
    var gx, gy := k % TEXT_COLS, k / TEXT_COLS;
    DivSlot(c - OffX(hRes), gx, CHAR_W);
    DivSlot(r - OffY(vRes), gy, CHAR_H);
    var cx := (c - OffX(hRes)) / CHAR_W;
    var cy := (r - OffY(vRes)) / CHAR_H;
    if CellOf(r, c, hRes, vRes) == k {
      assert cy * TEXT_COLS + cx == gy * TEXT_COLS + gx;
      assert cx == gx && cy == gy;
    }
  }

  /** The end-screen pixel at (r, c) once the first n cells of `vgamem`
      have been drawn on the zeroed buffer with the EGA palette. */
  function EndScreenPixel(vgamem: Option<seq<byte>>, font: seq<byte>, hRes: int, vRes: int,
                          n: int, r: int, c: int): (p: int)
    requires |font| == FONT_BYTES
    requires vgamem.Some? ==> |vgamem.value| >= VGAMEM_BYTES
  {
    var k := CellOf(r, c, hRes, vRes);
    if vgamem.None? || k < 0 || n <= k || !CellFits(CellX(k, hRes), CellY(k, vRes), hRes, vRes) then 0
    else
      CellOfIsRectangle(k, r, c, hRes, vRes);
      var attr := vgamem.value[2 * k + 1];
      EGA_RGB565[GlyphColour(font, vgamem.value[2 * k], Fore(attr), Back(attr),
                             r - CellY(k, vRes), CellX(k, hRes) + 7 - c)]
  }

  /** Drawing cell k changes the end screen exactly inside k's rectangle,
      and only when the cell fits. */
  lemma EndScreenStep(vram: seq<byte>, font: seq<byte>, hRes: int, vRes: int, k: int, r: int, c: int)
    requires |font| == FONT_BYTES && |vram| >= VGAMEM_BYTES && 0 <= k < TEXT_COLS * TEXT_ROWS
    ensures var x, y := CellX(k, hRes), CellY(k, vRes);
            EndScreenPixel(Some(vram), font, hRes, vRes, k + 1, r, c) ==
              if CellFits(x, y, hRes, vRes) && InCell(x, y, r, c)
              then EGA_RGB565[GlyphColour(font, vram[2 * k], Fore(vram[2 * k + 1]), Back(vram[2 * k + 1]), r - y, x + 7 - c)]
              else EndScreenPixel(Some(vram), font, hRes, vRes, k, r, c)
  {
    CellOfIsRectangle(k, r, c, hRes, vRes);
  }

  /** The text area centred on the panel: every cell fits when the panel
      exceeds 640x400 by more than one pixel on each axis. */
  lemma {:induction false} CentredCellsFit(k: int, hRes: int, vRes: int)
    requires 0 <= k < TEXT_COLS * TEXT_ROWS
    requires hRes >= TEXT_COLS * CHAR_W + 2 && vRes >= TEXT_ROWS * CHAR_H + 2
    ensures CellFits(CellX(k, hRes), CellY(k, vRes), hRes, vRes)
  {
    var h := hRes - TEXT_COLS * CHAR_W;
    var v := vRes - TEXT_ROWS * CHAR_H;
    assert OffX(hRes) == h / 2 && OffY(vRes) == v / 2;
    assert k % TEXT_COLS <= TEXT_COLS - 1 && k / TEXT_COLS <= TEXT_ROWS - 1;
  }

  class Screen {
    /** BSP_LCD_H_RES, BSP_LCD_V_RES and QUAKEGENERIC_RES_X/Y. */
    const hRes: int
    const vRes: int
    const resX: int
    const resY: int
    const pal: array<int>
    const rgbfb: array<int>
    const lcdbuf0: array2<int>
    const lcdbuf1: array2<int>
    var curBuf: int
    var curPixels: seq<byte>
    /** The draw task's pending notification. */
    var notified: bool
    var fpsTicks: int
    var startTimeFpsMeas: int
    var presented: seq<Presentation>
    var endScreenDrawn: bool

    ghost predicate Valid()
      reads this, pal
    {
      && hRes > 0 && vRes > 0 && resX > 0 && resY > 0
      && pal.Length == PALETTE_SIZE && rgbfb.Length == resX * resY && pal != rgbfb
      && lcdbuf0.Length0 == vRes && lcdbuf0.Length1 == hRes
      && lcdbuf1.Length0 == vRes && lcdbuf1.Length1 == hRes
      && lcdbuf0 != lcdbuf1
      && (forall i :: 0 <= i < PALETTE_SIZE ==> 0 <= pal[i] < TWO16)
      && |curPixels| == resX * resY
      && 0 <= fpsTicks <= FPS_WINDOW
      && curBuf == SurfaceOf(|presented|)
      && (forall i :: 0 <= i < |presented| ==> presented[i].surface == SurfaceOf(i))
    }

    /** The buffer `lcdbuf[cur_buf]`. */
    function Surface(): (s: array2<int>)
      reads this
      ensures s == lcdbuf0 || s == lcdbuf1
    {
      if curBuf == 0 then lcdbuf0 else lcdbuf1
    }

    constructor (hRes: int, vRes: int, resX: int, resY: int)
      requires hRes > 0 && vRes > 0 && resX > 0 && resY > 0
      ensures Valid() && fresh(pal) && fresh(rgbfb) && fresh(lcdbuf0) && fresh(lcdbuf1)
      ensures this.hRes == hRes && this.vRes == vRes && this.resX == resX && this.resY == resY
      ensures curBuf == 1 && presented == [] && !notified && fpsTicks == 0 && !endScreenDrawn
    {
      this.hRes := hRes;
      this.vRes := vRes;
      this.resX := resX;
      this.resY := resY;
      pal := new int[PALETTE_SIZE](_ => 0);
      rgbfb := new int[resX * resY](_ => 0);
      lcdbuf0 := new int[vRes, hRes]((_, _) => 0);
      lcdbuf1 := new int[vRes, hRes]((_, _) => 0);
      curBuf := 1;
      curPixels := seq(resX * resY, _ => 0);
      notified := false;
      fpsTicks := 0;
      startTimeFpsMeas := 0;
      presented := [];
      endScreenDrawn := false;
    }

    /** QG_SetPalette(): convert every triplet to its RGB565 entry. */
    method SetPalette(palette: seq<byte>)
      requires Valid() && |palette| == PALETTE_BYTES
      modifies pal
      ensures Valid()
      ensures pal[..] == PaletteOf(palette)
    {
      var p := 0;
      var i := 0;
      while i < PALETTE_SIZE
        invariant 0 <= i <= PALETTE_SIZE && p == 3 * i
        invariant forall j :: 0 <= j < i ==> pal[j] == Rgb565(palette[3 * j], palette[3 * j + 1], palette[3 * j + 2])
        invariant forall j :: 0 <= j < PALETTE_SIZE ==> 0 <= pal[j] < TWO16
      {
        var b: int := palette[p] as int / 8;
        var g: int := palette[p + 1] as int / 4;
        var r: int := palette[p + 2] as int / 8;
        p := p + 3;
        FieldsOf565(b, g, r);
        pal[i] := r + g * 32 + b * 2048;
        i := i + 1;
      }
      assert pal[..] == PaletteOf(palette);
    }

    /** QG_DrawFrame(): publish the frame, notify the draw task, count it;
        on the 101st frame report the time per frame and restart the window. */
    method DrawFrame(pixels: seq<byte>, now: int) returns (fpstime: Option<int>)
      requires Valid() && |pixels| == resX * resY
      modifies this
      ensures Valid()
      ensures curPixels == pixels && notified
      ensures fpsTicks == FpsNext(old(fpsTicks))
      ensures old(fpsTicks) + 1 > FPS_WINDOW ==>
                startTimeFpsMeas == now &&
                fpstime == Some(FrameTime(old(startTimeFpsMeas), now, old(fpsTicks) + 1))
      ensures old(fpsTicks) + 1 <= FPS_WINDOW ==>
                startTimeFpsMeas == old(startTimeFpsMeas) && fpstime == None
      ensures curBuf == old(curBuf) && presented == old(presented) && endScreenDrawn == old(endScreenDrawn)
    {
      curPixels := pixels;
      notified := true;
      fpsTicks := fpsTicks + 1;
      fpstime := None;
      if fpsTicks > FPS_WINDOW {
        var newtime := now;
        fpstime := Some(CDiv(newtime - startTimeFpsMeas, fpsTicks));
        fpsTicks := 0;
        startTimeFpsMeas := newtime;
      }
    }

    /** The conversion loop of draw_task: every source pixel through pal[]. */
    method ConvertPixels()
      requires Valid()
      modifies rgbfb
      ensures Valid()
      ensures rgbfb[..] == Converted(pal[..], curPixels)
      ensures forall k :: 0 <= k < rgbfb.Length ==> 0 <= rgbfb[k] < TWO16
    {
      var k := 0;   // both *p++ and *lcdp++
      var y := 0;
      while y < resY
        invariant 0 <= y <= resY && k == y * resX <= rgbfb.Length
        invariant Valid()
        invariant forall j :: 0 <= j < k ==> rgbfb[j] == pal[curPixels[j]]
      {
        RowInside(y, resY, resX);
        var x := 0;
        while x < resX
          invariant 0 <= x <= resX && k == y * resX + x && y * resX + resX <= rgbfb.Length
          invariant Valid()
          invariant forall j :: 0 <= j < k ==> rgbfb[j] == pal[curPixels[j]]
        {
          rgbfb[k] := pal[curPixels[k]];
          k := k + 1;
          x := x + 1;
        }
        y := y + 1;
      }
      RowInside(resY - 1, resY, resX);
      assert rgbfb[..] == Converted(pal[..], curPixels);
    }

    /** One turn of draw_task's loop.  Without a pending notification the
        task would block: nothing happens and `ran` is false.  Otherwise the
        notification is taken, the latest published frame is converted,
        handed to the scaler for lcdbuf[cur_buf] and shown, and cur_buf flips. */
    method DrawStep() returns (ran: bool)
      requires Valid()
      modifies this, rgbfb
      ensures Valid()
      ensures ran == old(notified) && !notified
      ensures !ran ==> presented == old(presented) && curBuf == old(curBuf) && rgbfb[..] == old(rgbfb[..])
      ensures ran ==>
                rgbfb[..] == Converted(pal[..], curPixels) &&
                presented == old(presented) + [Presentation(Converted(pal[..], curPixels), old(curBuf))] &&
                curBuf != old(curBuf)
      ensures curPixels == old(curPixels) && fpsTicks == old(fpsTicks)
      ensures startTimeFpsMeas == old(startTimeFpsMeas) && endScreenDrawn == old(endScreenDrawn)
    {
      if !notified {
        return false;
      }
      notified := false;
      ConvertPixels();
      presented := presented + [Presentation(rgbfb[..], curBuf)];
      curBuf := if curBuf != 0 then 0 else 1;
      ran := true;
    }

    /** draw_char(): blit one 8x16 glyph into lcdbuf[cur_buf] with its
        top-left corner at (x, y); font bit px lands in column x+7-px.
        A cell that does not fit is not drawn at all. */
    method DrawChar(x: int, y: int, ch: byte, fore: int, back: int, font: seq<byte>)
      requires Valid() && |font| == FONT_BYTES
      requires 0 <= fore < PALETTE_SIZE && 0 <= back < PALETTE_SIZE
      modifies Surface()
      ensures !CellFits(x, y, hRes, vRes) ==>
                forall r, c :: 0 <= r < vRes && 0 <= c < hRes ==> Surface()[r, c] == old(Surface()[r, c])
      ensures CellFits(x, y, hRes, vRes) ==>
                forall r, c :: 0 <= r < vRes && 0 <= c < hRes ==>
                  Surface()[r, c] == if InCell(x, y, r, c)
                                     then pal[GlyphColour(font, ch, fore, back, r - y, x + 7 - c)]
                                     else old(Surface()[r, c])
    {
      if x < 0 || y < 0 {
        return;
      }
      if x + CHAR_W >= hRes {
        return;
      }
      if y + CHAR_H >= vRes {
        return;
      }
      var fb := Surface();
      var py := 0;
      while py < CHAR_H
        invariant 0 <= py <= CHAR_H
        invariant forall r, c :: 0 <= r < vRes && 0 <= c < hRes ==>
                    fb[r, c] == if y <= r < y + py && x <= c < x + CHAR_W
                                then pal[GlyphColour(font, ch, fore, back, r - y, x + 7 - c)]
                                else old(fb[r, c])
      {
        var px := 0;
        while px < CHAR_W
          invariant 0 <= px <= CHAR_W
          invariant forall r, c :: 0 <= r < vRes && 0 <= c < hRes ==>
                      fb[r, c] == if (y <= r < y + py && x <= c < x + CHAR_W) ||
                                     (r == y + py && x + 7 - px < c <= x + 7)
                                  then pal[GlyphColour(font, ch, fore, back, r - y, x + 7 - c)]
                                  else old(fb[r, c])
        {
          var col := if TestBit(font[ch * CHAR_H + py], px) then fore else back;
          fb[y + py, x + (7 - px)] := pal[col];
          px := px + 1;
        }
        py := py + 1;
      }
    }

    /** memset of lcdbuf[cur_buf]. */
    method ClearSurface()
      requires Valid()
      modifies Surface()
      ensures forall r, c :: 0 <= r < vRes && 0 <= c < hRes ==> Surface()[r, c] == 0
    {
      var fb := Surface();
      var r := 0;
      while r < vRes
        invariant 0 <= r <= vRes
        invariant forall i, j :: 0 <= i < r && 0 <= j < hRes ==> fb[i, j] == 0
      {
        var c := 0;
        while c < hRes
          invariant 0 <= c <= hRes
          invariant forall i, j :: 0 <= i < r && 0 <= j < hRes ==> fb[i, j] == 0
          invariant forall j :: 0 <= j < c ==> fb[r, j] == 0
        {
          fb[r, c] := 0;
          c := c + 1;
        }
        r := r + 1;
      }
    }

    /** One turn of draw_end_screen's cell loop: cell k drawn over the
        screen holding cells 0..k-1. */
    method DrawCell(vram: seq<byte>, font: seq<byte>, k: int, x: int, y: int)
      requires Valid() && |font| == FONT_BYTES && |vram| >= VGAMEM_BYTES
      requires 0 <= k < TEXT_COLS * TEXT_ROWS && x == CellX(k, hRes) && y == CellY(k, vRes)
      requires forall i :: 0 <= i < 16 ==> pal[i] == EGA_RGB565[i]
      requires forall r, c :: 0 <= r < vRes && 0 <= c < hRes ==>
                 Surface()[r, c] == EndScreenPixel(Some(vram), font, hRes, vRes, k, r, c)
      modifies Surface()
      ensures forall r, c :: 0 <= r < vRes && 0 <= c < hRes ==>
                Surface()[r, c] == EndScreenPixel(Some(vram), font, hRes, vRes, k + 1, r, c)
    {
      var fb := Surface();
      var ch, attr := vram[2 * k], vram[2 * k + 1];
      DrawChar(x, y, ch, Fore(attr), Back(attr), font);
      forall r, c | 0 <= r < vRes && 0 <= c < hRes
        ensures fb[r, c] == EndScreenPixel(Some(vram), font, hRes, vRes, k + 1, r, c)
      {
        EndScreenStep(vram, font, hRes, vRes, k, r, c);
        if CellFits(x, y, hRes, vRes) && InCell(x, y, r, c) {
          var col := GlyphColour(font, ch, Fore(attr), Back(attr), r - y, x + 7 - c);
          assert fb[r, c] == pal[col];
          assert pal[col] == EGA_RGB565[col];
        } else {
          assert fb[r, c] == old(fb[r, c]);
        }
      }
    }

    /** One row of draw_end_screen's cell loop: the 80 cells of text row y. */
    method DrawRow(vram: seq<byte>, font: seq<byte>, y: int)
      requires Valid() && |font| == FONT_BYTES && |vram| >= VGAMEM_BYTES && 0 <= y < TEXT_ROWS
      requires forall i :: 0 <= i < 16 ==> pal[i] == EGA_RGB565[i]
      requires forall r, c :: 0 <= r < vRes && 0 <= c < hRes ==>
                 Surface()[r, c] == EndScreenPixel(Some(vram), font, hRes, vRes, y * TEXT_COLS, r, c)
      modifies Surface()
      ensures forall r, c :: 0 <= r < vRes && 0 <= c < hRes ==>
                Surface()[r, c] == EndScreenPixel(Some(vram), font, hRes, vRes, (y + 1) * TEXT_COLS, r, c)
    {
      var fb := Surface();
      var offX := CDiv(hRes - TEXT_COLS * CHAR_W, 2);
      var offY := CDiv(vRes - TEXT_ROWS * CHAR_H, 2);
      var k := y * TEXT_COLS;   // the cell vgamem points at
      var x := 0;
      while x < TEXT_COLS
        invariant 0 <= x <= TEXT_COLS && k == y * TEXT_COLS + x
        invariant fb == Surface() && forall i :: 0 <= i < 16 ==> pal[i] == EGA_RGB565[i]
        invariant forall r, c :: 0 <= r < vRes && 0 <= c < hRes ==>
                    fb[r, c] == EndScreenPixel(Some(vram), font, hRes, vRes, k, r, c)
      {
        assert CellX(k, hRes) == x * CHAR_W + offX && CellY(k, vRes) == y * CHAR_H + offY;
        DrawCell(vram, font, k, x * CHAR_W + offX, y * CHAR_H + offY);
        k := k + 1;
        x := x + 1;
      }
    }

    /** draw_end_screen's 25 rows of cells over the cleared buffer. */
    method DrawCells(vram: seq<byte>, font: seq<byte>)
      requires Valid() && |font| == FONT_BYTES && |vram| >= VGAMEM_BYTES
      requires forall i :: 0 <= i < 16 ==> pal[i] == EGA_RGB565[i]
      requires forall r, c :: 0 <= r < vRes && 0 <= c < hRes ==> Surface()[r, c] == 0
      modifies Surface()
      ensures forall r, c :: 0 <= r < vRes && 0 <= c < hRes ==>
                Surface()[r, c] == EndScreenPixel(Some(vram), font, hRes, vRes, TEXT_COLS * TEXT_ROWS, r, c)
    {
      var fb := Surface();
      var y := 0;
      while y < TEXT_ROWS
        invariant 0 <= y <= TEXT_ROWS
        invariant fb == Surface() && forall i :: 0 <= i < 16 ==> pal[i] == EGA_RGB565[i]
        invariant forall r, c :: 0 <= r < vRes && 0 <= c < hRes ==>
                    fb[r, c] == EndScreenPixel(Some(vram), font, hRes, vRes, y * TEXT_COLS, r, c)
      {
        DrawRow(vram, font, y);
        y := y + 1;
      }
    }

    /** draw_end_screen(): clear the current buffer, install the EGA
        palette, draw the 80x25 text cells of `vgamem` (character then
        attribute byte) centred on the panel when there is one, and show
        the buffer. */
    method DrawEndScreen(vgamem: Option<seq<byte>>, font: seq<byte>)
      requires Valid() && |font| == FONT_BYTES
      requires vgamem.Some? ==> |vgamem.value| >= VGAMEM_BYTES
      modifies Surface(), pal, this`endScreenDrawn
      ensures Valid() && endScreenDrawn
      ensures pal[..] == PaletteOf(EGA_PALETTE)
      ensures forall r, c :: 0 <= r < vRes && 0 <= c < hRes ==>
                Surface()[r, c] == EndScreenPixel(vgamem, font, hRes, vRes, TEXT_COLS * TEXT_ROWS, r, c)
    {
      var fb := Surface();
      ClearSurface();
      assert fb == Surface();
      SetPalette(EGA_PALETTE);
      EgaPaletteValues();
      assert forall i :: 0 <= i < 16 ==> pal[i] == EGA_RGB565[i];
      if vgamem.Some? {
        var vram := vgamem.value;
        assert vgamem == Some(vram);
        DrawCells(vram, font);
      }
      endScreenDrawn := true;
      assert fb == Surface();
    }
  }

  /** Frames published faster than the draw task runs coalesce: of three
      frames published before the draw task's turn, only the last is shown. */
  method FramesCoalesce(s: Screen, f1: seq<byte>, f2: seq<byte>, f3: seq<byte>, t1: int, t2: int, t3: int)
    requires s.Valid() && |f1| == |f2| == |f3| == s.resX * s.resY
    modifies s, s.rgbfb
    ensures s.Valid()
    ensures s.presented == old(s.presented) + [Presentation(Converted(s.pal[..], f3), old(s.curBuf))]
  {
    var _ := s.DrawFrame(f1, t1);
    var _ := s.DrawFrame(f2, t2);
    var _ := s.DrawFrame(f3, t3);
    var _ := s.DrawStep();
  }
}
