/** The audio mixer of main/audio.c: a 16 KiB byte ring read in 2 KiB
    chunks, each mixed with a chunk of CD-music samples, and the
    SNDDMA_* entry points that report the read position. */
module Audio {
  import opened CTypes
  import opened Wrappers

  /** 16 KiB; the source asks for a power of two above 64. */
  const BUFFER_SIZE: int := 16384
  /** BUFFER_SIZE / 8 bytes per cycle. */
  const CHUNKSZ: int := 2048
  /** CHUNKSZ / 2 int16 samples per cycle. */
  const CHUNK_SAMPLES: int := 1024
  const CD_WEIGHT: int := 24
  const DIG_WEIGHT: int := 8
  const MIX_DIVISOR: int := 32
  /** cdvol is bgmvolume (0..1) scaled by 255 and truncated. */
  const MAX_CDVOL: int := 255

  /** The engine's `dma_t` descriptor that `shm` points to. */
  datatype DmaInfo = DmaInfo(splitBuffer: int, speed: int, sampleBits: int, channels: int,
                             soundAlive: bool, samples: int, samplePos: int, submissionChunk: int)

  /** The int16 whose little-endian bytes are `lo`, `hi`. */
  function Int16Of(lo: byte, hi: byte): (v: int)
    ensures IsInt16(v)
    ensures v >= 0 <==> hi < 0x80
  {
    var u: int := lo as int + (hi as int) * 256;
    if u >= 0x8000 then u - TWO16 else u
  }

  /** The int16 stored little-endian at byte offset `off`. */
  function SampleAt(buf: seq<byte>, off: int): (v: int)
    requires 0 <= off && off + 1 < |buf|
    ensures IsInt16(v)
  {
    Int16Of(buf[off], buf[off + 1])
  }

  /** The two little-endian bytes of an int16. */
  function Int16Bytes(v: int): (bs: seq<byte>)
    requires IsInt16(v)
    ensures |bs| == 2
  {
    var u := if v < 0 then v + TWO16 else v;
    [u % 256, u / 256]
  }

  lemma {:induction false} SampleAtDecodesInt16Bytes(v: int)
    requires IsInt16(v)
    ensures SampleAt(Int16Bytes(v), 0) == v
  {
    var u := if v < 0 then v + TWO16 else v;
    assert u % 256 + 256 * (u / 256) == u;
  }

  /** One output sample: the CD sample scaled by cdvol/256, then a 24:8
      weighting of CD and game audio divided by 32, with C truncation. */
  function MixSample(cd: int, dig: int, cdvol: int): (r: int)
    requires IsInt16(cd) && IsInt16(dig) && 0 <= cdvol <= MAX_CDVOL
    ensures IsInt16(r)
  {
    ScaledBounds(cd, cdvol);
    var a := CDiv(cd * cdvol, 256);
    var mixed := a * CD_WEIGHT + dig * DIG_WEIGHT;
    CDivBounds(mixed, MIX_DIVISOR, -32768, 32767);
    CDiv(mixed, MIX_DIVISOR)
  }

  lemma ScaledBounds(cd: int, cdvol: int)
    requires IsInt16(cd) && 0 <= cdvol <= MAX_CDVOL
    ensures -32768 * 256 <= cd * cdvol <= 32767 * 256
    ensures IsInt16(CDiv(cd * cdvol, 256))
  {
    if cd >= 0 {
      MulMono(cd, 32767, cdvol);
    } else {
      MulMono(-32768, cd, cdvol);
    }
    CDivBounds(cd * cdvol, 256, -32768, 32767);
  }

  lemma MulMono(a: int, b: int, c: int)
    requires a <= b && 0 <= c
    ensures a * c <= b * c
  {
    var d: nat := b - a;
    assert b * c - a * c == d * c;
  }

  /** With the CD volume at zero only the game audio is heard, at a quarter
      of its amplitude (truncated toward zero). */
  lemma {:induction false} MutedCdLeavesQuarterGameAudio(cd: int, dig: int)
    requires IsInt16(cd) && IsInt16(dig)
    ensures MixSample(cd, dig, 0) == CDiv(dig, 4)
  {
    assert CDiv(cd * 0, 256) == 0;
    if dig < 0 {
      assert Abs(dig * DIG_WEIGHT) / 32 == Abs(dig) / 4;
    } else {
      assert Abs(dig * DIG_WEIGHT) / 32 == Abs(dig) / 4;
    }
  }

  /** Scaling by cdvol/256 never makes the CD sample louder. */
  lemma ScaledNoLouder(cd: int, cdvol: int)
    requires 0 <= cdvol <= MAX_CDVOL
    ensures Abs(CDiv(cd * cdvol, 256)) <= Abs(cd)
  {
    if cd < 0 {
      assert cd * cdvol == -(Abs(cd) * cdvol);
    }
    MulMono(cdvol, 256, Abs(cd));
    DivLe(Abs(cd * cdvol), Abs(cd), 256);
  }

  /** The mix never clips: an output sample is no louder than the louder
      of its two inputs, whatever the CD volume. */
  lemma {:induction false} MixNoLouderThanInputs(cd: int, dig: int, cdvol: int)
    requires IsInt16(cd) && IsInt16(dig) && 0 <= cdvol <= MAX_CDVOL
    ensures Abs(MixSample(cd, dig, cdvol)) <= if Abs(cd) < Abs(dig) then Abs(dig) else Abs(cd)
  {
    var m := if Abs(cd) < Abs(dig) then Abs(dig) else Abs(cd);
    var a := CDiv(cd * cdvol, 256);
    ScaledNoLouder(cd, cdvol);
    MulMono(Abs(a), m, CD_WEIGHT);
    MulMono(Abs(dig), m, DIG_WEIGHT);
    var mixed := a * CD_WEIGHT + dig * DIG_WEIGHT;
    assert Abs(mixed) <= m * MIX_DIVISOR;
    DivLe(Abs(mixed), m, MIX_DIVISOR);
  }

  /** The read cursor after one cycle. */
  function NextRpos(p: int): (q: int)
    ensures 0 <= q < BUFFER_SIZE
    ensures 0 <= p < BUFFER_SIZE && p % CHUNKSZ == 0 ==> q % CHUNKSZ == 0
  {
    if 0 <= p < BUFFER_SIZE && p % CHUNKSZ == 0 then
      ChunkAlignedStep(p);
      (p + CHUNKSZ) % BUFFER_SIZE
    else
      (p + CHUNKSZ) % BUFFER_SIZE
  }

  lemma ChunkAlignedStep(p: int)
    requires 0 <= p < BUFFER_SIZE && p % CHUNKSZ == 0
    ensures ((p + CHUNKSZ) % BUFFER_SIZE) % CHUNKSZ == 0
  {
    var k := p / CHUNKSZ;
    assert p == k * CHUNKSZ;
    if k < 7 {
      assert (p + CHUNKSZ) % BUFFER_SIZE == (k + 1) * CHUNKSZ;
    } else {
      assert (p + CHUNKSZ) % BUFFER_SIZE == 0;
    }
  }

  lemma ModAddMultiple(x: int, q: int)
    ensures (x + BUFFER_SIZE * q) % BUFFER_SIZE == x % BUFFER_SIZE
  {
  }

  /** The read cursor after n cycles. */
  function RposAfter(p: int, n: nat): int
  {
    if n == 0 then p else NextRpos(RposAfter(p, n - 1))
  }

  lemma {:induction false} RposAfterIsModular(p: int, n: nat)
    requires 0 <= p < BUFFER_SIZE
    ensures RposAfter(p, n) == (p + n * CHUNKSZ) % BUFFER_SIZE
  {
    if n > 0 {
      RposAfterIsModular(p, n - 1);
      var m := p + (n - 1) * CHUNKSZ;
      var q, r := m / BUFFER_SIZE, m % BUFFER_SIZE;
      assert m + CHUNKSZ == (r + CHUNKSZ) + BUFFER_SIZE * q;
      ModAddMultiple(r + CHUNKSZ, q);
      assert p + n * CHUNKSZ == m + CHUNKSZ;
    }
  }

  /** BUFFER_SIZE / CHUNKSZ == 8 cycles bring the cursor back to where it was. */
  lemma CursorReturnsAfterEightCycles(p: int)
    requires 0 <= p < BUFFER_SIZE
    ensures RposAfter(p, 8) == p
  {
    RposAfterIsModular(p, 8);
    assert p + 8 * CHUNKSZ == p + BUFFER_SIZE * 1;
    ModAddMultiple(p, 1);
  }

  /** A chunk read at a cursor position of the ring stays inside the ring. */
  lemma ChunkInsideRing(p: int)
    requires 0 <= p < BUFFER_SIZE && p % CHUNKSZ == 0
    ensures p + CHUNKSZ <= BUFFER_SIZE
  {
  }

  class AudioOut {
    const dmaBuffer: array<byte>
    var dmaRpos: int
    var sndInited: bool
    var shm: Option<DmaInfo>
    const mixBuf: array<int>
    /** The chunks handed to the I2S sink, in order. */
    var sink: seq<seq<int>>

    ghost predicate Valid()
      reads this
    {
      && dmaBuffer.Length == BUFFER_SIZE
      && mixBuf.Length == CHUNK_SAMPLES
      && 0 <= dmaRpos < BUFFER_SIZE
      && dmaRpos % CHUNKSZ == 0
      && (sndInited ==> shm.Some? && shm.value.sampleBits == 16)
    }

    /** The statics at program start: zeroed ring and cursor, sound not
        initialised; mix_buf is the zeroed chunk audio_task allocates. */
    constructor ()
      ensures Valid() && fresh(dmaBuffer) && fresh(mixBuf)
      ensures dmaRpos == 0 && !sndInited && shm == None && sink == []
    {
      dmaBuffer := new byte[BUFFER_SIZE](_ => 0);
      mixBuf := new int[CHUNK_SAMPLES](_ => 0);
      dmaRpos := 0;
      sndInited := false;
      shm := None;
      sink := [];
    }

    /** One pass of audio_task's loop: `cd` is what CDAudio_get_samps puts
        into mix_buf and `cdvol` is the integer CD volume.  Every sample is
        mixed with the game audio at the cursor, the cursor advances by one
        chunk, and the chunk goes to the sink. */
    method MixCycle(cd: seq<int>, cdvol: int) returns (out: seq<int>)
      requires Valid()
      requires |cd| == CHUNK_SAMPLES
      requires forall i :: 0 <= i < |cd| ==> IsInt16(cd[i])
      requires 0 <= cdvol <= MAX_CDVOL
      modifies this, mixBuf
      ensures Valid()
      ensures |out| == CHUNK_SAMPLES && out == mixBuf[..]
      ensures forall i :: 0 <= i < CHUNK_SAMPLES ==>
                out[i] == MixSample(cd[i], SampleAt(dmaBuffer[..], old(dmaRpos) + 2 * i), cdvol)
      ensures forall i :: 0 <= i < CHUNK_SAMPLES ==> IsInt16(out[i])
      ensures dmaRpos == NextRpos(old(dmaRpos))
      ensures sink == old(sink) + [out]
      ensures sndInited == old(sndInited) && shm == old(shm)
    {
      ChunkInsideRing(dmaRpos);
      ghost var ring := dmaBuffer[..];
      var base := dmaRpos;
      var i := 0;
      while i < CHUNK_SAMPLES
        invariant 0 <= i <= CHUNK_SAMPLES
        modifies mixBuf
        invariant forall j :: 0 <= j < i ==>
                    mixBuf[j] == MixSample(cd[j], SampleAt(ring, base + 2 * j), cdvol)
      {
        ScaledBounds(cd[i], cdvol);
        var a := CDiv(cd[i] * cdvol, 256);
        var b := Int16Of(dmaBuffer[base + 2 * i], dmaBuffer[base + 2 * i + 1]);
        var mixed := a * CD_WEIGHT + b * DIG_WEIGHT;
        mixBuf[i] := CDiv(mixed, MIX_DIVISOR);
        i := i + 1;
      }
      ChunkAlignedStep(dmaRpos);
      dmaRpos := (dmaRpos + CHUNKSZ) % BUFFER_SIZE;
      out := mixBuf[..];
      sink := sink + [out];
    }

    /** SNDDMA_Init(): fill in the descriptor and mark sound initialised. */
    method Init() returns (ok: bool)
      requires Valid()
      modifies this
      ensures Valid() && ok && sndInited
      ensures shm == Some(DmaInfo(0, 44100, 16, 2, true, BUFFER_SIZE / 2, 0, 1))
      ensures shm.value.samples == 8192
      ensures dmaRpos == old(dmaRpos) && sink == old(sink)
    {
      shm := Some(DmaInfo(0, 44100, 16, 2, true, 0, 0, 1));
      shm := Some(shm.value.(samples := BUFFER_SIZE / (shm.value.sampleBits / 8)));
      sndInited := true;
      ok := true;
    }

    /** SNDDMA_GetDMAPos(): the cursor in 16-bit samples, also stored in
        the descriptor; 0 before initialisation. */
    method GetDMAPos() returns (pos: int)
      requires Valid()
      modifies this
      ensures Valid()
      ensures !old(sndInited) ==> pos == 0 && shm == old(shm)
      ensures old(sndInited) ==> pos == dmaRpos / 2 && shm == Some(old(shm).value.(samplePos := pos))
      ensures 0 <= pos < BUFFER_SIZE / 2
      ensures dmaRpos == old(dmaRpos) && sndInited == old(sndInited) && sink == old(sink)
    {
      if !sndInited {
        return 0;
      }
      shm := Some(shm.value.(samplePos := dmaRpos / (shm.value.sampleBits / 8)));
      pos := shm.value.samplePos;
    }

    /** SNDDMA_Shutdown(): clear the initialised flag; a second call changes nothing. */
    method Shutdown()
      requires Valid()
      modifies this
      ensures Valid() && !sndInited
      ensures !old(sndInited) ==> unchanged(this)
      ensures shm == old(shm) && dmaRpos == old(dmaRpos) && sink == old(sink)
    {
      if sndInited {
        sndInited := false;
      }
    }
  }
}
