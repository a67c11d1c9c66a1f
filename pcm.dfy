/**
 * In-memory PCM audio: the audio format descriptor, the `MemorySource`
 * buffer over decoded bytes, and its sample-aligned `seek`.
 *
 * The same `MemorySource` class appears twice in the repository
 * (mixaqubes.py and clips.py); it is modelled once here.
 */
module Pcm {
  import opened Arith

  /** One byte of decoded audio data. */
  type Byte = b: int | 0 <= b < 256

  /** 2^32: the masks used by `seek` are 32-bit constants. */
  const Word: nat := 0x1_0000_0000

  /**
   * The audio format of a decoded stream. Its derived quantities follow
   * the audio format of the media library the program uses:
   * bytes per sample (one frame across all channels) is
   * `(sample_size >> 3) * channels`, and bytes per second is that times the
   * sample rate.
   */
  datatype AudioFormat = AudioFormat(channels: nat, sampleSize: nat, sampleRate: nat)
  {
    function BytesPerSample(): nat { (sampleSize / 8) * channels }
    function BytesPerSecond(): nat { BytesPerSample() * sampleRate }
  }

  /**
   * A format a source can be built over: the source divides by its bytes
   * per second, so that rate must be positive.
   */
  type UsableFormat = f: AudioFormat | f.BytesPerSecond() > 0 witness AudioFormat(1, 8, 1)

  function Pow2(k: nat): (r: nat)
    ensures r >= 1
  {
    if k == 0 then 1 else 2 * Pow2(k - 1)
  }

  /** Bitwise AND of two non-negative integers, bit by bit from the lowest. */
  function BitAnd(a: nat, b: nat): (r: nat)
    ensures r <= a && r <= b
    decreases a
  {
    if a == 0 || b == 0 then 0
    else 2 * BitAnd(a / 2, b / 2) + (if a % 2 == 1 && b % 2 == 1 then 1 else 0)
  }

  /**
   * The integer `x & m` for a non-negative mask `m < 2^32`. Integers are
   * two's complement of unbounded width, so the AND with such a mask only
   * sees the low 32 bits of `x`, which are `x % 2^32` (Euclidean, also for
   * negative `x`).
   */
  function Mask32(x: int, m: nat): (r: nat)
    requires m < Word
    ensures r <= x % Word && r <= m
  {
    BitAnd(x % Word, m)
  }

  /**
   * The offset `seek` hands to the byte stream: the raw offset with its
   * low bit cleared for 2-byte samples, its two low bits cleared for
   * 4-byte samples, and unchanged for any other sample size.
   */
  function AlignOffset(offset: int, bytesPerSample: nat): (r: int)
    ensures bytesPerSample == 2 || bytesPerSample == 4 ==> 0 <= r <= offset % Word
    ensures bytesPerSample != 2 && bytesPerSample != 4 ==> r == offset
  {
    if bytesPerSample == 2 then Mask32(offset, 0xffff_fffe)
    else if bytesPerSample == 4 then Mask32(offset, 0xffff_fffc)
    else offset
  }

  /** A byte buffer with a read cursor; the cursor is the only mutable state. */
  class MemorySource {
    const data: seq<Byte>
    const format: UsableFormat
    /** The position of the underlying in-memory byte stream. */
    var position: int

    /**
     * Wraps `data`. The source divides by the bytes per second to compute
     * the duration, so a format with zero bytes per second cannot be used.
     */
    constructor (data: seq<Byte>, format: AudioFormat)
      requires format.BytesPerSecond() > 0
      ensures this.data == data && this.format == format && position == 0
    {
      this.data := data;
      this.format := format;
      position := 0;
    }

    /**
     * Seeks to the byte offset `rawOffset`, the integer part of
     * `timestamp * bytes_per_second`. The offset is masked to a sample
     * boundary; a negative result is refused by the byte stream (`ok` is
     * false and the position is kept). Seeking past the end is allowed.
     */
    method Seek(rawOffset: int) returns (ok: bool)
      modifies this`position
      ensures ok <==> AlignOffset(rawOffset, format.BytesPerSample()) >= 0
      ensures position == if ok then AlignOffset(rawOffset, format.BytesPerSample()) else old(position)
    {
      var offset := rawOffset;
      if format.BytesPerSample() == 2 {
        offset := Mask32(offset, 0xffff_fffe);
      } else if format.BytesPerSample() == 4 {
        offset := Mask32(offset, 0xffff_fffc);
      }
      if offset < 0 {
        ok := false;
      } else {
        position := offset;
        ok := true;
      }
    }
  }

  lemma Pow2Of31()
    ensures Pow2(31) == 0x8000_0000
  {
    assert Pow2(10) == 0x400;
    assert Pow2(20) == 0x10_0000;
  }

  /** AND with a mask of `k` one-bits keeps any number below 2^k intact. */
  lemma {:induction false} BitAndLowOnes(a: nat, k: nat)
    requires a < Pow2(k)
    ensures BitAnd(a, Pow2(k) - 1) == a
    decreases k
  {
    if a != 0 {
      var p := Pow2(k - 1);
      assert (Pow2(k) - 1) / 2 == p - 1 && (Pow2(k) - 1) % 2 == 1;
      BitAndLowOnes(a / 2, k - 1);
    }
  }

  /** AND with an even mask shifts: `a & 2m == 2 * ((a >> 1) & m)`. */
  lemma BitAndEvenMask(a: nat, m: nat)
    ensures BitAnd(a, 2 * m) == 2 * BitAnd(a / 2, m)
  {
    if a != 0 && m != 0 {
      assert (2 * m) / 2 == m && (2 * m) % 2 == 0;
    }
  }

  lemma ModShift(k: int, r: int)
    ensures (4 * k + r) % 4 == r % 4 && (4 * k + r) % 2 == r % 2
  {
    ModOfSum(4 * k + r, 4, k + r / 4, r % 4);
    ModOfSum(4 * k + r, 2, 2 * k + r / 2, r % 2);
  }

  /** The remainder of `d * q + s` for `0 <= s < d`, with a small literal `d`. */
  lemma ModOfSum(m: int, d: int, q: int, s: int)
    requires d == 2 || d == 4
    requires m == d * q + s && 0 <= s < d
    ensures m % d == s
  {
    var t, r := m / d, m % d;
    assert m == d * t + r && 0 <= r < d;
    if d == 2 {
      assert 2 * (q - t) == r - s;
    } else {
      assert 4 * (q - t) == r - s;
    }
  }

  /** Reducing modulo 2^32 keeps the remainder modulo 2 and modulo 4. */
  lemma WordKeepsLowBits(x: int)
    ensures (x % Word) % 2 == x % 2 && (x % Word) % 4 == x % 4
  {
    var q := x / Word;
    var y := x % Word;
    assert x == 4 * (0x4000_0000 * q) + y;
    ModShift(0x4000_0000 * q, y);
  }

  /** For 2-byte samples the mask clears bit 0 of the low 32 bits and every bit above. */
  lemma Mask2Arith(x: int)
    ensures Mask32(x, 0xffff_fffe) == x % Word - x % 2
  {
    var y := x % Word;
    BitAndEvenMask(y, 0x7fff_ffff);
    Pow2Of31();
    BitAndLowOnes(y / 2, 31);
    WordKeepsLowBits(x);
  }

  /** For 4-byte samples the mask clears bits 0 and 1 of the low 32 bits and every bit above. */
  lemma Mask4Arith(x: int)
    ensures Mask32(x, 0xffff_fffc) == x % Word - x % 4
  {
    var y := x % Word;
    BitAndEvenMask(y, 0x7fff_fffe);
    BitAndEvenMask(y / 2, 0x3fff_ffff);
    Pow2Of31();
    assert Pow2(31) == 2 * Pow2(30);
    BitAndLowOnes(y / 2 / 2, 30);
    assert y / 2 / 2 == y / 4;
    WordKeepsLowBits(x);
  }

  /**
   * After alignment the offset is even for 2-byte samples and a multiple
   * of 4 for 4-byte samples, and it is never negative for either; any
   * other sample size leaves the offset unchanged.
   */
  lemma AlignedToSample(offset: int, bytesPerSample: nat)
    ensures var r := AlignOffset(offset, bytesPerSample);
            && (bytesPerSample == 2 ==> r >= 0 && r % 2 == 0)
            && (bytesPerSample == 4 ==> r >= 0 && r % 4 == 0)
            && (bytesPerSample != 2 && bytesPerSample != 4 ==> r == offset)
  {
    var y := offset % Word;
    if bytesPerSample == 2 {
      Mask2Arith(offset);
      WordKeepsLowBits(offset);
      RoundDownMultiple(y, 2);
    } else if bytesPerSample == 4 {
      Mask4Arith(offset);
      WordKeepsLowBits(offset);
      RoundDownMultiple(y, 4);
    }
  }

  /** Subtracting the remainder modulo 2 or 4 leaves a non-negative multiple. */
  lemma RoundDownMultiple(y: nat, d: int)
    requires d == 2 || d == 4
    ensures y - y % d >= 0 && (y - y % d) % d == 0
  {
    var q := y / d;
    assert y - y % d == d * q;
    ModOfSum(y - y % d, d, q, 0);
  }

  /**
   * Below 2^32 alignment only rounds down, by less than one sample:
   * the result is the offset minus its remainder modulo the sample size.
   */
  lemma AlignRoundsDown(offset: int, bytesPerSample: nat)
    requires 0 <= offset < Word
    requires bytesPerSample == 2 || bytesPerSample == 4
    ensures var r := AlignOffset(offset, bytesPerSample);
            && r == offset - offset % bytesPerSample
            && r <= offset < r + bytesPerSample
  {
    ModUnique(offset, Word, 0, offset);
    if bytesPerSample == 2 {
      Mask2Arith(offset);
    } else {
      Mask4Arith(offset);
    }
  }

  /**
   * From 2^32 on the 32-bit mask also drops the high bits: the aligned
   * offset is that of `offset % 2^32`, so it never exceeds the raw offset
   * but can land far below it.
   */
  lemma AlignTruncatesHighBits(offset: int, bytesPerSample: nat)
    requires offset >= 0
    requires bytesPerSample == 2 || bytesPerSample == 4
    ensures AlignOffset(offset, bytesPerSample) == AlignOffset(offset % Word, bytesPerSample)
    ensures 0 <= AlignOffset(offset, bytesPerSample) <= offset
  {
    var y := offset % Word;
    assert y % Word == y;
    if bytesPerSample == 2 {
      Mask2Arith(offset);
      Mask2Arith(y);
      WordKeepsLowBits(y);
    } else {
      Mask4Arith(offset);
      Mask4Arith(y);
      WordKeepsLowBits(y);
    }
    assert y <= offset;
  }

  /** A seek only fails for a negative offset with a sample size other than 2 or 4. */
  lemma SeekFailsOnlyOnNegative(offset: int, bytesPerSample: nat)
    ensures AlignOffset(offset, bytesPerSample) < 0
            <==> offset < 0 && bytesPerSample != 2 && bytesPerSample != 4
  {
    AlignedToSample(offset, bytesPerSample);
  }
}
