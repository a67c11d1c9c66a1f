/**
 * Sample-level views of a bar: its bytes read as little-endian signed 16-bit
 * samples, and those samples split into two channels (even indices to
 * channel 0, odd indices to channel 1) and merged back.
 */
module Channels {
  import opened Pcm

  type Int16 = x: int | -0x8000 <= x < 0x8000

  /**
   * Two channels of equal length, the shape of the 2 x N sample tensor:
   * the rows of a rectangular array always have the same length.
   */
  datatype Stereo = Stereo(left: seq<int>, right: seq<int>)
  type Tensor = s: Stereo | |s.left| == |s.right| witness Stereo([], [])

  /** The signed value of an unsigned 16-bit pattern. */
  function Signed(u: nat): (x: Int16)
    requires u < 0x1_0000
    ensures x % 0x1_0000 == u
  {
    if u >= 0x8000 then u - 0x1_0000 else u
  }

  /** The samples of a byte buffer: byte `2i` is the low half of sample `i`. */
  function DecodeInt16(bytes: seq<Byte>): (samples: seq<Int16>)
    requires |bytes| % 2 == 0
    ensures |samples| == |bytes| / 2
  {
    seq(|bytes| / 2, i requires 0 <= i < |bytes| / 2 => Signed(bytes[2 * i] as int + 256 * bytes[2 * i + 1] as int))
  }

  /**
   * The bytes of a sample stream cast to 16 bits: each value keeps its low
   * 16 bits (two's complement) and is written low byte first.
   */
  function EncodeInt16(samples: seq<int>): (bytes: seq<Byte>)
    ensures |bytes| == 2 * |samples|
  {
    seq(2 * |samples|, j requires 0 <= j < 2 * |samples| =>
      var u := samples[j / 2] % 0x1_0000;
      if j % 2 == 0 then u % 256 else u / 256)
  }

  /** `raw[::2]`: the samples at even indices. */
  function Evens(s: seq<int>): (r: seq<int>)
    ensures |r| == (|s| + 1) / 2
  {
    seq((|s| + 1) / 2, i requires 0 <= i < (|s| + 1) / 2 => s[2 * i])
  }

  /** `raw[1::2]`: the samples at odd indices. */
  function Odds(s: seq<int>): (r: seq<int>)
    ensures |r| == |s| / 2
  {
    seq(|s| / 2, i requires 0 <= i < |s| / 2 => s[2 * i + 1])
  }

  /** Stacks the even and the odd samples as two channels; they only stack when equally long. */
  function Deinterleave(s: seq<int>): (t: Tensor)
    requires |s| % 2 == 0
    ensures |t.left| == |t.right| == |s| / 2
  {
    Stereo(Evens(s), Odds(s))
  }

  /** The stream whose even slots hold channel 0 and whose odd slots hold channel 1. */
  function Interleave(t: Tensor): (s: seq<int>)
    ensures |s| == |t.left| + |t.right|
  {
    seq(2 * |t.left|, j requires 0 <= j < 2 * |t.left| => if j % 2 == 0 then t.left[j / 2] else t.right[j / 2])
  }

  /**
   * The slice assignments `stream[0::2] = left` and `stream[1::2] = right`
   * into a fresh array of `|left| + |right|` slots.
   */
  method FillStream(t: Tensor) returns (stream: seq<int>)
    ensures stream == Interleave(t)
  {
    var a := new int[|t.left| + |t.right|];
    for i := 0 to |t.left|
      invariant forall k :: 0 <= k < i ==> a[2 * k] == t.left[k]
    {
      a[2 * i] := t.left[i];
    }
    for i := 0 to |t.right|
      invariant forall k :: 0 <= k < |t.left| ==> a[2 * k] == t.left[k]
      invariant forall k :: 0 <= k < i ==> a[2 * k + 1] == t.right[k]
    {
      a[2 * i + 1] := t.right[i];
    }
    stream := a[..];
    forall j | 0 <= j < |stream|
      ensures stream[j] == Interleave(t)[j]
    {
      if j % 2 == 0 {
        assert stream[j] == a[2 * (j / 2)];
      } else {
        assert stream[j] == a[2 * (j / 2) + 1];
      }
    }
  }

  /** Splitting a stream of an even number of samples and merging it back restores it. */
  lemma InterleaveDeinterleave(s: seq<int>)
    requires |s| % 2 == 0
    ensures Interleave(Deinterleave(s)) == s
  {
    var r := Interleave(Deinterleave(s));
    forall j | 0 <= j < |s|
      ensures r[j] == s[j]
    {
      if j % 2 == 0 {
        assert 2 * (j / 2) == j;
      } else {
        assert 2 * (j / 2) + 1 == j;
      }
    }
  }

  /** Merging two channels and splitting the result gives the channels back. */
  lemma DeinterleaveInterleave(t: Tensor)
    ensures |Interleave(t)| % 2 == 0 && Deinterleave(Interleave(t)) == t
  {
    var s := Interleave(t);
    assert Evens(s) == t.left by {
      forall i | 0 <= i < |t.left|
        ensures Evens(s)[i] == t.left[i]
      {
        assert (2 * i) % 2 == 0 && (2 * i) / 2 == i;
      }
    }
    assert Odds(s) == t.right by {
      forall i | 0 <= i < |t.right|
        ensures Odds(s)[i] == t.right[i]
      {
        assert (2 * i + 1) % 2 == 1 && (2 * i + 1) / 2 == i;
      }
    }
  }

  /** Reading bytes as samples and writing the samples back restores the bytes. */
  lemma EncodeDecode(bytes: seq<Byte>)
    requires |bytes| % 2 == 0
    ensures EncodeInt16(DecodeInt16(bytes)) == bytes
  {
    var samples := DecodeInt16(bytes);
    var r := EncodeInt16(samples);
    forall j | 0 <= j < |bytes|
      ensures r[j] == bytes[j]
    {
      var i := j / 2;
      var lo, hi := bytes[2 * i], bytes[2 * i + 1];
      assert (samples[i] as int) % 0x1_0000 == lo as int + 256 * hi as int;
      if j % 2 == 0 {
        assert j == 2 * i;
      } else {
        assert j == 2 * i + 1;
      }
    }
  }

  /** Writing 16-bit samples as bytes and reading them back restores the samples. */
  lemma DecodeEncode(samples: seq<Int16>)
    ensures DecodeInt16(EncodeInt16(samples)) == samples
  {
    var bytes := EncodeInt16(samples);
    var r := DecodeInt16(bytes);
    forall i | 0 <= i < |samples|
      ensures r[i] == samples[i]
    {
      var u := (samples[i] as int) % 0x1_0000;
      assert (2 * i) / 2 == i && (2 * i + 1) / 2 == i;
      assert bytes[2 * i] as int + 256 * bytes[2 * i + 1] as int == u;
    }
  }
}
