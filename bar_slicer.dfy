/**
 * Bar slicing: the decoded loop is cut into consecutive chunks of one bar
 * each, `[data[i:i+n] for i in range(0, len(data), n)]`.
 */
module BarSlicer {
  import opened Pcm
  import opened Arith

  /** Beats in one bar; the slicer hard-codes four. */
  const BeatsPerBar: nat := 4

  /** Number of elements of `range(0, a, n)`: the ceiling of `a / n`. */
  function CeilDiv(a: nat, n: nat): (c: nat)
    requires n > 0
    ensures a <= c * n < a + n
    ensures c == 0 <==> a == 0
  {
    CeilBounds(a, n);
    (a + n - 1) / n
  }

  /** A slice `s[i:j]` with `0 <= i <= j`: both ends are clamped to the length. */
  function PySlice<T>(s: seq<T>, i: nat, j: nat): (r: seq<T>)
    requires i <= j
    ensures |r| == Min(j, |s|) - Min(i, |s|)
    ensures forall t :: 0 <= t < |r| ==> r[t] == s[Min(i, |s|) + t]
  {
    s[Min(i, |s|)..Min(j, |s|)]
  }

  /** Bytes in one bar: four beats of `samplesPerBeat` frames of `bytesPerSample` bytes. */
  function BytesPerBar(samplesPerBeat: nat, bytesPerSample: nat): (r: nat)
    ensures samplesPerBeat * bytesPerSample > 0 ==>
              r % (samplesPerBeat * bytesPerSample) == 0
              && r / (samplesPerBeat * bytesPerSample) == BeatsPerBar
    ensures bytesPerSample > 0 ==> r % bytesPerSample == 0
  {
    var beat := samplesPerBeat * bytesPerSample;
    var r := BeatsPerBar * samplesPerBeat * bytesPerSample;
    assert r == BeatsPerBar * beat && r == (BeatsPerBar * samplesPerBeat) * bytesPerSample;
    if beat > 0 then
      DivUnique(r, beat, BeatsPerBar, 0);
      ModUnique(r, beat, BeatsPerBar, 0);
      ModUnique(r, bytesPerSample, BeatsPerBar * samplesPerBeat, 0);
      r
    else if bytesPerSample > 0 then
      ModUnique(r, bytesPerSample, BeatsPerBar * samplesPerBeat, 0);
      r
    else r
  }

  /** The list of raw bars: one slice of `n` bytes per element of `range(0, |data|, n)`. */
  function SliceBars<T>(data: seq<T>, n: nat): (bars: seq<seq<T>>)
    requires n > 0
    ensures |bars| == CeilDiv(|data|, n)
    ensures bars == [] <==> data == []
    ensures forall k :: 0 <= k < |bars| ==> |bars[k]| <= n
  {
    seq(CeilDiv(|data|, n), k requires 0 <= k => PySlice(data, k * n, k * n + n))
  }

  /** Concatenation of a list of byte strings, in order. */
  function Concat<T>(parts: seq<seq<T>>): seq<T>
  {
    if parts == [] then [] else Concat(parts[..|parts| - 1]) + parts[|parts| - 1]
  }

  /** Slice `k` starts at `k * n`, which lies inside the data, and has the expected bytes. */
  lemma SliceAt<T>(data: seq<T>, n: nat, k: nat)
    requires n > 0 && k < |SliceBars(data, n)|
    ensures k * n < |data|
    ensures SliceBars(data, n)[k] == data[k * n..Min(k * n + n, |data|)]
  {
    var c := CeilDiv(|data|, n);
    MulMono(k, c - 1, n);
  }

  /** Concatenating the first `k` parts adds part `k - 1` to the first `k - 1`. */
  lemma ConcatSnoc<T>(parts: seq<seq<T>>, k: nat)
    requires 0 < k <= |parts|
    ensures Concat(parts[..k]) == Concat(parts[..k - 1]) + parts[k - 1]
  {
    var front := parts[..k];
    assert front[..k - 1] == parts[..k - 1];
  }

  lemma SplitPrefix<T>(s: seq<T>, i: nat, j: nat)
    requires i <= j <= |s|
    ensures s[..i] + s[i..j] == s[..j]
  {
  }

  /**
   * For any list of consecutive `n`-byte slices of `data`, the first `k`
   * concatenate to the first `k * n` bytes (clamped).
   */
  lemma {:induction false} PrefixConcatenates<T>(data: seq<T>, n: nat, bars: seq<seq<T>>, k: nat)
    requires n > 0 && k <= |bars|
    requires forall j :: 0 <= j < |bars| ==> j * n < |data| && bars[j] == data[j * n..Min(j * n + n, |data|)]
    ensures Concat(bars[..k]) == data[..Min(k * n, |data|)]
  {
    if k > 0 {
      var start := (k - 1) * n;
      var end := Min(k * n, |data|);
      PrefixConcatenates(data, n, bars, k - 1);
      assert start + n == k * n;
      assert bars[k - 1] == data[start..end];
      ConcatSnoc(bars, k);
      SplitPrefix(data, start, end);
    }
  }

  /** Slicing is lossless and keeps the order: the slices concatenate to the data. */
  lemma SlicesConcatenate<T>(data: seq<T>, n: nat)
    requires n > 0
    ensures Concat(SliceBars(data, n)) == data
  {
    var bars := SliceBars(data, n);
    forall j | 0 <= j < |bars|
      ensures j * n < |data| && bars[j] == data[j * n..Min(j * n + n, |data|)]
    {
      SliceAt(data, n, j);
    }
    PrefixConcatenates(data, n, bars, |bars|);
    assert bars[..|bars|] == bars;
  }

  /**
   * Every slice but the last has exactly `n` bytes, the last has between
   * 1 and `n`, and there are `ceil(|data| / n)` of them.
   */
  lemma SliceLengths<T>(data: seq<T>, n: nat)
    requires n > 0
    ensures var bars := SliceBars(data, n);
            && |bars| == CeilDiv(|data|, n)
            && (forall k :: 0 <= k < |bars| - 1 ==> |bars[k]| == n)
            && (|bars| > 0 ==> 1 <= |bars[|bars| - 1]| <= n)
  {
    var bars := SliceBars(data, n);
    var c := |bars|;
    forall k | 0 <= k < c - 1
      ensures |bars[k]| == n
    {
      SliceAt(data, n, k);
      MulMono(k + 1, c - 1, n);
      assert (k + 1) * n == k * n + n;
    }
    if c > 0 {
      SliceAt(data, n, c - 1);
    }
  }

  /**
   * When the data holds exactly the requested `beats` beats and `beats` is a
   * multiple of four, there are `beats / 4` bars, all of full length.
   */
  lemma WholeBars<T>(data: seq<T>, samplesPerBeat: nat, bytesPerSample: nat, beats: nat)
    requires samplesPerBeat > 0 && bytesPerSample > 0
    requires |data| == samplesPerBeat * bytesPerSample * beats
    requires beats % BeatsPerBar == 0
    ensures var n := BytesPerBar(samplesPerBeat, bytesPerSample);
            var bars := SliceBars(data, n);
            && |bars| == beats / BeatsPerBar
            && forall k :: 0 <= k < |bars| ==> |bars[k]| == n
  {
    var n := BytesPerBar(samplesPerBeat, bytesPerSample);
    var m := beats / BeatsPerBar;
    var unit := samplesPerBeat * bytesPerSample;
    assert n == 4 * unit;
    assert beats == 4 * m;
    assert |data| == unit * (4 * m);
    assert |data| == m * n;
    var bars := SliceBars(data, n);
    assert n >= 1;
    DivUnique(|data| + n - 1, n, m, n - 1);
    SliceLengths(data, n);
    if m > 0 {
      SliceAt(data, n, m - 1);
      assert (m - 1) * n == m * n - n;
    }
  }

  /**
   * When the data and the bar length are both whole numbers of `a`-byte
   * frames, so is every slice, the short last one included.
   */
  lemma SlicesKeepFrames<T>(data: seq<T>, n: nat, a: nat)
    requires n > 0 && a > 0 && n % a == 0 && |data| % a == 0
    ensures forall k :: 0 <= k < |SliceBars(data, n)| ==> |SliceBars(data, n)[k]| % a == 0
  {
    var bars := SliceBars(data, n);
    var c := |bars|;
    SliceLengths(data, n);
    if c > 0 {
      SliceAt(data, n, c - 1);
      MultipleOfMultiple(a, n, c - 1);
      DiffOfMultiples(a, |data|, (c - 1) * n);
    }
  }
}
