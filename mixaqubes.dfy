/**
 * The player window's bar sequencing: caching a loop as a list of one-bar
 * sources, and queueing those bars one after another on the player.
 *
 * The window's widgets, drawing and the media player itself are not part of
 * this model; the player is reduced to its queue of sources and its
 * `playing` flag.
 */
module Mixaqubes {
  import opened Wrappers
  import opened Pcm
  import opened BarSlicer
  import opened BarCursor
  import opened Arith

  /**
   * The bytes a decoded stream hands out when asked for `request` bytes
   * from its start: its first `request` bytes, or all of it if shorter.
   */
  function ReadPrefix(decoded: seq<Byte>, request: int): (r: seq<Byte>)
    ensures |r| == if request <= 0 then 0 else Min(request, |decoded|)
    ensures r <= decoded
  {
    if request <= 0 then [] else decoded[..Min(request, |decoded|)]
  }

  /** A format with a positive byte rate has at least one byte per frame, counted either way. */
  lemma FrameBytesPositive(format: AudioFormat)
    requires format.BytesPerSecond() > 0
    ensures format.channels * format.sampleSize / 8 >= format.BytesPerSample() > 0
  {
    var bytes := format.sampleSize / 8;
    assert format.BytesPerSecond() == (bytes * format.channels) * format.sampleRate;
    assert bytes * format.channels > 0;
    assert format.channels >= 1 && bytes >= 1;
    assert format.channels * format.sampleSize >= format.channels * (8 * bytes) by {
      MulMono(8 * bytes, format.sampleSize, format.channels);
      assert 8 * bytes * format.channels == format.channels * (8 * bytes);
    }
    assert format.channels * (8 * bytes) == 8 * (bytes * format.channels);
  }

  /**
   * Bytes per frame as the window computes it, `channels * sample_size // 8`;
   * never smaller than the format's own count.
   */
  function FrameBytes(format: AudioFormat): (r: nat)
    ensures format.BytesPerSecond() > 0 ==> r >= format.BytesPerSample() > 0
  {
    if format.BytesPerSecond() > 0 then FrameBytesPositive(format); format.channels * format.sampleSize / 8
    else format.channels * format.sampleSize / 8
  }

  class PlayerWindow {
    /** The bars of the loop being played, one source per bar. */
    var activeClip: seq<MemorySource>
    /** Index of the next bar to queue. */
    var activeBar: int
    var activeBpm: Option<real>
    var activeKey: Option<string>
    /** The sources queued on the player so far, oldest first. */
    var queued: seq<MemorySource>
    /** Whether the player is playing. */
    var playing: bool

    /** The cursor points into the clip, and is 0 while the clip is empty. */
    ghost predicate Valid()
      reads this
    {
      0 <= activeBar && (activeClip == [] ==> activeBar == 0)
      && (activeClip != [] ==> activeBar < |activeClip|)
    }

    /** A window with no clip cached and a paused, empty player. */
    constructor ()
      ensures Valid()
      ensures activeClip == [] && activeBar == 0
      ensures activeBpm == None && activeKey == None
      ensures queued == [] && !playing
    {
      activeClip := [];
      activeBar := 0;
      activeBpm := None;
      activeKey := None;
      queued := [];
      playing := false;
    }

    /**
     * Caches a loop: reads `samplesPerBeat * bytesPerSample * beats` bytes of
     * the decoded stream, slices them into bars of four beats each, wraps
     * every slice in a fresh source with the stream's format, and resets the
     * cursor to the first bar. `samplesPerBeat` is `round(60 / bpm * rate)`.
     */
    method CacheActiveClip(decoded: seq<Byte>, format: AudioFormat, bpm: real, key: string,
                           samplesPerBeat: nat, beats: int)
      requires samplesPerBeat > 0
      requires format.BytesPerSecond() > 0
      modifies this
      ensures Valid()
      ensures activeBpm == Some(bpm) && activeKey == Some(key)
      ensures var bytesPerSample := FrameBytes(format);
              var bars := SliceBars(ReadPrefix(decoded, samplesPerBeat * bytesPerSample * beats),
                                    BytesPerBar(samplesPerBeat, bytesPerSample));
              && |activeClip| == |bars|
              && forall i :: 0 <= i < |bars| ==>
                   && fresh(activeClip[i])
                   && activeClip[i].data == bars[i]
                   && activeClip[i].format == format
                   && activeClip[i].position == 0
      ensures activeBar == 0
      ensures queued == old(queued) && playing == old(playing)
    {
      activeBpm := Some(bpm);
      activeKey := Some(key);
      var bytesPerSample := FrameBytes(format);
      var bytesPerBar := BytesPerBar(samplesPerBeat, bytesPerSample);
      var fullLoop := ReadPrefix(decoded, samplesPerBeat * bytesPerSample * beats);
      var barsRaw := SliceBars(fullLoop, bytesPerBar);
      activeClip := [];
      for i := 0 to |barsRaw|
        invariant |activeClip| == i
        invariant forall j :: 0 <= j < i ==>
                    && fresh(activeClip[j])
                    && activeClip[j].data == barsRaw[j]
                    && activeClip[j].format == format
                    && activeClip[j].position == 0
        invariant queued == old(queued) && playing == old(playing)
        invariant activeBpm == Some(bpm) && activeKey == Some(key)
      {
        var source := new MemorySource(barsRaw[i], format);
        activeClip := activeClip + [source];
      }
      activeBar := 0;
    }

    /**
     * End of stream: with a non-empty clip, queues the bar under the cursor,
     * advances the cursor cyclically and plays; with an empty clip nothing
     * changes.
     */
    method OnPlayerEos()
      requires Valid()
      modifies this
      ensures Valid()
      ensures activeClip == old(activeClip)
      ensures old(activeClip) != [] ==>
                && queued == old(queued) + [old(activeClip)[old(activeBar)]]
                && activeBar == Advance(old(activeBar), |activeClip|)
                && playing
      ensures old(activeClip) == [] ==>
                queued == old(queued) && activeBar == old(activeBar) && playing == old(playing)
      ensures activeBpm == old(activeBpm) && activeKey == old(activeKey)
    {
      if |activeClip| != 0 {
        queued := queued + [activeClip[activeBar]];
        activeBar := Advance(activeBar, |activeClip|);
        playing := true;
      }
    }

    /**
     * The bootstrap at the end of a key press: if the player is stopped and
     * a clip is cached, queues the bar under the cursor, advances the cursor
     * and starts playing; otherwise nothing changes.
     */
    method BootstrapPlayQueue()
      requires Valid()
      modifies this
      ensures Valid()
      ensures activeClip == old(activeClip)
      ensures !old(playing) && old(activeClip) != [] ==>
                && queued == old(queued) + [old(activeClip)[old(activeBar)]]
                && activeBar == Advance(old(activeBar), |activeClip|)
                && playing
      ensures old(playing) || old(activeClip) == [] ==>
                queued == old(queued) && activeBar == old(activeBar) && playing == old(playing)
      ensures activeBpm == old(activeBpm) && activeKey == old(activeKey)
    {
      if !playing && |activeClip| != 0 {
        queued := queued + [activeClip[activeBar]];
        activeBar := Advance(activeBar, |activeClip|);
        playing := true;
      }
    }
  }

  lemma TwoSlices(data: seq<Byte>, n: nat)
    requires n > 0 && |data| == 2 * n
    ensures SliceBars(data, n) == [data[..n], data[n..]]
  {
    DivUnique(|data| + n - 1, n, 2, n - 1);
    var bars := SliceBars(data, n);
    SliceAt(data, n, 0);
    SliceAt(data, n, 1);
    assert bars[1] == data[n..];
  }

  /**
   * Scenario: a loop of eight beats is cached as two bars; the bootstrap and
   * two end-of-stream events queue bar 0, bar 1 and bar 0 again, and leave
   * the cursor on bar 1.
   */
  method TwoBarLoopScenario(decoded: seq<Byte>, format: AudioFormat, samplesPerBeat: nat)
    returns (queuedData: seq<seq<Byte>>, cursor: int)
    requires samplesPerBeat > 0 && format.BytesPerSecond() > 0
    requires |decoded| == 2 * BytesPerBar(samplesPerBeat, FrameBytes(format))
    ensures var n := BytesPerBar(samplesPerBeat, FrameBytes(format));
            queuedData == [decoded[..n], decoded[n..], decoded[..n]]
    ensures cursor == 1
  {
    var bytesPerSample := FrameBytes(format);
    var n := BytesPerBar(samplesPerBeat, bytesPerSample);
    assert samplesPerBeat * bytesPerSample * 8 == |decoded|;
    assert ReadPrefix(decoded, samplesPerBeat * bytesPerSample * 8) == decoded;
    assert n > 0;
    TwoSlices(decoded, n);
    var w := new PlayerWindow();
    w.CacheActiveClip(decoded, format, 128.0, "8A", samplesPerBeat, 8);
    assert w.activeClip[0].data == decoded[..n] && w.activeClip[1].data == decoded[n..];
    w.BootstrapPlayQueue();
    w.OnPlayerEos();
    w.OnPlayerEos();
    queuedData := [w.queued[0].data, w.queued[1].data, w.queued[2].data];
    cursor := w.activeBar;
  }
}
