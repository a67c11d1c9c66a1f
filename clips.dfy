/**
 * A clip: the bars of one loop, a cursor over them, and a queue of effects
 * applied head first to the bars as they are produced.
 */
module Clips {
  import opened Wrappers
  import opened Pcm
  import opened Channels
  import opened Effects
  import opened BarCursor

  class Clip {
    const name: string
    /** The thematic element of the loop (intro, drop, outro, ...). */
    const element: string
    const bars: seq<MemorySource>
    const bpm: real
    /** The Camelot mixing key, kept as an opaque string. */
    const key: string
    /** Index of the next bar to produce. */
    var bar: int
    var magnitude: real
    /** Effects still to apply, the head first. */
    var effects: seq<FadeIn>
    var state: string
    /** The last bar produced; there is none before the first call. */
    var currentBar: MemorySource?
    /** The format of the last bar read; there is none before the first read. */
    var audioFormat: Option<UsableFormat>

    /** The cursor points into the bars, and is 0 when there are none. */
    ghost predicate Valid()
      reads this
    {
      0 <= bar && (bars == [] ==> bar == 0) && (bars != [] ==> bar < |bars|)
    }

    /** A cued clip at its first bar, at full magnitude, with one fresh fade-in queued. */
    constructor (name: string, element: string, bars: seq<MemorySource>, bpm: real, key: string)
      ensures Valid()
      ensures this.name == name && this.element == element && this.bars == bars
      ensures this.bpm == bpm && this.key == key
      ensures bar == 0 && magnitude == 1.0 && state == "cued"
      ensures |effects| == 1 && fresh(effects[0])
      ensures effects[0].gain == InitialGain && effects[0].increment == GainIncrement
      ensures currentBar == null && audioFormat == None
    {
      this.name := name;
      this.element := element;
      this.bars := bars;
      this.bpm := bpm;
      this.key := key;
      bar := 0;
      magnitude := 1.0;
      var fade := new FadeIn();
      effects := [fade];
      state := "cued";
      currentBar := null;
      audioFormat := None;
    }

    /**
     * Reads a bar's bytes as 16-bit samples and splits them into two
     * channels, remembering the bar's format. The samples only split into
     * two equal channels when the bar holds a whole number of 4-byte frames.
     */
    method ToTorch(source: MemorySource) returns (t: Tensor)
      requires |source.data| % 4 == 0
      modifies this`audioFormat
      ensures audioFormat == Some(source.format)
      ensures |DecodeInt16(source.data)| % 2 == 0
      ensures t == Deinterleave(DecodeInt16(source.data))
    {
      audioFormat := Some(source.format);
      var rawInts := DecodeInt16(source.data);
      t := Deinterleave(rawInts);
    }

    /**
     * Merges the two channels into one stream and wraps its bytes in a new
     * source with the format recorded by the last `ToTorch`; before any
     * `ToTorch` the clip has no format to give it.
     */
    method FromTorch(t: Tensor) returns (m: MemorySource)
      requires audioFormat.Some?
      ensures fresh(m)
      ensures m.data == EncodeInt16(Interleave(t)) && m.format == audioFormat.value
      ensures m.position == 0
    {
      var stream := FillStream(t);
      m := new MemorySource(EncodeInt16(stream), audioFormat.value);
    }

    /**
     * Produces the bar under the cursor: applies the head effect, if any,
     * drops it when it reports done right after processing, caches the
     * result as the current bar and advances the cursor cyclically.
     */
    method NextBar(backend: RampBackend) returns (produced: MemorySource)
      requires Valid() && bars != []
      requires |bars[bar].data| % 4 == 0
      modifies this, if effects == [] then [] else [effects[0]]
      ensures Valid()
      ensures bar == Advance(old(bar), |bars|)
      ensures fresh(produced) && currentBar == produced && produced.position == 0
      ensures produced.format == bars[old(bar)].format
      ensures audioFormat == Some(bars[old(bar)].format)
      ensures magnitude == old(magnitude) && state == old(state)
      ensures |DecodeInt16(bars[old(bar)].data)| % 2 == 0
      ensures var t := Deinterleave(DecodeInt16(bars[old(bar)].data));
              old(effects) == [] ==>
                effects == [] && produced.data == EncodeInt16(Interleave(t))
      ensures var t := Deinterleave(DecodeInt16(bars[old(bar)].data));
              old(effects) != [] ==>
                var head := old(effects)[0];
                var next := StepGain(old(head.gain), old(head.increment));
                && head.gain == next && head.increment == old(head.increment)
                && produced.data == EncodeInt16(Interleave(ApplyFade(t, old(head.gain), next, backend)))
                && effects == if next >= 0 then old(effects)[1..] else old(effects)
    {
      var currentIndex := bar;
      var torchdata := ToTorch(bars[currentIndex]);
      if |effects| > 0 {
        torchdata := effects[0].Process(torchdata, backend);
        var done := effects[0].IsDone();
        if done {
          effects := effects[1..];
        }
      }
      currentBar := FromTorch(torchdata);
      bar := Advance(bar, |bars|);
      produced := currentBar;
    }
  }

  /**
   * With no effect queued, a produced bar carries exactly the bytes of the
   * bar it was made from.
   */
  lemma UnprocessedBarIsCopy(data: seq<Byte>)
    requires |data| % 4 == 0
    ensures |DecodeInt16(data)| % 2 == 0
    ensures EncodeInt16(Interleave(Deinterleave(DecodeInt16(data)))) == data
  {
    InterleaveDeinterleave(DecodeInt16(data));
    EncodeDecode(data);
  }

  /**
   * Scenario: a two-bar clip with its fresh fade-in. Three calls move the
   * cursor 0, 1, 0, 1; after two calls the fade-in is still queued at
   * -10 dB, and the third call completes and removes it. The first two
   * calls produce two distinct sources.
   */
  method TwoBarClipScenario(first: seq<Byte>, second: seq<Byte>, format: AudioFormat, backend: RampBackend)
    returns (cursors: seq<int>, effectCounts: seq<nat>, gainAfterTwo: int, distinct: bool)
    requires |first| % 4 == 0 && |second| % 4 == 0 && format.BytesPerSecond() > 0
    ensures cursors == [0, 1, 0, 1]
    ensures effectCounts == [1, 1, 0]
    ensures gainAfterTwo == -10
    ensures distinct
  {
    var bar0 := new MemorySource(first, format);
    var bar1 := new MemorySource(second, format);
    var clip := new Clip("loop", "intro", [bar0, bar1], 128.0, "8A");
    cursors, effectCounts := [clip.bar], [];
    var p0 := clip.NextBar(backend);
    cursors, effectCounts := cursors + [clip.bar], effectCounts + [|clip.effects|];
    var p1 := clip.NextBar(backend);
    cursors, effectCounts := cursors + [clip.bar], effectCounts + [|clip.effects|];
    gainAfterTwo := clip.effects[0].gain;
    distinct := p0 != p1;
    var p2 := clip.NextBar(backend);
    cursors, effectCounts := cursors + [clip.bar], effectCounts + [|clip.effects|];
  }
}
