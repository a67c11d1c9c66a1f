/**
 * The fade-in effect: a gain in decibels that starts at -30 dB and rises by
 * 10 dB per processed bar until it reaches 0 dB.
 *
 * The gains are whole numbers of decibels, so they are integers here. The
 * floating-point part of processing (the ratios `10 ** (dB / 20)`, the
 * linear ramp between them and the per-sample product) is a parameter,
 * `RampBackend`.
 */
module Effects {
  import opened Arith
  import opened Channels

  /**
   * The numeric transform of one sample: given the ramp's start and end
   * gains in dB, the sample's index, the number of samples per channel and
   * the sample, the processed sample.
   */
  type RampBackend = (int, int, nat, nat, int) -> int

  const InitialGain: int := -30
  const GainIncrement: int := 10

  /** One step of the gain: raise by the increment, but never above 0 dB. */
  function StepGain(gain: int, increment: int): (next: int)
    ensures next <= 0
    ensures gain <= 0 && increment >= 0 ==> gain <= next
  {
    if gain + increment > 0 then 0 else gain + increment
  }

  /** The same ramp applied to both channels, from `startDb` to `endDb`. */
  function ApplyFade(t: Tensor, startDb: int, endDb: int, backend: RampBackend): (r: Tensor)
    ensures |r.left| == |t.left|
  {
    var n := |t.left|;
    Stereo(seq(n, i requires 0 <= i < n => backend(startDb, endDb, i, n, t.left[i])),
           seq(n, i requires 0 <= i < n => backend(startDb, endDb, i, n, t.right[i])))
  }

  class FadeIn {
    /** Current gain in dB. */
    var gain: int
    /** Gain added per step, in dB. */
    var increment: int

    constructor ()
      ensures gain == InitialGain && increment == GainIncrement
    {
      gain := InitialGain;
      increment := GainIncrement;
    }

    /** Raises the gain by the increment, clamped at 0 dB. */
    method Step()
      modifies this
      ensures gain == StepGain(old(gain), old(increment))
      ensures increment == old(increment)
    {
      gain := gain + increment;
      if gain > 0 {
        gain := 0;
      }
    }

    /** The fade is done once the gain has reached 0 dB. */
    method IsDone() returns (done: bool)
      ensures done <==> gain >= 0
    {
      if gain >= 0 {
        done := true;
      } else {
        done := false;
      }
    }

    /**
     * Fades the bar from the current gain to the next one (clamped at 0 dB)
     * and then steps the gain exactly once.
     */
    method Process(t: Tensor, backend: RampBackend) returns (out: Tensor)
      modifies this
      ensures out == ApplyFade(t, old(gain), StepGain(old(gain), old(increment)), backend)
      ensures gain == StepGain(old(gain), old(increment))
      ensures increment == old(increment)
    {
      var startGain := gain;
      var endGain := gain + increment;
      if endGain > 0 {
        endGain := 0;
      }
      out := ApplyFade(t, startGain, endGain, backend);
      Step();
    }
  }

  /** The gain of a new fade-in after `k` steps. */
  function GainAfter(k: nat): int
  {
    if k == 0 then InitialGain else StepGain(GainAfter(k - 1), GainIncrement)
  }

  /** The gain schedule: -30, -20, -10, then 0 dB for good. */
  lemma {:induction false} GainSchedule(k: nat)
    ensures GainAfter(k) == Min(InitialGain + GainIncrement * k, 0)
  {
    if k > 0 {
      GainSchedule(k - 1);
    }
  }

  /** A new fade-in is done after three steps and not before. */
  lemma DoneAfterThreeSteps(k: nat)
    ensures GainAfter(k) >= 0 <==> k >= 3
  {
    GainSchedule(k);
  }

  /**
   * The gain never decreases and never exceeds 0 dB, so each bar's ramp
   * (from the gain before the step to the gain after it) never falls; from
   * the third bar on the ramp ends at 0 dB.
   */
  lemma GainMonotone(k: nat)
    ensures GainAfter(k) <= GainAfter(k + 1) <= 0
    ensures k >= 2 ==> GainAfter(k + 1) == 0
  {
    GainSchedule(k);
    GainSchedule(k + 1);
  }

  /**
   * Scenario: a new fade-in processes three bars; it reports done after the
   * third and not after the first two.
   */
  method ThreeBarsScenario(t: Tensor, backend: RampBackend) returns (doneAfter: seq<bool>, gains: seq<int>)
    ensures doneAfter == [false, false, true]
    ensures gains == [-20, -10, 0]
  {
    var fade := new FadeIn();
    doneAfter, gains := [], [];
    var faded := fade.Process(t, backend);
    var done := fade.IsDone();
    doneAfter, gains := doneAfter + [done], gains + [fade.gain];
    faded := fade.Process(t, backend);
    done := fade.IsDone();
    doneAfter, gains := doneAfter + [done], gains + [fade.gain];
    faded := fade.Process(t, backend);
    done := fade.IsDone();
    doneAfter, gains := doneAfter + [done], gains + [fade.gain];
  }
}
