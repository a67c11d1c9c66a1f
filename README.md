# mixaqubes bar engine in Dafny

mixaqubes is a small DJ-style loop player. A loop is decoded to raw PCM
bytes. It is cut into one-bar chunks of four beats, and each chunk is
wrapped in an in-memory audio source. The player is then fed one bar at a
time, wrapping around to the first bar after the last. A `Clip` (clips.py)
holds a list of one-bar sources of the same kind, a bar cursor and a queue
of effects. The only effect is a fade-in that raises the gain from -30 dB to
0 dB in 10 dB steps, one step per produced bar. Every bar the clip produces
goes through the same path, whether or not an effect is queued: its bytes
are read as little-endian 16-bit samples and split into two channels. The
head effect, if any, processes them. The channels are then merged back and
written out as bytes into a new source.

The model has these modules:

- `Pcm`: the audio format, the `MemorySource` buffer, and its sample-aligned
  `seek` with the 32-bit masks.
- `BarSlicer`: the slicing comprehension, and lemmas showing it is lossless and
  how long each slice is.
- `BarCursor`: the cyclic cursor step `(bar + 1) % count` and the play order
  it produces.
- `Mixaqubes`: the player window's clip cache, its end-of-stream handler, and
  the play-queue bootstrap after a key press.
- `Channels`: 16-bit sample decoding and encoding, and channel deinterleaving
  and interleaving, with their round trips.
- `Effects`: the `FadeIn` class and its gain schedule.
- `Clips`: the `Clip` class and its `next_bar`, `to_torch` and `from_torch`.
- `Arith` and `Wrappers`: arithmetic helper lemmas and an `Option` type.

Stateful objects are classes whose methods state their complete new state:
`MemorySource`, `PlayerWindow`, `Clip` and `FadeIn`. Pure computations are
functions, with lemmas about them. Both source files define the same
`MemorySource` class (mixaqubes.py:21-54 and clips.py:8-41), and it is
modelled once.

## Model

| member | source | states |
|---|---|---|
| Pcm.MemorySource.constructor | mixaqubes.py:32-38 | A new source holds the given bytes and format, and its stream position is 0. Its format must have a positive byte rate because the source divides by that rate. |
| Pcm.MemorySource.Seek | mixaqubes.py:40-54 | For 2-byte and 4-byte samples, the position becomes the raw offset masked with `0xfffffffe` or `0xfffffffc`. For other sizes it is the unmasked offset. A negative result makes the byte stream raise a ValueError; `ok == false` stands for that exception, and the position is kept. |
| Pcm.Mask32 | mixaqubes.py:50-52 | Python's `x & m` for a 32-bit mask `m` on any integer `x`, including negative ones. The result never exceeds the low 32 bits of `x` (`x % 2^32`) or the mask. |
| Pcm.AlignOffset | mixaqubes.py:48-52 | The offset handed to the byte stream. For 2-byte and 4-byte samples it is the masked offset, which lies between 0 and `offset % 2^32`. For any other sample size it is the raw offset. |
| Pcm.AlignedToSample | mixaqubes.py:48-52 | An aligned offset is non-negative and even for 2-byte samples. It is non-negative and a multiple of 4 for 4-byte samples. For any other sample size it equals the raw offset. |
| Pcm.AlignRoundsDown | mixaqubes.py:48-52 | For an offset in `[0, 2^32)`, alignment subtracts the offset's remainder modulo the sample size. So it rounds down by less than one sample. |
| Pcm.AlignTruncatesHighBits | mixaqubes.py:48-52 | For a non-negative offset, the mask first reduces the offset modulo `2^32`. The aligned value lies between 0 and the offset. |
| Pcm.SeekFailsOnlyOnNegative | mixaqubes.py:46-54 | The offset handed to the byte stream is negative exactly when the raw offset is negative and the sample size is neither 2 nor 4. |
| BarSlicer.PySlice | mixaqubes.py:374 | A slice `s[i:j]` clamps both ends to the length. Its elements are the elements of `s` from the clamped start onwards. |
| BarSlicer.CeilDiv | mixaqubes.py:374 | The length `c` of `range(0, len, n)` is the least number of `n`-sized blocks covering `len`: `len <= c * n < len + n`. It is 0 exactly for `len == 0`. |
| BarSlicer.BytesPerBar | mixaqubes.py:370 | A bar is exactly four beats of `samples_per_beat * bytes_per_sample` bytes each, and a whole number of frames. |
| BarSlicer.SliceBars | mixaqubes.py:374 | The list of raw bars has `ceil(len / n)` slices, and none of them is longer than one bar. It is empty exactly when the data is empty. |
| BarSlicer.SliceAt | mixaqubes.py:374 | Slice `k` starts inside the data and holds the bytes from `k*n` to `min(k*n + n, len)`. |
| BarSlicer.PrefixConcatenates | mixaqubes.py:374 | For any list of consecutive `n`-byte slices of the data, the first `k` slices concatenated are the first `min(k*n, len)` bytes. |
| BarSlicer.SlicesConcatenate | mixaqubes.py:374 | Concatenating all slices gives back the data exactly. No byte is lost, duplicated or reordered. |
| BarSlicer.SliceLengths | mixaqubes.py:374 | There are `ceil(len / n)` slices. Each one except the last holds exactly `n` bytes, and the last holds between 1 and `n`. |
| BarSlicer.WholeBars | mixaqubes.py:369-374 | When the data holds exactly `beats` beats and `beats` is a multiple of 4, there are `beats / 4` bars of full length. |
| BarSlicer.SlicesKeepFrames | mixaqubes.py:367-374 | When the data length and the bar length are both multiples of the frame size, every slice is too, including the last. |
| BarCursor.Advance | mixaqubes.py:279 | The next cursor stays inside the clip. It is `bar + 1`, or 0 after the last bar. |
| BarCursor.PlayOrderCyclic | mixaqubes.py:277-279 | Starting from `start`, successive advances visit `(start + i) % count` at step `i`. |
| BarCursor.OneCycleVisitsEachBar | mixaqubes.py:277-279 | `count` advances from bar 0 visit every bar once, in clip order. |
| Mixaqubes.ReadPrefix | mixaqubes.py:372 | A request for `r` bytes returns the first `min(r, len)` bytes of the decoded stream, or no bytes when `r <= 0`. |
| Mixaqubes.FrameBytes | mixaqubes.py:367 | `channels * sample_size // 8` is positive for a usable format. It is never below the format's own bytes per sample. |
| Mixaqubes.PlayerWindow.constructor | mixaqubes.py:260-263 | A new window has no cached clip, the cursor at 0, and no bpm or key. The window receives its player at mixaqubes.py:213; that player is created fresh at mixaqubes.py:504 and paused at mixaqubes.py:514, so the model starts it with an empty queue and not playing. |
| Mixaqubes.PlayerWindow.CacheActiveClip | mixaqubes.py:362-381 | The window records the bpm and key. It reads `spb * bytes_per_sample * beats` bytes and caches one fresh source per bar slice. Each source holds that slice's bytes, has the stream's format and starts at position 0. The cursor is reset to 0 and the player is untouched. |
| Mixaqubes.PlayerWindow.OnPlayerEos | mixaqubes.py:274-283 | With a non-empty clip, the bar under the cursor is appended to the queue, the cursor advances cyclically and the player plays. With an empty clip nothing changes. |
| Mixaqubes.PlayerWindow.BootstrapPlayQueue | mixaqubes.py:429-434 | When the player is stopped and a clip is cached, the bar under the cursor is queued, the cursor advances and the player plays. Otherwise nothing changes. |
| Mixaqubes.TwoSlices | mixaqubes.py:374 | Data two bars long is sliced into its first half and its second half. |
| Mixaqubes.TwoBarLoopScenario | mixaqubes.py:374-381 | An eight-beat loop is cached as two bars. The bootstrap and two end-of-stream events then queue bar 0, bar 1 and bar 0, leaving the cursor on bar 1. |
| Channels.Signed | clips.py:90 | An unsigned 16-bit pattern is read as the signed value that is congruent to it modulo `2^16`. |
| Channels.DecodeInt16 | clips.py:90 | A buffer of `2m` bytes reads as `m` samples. |
| Channels.EncodeInt16 | clips.py:107-108 | `m` samples write as `2m` bytes. |
| Channels.Evens | clips.py:91 | `raw[::2]` has `ceil(m / 2)` samples. |
| Channels.Odds | clips.py:92 | `raw[1::2]` has `floor(m / 2)` samples. |
| Channels.Deinterleave | clips.py:90-93 | Stacking `raw[::2]` over `raw[1::2]` for `2m` samples gives two channels of `m` samples each. |
| Channels.Interleave | clips.py:104-106 | The merged stream is as long as the two channels together. |
| Channels.FillStream | clips.py:103-106 | Filling a fresh array through `stream[0::2] = left` and `stream[1::2] = right` produces exactly the interleaving of the two channels. |
| Channels.InterleaveDeinterleave | clips.py:88-106 | Splitting an even-length stream into two channels and merging them back restores the stream. |
| Channels.DeinterleaveInterleave | clips.py:88-106 | Merging two equal-length channels and splitting the result gives the channels back. |
| Channels.EncodeDecode | clips.py:90-108 | Reading bytes as 16-bit samples and writing them back restores the bytes. |
| Channels.DecodeEncode | clips.py:90-108 | Writing 16-bit samples and reading them back restores the samples. |
| Effects.StepGain | clips.py:114-117 | A gain step never exceeds 0 dB. Starting at or below 0 dB with a non-negative increment, it never lowers the gain. |
| Effects.ApplyFade | clips.py:123-132 | Processing keeps the number of samples per channel. |
| Effects.FadeIn.constructor | clips.py:111-113 | A new fade-in starts at -30 dB with a 10 dB increment. |
| Effects.FadeIn.Step | clips.py:114-117 | The gain rises by the increment, clamped at 0 dB. The increment is kept. |
| Effects.FadeIn.IsDone | clips.py:118-122 | The fade is done exactly when its gain is at least 0 dB. |
| Effects.FadeIn.Process | clips.py:123-135 | The bar is ramped from the current gain to the clamped next gain, and the gain then steps exactly once. |
| Effects.GainSchedule | clips.py:110-117 | After `k` steps a new fade-in's gain is `min(-30 + 10k, 0)`. |
| Effects.DoneAfterThreeSteps | clips.py:110-122 | A new fade-in is done after `k` steps exactly when `k >= 3`. |
| Effects.GainMonotone | clips.py:114-134 | The gain never decreases from one step to the next and never exceeds 0 dB. So no bar's ramp falls, and from the third bar on the ramp ends at 0 dB. |
| Effects.ThreeBarsScenario | clips.py:110-135 | Processing three bars gives gains -20, -10, 0, and the fade reports done after the third bar only. |
| Clips.Clip.constructor | clips.py:53-66 | A new clip starts at bar 0 with magnitude 1.0, one fresh fade-in at -30 dB, state "cued", and no current bar or format. |
| Clips.Clip.ToTorch | clips.py:88-99 | The clip records the bar's format. The bar's bytes, read as 16-bit samples, are split into the even-index channel and the odd-index channel. |
| Clips.Clip.FromTorch | clips.py:102-108 | A fresh source holds the 16-bit bytes of the interleaved channels, has the last recorded format, and starts at position 0. |
| Clips.Clip.NextBar | clips.py:70-85 | The bar under the cursor is decoded, and the head effect (if any) processes it and steps once. The head is dropped exactly when its gain reached 0 dB, and the rest of the effect list is kept. The result is a fresh source at position 0; it becomes the current bar and the cursor advances cyclically. Magnitude and state are unchanged. |
| Clips.UnprocessedBarIsCopy | clips.py:88-108 | With no effect queued, the bar produced from a source carries exactly that source's bytes. |
| Clips.TwoBarClipScenario | clips.py:53-85 | For a two-bar clip, three `next_bar` calls move the cursor 0, 1, 0, 1. After two calls the fade-in is still queued at -10 dB, and the third call removes it. The first two produced bars are distinct sources. |

## Left out

- Floating point. Gains are whole decibels, so they are integers here. The ratios `10 ** (dB / 20)`, `torch.linspace` and the per-sample multiply are one function parameter (`RampBackend`).
- Effects.ApplyFade: states only that the sample count is kept. The values of the ramp are floating point and belong to the `RampBackend` parameter.
- The `float32` tensor and the cast back to `int16` are modelled as integers with two's-complement wrap-around in `Channels.EncodeInt16`. NumPy's behaviour for out-of-range floats is not modelled.
- Clips.Clip.ToTorch requires a whole number of 4-byte frames. For other lengths NumPy raises an error (odd byte count) or cannot stack unequal channels.
- Clips.Clip.NextBar requires a non-empty clip and a frame-aligned current bar. The source raises an IndexError on an empty clip, at `self.bars[current_bar]`.
- Clips.Clip.FromTorch requires a recorded format. In the source, `from_torch` before any `to_torch` raises an AttributeError; `next_bar` always calls `to_torch` first.
- Mixaqubes.PlayerWindow.CacheActiveClip takes the decoded bytes, the format and `samples_per_beat = round(60 / bpm * rate)` as parameters. File lookup, `pyglet.media.load`, the clip database, the missing-file `exit(0)` path and the returned `(name, loop)` pair are not modelled. `get_audio_data` is modelled as returning a prefix of the stream. When no bytes are read (a request of 0 or fewer bytes, or an empty stream), the model caches an empty clip. The source instead gets `None` back and raises an AttributeError at mixaqubes.py:373.
- Pcm.MemorySource.Seek takes the integer byte offset `int(timestamp * bytes_per_second)` as its input; the float product is not modelled. The source's `_duration` and `_max_offset` fields and its reads are not modelled.
- The player is reduced to its queue and its `playing` flag. Widgets, drawing, sliders, `gui_update_*`, video sizing, the other key bindings, `on_close` and clock scheduling are left out as UI.
- The torch device choice, logging and `print` calls are left out.
- `Clip.state` is only ever set to `"cued"`. The source leaves its update as a TODO, so NextBar keeps it unchanged.
- `Clip.magnitude` is stored but not used by any effect in the source, and it is not used here either.
