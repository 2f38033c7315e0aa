/** Sample rate and channel conversion between an app and its codec: resample_s16 and convert_channels_s16 in
  audio_stream.cpp, and the buffer sizing around them in read_stream and write_stream.

  Samples are 16-bit PCM, interleaved by channel. Positions between samples are exact fractions here, where the
  source computes them in double precision.

  Frame k of the output of a rate conversion lies at position k * in / out of the input. `Rendered` and `Converted`
  say what a buffer holds after a rate or a channel conversion; the methods that work on arrays ensure them, and the
  lemmas say what they mean for the listener.

  The channel count of a stream is a uint8_t, and so are the frame sizes and the indices of the downmix. `Byte` marks
  the places where that matters.
*/
module Resampler {
  import opened ChannelMix
  import opened Samples
  import opened Wrappers

  // ---------------------------------------------------------------------------------------------
  // Interleaved frames

  /** The position of a channel's sample in an interleaved buffer. */
  function At(frame: nat, ch: nat, channels: nat): nat {
    frame * channels + ch
  }

  lemma AtBefore(frame: nat, ch: nat, channels: nat, frames: nat)
    requires ch < channels && frame < frames
    ensures At(frame, ch, channels) < frames * channels
  {
    MulMonotone(frame + 1, frames, channels);
    assert (frame + 1) * channels == frame * channels + channels;
  }

  // ---------------------------------------------------------------------------------------------
  // resample_s16

  /** The sample between `a` and `b` at the fraction `num / den` of the way. */
  function Blend(a: Sample, b: Sample, num: nat, den: Positive): (r: Sample)
    requires num < den
    ensures if a <= b then a <= r <= b else b <= r <= a
  {
    BlendBounds(a, b, num, den);
    TruncDivBetween(if a <= b then a else b, if a <= b then b else a, a * den + (b - a) * num, den);
    TruncDiv(a * den + (b - a) * num, den)
  }

  lemma BlendBounds(a: int, b: int, num: nat, den: Positive)
    requires num < den
    ensures a <= b ==> a * den <= a * den + (b - a) * num <= b * den
    ensures b <= a ==> b * den <= a * den + (b - a) * num <= a * den
  {
    assert b * den == a * den + (b - a) * den;
    if a <= b {
      MulMonotone(num, den, b - a);
      MulMonotone(0, b - a, num);
    } else {
      MulMonotone(num, den, a - b);
      assert (b - a) * num == -((a - b) * num) && (b - a) * den == -((a - b) * den);
      MulMonotone(0, a - b, num);
    }
  }

  /** The input frame at or before output frame `k`. */
  function SourceFrame(k: nat, inRate: Positive, outRate: Positive): nat
  {
    k * inRate / outRate
  }

  function Interpolated(input: seq<Sample>, inFrames: nat, channels: nat, inRate: Positive, outRate: Positive, k: nat,
                        ch: nat): Sample
    requires inFrames * channels <= |input| && ch < channels && SourceFrame(k, inRate, outRate) < inFrames
  {
    var i := SourceFrame(k, inRate, outRate);
    AtBefore(i, ch, channels, inFrames);
    var a := input[At(i, ch, channels)];
    if i + 1 >= inFrames then a
    else
      AtBefore(i + 1, ch, channels, inFrames);
      Blend(a, input[At(i + 1, ch, channels)], k * inRate % outRate, outRate)
  }

  /** How many frames lie before the end of the input: those at positions below `inFrames`. */
  function FrameCount(inFrames: nat, inRate: Positive, outRate: Positive, capacity: nat): nat
  {
    var all := CeilDiv(inFrames * outRate, inRate);
    if capacity < all then capacity else all
  }

  lemma SourceFrameInRange(k: nat, inFrames: nat, inRate: Positive, outRate: Positive)
    ensures SourceFrame(k, inRate, outRate) < inFrames <==> k < CeilDiv(inFrames * outRate, inRate)
  {
    DivMeaning(k * inRate, outRate, inFrames);
    CeilDivMeaning(inFrames * outRate, inRate, k);
  }

  ghost predicate Rendered(out: seq<Sample>, frames: nat, input: seq<Sample>, inFrames: nat, channels: nat,
                           inRate: Positive, outRate: Positive)
    requires inFrames * channels <= |input|
  {
    frames * channels <= |out| && frames <= CeilDiv(inFrames * outRate, inRate) &&
    forall k, ch :: 0 <= k < frames && 0 <= ch < channels ==>
      RenderedAt(out, k, ch, input, inFrames, channels, inRate, outRate)
  }

  ghost predicate RenderedAt(out: seq<Sample>, k: nat, ch: nat, input: seq<Sample>, inFrames: nat, channels: nat,
                             inRate: Positive, outRate: Positive)
    requires inFrames * channels <= |input| && ch < channels
  {
    At(k, ch, channels) < |out| && SourceFrame(k, inRate, outRate) < inFrames &&
    out[At(k, ch, channels)] == Interpolated(input, inFrames, channels, inRate, outRate, k, ch)
  }

  lemma SameRate(input: seq<Sample>, inFrames: nat, channels: nat, rate: Positive, k: nat, ch: nat)
    requires inFrames * channels <= |input| && k < inFrames && ch < channels
    ensures SourceFrame(k, rate, rate) == k && At(k, ch, channels) < |input|
    ensures Interpolated(input, inFrames, channels, rate, rate, k, ch) == input[At(k, ch, channels)]
  {
    AtBefore(k, ch, channels, inFrames);
    Multiple(k, rate);
    if k + 1 < inFrames {
      AtBefore(k + 1, ch, channels, inFrames);
      NoBlend(input[At(k, ch, channels)], input[At(k + 1, ch, channels)], rate);
    }
  }

  lemma NoBlend(a: Sample, b: Sample, den: Positive)
    ensures Blend(a, b, 0, den) == a
  {
    var m: int := a;
    if m >= 0 {
      Multiple(m, den);
    } else {
      Multiple(0 - m, den);
      assert (0 - m) * den == -(m * den);
    }
  }

  lemma SameRateCount(inFrames: nat, rate: Positive)
    ensures CeilDiv(inFrames * rate, rate) == inFrames
  {
    CeilDivMeaning(inFrames * rate, rate, inFrames);
    if inFrames > 0 {
      Cancel(inFrames - 1, inFrames, rate);
      CeilDivMeaning(inFrames * rate, rate, inFrames - 1);
    }
  }

  /** The `frame`th output frame is done, and nothing else has changed. */
  ghost predicate FrameAdded(before: seq<Sample>, after: seq<Sample>, frame: nat, input: seq<Sample>, inFrames: nat,
                             channels: nat, inRate: Positive, outRate: Positive)
    requires inFrames * channels <= |input|
  {
    |after| == |before| && frame * channels + channels <= |before| &&
    after[..frame * channels] == before[..frame * channels] &&
    after[frame * channels + channels..] == before[frame * channels + channels..] &&
    forall ch :: 0 <= ch < channels ==> RenderedAt(after, frame, ch, input, inFrames, channels, inRate, outRate)
  }

  lemma RenderedExtends(before: seq<Sample>, after: seq<Sample>, frame: nat, input: seq<Sample>, inFrames: nat,
                        channels: nat, inRate: Positive, outRate: Positive)
    requires inFrames * channels <= |input|
    requires Rendered(before, frame, input, inFrames, channels, inRate, outRate)
    requires FrameAdded(before, after, frame, input, inFrames, channels, inRate, outRate)
    requires frame < CeilDiv(inFrames * outRate, inRate)
    ensures Rendered(after, frame + 1, input, inFrames, channels, inRate, outRate)
  {
    assert (frame + 1) * channels == frame * channels + channels;
    forall k, ch | 0 <= k < frame + 1 && 0 <= ch < channels
      ensures RenderedAt(after, k, ch, input, inFrames, channels, inRate, outRate)
    {
      if k < frame {
        assert RenderedAt(before, k, ch, input, inFrames, channels, inRate, outRate);
        AtBefore(k, ch, channels, frame);
        assert after[..frame * channels][At(k, ch, channels)] == before[..frame * channels][At(k, ch, channels)];
      }
    }
  }

  lemma RepeatRendered(out: seq<Sample>, input: seq<Sample>, inFrames: nat, channels: nat, inRate: Positive,
                       outRate: Positive, k: nat, ch: nat)
    requires inFrames * channels <= |input| && ch < channels
    requires SourceFrame(k, inRate, outRate) + 1 == inFrames && At(k, ch, channels) < |out|
    requires var from := At(SourceFrame(k, inRate, outRate), ch, channels);
      from < |input| && out[At(k, ch, channels)] == input[from]
    ensures RenderedAt(out, k, ch, input, inFrames, channels, inRate, outRate)
  {
    hide At, SourceFrame, Blend;
  }

  lemma BlendRendered(out: seq<Sample>, input: seq<Sample>, inFrames: nat, channels: nat, inRate: Positive,
                      outRate: Positive, k: nat, ch: nat)
    requires inFrames * channels <= |input| && ch < channels
    requires SourceFrame(k, inRate, outRate) + 1 < inFrames && At(k, ch, channels) < |out|
    requires At(SourceFrame(k, inRate, outRate), ch, channels) < |input|
    requires At(SourceFrame(k, inRate, outRate) + 1, ch, channels) < |input|
    requires out[At(k, ch, channels)] == Blend(input[At(SourceFrame(k, inRate, outRate), ch, channels)],
      input[At(SourceFrame(k, inRate, outRate) + 1, ch, channels)], k * inRate % outRate, outRate)
    ensures RenderedAt(out, k, ch, input, inFrames, channels, inRate, outRate)
  {
    hide At, SourceFrame, Blend;
  }

  /** The last input frame has no successor: it is repeated. */
  method RepeatFrame(input: array<Sample>, inFrames: nat, channels: nat, inRate: Positive, outRate: Positive,
                     out: array<Sample>, frame: nat)
    requires input != out && inFrames * channels <= input.Length
    requires frame * channels + channels <= out.Length
    requires SourceFrame(frame, inRate, outRate) + 1 == inFrames
    modifies out
    ensures FrameAdded(old(out[..]), out[..], frame, input[..], inFrames, channels, inRate, outRate)
  {
    hide RenderedAt, SourceFrame, Interpolated;
    var to, from := frame * channels, SourceFrame(frame, inRate, outRate) * channels;
    assert from + channels == inFrames * channels;
    for channel := 0 to channels
      invariant out[..to] == old(out[..])[..to]
      invariant out[to + channels..] == old(out[..])[to + channels..]
      invariant forall j :: to <= j < to + channel ==> out[j] == input[from + (j - to)]
    {
      out[to + channel] := input[from + channel];
    }
    forall ch | 0 <= ch < channels
      ensures RenderedAt(out[..], frame, ch, input[..], inFrames, channels, inRate, outRate)
    {
      assert At(frame, ch, channels) == to + ch && At(SourceFrame(frame, inRate, outRate), ch, channels) == from + ch;
      RepeatRendered(out[..], input[..], inFrames, channels, inRate, outRate, frame, ch);
    }
  }

  method BlendFrame(input: array<Sample>, inFrames: nat, channels: nat, inRate: Positive, outRate: Positive,
                    out: array<Sample>, frame: nat)
    requires input != out && inFrames * channels <= input.Length
    requires frame * channels + channels <= out.Length
    requires SourceFrame(frame, inRate, outRate) + 1 < inFrames
    modifies out
    ensures FrameAdded(old(out[..]), out[..], frame, input[..], inFrames, channels, inRate, outRate)
  {
    hide RenderedAt, SourceFrame, Interpolated, Blend;
    var source := SourceFrame(frame, inRate, outRate);
    var to, from, next := frame * channels, source * channels, (source + 1) * channels;
    var fraction := frame * inRate % outRate;
    assert next == from + channels;
    AtBefore(source + 1, 0, channels + 1, inFrames);
    MulMonotone(source + 2, inFrames, channels);
    assert (source + 2) * channels == next + channels;
    for channel := 0 to channels
      invariant out[..to] == old(out[..])[..to]
      invariant out[to + channels..] == old(out[..])[to + channels..]
      invariant forall j :: to <= j < to + channel ==>
        (out[j] == Blend(input[from + (j - to)], input[next + (j - to)], fraction, outRate))
    {
      out[to + channel] := Blend(input[from + channel], input[next + channel], fraction, outRate);
    }
    forall ch | 0 <= ch < channels
      ensures RenderedAt(out[..], frame, ch, input[..], inFrames, channels, inRate, outRate)
    {
      assert At(frame, ch, channels) == to + ch && At(source, ch, channels) == from + ch;
      assert At(source + 1, ch, channels) == next + ch;
      BlendRendered(out[..], input[..], inFrames, channels, inRate, outRate, frame, ch);
    }
  }

  /** Converts up to `capacity` frames. Every output sample is the one that linear interpolation gives, also on the
    path that only copies, and nothing behind the last frame is written. */
  method Resample(input: array<Sample>, inFrames: nat, channels: nat, inRate: Positive, outRate: Positive,
                  out: array<Sample>, capacity: nat)
    returns (outFrames: nat)
    requires input != out
    requires inFrames * channels <= input.Length && capacity * channels <= out.Length
    modifies out
    ensures outFrames == FrameCount(inFrames, inRate, outRate, capacity)
    ensures Rendered(out[..], outFrames, input[..], inFrames, channels, inRate, outRate)
    ensures out[outFrames * channels..] == old(out[..])[outFrames * channels..]
  {
    hide Rendered, RenderedAt, CeilDiv;
    NothingRendered(out[..], input[..], inFrames, channels, inRate, outRate);
    if inRate == outRate {
      outFrames := if inFrames < capacity then inFrames else capacity;
      MulMonotone(outFrames, inFrames, channels);
      MulMonotone(outFrames, capacity, channels);
      forall j | 0 <= j < outFrames * channels {
        out[j] := input[j];
      }
      CopyRenders(input[..], out[..], inFrames, channels, inRate, outFrames);
      return;
    }
    if inFrames == 0 {
      CeilDivMeaning(0, inRate, 0);
      return 0;
    }
    outFrames := 0;
    while outFrames < capacity
      invariant 0 <= outFrames <= capacity && outFrames * channels <= out.Length
      invariant outFrames <= CeilDiv(inFrames * outRate, inRate)
      invariant Rendered(out[..], outFrames, input[..], inFrames, channels, inRate, outRate)
      invariant out[outFrames * channels..] == old(out[..])[outFrames * channels..]
    {
      ghost var before := out[..];
      MulMonotone(outFrames + 1, capacity, channels);
      assert (outFrames + 1) * channels == outFrames * channels + channels;
      var done := RenderFrame(input, inFrames, channels, inRate, outRate, out, outFrames);
      if !done { break; }
      TailKept(before, out[..], old(out[..]), outFrames * channels, channels);
      outFrames := outFrames + 1;
    }
  }

  /** One round of the loop of resample_s16. It ends the loop at the first position behind the input. */
  method RenderFrame(input: array<Sample>, inFrames: nat, channels: nat, inRate: Positive, outRate: Positive,
                     out: array<Sample>, frame: nat)
    returns (done: bool)
    requires input != out && inFrames * channels <= input.Length
    requires frame * channels + channels <= out.Length
    requires Rendered(out[..], frame, input[..], inFrames, channels, inRate, outRate)
    modifies out
    ensures done <==> frame < CeilDiv(inFrames * outRate, inRate)
    ensures done ==> Rendered(out[..], frame + 1, input[..], inFrames, channels, inRate, outRate)
    ensures done ==> out[frame * channels + channels..] == old(out[..])[frame * channels + channels..]
    ensures !done ==> out[..] == old(out[..])
  {
    hide Rendered, RenderedAt, CeilDiv;
    var source := frame * inRate / outRate;
    SourceFrameInRange(frame, inFrames, inRate, outRate);
    if source + 1 >= inFrames {
      if source >= inFrames {
        return false;
      }
      RepeatFrame(input, inFrames, channels, inRate, outRate, out, frame);
    } else {
      BlendFrame(input, inFrames, channels, inRate, outRate, out, frame);
    }
    RenderedExtends(old(out[..]), out[..], frame, input[..], inFrames, channels, inRate, outRate);
    return true;
  }

  lemma NothingRendered(out: seq<Sample>, input: seq<Sample>, inFrames: nat, channels: nat, inRate: Positive,
                        outRate: Positive)
    requires inFrames * channels <= |input|
    ensures Rendered(out, 0, input, inFrames, channels, inRate, outRate)
    ensures 0 <= CeilDiv(inFrames * outRate, inRate)
  {
  }

  lemma CopyRenders(input: seq<Sample>, out: seq<Sample>, inFrames: nat, channels: nat, rate: Positive, frames: nat)
    requires frames <= inFrames && inFrames * channels <= |input| && frames * channels <= |out|
    requires frames * channels <= |input| && out[..frames * channels] == input[..frames * channels]
    ensures Rendered(out, frames, input, inFrames, channels, rate, rate)
    ensures CeilDiv(inFrames * rate, rate) == inFrames
  {
    SameRateCount(inFrames, rate);
    forall k, ch | 0 <= k < frames && 0 <= ch < channels
      ensures RenderedAt(out, k, ch, input, inFrames, channels, rate, rate)
    {
      SameRate(input, inFrames, channels, rate, k, ch);
      AtBefore(k, ch, channels, frames);
      assert out[..frames * channels][At(k, ch, channels)] == input[..frames * channels][At(k, ch, channels)];
    }
  }

  // ---------------------------------------------------------------------------------------------
  // What the resampler promises

  /** Each output sample lies between its two neighbours in the input, and is exactly the input sample where the two
    rates meet. */
  lemma BetweenNeighbours(input: seq<Sample>, inFrames: nat, channels: nat, inRate: Positive, outRate: Positive,
                          k: nat, ch: nat)
    requires inFrames * channels <= |input| && ch < channels && SourceFrame(k, inRate, outRate) < inFrames
    ensures var i := SourceFrame(k, inRate, outRate);
      var r := Interpolated(input, inFrames, channels, inRate, outRate, k, ch);
      At(i, ch, channels) < |input| &&
      (k * inRate % outRate == 0 || i + 1 >= inFrames ==> r == input[At(i, ch, channels)]) &&
      (i + 1 < inFrames ==> At(i + 1, ch, channels) < |input| &&
                            Between(r, input[At(i, ch, channels)], input[At(i + 1, ch, channels)]))
  {
    var i := SourceFrame(k, inRate, outRate);
    AtBefore(i, ch, channels, inFrames);
    if i + 1 < inFrames {
      AtBefore(i + 1, ch, channels, inFrames);
      NoBlend(input[At(i, ch, channels)], input[At(i + 1, ch, channels)], outRate);
    }
  }

  predicate Between(r: int, a: int, b: int) {
    a <= r <= b || b <= r <= a
  }

  /** Within one unit of the straight line from `a` to `b`, on the side of zero. */
  lemma OnTheLine(a: Sample, b: Sample, num: nat, den: Positive)
    requires num < den
    ensures var r, exact := Blend(a, b, num, den) * den, a * (den - num) + b * num;
      (exact >= 0 ==> r <= exact < r + den) && (exact <= 0 ==> r - den < exact <= r)
  {
    var exact := a * den + (b - a) * num;
    assert exact == a * (den - num) + b * num;
    TruncDivMeaning(exact, den);
  }

  /** Frames that read_stream asks the codec for, and the room that write_stream makes for the codec's frames. */
  function CodecFrames(appFrames: nat, codecRate: Positive, appRate: Positive): nat
  {
    appFrames * codecRate / appRate + 2
  }

  lemma ReadReaches(requested: nat, codecRate: Positive, appRate: Positive, k: nat)
    requires k < requested
    ensures SourceFrame(k, codecRate, appRate) + 1 < CodecFrames(requested, codecRate, appRate)
  {
    var i := SourceFrame(k, codecRate, appRate);
    DivMeaning(k * codecRate, appRate, i);
    MulMonotone(k, requested, codecRate);
    DivMeaning(requested * codecRate, appRate, i);
  }

  /** A read that the codec serves in full yields all the frames that the app asked for, and every one of them lies
    between two frames that were read: none repeats the last one. */
  lemma FullReadIsEnough(requested: nat, codecRate: Positive, appRate: Positive)
    ensures FrameCount(CodecFrames(requested, codecRate, appRate), codecRate, appRate, requested) == requested
    ensures forall k :: 0 <= k < requested ==>
      SourceFrame(k, codecRate, appRate) + 1 < CodecFrames(requested, codecRate, appRate)
  {
    hide SourceFrame, CodecFrames, CeilDiv;
    var got := CodecFrames(requested, codecRate, appRate);
    forall k | 0 <= k < requested ensures SourceFrame(k, codecRate, appRate) + 1 < got {
      ReadReaches(requested, codecRate, appRate, k);
    }
    if requested > 0 { SourceFrameInRange(requested - 1, got, codecRate, appRate); }
  }

  /** With one frame less a read repeats the last frame exactly when the position after the last requested frame is not
    in a new codec frame yet: never when the codec is the faster one, and at other rates for some requests. */
  lemma OneFrameLessRepeats(requested: nat, codecRate: Positive, appRate: Positive)
    ensures (exists k: nat ::
               k < requested &&
                 SourceFrame(k, codecRate, appRate) + 1 >= CodecFrames(requested, codecRate, appRate) - 1)
            <==> requested > 0 && requested * codecRate % appRate >= codecRate
  {
    var q, r := requested * codecRate / appRate, requested * codecRate % appRate;
    assert requested * codecRate == q * appRate + r;
    forall k: nat | k < requested
      ensures SourceFrame(k, codecRate, appRate) >= q ==> r >= codecRate
    {
      MulMonotone(k, requested - 1, codecRate);
      assert (requested - 1) * codecRate == requested * codecRate - codecRate;
      DivMeaning(k * codecRate, appRate, q);
    }
    if requested > 0 && r >= codecRate {
      assert (requested - 1) * codecRate == requested * codecRate - codecRate;
      DivMeaning((requested - 1) * codecRate, appRate, q);
      assert SourceFrame(requested - 1, codecRate, appRate) >= q;
    }
  }

  /** On a write the buffer is never the limit: frames come out up to the end of the input. */
  lemma WriteConsumesEverything(appFrames: nat, codecRate: Positive, appRate: Positive)
    ensures var n := FrameCount(appFrames, appRate, codecRate, CodecFrames(appFrames, codecRate, appRate));
      n == CeilDiv(appFrames * codecRate, appRate) &&
      (forall k :: 0 <= k < n ==> SourceFrame(k, appRate, codecRate) < appFrames) &&
      SourceFrame(n, appRate, codecRate) >= appFrames
  {
    var all := CeilDiv(appFrames * codecRate, appRate);
    var capacity := CodecFrames(appFrames, codecRate, appRate);
    if capacity < all {
      CeilDivMeaning(appFrames * codecRate, appRate, capacity);
      DivMeaning(appFrames * codecRate, appRate, capacity);
      assert false;
    }
    forall k: nat ensures SourceFrame(k, appRate, codecRate) < appFrames <==> k < all {
      SourceFrameInRange(k, appFrames, appRate, codecRate);
    }
  }

  // ---------------------------------------------------------------------------------------------
  // read_stream and write_stream, where a conversion is needed

  /** bytes_per_frame and codec_bytes_per_frame, which are of type uint8_t. */
  function FrameSize(channels: nat): nat {
    Byte(2 * channels)
  }

  /** What read_stream comes to: so many bytes, an error, or a division by the codec's frame size where that is zero. */
  datatype Outcome = Bytes(n: nat) | InvalidState | DivisionByZero

  /** With 16-bit samples it holds the size of a frame up to 127 channels, and for 128 it is zero. */
  lemma FrameSizeFits(channels: nat)
    requires 0 < channels < 256
    ensures FrameSize(channels) == 2 * channels <==> channels <= 127
    ensures FrameSize(channels) == 0 <==> channels == 128
  {
  }

  lemma OneFrameTooMany(bytes: nat, size: Positive, frames: nat)
    requires frames == Quotient(bytes, size) && frames > 0 && size < 256
    ensures frames * (size + 256) > bytes
  {
    DivMeaning(bytes, size, frames + 1);
    hide Quotient;
    assert (frames + 1) * size == frames * size + size;
    assert frames * (size + 256) == frames * size + frames * 256;
  }

  /** From 129 channels on the frames that are taken to be in a buffer never are: as soon as there is one, they need
    more than the buffer has. Up to 127 channels they fit. */
  lemma FramesFitExactly(channels: nat, bytes: nat)
    requires 0 < channels < 256 && channels != 128
    ensures Quotient(bytes, FrameSize(channels)) * (2 * channels) <= bytes
            <==> channels <= 127 || Quotient(bytes, FrameSize(channels)) == 0
  {
    FrameSizeFits(channels);
    var size := FrameSize(channels);
    var frames := Quotient(bytes, size);
    QuotientFits(bytes, size);
    assert channels > 127 ==> 2 * channels == size + 256;
    hide FrameSize, Quotient;
    if channels > 127 && frames > 0 { OneFrameTooMany(bytes, size, frames); }
  }

  lemma RenderedFromPrefix(out: seq<Sample>, frames: nat, input: seq<Sample>, longer: seq<Sample>, inFrames: nat,
                           channels: nat, inRate: Positive, outRate: Positive)
    requires inFrames * channels <= |input| <= |longer| && longer[..|input|] == input
    requires Rendered(out, frames, longer, inFrames, channels, inRate, outRate)
    ensures Rendered(out, frames, input, inFrames, channels, inRate, outRate)
  {
    hide Blend, SourceFrame;
    forall k, ch | 0 <= k < frames && 0 <= ch < channels
      ensures RenderedAt(out, k, ch, input, inFrames, channels, inRate, outRate)
    {
      assert RenderedAt(out, k, ch, longer, inFrames, channels, inRate, outRate);
      var i := SourceFrame(k, inRate, outRate);
      AtBefore(i, ch, channels, inFrames);
      assert longer[At(i, ch, channels)] == input[At(i, ch, channels)];
      if i + 1 < inFrames {
        AtBefore(i + 1, ch, channels, inFrames);
        assert longer[At(i + 1, ch, channels)] == input[At(i + 1, ch, channels)];
      }
    }
  }

  /** The conversion scratch of a stream handle. */
  class StreamConverter {
    const appRate: Positive
    const appChannels: nat
    const codecRate: Positive
    const codecChannels: nat
    var codecBuffer: array<Sample>
    var convertBuffer: array<Sample>

    ghost predicate Valid()
      reads this
    {
      0 < appChannels < 256 && 0 < codecChannels < 256 && codecBuffer != convertBuffer
    }

    constructor (appRate: Positive, appChannels: nat, codecRate: Positive, codecChannels: nat)
      requires 0 < appChannels < 256 && 0 < codecChannels < 256
      ensures Valid() && fresh(codecBuffer) && fresh(convertBuffer)
      ensures this.appRate == appRate && this.appChannels == appChannels
      ensures this.codecRate == codecRate && this.codecChannels == codecChannels
    {
      this.appRate, this.appChannels := appRate, appChannels;
      this.codecRate, this.codecChannels := codecRate, codecChannels;
      codecBuffer := new Sample[0];
      new;
      convertBuffer := new Sample[0];
    }

    /** std::vector::resize, where the buffer is too small. */
    static method Grown(buffer: array<Sample>, needed: nat) returns (r: array<Sample>)
      ensures r == buffer || fresh(r)
      ensures r.Length >= needed && r.Length >= buffer.Length && r[..buffer.Length] == buffer[..]
    {
      if buffer.Length >= needed { return buffer; }
      r := new Sample[needed];
      forall j | 0 <= j < needed {
        r[j] := if j < buffer.Length then buffer[j] else 0;
      }
    }

    /** The frames in the other channel count: `source` itself where the counts agree, else in the convert buffer. */
    method ConvertStage(source: array<Sample>, frames: nat, channelsIn: Positive, channelsOut: nat)
      returns (r: array<Sample>)
      requires source != convertBuffer && frames * channelsIn <= source.Length
      requires 0 < channelsIn <= 127 && 0 < channelsOut <= 127
      modifies this`convertBuffer, convertBuffer
      ensures convertBuffer == old(convertBuffer) || fresh(convertBuffer)
      ensures r == source || r == convertBuffer
      ensures r == convertBuffer ==> r != source
      ensures source[..] == old(source[..])
      ensures frames * channelsOut <= r.Length
      ensures r[..frames * channelsOut] == ConvertAll(source[..], frames, channelsIn, channelsOut)
    {
      hide Converted, ConvertAll;
      r := source;
      if channelsIn != channelsOut {
        convertBuffer := Grown(convertBuffer, frames * channelsOut);
        GcdIsSmall(channelsOut, 256);
        ConvertChannels(source, frames, channelsIn, convertBuffer, channelsOut);
        r := convertBuffer;
      } else {
        CopyConverts(source[..], frames, channelsIn, source[..]);
      }
      ConvertedIsConvertAll(source[..], frames, channelsIn, r[..], channelsOut);
    }

    /** resample_s16 on a buffer of which the first `inFrames` frames, `used`, are in use. */
    static method ResampleStage(source: array<Sample>, ghost used: seq<Sample>, inFrames: nat, channels: nat,
                                inRate: Positive, outRate: Positive, out: array<Sample>, capacity: nat)
      returns (frames: nat)
      requires source != out
      requires inFrames * channels <= source.Length && capacity * channels <= out.Length
      requires used == source[..inFrames * channels]
      modifies out
      ensures frames == FrameCount(inFrames, inRate, outRate, capacity)
      ensures Rendered(out[..], frames, used, inFrames, channels, inRate, outRate)
      ensures out[frames * channels..] == old(out[..])[frames * channels..]
    {
      hide Rendered, FrameCount;
      frames := Resample(source, inFrames, channels, inRate, outRate, out, capacity);
      RenderedFromPrefix(out[..], frames, used, source[..], inFrames, channels, inRate, outRate);
    }

    /** audio_codec_read into a codec buffer of sufficient size. */
    method Receive(delivered: seq<Sample>, needed: nat)
      requires |delivered| <= needed && codecBuffer != convertBuffer
      modifies this`codecBuffer, codecBuffer
      ensures codecBuffer == old(codecBuffer) || fresh(codecBuffer)
      ensures codecBuffer != convertBuffer
      ensures |delivered| <= codecBuffer.Length && codecBuffer[..|delivered|] == delivered
    {
      codecBuffer := Grown(codecBuffer, needed);
      forall j | 0 <= j < |delivered| {
        codecBuffer[j] := delivered[j];
      }
    }

    /** Both frame sizes are what they should be. */
    predicate FrameSizesFit() {
      appChannels <= 127 && codecChannels <= 127
    }

    /** `delivered` is what the codec hands over, at most the frames asked for. The app gets the conversion of that to
      its channels and its rate; all that it requested, if the codec served the read in full. */
    method Read(requested: nat, delivered: seq<Sample>, out: array<Sample>) returns (frames: nat)
      requires Valid() && !PassesThrough() && FrameSizesFit()
      requires |delivered| <= CodecFrames(requested, codecRate, appRate) * codecChannels
      requires requested * appChannels <= out.Length && out != codecBuffer && out != convertBuffer
      modifies this, codecBuffer, convertBuffer, out
      ensures Valid()
      ensures FramesRead(delivered) * codecChannels <= |delivered|
      ensures frames == FrameCount(FramesRead(delivered), codecRate, appRate, requested)
      ensures Rendered(out[..], frames, ConvertAll(delivered, FramesRead(delivered), codecChannels, appChannels),
                       FramesRead(delivered), appChannels, codecRate, appRate)
      ensures |delivered| == CodecFrames(requested, codecRate, appRate) * codecChannels ==> frames == requested
      ensures out[frames * appChannels..] == old(out[..])[frames * appChannels..]
    {
      hide Rendered, ConvertAll, FrameCount;
      var codecFrames := requested * codecRate / appRate + 2;
      Receive(delivered, codecFrames * codecChannels);
      var got := FramesRead(delivered);
      DivMeaning(|delivered|, codecChannels, got);
      var source := ConvertStage(codecBuffer, got, codecChannels, appChannels);
      assert out[..] == old(out[..]);
      assert codecBuffer[..got * codecChannels] == delivered[..got * codecChannels];
      ConvertAllPrefix(delivered, codecBuffer[..], got, codecChannels, appChannels);
      ghost var used := ConvertAll(delivered, got, codecChannels, appChannels);
      frames := ResampleStage(source, used, got, appChannels, codecRate, appRate, out, requested);
      if |delivered| == codecFrames * codecChannels {
        Multiple(codecFrames, codecChannels);
        FullReadIsEnough(requested, codecRate, appRate);
      }
    }

    function FramesRead(delivered: seq<Sample>): nat
      requires codecChannels > 0
    {
      |delivered| / codecChannels
    }

    predicate PassesThrough() {
      appRate == codecRate && appChannels == codecChannels
    }

    /** The frames that a buffer of the app is taken to hold. */
    function AppFrames(dataSize: nat): nat
      requires FrameSize(appChannels) > 0
    {
      Quotient(dataSize, FrameSize(appChannels))
    }

    lemma AppFramesFit(dataSize: nat)
      requires 0 < appChannels <= 127
      ensures 2 * (AppFrames(dataSize) * appChannels) <= dataSize
    {
      var frames := AppFrames(dataSize);
      QuotientFits(dataSize, 2 * appChannels);
      assert 2 * (frames * appChannels) == frames * (2 * appChannels);
    }

    /** A buffer is taken to hold as many frames as their size fits into it, and data are passed through exactly if rate
      and channels are those of the codec. */
    lemma WholeFrames(dataSize: nat, delivered: seq<Sample>)
      requires 0 < appChannels <= 127 && codecChannels > 0
      ensures forall k: nat :: k <= AppFrames(dataSize) <==> k * (2 * appChannels) <= dataSize
      ensures forall k: nat :: k <= FramesRead(delivered) <==> k * codecChannels <= |delivered|
      ensures Converts(dataSize) <==>
        dataSize >= 2 * appChannels && (appRate != codecRate || appChannels != codecChannels)
    {
      hide Quotient;
      FrameSizeFits(appChannels);
      forall k: nat ensures k <= AppFrames(dataSize) <==> k * (2 * appChannels) <= dataSize {
        QuotientFits(dataSize, 2 * appChannels);
        if k <= AppFrames(dataSize) { MulMonotone(k, AppFrames(dataSize), 2 * appChannels); }
      }
      forall k: nat ensures k <= FramesRead(delivered) <==> k * codecChannels <= |delivered| {
        DivMeaning(|delivered|, codecChannels, k);
      }
      assert 1 <= AppFrames(dataSize) <==> 1 * (2 * appChannels) <= dataSize;
    }

    /** A read or write of this size is served, and samples are converted for it. */
    predicate Converts(dataSize: nat) {
      FrameSize(appChannels) > 0 && AppFrames(dataSize) > 0 && !PassesThrough()
    }

    /** read_stream in bytes, for a codec that delivers some samples: they are passed through where nothing is to be
      converted. A frame size of the app that comes out as zero is refused; one of the codec divides the bytes that it
      delivered. */
    method ReadStream(dataSize: nat, delivered: seq<Sample>, out: array<Sample>) returns (r: Outcome)
      requires Valid() && dataSize <= 2 * out.Length && out != codecBuffer && out != convertBuffer
      requires PassesThrough() ==> 2 * |delivered| <= dataSize
      requires Converts(dataSize) && codecChannels != 128 ==>
        FrameSizesFit() && |delivered| <= CodecFrames(AppFrames(dataSize), codecRate, appRate) * codecChannels
      modifies this, codecBuffer, convertBuffer, out
      ensures Valid()
      ensures r == InvalidState <==> appChannels == 128
      ensures r == DivisionByZero <==> codecChannels == 128 && Converts(dataSize)
      ensures appChannels == 128 || AppFrames(dataSize) == 0 ==> r in {InvalidState, Bytes(0)}
      ensures appChannels == 128 || AppFrames(dataSize) == 0 || r == DivisionByZero ==> out[..] == old(out[..])
      ensures appChannels != 128 && AppFrames(dataSize) > 0 && PassesThrough() ==>
        r == Bytes(2 * |delivered|) && |delivered| <= out.Length && out[..] == delivered + old(out[..])[|delivered|..]
      ensures Converts(dataSize) && codecChannels != 128 ==> exists frames: nat ::
        r == Bytes(2 * (appChannels * frames)) && Reads(frames, AppFrames(dataSize), delivered, out[..])
      ensures Converts(dataSize) && codecChannels != 128 ==>
        (|delivered| == CodecFrames(AppFrames(dataSize), codecRate, appRate) * codecChannels ==>
           r == Bytes(2 * (appChannels * AppFrames(dataSize))))
    {
      FrameSizeFits(appChannels);
      FrameSizeFits(codecChannels);
      hide Rendered, ConvertAll, FrameCount, CodecFrames, FrameSize, Quotient;
      if FrameSize(appChannels) == 0 { return InvalidState; }
      var requested := AppFrames(dataSize);
      if requested == 0 { return Bytes(0); }
      if PassesThrough() {
        forall j | 0 <= j < |delivered| {
          out[j] := delivered[j];
        }
        return Bytes(2 * |delivered|);
      }
      if FrameSize(codecChannels) == 0 { return DivisionByZero; }
      AppFramesFit(dataSize);
      var frames := Read(requested, delivered, out);
      assert Reads(frames, requested, delivered, out[..]);
      r := Bytes(2 * (appChannels * frames));
    }

    /** The app's buffer holds the conversion of what was delivered. */
    ghost predicate Reads(frames: nat, requested: nat, delivered: seq<Sample>, out: seq<Sample>) {
      codecChannels > 0 && FramesRead(delivered) * codecChannels <= |delivered| &&
      frames == FrameCount(FramesRead(delivered), codecRate, appRate, requested) &&
      Rendered(out, frames, ConvertAll(delivered, FramesRead(delivered), codecChannels, appChannels),
               FramesRead(delivered), appChannels, codecRate, appRate)
    }

    /** write_stream up to the call of the codec: the buffer that is handed over and how many samples of it. */
    method WriteStream(dataSize: nat, input: array<Sample>) returns (handed: Option<array<Sample>>, count: nat)
      requires Valid() && dataSize <= 2 * input.Length && input != codecBuffer && input != convertBuffer
      requires Converts(dataSize) ==> FrameSizesFit()
      modifies this, codecBuffer, convertBuffer
      ensures Valid() && input[..] == old(input[..])
      ensures handed == None <==> appChannels == 128
      ensures appChannels == 128 || AppFrames(dataSize) == 0 ==> count == 0
      ensures appChannels != 128 && AppFrames(dataSize) > 0 && PassesThrough() ==>
        handed == Some(input) && count == dataSize / 2
      ensures Converts(dataSize) ==>
        handed == Some(codecBuffer) && count == CeilDiv(AppFrames(dataSize) * codecRate, appRate) * codecChannels &&
        AppFrames(dataSize) * appChannels <= input.Length &&
        Rendered(codecBuffer[..], CeilDiv(AppFrames(dataSize) * codecRate, appRate),
                 ConvertAll(input[..], AppFrames(dataSize), appChannels, codecChannels),
                 AppFrames(dataSize), codecChannels, appRate, codecRate)
    {
      FrameSizeFits(appChannels);
      hide Rendered, ConvertAll, FrameCount, CeilDiv, FrameSize, Quotient;
      if FrameSize(appChannels) == 0 { return None, 0; }
      var frames := AppFrames(dataSize);
      if frames == 0 { return Some(input), 0; }
      if PassesThrough() { return Some(input), dataSize / 2; }
      AppFramesFit(dataSize);
      var n := Write(input, frames);
      return Some(codecBuffer), n * codecChannels;
    }

    /** The whole input is converted to the codec's channels and rate, and lies at the front of the buffer that is
      handed to the codec. */
    method Write(input: array<Sample>, inFrames: nat) returns (frames: nat)
      requires Valid() && !PassesThrough() && FrameSizesFit()
      requires inFrames * appChannels <= input.Length && input != codecBuffer && input != convertBuffer
      modifies this, codecBuffer, convertBuffer
      ensures Valid() && input[..] == old(input[..])
      ensures frames == CeilDiv(inFrames * codecRate, appRate)
      ensures Rendered(codecBuffer[..], frames, ConvertAll(input[..], inFrames, appChannels, codecChannels), inFrames,
                       codecChannels, appRate, codecRate)
    {
      hide Rendered, ConvertAll, FrameCount, CodecFrames, CeilDiv;
      var source := ConvertStage(input, inFrames, appChannels, codecChannels);
      ghost var used := ConvertAll(input[..], inFrames, appChannels, codecChannels);
      var capacity := CodecFrames(inFrames, codecRate, appRate);
      codecBuffer := Grown(codecBuffer, capacity * codecChannels);
      WriteConsumesEverything(inFrames, codecRate, appRate);
      if codecRate == appRate {
        frames := inFrames;
        SameRateCount(inFrames, appRate);
        RoomAtSameRate(inFrames, codecChannels, appRate);
        forall j | 0 <= j < inFrames * codecChannels {
          codecBuffer[j] := source[j];
        }
        assert used == source[..inFrames * codecChannels];
        CopyRenders(used, codecBuffer[..], inFrames, codecChannels, codecRate, inFrames);
      } else {
        frames := ResampleStage(source, used, inFrames, codecChannels, appRate, codecRate, codecBuffer, capacity);
      }
    }
  }

  lemma RoomAtSameRate(frames: nat, channels: nat, rate: Positive)
    ensures frames * channels <= CodecFrames(frames, rate, rate) * channels
  {
    Multiple(frames, rate);
    MulMonotone(frames, CodecFrames(frames, rate, rate), channels);
  }
}
