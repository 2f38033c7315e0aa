/** Channel conversion between an app and its codec: convert_channels_s16 in audio_stream.cpp, with the 8-bit index of
  its downmix.
*/
module ChannelMix {
  import opened Samples

  /** The samples at `start`, `start + step`, and so on, added up. */
  function StrideSum(frame: seq<Sample>, start: nat, step: Positive): int
    decreases |frame| - start
  {
    if start >= |frame| then 0 else frame[start] + StrideSum(frame, start + step, step)
  }

  function StrideCount(length: nat, start: nat, step: Positive): nat
    decreases length - start
  {
    if start >= length then 0 else 1 + StrideCount(length, start + step, step)
  }

  lemma {:induction false} StrideSumBounds(frame: seq<Sample>, start: nat, step: Positive, lo: int, hi: int)
    requires forall v :: v in frame ==> lo <= v <= hi
    ensures var n := StrideCount(|frame|, start, step); lo * n <= StrideSum(frame, start, step) <= hi * n
    decreases |frame| - start
  {
    if start < |frame| {
      StrideSumBounds(frame, start + step, step, lo, hi);
      assert frame[start] in frame;
    }
  }

  function Average(frame: seq<Sample>, start: nat, step: Positive): Sample
    requires start < |frame|
  {
    StrideSumBounds(frame, start, step, -32768, 32767);
    TruncDivBetween(-32768, 32767, StrideSum(frame, start, step), StrideCount(|frame|, start, step));
    TruncDiv(StrideSum(frame, start, step), StrideCount(|frame|, start, step))
  }

  /** uint8_t addition. */
  function Byte(x: nat): nat {
    x % 256
  }

  lemma ByteSmall(x: nat)
    ensures x < 256 ==> Byte(x) == x
    ensures 256 <= x < 512 ==> Byte(x) == x - 256
  {
  }

  /** What the loop of one output channel adds up from an index on, in at most so many turns. */
  function LoopSum(frame: seq<Sample>, from: nat, step: nat, turns: nat): int
    decreases turns
  {
    if turns == 0 || from >= |frame| then 0
    else frame[from] + LoopSum(frame, Byte(from + step), step, turns - 1)
  }

  function LoopTurns(length: nat, from: nat, step: nat, turns: nat): (n: nat)
    ensures n <= turns && (from < length && turns > 0 ==> n > 0)
    decreases turns
  {
    if turns == 0 || from >= length then 0 else 1 + LoopTurns(length, Byte(from + step), step, turns - 1)
  }

  lemma {:induction false} LoopSumBounds(frame: seq<Sample>, from: nat, step: nat, turns: nat, lo: int, hi: int)
    requires forall v :: v in frame ==> lo <= v <= hi
    ensures var n := LoopTurns(|frame|, from, step, turns); lo * n <= LoopSum(frame, from, step, turns) <= hi * n
    decreases turns
  {
    hide Byte;
    if turns > 0 && from < |frame| {
      LoopSumBounds(frame, Byte(from + step), step, turns - 1, lo, hi);
      assert frame[from] in frame;
      var n := LoopTurns(|frame|, Byte(from + step), step, turns - 1);
      OneMore(lo, n);
      OneMore(hi, n);
    }
  }

  /** More turns than there are indices. */
  const MANY: nat := 256

  /** One output channel of a downmix: the truncated average of the channels that its loop comes by. */
  function Mixed(frame: seq<Sample>, channel: nat, step: nat): (r: Sample)
    requires channel < |frame|
  {
    LoopSumBounds(frame, channel, step, MANY, -32768, 32767);
    TruncDivBetween(-32768, 32767, LoopSum(frame, channel, step, MANY), LoopTurns(|frame|, channel, step, MANY));
    TruncDiv(LoopSum(frame, channel, step, MANY), LoopTurns(|frame|, channel, step, MANY))
  }

  function ConvertFrame(frame: seq<Sample>, channels: nat): (r: seq<Sample>)
    requires frame != []
    ensures |r| == channels
  {
    if channels < |frame| then seq(channels, ch requires 0 <= ch < channels => Mixed(frame, ch, channels))
    else seq(channels, ch requires 0 <= ch < channels => frame[ch % |frame|])
  }

  /** A mixed channel is never louder than the channels that go into it. */
  lemma MixedWithin(frame: seq<Sample>, channel: nat, step: nat, lo: int, hi: int)
    requires channel < |frame| && forall v :: v in frame ==> lo <= v <= hi
    ensures lo <= Mixed(frame, channel, step) <= hi
  {
    LoopSumBounds(frame, channel, step, MANY, lo, hi);
    TruncDivBetween(lo, hi, LoopSum(frame, channel, step, MANY), LoopTurns(|frame|, channel, step, MANY));
  }

  /** An averaged channel is never louder than the channels that go into it. */
  lemma AverageWithin(frame: seq<Sample>, start: nat, step: Positive, lo: int, hi: int)
    requires start < |frame| && forall v :: v in frame ==> lo <= v <= hi
    ensures lo <= Average(frame, start, step) <= hi
  {
    StrideSumBounds(frame, start, step, lo, hi);
    TruncDivBetween(lo, hi, StrideSum(frame, start, step), StrideCount(|frame|, start, step));
  }

  function Total(frame: seq<Sample>, start: nat): int
    decreases |frame| - start
  {
    if start >= |frame| then 0 else frame[start] + Total(frame, start + 1)
  }

  /** The sums of `n` output channels in a row. */
  function SumOfSums(frame: seq<Sample>, start: nat, n: nat, step: Positive): int
    decreases n
  {
    if n == 0 then 0 else StrideSum(frame, start, step) + SumOfSums(frame, start + 1, n - 1, step)
  }

  lemma {:induction false} SumOfSumsLast(frame: seq<Sample>, start: nat, n: nat, step: Positive)
    ensures SumOfSums(frame, start, n + 1, step) == SumOfSums(frame, start, n, step) + StrideSum(frame, start + n, step)
    decreases n
  {
    if n > 0 { SumOfSumsLast(frame, start + 1, n - 1, step); }
  }

  /** A downmix takes each source channel into exactly one output channel: the sums behind the output channels add up
    to the whole frame. */
  lemma {:induction false} DownmixTakesEachChannelOnce(frame: seq<Sample>, start: nat, step: Positive)
    ensures SumOfSums(frame, start, step, step) == Total(frame, start)
    decreases |frame| - start
  {
    if start >= |frame| {
      NothingBeyond(frame, start, step, step);
    } else {
      SumOfSumsLast(frame, start + 1, step - 1, step);
      DownmixTakesEachChannelOnce(frame, start + 1, step);
    }
  }

  lemma {:induction false} NothingBeyond(frame: seq<Sample>, start: nat, n: nat, step: Positive)
    requires start >= |frame|
    ensures SumOfSums(frame, start, n, step) == 0
    decreases n
  {
    if n > 0 { NothingBeyond(frame, start + 1, n - 1, step); }
  }

  lemma {:induction false} StrideOfCopies(frame: seq<Sample>, start: nat, step: Positive, v: int)
    requires forall j :: start <= j < |frame| && j % step == start % step ==> frame[j] == v
    ensures StrideSum(frame, start, step) == v * StrideCount(|frame|, start, step)
    decreases |frame| - start
  {
    if start < |frame| {
      SameResidue(start, step);
      StrideOfCopies(frame, start + step, step, v);
    }
  }

  function FrameOf(s: seq<Sample>, frame: nat, channels: nat): (r: seq<Sample>)
    requires frame * channels + channels <= |s|
    ensures |r| == channels
  {
    s[frame * channels..frame * channels + channels]
  }

  ghost predicate Converted(input: seq<Sample>, frames: nat, channelsIn: Positive, out: seq<Sample>, channelsOut: nat)
  {
    frames * channelsIn <= |input| && frames * channelsOut <= |out| &&
    forall f :: 0 <= f < frames ==> ConvertedAt(input, f, channelsIn, out, channelsOut)
  }

  ghost predicate ConvertedAt(input: seq<Sample>, f: nat, channelsIn: Positive, out: seq<Sample>, channelsOut: nat)
  {
    f * channelsIn + channelsIn <= |input| && f * channelsOut + channelsOut <= |out| &&
    FrameOf(out, f, channelsOut) == ConvertFrame(FrameOf(input, f, channelsIn), channelsOut)
  }

  // --- where the loop of an output ends

  /** The index after `n` turns of the loop. */
  function IndexAfter(channel: nat, step: nat, n: nat): nat {
    if n == 0 then channel else Byte(IndexAfter(channel, step, n - 1) + step)
  }

  /** The loop leaves the frame. */
  ghost predicate Ends(length: nat, channel: nat, step: nat) {
    exists n: nat :: IndexAfter(channel, step, n) >= length
  }

  lemma {:induction false} IndexIs(channel: nat, step: nat, n: nat)
    requires channel < 256
    ensures IndexAfter(channel, step, n) == (channel + n * step) % 256
  {
    if n > 0 {
      IndexIs(channel, step, n - 1);
      OneMore(step, n - 1);
      ByteOfSum(channel + (n - 1) * step, step);
    }
  }

  lemma ByteOfSum(x: nat, y: nat)
    ensures Byte(Byte(x) + y) == Byte(x + y)
  {
  }

  /** The index stays in the residue class of its channel. */
  lemma StaysInClass(channel: nat, step: Positive, n: nat)
    requires channel < 256
    ensures IndexAfter(channel, step, n) % Gcd(step, 256) == channel % Gcd(step, 256)
  {
    hide Gcd, IndexAfter;
    var g := Gcd(step, 256);
    var p, q := GcdDivides(step, 256);
    IndexIs(channel, step, n);
    assert n * (p * g) == n * p * g;
    ByteInClass(channel + n * step, channel, n * p, q, g);
  }

  /** And it comes by every index in that class. */
  lemma ComesBy(channel: nat, step: Positive, target: nat, d: int) returns (n: nat)
    requires channel < 256 && target < 256 && target == channel + d * Gcd(step, 256)
    ensures n < 256 && IndexAfter(channel, step, n) == target
  {
    hide Gcd, IndexAfter;
    var x, y := Bezout(step, 256);
    n := (d * x) % 256;
    IndexIs(channel, step, n);
    var q := d * x / 256;
    Combination(channel, step, target, d, x, y, Gcd(step, 256), n, q);
    ModuloSame(channel + n * step, target, -(d * y) - q * step, 256);
  }

  /** The loop of an output ends exactly if its class has an index behind the frame. */
  lemma EndsExactly(channelsIn: nat, channel: nat, channelsOut: Positive)
    requires channel < channelsOut < channelsIn < 256
    ensures Gcd(channelsOut, 256) > 0
    ensures Ends(channelsIn, channel, channelsOut) <==>
      channelsIn + Gcd(channelsOut, 256) <= 256 + channel % Gcd(channelsOut, 256)
  {
    hide Gcd, IndexAfter;
    var g := Gcd(channelsOut, 256);
    var p, q := GcdDivides(channelsOut, 256);
    if n: nat :| IndexAfter(channel, channelsOut, n) >= channelsIn {
      StaysInClass(channel, channelsOut, n);
      IndexIs(channel, channelsOut, n);
      LastInClass(IndexAfter(channel, channelsOut, n), g, q);
    }
    if channelsIn + g <= 256 + channel % g {
      var d := q - 1 - channel / g;
      ClassEnd(channel, g, q);
      var n := ComesBy(channel, channelsOut, 256 - g + channel % g, d);
    }
  }

  /** A downmix ends exactly if the channels that come in, and the greatest common divisor of 256 and the channels that
    go out, add up to at most 256. Otherwise the loop of its first output never ends. */
  lemma DownmixEndsExactly(channelsIn: nat, channelsOut: Positive)
    requires channelsOut < channelsIn < 256
    ensures (forall channel: nat :: channel < channelsOut ==> Ends(channelsIn, channel, channelsOut))
            <==> channelsIn + Gcd(channelsOut, 256) <= 256
    ensures Ends(channelsIn, 0, channelsOut) <==> channelsIn + Gcd(channelsOut, 256) <= 256
  {
    hide Ends, Gcd;
    forall channel: nat | channel < channelsOut
      ensures channelsIn + Gcd(channelsOut, 256) <= 256 ==> Ends(channelsIn, channel, channelsOut)
    {
      EndsExactly(channelsIn, channel, channelsOut);
    }
    EndsExactly(channelsIn, 0, channelsOut);
  }

  /** So a downmix of more than 128 channels to 128 never ends, nor one of 255 to 2, nor one of 193 to 192. */
  lemma DownmixesThatNeverEnd(channelsIn: nat)
    requires 128 < channelsIn < 256
    ensures !Ends(channelsIn, 0, 128) && !Ends(255, 0, 2) && !Ends(193, 0, 192)
  {
    DownmixEndsExactly(channelsIn, 128);
    DownmixEndsExactly(255, 2);
    DownmixEndsExactly(193, 192);
    assert Gcd(128, 256) == Gcd(256, 128) == Gcd(128, 0) == 128;
    assert Gcd(2, 256) == Gcd(256, 2) == Gcd(2, 0) == 2;
    assert Gcd(192, 256) == Gcd(256, 192) == Gcd(192, 64) == Gcd(64, 0) == 64;
  }

  /** One that ends does so within 255 turns. */
  lemma EndsSoon(channelsIn: nat, channel: nat, channelsOut: Positive) returns (n: nat)
    requires channel < channelsOut < channelsIn < 256 && Ends(channelsIn, channel, channelsOut)
    ensures 0 < n < 256 && IndexAfter(channel, channelsOut, n) >= channelsIn
  {
    var m: nat :| IndexAfter(channel, channelsOut, m) >= channelsIn;
    n := m % 256;
    AfterRound(channel, channelsOut, n, m / 256);
  }

  /** After 256 turns the index is where it began. */
  lemma AfterRound(channel: nat, step: nat, n: nat, k: nat)
    requires channel < 256
    ensures IndexAfter(channel, step, 256 * k + n) == IndexAfter(channel, step, n)
  {
    hide IndexAfter;
    IndexIs(channel, step, 256 * k + n);
    IndexIs(channel, step, n);
    Rounds(n, k, step);
    ModuloSame(channel + (256 * k + n) * step, channel + n * step, k * step, 256);
  }

  /** The loop of an output after `n` turns. */
  ghost predicate Turning(frame: seq<Sample>, channel: nat, step: nat, n: nat, from: nat, sum: int, count: nat) {
    && n <= MANY && from == IndexAfter(channel, step, n) && count == n
    && sum + LoopSum(frame, from, step, MANY - n) == LoopSum(frame, channel, step, MANY)
    && count + LoopTurns(|frame|, from, step, MANY - n) == LoopTurns(|frame|, channel, step, MANY)
  }

  lemma TurnsOn(frame: seq<Sample>, channel: nat, step: nat, n: nat, from: nat, sum: int, count: nat)
    requires Turning(frame, channel, step, n, from, sum, count) && from < |frame| && n + 1 < MANY
    ensures Turning(frame, channel, step, n + 1, Byte(from + step), sum + frame[from], Byte(count + 1))
  {
    hide LoopSum, LoopTurns, Byte;
    MixStep(frame, from, step, MANY - n);
    ByteSmall(count + 1);
  }

  /** One output channel of a downmix whose loop ends. */
  method MixChannel(input: array<Sample>, base: nat, channelsIn: Positive, channel: nat, channelsOut: Positive)
    returns (r: Sample)
    requires channel < channelsOut < channelsIn < 256 && Ends(channelsIn, channel, channelsOut)
    requires base + channelsIn <= input.Length
    ensures r == Mixed(input[base..base + channelsIn], channel, channelsOut)
  {
    hide Turning, LoopSum, LoopTurns, Mixed, TruncDiv, Ends, Gcd, IndexAfter, Byte;
    ghost var frame := input[base..base + channelsIn];
    ghost var last := EndsSoon(channelsIn, channel, channelsOut);
    ghost var n: nat := 0;
    MixStart(frame, channel, channelsOut);
    var sum: int, count: nat := 0, 0;
    var from := channel;
    while from < channelsIn
      invariant from >= 0 && count >= 0 && n <= last
      invariant Turning(frame, channel, channelsOut, n, from, sum, count)
      decreases last - n
    {
      Turned(frame, channel, channelsOut, n, from, sum, count);
      TurnsOn(frame, channel, channelsOut, n, from, sum, count);
      assert input[base + from] == frame[from];
      sum := sum + input[base + from];
      count := Byte(count + 1);
      from := Byte(from + channelsOut);
      n := n + 1;
    }
    MixEnd(frame, channel, channelsOut, n, from, sum, count);
    r := TruncDiv(sum, count);
  }

  lemma Turned(frame: seq<Sample>, channel: nat, step: nat, n: nat, from: nat, sum: int, count: nat)
    requires Turning(frame, channel, step, n, from, sum, count)
    ensures from == IndexAfter(channel, step, n)
  {
  }

  lemma MixStart(frame: seq<Sample>, channel: nat, step: nat)
    requires channel < |frame|
    ensures Turning(frame, channel, step, 0, channel, 0, 0)
    ensures var sum, count := LoopSum(frame, channel, step, MANY), LoopTurns(|frame|, channel, step, MANY);
      count > 0 && -32768 <= TruncDiv(sum, count) <= 32767 && Mixed(frame, channel, step) == TruncDiv(sum, count)
  {
    MixedWithin(frame, channel, step, -32768, 32767);
  }

  lemma MixStep(frame: seq<Sample>, from: nat, step: nat, turns: nat)
    requires from < |frame| && turns > 0
    ensures LoopSum(frame, from, step, turns) == frame[from] + LoopSum(frame, Byte(from + step), step, turns - 1)
    ensures LoopTurns(|frame|, from, step, turns) == 1 + LoopTurns(|frame|, Byte(from + step), step, turns - 1)
  {
  }

  lemma MixEnd(frame: seq<Sample>, channel: nat, step: nat, n: nat, from: nat, sum: int, count: nat)
    requires Turning(frame, channel, step, n, from, sum, count) && from >= |frame|
    ensures sum == LoopSum(frame, channel, step, MANY) && count == LoopTurns(|frame|, channel, step, MANY)
  {
  }

  // --- where its result is right

  /** The first index of the stride that is not in the frame any more. */
  function StrideEnd(length: nat, start: nat, step: Positive): (r: nat)
    ensures r >= start && r >= length && (start < length ==> r < length + step)
    decreases length - start
  {
    if start >= length then start else StrideEnd(length, start + step, step)
  }

  lemma {:induction false} StrideEndInClass(length: nat, start: nat, step: Positive)
    ensures StrideEnd(length, start, step) % step == start % step
    decreases length - start
  {
    if start < length {
      StrideEndInClass(length, start + step, step);
      SameResidue(start, step);
    }
  }

  /** Some output channel has its index come round, to a channel that is not its own, exactly when the two channel
    counts add up to more than 256. */
  lemma StrideOverflows(channelsIn: Positive, channelsOut: nat)
    requires 0 < channelsOut < channelsIn < 256
    ensures channelsIn + channelsOut > 256 <==>
      exists channel: nat :: channel < channelsOut && StrideEnd(channelsIn, channel, channelsOut) >= 256
  {
    var last := channelsIn - 1;
    StrideEndOf(channelsIn, last % channelsOut, channelsOut, last / channelsOut);
  }

  lemma {:induction false} StrideEndOf(length: nat, start: nat, step: Positive, n: nat)
    requires start + n * step == length - 1
    ensures StrideEnd(length, start, step) == length - 1 + step
    decreases n
  {
    if n > 0 {
      assert n * step == (n - 1) * step + step;
      MulMonotone(1, n, step);
      StrideEndOf(length, start + step, step, n - 1);
    }
  }

  lemma {:induction false} LoopIsStride(frame: seq<Sample>, from: nat, step: Positive, turns: nat)
    requires StrideEnd(|frame|, from, step) < 256 && turns + from >= |frame|
    ensures LoopSum(frame, from, step, turns) == StrideSum(frame, from, step)
    ensures LoopTurns(|frame|, from, step, turns) == StrideCount(|frame|, from, step)
    decreases turns
  {
    hide Byte;
    if from < |frame| {
      ByteSmall(from + step);
      LoopIsStride(frame, from + step, step, turns - 1);
    }
  }

  /** An output whose index leaves the frame before it comes round is the truncated average of its own channels. */
  lemma MixedIsAverage(frame: seq<Sample>, channel: nat, step: Positive)
    requires channel < |frame| && StrideEnd(|frame|, channel, step) < 256
    ensures Mixed(frame, channel, step) == Average(frame, channel, step)
  {
    LoopIsStride(frame, channel, step, MANY);
  }

  lemma {:induction false} LoopComesRound(frame: seq<Sample>, from: nat, step: Positive, turns: nat)
    requires from < |frame| < 256 && step < |frame| && StrideEnd(|frame|, from, step) >= 256 && turns + from > |frame|
    requires forall v :: v in frame ==> v >= 0
    ensures var w := StrideEnd(|frame|, from, step) - 256; w < step && LoopSum(frame, from, step, turns) >= frame[w]
    decreases |frame| - from
  {
    hide Byte;
    assert frame[from] in frame;
    ByteSmall(from + step);
    if from + step < |frame| {
      LoopComesRound(frame, from + step, step, turns - 1);
    } else {
      var w := from + step - 256;
      assert StrideEnd(|frame|, from, step) == from + step && Byte(from + step) == w;
      LoopNotNegative(frame, w, step, turns - 1);
    }
  }

  lemma {:induction false} LoopNotNegative(frame: seq<Sample>, from: nat, step: nat, turns: nat)
    requires forall v :: v in frame ==> v >= 0
    ensures LoopSum(frame, from, step, turns) >= if from < |frame| && turns > 0 then frame[from] else 0
    decreases turns
  {
    if turns > 0 && from < |frame| {
      LoopNotNegative(frame, Byte(from + step), step, turns - 1);
      var next := Byte(from + step);
      assert next < |frame| ==> frame[next] in frame;
    }
  }

  /** Silence but for one channel. */
  function Spike(channels: nat, w: nat): (r: seq<Sample>)
    ensures |r| == channels && forall j :: 0 <= j < channels ==> r[j] == if j == w then 32767 else 0
  {
    seq(channels, j => if j == w then 32767 else 0)
  }

  /** An output whose index comes round hears a channel that is not its own. */
  lemma HearsAnother(frame: seq<Sample>, channel: nat, step: Positive, w: nat)
    requires channel < step < |frame| < 256 && StrideEnd(|frame|, channel, step) == 256 + w
    requires Ends(|frame|, channel, step)
    ensures w < step && w != channel
    ensures (forall v :: v in frame ==> v >= 0) && frame[w] == 32767 ==> Mixed(frame, channel, step) > 0
  {
    if w == channel { RoundToItself(|frame|, channel, step); }
    if (forall v :: v in frame ==> v >= 0) && frame[w] == 32767 {
      LoopComesRound(frame, channel, step, MANY);
      hide LoopSum, LoopTurns, Ends, StrideEnd;
      var sum, count := LoopSum(frame, channel, step, MANY), LoopTurns(|frame|, channel, step, MANY);
      DivMeaning(sum, count, 1);
    }
  }

  /** An index that comes round to where it began goes on for ever. */
  lemma RoundToItself(length: nat, channel: nat, step: Positive)
    requires channel < step < length < 256 && StrideEnd(length, channel, step) == 256 + channel
    ensures !Ends(length, channel, step)
  {
    StrideEndInClass(length, channel, step);
    var k := (256 + channel) / step - channel / step;
    assert 256 == k * step by {
      assert 256 + channel == (256 + channel) / step * step + channel % step;
      assert k * step == (256 + channel) / step * step - channel / step * step;
    }
    Multiple(k, step);
    assert Gcd(step, 256) == step by {
      SmallModulus(step, 256);
      assert Gcd(step, 256) == Gcd(256, step) == Gcd(step, 256 % step) == Gcd(step, 0);
    }
    SmallModulus(channel, step);
    EndsExactly(length, channel, step);
  }

  /** Of the outputs whose loop ends, exactly those are right for every frame whose index does not come round. */
  lemma MixedRightExactly(channelsIn: nat, channel: nat, channelsOut: Positive)
    requires channel < channelsOut < channelsIn < 256 && Ends(channelsIn, channel, channelsOut)
    ensures (forall frame: seq<Sample> :: |frame| == channelsIn ==>
               Mixed(frame, channel, channelsOut) == Average(frame, channel, channelsOut))
            <==> StrideEnd(channelsIn, channel, channelsOut) < 256
  {
    hide Mixed, Average, Ends, StrideEnd, Spike;
    if StrideEnd(channelsIn, channel, channelsOut) < 256 {
      forall frame: seq<Sample> | |frame| == channelsIn
        ensures Mixed(frame, channel, channelsOut) == Average(frame, channel, channelsOut)
      {
        MixedIsAverage(frame, channel, channelsOut);
      }
    } else {
      var w := StrideEnd(channelsIn, channel, channelsOut) - 256;
      var frame := Spike(channelsIn, w);
      HearsAnother(frame, channel, channelsOut, w);
      OwnChannelsSilent(frame, channel, channelsOut, w);
      assert |frame| == channelsIn && Mixed(frame, channel, channelsOut) != Average(frame, channel, channelsOut);
    }
  }

  lemma OwnChannelsSilent(frame: seq<Sample>, channel: nat, step: Positive, w: nat)
    requires channel < step <= |frame| && w < step && w != channel
    requires forall j :: 0 <= j < |frame| && j != w ==> frame[j] == 0
    ensures Average(frame, channel, step) == 0
  {
    SmallModulus(channel, step);
    SmallModulus(w, step);
    StrideOfCopies(frame, channel, step, 0);
  }

  /** For a downmix in which no index comes round, each output is the truncated average of its own channels. */
  lemma DownmixAverages(frame: seq<Sample>, channels: Positive, channel: nat)
    requires channel < channels < |frame| && |frame| + channels <= 256
    ensures ConvertFrame(frame, channels)[channel] == Average(frame, channel, channels)
  {
    MixedIsAverage(frame, channel, channels);
  }

  /** Mixing up to more channels and down again gives the frame back, unless an index comes round. */
  lemma UpAndDownAgain(frame: seq<Sample>, channels: nat)
    requires 0 < |frame| <= channels < 256 && (|frame| + channels <= 256 || |frame| == channels)
    ensures ConvertFrame(ConvertFrame(frame, channels), |frame|) == frame
  {
    var up := ConvertFrame(frame, channels);
    var down := ConvertFrame(up, |frame|);
    forall ch | 0 <= ch < |frame| ensures down[ch] == frame[ch] {
      SmallModulus(ch, |frame|);
      if |frame| < channels {
        DownmixAverages(up, |frame|, ch);
        StrideOfCopies(up, ch, |frame|, frame[ch]);
        var n := StrideCount(channels, ch, |frame|);
        TruncDivBetween(frame[ch], frame[ch], frame[ch] * n, n);
      }
    }
  }

  ghost predicate ComesBack(frame: seq<Sample>, channels: nat) {
    0 < |frame| <= channels && ConvertFrame(ConvertFrame(frame, channels), |frame|) == frame
  }

  /** That is exactly when every frame comes back, among the channel counts for which the way down ends. */
  lemma ComesBackExactly(few: Positive, many: nat)
    requires few < many < 256 && many + Gcd(few, 256) <= 256
    ensures (forall frame: seq<Sample> :: |frame| == few ==> ComesBack(frame, many)) <==> few + many <= 256
  {
    hide ConvertFrame, Gcd;
    if few + many <= 256 {
      forall frame: seq<Sample> | |frame| == few ensures ComesBack(frame, many) { UpAndDownAgain(frame, many); }
    } else {
      StrideOverflows(many, few);
      var channel: nat :| channel < few && StrideEnd(many, channel, few) >= 256;
      DownmixEndsExactly(many, few);
      DoesNotComeBack(few, many, channel);
    }
  }

  lemma DoesNotComeBack(few: Positive, many: nat, channel: nat)
    requires channel < few < many < 256 && Ends(many, channel, few) && StrideEnd(many, channel, few) >= 256
    ensures exists frame: seq<Sample> :: |frame| == few && !ComesBack(frame, many)
  {
    hide Ends, StrideEnd, Mixed, Spike;
    var w := StrideEnd(many, channel, few) - 256;
    var frame := Spike(few, w);
    var up := ConvertFrame(frame, many);
    HearsAnother(up, channel, few, w);
    SmallModulus(w, few);
    assert up[w] == frame[w % few] == 32767;
    forall v | v in up ensures v >= 0 {
      var j :| 0 <= j < many && up[j] == v;
      assert up[j] == frame[j % few];
    }
    assert ConvertFrame(up, few)[channel] == Mixed(up, channel, few) > 0 == frame[channel];
    assert |frame| == few && !ComesBack(frame, many);
  }

  /** convert_channels_s16, on every pair of channel counts on which it returns. */
  method ConvertChannels(input: array<Sample>, frames: nat, channelsIn: Positive, out: array<Sample>,
                         channelsOut: Positive)
    requires input != out && channelsIn < 256 && channelsOut < 256
    requires channelsOut < channelsIn && frames > 0 ==> channelsIn + Gcd(channelsOut, 256) <= 256
    requires frames * channelsIn <= input.Length && frames * channelsOut <= out.Length
    modifies out
    ensures Converted(input[..], frames, channelsIn, out[..], channelsOut)
    ensures out[frames * channelsOut..] == old(out[..])[frames * channelsOut..]
  {
    hide Converted, ConvertFrame;
    if channelsIn == channelsOut {
      forall j | 0 <= j < frames * channelsIn {
        out[j] := input[j];
      }
      CopyConverts(input[..], frames, channelsIn, out[..]);
      return;
    }
    NothingConverted(input[..], channelsIn, out[..], channelsOut);
    for frame := 0 to frames
      invariant frame * channelsOut <= out.Length
      invariant Converted(input[..], frame, channelsIn, out[..], channelsOut)
      invariant out[frame * channelsOut..] == old(out[..])[frame * channelsOut..]
    {
      MulMonotone(frame + 1, frames, channelsIn);
      MulMonotone(frame + 1, frames, channelsOut);
      assert (frame + 1) * channelsIn == frame * channelsIn + channelsIn;
      assert (frame + 1) * channelsOut == frame * channelsOut + channelsOut;
      ghost var before := out[..];
      ConvertOneFrame(input, frame * channelsIn, channelsIn, out, frame * channelsOut, channelsOut);
      ConvertedExtends(input[..], frame, channelsIn, before, out[..], channelsOut);
      TailKept(before, out[..], old(out[..]), frame * channelsOut, channelsOut);
    }
  }

  method ConvertOneFrame(input: array<Sample>, from: nat, channelsIn: Positive, out: array<Sample>, to: nat,
                         channelsOut: Positive)
    requires input != out && channelsIn < 256 && channelsOut < 256
    requires channelsOut < channelsIn ==> channelsIn + Gcd(channelsOut, 256) <= 256
    requires from + channelsIn <= input.Length && to + channelsOut <= out.Length
    modifies out
    ensures out[..to] == old(out[..])[..to] && out[to + channelsOut..] == old(out[..])[to + channelsOut..]
    ensures out[to..to + channelsOut] == ConvertFrame(input[from..from + channelsIn], channelsOut)
  {
    ghost var frame := input[from..from + channelsIn];
    ghost var done := ConvertFrame(frame, channelsOut);
    if channelsOut < channelsIn {
      DownmixEndsExactly(channelsIn, channelsOut);
      for channel := 0 to channelsOut
        invariant out[..to] == old(out[..])[..to] && out[to + channelsOut..] == old(out[..])[to + channelsOut..]
        invariant out[to..to + channel] == done[..channel]
      {
        out[to + channel] := MixChannel(input, from, channelsIn, channel, channelsOut);
        assert out[to + channel] == done[channel];
      }
    } else {
      for channel := 0 to channelsOut
        invariant out[..to] == old(out[..])[..to] && out[to + channelsOut..] == old(out[..])[to + channelsOut..]
        invariant out[to..to + channel] == done[..channel]
      {
        assert |frame| == channelsIn && frame[channel % channelsIn] == input[from + channel % channelsIn];
        out[to + channel] := input[from + channel % channelsIn];
        assert out[to + channel] == done[channel];
      }
    }
  }

  lemma NothingConverted(input: seq<Sample>, channelsIn: Positive, out: seq<Sample>, channelsOut: nat)
    ensures Converted(input, 0, channelsIn, out, channelsOut)
  {
  }

  lemma CopyConverts(input: seq<Sample>, frames: nat, channels: nat, out: seq<Sample>)
    requires channels > 0 && frames * channels <= |input| && frames * channels <= |out|
    requires out[..frames * channels] == input[..frames * channels]
    ensures Converted(input, frames, channels, out, channels)
  {
    forall f | 0 <= f < frames ensures ConvertedAt(input, f, channels, out, channels) {
      MulMonotone(f + 1, frames, channels);
      assert (f + 1) * channels == f * channels + channels;
      var frame := FrameOf(input, f, channels);
      assert FrameOf(out, f, channels) == out[..frames * channels][f * channels..f * channels + channels];
      assert frame == input[..frames * channels][f * channels..f * channels + channels];
      SameChannels(frame);
    }
  }

  lemma SameChannels(frame: seq<Sample>)
    requires frame != []
    ensures ConvertFrame(frame, |frame|) == frame
  {
    forall ch | 0 <= ch < |frame| ensures ConvertFrame(frame, |frame|)[ch] == frame[ch] {
      SmallModulus(ch, |frame|);
    }
  }

  lemma ConvertedExtends(input: seq<Sample>, frame: nat, channelsIn: Positive, before: seq<Sample>,
                         after: seq<Sample>, channelsOut: nat)
    requires Converted(input, frame, channelsIn, before, channelsOut)
    requires frame * channelsIn + channelsIn <= |input| && frame * channelsOut + channelsOut <= |before| == |after|
    requires after[..frame * channelsOut] == before[..frame * channelsOut]
    requires FrameOf(after, frame, channelsOut) == ConvertFrame(FrameOf(input, frame, channelsIn), channelsOut)
    ensures Converted(input, frame + 1, channelsIn, after, channelsOut)
  {
    assert (frame + 1) * channelsIn == frame * channelsIn + channelsIn;
    assert (frame + 1) * channelsOut == frame * channelsOut + channelsOut;
    forall f | 0 <= f < frame + 1 ensures ConvertedAt(input, f, channelsIn, after, channelsOut) {
      if f < frame {
        assert ConvertedAt(input, f, channelsIn, before, channelsOut);
        MulMonotone(f + 1, frame, channelsOut);
        assert (f + 1) * channelsOut == f * channelsOut + channelsOut;
        assert FrameOf(after, f, channelsOut) ==
          after[..frame * channelsOut][f * channelsOut..f * channelsOut + channelsOut];
        assert FrameOf(before, f, channelsOut) ==
          before[..frame * channelsOut][f * channelsOut..f * channelsOut + channelsOut];
      }
    }
  }

  function ConvertAll(input: seq<Sample>, frames: nat, channelsIn: Positive, channelsOut: nat): (r: seq<Sample>)
    requires frames * channelsIn <= |input|
    ensures |r| == frames * channelsOut
  {
    if frames == 0 then []
    else
      assert frames * channelsIn == (frames - 1) * channelsIn + channelsIn;
      assert frames * channelsOut == (frames - 1) * channelsOut + channelsOut;
      ConvertAll(input, frames - 1, channelsIn, channelsOut) +
        ConvertFrame(FrameOf(input, frames - 1, channelsIn), channelsOut)
  }

  lemma {:induction false} ConvertedIsConvertAll(input: seq<Sample>, frames: nat, channelsIn: Positive,
                                                 out: seq<Sample>, channelsOut: nat)
    requires Converted(input, frames, channelsIn, out, channelsOut)
    ensures out[..frames * channelsOut] == ConvertAll(input, frames, channelsIn, channelsOut)
  {
    hide ConvertFrame;
    if frames > 0 {
      var m := frames - 1;
      assert frames * channelsIn == m * channelsIn + channelsIn;
      assert frames * channelsOut == m * channelsOut + channelsOut;
      ConvertedIsConvertAll(input, m, channelsIn, out, channelsOut);
      assert ConvertedAt(input, m, channelsIn, out, channelsOut);
      assert out[..frames * channelsOut] == out[..m * channelsOut] + FrameOf(out, m, channelsOut);
    }
  }

  lemma {:induction false} ConvertAllPrefix(a: seq<Sample>, b: seq<Sample>, frames: nat, channelsIn: Positive,
                                            channelsOut: nat)
    requires frames * channelsIn <= |a| && frames * channelsIn <= |b|
    requires a[..frames * channelsIn] == b[..frames * channelsIn]
    ensures ConvertAll(a, frames, channelsIn, channelsOut) == ConvertAll(b, frames, channelsIn, channelsOut)
  {
    hide ConvertFrame;
    if frames > 0 {
      var m := frames - 1;
      assert frames * channelsIn == m * channelsIn + channelsIn;
      assert a[..m * channelsIn] == a[..frames * channelsIn][..m * channelsIn];
      assert b[..m * channelsIn] == b[..frames * channelsIn][..m * channelsIn];
      ConvertAllPrefix(a, b, m, channelsIn, channelsOut);
      assert FrameOf(a, m, channelsIn) == a[..frames * channelsIn][m * channelsIn..];
      assert FrameOf(b, m, channelsIn) == b[..frames * channelsIn][m * channelsIn..];
    }
  }
}
