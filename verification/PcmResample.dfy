/** Resampling of a window of PCM for the controller (src/vds_protocol.cc): the speaker channels to a
    480-frame Opus block, the haptics channels to 32 frames of 8 bits. */
module PcmResample {
  import opened VdsTypes

  type s16 = x: int | -32768 <= x < 32768
  type s8 = x: int | -128 <= x < 128

  const SPEAKER_OPUS_FRAMES: nat := 480
  const HAPTICS_FRAMES: nat := 32
  const PCM_WINDOW_FRAMES: nat := 512
  const HAPTICS_DECIMATION: nat := 16

  predicate SupportedWindow(frames: nat) {
    0 < frames <= PCM_WINDOW_FRAMES && frames % HAPTICS_DECIMATION == 0
  }

  /** Division of the program's language: toward zero. */
  function TruncDiv(a: int, b: nat): int
    requires b > 0
  {
    if a >= 0 then a / b else -((-a) / b)
  }

  function Clamp(x: int, low: int, high: int): int {
    if x < low then low else if x > high then high else x
  }

  function Lerp(left: s16, right: s16, numerator: nat, denominator: nat): s16
    requires numerator < denominator
  {
    Clamp(TruncDiv(left * (denominator - numerator) + right * numerator, denominator), -32768, 32767)
  }

  lemma Scale(a: int, b: int, k: nat)
    requires a <= b
    ensures a * k <= b * k
  {
  }

  lemma DivBetween(a: int, b: nat, low: int, high: int)
    requires b > 0 && low * b <= a <= high * b
    ensures low <= a / b <= high
  {
    var q := a / b;
    assert q * b <= a < (q + 1) * b;
    if q < low {
      Scale(q + 1, low, b);
      assert false;
    }
    if q > high {
      assert (high + 1) * b == high * b + b;
      Scale(high + 1, q, b);
      assert false;
    }
  }

  /** The mean of `b` numbers that sum to `a`, even truncated, does not leave their range. */
  lemma MeanInRange(a: int, b: nat, low: int, high: int)
    requires b > 0 && low * b <= a <= high * b
    ensures low <= TruncDiv(a, b) <= high
  {
    if a >= 0 {
      DivBetween(a, b, low, high);
    } else {
      assert (-high) * b == -(high * b) && (-low) * b == -(low * b);
      DivBetween(-a, b, -high, -low);
    }
  }

  /** Interpolation is convex: between its neighbours, so its clamp and its 32-bit sums never overflow,
      and exact at a sample. */
  lemma LerpConvex(left: s16, right: s16, numerator: nat, denominator: nat)
    requires numerator < denominator
    ensures Min(left, right) <= Lerp(left, right, numerator, denominator) <= Max(left, right)
    ensures numerator == 0 ==> Lerp(left, right, numerator, denominator) == left
    ensures denominator <= 480 ==>
              && -0x8000_0000 <= left * (denominator - numerator) < 0x8000_0000
              && -0x8000_0000 <= right * numerator < 0x8000_0000
              && -0x8000_0000 <= left * (denominator - numerator) + right * numerator < 0x8000_0000
  {
    var low, high, n, m := Min(left, right), Max(left, right), numerator, denominator - numerator;
    Weighted(low, high, left, right, m, n);
    hide TruncDiv;
    MeanInRange(left * m + right * n, denominator, low, high);
    if n == 0 {
      MeanInRange(left * denominator, denominator, left, left);
    }
    if denominator <= 480 {
      Weighted(-32768, 32767, left, right, m, n);
      Weighted(-32768, 32767, left, left, m, 0);
      Weighted(-32768, 32767, right, right, n, 0);
    }
  }

  lemma Weighted(low: int, high: int, x: int, y: int, m: nat, n: nat)
    requires low <= x <= high && low <= y <= high
    ensures low * (m + n) <= x * m + y * n <= high * (m + n)
  {
    Scale(low, x, m);
    Scale(x, high, m);
    Scale(low, y, n);
    Scale(y, high, n);
    assert low * (m + n) == low * m + low * n && high * (m + n) == high * m + high * n;
  }

  function SourceFrame(frame: nat, pcmFrames: nat): nat {
    frame * pcmFrames / SPEAKER_OPUS_FRAMES
  }

  lemma SourceInWindow(frame: nat, pcmFrames: nat)
    requires frame < SPEAKER_OPUS_FRAMES && 0 < pcmFrames
    ensures SourceFrame(frame, pcmFrames) < pcmFrames
  {
    assert frame * pcmFrames <= (SPEAKER_OPUS_FRAMES - 1) * pcmFrames by { Scale(frame, SPEAKER_OPUS_FRAMES - 1, pcmFrames); }
  }

  /** Sample `i` of the block: channel `i % 2` of the source at block frame `i / 2`. */
  function SpeakerSample(pcm: seq<s16>, pcmFrames: nat, i: nat): s16
    requires 0 < pcmFrames && |pcm| == 2 * pcmFrames && i < 2 * SPEAKER_OPUS_FRAMES
  {
    SourceInWindow(i / 2, pcmFrames);
    var source := SourceFrame(i / 2, pcmFrames);
    var next := Min(source + 1, pcmFrames - 1);
    Lerp(pcm[source * 2 + i % 2], pcm[next * 2 + i % 2], (i / 2) * pcmFrames % SPEAKER_OPUS_FRAMES, SPEAKER_OPUS_FRAMES)
  }

  function SpeakerBlock(pcm: seq<s16>, pcmFrames: nat): (block: seq<s16>)
    requires 0 < pcmFrames && |pcm| == 2 * pcmFrames
    ensures |block| == 2 * SPEAKER_OPUS_FRAMES
  {
    seq(2 * SPEAKER_OPUS_FRAMES, i requires 0 <= i < 2 * SPEAKER_OPUS_FRAMES => SpeakerSample(pcm, pcmFrames, i))
  }

  method ResampleSpeakerPcm(pcm: seq<s16>, pcmFrames: nat) returns (block: array<s16>)
    requires 0 < pcmFrames && |pcm| == 2 * pcmFrames
    ensures fresh(block) && block[..] == SpeakerBlock(pcm, pcmFrames)
  {
    block := new s16[2 * SPEAKER_OPUS_FRAMES];
    for frame := 0 to SPEAKER_OPUS_FRAMES
      invariant forall i :: 0 <= i < 2 * frame ==> block[i] == SpeakerSample(pcm, pcmFrames, i)
    {
      var source := frame * pcmFrames / SPEAKER_OPUS_FRAMES;
      var fraction := frame * pcmFrames % SPEAKER_OPUS_FRAMES;
      SourceInWindow(frame, pcmFrames);
      var next := Min(source + 1, pcmFrames - 1);
      hide SpeakerSample, Lerp;
      for channel := 0 to 2
        invariant forall i :: 0 <= i < 2 * frame + channel ==> block[i] == SpeakerSample(pcm, pcmFrames, i)
      {
        SampleIs(pcm, pcmFrames, frame, channel);
        block[frame * 2 + channel] :=
          Lerp(pcm[source * 2 + channel], pcm[next * 2 + channel], fraction, SPEAKER_OPUS_FRAMES);
      }
    }
  }

  lemma SampleIs(pcm: seq<s16>, pcmFrames: nat, frame: nat, channel: nat)
    requires 0 < pcmFrames && |pcm| == 2 * pcmFrames && frame < SPEAKER_OPUS_FRAMES && channel < 2
    ensures SourceFrame(frame, pcmFrames) < pcmFrames
    ensures var source := SourceFrame(frame, pcmFrames);
            var next := Min(source + 1, pcmFrames - 1);
            SpeakerSample(pcm, pcmFrames, frame * 2 + channel)
            == Lerp(pcm[source * 2 + channel], pcm[next * 2 + channel], frame * pcmFrames % SPEAKER_OPUS_FRAMES, SPEAKER_OPUS_FRAMES)
  {
    SourceInWindow(frame, pcmFrames);
    hide Lerp;
    assert (frame * 2 + channel) / 2 == frame && (frame * 2 + channel) % 2 == channel;
  }

  /** Nothing louder than the window comes out of it, and a window that is already a block is unchanged. */
  lemma BlockStaysInRange(pcm: seq<s16>, pcmFrames: nat, low: s16, high: s16, i: nat)
    requires 0 < pcmFrames && |pcm| == 2 * pcmFrames && i < 2 * SPEAKER_OPUS_FRAMES
    requires forall j :: 0 <= j < |pcm| ==> low <= pcm[j] <= high
    ensures low <= SpeakerBlock(pcm, pcmFrames)[i] <= high
  {
    var frame, channel := i / 2, i % 2;
    SampleIs(pcm, pcmFrames, frame, channel);
    var source := SourceFrame(frame, pcmFrames);
    var next := Min(source + 1, pcmFrames - 1);
    LerpConvex(pcm[source * 2 + channel], pcm[next * 2 + channel], frame * pcmFrames % SPEAKER_OPUS_FRAMES, SPEAKER_OPUS_FRAMES);
  }

  lemma WholeFrames(frame: nat)
    ensures frame * SPEAKER_OPUS_FRAMES % SPEAKER_OPUS_FRAMES == 0
    ensures SourceFrame(frame, SPEAKER_OPUS_FRAMES) == frame
  {
  }

  lemma BlockOfSameLength(pcm: seq<s16>)
    requires |pcm| == 2 * SPEAKER_OPUS_FRAMES
    ensures SpeakerBlock(pcm, SPEAKER_OPUS_FRAMES) == pcm
  {
    forall i | 0 <= i < |pcm|
      ensures SpeakerSample(pcm, SPEAKER_OPUS_FRAMES, i) == pcm[i]
    {
      var frame, channel := i / 2, i % 2;
      SampleIs(pcm, SPEAKER_OPUS_FRAMES, frame, channel);
      WholeFrames(frame);
      hide Lerp, SpeakerSample, SourceFrame;
      LerpConvex(pcm[frame * 2 + channel], pcm[Min(frame + 1, SPEAKER_OPUS_FRAMES - 1) * 2 + channel], 0, SPEAKER_OPUS_FRAMES);
    }
  }

  /** `y` is `x / d` rounded toward zero. */
  ghost predicate RoundsToZero(y: int, x: int, d: nat) {
    && (x >= 0 ==> 0 <= y && y * d <= x < (y + 1) * d)
    && (x <= 0 ==> y <= 0 && (y - 1) * d < x <= y * d)
  }

  lemma TruncRounds(x: int, d: nat)
    requires d > 0
    ensures RoundsToZero(TruncDiv(x, d), x, d)
  {
    if x >= 0 {
      DivRounds(x, d);
    } else {
      DivRounds(-x, d);
      Negated((-x) / d, d);
    }
  }

  lemma DivRounds(x: nat, d: nat)
    requires d > 0
    ensures 0 <= x / d && (x / d) * d <= x < (x / d + 1) * d
    ensures x == 0 ==> x / d == 0
  {
    assert (x / d) * d + x % d == x;
    assert (x / d + 1) * d == (x / d) * d + d;
  }

  lemma Negated(q: int, d: int)
    ensures (-q) * d == -(q * d) && (-q - 1) * d == -((q + 1) * d)
  {
  }

  /** Every sample of the block, exactly: at block frame `frame` the source stands at `source` and
      `fraction` 480ths, and the two samples there, or the last one twice, are weighted by the distance. */
  lemma BlockExactly(pcm: seq<s16>, pcmFrames: nat, frame: nat, channel: nat, source: nat, fraction: nat)
    requires 0 < pcmFrames && |pcm| == 2 * pcmFrames && frame < 480 && channel < 2
    requires fraction < 480 && source * 480 + fraction == frame * pcmFrames
    ensures source < pcmFrames
    ensures var next := if source + 1 < pcmFrames then source + 1 else source;
            RoundsToZero(SpeakerBlock(pcm, pcmFrames)[frame * 2 + channel],
                         pcm[source * 2 + channel] * (480 - fraction) + pcm[next * 2 + channel] * fraction, 480)
  {
    Quotient(frame * pcmFrames, source, fraction, 480);
    SampleIs(pcm, pcmFrames, frame, channel);
    var next := Min(source + 1, pcmFrames - 1);
    hide TruncDiv, SpeakerSample;
    LerpExactly(pcm[source * 2 + channel], pcm[next * 2 + channel], fraction, 480);
  }

  lemma Quotient(x: nat, q: nat, r: nat, d: nat)
    requires r < d && q * d + r == x
    ensures x / d == q && x % d == r
  {
    var p := x / d;
    assert p * d + x % d == x;
    if p < q {
      Scale(p + 1, q, d);
    }
    if q < p {
      Scale(q + 1, p, d);
    }
  }

  /** The interpolation is the weighted mean, rounded toward zero. */
  lemma LerpExactly(left: s16, right: s16, numerator: nat, denominator: nat)
    requires numerator < denominator
    ensures RoundsToZero(Lerp(left, right, numerator, denominator), left * (denominator - numerator) + right * numerator, denominator)
  {
    var x := left * (denominator - numerator) + right * numerator;
    Weighted(-32768, 32767, left, right, denominator - numerator, numerator);
    MeanInRange(x, denominator, -32768, 32767);
    hide TruncDiv;
    TruncRounds(x, denominator);
  }

  // ---------------------------------------------------------------------------------------------
  // Haptics
  // ---------------------------------------------------------------------------------------------

  function Begin(frame: nat, pcmFrames: nat): nat {
    frame * pcmFrames / HAPTICS_FRAMES
  }

  function ChannelSum(pcm: seq<s16>, channel: nat, first: nat, last: nat): int
    requires channel < 2 && first <= last && 2 * last <= |pcm|
    decreases last
  {
    if first == last then 0 else ChannelSum(pcm, channel, first, last - 1) + pcm[(last - 1) * 2 + channel]
  }

  function S16ToS8(sample: int): s8 {
    Clamp(TruncDiv(sample, 256), -128, 127)
  }

  /** The windows of the haptics frames cut the PCM window into consecutive pieces. */
  lemma BeginsInOrder(frame: nat, pcmFrames: nat)
    requires frame < HAPTICS_FRAMES
    ensures Begin(0, pcmFrames) == 0 && Begin(HAPTICS_FRAMES, pcmFrames) == pcmFrames
    ensures Begin(frame, pcmFrames) <= Begin(frame + 1, pcmFrames) <= pcmFrames
    ensures pcmFrames >= HAPTICS_FRAMES ==> Begin(frame, pcmFrames) < Begin(frame + 1, pcmFrames)
  {
    assert (frame + 1) * pcmFrames == frame * pcmFrames + pcmFrames;
    Scale(frame + 1, HAPTICS_FRAMES, pcmFrames);
  }

  function HapticsSample(pcm: seq<s16>, pcmFrames: nat, i: nat): s8
    requires |pcm| == 2 * pcmFrames && i < 2 * HAPTICS_FRAMES
  {
    BeginsInOrder(i / 2, pcmFrames);
    var begin, end := Begin(i / 2, pcmFrames), Begin(i / 2 + 1, pcmFrames);
    S16ToS8(TruncDiv(ChannelSum(pcm, i % 2, begin, end), Max(1, end - begin)))
  }

  function HapticsChunk(pcm: seq<s16>, pcmFrames: nat): (chunk: seq<s8>)
    requires |pcm| == 2 * pcmFrames
    ensures |chunk| == 2 * HAPTICS_FRAMES
  {
    seq(2 * HAPTICS_FRAMES, i requires 0 <= i < 2 * HAPTICS_FRAMES => HapticsSample(pcm, pcmFrames, i))
  }

  method ResampleHapticsPcm(pcm: seq<s16>, pcmFrames: nat) returns (chunk: array<s8>)
    requires |pcm| == 2 * pcmFrames
    ensures fresh(chunk) && chunk[..] == HapticsChunk(pcm, pcmFrames)
  {
    chunk := new s8[2 * HAPTICS_FRAMES];
    for frame := 0 to HAPTICS_FRAMES
      invariant forall i :: 0 <= i < 2 * frame ==> chunk[i] == HapticsSample(pcm, pcmFrames, i)
    {
      BeginsInOrder(frame, pcmFrames);
      var begin, end := frame * pcmFrames / HAPTICS_FRAMES, (frame + 1) * pcmFrames / HAPTICS_FRAMES;
      hide ChannelSum, TruncDiv, S16ToS8, HapticsSample;
      var left, right := SumBoth(pcm, begin, end);
      HapticsAre(pcm, pcmFrames, frame);
      chunk[frame * 2] := S16ToS8(TruncDiv(left, Max(1, end - begin)));
      chunk[frame * 2 + 1] := S16ToS8(TruncDiv(right, Max(1, end - begin)));
    }
  }

  lemma HapticsAre(pcm: seq<s16>, pcmFrames: nat, frame: nat)
    requires |pcm| == 2 * pcmFrames && frame < HAPTICS_FRAMES
    ensures Begin(frame, pcmFrames) <= Begin(frame + 1, pcmFrames) <= pcmFrames
    ensures var begin, end := Begin(frame, pcmFrames), Begin(frame + 1, pcmFrames);
            && HapticsSample(pcm, pcmFrames, frame * 2) == S16ToS8(TruncDiv(ChannelSum(pcm, 0, begin, end), Max(1, end - begin)))
            && HapticsSample(pcm, pcmFrames, frame * 2 + 1) == S16ToS8(TruncDiv(ChannelSum(pcm, 1, begin, end), Max(1, end - begin)))
  {
    BeginsInOrder(frame, pcmFrames);
    assert (frame * 2) / 2 == frame && (frame * 2 + 1) / 2 == frame && (frame * 2) % 2 == 0 && (frame * 2 + 1) % 2 == 1;
  }

  method SumBoth(pcm: seq<s16>, begin: nat, end: nat) returns (left: int, right: int)
    requires begin <= end && 2 * end <= |pcm|
    ensures left == ChannelSum(pcm, 0, begin, end) && right == ChannelSum(pcm, 1, begin, end)
  {
    left, right := 0, 0;
    for sample := begin to end
      invariant left == ChannelSum(pcm, 0, begin, sample) && right == ChannelSum(pcm, 1, begin, sample)
    {
      left := left + pcm[sample * 2];
      right := right + pcm[sample * 2 + 1];
    }
  }

  lemma {:induction false} SumInRange(pcm: seq<s16>, channel: nat, first: nat, last: nat, low: s16, high: s16)
    requires channel < 2 && first <= last && 2 * last <= |pcm|
    requires forall j :: 0 <= j < |pcm| ==> low <= pcm[j] <= high
    ensures low * (last - first) <= ChannelSum(pcm, channel, first, last) <= high * (last - first)
    decreases last
  {
    if first < last {
      SumInRange(pcm, channel, first, last - 1, low, high);
      assert low * (last - first) == low * (last - 1 - first) + low;
      assert high * (last - first) == high * (last - 1 - first) + high;
    }
  }

  /** A haptics sample is the mean of its piece scaled to 8 bits, hence within the window's range scaled
      to 8 bits; the one window with empty pieces, of 16 frames, may add zeros. */
  lemma HapticsInRange(pcm: seq<s16>, pcmFrames: nat, low: s16, high: s16, i: nat)
    requires SupportedWindow(pcmFrames) && |pcm| == 2 * pcmFrames && i < 2 * HAPTICS_FRAMES
    requires forall j :: 0 <= j < |pcm| ==> low <= pcm[j] <= high
    ensures pcmFrames > 16 ==> TruncDiv(low, 256) <= HapticsChunk(pcm, pcmFrames)[i] <= TruncDiv(high, 256)
    ensures TruncDiv(Min(low, 0), 256) <= HapticsChunk(pcm, pcmFrames)[i] <= TruncDiv(Max(high, 0), 256)
  {
    BeginsInOrder(i / 2, pcmFrames);
    var begin, end := Begin(i / 2, pcmFrames), Begin(i / 2 + 1, pcmFrames);
    SumInRange(pcm, i % 2, begin, end, low, high);
    var sum := ChannelSum(pcm, i % 2, begin, end);
    if begin < end {
      MeanInRange(sum, end - begin, low, high);
      TruncMonotone(low, TruncDiv(sum, end - begin), 256);
      TruncMonotone(TruncDiv(sum, end - begin), high, 256);
      TruncMonotone(Min(low, 0), low, 256);
      TruncMonotone(high, Max(high, 0), 256);
    } else {
      TruncMonotone(Min(low, 0), 0, 256);
      TruncMonotone(0, Max(high, 0), 256);
    }
  }

  function SumOf(samples: seq<s16>): int {
    if samples == [] then 0 else samples[0] + SumOf(samples[1..])
  }

  /** The samples of one channel from `first` to `last`. */
  function ChannelOf(pcm: seq<s16>, channel: nat, first: nat, last: nat): (r: seq<s16>)
    requires channel < 2 && first <= last && 2 * last <= |pcm|
    ensures |r| == last - first && forall j :: 0 <= j < |r| ==> r[j] == pcm[2 * (first + j) + channel]
  {
    seq(last - first, j requires 0 <= j < last - first => pcm[2 * (first + j) + channel])
  }

  lemma {:induction false} SumOfMore(samples: seq<s16>, x: s16)
    ensures SumOf(samples + [x]) == SumOf(samples) + x
  {
    if samples == [] {
      assert [x][1..] == [];
      assert samples + [x] == [x];
    } else {
      assert (samples + [x])[1..] == samples[1..] + [x];
      SumOfMore(samples[1..], x);
    }
  }

  lemma {:induction false} ChannelSumIs(pcm: seq<s16>, channel: nat, first: nat, last: nat)
    requires channel < 2 && first <= last && 2 * last <= |pcm|
    ensures ChannelSum(pcm, channel, first, last) == SumOf(ChannelOf(pcm, channel, first, last))
    decreases last
  {
    if first < last {
      ChannelSumIs(pcm, channel, first, last - 1);
      var before := ChannelOf(pcm, channel, first, last - 1);
      SumOfMore(before, pcm[(last - 1) * 2 + channel]);
      assert ChannelOf(pcm, channel, first, last) == before + [pcm[(last - 1) * 2 + channel]];
    }
  }

  /** Every haptics sample, exactly: the 32nd part number `frame` of the window, from `begin` up to `end`,
      is averaged, and the mean is brought to 8 bits, both toward zero; an empty part counts as zero. */
  lemma HapticsExactly(pcm: seq<s16>, pcmFrames: nat, frame: nat, channel: nat, begin: nat, end: nat)
    requires |pcm| == 2 * pcmFrames && frame < 32 && channel < 2
    requires begin * 32 <= frame * pcmFrames < (begin + 1) * 32
    requires end * 32 <= (frame + 1) * pcmFrames < (end + 1) * 32
    ensures begin <= end <= pcmFrames
    ensures MeanIn8Bits(HapticsChunk(pcm, pcmFrames)[frame * 2 + channel], SumOf(ChannelOf(pcm, channel, begin, end)),
                        if begin < end then end - begin else 1)
  {
    hide HapticsChunk, Begin;
    Quotient(frame * pcmFrames, begin, frame * pcmFrames - begin * 32, 32);
    Quotient((frame + 1) * pcmFrames, end, (frame + 1) * pcmFrames - end * 32, 32);
    BeginIs(frame, pcmFrames);
    BeginIs(frame + 1, pcmFrames);
    BeginsInOrder(frame, pcmFrames);
    HapticsAre(pcm, pcmFrames, frame);
    ChunkIs(pcm, pcmFrames, frame * 2 + channel);
    ChannelSumIs(pcm, channel, begin, end);
    SumInRange(pcm, channel, begin, end, -32768, 32767);
    MeanIn8BitsIs(ChannelSum(pcm, channel, begin, end), end - begin);
  }

  lemma BeginIs(frame: nat, pcmFrames: nat)
    ensures Begin(frame, pcmFrames) == frame * pcmFrames / 32
  {
  }

  lemma ChunkIs(pcm: seq<s16>, pcmFrames: nat, i: nat)
    requires |pcm| == 2 * pcmFrames && i < 2 * HAPTICS_FRAMES
    ensures HapticsChunk(pcm, pcmFrames)[i] == HapticsSample(pcm, pcmFrames, i)
  {
  }

  /** `y` is the mean of `count` samples that sum to `sum`, brought to 8 bits. */
  ghost predicate MeanIn8Bits(y: int, sum: int, count: nat) {
    exists mean :: RoundsToZero(mean, sum, count) && RoundsToZero(y, mean, 256)
  }

  lemma MeanIn8BitsIs(sum: int, n: nat)
    requires -32768 * n <= sum <= 32767 * n
    ensures MeanIn8Bits(S16ToS8(TruncDiv(sum, Max(1, n))), sum, Max(1, n))
  {
    hide TruncDiv;
    var mean := TruncDiv(sum, Max(1, n));
    TruncRounds(sum, Max(1, n));
    TruncRounds(mean, 256);
    MeanFits(sum, Max(1, n), n);
  }

  lemma MeanFits(sum: int, count: nat, n: nat)
    requires -32768 * n <= sum <= 32767 * n && count == Max(1, n)
    ensures -128 <= TruncDiv(TruncDiv(sum, count), 256) <= 127
  {
    MeanInRange(sum, count, -32768, 32767);
    hide TruncDiv;
    TruncMonotone(-32768, TruncDiv(sum, count), 256);
    TruncMonotone(TruncDiv(sum, count), 32767, 256);
    Ends();
  }

  lemma Ends()
    ensures TruncDiv(-32768, 256) == -128 && TruncDiv(32767, 256) == 127
  {
  }

  lemma TruncMonotone(a: int, b: int, k: nat)
    requires a <= b && k > 0
    ensures TruncDiv(a, k) <= TruncDiv(b, k)
  {
    if a >= 0 {
      DivMonotone(a, b, k);
    } else if b < 0 {
      DivMonotone(-b, -a, k);
    } else {
      DivMonotone(0, -a, k);
      DivMonotone(0, b, k);
    }
  }

  lemma DivMonotone(a: nat, b: nat, k: nat)
    requires a <= b && k > 0
    ensures a / k <= b / k
  {
    var q, r := a / k, b / k;
    assert q * k <= a && b < (r + 1) * k;
    if q > r {
      Scale(r + 1, q, k);
      assert false;
    }
  }
}
