/** Real-time pacing of ISO and HID IN completions (module/vds_hcd_core.c). Times are ktime_t
    nanoseconds; durations are microseconds held in 32-bit unsigned variables. */
module HcdPacing {
  import opened VdsTypes

  const AUDIO_IN_BYTES_PER_MS: nat := 192
  const AUDIO_OUT_BYTES_PER_MS: nat := 384
  const NSEC_PER_USEC: nat := 1000
  const U32_RANGE: nat := 0x1_0000_0000

  function BytesPerMs(input: bool): nat {
    if input then AUDIO_IN_BYTES_PER_MS else AUDIO_OUT_BYTES_PER_MS
  }

  /** PCM carried by a URB's descriptors; a microphone descriptor is filled with at most 1 ms. */
  function PcmBytes(lengths: seq<nat>, input: bool): nat {
    if lengths == [] then 0
    else
      var last := lengths[|lengths| - 1];
      PcmBytes(lengths[..|lengths| - 1], input) + (if input then Min(last, AUDIO_IN_BYTES_PER_MS) else last)
  }

  function CeilDiv(a: nat, b: nat): nat
    requires b > 0
  {
    (a + b - 1) / b
  }

  /** Microseconds the PCM lasts, rounded up: what the duration would be in unbounded arithmetic. */
  function PlayTimeUs(bytes: nat, input: bool): nat {
    CeilDiv(bytes * 1000, BytesPerMs(input))
  }

  /** The duration the driver computes, with its 32-bit byte total and its 32-bit cast. */
  function DurationUs(lengths: seq<nat>, input: bool): nat {
    var total := PcmBytes(lengths, input) % U32_RANGE;
    if total == 0 then Max(|lengths|, 1) * 1000 % U32_RANGE
    else Max(PlayTimeUs(total, input) % U32_RANGE, 1000)
  }

  lemma PcmStep(lengths: seq<nat>, input: bool, i: nat)
    requires i < |lengths|
    ensures PcmBytes(lengths[..i + 1], input)
         == PcmBytes(lengths[..i], input) + (if input then Min(lengths[i], AUDIO_IN_BYTES_PER_MS) else lengths[i])
  {
    assert lengths[..i + 1][..i] == lengths[..i];
  }

  lemma WrappedSum(a: nat, b: nat)
    ensures (a % U32_RANGE + b) % U32_RANGE == (a + b) % U32_RANGE
  {
  }

  method ComputeDurationUs(lengths: seq<nat>, input: bool) returns (durationUs: nat)
    ensures durationUs == DurationUs(lengths, input)
  {
    hide PcmBytes, PlayTimeUs;
    var packets := Max(|lengths|, 1);
    durationUs := packets * 1000 % U32_RANGE;
    var total := 0;
    assert PcmBytes(lengths[..0], input) == 0 by {
      NoPcm(lengths, input);
    }
    for i := 0 to |lengths|
      invariant total == PcmBytes(lengths[..i], input) % U32_RANGE
    {
      var length := lengths[i];
      if input {
        length := Min(length, AUDIO_IN_BYTES_PER_MS);
      }
      PcmStep(lengths, input, i);
      WrappedSum(PcmBytes(lengths[..i], input), length);
      total := (total + length) % U32_RANGE;
    }
    assert lengths[..|lengths|] == lengths;
    if total != 0 {
      var durationByBytes := PlayTimeUs(total, input);
      durationUs := Max(durationByBytes % U32_RANGE, 1000);
    }
  }

  lemma NoPcm(lengths: seq<nat>, input: bool)
    ensures PcmBytes(lengths[..0], input) == 0
  {
  }

  /** The completion lasts at least as long as its PCM exactly when the PCM's play time fits the
      32-bit duration, and a URB with at least 1 ms of PCM then overshoots by less than 1 us. */
  lemma DurationCoversPcm(lengths: seq<nat>, input: bool)
    ensures DurationUs(lengths, input) * BytesPerMs(input) >= PcmBytes(lengths, input) * 1000
       <==> PlayTimeUs(PcmBytes(lengths, input), input) < U32_RANGE
    ensures PlayTimeUs(PcmBytes(lengths, input), input) < U32_RANGE && PcmBytes(lengths, input) >= BytesPerMs(input)
       ==> DurationUs(lengths, input) * BytesPerMs(input) < PcmBytes(lengths, input) * 1000 + BytesPerMs(input)
  {
    var bytes, rate := PcmBytes(lengths, input), BytesPerMs(input);
    var play, d := PlayTimeUs(bytes, input), DurationUs(lengths, input);
    hide PcmBytes, CeilDiv, DurationUs;
    CeilBounds(bytes * 1000, rate);
    DurationBelowRange(lengths, input);
    if play < U32_RANGE {
      DurationFits(lengths, input);
      ScaleRate(play, Max(play, 1000), input);
      PlayOfWholeMs(bytes, input);
    } else {
      ScaleRate(d, play - 1, input);
    }
  }

  /** Less than a millisecond of PCM takes one, and a transfer without PCM one for each descriptor. */
  lemma ShortTransfers(lengths: seq<nat>, input: bool)
    ensures 0 < PcmBytes(lengths, input) <= (if input then 192 else 384) ==> DurationUs(lengths, input) == 1000
    ensures PcmBytes(lengths, input) == 0 && |lengths| <= 4000000 ==>
              DurationUs(lengths, input) == if lengths == [] then 1000 else |lengths| * 1000
  {
    var bytes := PcmBytes(lengths, input);
    hide PcmBytes, CeilDiv;
    if 0 < bytes <= BytesPerMs(input) {
      CeilBounds(bytes * 1000, BytesPerMs(input));
      PlaysUnderMs(PlayTimeUs(bytes, input), bytes, input);
      SmallModulo(bytes);
      SmallModulo(PlayTimeUs(bytes, input));
    }
  }

  lemma PlaysUnderMs(play: nat, bytes: nat, input: bool)
    requires bytes <= BytesPerMs(input) && play * BytesPerMs(input) < bytes * 1000 + BytesPerMs(input)
    ensures play <= 1000
  {
  }

  /** One microsecond too long: this speaker transfer plays for 2^32 + 1 us and is given 1 ms. */
  lemma OverlongTransferIsRushed()
    ensures PlayTimeUs(PcmBytes([1649267442], false), false) == U32_RANGE + 1
    ensures DurationUs([1649267442], false) == 1000
  {
    assert [1649267442][..0] == [];
    assert PcmBytes([], false) == 0;
    assert PcmBytes([1649267442], false) == 1649267442;
  }

  lemma DurationBelowRange(lengths: seq<nat>, input: bool)
    ensures DurationUs(lengths, input) < U32_RANGE
  {
    hide PcmBytes, PlayTimeUs;
  }

  /** In range nothing wraps. */
  lemma DurationFits(lengths: seq<nat>, input: bool)
    requires PlayTimeUs(PcmBytes(lengths, input), input) < U32_RANGE
    ensures PcmBytes(lengths, input) > 0 ==>
              DurationUs(lengths, input) == Max(PlayTimeUs(PcmBytes(lengths, input), input), 1000)
  {
    hide PcmBytes, PlayTimeUs;
    BytesBelowRange(PcmBytes(lengths, input), input);
    SmallModulo(PcmBytes(lengths, input));
    SmallModulo(PlayTimeUs(PcmBytes(lengths, input), input));
  }

  lemma SmallModulo(n: nat)
    requires n < U32_RANGE
    ensures n % U32_RANGE == n
  {
  }

  lemma BytesBelowRange(bytes: nat, input: bool)
    requires PlayTimeUs(bytes, input) < U32_RANGE
    ensures bytes < U32_RANGE
  {
    CeilBounds(bytes * 1000, BytesPerMs(input));
    hide CeilDiv;
  }

  lemma PlayOfWholeMs(bytes: nat, input: bool)
    ensures bytes >= BytesPerMs(input) ==> PlayTimeUs(bytes, input) >= 1000
  {
    CeilBounds(bytes * 1000, BytesPerMs(input));
    hide CeilDiv;
  }

  lemma CeilBounds(a: nat, b: nat)
    requires b > 0
    ensures CeilDiv(a, b) * b >= a && CeilDiv(a, b) * b < a + b
  {
    var x := a + b - 1;
    assert (x / b) * b + x % b == x;
  }

  lemma ScaleRate(d: nat, e: nat, input: bool)
    requires d <= e
    ensures d * BytesPerMs(input) <= e * BytesPerMs(input)
  {
  }

  /** One scheduled completion: its due time, its PCM, and whether the previous completion of its
      direction was still ahead of the clock, so that it queued behind it. */
  datatype Slot = Slot(ready: nat, durationUs: nat, pcmBytes: nat, queuedBehind: bool)

  /** The base a completion is scheduled from: the previous due time if still ahead, else now. */
  function Base(next: nat, now: nat): nat {
    if next > now then next else now
  }

  function Schedule(next: nat, now: nat, durationUs: nat, pcmBytes: nat): Slot {
    Slot(Base(next, now) + durationUs * NSEC_PER_USEC, durationUs, pcmBytes, next > now)
  }

  /** `next` is the due time of the last slot, and every slot starts where its predecessor ends or
      later; exactly there if it queued behind it. */
  ghost predicate Paced(slots: seq<Slot>, next: nat) {
    && (slots != [] ==> slots[|slots| - 1].ready == next)
    && (forall i :: 0 < i < |slots| ==>
          && slots[i].ready >= slots[i - 1].ready + slots[i].durationUs * NSEC_PER_USEC
          && (slots[i].queuedBehind ==> slots[i].ready == slots[i - 1].ready + slots[i].durationUs * NSEC_PER_USEC))
  }

  lemma ScheduleKeepsPaced(slots: seq<Slot>, next: nat, now: nat, durationUs: nat, pcmBytes: nat)
    requires Paced(slots, next)
    ensures var slot := Schedule(next, now, durationUs, pcmBytes); Paced(slots + [slot], slot.ready)
  {
  }

  /** Each slot after `first` up to `last` lasts at least as long as its PCM. */
  ghost predicate Covers(slots: seq<Slot>, input: bool, first: nat, last: nat) {
    forall i :: first < i <= last && i < |slots| ==>
                  slots[i].durationUs * BytesPerMs(input) >= slots[i].pcmBytes * 1000
  }

  /** Each of them overshoots its PCM by less than 1 us. */
  ghost predicate Tight(slots: seq<Slot>, input: bool, first: nat, last: nat) {
    forall i :: first < i <= last && i < |slots| ==>
                  slots[i].durationUs * BytesPerMs(input) < slots[i].pcmBytes * 1000 + BytesPerMs(input)
  }

  function PcmSum(slots: seq<Slot>, first: nat, last: nat): nat
    requires first <= last < |slots|
    decreases last
  {
    if first == last then 0 else PcmSum(slots, first, last - 1) + slots[last].pcmBytes
  }

  /** Real-time rate bound: between any two completions of one direction the clock advances by at
      least the PCM of the later ones, so the host never observes a faster-than-realtime device. */
  lemma {:induction false} RateBound(slots: seq<Slot>, next: nat, input: bool, first: nat, last: nat)
    requires Paced(slots, next) && Covers(slots, input, first, last)
    requires first <= last < |slots|
    ensures (slots[last].ready - slots[first].ready) * BytesPerMs(input) >= PcmSum(slots, first, last) * 1000 * NSEC_PER_USEC
    decreases last
  {
    if first < last {
      RateBound(slots, next, input, first, last - 1);
      var step := slots[last].ready - slots[last - 1].ready;
      assert step >= slots[last].durationUs * NSEC_PER_USEC;
      assert step * BytesPerMs(input) >= slots[last].durationUs * NSEC_PER_USEC * BytesPerMs(input);
    }
  }

  /** While the queue never idles the excess over the PCM is below 1 us per URB. */
  lemma {:induction false} BacklogDrift(slots: seq<Slot>, next: nat, input: bool, first: nat, last: nat)
    requires Paced(slots, next) && Tight(slots, input, first, last)
    requires first <= last < |slots|
    requires forall i :: first < i <= last ==> slots[i].queuedBehind
    ensures (slots[last].ready - slots[first].ready) * BytesPerMs(input)
         <= PcmSum(slots, first, last) * 1000 * NSEC_PER_USEC + (last - first) * ((BytesPerMs(input) - 1) * NSEC_PER_USEC)
    decreases last
  {
    if first < last {
      BacklogDrift(slots, next, input, first, last - 1);
      hide PcmSum, BytesPerMs;
      var rate, before, d := BytesPerMs(input), slots[last - 1].ready - slots[first].ready, slots[last].durationUs;
      assert PcmSum(slots, first, last) == PcmSum(slots, first, last - 1) + slots[last].pcmBytes by {
        SumStep(slots, first, last);
      }
      OneMore(last - first, (rate - 1) * NSEC_PER_USEC);
      Distribute(before, d * NSEC_PER_USEC, rate);
      Distribute3(d, NSEC_PER_USEC, rate);
    }
  }

  lemma SumStep(slots: seq<Slot>, first: nat, last: nat)
    requires first < last < |slots|
    ensures PcmSum(slots, first, last) == PcmSum(slots, first, last - 1) + slots[last].pcmBytes
  {
  }

  lemma Distribute(a: int, b: int, c: int)
    ensures (a + b) * c == a * c + b * c
  {
  }

  lemma Distribute3(a: int, b: int, c: int)
    ensures a * b * c == a * c * b
  {
  }

  /** Slots of at least the same duration after `first` are that far apart each. */
  lemma {:induction false} SpacedBy(slots: seq<Slot>, next: nat, durationUs: nat, first: nat, last: nat)
    requires Paced(slots, next) && first <= last < |slots|
    requires forall i :: first < i <= last ==> slots[i].durationUs == durationUs
    ensures slots[last].ready >= slots[first].ready + (last - first) * (durationUs * NSEC_PER_USEC)
    decreases last
  {
    if first < last {
      SpacedBy(slots, next, durationUs, first, last - 1);
      OneMore(last - first, durationUs * NSEC_PER_USEC);
    }
  }

  lemma OneMore(n: nat, d: nat)
    requires n > 0
    ensures n * d == (n - 1) * d + d
  {
  }
}
