/** Microphone jitter buffer of the USB/IP server (src/platform/win32/vds_usbip.cc). Payloads are taken
    after the capture gain, which changes no lengths. */
module UsbipMic {
  import opened VdsTypes

  const MIC_PRIME_BYTES: nat := 7680
  const MIC_MAX_BUFFER_BYTES: nat := 23040

  /** `stream` is all audio ever received; the counts say what became of the bytes that left the buffer. */
  datatype MicState = MicState(
    held: seq<u8>,
    primed: bool,
    stream: seq<u8>,
    delivered: nat,
    dropped: nat,
    flushed: nat)

  const EMPTY := MicState([], false, [], 0, 0, 0)

  /** Audio from the daemon; the oldest bytes go once the buffer is over its cap. */
  function Receive(s: MicState, payload: seq<u8>): MicState {
    var all := s.held + payload;
    var excess := Max(0, |all| - MIC_MAX_BUFFER_BYTES);
    s.(held := all[excess..], stream := s.stream + payload, dropped := s.dropped + excess)
  }

  /** A pull of `count` bytes by the host. */
  function Take(s: MicState, count: nat): (r: (MicState, seq<u8>))
    ensures |r.1| == count
  {
    if !s.primed && |s.held| < MIC_PRIME_BYTES then (s, Silence(count))
    else if |s.held| >= count then
      (s.(primed := true, held := s.held[count..], delivered := s.delivered + count), s.held[..count])
    else
      (s.(primed := false, held := [], delivered := s.delivered + |s.held|), s.held + Silence(count - |s.held|))
  }

  /** The microphone interface is switched. */
  function Flush(s: MicState): MicState {
    s.(held := [], primed := false, flushed := s.flushed + |s.held|)
  }

  datatype Step = DoReceive(payload: seq<u8>) | DoTake(count: nat) | DoFlush

  function Next(s: MicState, step: Step): MicState {
    match step
    case DoReceive(payload) => Receive(s, payload)
    case DoTake(count) => Take(s, count).0
    case DoFlush => Flush(s)
  }

  function Run(s: MicState, steps: seq<Step>): MicState {
    if steps == [] then s else Next(Run(s, steps[..|steps| - 1]), steps[|steps| - 1])
  }

  /** Where the buffer stands in the stream. */
  function Position(s: MicState): nat {
    s.delivered + s.dropped + s.flushed
  }

  /** The buffer is the end of the stream, within the cap: received = delivered + dropped + flushed + held. */
  ghost predicate Fifo(s: MicState) {
    && |s.held| <= MIC_MAX_BUFFER_BYTES
    && |s.stream| == Position(s) + |s.held|
    && s.held == s.stream[Position(s)..]
  }

  lemma ReceiveKeepsFifo(s: MicState, payload: seq<u8>)
    requires Fifo(s)
    ensures Fifo(Receive(s, payload))
  {
    var excess := Max(0, |s.held + payload| - MIC_MAX_BUFFER_BYTES);
    assert (s.stream + payload)[Position(s)..] == s.held + payload;
    assert (s.stream + payload)[Position(s)..][excess..] == (s.stream + payload)[Position(s) + excess..];
  }

  lemma TakeKeepsFifo(s: MicState, count: nat)
    requires Fifo(s)
    ensures Fifo(Take(s, count).0)
  {
    if |s.held| >= count {
      assert s.stream[Position(s)..][count..] == s.stream[Position(s) + count..];
    }
  }

  lemma {:induction false} RunKeepsFifo(steps: seq<Step>)
    ensures Fifo(Run(EMPTY, steps))
  {
    if steps != [] {
      var s := Run(EMPTY, steps[..|steps| - 1]);
      RunKeepsFifo(steps[..|steps| - 1]);
      match steps[|steps| - 1]
      case DoReceive(payload) => ReceiveKeepsFifo(s, payload);
      case DoTake(count) => TakeKeepsFifo(s, count);
      case DoFlush =>
    }
  }

  lemma TakeReadsStream(s: MicState, count: nat)
    requires Fifo(s)
    ensures var (t, out) := Take(s, count);
            var n := t.delivered - s.delivered;
            && 0 <= n <= count && Position(s) + n <= |s.stream|
            && out == s.stream[Position(s)..Position(s) + n] + Silence(count - n)
  {
    var (t, out) := Take(s, count);
    var n := t.delivered - s.delivered;
    assert s.held[..n] == s.stream[Position(s)..Position(s) + n];
    assert s.held[..n] + Silence(count - n) == out;
  }

  /** Whatever a pull returns that is not padding is the stream from where the buffer stands, complete and
      in order; padding comes after it. */
  lemma PullReadsStream(steps: seq<Step>, count: nat)
    ensures var s := Run(EMPTY, steps);
            var (t, out) := Take(s, count);
            var n := t.delivered - s.delivered;
            && 0 <= n <= count && Position(s) + n <= |s.stream|
            && out == s.stream[Position(s)..Position(s) + n] + Silence(count - n)
  {
    hide Take, Fifo, Run;
    RunKeepsFifo(steps);
    TakeReadsStream(Run(EMPTY, steps), count);
  }

  // ---------------------------------------------------------------------------------------------
  // What each operation does to the buffer
  // ---------------------------------------------------------------------------------------------

  /** `kept` is the newest part of `all`, as much of it as the buffer may hold. */
  ghost predicate NewestOf(kept: seq<u8>, all: seq<u8>) {
    |kept| == Min(23040, |all|) && kept == all[|all| - |kept|..]
  }

  /** In every reachable state a receive keeps the newest 23040 bytes of what was held and what came, and
      drops the rest and no more; so a receive that drops anything leaves the buffer full. */
  lemma ReceiveExactly(steps: seq<Step>, payload: seq<u8>)
    ensures var s := Run(EMPTY, steps);
            var t := Next(s, DoReceive(payload));
            && NewestOf(t.held, s.held + payload)
            && t.dropped == s.dropped + |s.held| + |payload| - |t.held|
            && (t.dropped > s.dropped ==> |t.held| == 23040)
            && t.primed == s.primed && t.delivered == s.delivered && t.flushed == s.flushed
            && t.stream == s.stream + payload
  {
    RunKeepsFifo(steps);
    hide Run;
  }

  /** In every reachable state a pull takes from the front of the buffer what it can, if the buffer is
      primed or holds 40 ms, and else nothing; it drops nothing. */
  lemma TakeExactly(steps: seq<Step>, count: nat)
    ensures var s := Run(EMPTY, steps);
            var (t, out) := Take(s, count);
            var taken := if s.primed || |s.held| >= 7680 then Min(count, |s.held|) else 0;
            && |out| == count && out[..taken] == s.held[..taken] && (forall i :: taken <= i < count ==> out[i] == 0)
            && t.held == s.held[taken..] && t.delivered == s.delivered + taken
            && t.dropped == s.dropped && t.flushed == s.flushed && t.stream == s.stream
            && (t.primed <==> (s.primed || |s.held| >= 7680) && count <= |s.held|)
  {
    RunKeepsFifo(steps);
    hide Run, Fifo;
    var s := Run(EMPTY, steps);
    assert s.held[0..] == s.held;
  }

  /** A run that only receives. */
  function Receives(payloads: seq<seq<u8>>): (steps: seq<Step>)
    ensures |steps| == |payloads|
  {
    seq(|payloads|, i requires 0 <= i < |payloads| => DoReceive(payloads[i]))
  }

  function Joined(payloads: seq<seq<u8>>): seq<u8> {
    if payloads == [] then [] else Joined(payloads[..|payloads| - 1]) + payloads[|payloads| - 1]
  }

  lemma {:induction false} BufferFills(s: MicState, payloads: seq<seq<u8>>)
    requires |s.held| + |Joined(payloads)| <= 23040
    ensures Run(s, Receives(payloads)) == s.(held := s.held + Joined(payloads), stream := s.stream + Joined(payloads))
    decreases |payloads|
  {
    if payloads == [] {
      assert s.held + [] == s.held && s.stream + [] == s.stream;
    } else {
      var before, last := payloads[..|payloads| - 1], payloads[|payloads| - 1];
      BufferFills(s, before);
      assert Receives(payloads)[..|payloads| - 1] == Receives(before);
      ReceiveWithin(Run(s, Receives(before)), last);
      assert (s.held + Joined(before)) + last == s.held + Joined(payloads);
      assert (s.stream + Joined(before)) + last == s.stream + Joined(payloads);
    }
  }

  lemma ReceiveWithin(s: MicState, payload: seq<u8>)
    requires |s.held| + |payload| <= 23040
    ensures Receive(s, payload) == s.(held := s.held + payload, stream := s.stream + payload)
  {
    assert (s.held + payload)[0..] == s.held + payload;
  }

  /** The buffer does fill: once 40 ms are held, in however many pieces they came, a pull that asks for no
      more gets the first of them. */
  lemma PlaysOnceFilled(s: MicState, payloads: seq<seq<u8>>, count: nat)
    requires 7680 <= |s.held| + |Joined(payloads)| <= 23040 && count <= |s.held| + |Joined(payloads)|
    ensures Take(Run(s, Receives(payloads)), count).1 == (s.held + Joined(payloads))[..count]
  {
    BufferFills(s, payloads);
    hide Run, Joined, Receives;
  }

  ghost predicate NeverPrimes(s: MicState, steps: seq<Step>) {
    forall i :: 0 <= i < |steps| && steps[i].DoTake? ==> |Run(s, steps[..i]).held| < MIC_PRIME_BYTES
  }

  /** After an underrun, or from the start, every pull returns silence and takes nothing as long as no
      pull finds the cushion of 40 ms. */
  lemma {:induction false} SilenceUntilPrimed(s: MicState, steps: seq<Step>)
    requires !s.primed && NeverPrimes(s, steps)
    ensures !Run(s, steps).primed && Run(s, steps).delivered == s.delivered
    ensures forall i :: 0 <= i < |steps| && steps[i].DoTake? ==>
                          Take(Run(s, steps[..i]), steps[i].count).1 == Silence(steps[i].count)
    decreases |steps|
  {
    if steps != [] {
      var before := steps[..|steps| - 1];
      forall i | 0 <= i < |before|
        ensures steps[..i] == before[..i] && steps[i] == before[i]
      {
      }
      assert NeverPrimes(s, before);
      SilenceUntilPrimed(s, before);
      var last := steps[|steps| - 1];
      if last.DoTake? {
        assert |Run(s, steps[..|steps| - 1]).held| < MIC_PRIME_BYTES;
      }
    }
  }

  /** No pull asks for more than is held, and the interface is not switched. */
  ghost predicate NeverShort(s: MicState, steps: seq<Step>) {
    forall i :: 0 <= i < |steps| ==>
                  match steps[i]
                  case DoTake(count) => count <= |Run(s, steps[..i]).held|
                  case DoFlush => false
                  case DoReceive(_) => true
  }

  ghost predicate AlwaysPrimed(s: MicState, steps: seq<Step>) {
    forall k :: 0 <= k <= |steps| ==> Run(s, steps[..k]).primed
  }

  /** How many bytes the pulls ask for together. */
  function Asked(steps: seq<Step>): nat {
    if steps == [] then 0
    else Asked(steps[..|steps| - 1]) + if steps[|steps| - 1].DoTake? then steps[|steps| - 1].count else 0
  }

  /** Over any run: once primed the buffer stays so exactly as long as every pull can be met and the
      interface is not switched; and so long every pull is met from the buffer, without padding. */
  lemma {:induction false} PrimedUntilUnderrun(s: MicState, steps: seq<Step>)
    requires s.primed
    ensures AlwaysPrimed(s, steps) <==> NeverShort(s, steps)
    ensures NeverShort(s, steps) ==> Run(s, steps).delivered == s.delivered + Asked(steps)
    ensures NeverShort(s, steps) ==> AllMet(s, steps)
    decreases |steps|
  {
    hide Run, Take, NeverShort, AlwaysPrimed, AllMet;
    if steps == [] {
      NothingRun(s);
    } else {
      var before, last := steps[..|steps| - 1], steps[|steps| - 1];
      assert steps == before + [last];
      PrimedUntilUnderrun(s, before);
      NeverShortStep(s, before, last, steps);
      AlwaysPrimedStep(s, before, last, steps);
      AllMetStep(s, before, last, steps);
      OneStepPrimed(s, steps);
    }
  }

  /** Every pull is met from the buffer, without padding. */
  ghost predicate AllMet(s: MicState, steps: seq<Step>) {
    forall i :: 0 <= i < |steps| && steps[i].DoTake? ==> MetInFull(Run(s, steps[..i]), steps[i].count)
  }

  lemma NothingRun(s: MicState)
    ensures Run(s, []) == s && NeverShort(s, []) && AllMet(s, [])
    ensures AlwaysPrimed(s, []) <==> s.primed
  {
    var none: seq<Step> := [];
    assert none[..0] == [];
  }

  lemma NeverShortStep(s: MicState, before: seq<Step>, last: Step, steps: seq<Step>)
    requires steps == before + [last]
    ensures NeverShort(s, steps)
       <==> NeverShort(s, before) && match last
                                     case DoTake(count) => count <= |Run(s, before).held|
                                     case DoFlush => false
                                     case DoReceive(_) => true
  {
    hide Run;
    assert steps[..|before|] == before && steps[|before|] == last;
    forall i | 0 <= i < |before| ensures Run(s, steps[..i]) == Run(s, before[..i]) && steps[i] == before[i] {
      assert steps[..i] == before[..i];
    }
  }

  lemma AlwaysPrimedStep(s: MicState, before: seq<Step>, last: Step, steps: seq<Step>)
    requires steps == before + [last]
    ensures AlwaysPrimed(s, steps) <==> AlwaysPrimed(s, before) && Run(s, steps).primed
    ensures AlwaysPrimed(s, before) ==> Run(s, before).primed
  {
    hide Run;
    assert before[..|before|] == before && steps[..|steps|] == steps;
    forall k | 0 <= k <= |before| ensures Run(s, steps[..k]) == Run(s, before[..k]) {
      assert steps[..k] == before[..k];
    }
  }

  lemma AllMetStep(s: MicState, before: seq<Step>, last: Step, steps: seq<Step>)
    requires steps == before + [last]
    ensures AllMet(s, steps) <==> AllMet(s, before) && (last.DoTake? ==> MetInFull(Run(s, before), last.count))
  {
    hide Run, MetInFull;
    assert steps[..|before|] == before && steps[|before|] == last;
    forall i | 0 <= i < |before| ensures Run(s, steps[..i]) == Run(s, before[..i]) && steps[i] == before[i] {
      assert steps[..i] == before[..i];
    }
  }

  /** A pull that returns what is held, and nothing else. */
  ghost predicate MetInFull(s: MicState, count: nat) {
    count <= |s.held| && Take(s, count).1 == s.held[..count]
  }

  lemma OneStepPrimed(s: MicState, steps: seq<Step>)
    requires steps != []
    ensures var before, last := Run(s, steps[..|steps| - 1]), steps[|steps| - 1];
            var after := Run(s, steps);
            before.primed ==>
              match last
              case DoReceive(_) => after.primed && after.delivered == before.delivered
              case DoFlush => !after.primed
              case DoTake(count) =>
                && (after.primed <==> count <= |before.held|)
                && (after.primed ==> MetInFull(before, count) && after.delivered == before.delivered + count)
  {
  }

  class MicBuffer {
    var micRingBuffer: seq<u8>
    var micPrimed: bool
    var micUnderrunCount: nat
    var micZeroPadBytes: nat
    ghost var model: MicState

    ghost predicate Valid()
      reads this
    {
      micRingBuffer == model.held && micPrimed == model.primed && Fifo(model)
    }

    constructor ()
      ensures Valid() && model == EMPTY
    {
      micRingBuffer, micPrimed, micUnderrunCount, micZeroPadBytes, model := [], false, 0, 0, EMPTY;
    }

    method ReceiveAudioIn(payload: seq<u8>)
      requires Valid()
      modifies this
      ensures Valid() && model == Receive(old(model), payload)
      ensures NewestOf(micRingBuffer, old(micRingBuffer) + payload) && micPrimed == old(micPrimed)
    {
      assert |model.held| <= MIC_MAX_BUFFER_BYTES;
      ReceiveKeepsFifo(model, payload);
      hide Fifo;
      micRingBuffer := micRingBuffer + payload;
      if |micRingBuffer| > MIC_MAX_BUFFER_BYTES {
        micRingBuffer := micRingBuffer[|micRingBuffer| - MIC_MAX_BUFFER_BYTES..];
      }
      model := Receive(model, payload);
    }

    method TakeMicBytes(count: nat) returns (out: seq<u8>)
      requires Valid()
      modifies this
      ensures Valid() && (model, out) == Take(old(model), count)
      ensures var taken := if Awake(old(model)) then Min(count, |old(micRingBuffer)|) else 0;
              out == old(micRingBuffer)[..taken] + Silence(count - taken) && micRingBuffer == old(micRingBuffer)[taken..]
      ensures micUnderrunCount == old(micUnderrunCount) + if |old(model).held| < count && Awake(old(model)) then 1 else 0
      ensures micZeroPadBytes == old(micZeroPadBytes) + if |old(model).held| < count && Awake(old(model)) then count - |old(model).held| else 0
    {
      TakeKeepsFifo(model, count);
      hide Fifo;
      ghost var next := Take(model, count).0;
      if !micPrimed {
        if |micRingBuffer| >= MIC_PRIME_BYTES {
          micPrimed := true;
        } else {
          return Silence(count);
        }
      }
      if |micRingBuffer| >= count {
        out := micRingBuffer[..count];
        micRingBuffer := micRingBuffer[count..];
      } else {
        out := micRingBuffer + Silence(count - |micRingBuffer|);
        micZeroPadBytes := micZeroPadBytes + count - |micRingBuffer|;
        micRingBuffer, micPrimed := [], false;
        micUnderrunCount := micUnderrunCount + 1;
      }
      model := next;
    }

    method SwitchInterface()
      requires Valid()
      modifies this
      ensures Valid() && model == Flush(old(model)) && micRingBuffer == [] && !micPrimed
    {
      micRingBuffer, micPrimed := [], false;
      model := Flush(model);
    }
  }

  /** Delivering, or about to. */
  predicate Awake(s: MicState) {
    s.primed || |s.held| >= MIC_PRIME_BYTES
  }
}
