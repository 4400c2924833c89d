/** Microphone queue of the Linux host controller (module/vds_hcd_core.c): packets of PCM written by
    user space, read out a byte range at a time by ISO IN completions, the oldest dropped on overflow. */
module HcdMicQueue {
  import opened VdsTypes

  const AUDIO_IN_QUEUE_MAX_BYTES: nat := 19200
  const FRAME_MAX_PAYLOAD: nat := 4096

  /** The queue as a FIFO over one byte stream. `held` are the unread remainders of the packets, `stream`
      all bytes ever accepted; `delivered`, `dropped` and `flushed` count those that left. */
  datatype MicState = MicState(held: seq<seq<u8>>, stream: seq<u8>, delivered: nat, dropped: nat, flushed: nat)

  const EMPTY := MicState([], [], 0, 0, 0)

  /** How many of the oldest remainders must go to make room for `room` more bytes. */
  function DropCount(held: seq<seq<u8>>, room: nat): (k: nat)
    ensures k <= |held|
  {
    if held == [] || |Flatten(held)| + room <= AUDIO_IN_QUEUE_MAX_BYTES then 0
    else 1 + DropCount(held[1..], room)
  }

  function Write(s: MicState, payload: seq<u8>): MicState {
    var k := DropCount(s.held, |payload|);
    s.(held := s.held[k..] + [payload], stream := s.stream + payload, dropped := s.dropped + |Flatten(s.held[..k])|)
  }

  /** What remains of the pieces without their first `n` bytes. */
  function DropBytes(held: seq<seq<u8>>, n: nat): seq<seq<u8>> {
    if held == [] then []
    else if n < |held[0]| then [held[0][n..]] + held[1..]
    else DropBytes(held[1..], n - |held[0]|)
  }

  function Fill(s: MicState, length: nat): (r: (MicState, seq<u8>))
    ensures |r.1| == length
  {
    var bytes := Flatten(s.held);
    var n := Min(length, |bytes|);
    (s.(held := DropBytes(s.held, n), delivered := s.delivered + n), bytes[..n] + Silence(length - n))
  }

  function Flush(s: MicState): MicState {
    s.(held := [], flushed := s.flushed + |Flatten(s.held)|)
  }

  ghost predicate Pieces(held: seq<seq<u8>>) {
    forall i :: 0 <= i < |held| ==> 0 < |held[i]| <= FRAME_MAX_PAYLOAD
  }

  /** What is held is the end of the stream, and at most the cap; every byte is accounted for. */
  ghost predicate Fifo(s: MicState) {
    && Pieces(s.held)
    && |Flatten(s.held)| <= AUDIO_IN_QUEUE_MAX_BYTES
    && |s.stream| == s.delivered + s.dropped + s.flushed + |Flatten(s.held)|
    && Flatten(s.held) == s.stream[s.delivered + s.dropped + s.flushed..]
  }

  lemma {:induction false} DropCountFits(held: seq<seq<u8>>, room: nat)
    requires room <= AUDIO_IN_QUEUE_MAX_BYTES
    ensures |Flatten(held[DropCount(held, room)..])| + room <= AUDIO_IN_QUEUE_MAX_BYTES
  {
    if held != [] && |Flatten(held)| + room > AUDIO_IN_QUEUE_MAX_BYTES {
      DropCountFits(held[1..], room);
      assert held[1..][DropCount(held[1..], room)..] == held[DropCount(held, room)..];
    }
  }

  /** No smaller number of drops would do. */
  lemma {:induction false} DropCountLeast(held: seq<seq<u8>>, room: nat, k: nat)
    requires k < DropCount(held, room)
    ensures |Flatten(held[k..])| + room > AUDIO_IN_QUEUE_MAX_BYTES
  {
    if k > 0 {
      DropCountLeast(held[1..], room, k - 1);
      assert held[1..][k - 1..] == held[k..];
    }
  }

  lemma FlattenSplit(held: seq<seq<u8>>, k: nat)
    requires k <= |held|
    ensures Flatten(held) == Flatten(held[..k]) + Flatten(held[k..])
  {
    hide Flatten;
    FlattenAppend(held[..k], held[k..]);
    assert held[..k] + held[k..] == held;
  }

  lemma SuffixGrows(stream: seq<u8>, from: nat, gone: seq<u8>, kept: seq<u8>, payload: seq<u8>)
    requires from <= |stream| && stream[from..] == gone + kept
    ensures (stream + payload)[from + |gone|..] == kept + payload
  {
    assert |stream| == from + |gone| + |kept|;
    assert stream[from + |gone|..] == stream[from..][|gone|..];
  }

  lemma WriteKeepsFifo(s: MicState, payload: seq<u8>)
    requires Fifo(s) && 0 < |payload| <= FRAME_MAX_PAYLOAD
    ensures Fifo(Write(s, payload))
  {
    var k := DropCount(s.held, |payload|);
    DropCountFits(s.held, |payload|);
    FlattenSplit(s.held, k);
    FlattenAppend(s.held[k..], [payload]);
    FlattenOne(payload);
    hide Flatten;
    SuffixGrows(s.stream, s.delivered + s.dropped + s.flushed, Flatten(s.held[..k]), Flatten(s.held[k..]), payload);
  }

  /** Drops are forced: after a write that dropped anything the queue is within one packet of its cap. */
  lemma DropsAreForced(s: MicState, payload: seq<u8>)
    requires Fifo(s) && 0 < |payload| <= FRAME_MAX_PAYLOAD
    ensures Write(s, payload).dropped > s.dropped <==> |Flatten(s.held)| + |payload| > AUDIO_IN_QUEUE_MAX_BYTES
    ensures Write(s, payload).dropped > s.dropped ==>
              |Flatten(Write(s, payload).held)| > AUDIO_IN_QUEUE_MAX_BYTES - FRAME_MAX_PAYLOAD
    ensures Write(s, payload).stream == s.stream + payload && Write(s, payload).delivered == s.delivered
  {
    var k := DropCount(s.held, |payload|);
    if k > 0 {
      DropCountLeast(s.held, |payload|, k - 1);
      assert s.held[k - 1..] == [s.held[k - 1]] + s.held[k..];
      FlattenSplit(s.held[k - 1..], 1);
      FlattenAppend(s.held[k..], [payload]);
      FlattenOne(payload);
      assert |s.held[0]| > 0;
    }
  }

  lemma {:induction false} DropBytesSuffix(held: seq<seq<u8>>, n: nat)
    requires Pieces(held) && n <= |Flatten(held)|
    ensures Pieces(DropBytes(held, n)) && Flatten(DropBytes(held, n)) == Flatten(held)[n..]
  {
    if held != [] {
      var rest := held[1..];
      if n < |held[0]| {
        var r := [held[0][n..]] + rest;
        assert r[1..] == rest;
      } else {
        DropBytesSuffix(rest, n - |held[0]|);
      }
    }
  }

  lemma FillKeepsFifo(s: MicState, length: nat)
    requires Fifo(s)
    ensures Fifo(Fill(s, length).0)
  {
    DropBytesSuffix(s.held, Min(length, |Flatten(s.held)|));
  }

  datatype Op = DoWrite(payload: seq<u8>) | DoFill(length: nat) | DoFlush

  function Next(s: MicState, op: Op): MicState {
    match op
    case DoWrite(payload) => if 0 < |payload| <= FRAME_MAX_PAYLOAD then Write(s, payload) else s
    case DoFill(length) => Fill(s, length).0
    case DoFlush => Flush(s)
  }

  function Run(ops: seq<Op>): MicState {
    if ops == [] then EMPTY else Next(Run(ops[..|ops| - 1]), ops[|ops| - 1])
  }

  lemma {:induction false} RunKeepsFifo(ops: seq<Op>)
    ensures Fifo(Run(ops))
  {
    if ops != [] {
      var s := Run(ops[..|ops| - 1]);
      RunKeepsFifo(ops[..|ops| - 1]);
      match ops[|ops| - 1]
      case DoWrite(payload) =>
        if 0 < |payload| <= FRAME_MAX_PAYLOAD {
          WriteKeepsFifo(s, payload);
        }
      case DoFill(length) => FillKeepsFifo(s, length);
      case DoFlush =>
        assert Flatten<u8>([]) == [];
        assert s.stream[|s.stream|..] == [];
    }
  }

  /** Over any run: the next fill delivers the stream from where it stands, never stale order, and
      silence only beyond its end. */
  lemma NextFillContinuesStream(ops: seq<Op>, length: nat)
    ensures var s := Run(ops);
            var from := s.delivered + s.dropped + s.flushed;
            && from <= |s.stream| <= from + AUDIO_IN_QUEUE_MAX_BYTES
            && var n := Min(length, |s.stream| - from);
               && Fill(s, length).1 == s.stream[from..from + n] + Silence(length - n)
               && Fill(s, length).0.stream == s.stream && Fill(s, length).0.delivered == s.delivered + n
  {
    RunKeepsFifo(ops);
    var s := Run(ops);
    var from := s.delivered + s.dropped + s.flushed;
    var n := Min(length, |s.stream| - from);
    assert Flatten(s.held)[..n] == s.stream[from..from + n];
  }

  datatype Packet = Packet(payload: seq<u8>, offset: nat)

  function Remainder(p: Packet): seq<u8> {
    if p.offset <= |p.payload| then p.payload[p.offset..] else []
  }

  function Remainders(packets: seq<Packet>): seq<seq<u8>> {
    seq(|packets|, i requires 0 <= i < |packets| => Remainder(packets[i]))
  }

  /** Copying from the first piece, whole or in part. */
  lemma OldestCopied(held: seq<seq<u8>>, n: nat)
    requires Pieces(held) && held != [] && n <= |held[0]|
    ensures n <= |Flatten(held)| && held[0][..n] == Flatten(held)[..n]
    ensures DropBytes(held, n) == if n == |held[0]| then held[1..] else [held[0][n..]] + held[1..]
    ensures Pieces(DropBytes(held, n)) && |Flatten(DropBytes(held, n))| == |Flatten(held)| - n
  {
    DropBytesSuffix(held, n);
    if n == |held[0]| {
      DropNone(held[1..]);
    }
  }

  class MicQueue {
    var packets: seq<Packet>
    var packetCount: nat
    var queuedBytes: nat
    var stopping: bool
    ghost var model: MicState

    /** The packets stand for `held`: same remainders, none used up, the counters right. */
    ghost predicate Holds(held: seq<seq<u8>>)
      reads this
    {
      && Pieces(held) && Remainders(packets) == held
      && (forall i :: 0 <= i < |packets| ==> packets[i].offset < |packets[i].payload|)
      && packetCount == |packets|
      && queuedBytes == |Flatten(held)|
    }

    ghost predicate Valid()
      reads this
    {
      Fifo(model) && Holds(model.held)
    }

    constructor ()
      ensures Valid() && model == EMPTY && !stopping
    {
      packets, packetCount, queuedBytes, stopping, model := [], 0, 0, false, EMPTY;
    }

    /** Free the oldest packet. */
    method DropOldest()
      requires packets != [] && Holds(Remainders(packets))
      modifies this`packets, this`packetCount, this`queuedBytes
      ensures Holds(Remainders(old(packets))[1..])
    {
      assert Remainders(packets)[0] == Remainder(packets[0]);
      assert Remainders(packets[1..]) == Remainders(packets)[1..];
      var available := |packets[0].payload| - packets[0].offset;
      packets := packets[1..];
      packetCount := packetCount - 1;
      queuedBytes := Max(queuedBytes - available, 0);
    }

    method AppendPacket(payload: seq<u8>)
      requires Holds(Remainders(packets)) && 0 < |payload| <= FRAME_MAX_PAYLOAD
      modifies this`packets, this`packetCount, this`queuedBytes
      ensures Holds(Remainders(old(packets)) + [payload]) && packets == old(packets) + [Packet(payload, 0)]
    {
      FlattenAppend(Remainders(packets), [payload]);
      FlattenOne(payload);
      assert Remainders(packets + [Packet(payload, 0)]) == Remainders(packets) + [payload];
      packets := packets + [Packet(payload, 0)];
      packetCount := packetCount + 1;
      queuedBytes := queuedBytes + |payload|;
    }

    /** Drop the oldest packets until `room` more bytes fit. */
    method MakeRoom(room: nat)
      requires Holds(model.held)
      modifies this`packets, this`packetCount, this`queuedBytes
      ensures Holds(model.held[DropCount(model.held, room)..])
    {
      ghost var held, k := model.held, 0;
      HeldFacts(held);
      assert held[0..] == held;
      hide Holds, Flatten, Pieces, Remainders;
      while packets != [] && queuedBytes + room > AUDIO_IN_QUEUE_MAX_BYTES
        invariant k <= |model.held| && held == model.held[k..] && Holds(held)
        invariant |held| == |packets| && queuedBytes == |Flatten(held)|
        invariant DropCount(model.held, room) == k + DropCount(held, room)
        decreases |packets|
      {
        HeldFacts(held);
        DropOldest();
        held, k := held[1..], k + 1;
        HeldFacts(held);
      }
    }

    /** Accept a frame of PCM: refused when empty or when the device is stopping. */
    method WriteAudioInFrame(payload: seq<u8>) returns (accepted: bool)
      requires Valid() && |payload| <= FRAME_MAX_PAYLOAD
      modifies this
      ensures Valid() && stopping == old(stopping)
      ensures accepted == (payload != [] && !stopping)
      ensures model == if accepted then Write(old(model), payload) else old(model)
      ensures accepted ==> packets != [] && packets[|packets| - 1] == Packet(payload, 0)
    {
      accepted := payload != [] && !stopping;
      if accepted {
        WriteKeepsFifo(model, payload);
        hide Holds, Fifo, Flatten, Pieces, Remainders;
        MakeRoom(|payload|);
        HeldFacts(model.held[DropCount(model.held, |payload|)..]);
        AppendPacket(payload);
        model := Write(model, payload);
      }
    }

    /** Copy from the oldest packet at most `wanted` bytes and drop the packet once it is used up. */
    method CopyFromOldest(wanted: nat) returns (data: seq<u8>)
      requires packets != [] && wanted > 0 && Holds(Remainders(packets))
      modifies this`packets, this`packetCount, this`queuedBytes
      ensures 0 < |data| <= wanted && |data| <= |Flatten(Remainders(old(packets)))|
      ensures data == Flatten(Remainders(old(packets)))[..|data|]
      ensures Holds(DropBytes(Remainders(old(packets)), |data|))
    {
      hide Flatten, DropBytes, Pieces;
      var p := packets[0];
      ghost var held := Remainders(packets);
      assert held[0] == Remainder(p) && held[1..] == Remainders(packets[1..]);
      var copyLength := Min(wanted, |p.payload| - p.offset);
      data := p.payload[p.offset..p.offset + copyLength];
      queuedBytes := Max(queuedBytes - copyLength, 0);
      OldestCopied(held, copyLength);
      if p.offset + copyLength == |p.payload| {
        packets := packets[1..];
        packetCount := packetCount - 1;
      } else {
        packets := [Packet(p.payload, p.offset + copyLength)] + packets[1..];
        assert Remainders(packets) == [held[0][copyLength..]] + held[1..];
      }
    }

    method CopyQueued(length: nat) returns (data: seq<u8>)
      requires Holds(model.held)
      modifies this`packets, this`packetCount, this`queuedBytes
      ensures var n := Min(length, |Flatten(model.held)|);
              data == Flatten(model.held)[..n] && Holds(DropBytes(model.held, n))
    {
      ghost var bytes, held := Flatten(model.held), model.held;
      DropNone(held);
      HeldFacts(held);
      hide DropBytes, Flatten, Holds, Pieces, Remainders;
      data := [];
      while |data| < length && packets != []
        invariant |data| <= length && |data| <= |bytes| && data == bytes[..|data|]
        invariant Holds(held) && Flatten(held) == bytes[|data|..]
        invariant held == DropBytes(model.held, |data|)
        decreases length - |data|
      {
        HeldFacts(held);
        var more := CopyFromOldest(length - |data|);
        DropBytesSuffix(held, |more|);
        DropBytesTwice(model.held, |data|, |more|);
        CopiedMore(bytes, data, more);
        held := DropBytes(held, |more|);
        data := data + more;
      }
      HeldFacts(held);
    }

    lemma HeldFacts(held: seq<seq<u8>>)
      requires Holds(held)
      ensures Pieces(held) && held == Remainders(packets) && |held| == |packets|
      ensures queuedBytes == |Flatten(held)|
      ensures packets == [] ==> Flatten(held) == []
    {
    }

    /** Fill `length` bytes of a transfer buffer from the queue, then with zeros. */
    method FillAudioIn(length: nat) returns (data: seq<u8>)
      requires Valid()
      modifies this
      ensures Valid() && stopping == old(stopping)
      ensures (model, data) == Fill(old(model), length)
    {
      hide DropBytes, Flatten;
      FillKeepsFifo(model, length);
      data := CopyQueued(length);
      data := data + Silence(length - |data|);
      model := Fill(model, length).0;
    }

    /** Throw the queue away, as a disconnect and a stop do. */
    method FlushBufferedFrames()
      requires Valid()
      modifies this
      ensures Valid() && model == Flush(old(model)) && stopping == old(stopping)
      ensures queuedBytes == 0 && packets == [] && model.held == [] && model.stream == old(model.stream)
    {
      packets, packetCount, queuedBytes := [], 0, 0;
      model := Flush(model);
      assert Flatten<u8>([]) == [];
      assert model.stream[|model.stream|..] == [];
    }
  }

  lemma {:induction false} DropBytesTwice(held: seq<seq<u8>>, m: nat, n: nat)
    requires Pieces(held) && m + n <= |Flatten(held)|
    ensures DropBytes(held, m + n) == DropBytes(DropBytes(held, m), n)
  {
    if held != [] {
      if m < |held[0]| {
        if m + n < |held[0]| {
          assert held[0][m..][n..] == held[0][m + n..];
        }
      } else {
        DropBytesTwice(held[1..], m - |held[0]|, n);
      }
    }
  }

  lemma CopiedMore(bytes: seq<u8>, data: seq<u8>, more: seq<u8>)
    requires |data| + |more| <= |bytes| && data == bytes[..|data|] && more == bytes[|data|..][..|more|]
    ensures data + more == bytes[..|data| + |more|]
    ensures bytes[|data|..][|more|..] == bytes[|data| + |more|..]
  {
  }

  lemma DropNone(held: seq<seq<u8>>)
    requires Pieces(held)
    ensures DropBytes(held, 0) == held
  {
    if held != [] {
      assert [held[0][0..]] + held[1..] == held;
    }
  }
}
