/** The two byte rings of a port of the Windows virtual USB driver (windrv/vds_usb/vds_usb.c): frames for
    user space, and microphone PCM of which the newest is kept. */
module WinRings {
  import opened VdsTypes
  import opened WinFrames

  const CONTROL_RING_SIZE: nat := 262144
  const AUDIO_IN_RING_SIZE: nat := 65536

  /** The `size` bytes that start at `head` and continue at the front of the memory. */
  function Unroll(data: seq<u8>, head: nat, size: nat): (r: seq<u8>)
    requires head < |data| && size <= |data|
    ensures |r| == size
  {
    if head + size <= |data| then data[head..head + size] else data[head..] + data[..head + size - |data|]
  }

  lemma AppendWithin(data: seq<u8>, head: nat, size: nat, bytes: seq<u8>)
    requires head < |data| && head + size + |bytes| <= |data|
    ensures Unroll(Store(data, head + size, bytes), head, size + |bytes|) == Unroll(data, head, size) + bytes
  {
  }

  lemma UnrollWithin(data: seq<u8>, head: nat, size: nat)
    requires head < |data| && head + size <= |data|
    ensures Unroll(data, head, size) == data[head..head + size]
  {
  }

  lemma UnrollAcross(data: seq<u8>, head: nat, size: nat)
    requires head < |data| && size <= |data| <= head + size
    ensures Unroll(data, head, size) == data[head..] + data[..head + size - |data|]
  {
  }

  lemma StoreAcross(data: seq<u8>, tail: nat, a: seq<u8>, b: seq<u8>)
    requires tail + |a| == |data| && |b| <= tail
    ensures Store(Store(data, tail, a), 0, b) == b + (data[|b|..tail] + a)
  {
    var once := Store(data, tail, a);
    assert once == data[..tail] + a;
    DropConcat(data[..tail], a, |b|);
    assert data[..tail][|b|..] == data[|b|..tail];
  }

  lemma AppendAcross(data: seq<u8>, head: nat, size: nat, bytes: seq<u8>)
    requires head < |data| && size + |bytes| <= |data| && head + size < |data| < head + size + |bytes|
    ensures var first := |data| - head - size;
            Unroll(Store(Store(data, head + size, bytes[..first]), 0, bytes[first..]), head, size + |bytes|)
            == Unroll(data, head, size) + bytes
  {
    hide Store, Unroll;
    var first, tail := |data| - head - size, head + size;
    var a, b := bytes[..first], bytes[first..];
    StoreAcross(data, tail, a, b);
    UnrollWithin(data, head, size);
    var middle := data[|b|..tail];
    UnrollAcross(b + (middle + a), head, size + |bytes|);
    CutAcross(b, middle, a, head);
    assert middle[head - |b|..] == data[head..tail];
    AppendTwo(data[head..tail], bytes, first);
  }

  lemma AppendTwo(kept: seq<u8>, bytes: seq<u8>, first: nat)
    requires first <= |bytes|
    ensures (kept + bytes[..first]) + bytes[first..] == kept + bytes
  {
  }

  lemma CutAcross(b: seq<u8>, middle: seq<u8>, a: seq<u8>, head: nat)
    requires |b| <= head <= |b| + |middle|
    ensures (b + (middle + a))[head..] == middle[head - |b|..] + a
    ensures (b + (middle + a))[..|b|] == b
  {
    DropConcat(b, middle + a, head);
    DropConcat(middle, a, head - |b|);
  }

  lemma AppendWrapped(data: seq<u8>, head: nat, size: nat, bytes: seq<u8>)
    requires head < |data| && size + |bytes| <= |data| <= head + size
    ensures Unroll(Store(data, head + size - |data|, bytes), head, size + |bytes|) == Unroll(data, head, size) + bytes
  {
    hide Unroll, Store;
    var tail := head + size - |data|;
    var front, rest := data[..tail] + bytes, data[tail + |bytes|..];
    StoreIs(data, tail, bytes);
    DropConcat(front, rest, head);
    assert rest[head - |front|..] == data[head..];
    TakeConcat(front, rest, |front|);
    assert front[..|front|] == front;
    UnrollAcross(data, head, size);
    UnrollAcross(front + rest, head, size + |bytes|);
    Regroup(data[head..], data[..tail], bytes);
  }

  lemma StoreIs(data: seq<u8>, offset: nat, bytes: seq<u8>)
    requires offset + |bytes| <= |data|
    ensures Store(data, offset, bytes) == (data[..offset] + bytes) + data[offset + |bytes|..]
  {
  }

  lemma Regroup<T>(a: seq<T>, b: seq<T>, c: seq<T>)
    ensures a + (b + c) == (a + b) + c
  {
  }

  lemma StoreNothing(data: seq<u8>)
    ensures Store(data, 0, []) == data
  {
  }

  /** Two copies at the tail append. */
  lemma AppendUnrolled(data: seq<u8>, head: nat, size: nat, bytes: seq<u8>)
    requires head < |data| && size + |bytes| <= |data|
    ensures var tail := (head + size) % |data|;
            var first := Min(|bytes|, |data| - tail);
            Unroll(Store(Store(data, tail, bytes[..first]), 0, bytes[first..]), head, size + |bytes|)
            == Unroll(data, head, size) + bytes
  {
    hide Unroll, Store;
    TailIs(head, size, |data|);
    var tail := (head + size) % |data|;
    var first := Min(|bytes|, |data| - tail);
    if tail + |bytes| <= |data| {
      assert bytes[..first] == bytes && bytes[first..] == [];
      StoreNothing(Store(data, tail, bytes));
      if head + size < |data| {
        AppendWithin(data, head, size, bytes);
      } else {
        AppendWrapped(data, head, size, bytes);
      }
    } else {
      AppendAcross(data, head, size, bytes);
    }
  }

  lemma TailIs(head: nat, size: nat, n: nat)
    requires head < n && size <= n
    ensures (head + size) % n == if head + size < n then head + size else head + size - n
  {
    if head + size >= n {
      assert (head + size) % n == (head + size - n) % n;
    }
  }

  /** Moving the head drops from the front. */
  lemma DropUnrolled(data: seq<u8>, head: nat, size: nat, n: nat)
    requires head < |data| && n <= size <= |data|
    ensures Unroll(data, (head + n) % |data|, size - n) == Unroll(data, head, size)[n..]
  {
    TailIs(head, n, |data|);
  }

  lemma TakeDrop(s: seq<u8>, n: nat)
    requires n <= |s|
    ensures s == s[..n] + s[n..]
  {
  }

  lemma TakeUnrolled(data: seq<u8>, head: nat, size: nat, n: nat)
    requires head < |data| && n <= size <= |data|
    ensures var first := Min(n, |data| - head);
            && first <= n && n - first <= |data|
            && data[head..head + first] + data[..n - first] == Unroll(data, head, size)[..n]
  {
  }

  class Ring {
    const data: array<u8>
    var head: nat
    var size: nat

    ghost predicate Valid()
      reads this
    {
      head < data.Length && size <= data.Length
    }

    ghost function Contents(): (r: seq<u8>)
      requires Valid()
      reads this, data
      ensures |r| == size
    {
      Unroll(data[..], head, size)
    }

    constructor (capacity: nat)
      requires capacity > 0
      ensures Valid() && fresh(data) && data.Length == capacity && Contents() == []
    {
      data := new u8[capacity];
      head, size := 0, 0;
    }

    /** Append bytes for which there is room. */
    method WriteLocked(bytes: seq<u8>)
      requires Valid() && |bytes| <= data.Length - size
      modifies this, data
      ensures Valid() && Contents() == old(Contents()) + bytes
    {
      hide Unroll, Store;
      AppendUnrolled(data[..], head, size, bytes);
      var tail := (head + size) % data.Length;
      var first := Min(|bytes|, data.Length - tail);
      StoreBytes(data, tail, bytes[..first]);
      StoreBytes(data, 0, bytes[first..]);
      size := size + |bytes|;
    }

    /** Take up to `count` bytes off the front. */
    method ReadLocked(count: nat) returns (bytes: seq<u8>)
      requires Valid()
      modifies this
      ensures Valid() && |bytes| == Min(count, old(size)) && old(Contents()) == bytes + Contents()
    {
      hide Unroll;
      var taken := Min(count, size);
      var first := Min(taken, data.Length - head);
      TakeUnrolled(data[..], head, size, taken);
      DropUnrolled(data[..], head, size, taken);
      TakeDrop(Contents(), taken);
      bytes := data[head..head + first] + data[..taken - first];
      head := (head + taken) % data.Length;
      size := size - taken;
    }

    /** Append PCM, giving up the oldest bytes for it. */
    method AudioInWriteLocked(payload: seq<u8>)
      requires Valid()
      modifies this, data
      ensures Valid() && Contents() == Newest(old(Contents()) + payload, data.Length)
    {
      hide Unroll, Newest;
      ghost var was := Contents();
      var kept := payload;
      if |payload| >= data.Length {
        kept := payload[|payload| - data.Length..];
        Reset();
      }
      var free := data.Length - size;
      if |kept| > free {
        var drop := |kept| - free;
        DropUnrolled(data[..], head, size, drop);
        head := (head + drop) % data.Length;
        size := size - drop;
      }
      NewestIs(was, payload, kept, Contents(), data.Length);
      WriteLocked(kept);
    }

    method Reset()
      requires Valid()
      modifies this
      ensures Valid() && Contents() == []
    {
      head, size := 0, 0;
    }

    /** Microphone data for an URB: what there is, then silence. */
    method CopyAudioInPcm(length: nat) returns (buffer: seq<u8>, readSize: nat)
      requires Valid()
      modifies this
      ensures Valid() && readSize == Min(length, old(size)) && Contents() == old(Contents())[readSize..]
      ensures buffer == old(Contents())[..readSize] + Silence(length - readSize)
    {
      buffer := ReadLocked(length);
      readSize := |buffer|;
      buffer := buffer + Silence(length - readSize);
    }
  }

  /** The last bytes of a stream, at most `n` of them. */
  function Newest(stream: seq<u8>, n: nat): seq<u8> {
    if |stream| <= n then stream else stream[|stream| - n..]
  }

  lemma NewestIs(was: seq<u8>, payload: seq<u8>, kept: seq<u8>, left: seq<u8>, n: nat)
    requires |was| <= n && |kept| + |left| <= n
    requires kept == if |payload| >= n then payload[|payload| - n..] else payload
    requires left == if |payload| >= n then [] else if |was| + |payload| > n then was[|was| + |payload| - n..] else was
    ensures left + kept == Newest(was + payload, n)
  {
    if |payload| < n && |was| + |payload| > n {
      DropConcat(was, payload, |was| + |payload| - n);
    }
  }

  lemma DropTwice<T>(s: seq<T>, a: nat, b: nat)
    requires a + b <= |s|
    ensures s[a..][b..] == s[a + b..]
  {
  }

  /** Keeping the newest is the same however the PCM is cut into writes. */
  lemma NewestTwice(stream: seq<u8>, more: seq<u8>, n: nat)
    ensures Newest(Newest(stream, n) + more, n) == Newest(stream + more, n)
  {
    hide Newest;
    NewestShort(stream, n);
    if |stream| > n {
      var cut := |stream| - n;
      NewestCut(stream, n);
      NewestCut(stream[cut..] + more, n);
      NewestCut(stream + more, n);
      DropConcat(stream, more, cut);
      DropTwice(stream + more, cut, |more|);
    }
  }

  lemma NewestCut(stream: seq<u8>, n: nat)
    requires |stream| >= n
    ensures Newest(stream, n) == stream[|stream| - n..]
  {
  }

  lemma NewestShort(stream: seq<u8>, n: nat)
    ensures |stream| <= n ==> Newest(stream, n) == stream
  {
  }

  /** The frame side of a port. `sent` are the frames accepted so far, `read` the bytes taken so far. */
  class PortState {
    const controlRing: Ring
    var frameSequence: nat
    ghost var sent: seq<Frame>
    ghost var read: seq<u8>

    /** What was read and what waits are together the accepted frames, numbered from 1. */
    ghost predicate Valid()
      reads this, controlRing, controlRing.data
    {
      && controlRing.Valid()
      && controlRing.data.Length == CONTROL_RING_SIZE
      && frameSequence == |sent|
      && (forall i :: 0 <= i < |sent| ==> sent[i].sequence == i + 1 && sent[i].flags == 0 && |sent[i].payload| <= FRAME_MAX_PAYLOAD)
      && read + controlRing.Contents() == EncodeAll(sent)
    }

    constructor ()
      ensures Valid() && sent == [] && fresh(controlRing) && fresh(controlRing.data)
    {
      controlRing := new Ring(CONTROL_RING_SIZE);
      frameSequence, sent, read := 0, [], [];
    }

    /** Queue a frame for user space, whole or not at all. */
    method QueueFrame(kind: nat, payload: seq<u8>) returns (queued: bool)
      requires Valid()
      modifies this, controlRing, controlRing.data
      ensures Valid() && read == old(read)
      ensures queued <==> |payload| <= FRAME_MAX_PAYLOAD
                          && HEADER_SIZE + |payload| <= CONTROL_RING_SIZE - old(controlRing.size)
      ensures sent == if queued then old(sent) + [Frame(kind, 0, |old(sent)| + 1, payload)] else old(sent)
    {
      hide Header, EncodeAll, Ring.Contents;
      queued := |payload| <= FRAME_MAX_PAYLOAD && HEADER_SIZE + |payload| <= CONTROL_RING_SIZE - controlRing.size;
      if queued {
        frameSequence := frameSequence + 1;
        ghost var waiting := controlRing.Contents();
        var f := Frame(kind, 0, frameSequence, payload);
        controlRing.WriteLocked(Header(f));
        if |payload| > 0 {
          controlRing.WriteLocked(payload);
        }
        assert controlRing.Contents() == waiting + Encode(f);
        EncodeMore(sent, f);
        assert (read + waiting) + Encode(f) == read + (waiting + Encode(f));
        sent := sent + [f];
      }
    }

    /** Complete a read request of user space with what there is. */
    method CompleteControlRead(bufferLength: nat) returns (bytes: seq<u8>)
      requires Valid()
      modifies this, controlRing
      ensures Valid() && sent == old(sent) && read == old(read) + bytes
      ensures |bytes| == Min(bufferLength, old(controlRing.size))
    {
      hide EncodeAll, Ring.Contents;
      bytes := controlRing.ReadLocked(bufferLength);
      assert read + (bytes + controlRing.Contents()) == (read + bytes) + controlRing.Contents();
      read := read + bytes;
    }

    /** In every state: a reader of what was taken so far has recovered exactly the accepted frames that
        lie whole in it, none lost, changed or out of order; and all of them once the ring is empty.
        The field widths bound the frame types, and the sequence number before it wraps. */
    lemma ReaderRecovers()
      requires Valid() && forall i :: 0 <= i < |sent| ==> sent[i].kind < Power256(2)
      requires |sent| < Power256(8)
      ensures WholeBefore(Recover(read), sent, |read|)
      ensures controlRing.size == 0 ==> Recover(read) == sent
    {
      assert forall i :: 0 <= i < |sent| ==> Fits(sent[i]);
      assert EncodeAll(sent)[..|read|] == read;
      RecoverPrefix(sent, |read|);
      if controlRing.size == 0 && Recover(read) != sent {
        EncodeAllGrows(sent, |Recover(read)| + 1);
      }
    }
  }

  lemma EncodeMore(frames: seq<Frame>, f: Frame)
    ensures EncodeAll(frames + [f]) == EncodeAll(frames) + Encode(f)
  {
    assert (frames + [f])[..|frames|] == frames;
  }

  lemma {:induction false} EncodeAllGrows(frames: seq<Frame>, n: nat)
    requires n <= |frames|
    ensures |EncodeAll(frames[..n])| <= |EncodeAll(frames)|
    decreases |frames|
  {
    if n < |frames| {
      EncodeAllGrows(frames[..|frames| - 1], n);
      assert frames[..|frames| - 1][..n] == frames[..n];
    } else {
      assert frames[..n] == frames;
    }
  }
}
