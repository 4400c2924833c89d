/** The framed byte stream between driver and user space (include/uapi/vds.h) and its reader
    (src/platform/win32/vds_io.cc). */
module WinFrames {
  import opened VdsTypes

  const FRAME_MAX_PAYLOAD: nat := 4096
  const HEADER_SIZE: nat := 16

  datatype Frame = Frame(kind: nat, flags: nat, sequence: nat, payload: seq<u8>)

  function Power256(width: nat): (p: nat)
    ensures p > 0
  {
    if width == 0 then 1 else 256 * Power256(width - 1)
  }

  /** An integer field in memory: little-endian, cut to its width. */
  function LittleEndian(value: nat, width: nat): (bytes: seq<u8>)
    ensures |bytes| == width
    decreases width
  {
    if width == 0 then [] else [value % 256] + LittleEndian(value / 256, width - 1)
  }

  function FromLittleEndian(bytes: seq<u8>): nat {
    if bytes == [] then 0 else bytes[0] + 256 * FromLittleEndian(bytes[1..])
  }

  lemma {:induction false} LittleEndianRoundTrip(value: nat, width: nat)
    requires value < Power256(width)
    ensures FromLittleEndian(LittleEndian(value, width)) == value
    decreases width
  {
    if width > 0 {
      LittleEndianRoundTrip(value / 256, width - 1);
      assert LittleEndian(value, width)[1..] == LittleEndian(value / 256, width - 1);
    }
  }

  /** A frame as the driver writes it. The widths are those of struct vds_frame_header. */
  function Header(f: Frame): (bytes: seq<u8>)
    ensures |bytes| == HEADER_SIZE
  {
    LittleEndian(f.kind, 2) + LittleEndian(f.flags, 2) + LittleEndian(|f.payload|, 4) + LittleEndian(f.sequence, 8)
  }

  /** Byte `i` of an integer, counted from the least significant. */
  function ByteOf(value: nat, i: nat): u8
    decreases i
  {
    if i == 0 then value % 256 else ByteOf(value / 256, i - 1)
  }

  lemma {:induction false} LittleEndianAt(value: nat, width: nat, i: nat)
    requires i < width
    ensures LittleEndian(value, width)[i] == ByteOf(value, i)
    decreases width
  {
    if i > 0 {
      LittleEndianAt(value / 256, width - 1, i - 1);
    }
  }

  /** Where the fields lie in memory: type, flags, payload length and sequence number, the least
      significant byte of each first; then the payload. */
  lemma FrameLayout(f: Frame, i: nat)
    requires i < |Encode(f)|
    ensures |Encode(f)| == 16 + |f.payload|
    ensures Encode(f)[i] == if i < 2 then ByteOf(f.kind, i)
                            else if i < 4 then ByteOf(f.flags, i - 2)
                            else if i < 8 then ByteOf(|f.payload|, i - 4)
                            else if i < 16 then ByteOf(f.sequence, i - 8)
                            else f.payload[i - 16]
  {
    hide LittleEndian, ByteOf;
    if i < 2 {
      LittleEndianAt(f.kind, 2, i);
    } else if i < 4 {
      LittleEndianAt(f.flags, 2, i - 2);
    } else if i < 8 {
      LittleEndianAt(|f.payload|, 4, i - 4);
    } else if i < 16 {
      LittleEndianAt(f.sequence, 8, i - 8);
    }
  }

  function Encode(f: Frame): seq<u8> {
    Header(f) + f.payload
  }

  function EncodeAll(frames: seq<Frame>): seq<u8> {
    if frames == [] then [] else EncodeAll(frames[..|frames| - 1]) + Encode(frames[|frames| - 1])
  }

  ghost predicate Fits(f: Frame) {
    && f.kind < Power256(2) && f.flags < Power256(2) && f.sequence < Power256(8)
    && |f.payload| <= FRAME_MAX_PAYLOAD
  }

  datatype Outcome = Got(frame: Frame, rest: seq<u8>) | Closed | Oversized

  /** One frame off the front of a stream: `Closed` when the stream ends inside it. */
  function Decode(stream: seq<u8>): Outcome {
    if |stream| < HEADER_SIZE then Closed
    else
      var length := FromLittleEndian(stream[4..8]);
      if length > FRAME_MAX_PAYLOAD then Oversized
      else if |stream| < HEADER_SIZE + length then Closed
      else Got(Frame(FromLittleEndian(stream[..2]), FromLittleEndian(stream[2..4]), FromLittleEndian(stream[8..16]),
                     stream[HEADER_SIZE..HEADER_SIZE + length]),
               stream[HEADER_SIZE + length..])
  }

  /** The frames a reader gets before the stream ends or breaks. */
  function Recover(stream: seq<u8>): seq<Frame> {
    match Decode(stream)
    case Got(frame, rest) => [frame] + Recover(rest)
    case _ => []
  }

  lemma Powers()
    ensures Power256(2) == 0x1_0000 && Power256(4) == 0x1_0000_0000
  {
    assert Power256(1) == 256;
    assert Power256(2) == 256 * Power256(1);
    assert Power256(3) == 256 * Power256(2);
    assert Power256(4) == 256 * Power256(3);
  }

  lemma HeaderFields(f: Frame)
    requires Fits(f)
    ensures var h := Header(f);
            && FromLittleEndian(h[..2]) == f.kind && FromLittleEndian(h[2..4]) == f.flags
            && FromLittleEndian(h[4..8]) == |f.payload| && FromLittleEndian(h[8..16]) == f.sequence
  {
    Powers();
    LittleEndianRoundTrip(f.kind, 2);
    LittleEndianRoundTrip(f.flags, 2);
    LittleEndianRoundTrip(|f.payload|, 4);
    LittleEndianRoundTrip(f.sequence, 8);
    hide LittleEndian, FromLittleEndian, Power256;
    var h := Header(f);
    assert h[..2] == LittleEndian(f.kind, 2);
    assert h[2..4] == LittleEndian(f.flags, 2);
    assert h[4..8] == LittleEndian(|f.payload|, 4);
    assert h[8..16] == LittleEndian(f.sequence, 8);
  }

  /** Reading undoes writing, whatever follows in the stream. */
  lemma DecodeEncode(f: Frame, rest: seq<u8>)
    requires Fits(f)
    ensures Decode(Encode(f) + rest) == Got(f, rest)
  {
    hide Header, FromLittleEndian, LittleEndian, Fits, Power256;
    HeaderFields(f);
    FitsPayload(f);
    var stream, h := Encode(f) + rest, Header(f);
    assert stream[..2] == h[..2] && stream[2..4] == h[2..4] && stream[4..8] == h[4..8] && stream[8..16] == h[8..16];
    assert stream[HEADER_SIZE..HEADER_SIZE + |f.payload|] == f.payload;
    assert stream[HEADER_SIZE + |f.payload|..] == rest;
  }

  lemma FitsPayload(f: Frame)
    requires Fits(f)
    ensures |f.payload| <= FRAME_MAX_PAYLOAD
  {
  }

  /** A frame cut short is not delivered. */
  lemma DecodeCut(f: Frame, k: nat)
    requires Fits(f) && k < |Encode(f)|
    ensures Decode(Encode(f)[..k]) == Closed
  {
    HeaderFields(f);
    hide FromLittleEndian, Header, Fits;
    if k >= HEADER_SIZE {
      assert Encode(f)[..k][4..8] == Header(f)[4..8];
    }
  }

  lemma {:induction false} EncodeAllFirst(frames: seq<Frame>)
    requires frames != []
    ensures EncodeAll(frames) == Encode(frames[0]) + EncodeAll(frames[1..])
  {
    hide Encode;
    if |frames| == 1 {
      assert frames[..0] == [] && EncodeAll(frames[1..]) == [];
    } else {
      var before, last := frames[..|frames| - 1], frames[|frames| - 1];
      EncodeAllFirst(before);
      assert frames[1..][..|frames| - 2] == before[1..];
      assert (Encode(frames[0]) + EncodeAll(before[1..])) + Encode(last)
          == Encode(frames[0]) + (EncodeAll(before[1..]) + Encode(last));
    }
  }

  lemma RecoverCut(f: Frame, k: nat)
    requires Fits(f) && k < |Encode(f)|
    ensures Recover(Encode(f)[..k]) == []
  {
    hide Encode, Decode, Fits;
    DecodeCut(f, k);
  }

  lemma RecoverNext(f: Frame, tail: seq<u8>)
    requires Fits(f)
    ensures Recover(Encode(f) + tail) == [f] + Recover(tail)
  {
    hide Encode, Decode, Fits;
    DecodeEncode(f, tail);
  }

  /** `got` are exactly the frames that lie whole in the first `k` bytes. */
  ghost predicate WholeBefore(got: seq<Frame>, frames: seq<Frame>, k: nat) {
    && got <= frames
    && |EncodeAll(got)| <= k
    && (got != frames ==> k < |EncodeAll(frames[..|got| + 1])|)
  }

  lemma EncodeCons(f: Frame, frames: seq<Frame>)
    ensures EncodeAll([f] + frames) == Encode(f) + EncodeAll(frames)
  {
    EncodeAllFirst([f] + frames);
    assert ([f] + frames)[1..] == frames;
  }

  lemma WholeBeforeCons(f: Frame, got: seq<Frame>, rest: seq<Frame>, k: nat)
    requires WholeBefore(got, rest, k)
    ensures WholeBefore([f] + got, [f] + rest, k + |Encode(f)|)
  {
    hide Encode, EncodeAll;
    EncodeCons(f, got);
    if got != rest {
      EncodeCons(f, rest[..|got| + 1]);
      assert ([f] + rest)[..|got| + 2] == [f] + rest[..|got| + 1];
    }
  }

  lemma FirstCut(frames: seq<Frame>, k: nat)
    requires frames != [] && k < |Encode(frames[0])|
    ensures WholeBefore([], frames, k)
  {
    assert frames[..1] == [frames[0]];
    assert frames[..1][..0] == [];
  }

  /** Cut the written stream anywhere: the reader gets exactly the frames that lie whole before the cut. */
  lemma {:induction false} RecoverPrefix(frames: seq<Frame>, k: nat)
    requires k <= |EncodeAll(frames)| && forall i :: 0 <= i < |frames| ==> Fits(frames[i])
    ensures WholeBefore(Recover(EncodeAll(frames)[..k]), frames, k)
    decreases |frames|
  {
    hide Encode, Decode, Fits, EncodeAll, WholeBefore, Recover;
    if frames == [] {
      NothingEncoded();
    } else {
      var f, rest := frames[0], frames[1..];
      EncodeAllFirst(frames);
      TakeConcat(Encode(f), EncodeAll(rest), k);
      if k < |Encode(f)| {
        RecoverCut(f, k);
        FirstCut(frames, k);
      } else {
        var n := k - |Encode(f)|;
        var tail := EncodeAll(rest)[..n];
        assert EncodeAll(frames)[..k] == Encode(f) + tail;
        RecoverNext(f, tail);
        RecoverPrefix(rest, n);
        assert [f] + rest == frames;
        WholeBeforeCons(f, Recover(tail), rest, n);
      }
    }
  }

  lemma NothingEncoded()
    ensures EncodeAll([]) == [] && WholeBefore(Recover(EncodeAll([])[..0]), [], 0)
  {
  }

  /** A handle read by overlapped I/O: each read returns as many of the bytes still to come as `grants`
      says, and none once the other side has closed. A grant of 0 is a request completed with nothing
      (see `WinReads`). */
  class ReadHandle {
    var incoming: seq<u8>
    var grants: seq<nat>

    constructor (incoming: seq<u8>, grants: seq<nat>)
      ensures this.incoming == incoming && this.grants == grants
    {
      this.incoming, this.grants := incoming, grants;
    }

    method ReadOverlapped(size: nat) returns (bytes: seq<u8>)
      requires size > 0
      modifies this
      ensures old(incoming) == bytes + incoming && |bytes| <= size
      ensures bytes == [] <==> old(incoming) == [] || (old(grants) != [] && old(grants)[0] == 0)
      ensures 0 !in old(grants) ==> 0 !in grants
    {
      var grant := if grants == [] then size else grants[0];
      grants := if grants == [] then [] else grants[1..];
      var got := Min(Min(size, grant), |incoming|);
      bytes := incoming[..got];
      incoming := incoming[got..];
    }

    /** Read exactly `size` bytes, in however many pieces they come. A request completed with nothing is
        taken for the end. */
    method ReadExact(size: nat) returns (r: Result<seq<u8>>)
      modifies this
      ensures r.Ok? ==> |r.value| == size && old(incoming) == r.value + incoming
      ensures r.Err? ==> |old(incoming)| < size || 0 in old(grants)
      ensures 0 !in old(grants) ==> 0 !in grants && (r.Ok? <==> size <= |old(incoming)|)
    {
      var data := [];
      while |data| < size
        invariant |data| <= size && old(incoming) == data + incoming
        invariant 0 !in old(grants) ==> 0 !in grants
        decreases size - |data|
      {
        var got := ReadOverlapped(size - |data|);
        if got == [] {
          return Err;
        }
        assert data + (got + incoming) == (data + got) + incoming;
        data := data + got;
      }
      r := Ok(data);
    }

    method ReadFrame() returns (r: Outcome)
      modifies this
      ensures r.Got? ==> r == Decode(old(incoming)) && incoming == r.rest
      ensures r.Oversized? ==> Decode(old(incoming)).Oversized?
      ensures 0 !in old(grants) ==> 0 !in grants
      ensures 0 !in old(grants) ==> (r.Got? <==> Decode(old(incoming)).Got?)
      ensures 0 !in old(grants) ==> (r.Oversized? <==> Decode(old(incoming)).Oversized?)
    {
      hide FromLittleEndian;
      ghost var stream := incoming;
      var header := ReadExact(HEADER_SIZE);
      if header.Err? {
        return Closed;
      }
      var h := header.value;
      assert h[..2] == stream[..2] && h[2..4] == stream[2..4] && h[4..8] == stream[4..8] && h[8..16] == stream[8..16];
      assert incoming == stream[HEADER_SIZE..];
      var length := FromLittleEndian(h[4..8]);
      if length > FRAME_MAX_PAYLOAD {
        return Oversized;
      }
      var payload := ReadExact(length);
      if payload.Err? {
        return Closed;
      }
      assert payload.value == stream[HEADER_SIZE..HEADER_SIZE + length];
      assert incoming == stream[HEADER_SIZE + length..];
      r := Got(Frame(FromLittleEndian(h[..2]), FromLittleEndian(h[2..4]), FromLittleEndian(h[8..16]), payload.value),
               incoming);
    }
  }
}
