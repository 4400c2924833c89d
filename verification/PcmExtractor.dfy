/** Splitting of USB speaker audio into chunks for the controller (src/vds_protocol.cc). The Opus encoder
    is a foreign library: any function of its state and a block of PCM. */
module PcmExtractor {
  import opened VdsTypes
  import opened PcmResample

  const PCM_FRAME_SIZE: nat := 8

  /** One frame of USB audio: two speaker channels and two haptics channels. */
  datatype Frame = Frame(left: s16, right: s16, hapticsLeft: s16, hapticsRight: s16)

  datatype AudioChunk = AudioChunk(haptics: seq<s8>, speaker: seq<u8>, hasSignal: bool, hasHapticsSignal: bool)

  type Encoder<!E> = (E, seq<s16>) -> (E, seq<u8>)

  function ReadLeS16(low: u8, high: u8): s16 {
    var v := low + 256 * high;
    if v >= 0x8000 then v - 0x1_0000 else v
  }

  function FrameAt(bytes: seq<u8>, at: nat): Frame
    requires at + PCM_FRAME_SIZE <= |bytes|
  {
    Frame(ReadLeS16(bytes[at], bytes[at + 1]), ReadLeS16(bytes[at + 2], bytes[at + 3]),
          ReadLeS16(bytes[at + 4], bytes[at + 5]), ReadLeS16(bytes[at + 6], bytes[at + 7]))
  }

  // ---------------------------------------------------------------------------------------------
  // What the chunks of a byte stream are
  // ---------------------------------------------------------------------------------------------

  /** The whole frames of a stream. */
  function Frames(stream: seq<u8>): (frames: seq<Frame>)
    ensures |frames| == |stream| / PCM_FRAME_SIZE
  {
    seq(|stream| / PCM_FRAME_SIZE, i requires 0 <= i < |stream| / PCM_FRAME_SIZE => FrameAt(stream, i * PCM_FRAME_SIZE))
  }

  function SpeakerPcm(frames: seq<Frame>): (pcm: seq<s16>)
    ensures |pcm| == 2 * |frames|
  {
    seq(2 * |frames|, i requires 0 <= i < 2 * |frames| => if i % 2 == 0 then frames[i / 2].left else frames[i / 2].right)
  }

  function HapticsPcm(frames: seq<Frame>): (pcm: seq<s16>)
    ensures |pcm| == 2 * |frames|
  {
    seq(2 * |frames|, i requires 0 <= i < 2 * |frames| =>
      if i % 2 == 0 then frames[i / 2].hapticsLeft else frames[i / 2].hapticsRight)
  }

  predicate FeelsSignal(f: Frame) {
    f.hapticsLeft != 0 || f.hapticsRight != 0
  }

  predicate CarriesSignal(f: Frame) {
    f.left != 0 || f.right != 0 || FeelsSignal(f)
  }

  ghost predicate HasSignal(frames: seq<Frame>) {
    exists i :: 0 <= i < |frames| && CarriesSignal(frames[i])
  }

  ghost predicate HasHapticsSignal(frames: seq<Frame>) {
    exists i :: 0 <= i < |frames| && FeelsSignal(frames[i])
  }

  /** The chunk of one window, and the encoder after it. */
  ghost function ChunkOf<E>(encode: Encoder<E>, encoder: E, window: seq<Frame>): (AudioChunk, E)
    requires window != []
  {
    var (next, speaker) := encode(encoder, SpeakerBlock(SpeakerPcm(window), |window|));
    (AudioChunk(HapticsChunk(HapticsPcm(window), |window|), speaker, HasSignal(window), HasHapticsSignal(window)), next)
  }

  /** Cut frames into windows from the front: the chunks, the encoder after them, and what is left over. */
  ghost function Chop<E>(encode: Encoder<E>, encoder: E, frames: seq<Frame>, w: nat): (seq<AudioChunk>, E, seq<Frame>)
    requires w > 0
    decreases |frames|
  {
    if |frames| < w then ([], encoder, frames)
    else
      var (chunk, next) := ChunkOf(encode, encoder, frames[..w]);
      var (chunks, last, rest) := Chop(encode, next, frames[w..], w);
      ([chunk] + chunks, last, rest)
  }

  /** Chopping more frames continues from what was left over. */
  lemma {:induction false} ChopConcat<E>(encode: Encoder<E>, encoder: E, a: seq<Frame>, b: seq<Frame>, w: nat)
    requires w > 0
    ensures var (chunks, next, rest) := Chop(encode, encoder, a, w);
            var (more, last, left) := Chop(encode, next, rest + b, w);
            Chop(encode, encoder, a + b, w) == (chunks + more, last, left)
    decreases |a|
  {
    hide ChunkOf;
    if |a| >= w {
      assert (a + b)[..w] == a[..w] && (a + b)[w..] == a[w..] + b;
      var (chunk, next) := ChunkOf(encode, encoder, a[..w]);
      ChopConcat(encode, next, a[w..], b, w);
      var (chunks, after, rest) := Chop(encode, next, a[w..], w);
      var (more, last, left) := Chop(encode, after, rest + b, w);
      assert [chunk] + (chunks + more) == ([chunk] + chunks) + more;
    } else {
      var more := Chop(encode, encoder, a + b, w).0;
      assert [] + more == more;
    }
  }

  lemma {:induction false} ChopLeavesLess<E>(encode: Encoder<E>, encoder: E, frames: seq<Frame>, w: nat)
    requires w > 0
    ensures |Chop(encode, encoder, frames, w).2| < w
    decreases |frames|
  {
    hide ChunkOf;
    if |frames| >= w {
      ChopLeavesLess(encode, ChunkOf(encode, encoder, frames[..w]).1, frames[w..], w);
    }
  }

  lemma FramesConcat(a: seq<u8>, b: seq<u8>)
    requires |a| % PCM_FRAME_SIZE == 0
    ensures Frames(a + b) == Frames(a) + Frames(b)
  {
    assert |a + b| / PCM_FRAME_SIZE == |a| / PCM_FRAME_SIZE + |b| / PCM_FRAME_SIZE;
    forall i | 0 <= i < |a + b| / PCM_FRAME_SIZE
      ensures Frames(a + b)[i] == (Frames(a) + Frames(b))[i]
    {
    }
  }

  /** The bytes of a stream after its last whole frame. */
  function Partial(stream: seq<u8>): (tail: seq<u8>)
    ensures |tail| == |stream| % PCM_FRAME_SIZE
  {
    stream[|stream| - |stream| % PCM_FRAME_SIZE..]
  }

  /** Extractor state as a value: everything a later push can depend on. */
  datatype Splitter<!E> = Splitter(encoder: E, window: seq<Frame>, partial: seq<u8>)

  ghost predicate Splits<E>(s: Splitter<E>, w: nat) {
    |s.window| < w && |s.partial| < PCM_FRAME_SIZE
  }

  /** What a push must do. */
  ghost function Push<E>(encode: Encoder<E>, s: Splitter<E>, pcm: seq<u8>, w: nat): (Splitter<E>, seq<AudioChunk>)
    requires w > 0
  {
    var bytes := s.partial + pcm;
    var (chunks, encoder, window) := Chop(encode, s.encoder, s.window + Frames(bytes), w);
    (Splitter(encoder, window, Partial(bytes)), chunks)
  }

  lemma FramesAcross(bytes: seq<u8>, more: seq<u8>)
    ensures Frames(bytes + more) == Frames(bytes) + Frames(Partial(bytes) + more)
    ensures Partial(bytes + more) == Partial(Partial(bytes) + more)
  {
    var whole := bytes[..|bytes| - |bytes| % PCM_FRAME_SIZE];
    var tail := Partial(bytes);
    assert bytes == whole + tail;
    assert bytes + more == whole + (tail + more);
    FramesConcat(whole, tail + more);
    FramesConcat(whole, tail);
    assert Frames(tail) == [];
    Remainders(|whole|, |tail + more|);
    hide Frames;
    assert Partial(bytes + more) == Partial(tail + more);
  }

  lemma Remainders(whole: nat, rest: nat)
    requires whole % PCM_FRAME_SIZE == 0
    ensures (whole + rest) % PCM_FRAME_SIZE == rest % PCM_FRAME_SIZE
  {
  }

  /** Splitting is invisible: two pushes give the chunks and the state of one push of both. */
  lemma SplittingIsInvisible<E>(encode: Encoder<E>, s: Splitter<E>, a: seq<u8>, b: seq<u8>, w: nat)
    requires w > 0
    ensures var (t, first) := Push(encode, s, a, w);
            var (u, second) := Push(encode, t, b, w);
            Push(encode, s, a + b, w) == (u, first + second)
  {
    hide Frames, Partial, Chop;
    var bytes := s.partial + a;
    assert s.partial + (a + b) == bytes + b;
    FramesAcross(bytes, b);
    var later := Frames(Partial(bytes) + b);
    assert s.window + (Frames(bytes) + later) == (s.window + Frames(bytes)) + later;
    ChopConcat(encode, s.encoder, s.window + Frames(bytes), later, w);
  }

  /** Any number of pushes, in any pieces, is one push of everything. */
  ghost function PushAll<E>(encode: Encoder<E>, s: Splitter<E>, pieces: seq<seq<u8>>, w: nat): (Splitter<E>, seq<AudioChunk>)
    requires w > 0
    decreases |pieces|
  {
    if pieces == [] then (s, [])
    else
      var (t, chunks) := Push(encode, s, pieces[0], w);
      var (u, more) := PushAll(encode, t, pieces[1..], w);
      (u, chunks + more)
  }

  lemma PushKeepsSplits<E>(encode: Encoder<E>, s: Splitter<E>, pcm: seq<u8>, w: nat)
    requires w > 0
    ensures Splits(Push(encode, s, pcm, w).0, w)
  {
    ChopLeavesLess(encode, s.encoder, s.window + Frames(s.partial + pcm), w);
  }

  lemma PushNothing<E>(encode: Encoder<E>, s: Splitter<E>, w: nat)
    requires w > 0 && Splits(s, w)
    ensures Push(encode, s, [], w) == (s, [])
  {
    assert s.partial + [] == s.partial;
    assert Frames(s.partial) == [];
    assert s.window + [] == s.window;
  }

  lemma {:induction false} PushAllIsOnePush<E>(encode: Encoder<E>, s: Splitter<E>, pieces: seq<seq<u8>>, w: nat)
    requires w > 0 && Splits(s, w)
    ensures PushAll(encode, s, pieces, w) == Push(encode, s, Flatten(pieces), w)
    decreases |pieces|
  {
    hide Push, Splits;
    if pieces == [] {
      PushNothing(encode, s, w);
    } else {
      PushKeepsSplits(encode, s, pieces[0], w);
      PushAllIsOnePush(encode, Push(encode, s, pieces[0], w).0, pieces[1..], w);
      SplittingIsInvisible(encode, s, pieces[0], Flatten(pieces[1..]), w);
    }
  }

  // ---------------------------------------------------------------------------------------------
  // Where each channel goes
  // ---------------------------------------------------------------------------------------------

  /** A sample as USB carries it: two's complement, the low byte first. */
  function Bytes16(x: s16): seq<u8> {
    var v := if x < 0 then x + 0x1_0000 else x;
    [v % 256, v / 256]
  }

  /** USB audio of four channels: sample by sample, speaker left and right, then haptics left and right. */
  function UsbAudio(left: seq<s16>, right: seq<s16>, hapticsLeft: seq<s16>, hapticsRight: seq<s16>): seq<u8>
    requires |left| == |right| == |hapticsLeft| == |hapticsRight|
  {
    if left == [] then []
    else
      var n := |left| - 1;
      UsbAudio(left[..n], right[..n], hapticsLeft[..n], hapticsRight[..n])
      + (Bytes16(left[n]) + Bytes16(right[n]) + Bytes16(hapticsLeft[n]) + Bytes16(hapticsRight[n]))
  }

  /** Two channels sample by sample. */
  function Interleaved(a: seq<s16>, b: seq<s16>): (pcm: seq<s16>)
    requires |a| == |b|
    ensures |pcm| == 2 * |a|
    ensures forall i :: 0 <= i < |a| ==> pcm[2 * i] == a[i] && pcm[2 * i + 1] == b[i]
  {
    seq(2 * |a|, i requires 0 <= i < 2 * |a| => if i % 2 == 0 then a[i / 2] else b[i / 2])
  }

  ghost predicate AnySound(samples: seq<s16>) {
    exists i :: 0 <= i < |samples| && samples[i] != 0
  }

  /** What is to become of four channels, window by window: the speaker's are resampled and encoded, the
      haptics' resampled; the flags say whether there was any sound, and any on the haptics channels. */
  ghost function ChunksOfChannels<E>(encode: Encoder<E>, encoder: E, left: seq<s16>, right: seq<s16>,
                                     hapticsLeft: seq<s16>, hapticsRight: seq<s16>, w: nat): seq<AudioChunk>
    requires |left| == |right| == |hapticsLeft| == |hapticsRight| && w > 0
    decreases |left|
  {
    if |left| < w then []
    else
      var (next, speaker) := encode(encoder, SpeakerBlock(Interleaved(left[..w], right[..w]), w));
      var felt := AnySound(hapticsLeft[..w]) || AnySound(hapticsRight[..w]);
      [AudioChunk(HapticsChunk(Interleaved(hapticsLeft[..w], hapticsRight[..w]), w), speaker,
                  AnySound(left[..w]) || AnySound(right[..w]) || felt, felt)]
      + ChunksOfChannels(encode, next, left[w..], right[w..], hapticsLeft[w..], hapticsRight[w..], w)
  }

  lemma SampleSurvives(x: s16)
    ensures |Bytes16(x)| == 2 && ReadLeS16(Bytes16(x)[0], Bytes16(x)[1]) == x
  {
  }

  lemma FrameSurvives(left: s16, right: s16, hapticsLeft: s16, hapticsRight: s16)
    ensures var bytes := Bytes16(left) + Bytes16(right) + Bytes16(hapticsLeft) + Bytes16(hapticsRight);
            |bytes| == PCM_FRAME_SIZE && FrameAt(bytes, 0) == Frame(left, right, hapticsLeft, hapticsRight)
  {
    hide Bytes16, ReadLeS16;
    SampleSurvives(left);
    SampleSurvives(right);
    SampleSurvives(hapticsLeft);
    SampleSurvives(hapticsRight);
  }

  /** The frames of such a stream are the samples. */
  lemma {:induction false} FramesOfChannels(left: seq<s16>, right: seq<s16>, hapticsLeft: seq<s16>, hapticsRight: seq<s16>)
    requires |left| == |right| == |hapticsLeft| == |hapticsRight|
    ensures var stream := UsbAudio(left, right, hapticsLeft, hapticsRight);
            && |stream| == PCM_FRAME_SIZE * |left| && |Frames(stream)| == |left|
            && forall i :: 0 <= i < |left| ==> Frames(stream)[i] == Frame(left[i], right[i], hapticsLeft[i], hapticsRight[i])
    decreases |left|
  {
    hide Frames, Bytes16, FrameAt;
    if left == [] {
      NoFrame([]);
    } else {
      var n := |left| - 1;
      var before := UsbAudio(left[..n], right[..n], hapticsLeft[..n], hapticsRight[..n]);
      FramesOfChannels(left[..n], right[..n], hapticsLeft[..n], hapticsRight[..n]);
      FrameSurvives(left[n], right[n], hapticsLeft[n], hapticsRight[n]);
      var last := Bytes16(left[n]) + Bytes16(right[n]) + Bytes16(hapticsLeft[n]) + Bytes16(hapticsRight[n]);
      OneFrame(last);
      FramesConcat(before, last);
    }
  }

  /** A window of frames that holds these samples. */
  ghost predicate HoldsChannels(frames: seq<Frame>, left: seq<s16>, right: seq<s16>, hapticsLeft: seq<s16>, hapticsRight: seq<s16>)
    requires |left| == |right| == |hapticsLeft| == |hapticsRight|
  {
    |frames| == |left| && forall i :: 0 <= i < |left| ==> frames[i] == Frame(left[i], right[i], hapticsLeft[i], hapticsRight[i])
  }

  lemma WindowOfChannels(frames: seq<Frame>, left: seq<s16>, right: seq<s16>, hapticsLeft: seq<s16>, hapticsRight: seq<s16>)
    requires |left| == |right| == |hapticsLeft| == |hapticsRight|
    requires HoldsChannels(frames, left, right, hapticsLeft, hapticsRight)
    ensures SpeakerPcm(frames) == Interleaved(left, right)
    ensures HapticsPcm(frames) == Interleaved(hapticsLeft, hapticsRight)
    ensures HasHapticsSignal(frames) <==> AnySound(hapticsLeft) || AnySound(hapticsRight)
    ensures HasSignal(frames) <==> AnySound(left) || AnySound(right) || AnySound(hapticsLeft) || AnySound(hapticsRight)
  {
    forall i | 0 <= i < |frames| && CarriesSignal(frames[i])
      ensures AnySound(left) || AnySound(right) || AnySound(hapticsLeft) || AnySound(hapticsRight)
    {
      assert left[i] != 0 || right[i] != 0 || hapticsLeft[i] != 0 || hapticsRight[i] != 0;
    }
    forall i | 0 <= i < |left| && (left[i] != 0 || right[i] != 0 || hapticsLeft[i] != 0 || hapticsRight[i] != 0)
      ensures CarriesSignal(frames[i])
    {
    }
    forall i | 0 <= i < |left| && (hapticsLeft[i] != 0 || hapticsRight[i] != 0) ensures FeelsSignal(frames[i]) {
    }
  }

  lemma {:induction false} ChopOfChannels<E>(encode: Encoder<E>, encoder: E, frames: seq<Frame>, left: seq<s16>, right: seq<s16>,
                                             hapticsLeft: seq<s16>, hapticsRight: seq<s16>, w: nat)
    requires |left| == |right| == |hapticsLeft| == |hapticsRight| && w > 0
    requires HoldsChannels(frames, left, right, hapticsLeft, hapticsRight)
    ensures Chop(encode, encoder, frames, w).0 == ChunksOfChannels(encode, encoder, left, right, hapticsLeft, hapticsRight, w)
    decreases |left|
  {
    hide SpeakerPcm, HapticsPcm, HasSignal, HasHapticsSignal, Interleaved, AnySound, SpeakerBlock, HapticsChunk;
    if |left| >= w {
      WindowOfChannels(frames[..w], left[..w], right[..w], hapticsLeft[..w], hapticsRight[..w]);
      var next := encode(encoder, SpeakerBlock(Interleaved(left[..w], right[..w]), w)).0;
      ChopOfChannels(encode, next, frames[w..], left[w..], right[w..], hapticsLeft[w..], hapticsRight[w..], w);
    }
  }

  /** Each channel goes where it belongs: however the USB audio of four channels is cut into pushes, the
      encoder gets exactly the speaker samples, the motors exactly the haptics samples, window by window. */
  lemma ChannelsArrive<E>(encode: Encoder<E>, encoder: E, left: seq<s16>, right: seq<s16>, hapticsLeft: seq<s16>,
                          hapticsRight: seq<s16>, pieces: seq<seq<u8>>, w: nat)
    requires |left| == |right| == |hapticsLeft| == |hapticsRight| && w > 0
    requires Flatten(pieces) == UsbAudio(left, right, hapticsLeft, hapticsRight)
    ensures PushAll(encode, Splitter(encoder, [], []), pieces, w).1
         == ChunksOfChannels(encode, encoder, left, right, hapticsLeft, hapticsRight, w)
  {
    hide PushAll, Chop, Frames, Flatten, UsbAudio, ChunksOfChannels;
    var start := Splitter(encoder, [], []);
    var stream := UsbAudio(left, right, hapticsLeft, hapticsRight);
    PushAllIsOnePush(encode, start, pieces, w);
    FramesOfChannels(left, right, hapticsLeft, hapticsRight);
    assert [] + stream == stream;
    assert [] + Frames(stream) == Frames(stream);
    ChopOfChannels(encode, encoder, Frames(stream), left, right, hapticsLeft, hapticsRight, w);
  }

  // ---------------------------------------------------------------------------------------------
  // The extractor
  // ---------------------------------------------------------------------------------------------

  lemma OneFrame(base: seq<u8>)
    requires |base| == PCM_FRAME_SIZE
    ensures Frames(base) == [FrameAt(base, 0)] && Partial(base) == []
  {
  }

  lemma PcmGrows(window: seq<Frame>, f: Frame)
    ensures SpeakerPcm(window + [f]) == SpeakerPcm(window) + [f.left, f.right]
    ensures HapticsPcm(window + [f]) == HapticsPcm(window) + [f.hapticsLeft, f.hapticsRight]
    ensures HasSignal(window + [f]) == (HasSignal(window) || CarriesSignal(f))
    ensures HasHapticsSignal(window + [f]) == (HasHapticsSignal(window) || FeelsSignal(f))
  {
    var more := window + [f];
    assert more[|window|] == f;
    if HasSignal(window) {
      var i :| 0 <= i < |window| && CarriesSignal(window[i]);
      assert CarriesSignal(more[i]);
    }
    if HasHapticsSignal(window) {
      var i :| 0 <= i < |window| && FeelsSignal(window[i]);
      assert FeelsSignal(more[i]);
    }
  }

  lemma ChopOne<E>(encode: Encoder<E>, encoder: E, window: seq<Frame>, w: nat)
    requires 0 < |window| <= w
    ensures Chop(encode, encoder, window, w)
         == if |window| < w then ([], encoder, window)
            else ([ChunkOf(encode, encoder, window).0], ChunkOf(encode, encoder, window).1, [])
  {
    hide ChunkOf;
    if |window| == w {
      assert window[..w] == window && window[w..] == [];
      var chunk := ChunkOf(encode, encoder, window).0;
      assert [chunk] + [] == [chunk];
    }
  }

  class PcmAudioExtractor<!E> {
    const encode: Encoder<E>
    const windowFrames: nat
    const pendingFrame: array<u8>
    const speakerPcm: array<s16>
    const hapticsPcm: array<s16>
    var encoder: E
    var pendingFramePos: nat
    var windowFramePos: nat
    var chunkHasSignal: bool
    var chunkHasHapticsSignal: bool
    ghost var window: seq<Frame>

    ghost function State(): Splitter<E>
      reads this, pendingFrame
      requires pendingFramePos <= pendingFrame.Length
    {
      Splitter(encoder, window, pendingFrame[..pendingFramePos])
    }

    /** The frames of the window are in the two arrays, the bytes of a partial one in `pendingFrame`. */
    ghost predicate Valid()
      reads this, pendingFrame, speakerPcm, hapticsPcm
    {
      && SupportedWindow(windowFrames)
      && pendingFrame.Length == PCM_FRAME_SIZE && pendingFramePos < PCM_FRAME_SIZE
      && Apart()
      && WindowHeld()
    }

    /** The partial frame is not in the memory of the window. */
    ghost predicate Apart() {
      var memory: object := pendingFrame;
      memory != speakerPcm && memory != hapticsPcm
    }

    ghost predicate WindowHeld()
      reads this`window, this`windowFramePos, this`chunkHasSignal, this`chunkHasHapticsSignal, speakerPcm, hapticsPcm
    {
      && speakerPcm.Length == hapticsPcm.Length == 2 * PCM_WINDOW_FRAMES && speakerPcm != hapticsPcm
      && windowFramePos == |window| < windowFrames <= PCM_WINDOW_FRAMES
      && speakerPcm[..2 * windowFramePos] == SpeakerPcm(window)
      && hapticsPcm[..2 * windowFramePos] == HapticsPcm(window)
      && chunkHasSignal == HasSignal(window)
      && chunkHasHapticsSignal == HasHapticsSignal(window)
    }

    constructor (encode: Encoder<E>, encoder: E, windowFrames: nat)
      requires SupportedWindow(windowFrames)
      ensures Valid() && fresh(pendingFrame) && fresh(speakerPcm) && fresh(hapticsPcm)
      ensures this.encode == encode && this.windowFrames == windowFrames && State() == Splitter(encoder, [], [])
    {
      this.encode, this.encoder, this.windowFrames := encode, encoder, windowFrames;
      var pending := new u8[PCM_FRAME_SIZE];
      var speaker := new s16[2 * PCM_WINDOW_FRAMES];
      var haptics := new s16[2 * PCM_WINDOW_FRAMES];
      pendingFrame, speakerPcm, hapticsPcm := pending, speaker, haptics;
      pendingFramePos, windowFramePos := 0, 0;
      chunkHasSignal, chunkHasHapticsSignal, window := false, false, [];
      new;
      EmptyWindow();
      assert speakerPcm[..0] == [] && hapticsPcm[..0] == [];
    }

    /** An unsupported window length is refused. */
    static method Create(encode: Encoder<E>, encoder: E, windowFrames: nat) returns (r: Option<PcmAudioExtractor<E>>)
      ensures r.Some? <==> SupportedWindow(windowFrames)
      ensures r.Some? ==> r.value.Valid() && r.value.State() == Splitter(encoder, [], []) && r.value.encode == encode
    {
      if SupportedWindow(windowFrames) {
        var extractor := new PcmAudioExtractor(encode, encoder, windowFrames);
        r := Some(extractor);
      } else {
        r := None;
      }
    }

    /** Put the samples of a frame at the end of the window. */
    method StoreFrame(f: Frame)
      requires SupportedWindow(windowFrames) && WindowHeld()
      modifies this`windowFramePos, this`chunkHasSignal, this`chunkHasHapticsSignal, this`window, speakerPcm, hapticsPcm
      ensures window == old(window) + [f] && windowFramePos == |window|
      ensures speakerPcm[..2 * windowFramePos] == SpeakerPcm(window)
      ensures hapticsPcm[..2 * windowFramePos] == HapticsPcm(window)
      ensures chunkHasSignal == HasSignal(window) && chunkHasHapticsSignal == HasHapticsSignal(window)
    {
      PcmGrows(window, f);
      hide SpeakerPcm, HapticsPcm, HasSignal, HasHapticsSignal;
      chunkHasSignal := chunkHasSignal || CarriesSignal(f);
      var at := windowFramePos * 2;
      speakerPcm[at], speakerPcm[at + 1] := f.left, f.right;
      hapticsPcm[at], hapticsPcm[at + 1] := f.hapticsLeft, f.hapticsRight;
      chunkHasHapticsSignal := chunkHasHapticsSignal || FeelsSignal(f);
      windowFramePos := windowFramePos + 1;
      window := window + [f];
    }

    method ConsumeFrame(f: Frame) returns (chunks: seq<AudioChunk>)
      requires SupportedWindow(windowFrames) && WindowHeld()
      modifies this`encoder, this`windowFramePos, this`chunkHasSignal, this`chunkHasHapticsSignal, this`window, speakerPcm, hapticsPcm
      ensures WindowHeld()
      ensures (chunks, encoder, window) == Chop(encode, old(encoder), old(window) + [f], windowFrames)
    {
      hide SpeakerPcm, HapticsPcm, HasSignal, HasHapticsSignal, SpeakerBlock, HapticsChunk, Chop;
      ChopOne(encode, encoder, window + [f], windowFrames);
      StoreFrame(f);
      chunks := [];
      if windowFramePos == windowFrames {
        var haptics := ResampleHapticsPcm(hapticsPcm[..windowFrames * 2], windowFrames);
        var block := ResampleSpeakerPcm(speakerPcm[..windowFrames * 2], windowFrames);
        var (next, speaker) := encode(encoder, block[..]);
        chunks := [AudioChunk(haptics[..], speaker, chunkHasSignal, chunkHasHapticsSignal)];
        encoder := next;
        windowFramePos, window := 0, [];
        chunkHasSignal, chunkHasHapticsSignal := false, false;
        EmptyWindow();
      }
    }

    /** The fast path: a whole frame while none is partial. */
    method PushFrame(base: seq<u8>) returns (chunks: seq<AudioChunk>)
      requires Valid() && pendingFramePos == 0 && |base| == PCM_FRAME_SIZE
      modifies this, speakerPcm, hapticsPcm
      ensures Valid() && pendingFramePos == 0
      ensures (State(), chunks) == Push(encode, old(State()), base, windowFrames)
    {
      hide WindowHeld, Chop, Frames, Partial;
      OneFrame(base);
      assert [] + base == base;
      chunks := ConsumeFrame(FrameAt(base, 0));
    }

    method CopyPending(data: seq<u8>)
      requires pendingFrame.Length == PCM_FRAME_SIZE && pendingFramePos + |data| <= PCM_FRAME_SIZE
      modifies this`pendingFramePos, pendingFrame
      ensures pendingFramePos == old(pendingFramePos) + |data|
      ensures pendingFrame[..pendingFramePos] == old(pendingFrame[..pendingFramePos]) + data
    {
      for i := 0 to |data|
        invariant pendingFramePos == old(pendingFramePos) + i
        invariant pendingFrame[..pendingFramePos] == old(pendingFrame[..pendingFramePos]) + data[..i]
      {
        pendingFrame[pendingFramePos] := data[i];
        pendingFramePos := pendingFramePos + 1;
      }
      assert data[..|data|] == data;
    }

    /** The slow path: bytes that do not reach past the end of the partial frame. */
    method PushBytes(data: seq<u8>) returns (chunks: seq<AudioChunk>)
      requires Valid() && pendingFramePos + |data| <= PCM_FRAME_SIZE
      modifies this, pendingFrame, speakerPcm, hapticsPcm
      ensures Valid()
      ensures (State(), chunks) == Push(encode, old(State()), data, windowFrames)
    {
      hide WindowHeld, Chop, Frames, Partial;
      ghost var bytes := pendingFrame[..pendingFramePos] + data;
      HeldIsShort();
      CopyPending(data);
      chunks := [];
      if pendingFramePos == PCM_FRAME_SIZE {
        OneFrame(bytes);
        assert pendingFrame[..] == bytes;
        chunks := ConsumeFrame(FrameAt(pendingFrame[..], 0));
        pendingFramePos := 0;
      } else {
        NoFrame(bytes);
        assert window + [] == window;
        ChopNone(encode, encoder, window, windowFrames);
      }
    }

    lemma HeldIsShort()
      requires WindowHeld()
      ensures |window| < windowFrames
    {
    }

    method PushUsbAudio(pcm: seq<u8>) returns (chunks: seq<AudioChunk>)
      requires Valid()
      modifies this, pendingFrame, speakerPcm, hapticsPcm
      ensures Valid()
      ensures (State(), chunks) == Push(encode, old(State()), pcm, windowFrames)
    {
      hide Push, WindowHeld;
      chunks := [];
      var i: nat := 0;
      ContinueFresh(encode, State(), pcm, windowFrames);
      while i < |pcm|
        invariant i <= |pcm| && Valid()
        invariant Continued(encode, State(), chunks, pcm[i..], windowFrames) == Push(encode, old(State()), pcm, windowFrames)
        decreases |pcm| - i
      {
        if pendingFramePos == 0 && |pcm| - i >= PCM_FRAME_SIZE {
          var frames := (|pcm| - i) / PCM_FRAME_SIZE;
          ghost var start := i;
          for frame := 0 to frames
            invariant i == start + frame * PCM_FRAME_SIZE
            invariant i + (frames - frame) * PCM_FRAME_SIZE <= |pcm| && Valid() && pendingFramePos == 0
            invariant Continued(encode, State(), chunks, pcm[i..], windowFrames) == Push(encode, old(State()), pcm, windowFrames)
          {
            var base := pcm[i..i + PCM_FRAME_SIZE];
            ContinueBy(encode, State(), chunks, pcm, i, PCM_FRAME_SIZE, windowFrames);
            var more := PushFrame(base);
            chunks := chunks + more;
            i := i + PCM_FRAME_SIZE;
          }
        } else {
          var copySize := Min(|pcm| - i, PCM_FRAME_SIZE - pendingFramePos);
          ContinueBy(encode, State(), chunks, pcm, i, copySize, windowFrames);
          var more := PushBytes(pcm[i..i + copySize]);
          chunks := chunks + more;
          i := i + copySize;
        }
      }
      HeldIsShort();
      assert pcm[i..] == [];
      NothingMore(encode, State(), chunks, windowFrames);
    }
  }

  /** What a push of the rest of the bytes would complete the chunks so far to. */
  ghost function Continued<E>(encode: Encoder<E>, s: Splitter<E>, chunks: seq<AudioChunk>, rest: seq<u8>, w: nat): (Splitter<E>, seq<AudioChunk>)
    requires w > 0
  {
    var (t, more) := Push(encode, s, rest, w);
    (t, chunks + more)
  }

  lemma ContinueFresh<E>(encode: Encoder<E>, s: Splitter<E>, pcm: seq<u8>, w: nat)
    requires w > 0
    ensures Continued(encode, s, [], pcm[0..], w) == Push(encode, s, pcm, w)
  {
    hide Push;
    assert pcm[0..] == pcm;
    var more := Push(encode, s, pcm, w).1;
    assert [] + more == more;
  }

  lemma ContinueBy<E>(encode: Encoder<E>, s: Splitter<E>, chunks: seq<AudioChunk>, pcm: seq<u8>, i: nat, k: nat, w: nat)
    requires w > 0 && i + k <= |pcm|
    ensures var (t, more) := Push(encode, s, pcm[i..i + k], w);
            Continued(encode, s, chunks, pcm[i..], w) == Continued(encode, t, chunks + more, pcm[i + k..], w)
  {
    hide Push;
    assert pcm[i..] == pcm[i..i + k] + pcm[i + k..];
    SplittingIsInvisible(encode, s, pcm[i..i + k], pcm[i + k..], w);
    var (t, more) := Push(encode, s, pcm[i..i + k], w);
    var last := Push(encode, t, pcm[i + k..], w).1;
    assert (chunks + more) + last == chunks + (more + last);
  }

  lemma NothingMore<E>(encode: Encoder<E>, s: Splitter<E>, chunks: seq<AudioChunk>, w: nat)
    requires w > 0 && Splits(s, w)
    ensures Continued(encode, s, chunks, [], w) == (s, chunks)
  {
    PushNothing(encode, s, w);
    assert chunks + [] == chunks;
  }

  lemma NoFrame(bytes: seq<u8>)
    requires |bytes| < PCM_FRAME_SIZE
    ensures Frames(bytes) == [] && Partial(bytes) == bytes
  {
  }

  lemma ChopNone<E>(encode: Encoder<E>, encoder: E, window: seq<Frame>, w: nat)
    requires |window| < w
    ensures Chop(encode, encoder, window, w) == ([], encoder, window)
  {
  }

  lemma EmptyWindow()
    ensures SpeakerPcm([]) == [] && HapticsPcm([]) == [] && !HasSignal([]) && !HasHapticsSignal([])
  {
  }
}
