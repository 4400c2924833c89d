/** Isochronous data of the Linux host controller (module/vds_hcd_core.c): speaker PCM coalesced into
    frames for user space, and microphone PCM spread over the descriptors of an ISO IN URB. */
module HcdIso {
  import opened VdsTypes
  import opened HcdMicQueue

  const EOVERFLOW := 75
  const AUDIO_IN_BYTES_PER_MS: nat := 192
  const U32_RANGE: nat := 0x1_0000_0000

  /** A total kept in 32 bits. */
  function Wrapped(n: nat): nat {
    n % U32_RANGE
  }

  /** An ISO frame descriptor; `offset` and `length` come from the submitter. */
  datatype IsoDesc = IsoDesc(offset: nat, length: nat, status: int, actualLength: nat)

  predicate InRange(d: IsoDesc, bufferLength: nat) {
    d.offset <= bufferLength && d.length <= bufferLength - d.offset
  }

  /** A stretch of the transfer buffer. */
  datatype Span = Span(offset: nat, length: nat)

  predicate Inside(s: Span, bufferLength: nat) {
    s.offset + s.length <= bufferLength
  }

  function Bytes(buffer: seq<u8>, s: Span): seq<u8> {
    if Inside(s, |buffer|) then buffer[s.offset..s.offset + s.length] else []
  }

  function AllBytes(buffer: seq<u8>, spans: seq<Span>): seq<u8> {
    if spans == [] then [] else AllBytes(buffer, spans[..|spans| - 1]) + Bytes(buffer, spans[|spans| - 1])
  }

  /** The PCM of the descriptors: the non-empty ones that lie inside the buffer. */
  function Pcm(descs: seq<IsoDesc>, bufferLength: nat): seq<Span> {
    if descs == [] then []
    else
      var d := descs[|descs| - 1];
      Pcm(descs[..|descs| - 1], bufferLength)
      + if InRange(d, bufferLength) && d.length > 0 then [Span(d.offset, d.length)] else []
  }

  /** Add a span to the runs found so far: it joins the last run if it continues it and still fits a frame. */
  function Coalesce(runs: seq<Span>, s: Span): seq<Span> {
    if runs == [] then [s]
    else
      var last := runs[|runs| - 1];
      if s.offset == last.offset + last.length && last.length + s.length <= FRAME_MAX_PAYLOAD then
        runs[..|runs| - 1] + [Span(last.offset, last.length + s.length)]
      else runs + [s]
  }

  /** The chunks offered to user space. */
  function Runs(spans: seq<Span>): seq<Span> {
    if spans == [] then [] else Coalesce(Runs(spans[..|spans| - 1]), spans[|spans| - 1])
  }

  function Errors(descs: seq<IsoDesc>, bufferLength: nat): nat {
    if descs == [] then 0
    else
      Errors(descs[..|descs| - 1], bufferLength) + if InRange(descs[|descs| - 1], bufferLength) then 0 else 1
  }

  function Total(spans: seq<Span>): nat {
    if spans == [] then 0 else Total(spans[..|spans| - 1]) + spans[|spans| - 1].length
  }

  /** The descriptor as given back: played whole, or refused. */
  function Played(d: IsoDesc, bufferLength: nat): IsoDesc {
    if InRange(d, bufferLength) then d.(status := 0, actualLength := d.length)
    else d.(status := -EOVERFLOW, actualLength := 0)
  }

  /** What the loop below has sent and is still extending. */
  function Split(sent: seq<Span>, chunk: Option<Span>): seq<Span> {
    if chunk.Some? then sent + [chunk.value] else sent
  }

  /** Add one non-empty descriptor's PCM to the chunk being built, or send that chunk and start anew. */
  method ExtendChunk(sent: seq<Span>, chunk: Option<Span>, nextOffset: nat, s: Span)
    returns (sentNow: seq<Span>, chunkNow: Option<Span>, nextNow: nat)
    requires chunk.None? ==> sent == []
    requires chunk.Some? ==> nextOffset == chunk.value.offset + chunk.value.length
    ensures chunkNow.Some? && nextNow == chunkNow.value.offset + chunkNow.value.length
    ensures Split(sentNow, chunkNow) == Coalesce(Split(sent, chunk), s)
  {
    nextNow := s.offset + s.length;
    match chunk {
      case None =>
        sentNow, chunkNow := sent, Some(s);
        assert sent + [s] == [s];
      case Some(last) =>
        assert (sent + [last])[..|sent|] == sent;
        if s.offset == nextOffset && last.length + s.length <= FRAME_MAX_PAYLOAD {
          sentNow, chunkNow := sent, Some(Span(last.offset, last.length + s.length));
        } else {
          sentNow, chunkNow := sent + [last], Some(s);
        }
    }
  }

  lemma ErrorsStep(descs: seq<IsoDesc>, i: nat, bufferLength: nat)
    requires i < |descs|
    ensures Errors(descs[..i + 1], bufferLength) == Errors(descs[..i], bufferLength) + (if InRange(descs[i], bufferLength) then 0 else 1)
  {
    assert descs[..i + 1][..i] == descs[..i];
  }

  lemma PcmStep(descs: seq<IsoDesc>, i: nat, bufferLength: nat)
    requires i < |descs|
    ensures var d, before, after := descs[i], Pcm(descs[..i], bufferLength), Pcm(descs[..i + 1], bufferLength);
            && Errors(descs[..i + 1], bufferLength) == Errors(descs[..i], bufferLength) + (if InRange(d, bufferLength) then 0 else 1)
            && if InRange(d, bufferLength) && d.length > 0 then
                 Runs(after) == Coalesce(Runs(before), Span(d.offset, d.length)) && Total(after) == Total(before) + d.length
               else after == before
  {
    var d, before := descs[i], Pcm(descs[..i], bufferLength);
    assert descs[..i + 1][..i] == descs[..i];
    assert (before + [Span(d.offset, d.length)])[..|before|] == before;
  }

  /** Deliver the PCM of an ISO OUT URB. `chunks` are the frames offered to the queue for user space;
      a continued chunk lies inside the buffer, so its length never wraps. */
  method IsoOutUrb(buffer: seq<u8>, descs: array<IsoDesc>)
    returns (chunks: seq<Span>, errorCount: nat, actualLength: nat)
    modifies descs
    ensures chunks == Runs(Pcm(old(descs[..]), |buffer|))
    ensures errorCount == Errors(old(descs[..]), |buffer|)
    ensures actualLength == Wrapped(Total(Pcm(old(descs[..]), |buffer|)))
    ensures forall i :: 0 <= i < descs.Length ==> descs[i] == Played(old(descs[i]), |buffer|)
    ensures forall i :: 0 <= i < descs.Length ==>
                          var d := old(descs[i]);
                          descs[i] == if d.offset + d.length <= |buffer| then d.(status := 0, actualLength := d.length)
                                      else d.(status := -75, actualLength := 0)
    ensures AllBytes(buffer, chunks) == Slices(buffer, old(descs[..]))
    ensures actualLength == Wrapped(|Slices(buffer, old(descs[..]))|)
    ensures forall c :: c in chunks ==> Inside(c, |buffer|) && c.length > 0
    ensures (forall c :: c in chunks ==> c.length <= FRAME_MAX_PAYLOAD) <==> EachFits(old(descs[..]), |buffer|)
  {
    hide Pcm, Runs, Errors, Total, Coalesce, AllBytes, Slices, EachFits;
    IsoOutDelivers(buffer, descs[..]);
    ghost var ds := descs[..];
    var sent: seq<Span> := [];
    var chunk: Option<Span> := None;
    var nextOffset := 0;
    errorCount, actualLength := 0, 0;
    NoPcm(ds[..0], |buffer|);
    for i := 0 to descs.Length
      invariant forall j :: i <= j < descs.Length ==> descs[j] == ds[j]
      invariant forall j :: 0 <= j < i ==> descs[j] == Played(ds[j], |buffer|)
      invariant chunk.None? ==> sent == []
      invariant chunk.Some? ==> nextOffset == chunk.value.offset + chunk.value.length
      invariant Split(sent, chunk) == Runs(Pcm(ds[..i], |buffer|))
      invariant errorCount == Errors(ds[..i], |buffer|)
      invariant actualLength == Wrapped(Total(Pcm(ds[..i], |buffer|)))
    {
      var d := descs[i];
      PcmStep(ds, i, |buffer|);
      if !InRange(d, |buffer|) {
        descs[i] := d.(status := -EOVERFLOW, actualLength := 0);
        errorCount := errorCount + 1;
      } else {
        descs[i] := d.(status := 0, actualLength := d.length);
        actualLength := Wrapped(actualLength + d.length);
        if d.length > 0 {
          sent, chunk, nextOffset := ExtendChunk(sent, chunk, nextOffset, Span(d.offset, d.length));
        }
      }
    }
    assert ds[..descs.Length] == ds;
    chunks := if chunk.Some? then sent + [chunk.value] else sent;
  }

  predicate Refused(descs: seq<IsoDesc>, i: nat, bufferLength: nat) {
    i < |descs| && descs[i].offset + descs[i].length > bufferLength
  }

  /** How many descriptors are refused. */
  lemma {:induction false} ErrorsCount(descs: seq<IsoDesc>, bufferLength: nat)
    ensures Errors(descs, bufferLength) == |set i: nat | i < |descs| && Refused(descs, i, bufferLength)|
  {
    var all := set i: nat | i < |descs| && Refused(descs, i, bufferLength);
    if descs != [] {
      var n := |descs| - 1;
      var before := descs[..n];
      ErrorsCount(before, bufferLength);
      var bad := set i: nat | i < |before| && Refused(before, i, bufferLength);
      assert all == if Refused(descs, n, bufferLength) then bad + {n} else bad;
    } else {
      assert all == {};
    }
  }

  lemma NoPcm(descs: seq<IsoDesc>, bufferLength: nat)
    requires descs == []
    ensures Pcm(descs, bufferLength) == [] && Runs([]) == [] && Total([]) == 0 && Errors(descs, bufferLength) == 0
  {
  }

  ghost predicate AllInside(spans: seq<Span>, bufferLength: nat) {
    forall i :: 0 <= i < |spans| ==> Inside(spans[i], bufferLength) && spans[i].length > 0
  }

  lemma {:induction false} PcmInside(descs: seq<IsoDesc>, bufferLength: nat)
    ensures AllInside(Pcm(descs, bufferLength), bufferLength)
  {
    if descs != [] {
      PcmInside(descs[..|descs| - 1], bufferLength);
    }
  }

  lemma CoalesceInside(runs: seq<Span>, s: Span, bufferLength: nat)
    requires AllInside(runs, bufferLength) && Inside(s, bufferLength) && s.length > 0
    ensures AllInside(Coalesce(runs, s), bufferLength)
  {
  }

  lemma JoinedBytes(buffer: seq<u8>, last: Span, s: Span)
    requires Inside(last, |buffer|) && Inside(s, |buffer|) && s.offset == last.offset + last.length
    ensures Bytes(buffer, Span(last.offset, last.length + s.length)) == Bytes(buffer, last) + Bytes(buffer, s)
  {
  }

  lemma CoalesceConserves(buffer: seq<u8>, runs: seq<Span>, s: Span)
    requires AllInside(runs, |buffer|) && Inside(s, |buffer|)
    ensures AllBytes(buffer, Coalesce(runs, s)) == AllBytes(buffer, runs) + Bytes(buffer, s)
    ensures Total(Coalesce(runs, s)) == Total(runs) + s.length
  {
    hide AllBytes, Total, Bytes;
    AddSpan(buffer, runs, s);
    if runs == [] {
      assert Coalesce(runs, s) == runs + [s];
    } else {
      var last, front := runs[|runs| - 1], runs[..|runs| - 1];
      if s.offset == last.offset + last.length && last.length + s.length <= FRAME_MAX_PAYLOAD {
        AddSpan(buffer, front, Span(last.offset, last.length + s.length));
        AddSpan(buffer, front, last);
        assert front + [last] == runs;
        JoinedBytes(buffer, last, s);
        assert AllBytes(buffer, front) + (Bytes(buffer, last) + Bytes(buffer, s))
            == (AllBytes(buffer, front) + Bytes(buffer, last)) + Bytes(buffer, s);
      }
    }
  }

  lemma AddSpan(buffer: seq<u8>, spans: seq<Span>, s: Span)
    ensures AllBytes(buffer, spans + [s]) == AllBytes(buffer, spans) + Bytes(buffer, s)
    ensures Total(spans + [s]) == Total(spans) + s.length
  {
    assert (spans + [s])[..|spans|] == spans;
  }

  /** PCM is conserved: the chunks are non-empty stretches of the buffer that together are the
      descriptors' PCM in order. */
  lemma {:induction false} RunsConservePcm(buffer: seq<u8>, spans: seq<Span>)
    requires AllInside(spans, |buffer|)
    ensures AllInside(Runs(spans), |buffer|)
    ensures AllBytes(buffer, Runs(spans)) == AllBytes(buffer, spans)
    ensures Total(Runs(spans)) == Total(spans)
  {
    if spans != [] {
      RunsConservePcm(buffer, spans[..|spans| - 1]);
      CoalesceInside(Runs(spans[..|spans| - 1]), spans[|spans| - 1], |buffer|);
      hide Coalesce, AllInside, Bytes;
      CoalesceConserves(buffer, Runs(spans[..|spans| - 1]), spans[|spans| - 1]);
    }
  }

  /** Frames above 4096 bytes are refused by the frame queue. No chunk is, exactly when no single
      descriptor is. */
  lemma {:induction false} RunsFitFrames(spans: seq<Span>)
    ensures (forall r :: r in Runs(spans) ==> r.length <= FRAME_MAX_PAYLOAD)
       <==> (forall s :: s in spans ==> s.length <= FRAME_MAX_PAYLOAD)
  {
    if spans != [] {
      var before, s := spans[..|spans| - 1], spans[|spans| - 1];
      RunsFitFrames(before);
      var runs := Runs(before);
      var after := Coalesce(runs, s);
      assert spans == before + [s];
      if runs != [] {
        assert runs == runs[..|runs| - 1] + [runs[|runs| - 1]];
      }
    }
  }

  /** What the in-range descriptors select from the buffer, one after the other. */
  function Slices(buffer: seq<u8>, descs: seq<IsoDesc>): seq<u8> {
    if descs == [] then []
    else
      var d := descs[|descs| - 1];
      Slices(buffer, descs[..|descs| - 1]) + if InRange(d, |buffer|) then buffer[d.offset..d.offset + d.length] else []
  }

  /** No in-range descriptor is longer than a frame. */
  ghost predicate EachFits(descs: seq<IsoDesc>, bufferLength: nat) {
    forall d :: d in descs && InRange(d, bufferLength) ==> d.length <= FRAME_MAX_PAYLOAD
  }

  lemma {:induction false} PcmIsSlices(buffer: seq<u8>, descs: seq<IsoDesc>)
    ensures AllBytes(buffer, Pcm(descs, |buffer|)) == Slices(buffer, descs)
    ensures Total(Pcm(descs, |buffer|)) == |Slices(buffer, descs)|
  {
    hide AllBytes, Total;
    if descs != [] {
      var d, before := descs[|descs| - 1], descs[..|descs| - 1];
      PcmIsSlices(buffer, before);
      AddSlice(buffer, Pcm(before, |buffer|), d);
    } else {
      NoBytes(buffer);
    }
  }

  lemma NoBytes(buffer: seq<u8>)
    ensures AllBytes(buffer, []) == [] && Total([]) == 0
  {
  }

  lemma AddSlice(buffer: seq<u8>, spans: seq<Span>, d: IsoDesc)
    ensures var more := if InRange(d, |buffer|) && d.length > 0 then [Span(d.offset, d.length)] else [];
            var slice := if InRange(d, |buffer|) then buffer[d.offset..d.offset + d.length] else [];
            && AllBytes(buffer, spans + more) == AllBytes(buffer, spans) + slice
            && Total(spans + more) == Total(spans) + |slice|
  {
    hide AllBytes, Total;
    if InRange(d, |buffer|) && d.length > 0 {
      AddSpan(buffer, spans, Span(d.offset, d.length));
    } else {
      assert spans + [] == spans;
      assert AllBytes(buffer, spans) + [] == AllBytes(buffer, spans);
    }
  }

  lemma {:induction false} PcmFits(descs: seq<IsoDesc>, bufferLength: nat)
    ensures (forall s :: s in Pcm(descs, bufferLength) ==> s.length <= FRAME_MAX_PAYLOAD) <==> EachFits(descs, bufferLength)
  {
    if descs != [] {
      var d, before := descs[|descs| - 1], descs[..|descs| - 1];
      PcmFits(before, bufferLength);
      assert descs == before + [d];
      var pcm := Pcm(before, bufferLength);
      var s := Span(d.offset, d.length);
      assert forall x :: x in pcm + [s] <==> x in pcm || x == s;
    }
  }

  /** The chunks of an ISO OUT URB are non-empty, carry exactly the in-range descriptors' bytes in order,
      and all fit a frame if and only if every in-range descriptor does. */
  lemma IsoOutDelivers(buffer: seq<u8>, descs: seq<IsoDesc>)
    ensures var chunks := Runs(Pcm(descs, |buffer|));
            && (forall c :: c in chunks ==> Inside(c, |buffer|) && c.length > 0)
            && AllBytes(buffer, chunks) == Slices(buffer, descs)
            && Total(chunks) == Total(Pcm(descs, |buffer|)) == |Slices(buffer, descs)|
            && ((forall c :: c in chunks ==> c.length <= FRAME_MAX_PAYLOAD) <==> EachFits(descs, |buffer|))
  {
    hide Pcm, Runs, AllBytes, Slices, EachFits, Total;
    PcmInside(descs, |buffer|);
    PcmIsSlices(buffer, descs);
    PcmFits(descs, |buffer|);
    RunsConservePcm(buffer, Pcm(descs, |buffer|));
    RunsFitFrames(Pcm(descs, |buffer|));
  }

  /** A descriptor one byte longer than a frame becomes a chunk that the frame queue refuses. */
  lemma LongDescriptorIsRefused()
    ensures Runs(Pcm([IsoDesc(0, 4097, 0, 0)], 4097)) == [Span(0, 4097)]
    ensures 4097 > FRAME_MAX_PAYLOAD
  {
    var descs := [IsoDesc(0, 4097, 0, 0)];
    assert descs[..0] == [];
    assert Pcm([], 4097) == [];
    assert Pcm(descs, 4097) == [Span(0, 4097)];
    assert [Span(0, 4097)][..0] == [];
    assert Runs([]) == [];
  }

  // ---------------------------------------------------------------------------------------------
  // Coalescing is as good as it can be
  // ---------------------------------------------------------------------------------------------

  /** Spans that one frame could carry: a single one, or a contiguous stretch of at most 4096 bytes. */
  ghost predicate OneFrame(g: seq<Span>) {
    && g != []
    && (forall i :: 0 < i < |g| ==> g[i].offset == g[i - 1].offset + g[i - 1].length)
    && (|g| > 1 ==> Total(g) <= FRAME_MAX_PAYLOAD)
  }

  ghost predicate Grouping(groups: seq<seq<Span>>, spans: seq<Span>) {
    Flatten(groups) == spans && forall i :: 0 <= i < |groups| ==> OneFrame(groups[i])
  }

  lemma LastGroup(groups: seq<seq<Span>>, spans: seq<Span>)
    requires Grouping(groups, spans) && spans != []
    ensures groups != []
    ensures var g := groups[|groups| - 1];
            var rest := groups[..|groups| - 1];
            && g[|g| - 1] == spans[|spans| - 1]
            && (|g| == 1 ==> Grouping(rest, spans[..|spans| - 1]))
            && (|g| > 1 ==>
                  && Grouping(rest + [g[..|g| - 1]], spans[..|spans| - 1])
                  && |spans| > 1 && g[|g| - 2] == spans[|spans| - 2]
                  && g[|g| - 1].offset == g[|g| - 2].offset + g[|g| - 2].length
                  && Total(g) == Total(g[..|g| - 1]) + g[|g| - 1].length <= FRAME_MAX_PAYLOAD)
  {
    assert groups != [];
    var g := groups[|groups| - 1];
    var rest := groups[..|groups| - 1];
    var shorter := g[..|g| - 1];
    assert groups == rest + [g];
    FlattenAppend(rest, [g]);
    FlattenAppend(rest, [shorter]);
    FlattenOne(g);
    FlattenOne(shorter);
    hide Flatten;
    assert g[|g| - 1] == spans[|spans| - 1];
    assert spans[..|spans| - 1] == Flatten(rest) + shorter;
    if |g| == 1 {
      assert Flatten(rest) + shorter == Flatten(rest);
    } else {
      assert OneFrame(shorter);
      assert forall i :: 0 <= i < |rest| ==> (rest + [shorter])[i] == groups[i];
    }
  }

  lemma {:induction false} RunEnd(spans: seq<Span>)
    requires spans != []
    ensures Runs(spans) != []
    ensures var last := Runs(spans)[|Runs(spans)| - 1];
            last.offset + last.length == spans[|spans| - 1].offset + spans[|spans| - 1].length
  {
  }

  lemma CoalesceGrows(runs: seq<Span>, s: Span)
    ensures var after := Coalesce(runs, s);
            && after != [] && |runs| <= |after| <= |runs| + 1
            && if runs != [] && s.offset == runs[|runs| - 1].offset + runs[|runs| - 1].length
                  && runs[|runs| - 1].length + s.length <= FRAME_MAX_PAYLOAD
               then |after| == |runs| && after[|after| - 1].length == runs[|runs| - 1].length + s.length
               else |after| == |runs| + 1 && after[|after| - 1].length == s.length
  {
  }

  lemma OneSpan(g: seq<Span>)
    requires |g| == 1
    ensures Total(g) == g[0].length
  {
    assert g[..0] == [];
  }

  /** No way of grouping the PCM into frames needs fewer of them. */
  lemma {:induction false} CoalescingIsOptimal(spans: seq<Span>, groups: seq<seq<Span>>)
    requires Grouping(groups, spans)
    ensures |Runs(spans)| <= |groups|
    ensures spans != [] && |Runs(spans)| == |groups| ==>
              Runs(spans)[|groups| - 1].length <= Total(groups[|groups| - 1])
    decreases |spans|
  {
    if spans != [] {
      var before, s := spans[..|spans| - 1], spans[|spans| - 1];
      hide Grouping, Total, Coalesce;
      LastGroup(groups, spans);
      var g := groups[|groups| - 1];
      var rest := groups[..|groups| - 1];
      CoalesceGrows(Runs(before), s);
      if |g| == 1 {
        OneSpan(g);
        CoalescingIsOptimal(before, rest);
      } else {
        CoalescingIsOptimal(before, rest + [g[..|g| - 1]]);
        RunEnd(before);
      }
    }
  }

  // ---------------------------------------------------------------------------------------------
  // ISO IN
  // ---------------------------------------------------------------------------------------------

  function Wanted(d: IsoDesc, bufferLength: nat): nat {
    if InRange(d, bufferLength) then Min(d.length, AUDIO_IN_BYTES_PER_MS) else 0
  }

  function WantedTotal(descs: seq<IsoDesc>, bufferLength: nat): nat {
    if descs == [] then 0
    else WantedTotal(descs[..|descs| - 1], bufferLength) + Wanted(descs[|descs| - 1], bufferLength)
  }

  lemma FillIs(s: MicState, length: nat, n: nat)
    requires n == Min(length, |Flatten(s.held)|)
    ensures Fill(s, length) == (s.(held := DropBytes(s.held, n), delivered := s.delivered + n),
                                Flatten(s.held)[..n] + Silence(length - n))
  {
  }

  lemma SilenceTwice(bytes: seq<u8>, a: nat, b: nat)
    ensures var m := Min(a, |bytes|);
            var n := Min(b, |bytes| - m);
            && m + n == Min(a + b, |bytes|)
            && bytes[..m + n] + Silence(a + b - m - n)
               == (bytes[..m] + Silence(a - m)) + (bytes[m..][..n] + Silence(b - n))
  {
    var m := Min(a, |bytes|);
    var n := Min(b, |bytes| - m);
    if a <= |bytes| {
      assert Silence(a - m) == [];
      assert bytes[..m + n] == bytes[..m] + bytes[m..][..n];
      assert (bytes[..m] + bytes[m..][..n]) + Silence(b - n) == bytes[..m] + (bytes[m..][..n] + Silence(b - n));
    } else {
      assert bytes[m..][..n] == [];
      assert Silence(a - m) + Silence(b - n) == Silence(a + b - m - n);
    }
  }

  /** Two fills in a row are one fill of both lengths. */
  lemma FillTwice(s: MicState, a: nat, b: nat)
    requires Fifo(s)
    ensures var (t, first) := Fill(s, a);
            var (u, second) := Fill(t, b);
            Fill(s, a + b) == (u, first + second)
  {
    var bytes := Flatten(s.held);
    var m := Min(a, |bytes|);
    var n := Min(b, |bytes| - m);
    hide Fill, Flatten, DropBytes;
    FillIs(s, a, m);
    DropBytesSuffix(s.held, m);
    FillIs(Fill(s, a).0, b, n);
    SilenceTwice(bytes, a, b);
    DropBytesTwice(s.held, m, n);
    FillIs(s, a + b, m + n);
  }

  /** The queue and the transfer buffer while an ISO IN URB is filled, and all bytes handed out so far. */
  datatype InState = InState(mic: MicState, buffer: seq<u8>, received: seq<u8>)

  function FillDesc(s: InState, d: IsoDesc, bufferLength: nat): InState {
    if !InRange(d, bufferLength) then s
    else
      var (mic, data) := Fill(s.mic, Wanted(d, bufferLength));
      InState(mic, Store(s.buffer, d.offset, data), s.received + data)
  }

  function FillDescs(s: InState, descs: seq<IsoDesc>, bufferLength: nat): InState {
    if descs == [] then s
    else FillDesc(FillDescs(s, descs[..|descs| - 1], bufferLength), descs[|descs| - 1], bufferLength)
  }

  function Filled(d: IsoDesc, bufferLength: nat): IsoDesc {
    d.(status := if InRange(d, bufferLength) then 0 else -EOVERFLOW, actualLength := Wanted(d, bufferLength))
  }

  lemma InStep(s: InState, descs: seq<IsoDesc>, i: nat, bufferLength: nat)
    requires i < |descs|
    ensures FillDescs(s, descs[..i + 1], bufferLength) == FillDesc(FillDescs(s, descs[..i], bufferLength), descs[i], bufferLength)
    ensures WantedTotal(descs[..i + 1], bufferLength) == WantedTotal(descs[..i], bufferLength) + Wanted(descs[i], bufferLength)
  {
    assert descs[..i + 1][..i] == descs[..i];
  }

  method FillDescriptor(queue: MicQueue, buffer: array<u8>, d: IsoDesc) returns (filled: IsoDesc, ghost data: seq<u8>)
    requires queue.Valid()
    modifies queue, buffer
    ensures queue.Valid() && filled == Filled(d, buffer.Length)
    ensures InState(queue.model, buffer[..], data) == FillDesc(InState(old(queue.model), old(buffer[..]), []), d, buffer.Length)
  {
    hide Fill, Store, Fifo, Remainders;
    if InRange(d, buffer.Length) {
      var length := Min(d.length, AUDIO_IN_BYTES_PER_MS);
      var copied := queue.FillAudioIn(length);
      StoreBytes(buffer, d.offset, copied);
      filled, data := d.(status := 0, actualLength := length), copied;
    } else {
      filled, data := d.(status := -EOVERFLOW, actualLength := 0), [];
    }
  }

  lemma AddWraps(a: nat, b: nat)
    ensures Wrapped(Wrapped(a) + b) == Wrapped(a + b)
  {
  }

  lemma ReceivesMore(s: InState, d: IsoDesc, bufferLength: nat)
    ensures var t := FillDesc(s.(received := []), d, bufferLength);
            FillDesc(s, d, bufferLength) == t.(received := s.received + t.received)
  {
    hide Fill;
  }

  /** Fill an ISO IN URB from the microphone queue: each descriptor inside the buffer gets at most 1 ms. */
  method IsoInUrb(queue: MicQueue, buffer: array<u8>, descs: array<IsoDesc>)
    returns (errorCount: nat, actualLength: nat, ghost received: seq<u8>)
    requires queue.Valid()
    modifies queue, buffer, descs
    ensures queue.Valid()
    ensures errorCount == Errors(old(descs[..]), buffer.Length)
    ensures actualLength == Wrapped(WantedTotal(old(descs[..]), buffer.Length))
    ensures forall i :: 0 <= i < descs.Length ==> descs[i] == Filled(old(descs[i]), buffer.Length)
    ensures forall i :: 0 <= i < descs.Length ==>
                          var d := old(descs[i]);
                          descs[i] == if d.offset + d.length <= buffer.Length then d.(status := 0, actualLength := Min(d.length, 192))
                                      else d.(status := -75, actualLength := 0)
    ensures InState(queue.model, buffer[..], received)
         == FillDescs(InState(old(queue.model), old(buffer[..]), []), old(descs[..]), buffer.Length)
  {
    hide Fill, Store, Fifo, Remainders, MicQueue.Valid;
    ghost var ds, start := descs[..], InState(queue.model, buffer[..], []);
    errorCount, actualLength, received := 0, 0, [];
    for i := 0 to descs.Length
      invariant queue.Valid()
      invariant forall j :: i <= j < descs.Length ==> descs[j] == ds[j]
      invariant forall j :: 0 <= j < i ==> descs[j] == Filled(ds[j], buffer.Length)
      invariant errorCount == Errors(ds[..i], buffer.Length)
      invariant actualLength == Wrapped(WantedTotal(ds[..i], buffer.Length))
      invariant InState(queue.model, buffer[..], received) == FillDescs(start, ds[..i], buffer.Length)
    {
      hide FillDescs, FillDesc, Wrapped, WantedTotal, Errors, Wanted;
      ErrorsStep(ds, i, buffer.Length);
      InStep(start, ds, i, buffer.Length);
      AddWraps(WantedTotal(ds[..i], buffer.Length), Wanted(ds[i], buffer.Length));
      ReceivesMore(InState(queue.model, buffer[..], received), descs[i], buffer.Length);
      var filled, data := FillDescriptor(queue, buffer, descs[i]);
      descs[i] := filled;
      errorCount := errorCount + if filled.status != 0 then 1 else 0;
      actualLength := Wrapped(actualLength + filled.actualLength);
      received := received + data;
    }
    assert ds[..descs.Length] == ds;
  }

  /** However the URB is cut into descriptors, what they receive is one read of the queue: nothing is
      lost or repeated between them, and silence comes only once the queue is empty. */
  lemma {:induction false} InUrbIsOneRead(s: InState, descs: seq<IsoDesc>, bufferLength: nat)
    requires Fifo(s.mic) && s.received == []
    ensures var t := FillDescs(s, descs, bufferLength);
            (t.mic, t.received) == Fill(s.mic, WantedTotal(descs, bufferLength)) && Fifo(t.mic)
  {
    hide Fill, Fifo;
    if descs == [] {
      FillNothing(s.mic);
    } else {
      var before, d := descs[..|descs| - 1], descs[|descs| - 1];
      InUrbIsOneRead(s, before, bufferLength);
      FillTwice(s.mic, WantedTotal(before, bufferLength), Wanted(d, bufferLength));
      FillKeepsFifo(FillDescs(s, before, bufferLength).mic, Wanted(d, bufferLength));
    }
  }

  ghost predicate Apart(descs: seq<IsoDesc>, bufferLength: nat) {
    forall i, j :: 0 <= i < |descs| && 0 <= j < |descs| && i != j && InRange(descs[i], bufferLength) && InRange(descs[j], bufferLength) ==>
                     descs[i].offset + descs[i].length <= descs[j].offset || descs[j].offset + descs[j].length <= descs[i].offset
  }

  lemma ApartFromLast(descs: seq<IsoDesc>, i: nat, bufferLength: nat)
    requires i < |descs| && Apart(descs, bufferLength) && InRange(descs[i], bufferLength)
    ensures Apart(descs[..|descs| - 1], bufferLength) && Wanted(descs[i], bufferLength) <= descs[i].length
    ensures var last := descs[|descs| - 1];
            i < |descs| - 1 && InRange(last, bufferLength) ==>
              descs[i].offset + descs[i].length <= last.offset || last.offset + last.length <= descs[i].offset
  {
  }

  /** With descriptors that do not overlap, each finds its own stretch of that read at its offset. */
  lemma {:induction false} InUrbPlacesData(s: InState, descs: seq<IsoDesc>, i: nat)
    requires s.received == [] && i < |descs| && Apart(descs, |s.buffer|) && InRange(descs[i], |s.buffer|)
    ensures var t := FillDescs(s, descs, |s.buffer|);
            var at, n := WantedTotal(descs[..i], |s.buffer|), Wanted(descs[i], |s.buffer|);
            && |t.buffer| == |s.buffer| && |t.received| == WantedTotal(descs, |s.buffer|) && at + n <= |t.received|
            && t.buffer[descs[i].offset..descs[i].offset + n] == t.received[at..at + n]
    decreases |descs|
  {
    hide FillDescs, WantedTotal, Fill, FillDesc, Apart, Wanted;
    var last := |descs| - 1;
    var before := descs[..last];
    assert descs[..last + 1] == descs;
    InStep(s, descs, last, |s.buffer|);
    ReceivedLength(s, before);
    ReceivedLength(s, descs);
    ApartFromLast(descs, i, |s.buffer|);
    var u := FillDescs(s, before, |s.buffer|);
    if i < last {
      InUrbPlacesData(s, before, i);
      assert descs[..i] == before[..i] && descs[i] == before[i];
      FillDescElsewhere(u, descs[last], |s.buffer|, descs[i].offset, Wanted(descs[i], |s.buffer|),
                        WantedTotal(descs[..i], |s.buffer|));
    } else {
      FillDescHere(u, descs[last], |s.buffer|);
    }
  }

  /** No byte outside the descriptors changes. */
  lemma {:induction false} InUrbKeepsRest(s: InState, descs: seq<IsoDesc>, at: nat)
    requires at < |s.buffer|
    requires forall d :: d in descs && InRange(d, |s.buffer|) ==> at < d.offset || d.offset + Min(d.length, 192) <= at
    ensures var t := FillDescs(s, descs, |s.buffer|); |t.buffer| == |s.buffer| && t.buffer[at] == s.buffer[at]
  {
    hide Fill;
    if descs != [] {
      var before, d := descs[..|descs| - 1], descs[|descs| - 1];
      InUrbKeepsRest(s, before, at);
      assert d in descs;
    }
  }

  lemma FillDescElsewhere(u: InState, d: IsoDesc, bufferLength: nat, offset: nat, n: nat, at: nat)
    requires |u.buffer| == bufferLength && offset + n <= bufferLength && at + n <= |u.received|
    requires InRange(d, bufferLength) ==> offset + n <= d.offset || d.offset + d.length <= offset
    requires u.buffer[offset..offset + n] == u.received[at..at + n]
    ensures var t := FillDesc(u, d, bufferLength);
            && |t.buffer| == bufferLength && at + n <= |t.received|
            && t.buffer[offset..offset + n] == t.received[at..at + n]
  {
    hide Fill;
    var t := FillDesc(u, d, bufferLength);
    assert t.received[at..at + n] == u.received[at..at + n];
    assert t.buffer[offset..offset + n] == u.buffer[offset..offset + n];
  }

  lemma FillDescHere(u: InState, d: IsoDesc, bufferLength: nat)
    requires |u.buffer| == bufferLength && InRange(d, bufferLength)
    ensures var t := FillDesc(u, d, bufferLength);
            && |t.buffer| == bufferLength && |t.received| == |u.received| + Wanted(d, bufferLength)
            && t.buffer[d.offset..d.offset + Wanted(d, bufferLength)] == t.received[|u.received|..]
  {
    hide Fill;
    var data := Fill(u.mic, Wanted(d, bufferLength)).1;
    var t := FillDesc(u, d, bufferLength);
    assert t.received[|u.received|..] == data;
    assert t.buffer[d.offset..d.offset + |data|] == data;
  }

  lemma {:induction false} ReceivedLength(s: InState, descs: seq<IsoDesc>)
    requires s.received == []
    ensures var t := FillDescs(s, descs, |s.buffer|);
            |t.buffer| == |s.buffer| && |t.received| == WantedTotal(descs, |s.buffer|)
  {
    if descs != [] {
      ReceivedLength(s, descs[..|descs| - 1]);
    }
  }

  lemma FillNothing(s: MicState)
    requires Fifo(s)
    ensures Fill(s, 0) == (s, [])
  {
    DropNone(s.held);
  }
}
