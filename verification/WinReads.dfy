/** How the Windows driver completes the read requests of user space (VdsCompleteControlReadRequests in
    windrv/vds_usb/vds_usb.c). Every thread that queues a frame or forwards a request runs the same loop:
    test the ring under its lock, retrieve a request, fill it under the lock again, and complete it. One
    step is one of these four; `WinRings.PortState` has the regions themselves. */
module WinReads {
  import opened VdsTypes

  type Thread = nat
  type RequestId = nat

  /** Requests are numbered as they are issued. */
  datatype Request = Request(id: RequestId, length: nat)

  /** Where a thread is in the loop. `since` is how many requests had been filled when it tested. */
  datatype Worker = Testing | Tested(since: nat) | Holding(request: Request, since: nat) | Filled(id: RequestId)

  /** Request `id` was filled with `count` bytes of the stream, from place `offset` on. */
  datatype Fill = Fill(id: RequestId, offset: nat, count: nat)

  /** `written`, `fills` and `completed` are history; `written` is the whole stream. */
  datatype ReadState = ReadState(
    ring: seq<u8>,
    requests: seq<Request>,
    workers: map<Thread, Worker>,
    nextId: RequestId,
    written: seq<u8>,
    fills: seq<Fill>,
    completed: seq<RequestId>)

  const INIT := ReadState([], [], map[], 0, [], [], [])

  function Write(s: ReadState, bytes: seq<u8>): ReadState {
    s.(ring := s.ring + bytes, written := s.written + bytes)
  }

  /** A request of no length is refused before it is queued. */
  function Forward(s: ReadState, length: nat): ReadState {
    if length == 0 then s else s.(requests := s.requests + [Request(s.nextId, length)], nextId := s.nextId + 1)
  }

  function Enter(s: ReadState, w: Thread): ReadState {
    if w in s.workers then s else s.(workers := s.workers[w := Testing])
  }

  function Test(s: ReadState, w: Thread): ReadState {
    if w !in s.workers || s.workers[w] != Testing then s
    else if s.ring == [] then s.(workers := s.workers - {w})
    else s.(workers := s.workers[w := Tested(|s.fills|)])
  }

  function Retrieve(s: ReadState, w: Thread): ReadState {
    if w !in s.workers || !s.workers[w].Tested? then s
    else if s.requests == [] then s.(workers := s.workers - {w})
    else s.(requests := s.requests[1..], workers := s.workers[w := Holding(s.requests[0], s.workers[w].since)])
  }

  /** How much of the stream has been taken out of the ring. */
  function Taken(s: ReadState): int {
    |s.written| - |s.ring|
  }

  function FillRequest(s: ReadState, w: Thread): ReadState {
    if w !in s.workers || !s.workers[w].Holding? || Taken(s) < 0 then s
    else
      var request := s.workers[w].request;
      var n := Min(request.length, |s.ring|);
      s.(ring := s.ring[n..], workers := s.workers[w := Filled(request.id)],
         fills := s.fills + [Fill(request.id, Taken(s), n)])
  }

  /** The completion comes after the lock is released. */
  function Complete(s: ReadState, w: Thread): ReadState {
    if w !in s.workers || !s.workers[w].Filled? then s
    else s.(workers := s.workers[w := Testing], completed := s.completed + [s.workers[w].id])
  }

  datatype Step =
    | DoWrite(bytes: seq<u8>)
    | DoForward(length: nat)
    | DoEnter(w: Thread)
    | DoTest(w: Thread)
    | DoRetrieve(w: Thread)
    | DoFill(w: Thread)
    | DoComplete(w: Thread)

  function Next(s: ReadState, step: Step): ReadState {
    match step
    case DoWrite(bytes) => Write(s, bytes)
    case DoForward(length) => Forward(s, length)
    case DoEnter(w) => Enter(s, w)
    case DoTest(w) => Test(s, w)
    case DoRetrieve(w) => Retrieve(s, w)
    case DoFill(w) => FillRequest(s, w)
    case DoComplete(w) => Complete(s, w)
  }

  function Run(steps: seq<Step>): ReadState {
    if steps == [] then INIT else Next(Run(steps[..|steps| - 1]), steps[|steps| - 1])
  }

  // ---------------------------------------------------------------------------------------------
  // Invariants
  // ---------------------------------------------------------------------------------------------

  /** The fills are consecutive stretches of the stream, in the order they happened, up to `end`. */
  ghost predicate Consecutive(fills: seq<Fill>, end: int) {
    && (fills == [] ==> end == 0)
    && (fills != [] ==> fills[0].offset == 0 && fills[|fills| - 1].offset + fills[|fills| - 1].count == end)
    && (forall i :: 0 < i < |fills| ==> fills[i].offset == fills[i - 1].offset + fills[i - 1].count)
  }

  ghost predicate Conserved(s: ReadState) {
    && 0 <= Taken(s) && s.ring == s.written[Taken(s)..]
    && Consecutive(s.fills, Taken(s))
  }

  /** A thread past its test finds bytes, or another thread has taken some since. */
  ghost predicate Founded(s: ReadState, since: nat) {
    since <= |s.fills| && if since == |s.fills| then s.ring != [] else s.fills[since].count > 0
  }

  ghost predicate WorkersFounded(s: ReadState) {
    && (forall i :: 0 <= i < |s.requests| ==> s.requests[i].length > 0)
    && (forall w :: w in s.workers && s.workers[w].Tested? ==> Founded(s, s.workers[w].since))
    && (forall w :: w in s.workers && s.workers[w].Holding? ==> s.workers[w].request.length > 0 && Founded(s, s.workers[w].since))
  }

  ghost predicate DistinctFills(fills: seq<Fill>) {
    forall i, j :: 0 <= i < j < |fills| ==> fills[i].id != fills[j].id
  }

  ghost predicate HeldBy(s: ReadState, w: Thread, id: RequestId) {
    w in s.workers && s.workers[w].Holding? && s.workers[w].request.id == id
  }

  /** A request waits, is held by one thread, or is filled; requests are retrieved in the order issued. */
  ghost predicate Numbered(s: ReadState) {
    && (forall i :: 0 <= i < |s.requests| ==> s.requests[i].id < s.nextId)
    && (forall i, j :: 0 <= i < j < |s.requests| ==> s.requests[i].id < s.requests[j].id)
    && DistinctFills(s.fills)
    && (forall i :: 0 <= i < |s.fills| ==> s.fills[i].id < s.nextId)
    && (forall i, j :: 0 <= i < |s.fills| && 0 <= j < |s.requests| ==> s.fills[i].id < s.requests[j].id)
    && (forall w: Thread, id: RequestId :: HeldBy(s, w, id) ==> id < s.nextId)
    && (forall w: Thread, id: RequestId, j :: HeldBy(s, w, id) && 0 <= j < |s.requests| ==> id < s.requests[j].id)
    && (forall w: Thread, id: RequestId, i :: HeldBy(s, w, id) && 0 <= i < |s.fills| ==> s.fills[i].id != id)
    && (forall v: Thread, w: Thread, id: RequestId :: HeldBy(s, v, id) && HeldBy(s, w, id) ==> v == w)
  }

  ghost predicate Inv(s: ReadState) {
    Conserved(s) && WorkersFounded(s) && Numbered(s)
  }

  lemma FillConserves(s: ReadState, w: Thread)
    requires Conserved(s)
    ensures Conserved(FillRequest(s, w))
  {
    if w in s.workers && s.workers[w].Holding? {
      var n := Min(s.workers[w].request.length, |s.ring|);
      assert s.ring[n..] == s.written[Taken(s) + n..];
    }
  }

  lemma WriteConserves(s: ReadState, bytes: seq<u8>)
    requires Conserved(s)
    ensures Conserved(Write(s, bytes))
  {
  }

  lemma NextConserves(s: ReadState, step: Step)
    requires Conserved(s)
    ensures Conserved(Next(s, step))
  {
    match step
    case DoFill(w) => FillConserves(s, w);
    case DoWrite(bytes) => WriteConserves(s, bytes);
    case _ => hide Consecutive;
  }

  lemma NextFounds(s: ReadState, step: Step)
    requires Conserved(s) && WorkersFounded(s)
    ensures WorkersFounded(Next(s, step))
  {
    hide Conserved;
    match step
    case DoFill(w) => FillFounds(s, w);
    case _ =>
  }

  lemma FillFounds(s: ReadState, w: Thread)
    requires WorkersFounded(s)
    ensures WorkersFounded(FillRequest(s, w))
  {
    if w in s.workers && s.workers[w].Holding? && Taken(s) >= 0 {
      var t := FillRequest(s, w);
      assert s.ring != [] ==> t.fills[|s.fills|].count > 0;
      forall v | v in t.workers && (t.workers[v].Tested? || t.workers[v].Holding?) ensures Founded(t, t.workers[v].since) {
        assert v in s.workers && t.workers[v] == s.workers[v];
      }
    }
  }

  lemma ForwardNumbers(s: ReadState, length: nat)
    requires Numbered(s)
    ensures Numbered(Forward(s, length))
  {
    var t := Forward(s, length);
    assert forall w: Thread, id: RequestId :: HeldBy(t, w, id) ==> HeldBy(s, w, id);
  }

  lemma RetrieveNumbers(s: ReadState, w: Thread)
    requires Numbered(s)
    ensures Numbered(Retrieve(s, w))
  {
    var t := Retrieve(s, w);
    if w in s.workers && s.workers[w].Tested? && s.requests != [] {
      var r := s.requests[0];
      assert forall v: Thread, id: RequestId :: HeldBy(t, v, id) ==> (v == w && id == r.id) || (v != w && HeldBy(s, v, id));
    } else {
      assert forall v: Thread, id: RequestId :: HeldBy(t, v, id) ==> HeldBy(s, v, id);
    }
  }

  lemma FillNumbers(s: ReadState, w: Thread)
    requires Numbered(s)
    ensures Numbered(FillRequest(s, w))
  {
    var t := FillRequest(s, w);
    if t != s {
      var r := s.workers[w].request;
      assert HeldBy(s, w, r.id);
      assert forall v: Thread, id: RequestId :: HeldBy(t, v, id) ==> v != w && HeldBy(s, v, id);
    }
  }

  /** Steps that move threads only. */
  lemma MoveNumbers(s: ReadState, t: ReadState)
    requires Numbered(s) && t.requests == s.requests && t.fills == s.fills && t.nextId == s.nextId
    requires forall w: Thread, id: RequestId :: HeldBy(t, w, id) ==> HeldBy(s, w, id)
    ensures Numbered(t)
  {
  }

  lemma NextNumbers(s: ReadState, step: Step)
    requires Numbered(s)
    ensures Numbered(Next(s, step))
  {
    hide Numbered;
    match step
    case DoForward(length) => ForwardNumbers(s, length);
    case DoRetrieve(w) => RetrieveNumbers(s, w);
    case DoFill(w) => FillNumbers(s, w);
    case DoWrite(_) => MoveNumbers(s, Next(s, step));
    case DoEnter(_) => MoveNumbers(s, Next(s, step));
    case DoTest(_) => MoveNumbers(s, Next(s, step));
    case DoComplete(_) => MoveNumbers(s, Next(s, step));
  }

  lemma NextKeepsInv(s: ReadState, step: Step)
    requires Inv(s)
    ensures Inv(Next(s, step))
  {
    hide Next, Conserved, WorkersFounded, Numbered;
    NextConserves(s, step);
    NextFounds(s, step);
    NextNumbers(s, step);
  }

  lemma {:induction false} RunKeepsInv(steps: seq<Step>)
    ensures Inv(Run(steps))
  {
    if steps != [] {
      hide Inv, Next;
      RunKeepsInv(steps[..|steps| - 1]);
      NextKeepsInv(Run(steps[..|steps| - 1]), steps[|steps| - 1]);
    }
  }

  // ---------------------------------------------------------------------------------------------
  // Requests completed with nothing
  // ---------------------------------------------------------------------------------------------

  /** When exactly a request is filled with nothing, which the reader takes for the end of the stream: the
      ring is empty by then, and that only if another thread took bytes since this one's test. */
  lemma EmptyExactly(steps: seq<Step>, w: Thread)
    requires var s := Run(steps); w in s.workers && s.workers[w].Holding?
    ensures var s := Run(steps);
            var t := Next(s, DoFill(w));
            var since := s.workers[w].since;
            && |t.fills| == |s.fills| + 1
            && t.fills[|s.fills|] == Fill(s.workers[w].request.id, Taken(s), Min(s.workers[w].request.length, |s.ring|))
            && t.ring == s.ring[t.fills[|s.fills|].count..]
            && (t.fills[|s.fills|].count == 0 <==> s.ring == [])
            && (s.ring == [] ==> since < |s.fills| && s.fills[since].count > 0)
  {
    RunKeepsInv(steps);
    hide Run, Numbered;
  }

  /** One undisturbed turn of the loop: while there are bytes and requests, the request that waited longest
      is completed with as many of the oldest bytes as it has room for; otherwise the thread leaves and
      nothing else changes. */
  lemma TurnExactly(steps: seq<Step>, w: Thread)
    requires var s := Run(steps); w in s.workers && s.workers[w] == Testing
    ensures var s := Run(steps);
            var t := Next(Next(Next(Next(s, DoTest(w)), DoRetrieve(w)), DoFill(w)), DoComplete(w));
            if s.ring == [] || s.requests == [] then t == s.(workers := s.workers - {w})
            else
              var n := Min(s.requests[0].length, |s.ring|);
              && n > 0 && t.ring == s.ring[n..] && t.requests == s.requests[1..] && t.workers == s.workers
              && t.fills == s.fills + [Fill(s.requests[0].id, |s.written| - |s.ring|, n)]
              && t.completed == s.completed + [s.requests[0].id] && t.written == s.written && t.nextId == s.nextId
  {
    RunKeepsInv(steps);
    hide Run, Numbered;
    TurnIs(Run(steps), w);
  }

  lemma TurnIs(s: ReadState, w: Thread)
    requires Conserved(s) && WorkersFounded(s) && w in s.workers && s.workers[w] == Testing
    ensures var t := Complete(FillRequest(Retrieve(Test(s, w), w), w), w);
            if s.ring == [] || s.requests == [] then t == s.(workers := s.workers - {w})
            else
              var n := Min(s.requests[0].length, |s.ring|);
              && n > 0 && t.ring == s.ring[n..] && t.requests == s.requests[1..] && t.workers == s.workers
              && t.fills == s.fills + [Fill(s.requests[0].id, |s.written| - |s.ring|, n)]
              && t.completed == s.completed + [s.requests[0].id] && t.written == s.written && t.nextId == s.nextId
  {
    hide Consecutive;
    var tested := Test(s, w);
    if s.ring != [] {
      assert tested == s.(workers := s.workers[w := Tested(|s.fills|)]);
      if s.requests != [] {
        var held := Retrieve(tested, w);
        assert held == s.(requests := s.requests[1..], workers := s.workers[w := Holding(s.requests[0], |s.fills|)]);
        var filled := FillRequest(held, w);
        assert filled.workers == s.workers[w := Filled(s.requests[0].id)];
        assert s.workers[w := Testing] == s.workers;
      }
    }
  }

  /** What comes in joins the stream at its end; a request of some length waits behind all others. */
  lemma ComesIn(s: ReadState, bytes: seq<u8>, length: nat, w: Thread)
    ensures var t := Next(s, DoWrite(bytes));
            && t.ring == s.ring + bytes && t.written == s.written + bytes && t.requests == s.requests && t.workers == s.workers
    ensures var t := Next(s, DoForward(length));
            t.requests == s.requests + (if length > 0 then [Request(s.nextId, length)] else []) && t.ring == s.ring
    ensures w !in s.workers ==> Next(s, DoEnter(w)) == s.(workers := s.workers[w := Testing])
  {
  }

  // ---------------------------------------------------------------------------------------------
  // The stream in the order the requests were issued
  // ---------------------------------------------------------------------------------------------

  function Upto(n: nat): (r: seq<nat>)
    ensures |r| == n && forall i :: 0 <= i < n ==> r[i] == i
  {
    seq(n, i => i)
  }

  /** The places of the stream that a fill carries. */
  function Places(f: Fill): (r: seq<nat>)
    ensures |r| == f.count && forall i :: 0 <= i < |r| ==> r[i] == f.offset + i
  {
    seq(f.count, i => f.offset + i)
  }

  /** What request `id` carries; nothing if it has not been filled. */
  function PlacesOf(fills: seq<Fill>, id: RequestId): seq<nat> {
    if fills == [] then []
    else if fills[|fills| - 1].id == id then Places(fills[|fills| - 1])
    else PlacesOf(fills[..|fills| - 1], id)
  }

  /** What the first `n` requests carry, one after the other as they were issued. */
  function ByIssue(fills: seq<Fill>, n: nat): seq<nat> {
    if n == 0 then [] else ByIssue(fills, n - 1) + PlacesOf(fills, n - 1)
  }

  /** The bytes of the stream at these places. */
  function Select(stream: seq<u8>, places: seq<nat>): (r: seq<u8>)
    ensures |r| == |places|
  {
    seq(|places|, i requires 0 <= i < |places| => if places[i] < |stream| then stream[places[i]] else 0)
  }

  /** Requests that carry bytes were filled in the order they were issued, which is that in which they
      were retrieved. */
  ghost predicate InIssueOrder(fills: seq<Fill>) {
    forall i, j :: 0 <= i < j < |fills| && fills[i].count > 0 && fills[j].count > 0 ==> fills[i].id < fills[j].id
  }

  lemma {:induction false} NotAmong(fills: seq<Fill>, id: RequestId)
    requires forall i :: 0 <= i < |fills| ==> fills[i].id != id || fills[i].count == 0
    ensures PlacesOf(fills, id) == []
  {
    if fills != [] {
      NotAmong(fills[..|fills| - 1], id);
    }
  }

  lemma {:induction false} Among(fills: seq<Fill>, i: nat)
    requires i < |fills| && DistinctFills(fills)
    ensures PlacesOf(fills, fills[i].id) == Places(fills[i])
  {
    if i < |fills| - 1 {
      Among(fills[..|fills| - 1], i);
    }
  }

  lemma PlacesOfMore(fills: seq<Fill>, f: Fill, id: RequestId)
    ensures PlacesOf(fills + [f], id) == if f.id == id then Places(f) else PlacesOf(fills, id)
  {
    assert (fills + [f])[..|fills|] == fills;
  }

  lemma {:induction false} ByIssueBefore(fills: seq<Fill>, f: Fill, n: nat)
    requires n <= f.id
    ensures ByIssue(fills + [f], n) == ByIssue(fills, n)
  {
    if n > 0 {
      ByIssueBefore(fills, f, n - 1);
      PlacesOfMore(fills, f, n - 1);
    }
  }

  /** A fill of a later request than all filled before goes to the end. */
  lemma {:induction false} ByIssueMore(fills: seq<Fill>, f: Fill, n: nat)
    requires f.id < n && forall i :: 0 <= i < |fills| ==> fills[i].id != f.id
    requires f.count > 0 ==> forall i :: 0 <= i < |fills| && fills[i].count > 0 ==> fills[i].id < f.id
    ensures ByIssue(fills + [f], n) == ByIssue(fills, n) + Places(f)
  {
    PlacesOfMore(fills, f, n - 1);
    if n - 1 == f.id {
      ByIssueBefore(fills, f, n - 1);
      NotAmong(fills, f.id);
    } else {
      ByIssueMore(fills, f, n - 1);
      if f.count > 0 {
        NotAmong(fills, n - 1);
      } else {
        assert Places(f) == [];
      }
    }
  }

  lemma {:induction false} OrderedIsStream(fills: seq<Fill>, n: nat, end: nat)
    requires Consecutive(fills, end) && DistinctFills(fills) && InIssueOrder(fills)
    requires forall i :: 0 <= i < |fills| ==> fills[i].id < n
    ensures ByIssue(fills, n) == Upto(end)
    decreases |fills|
  {
    if fills == [] {
      NothingIssued(n);
    } else {
      hide Consecutive, ByIssue, DistinctFills, InIssueOrder;
      var before, f := fills[..|fills| - 1], fills[|fills| - 1];
      assert fills == before + [f];
      ConsecutiveBefore(fills, end);
      LastIsNewest(fills, before, f);
      OrderedIsStream(before, n, f.offset);
      ByIssueMore(before, f, n);
      assert Upto(end) == Upto(f.offset) + Places(f);
    }
  }

  lemma LastIsNewest(fills: seq<Fill>, before: seq<Fill>, f: Fill)
    requires fills == before + [f] && DistinctFills(fills) && InIssueOrder(fills)
    ensures DistinctFills(before) && InIssueOrder(before)
    ensures forall i :: 0 <= i < |before| ==> before[i].id != f.id && before[i] == fills[i]
    ensures f.count > 0 ==> forall i :: 0 <= i < |before| && before[i].count > 0 ==> before[i].id < f.id
  {
    assert fills[|before|] == f;
    assert forall i :: 0 <= i < |before| ==> before[i] == fills[i];
  }

  lemma ConsecutiveBefore(fills: seq<Fill>, end: int)
    requires Consecutive(fills, end) && fills != []
    ensures var f := fills[|fills| - 1];
            Consecutive(fills[..|fills| - 1], f.offset) && f.offset + f.count == end
  {
  }

  lemma {:induction false} NothingIssued(n: nat)
    ensures ByIssue([], n) == []
  {
    if n > 0 {
      NothingIssued(n - 1);
    }
  }

  lemma {:induction false} ByIssueGrows(fills: seq<Fill>, m: nat, n: nat)
    requires m <= n
    ensures ByIssue(fills, m) <= ByIssue(fills, n)
    decreases n
  {
    if m < n {
      ByIssueGrows(fills, m, n - 1);
    }
  }

  /** Where the bytes of fill `i` begin. */
  lemma BlockAt(fills: seq<Fill>, i: nat, n: nat)
    requires i < |fills| && DistinctFills(fills) && fills[i].id < n && fills[i].count > 0
    ensures var p := |ByIssue(fills, fills[i].id)|;
            p < |ByIssue(fills, fills[i].id + 1)| <= |ByIssue(fills, n)| && ByIssue(fills, n)[p] == fills[i].offset
  {
    Among(fills, i);
    ByIssueGrows(fills, fills[i].id + 1, n);
  }

  lemma {:induction false} OffsetsRise(fills: seq<Fill>, end: int, i: nat, j: nat)
    requires Consecutive(fills, end) && i < j < |fills|
    ensures fills[i].offset + fills[i].count <= fills[j].offset
    decreases j
  {
    if i < j - 1 {
      OffsetsRise(fills, end, i, j - 1);
    }
  }

  lemma StreamIsOrdered(fills: seq<Fill>, n: nat, end: nat)
    requires Consecutive(fills, end) && DistinctFills(fills) && ByIssue(fills, n) == Upto(end)
    requires forall i :: 0 <= i < |fills| ==> fills[i].id < n
    ensures InIssueOrder(fills)
  {
    hide ByIssue, Consecutive;
    forall i, j | 0 <= i < j < |fills| && fills[i].count > 0 && fills[j].count > 0 ensures fills[i].id < fills[j].id {
      OffsetsRise(fills, end, i, j);
      BlockAt(fills, i, n);
      BlockAt(fills, j, n);
      if fills[j].id < fills[i].id {
        ByIssueGrows(fills, fills[j].id + 1, fills[i].id);
      }
    }
  }

  /** In every reachable state: what the requests carry, one after the other as they were issued, is the
      stream without gap, repetition or exchange exactly when those that carry bytes were filled in that
      order. */
  lemma StreamExactly(steps: seq<Step>)
    ensures var s := Run(steps);
            Taken(s) >= 0 && (ByIssue(s.fills, s.nextId) == Upto(Taken(s)) <==> InIssueOrder(s.fills))
  {
    hide Run, ByIssue, InIssueOrder, Consecutive, DistinctFills, WorkersFounded;
    RunKeepsInv(steps);
    var s := Run(steps);
    if InIssueOrder(s.fills) {
      OrderedIsStream(s.fills, s.nextId, Taken(s));
    }
    if ByIssue(s.fills, s.nextId) == Upto(Taken(s)) {
      StreamIsOrdered(s.fills, s.nextId, Taken(s));
    }
  }

  /** Then the bytes are those written, as far as they were taken. */
  lemma OrderedBytes(steps: seq<Step>)
    requires InIssueOrder(Run(steps).fills)
    ensures var s := Run(steps);
            0 <= Taken(s) <= |s.written| && Select(s.written, ByIssue(s.fills, s.nextId)) == s.written[..Taken(s)]
  {
    StreamExactly(steps);
    hide Run, ByIssue;
  }

  // ---------------------------------------------------------------------------------------------
  // One thread in the loop
  // ---------------------------------------------------------------------------------------------

  /** A step of the loop is taken by `w`. */
  ghost predicate TakenBy(step: Step, w: Thread) {
    match step
    case DoEnter(v) => v == w
    case DoTest(v) => v == w
    case DoRetrieve(v) => v == w
    case DoFill(v) => v == w
    case DoComplete(v) => v == w
    case _ => true
  }

  /** `w` alone is in the loop: every request was filled with something and after all earlier ones, and
      what it holds is later than all of them; it completes them in that order. */
  ghost predicate Alone(s: ReadState, w: Thread) {
    && (forall i :: 0 <= i < |s.fills| ==> s.fills[i].count > 0)
    && (forall i, j :: 0 <= i < j < |s.fills| ==> s.fills[i].id < s.fills[j].id)
    && (forall v :: v in s.workers ==> v == w)
    && (w in s.workers && (s.workers[w].Tested? || s.workers[w].Holding?) ==> s.workers[w].since == |s.fills|)
    && (w in s.workers && s.workers[w].Holding? ==> forall i :: 0 <= i < |s.fills| ==> s.fills[i].id < s.workers[w].request.id)
    && s.completed == Ids(if w in s.workers && s.workers[w].Filled? && s.fills != [] then s.fills[..|s.fills| - 1] else s.fills)
    && (w in s.workers && s.workers[w].Filled? ==> s.fills != [] && s.fills[|s.fills| - 1].id == s.workers[w].id)
  }

  function Ids(fills: seq<Fill>): (r: seq<RequestId>)
    ensures |r| == |fills| && forall i :: 0 <= i < |r| ==> r[i] == fills[i].id
  {
    seq(|fills|, i requires 0 <= i < |fills| => fills[i].id)
  }

  lemma NextAlone(s: ReadState, step: Step, w: Thread)
    requires Inv(s) && Alone(s, w) && TakenBy(step, w)
    ensures Alone(Next(s, step), w)
  {
    hide Consecutive, DistinctFills, Ids;
    match step
    case DoFill(v) => FillAlone(s, w);
    case DoComplete(v) => CompleteAlone(s, w);
    case DoRetrieve(v) => hide Conserved, WorkersFounded;
    case _ => hide Numbered, Conserved, WorkersFounded;
  }

  lemma FillAlone(s: ReadState, w: Thread)
    requires Inv(s) && Alone(s, w)
    ensures Alone(FillRequest(s, w), w)
  {
    hide Numbered;
    if w in s.workers && s.workers[w].Holding? {
      var t := FillRequest(s, w);
      assert s.ring != [] && t.fills[|s.fills|].count > 0;
      assert t.fills[..|t.fills| - 1] == s.fills;
    }
  }

  lemma CompleteAlone(s: ReadState, w: Thread)
    requires Alone(s, w)
    ensures Alone(Complete(s, w), w)
  {
    if w in s.workers && s.workers[w].Filled? {
      assert s.fills == s.fills[..|s.fills| - 1] + [s.fills[|s.fills| - 1]];
    }
  }

  lemma {:induction false} RunAlone(steps: seq<Step>, w: Thread)
    requires forall i :: 0 <= i < |steps| ==> TakenBy(steps[i], w)
    ensures Alone(Run(steps), w)
  {
    if steps != [] {
      hide Next, Alone, TakenBy, Inv;
      var before := steps[..|steps| - 1];
      assert forall i :: 0 <= i < |before| ==> before[i] == steps[i];
      RunAlone(before, w);
      RunKeepsInv(before);
      NextAlone(Run(before), steps[|steps| - 1], w);
    } else {
      NothingRun();
    }
  }

  /** With one thread at the loop no request is completed with nothing, and requests carry the stream in
      the order issued, which is that in which they are completed. */
  lemma OneThreadIsEnough(steps: seq<Step>, w: Thread)
    requires forall i :: 0 <= i < |steps| ==> TakenBy(steps[i], w)
    ensures var s := Run(steps);
            && (forall i :: 0 <= i < |s.fills| ==> s.fills[i].count > 0)
            && InIssueOrder(s.fills)
            && (forall i, j :: 0 <= i < j < |s.completed| ==> s.completed[i] < s.completed[j])
  {
    hide Run, TakenBy;
    RunAlone(steps, w);
  }

  // ---------------------------------------------------------------------------------------------
  // One request outstanding
  // ---------------------------------------------------------------------------------------------

  ghost predicate Holds(w: Worker, id: RequestId) {
    (w.Holding? && w.request.id == id) || (w.Filled? && w.id == id)
  }

  /** The reader waits for no request. */
  ghost predicate Idle(s: ReadState) {
    s.requests == [] && forall w :: w in s.workers ==> !s.workers[w].Holding? && !s.workers[w].Filled?
  }

  /** A reader that issues a request only once the one before is completed. */
  ghost predicate OneAtATime(steps: seq<Step>) {
    forall i :: 0 <= i < |steps| && steps[i].DoForward? ==> Idle(Run(steps[..i]))
  }

  /** Only the latest request can be outstanding, and all filled before it are earlier. */
  ghost predicate Latest(s: ReadState) {
    && (forall i :: 0 <= i < |s.requests| ==> s.requests[i].id + 1 == s.nextId)
    && (forall w :: w in s.workers && s.workers[w].Holding? ==> s.workers[w].request.id + 1 == s.nextId)
    && (forall i, j :: 0 <= i < j < |s.fills| ==> s.fills[i].id < s.fills[j].id)
  }

  lemma NextLatest(s: ReadState, step: Step)
    requires Numbered(s) && Latest(s) && (step.DoForward? ==> Idle(s))
    ensures Latest(Next(s, step))
  {
    match step
    case DoFill(w) => FillLatest(s, w);
    case _ => hide Numbered;
  }

  lemma FillLatest(s: ReadState, w: Thread)
    requires Numbered(s) && Latest(s)
    ensures Latest(FillRequest(s, w))
  {
    if w in s.workers && s.workers[w].Holding? {
      assert HeldBy(s, w, s.workers[w].request.id);
      assert forall i :: 0 <= i < |s.fills| ==> s.fills[i].id < s.workers[w].request.id;
    }
  }

  lemma {:induction false} RunLatest(steps: seq<Step>)
    requires OneAtATime(steps)
    ensures Latest(Run(steps))
  {
    if steps != [] {
      hide Next, Latest, Idle, Conserved, WorkersFounded, Numbered;
      var before := steps[..|steps| - 1];
      assert forall i :: 0 <= i < |before| ==> before[i] == steps[i] && before[..i] == steps[..i];
      RunLatest(before);
      RunKeepsInv(before);
      assert steps[..|steps| - 1] == before;
      NextLatest(Run(before), steps[|steps| - 1]);
    } else {
      NothingRun();
    }
  }

  /** With at most one request outstanding they carry the stream in the order issued, whatever the threads
      do. */
  lemma OneRequestIsEnough(steps: seq<Step>)
    requires OneAtATime(steps)
    ensures InIssueOrder(Run(steps).fills)
  {
    hide Run;
    RunLatest(steps);
  }

  // ---------------------------------------------------------------------------------------------
  // Two threads
  // ---------------------------------------------------------------------------------------------

  lemma RunStep(steps: seq<Step>, step: Step)
    ensures Run(steps + [step]) == Next(Run(steps), step)
  {
    assert (steps + [step])[..|steps|] == steps;
  }

  lemma RunThree(steps: seq<Step>, a: Step, b: Step, c: Step)
    ensures Run(steps + [a, b, c]) == Next(Next(Next(Run(steps), a), b), c)
  {
    hide Run, Next;
    RunStep(steps, a);
    RunStep(steps + [a], b);
    RunStep(steps + [a] + [b], c);
    assert steps + [a] + [b] + [c] == steps + [a, b, c];
  }

  lemma NothingRun()
    ensures Run([]) == INIT
  {
  }

  const BOTH_ENTER := [] + [DoWrite([7]), DoEnter(0), DoEnter(1)]
  const BOTH_TEST := BOTH_ENTER + [DoTest(0), DoTest(1), DoForward(4)]
  const ONE_FILLS := BOTH_TEST + [DoRetrieve(0), DoFill(0), DoComplete(0)]
  const OTHER_FILLS := ONE_FILLS + [DoForward(4), DoRetrieve(1), DoFill(1)]

  lemma BothTest()
    ensures Run(BOTH_TEST) == ReadState([7], [Request(0, 4)], map[0 := Tested(0), 1 := Tested(0)], 1, [7], [], [])
  {
    hide Run;
    NothingRun();
    RunThree([], DoWrite([7]), DoEnter(0), DoEnter(1));
    assert Run(BOTH_ENTER) == ReadState([7], [], map[0 := Testing, 1 := Testing], 0, [7], [], []);
    RunThree(BOTH_ENTER, DoTest(0), DoTest(1), DoForward(4));
  }

  lemma OneFills()
    ensures Run(ONE_FILLS) == ReadState([], [], map[0 := Testing, 1 := Tested(0)], 1, [7], [Fill(0, 0, 1)], [0])
  {
    hide Run;
    BothTest();
    RunThree(BOTH_TEST, DoRetrieve(0), DoFill(0), DoComplete(0));
    assert [Request(0, 4)][1..] == [] && [7][1..] == [];
  }

  /** A request can be completed with nothing though the stream goes on, even to a reader with one request
      at a time: both threads test the ring while it has a byte, one takes it for the first request, and the
      other has nothing for the second. */
  lemma TwoThreadsCanEmpty()
    ensures var s := Run(OTHER_FILLS + [DoWrite([8])]);
            s.fills == [Fill(0, 0, 1), Fill(1, 1, 0)] && s.ring == [8]
  {
    hide Run;
    OneFills();
    RunThree(ONE_FILLS, DoForward(4), DoRetrieve(1), DoFill(1));
    assert [Request(1, 4)][1..] == [];
    RunStep(OTHER_FILLS, DoWrite([8]));
  }

  const TWO_REQUESTS := [] + [DoWrite([7, 8, 9]), DoForward(1), DoForward(2)]
  const TWO_TEST := TWO_REQUESTS + [DoEnter(0), DoEnter(1), DoTest(0)]
  const TWO_HOLD := TWO_TEST + [DoTest(1), DoRetrieve(0), DoRetrieve(1)]
  const TWO_FILL := TWO_HOLD + [DoFill(1), DoFill(0), DoComplete(0)]

  lemma TwoTest()
    ensures Run(TWO_TEST) == ReadState([7, 8, 9], [Request(0, 1), Request(1, 2)], map[0 := Tested(0), 1 := Testing], 2, [7, 8, 9], [], [])
  {
    hide Run;
    NothingRun();
    RunThree([], DoWrite([7, 8, 9]), DoForward(1), DoForward(2));
    assert Run(TWO_REQUESTS) == ReadState([7, 8, 9], [Request(0, 1), Request(1, 2)], map[], 2, [7, 8, 9], [], []);
    RunThree(TWO_REQUESTS, DoEnter(0), DoEnter(1), DoTest(0));
  }

  lemma TwoHold()
    ensures Run(TWO_HOLD) == ReadState([7, 8, 9], [], map[0 := Holding(Request(0, 1), 0), 1 := Holding(Request(1, 2), 0)], 2, [7, 8, 9], [], [])
  {
    hide Run;
    TwoTest();
    RunThree(TWO_TEST, DoTest(1), DoRetrieve(0), DoRetrieve(1));
    assert [Request(0, 1), Request(1, 2)][1..] == [Request(1, 2)] && [Request(1, 2)][1..] == [];
  }

  /** With two requests outstanding two threads can exchange what they carry: the first issued has the third
      byte, the second the first two. */
  lemma TwoThreadsCanExchange()
    ensures var s := Run(TWO_FILL);
            && s.fills == [Fill(1, 0, 2), Fill(0, 2, 1)]
            && Select(s.written, ByIssue(s.fills, s.nextId)) == [9, 7, 8]
  {
    hide Run;
    TwoHold();
    RunThree(TWO_HOLD, DoFill(1), DoFill(0), DoComplete(0));
    assert [7, 8, 9][2..] == [9];
    ExchangedPlaces();
  }

  lemma ExchangedPlaces()
    ensures ByIssue([Fill(1, 0, 2), Fill(0, 2, 1)], 2) == [2, 0, 1]
  {
    var fills := [Fill(1, 0, 2), Fill(0, 2, 1)];
    assert fills[..1] == [Fill(1, 0, 2)];
    assert PlacesOf(fills, 0) == [2];
    assert PlacesOf([Fill(1, 0, 2)], 1) == [0, 1];
    assert PlacesOf(fills, 1) == [0, 1];
    assert ByIssue(fills, 0) == [] && ByIssue(fills, 1) == [2];
  }
}
