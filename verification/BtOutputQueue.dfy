/** Output queue of the Windows HID transport (src/platform/win32/vds_bt.cc): a bounded queue of reports
    and one writer thread; queued audio reports give way to newer ones. */
module BtOutputQueue {
  import opened VdsTypes

  type Report = seq<u8>

  const MAX_PENDING_WRITES: nat := 64
  const MAX_QUEUED_AUDIO: nat := 4
  const HAPTICS_REPORT_ID: u8 := 0x36

  predicate IsAudio(r: Report) {
    r != [] && r[0] == HAPTICS_REPORT_ID
  }

  /** Reports are named by the order in which they were accepted. `queue`, `active` and `written` hold
      such numbers; `coalesced` are the audio reports given up, `lost` those a write error or the stop
      took. */
  datatype OutputState = OutputState(
    accepted: seq<Report>,
    queue: seq<nat>,
    active: Option<nat>,
    written: seq<nat>,
    coalesced: seq<nat>,
    lost: seq<nat>,
    failed: bool,
    stopped: bool)

  const EMPTY := OutputState([], [], None, [], [], [], false, false)

  /** Whether number `id` is an audio report. */
  predicate AudioId(accepted: seq<Report>, id: nat) {
    id < |accepted| && IsAudio(accepted[id])
  }

  /** The place of the oldest queued audio report; the length of the queue if there is none. */
  function OldestAudio(accepted: seq<Report>, queue: seq<nat>): (i: nat)
    ensures i <= |queue|
    ensures i < |queue| ==> AudioId(accepted, queue[i])
    ensures forall j :: 0 <= j < i ==> !AudioId(accepted, queue[j])
  {
    if queue == [] || AudioId(accepted, queue[0]) then 0 else 1 + OldestAudio(accepted, queue[1..])
  }

  function QueuedAudio(accepted: seq<Report>, queue: seq<nat>): nat {
    if queue == [] then 0
    else QueuedAudio(accepted, queue[..|queue| - 1]) + if AudioId(accepted, queue[|queue| - 1]) then 1 else 0
  }

  function RemoveAt<T>(q: seq<T>, i: nat): seq<T>
    requires i < |q|
  {
    q[..i] + q[i + 1..]
  }

  /** Give up the oldest queued audio report, if there is one. */
  function CoalesceOldest(s: OutputState): OutputState {
    var i := OldestAudio(s.accepted, s.queue);
    if i == |s.queue| then s else s.(queue := RemoveAt(s.queue, i), coalesced := s.coalesced + [s.queue[i]])
  }

  /** Make room among the audio reports for one more. */
  function TrimAudio(s: OutputState): OutputState
    decreases |s.queue|
  {
    if QueuedAudio(s.accepted, s.queue) >= MAX_QUEUED_AUDIO && OldestAudio(s.accepted, s.queue) < |s.queue|
    then TrimAudio(CoalesceOldest(s))
    else s
  }

  function Push(s: OutputState, report: Report): OutputState {
    s.(accepted := s.accepted + [report], queue := s.queue + [|s.accepted|])
  }

  /** What is given up to make room for a report. */
  function MakeRoom(s: OutputState, report: Report): OutputState {
    if !IsAudio(report) then s
    else
      var trimmed := TrimAudio(s);
      if |trimmed.queue| >= MAX_PENDING_WRITES then CoalesceOldest(trimmed) else trimmed
  }

  /** Queue a report; the second result is whether it was accepted. After a write error none is. */
  function Enqueue(s: OutputState, report: Report): (OutputState, bool) {
    if s.failed then (s, false)
    else
      var room := MakeRoom(s, report);
      if |room.queue| >= MAX_PENDING_WRITES then (room, false) else (Push(room, report), true)
  }

  /** The writer takes the oldest report. */
  function Pick(s: OutputState): OutputState {
    if s.stopped || s.failed || s.active.Some? || s.queue == [] then s
    else s.(active := Some(s.queue[0]), queue := s.queue[1..])
  }

  function Complete(s: OutputState): OutputState {
    if s.active.None? then s else s.(active := None, written := s.written + [s.active.value])
  }

  /** The write fails; the writer gives up. */
  function Fail(s: OutputState): OutputState {
    if s.active.None? then s else s.(active := None, failed := true, lost := s.lost + [s.active.value])
  }

  function Stop(s: OutputState): OutputState {
    if s.stopped then s else s.(stopped := true, queue := [], lost := s.lost + s.queue)
  }

  datatype Step = DoEnqueue(report: Report) | DoPick | DoComplete | DoFail | DoStop

  function Next(s: OutputState, step: Step): OutputState {
    match step
    case DoEnqueue(report) => Enqueue(s, report).0
    case DoPick => Pick(s)
    case DoComplete => Complete(s)
    case DoFail => Fail(s)
    case DoStop => Stop(s)
  }

  function Run(steps: seq<Step>): OutputState {
    if steps == [] then EMPTY else Next(Run(steps[..|steps| - 1]), steps[|steps| - 1])
  }

  // ---------------------------------------------------------------------------------------------
  // Invariants
  // ---------------------------------------------------------------------------------------------

  function Active(s: OutputState): seq<nat> {
    if s.active.Some? then [s.active.value] else []
  }

  function Single(id: nat): multiset<nat> {
    multiset{id}
  }

  /** All numbers below `n`. */
  function Upto(n: nat): multiset<nat> {
    if n == 0 then multiset{} else Upto(n - 1) + Single(n - 1)
  }

  /** Every accepted report is in exactly one place. */
  ghost predicate Accounted(s: OutputState) {
    multiset(s.written) + multiset(Active(s)) + multiset(s.queue) + multiset(s.coalesced) + multiset(s.lost) == Upto(|s.accepted|)
  }

  ghost predicate Rising(q: seq<nat>) {
    forall i, j :: 0 <= i < j < |q| ==> q[i] < q[j]
  }

  /** What the writer has taken so far. */
  function Taken(s: OutputState): seq<nat> {
    s.written + Active(s)
  }

  /** What was written, is being written, and waits was accepted in that order. */
  ghost predicate InOrder(s: OutputState) {
    && Rising(Taken(s)) && Rising(s.queue)
    && (forall i :: 0 <= i < |Taken(s)| ==> Taken(s)[i] < |s.accepted|)
    && (forall i :: 0 <= i < |s.queue| ==> s.queue[i] < |s.accepted|)
    && (forall i, j :: 0 <= i < |Taken(s)| && 0 <= j < |s.queue| ==> Taken(s)[i] < s.queue[j])
  }

  ghost predicate Bounded(s: OutputState) {
    |s.queue| <= MAX_PENDING_WRITES && QueuedAudio(s.accepted, s.queue) <= MAX_QUEUED_AUDIO
  }

  ghost predicate OnlyAudioGivenUp(s: OutputState) {
    forall i :: 0 <= i < |s.coalesced| ==> s.coalesced[i] < |s.accepted| && IsAudio(s.accepted[s.coalesced[i]])
  }

  ghost predicate NothingLost(s: OutputState) {
    !s.failed && !s.stopped ==> s.lost == []
  }

  ghost predicate Inv(s: OutputState) {
    Accounted(s) && InOrder(s) && Bounded(s) && OnlyAudioGivenUp(s) && NothingLost(s)
  }

  lemma {:induction false} AudioConcat(accepted: seq<Report>, a: seq<nat>, b: seq<nat>)
    ensures QueuedAudio(accepted, a + b) == QueuedAudio(accepted, a) + QueuedAudio(accepted, b)
    decreases |b|
  {
    if b == [] {
      assert a + b == a;
    } else {
      AudioConcat(accepted, a, b[..|b| - 1]);
      assert (a + b)[..|a + b| - 1] == a + b[..|b| - 1];
    }
  }

  lemma OneAudio(accepted: seq<Report>, id: nat)
    ensures QueuedAudio(accepted, [id]) == if AudioId(accepted, id) then 1 else 0
  {
    assert [id][..0] == [];
  }

  lemma RemoveCounts(accepted: seq<Report>, queue: seq<nat>, i: nat)
    requires i < |queue|
    ensures QueuedAudio(accepted, RemoveAt(queue, i)) == QueuedAudio(accepted, queue) - if AudioId(accepted, queue[i]) then 1 else 0
    ensures multiset(RemoveAt(queue, i)) + Single(queue[i]) == multiset(queue)
  {
    hide QueuedAudio;
    assert queue == queue[..i] + ([queue[i]] + queue[i + 1..]);
    AudioConcat(accepted, queue[..i], queue[i + 1..]);
    AudioConcat(accepted, queue[..i], [queue[i]] + queue[i + 1..]);
    AudioConcat(accepted, [queue[i]], queue[i + 1..]);
    OneAudio(accepted, queue[i]);
  }

  lemma {:induction false} AudioExists(accepted: seq<Report>, queue: seq<nat>)
    ensures QueuedAudio(accepted, queue) > 0 <==> OldestAudio(accepted, queue) < |queue|
    decreases |queue|
  {
    hide AudioId, OldestAudio;
    if queue != [] {
      var before, last := queue[..|queue| - 1], queue[|queue| - 1];
      AudioExists(accepted, before);
      assert queue == before + [last];
      var i, j := OldestAudio(accepted, before), OldestAudio(accepted, queue);
      assert i < |before| ==> AudioId(accepted, queue[i]);
      assert j < |before| ==> AudioId(accepted, before[j]);
    }
  }

  /** The part of the invariant that giving up audio must keep. */
  ghost predicate Core(s: OutputState) {
    Accounted(s) && InOrder(s) && OnlyAudioGivenUp(s) && NothingLost(s)
  }

  lemma Appended(q: seq<nat>, id: nat)
    ensures multiset(q + [id]) == multiset(q) + Single(id)
  {
  }

  /** Moving number `i` of the queue to the reports given up. */
  function GiveUp(s: OutputState, i: nat): OutputState
    requires i < |s.queue|
  {
    s.(queue := RemoveAt(s.queue, i), coalesced := s.coalesced + [s.queue[i]])
  }

  lemma GiveUpAccounted(s: OutputState, i: nat)
    requires Accounted(s) && i < |s.queue|
    ensures Accounted(GiveUp(s, i))
  {
    hide Upto, RemoveAt, Single;
    RemoveCounts(s.accepted, s.queue, i);
    Appended(s.coalesced, s.queue[i]);
  }

  lemma CoalesceKeeps(s: OutputState)
    requires Core(s)
    ensures var t := CoalesceOldest(s);
            && Core(t) && t.accepted == s.accepted
            && (OldestAudio(s.accepted, s.queue) < |s.queue| ==>
                  && |t.queue| == |s.queue| - 1
                  && QueuedAudio(t.accepted, t.queue) == QueuedAudio(s.accepted, s.queue) - 1)
  {
    var i := OldestAudio(s.accepted, s.queue);
    hide QueuedAudio, OldestAudio, InOrder, Accounted;
    if i < |s.queue| {
      RemoveCounts(s.accepted, s.queue, i);
      RemoveInOrder(s, i);
      GiveUpAccounted(s, i);
    }
  }

  lemma RemoveInOrder(s: OutputState, i: nat)
    requires InOrder(s) && i < |s.queue|
    ensures InOrder(GiveUp(s, i))
  {
    var q := RemoveAt(s.queue, i);
    assert forall j :: 0 <= j < |q| ==> q[j] == s.queue[if j < i then j else j + 1];
  }

  lemma {:induction false} TrimKeeps(s: OutputState)
    requires Core(s)
    ensures var t := TrimAudio(s);
            && Core(t) && t.accepted == s.accepted && |t.queue| <= |s.queue|
            && QueuedAudio(t.accepted, t.queue) < MAX_QUEUED_AUDIO
            && (QueuedAudio(s.accepted, s.queue) < MAX_QUEUED_AUDIO ==> t == s)
            && (QueuedAudio(s.accepted, s.queue) >= MAX_QUEUED_AUDIO ==> |t.queue| < |s.queue|)
    decreases |s.queue|
  {
    hide Core, QueuedAudio, OldestAudio;
    AudioExists(s.accepted, s.queue);
    if QueuedAudio(s.accepted, s.queue) >= MAX_QUEUED_AUDIO {
      CoalesceKeeps(s);
      TrimKeeps(CoalesceOldest(s));
    }
  }

  lemma {:induction false} AudioStable(accepted: seq<Report>, report: Report, queue: seq<nat>)
    requires forall i :: 0 <= i < |queue| ==> queue[i] < |accepted|
    ensures QueuedAudio(accepted + [report], queue) == QueuedAudio(accepted, queue)
  {
    if queue != [] {
      AudioStable(accepted, report, queue[..|queue| - 1]);
    }
  }

  lemma PushAccounted(s: OutputState, report: Report)
    requires Accounted(s)
    ensures Accounted(Push(s, report))
  {
    hide Single;
    Appended(s.queue, |s.accepted|);
  }

  lemma PushInOrder(s: OutputState, report: Report)
    requires InOrder(s)
    ensures InOrder(Push(s, report))
  {
    assert Taken(Push(s, report)) == Taken(s);
    hide Taken;
  }

  lemma PushKeeps(s: OutputState, report: Report)
    requires Core(s)
    ensures Core(Push(s, report))
    ensures QueuedAudio(s.accepted + [report], s.queue + [|s.accepted|])
         == QueuedAudio(s.accepted, s.queue) + if IsAudio(report) then 1 else 0
  {
    PushAudio(s, report);
    hide QueuedAudio, Accounted, InOrder;
    PushAccounted(s, report);
    PushInOrder(s, report);
  }

  lemma PushAudio(s: OutputState, report: Report)
    requires InOrder(s)
    ensures QueuedAudio(s.accepted + [report], s.queue + [|s.accepted|])
         == QueuedAudio(s.accepted, s.queue) + if IsAudio(report) then 1 else 0
  {
    hide QueuedAudio;
    AudioStable(s.accepted, report, s.queue);
    AudioConcat(s.accepted + [report], s.queue, [|s.accepted|]);
    OneAudio(s.accepted + [report], |s.accepted|);
  }

  lemma MakeRoomKeeps(s: OutputState, report: Report)
    requires Core(s) && Bounded(s)
    ensures var t := MakeRoom(s, report);
            && Core(t) && Bounded(t) && t.accepted == s.accepted
            && (IsAudio(report) ==> QueuedAudio(t.accepted, t.queue) < MAX_QUEUED_AUDIO)
            && (|t.queue| >= MAX_PENDING_WRITES <==>
                  |s.queue| >= MAX_PENDING_WRITES && (!IsAudio(report) || QueuedAudio(s.accepted, s.queue) == 0))
            && (|t.queue| >= MAX_PENDING_WRITES ==> t == s)
  {
    hide Core, QueuedAudio, OldestAudio, TrimAudio, CoalesceOldest;
    if IsAudio(report) {
      TrimKeeps(s);
      var trimmed := TrimAudio(s);
      CoalesceKeeps(trimmed);
      AudioExists(trimmed.accepted, trimmed.queue);
      NoneToCoalesce(trimmed);
    }
  }

  lemma NoneToCoalesce(s: OutputState)
    ensures OldestAudio(s.accepted, s.queue) == |s.queue| ==> CoalesceOldest(s) == s
  {
  }

  /** A report is refused exactly when the queue is full, and for audio also holds no audio; a refusal
      changes nothing. */
  lemma RejectedOnlyWhenFull(s: OutputState, report: Report)
    requires Inv(s) && !s.failed
    ensures Enqueue(s, report).1 <==> |s.queue| < MAX_PENDING_WRITES || (IsAudio(report) && QueuedAudio(s.accepted, s.queue) > 0)
    ensures !Enqueue(s, report).1 ==> Enqueue(s, report).0 == s
  {
    hide QueuedAudio, MakeRoom;
    MakeRoomKeeps(s, report);
  }

  /** Number `i` of the queue is the oldest audio report in it. */
  ghost predicate OldestAt(s: OutputState, i: nat) {
    && i < |s.queue| && AudioId(s.accepted, s.queue[i])
    && forall j :: 0 <= j < i ==> !AudioId(s.accepted, s.queue[j])
  }

  /** What queueing a report does: it goes behind all others; and only audio, when four audio reports wait
      or the queue is full, takes the place of one report, the oldest audio. */
  lemma EnqueueExactly(s: OutputState, report: Report)
    requires Inv(s) && !s.failed
    ensures var (t, accepted) := Enqueue(s, report);
            var audio := report != [] && report[0] == 0x36;
            var waiting := QueuedAudio(s.accepted, s.queue);
            var behind := t == s.(accepted := s.accepted + [report], queue := t.queue, coalesced := t.coalesced);
            if audio && (waiting == 4 || (|s.queue| == 64 && waiting > 0)) then
              accepted && behind
              && exists i: nat :: OldestAt(s, i)
                                  && t.queue == s.queue[..i] + s.queue[i + 1..] + [|s.accepted|]
                                  && t.coalesced == s.coalesced + [s.queue[i]]
            else if |s.queue| < 64 then
              accepted && behind && t.queue == s.queue + [|s.accepted|] && t.coalesced == s.coalesced
            else !accepted && t == s
  {
    hide Accounted, InOrder, OnlyAudioGivenUp, NothingLost, QueuedAudio, TrimAudio, CoalesceOldest, OldestAudio;
    AudioExists(s.accepted, s.queue);
    if IsAudio(report) {
      TrimExactly(s);
      CoalesceKeeps(s);
      if QueuedAudio(s.accepted, s.queue) > 0 {
        CoalesceExactly(s);
      } else {
        NoneToCoalesce(s);
      }
    }
  }

  /** Trimming gives up at most one report of a queue within its limits. */
  lemma TrimExactly(s: OutputState)
    requires Core(s) && QueuedAudio(s.accepted, s.queue) <= MAX_QUEUED_AUDIO
    ensures TrimAudio(s) == if QueuedAudio(s.accepted, s.queue) == MAX_QUEUED_AUDIO then CoalesceOldest(s) else s
  {
    hide Core, QueuedAudio, OldestAudio, CoalesceOldest;
    AudioExists(s.accepted, s.queue);
    CoalesceKeeps(s);
  }

  lemma CoalesceExactly(s: OutputState)
    requires OldestAudio(s.accepted, s.queue) < |s.queue|
    ensures var i, t := OldestAudio(s.accepted, s.queue), CoalesceOldest(s);
            OldestAt(s, i) && t == s.(queue := s.queue[..i] + s.queue[i + 1..], coalesced := s.coalesced + [s.queue[i]])
  {
    hide OldestAudio;
  }

  lemma EnqueueKeepsInv(s: OutputState, report: Report)
    requires Inv(s)
    ensures Inv(Enqueue(s, report).0)
  {
    hide Accounted, InOrder, OnlyAudioGivenUp, NothingLost, QueuedAudio, MakeRoom, Push;
    if !s.failed {
      MakeRoomKeeps(s, report);
      var room := MakeRoom(s, report);
      PushKeeps(room, report);
      PushFields(room, report);
    }
  }

  lemma PushFields(s: OutputState, report: Report)
    ensures Push(s, report).accepted == s.accepted + [report] && Push(s, report).queue == s.queue + [|s.accepted|]
  {
  }

  lemma HeadMoves(s: OutputState)
    requires s.queue != []
    ensures multiset(s.queue) == Single(s.queue[0]) + multiset(s.queue[1..])
    ensures QueuedAudio(s.accepted, s.queue[1..]) <= QueuedAudio(s.accepted, s.queue)
  {
    RemoveCounts(s.accepted, s.queue, 0);
    assert RemoveAt(s.queue, 0) == s.queue[1..];
    hide QueuedAudio;
  }

  lemma PickInOrder(s: OutputState)
    requires InOrder(s) && s.active.None? && s.queue != []
    ensures InOrder(s.(active := Some(s.queue[0]), queue := s.queue[1..]))
  {
    assert s.written + [] == s.written;
  }

  lemma PickKeepsInv(s: OutputState)
    requires Inv(s)
    ensures Inv(Pick(s))
  {
    if s.queue != [] && s.active.None? {
      HeadMoves(s);
      PickInOrder(s);
      assert multiset([s.queue[0]]) == Single(s.queue[0]);
    }
    hide QueuedAudio, Upto, InOrder, Single;
  }

  /** Both ways a write ends keep the order. */
  lemma EndInOrder(s: OutputState, t: OutputState)
    requires InOrder(s) && s.active.Some? && t.active.None? && t.queue == s.queue && t.accepted == s.accepted
    requires t.written == s.written + [s.active.value] || t.written == s.written
    ensures InOrder(t)
  {
    assert Taken(t) == t.written;
    assert forall i :: 0 <= i < |t.written| ==> t.written[i] == Taken(s)[i];
  }

  lemma CompleteKeepsInv(s: OutputState)
    requires Inv(s)
    ensures Inv(Complete(s))
  {
    hide QueuedAudio, Upto, InOrder;
    if s.active.Some? {
      Appended(s.written, s.active.value);
      EndInOrder(s, Complete(s));
    }
  }

  lemma FailKeepsInv(s: OutputState)
    requires Inv(s)
    ensures Inv(Fail(s))
  {
    hide QueuedAudio, Upto, InOrder;
    if s.active.Some? {
      Appended(s.lost, s.active.value);
      EndInOrder(s, Fail(s));
    }
  }

  lemma StopInOrder(s: OutputState)
    requires InOrder(s)
    ensures InOrder(Stop(s))
  {
  }

  lemma StopKeepsInv(s: OutputState)
    requires Inv(s)
    ensures Inv(Stop(s))
  {
    hide Upto, InOrder, QueuedAudio, Accounted, OnlyAudioGivenUp;
    StopInOrder(s);
    StopAccounted(s);
    NoAudioIn(s.accepted);
    GivenUpAside(s, Stop(s));
  }

  lemma NoAudioIn(accepted: seq<Report>)
    ensures QueuedAudio(accepted, []) == 0
  {
  }

  lemma GivenUpAside(s: OutputState, t: OutputState)
    requires OnlyAudioGivenUp(s) && t.accepted == s.accepted && t.coalesced == s.coalesced
    ensures OnlyAudioGivenUp(t)
  {
  }

  lemma StopAccounted(s: OutputState)
    requires Accounted(s)
    ensures Accounted(Stop(s))
  {
    hide Upto;
    assert multiset(s.lost + s.queue) == multiset(s.lost) + multiset(s.queue);
  }

  lemma {:induction false} RunKeepsInv(steps: seq<Step>)
    ensures Inv(Run(steps))
  {
    if steps != [] {
      var s := Run(steps[..|steps| - 1]);
      RunKeepsInv(steps[..|steps| - 1]);
      hide Inv, Enqueue, Pick, Complete, Fail, Stop;
      match steps[|steps| - 1]
      case DoEnqueue(report) => EnqueueKeepsInv(s, report);
      case DoPick => PickKeepsInv(s);
      case DoComplete => CompleteKeepsInv(s);
      case DoFail => FailKeepsInv(s);
      case DoStop => StopKeepsInv(s);
    }
  }

  // ---------------------------------------------------------------------------------------------
  // What every run guarantees
  // ---------------------------------------------------------------------------------------------

  lemma {:induction false} UptoHas(n: nat, id: nat)
    ensures Upto(n)[id] == if id < n then 1 else 0
  {
    if n > 0 {
      UptoHas(n - 1, id);
    }
  }

  lemma {:induction false} UptoSize(n: nat)
    ensures |Upto(n)| == n
  {
    if n > 0 {
      UptoSize(n - 1);
    }
  }

  /** The queue stays within its limits. */
  lemma QueueBounded(steps: seq<Step>)
    ensures |Run(steps).queue| <= MAX_PENDING_WRITES
    ensures QueuedAudio(Run(steps).accepted, Run(steps).queue) <= MAX_QUEUED_AUDIO
  {
    RunKeepsInv(steps);
  }

  /** Accepted = written + coalesced + waiting + in flight, plus what an error or a stop took. */
  lemma ReportsConserved(steps: seq<Step>)
    ensures var s := Run(steps);
            |s.accepted| == |s.written| + |s.coalesced| + |s.queue| + |Active(s)| + |s.lost|
    ensures !Run(steps).failed && !Run(steps).stopped ==> Run(steps).lost == []
  {
    RunKeepsInv(steps);
    UptoSize(|Run(steps).accepted|);
  }

  /** Without error or stop, what was written is what was accepted, in order and each once, leaving out
      only audio reports that were coalesced, the one in flight, and what still waits. */
  lemma WrittenIsSubsequence(steps: seq<Step>, id: nat)
    requires !Run(steps).failed && !Run(steps).stopped && id < |Run(steps).accepted|
    ensures var s := Run(steps);
            && Rising(s.written)
            && (id in s.written || s.active == Some(id) || id in s.queue || (id in s.coalesced && IsAudio(s.accepted[id])))
            && (id in s.coalesced ==> id !in s.written && s.active != Some(id) && id !in s.queue)
  {
    RunKeepsInv(steps);
    var s := Run(steps);
    UptoHas(|s.accepted|, id);
    hide Upto, Run;
    var all := multiset(s.written) + multiset(Active(s)) + multiset(s.queue) + multiset(s.coalesced) + multiset(s.lost);
    assert all[id] == multiset(s.written)[id] + multiset(Active(s))[id] + multiset(s.queue)[id] + multiset(s.coalesced)[id] + multiset(s.lost)[id];
    assert forall i :: 0 <= i < |s.written| ==> Taken(s)[i] == s.written[i];
  }

  /** Reports are coalesced in the order accepted, and each is older than all audio still queued. */
  ghost predicate OldestFirst(s: OutputState) {
    && Rising(s.coalesced)
    && (forall i, j :: 0 <= i < |s.coalesced| && 0 <= j < |s.queue| && AudioId(s.accepted, s.queue[j]) ==>
          s.coalesced[i] < s.queue[j])
  }

  /** Each made room for audio that was accepted after it. */
  ghost predicate GaveWay(s: OutputState) {
    forall i :: 0 <= i < |s.coalesced| ==> NewerAudio(s.accepted, s.coalesced[i])
  }

  ghost predicate NewerAudio(accepted: seq<Report>, id: nat) {
    exists newer :: id < newer && AudioId(accepted, newer)
  }

  lemma CoalesceOldestFirst(s: OutputState)
    requires InOrder(s) && OldestFirst(s)
    ensures InOrder(CoalesceOldest(s)) && OldestFirst(CoalesceOldest(s))
  {
    hide InOrder, OldestFirst, RemoveAt, AudioId;
    var i := OldestAudio(s.accepted, s.queue);
    if i < |s.queue| {
      RemoveInOrder(s, i);
      GiveUpOldest(s, i);
    }
  }

  lemma GiveUpOldest(s: OutputState, i: nat)
    requires InOrder(s) && OldestFirst(s) && i < |s.queue| && AudioId(s.accepted, s.queue[i])
    requires forall j :: 0 <= j < i ==> !AudioId(s.accepted, s.queue[j])
    ensures OldestFirst(GiveUp(s, i))
  {
    assert Rising(s.queue);
    hide InOrder;
    var q := RemoveAt(s.queue, i);
    assert forall j :: 0 <= j < |q| ==> q[j] == s.queue[if j < i then j else j + 1];
  }

  lemma {:induction false} TrimOldestFirst(s: OutputState)
    requires InOrder(s) && OldestFirst(s)
    ensures InOrder(TrimAudio(s)) && OldestFirst(TrimAudio(s))
    decreases |s.queue|
  {
    hide InOrder, OldestFirst, QueuedAudio;
    if QueuedAudio(s.accepted, s.queue) >= MAX_QUEUED_AUDIO && OldestAudio(s.accepted, s.queue) < |s.queue| {
      CoalesceOldestFirst(s);
      TrimOldestFirst(CoalesceOldest(s));
    }
  }

  lemma MakeRoomOldestFirst(s: OutputState, report: Report)
    requires InOrder(s) && OldestFirst(s)
    ensures OldestFirst(MakeRoom(s, report))
  {
    hide InOrder, OldestFirst, TrimAudio, CoalesceOldest;
    if IsAudio(report) {
      TrimOldestFirst(s);
      CoalesceOldestFirst(TrimAudio(s));
    }
  }

  lemma PushOldestFirst(s: OutputState, report: Report)
    requires OldestFirst(s) && OnlyAudioGivenUp(s) && InOrder(s)
    ensures OldestFirst(Push(s, report))
    ensures IsAudio(report) ==> GaveWay(Push(s, report))
    ensures GaveWay(s) ==> GaveWay(Push(s, report))
  {
    var t := Push(s, report);
    assert forall id :: AudioId(s.accepted, id) ==> AudioId(t.accepted, id);
    assert IsAudio(report) ==> AudioId(t.accepted, |s.accepted|);
  }

  lemma EnqueueOldestFirst(s: OutputState, report: Report)
    requires Inv(s) && OldestFirst(s) && GaveWay(s)
    ensures OldestFirst(Enqueue(s, report).0) && GaveWay(Enqueue(s, report).0)
  {
    hide Accounted, InOrder, OnlyAudioGivenUp, NothingLost, QueuedAudio, Push, OldestFirst, GaveWay, TrimAudio, CoalesceOldest;
    if !s.failed {
      MakeRoomKeeps(s, report);
      MakeRoomOldestFirst(s, report);
      PushOldestFirst(MakeRoom(s, report), report);
    }
  }

  /** In every run audio gives way oldest first, and only to audio that was accepted after it. */
  lemma {:induction false} OldestGivesWay(steps: seq<Step>)
    ensures OldestFirst(Run(steps)) && GaveWay(Run(steps))
  {
    if steps != [] {
      var s := Run(steps[..|steps| - 1]);
      OldestGivesWay(steps[..|steps| - 1]);
      RunKeepsInv(steps[..|steps| - 1]);
      match steps[|steps| - 1]
      case DoEnqueue(report) =>
        hide Inv, Enqueue, OldestFirst, GaveWay;
        EnqueueOldestFirst(s, report);
      case DoPick => QueueShrinks(s, Pick(s));
      case DoComplete => QueueShrinks(s, Complete(s));
      case DoFail => QueueShrinks(s, Fail(s));
      case DoStop => QueueShrinks(s, Stop(s));
    }
  }

  lemma QueueShrinks(s: OutputState, t: OutputState)
    requires OldestFirst(s) && GaveWay(s) && t.accepted == s.accepted && t.coalesced == s.coalesced
    requires t.queue == s.queue || t.queue == [] || (s.queue != [] && t.queue == s.queue[1..])
    ensures OldestFirst(t) && GaveWay(t)
  {
  }

  // ---------------------------------------------------------------------------------------------
  // The transport in its own form
  // ---------------------------------------------------------------------------------------------

  datatype Outcome = Accepted | Rejected | Failed | TooLarge

  class HidBluetoothTransport {
    const outputReportLength: nat
    var outputQueue: seq<Report>
    var outputWriteActive: bool
    var outputError: bool
    var outputStopRequested: bool
    var outputAudioCoalescedCount: nat
    var outputCompletedCount: nat
    var outputQueuedCount: nat
    ghost var model: OutputState

    ghost predicate Agrees()
      reads this
    {
      && |outputQueue| == |model.queue|
      && (forall i :: 0 <= i < |outputQueue| ==> model.queue[i] < |model.accepted| && outputQueue[i] == model.accepted[model.queue[i]])
      && outputWriteActive == model.active.Some? && outputError == model.failed && outputStopRequested == model.stopped
      && outputQueuedCount == |model.accepted| && outputCompletedCount == |model.written|
      && outputAudioCoalescedCount == |model.coalesced|
    }

    ghost predicate Valid()
      reads this
    {
      Agrees() && Inv(model)
    }

    constructor (length: nat)
      ensures Valid() && model == EMPTY && outputReportLength == length
    {
      outputReportLength := length;
      outputQueue, outputWriteActive, outputError, outputStopRequested := [], false, false, false;
      outputAudioCoalescedCount, outputCompletedCount, outputQueuedCount, model := 0, 0, 0, EMPTY;
    }

    /** Reports go out at the device's length, padded with zeros. */
    function Padded(report: Report): (r: Report)
      ensures |report| <= outputReportLength ==>
                |r| == outputReportLength && r[..|report|] == report && forall i :: |report| <= i < |r| ==> r[i] == 0
    {
      if |report| <= outputReportLength then report + Silence(outputReportLength - |report|) else report
    }

    method CountQueuedAudio() returns (count: nat)
      requires Agrees()
      ensures count == QueuedAudio(model.accepted, model.queue)
    {
      count := 0;
      for i := 0 to |outputQueue|
        invariant count == QueuedAudio(model.accepted, model.queue[..i])
      {
        assert model.queue[..i + 1][..i] == model.queue[..i];
        if IsAudio(outputQueue[i]) {
          count := count + 1;
        }
      }
      assert model.queue[..|model.queue|] == model.queue;
    }

    method CoalesceOldestAudio() returns (coalesced: bool)
      requires Agrees()
      modifies this`outputQueue, this`outputAudioCoalescedCount, this`model
      ensures Agrees() && model == CoalesceOldest(old(model))
      ensures coalesced <==> OldestAudio(old(model).accepted, old(model).queue) < |old(model).queue|
    {
      hide OldestAudio;
      var i := 0;
      while i < |outputQueue| && !IsAudio(outputQueue[i])
        invariant i <= |outputQueue| && forall j :: 0 <= j < i ==> !AudioId(model.accepted, model.queue[j])
      {
        i := i + 1;
      }
      assert i < |outputQueue| ==> AudioId(model.accepted, model.queue[i]);
      assert i == OldestAudio(model.accepted, model.queue);
      coalesced := i < |outputQueue|;
      if coalesced {
        outputQueue := RemoveAt(outputQueue, i);
        outputAudioCoalescedCount := outputAudioCoalescedCount + 1;
        model := CoalesceOldest(model);
      }
    }

    method TrimQueuedAudio()
      requires Agrees()
      modifies this`outputQueue, this`outputAudioCoalescedCount, this`model
      ensures Agrees() && model == TrimAudio(old(model))
    {
      hide QueuedAudio, CoalesceOldest, OldestAudio;
      var queuedAudio := CountQueuedAudio();
      while queuedAudio >= MAX_QUEUED_AUDIO
        invariant Agrees() && queuedAudio == QueuedAudio(model.accepted, model.queue)
        invariant TrimAudio(model) == TrimAudio(old(model))
        decreases queuedAudio
      {
        AudioExists(model.accepted, model.queue);
        CoalesceCounts(model);
        var coalesced := CoalesceOldestAudio();
        if !coalesced {
          break;
        }
        queuedAudio := queuedAudio - 1;
      }
    }

    method EnqueueOutputReport(report: Report) returns (outcome: Outcome)
      requires Valid()
      modifies this
      ensures Valid()
      ensures outcome == (if |report| > outputReportLength then TooLarge
                          else if old(outputError) then Failed
                          else if Enqueue(old(model), Padded(report)).1 then Accepted else Rejected)
      ensures model == if outcome == TooLarge then old(model) else Enqueue(old(model), Padded(report)).0
      ensures if outcome == Accepted then outputQueue != [] && outputQueue[|outputQueue| - 1] == Padded(report)
              else outputQueue == old(outputQueue)
    {
      hide Inv, TrimAudio, CoalesceOldest;
      if |report| > outputReportLength {
        return TooLarge;
      }
      var write := Padded(report);
      EnqueueKeepsInv(model, write);
      if outputError {
        return Failed;
      }
      RejectedOnlyWhenFull(model, write);
      if IsAudio(write) {
        TrimQueuedAudio();
        if |outputQueue| >= MAX_PENDING_WRITES {
          var coalesced := CoalesceOldestAudio();
        }
      }
      if |outputQueue| >= MAX_PENDING_WRITES {
        assert model == old(model);
        assert forall i :: 0 <= i < |outputQueue| ==> outputQueue[i] == old(outputQueue)[i];
        return Rejected;
      }
      model := Push(model, write);
      outputQueue := outputQueue + [write];
      outputQueuedCount := outputQueuedCount + 1;
      outcome := Accepted;
    }

    method PickWrite() returns (write: Report)
      requires Valid() && !outputStopRequested && outputQueue != [] && !outputWriteActive && !outputError
      modifies this
      ensures Valid() && model == Pick(old(model)) && write == old(outputQueue)[0]
      ensures outputQueue == old(outputQueue)[1..] && outputWriteActive
    {
      hide Inv;
      PickKeepsInv(model);
      write := outputQueue[0];
      outputQueue := outputQueue[1..];
      outputWriteActive := true;
      model := Pick(model);
    }

    method FinishWrite(succeeded: bool)
      requires Valid() && outputWriteActive
      modifies this
      ensures Valid() && model == if succeeded then Complete(old(model)) else Fail(old(model))
      ensures !outputWriteActive && outputQueue == old(outputQueue) && outputError == (old(outputError) || !succeeded)
      ensures outputCompletedCount == old(outputCompletedCount) + if succeeded then 1 else 0
    {
      hide Inv;
      CompleteKeepsInv(model);
      FailKeepsInv(model);
      outputWriteActive := false;
      if succeeded {
        outputCompletedCount := outputCompletedCount + 1;
        model := Complete(model);
      } else {
        outputError := true;
        model := Fail(model);
      }
    }

    method StopOutputWriter()
      requires Valid()
      modifies this
      ensures Valid() && model == Stop(old(model)) && outputStopRequested && (!old(outputStopRequested) ==> outputQueue == [])
    {
      hide Inv;
      StopKeepsInv(model);
      if !outputStopRequested {
        outputStopRequested, outputQueue := true, [];
      }
      model := Stop(model);
    }
  }

  lemma CoalesceCounts(s: OutputState)
    ensures OldestAudio(s.accepted, s.queue) < |s.queue| ==>
              QueuedAudio(CoalesceOldest(s).accepted, CoalesceOldest(s).queue) == QueuedAudio(s.accepted, s.queue) - 1
  {
    var i := OldestAudio(s.accepted, s.queue);
    hide QueuedAudio, OldestAudio;
    if i < |s.queue| {
      RemoveCounts(s.accepted, s.queue, i);
    }
  }
}
