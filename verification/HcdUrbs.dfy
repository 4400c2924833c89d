/** URB life cycle of the Linux virtual host controller (module/vds_hcd_core.c, with the feature
    cache of module/vds_usb_core.c) as a state machine. One step is one spin-lock region, and the
    regions of any number of threads interleave freely. `HcdDriver` is the driver in its own form,
    proved against this one. */
module HcdUrbs {
  import opened VdsTypes
  import opened HcdPacing

  /** A submission of an URB, named by the context allocated for it. */
  type UrbId = nat
  type Report = seq<u8>

  const EPIPE := 32
  const ENOSPC := 28
  const ESHUTDOWN := 108
  const HID_PACKET_SIZE := 64

  /** What the endpoint asks of the URB. `Immediate` is every request answered on the spot. */
  datatype Kind = FeatureGet(reportId: u8) | HidIn | Iso(input: bool, lengths: seq<nat>) | Immediate(status: int)

  datatype Phase = Active | PendingHidIn | PendingFeatureGet | PendingGiveback | GivingBack

  /** `reply` is the report copied into the transfer buffer. `arrival` and `queuedTimed` record the
      moment of queueing for the statements about order; the driver does not store them. */
  datatype UrbContext = UrbContext(
    kind: Kind,
    hasBuffer: bool,
    bufferLength: nat,
    phase: Phase,
    status: int,
    readyTime: nat,
    unlinked: bool,
    reply: Option<Report>,
    arrival: nat,
    queuedTimed: bool)

  /** Where the thread inside urb_enqueue stands with its URB: just linked; past a cache look-up that
      found nothing; with a deferred URB whose request frame is still to go out; or decided, with only
      the queueing left. */
  datatype Stage = Linked | Missed | Asking | Decided(status: int)

  /** How many entries `cacheLog` had at an URB's look-up and at its deferral, and `served` at the latter. */
  datatype Marks = Marks(missedAt: nat, deferredAt: nat, servedAt: nat)

  datatype HcdState = HcdState(
    contexts: map<UrbId, UrbContext>,
    pendingHidIn: seq<UrbId>,
    pendingFeatureGet: seq<UrbId>,
    completedUrbs: seq<UrbId>,
    giving: Option<UrbId>,
    stopping: bool,
    connected: bool,
    inputPackets: seq<Report>,
    nextIsoOutReady: nat,
    nextIsoInReady: nat,
    nextHidInReady: nat,
    hidInIntervalUs: nat,
    featureCache: map<u8, Report>,
    // The giveback thread: until when it sleeps, and whether it was told to stop.
    asleepUntil: Option<nat>,
    threadStopped: bool,
    // Where threads stand between their regions: inside urb_enqueue, and inside a feature reply.
    stages: map<UrbId, Stage>,
    replying: multiset<Report>,
    // What follows is history: it appears in statements only. `cacheLog` has the id of every report
    // cached and None for every clearing; `served` the ids handed to the waiting URBs; the slots of
    // `hidIn` from `hidInSince` on were scheduled under the present profile; `usedFreed` says that a
    // region has used a context after it was freed.
    nextId: UrbId,
    arrivals: nat,
    returned: seq<UrbId>,
    written: seq<Report>,
    delivered: seq<nat>,
    cacheLog: seq<Option<u8>>,
    served: seq<u8>,
    marks: map<UrbId, Marks>,
    isoOut: seq<Slot>,
    isoIn: seq<Slot>,
    hidIn: seq<Slot>,
    hidInSince: nat,
    usedFreed: bool)

  function Init(hidInIntervalUs: nat): HcdState {
    HcdState(map[], [], [], [], None, false, false, [], 0, 0, 0, hidInIntervalUs, map[],
             None, false, map[], multiset{}, 0, 0, [], [], [], [], [], map[], [], [], [], 0, false)
  }

  function ReadyTime(contexts: map<UrbId, UrbContext>, u: UrbId): nat {
    if u in contexts then contexts[u].readyTime else 0
  }

  /** Where a completion due at `ready` goes: before the first one due later. An untimed one
      (`ready` 0) therefore goes before the first timed one. */
  function InsertPosition(q: seq<UrbId>, contexts: map<UrbId, UrbContext>, ready: nat): (p: nat)
    ensures p <= |q|
    ensures forall i :: 0 <= i < p ==> ReadyTime(contexts, q[i]) <= ready
    ensures p < |q| ==> ReadyTime(contexts, q[p]) > ready
  {
    if q == [] || ReadyTime(contexts, q[0]) > ready then 0
    else 1 + InsertPosition(q[1..], contexts, ready)
  }

  function InsertAt(q: seq<UrbId>, p: nat, u: UrbId): seq<UrbId>
    requires p <= |q|
  {
    q[..p] + [u] + q[p..]
  }

  function QueueGiveback(s: HcdState, u: UrbId, status: int): HcdState {
    if u !in s.contexts || s.contexts[u].phase.PendingGiveback? || s.contexts[u].phase.GivingBack? then s
    else
      var c := s.contexts[u];
      var p := InsertPosition(s.completedUrbs, s.contexts, c.readyTime);
      s.(contexts := s.contexts[u := c.(status := status, phase := PendingGiveback,
                                        arrival := s.arrivals, queuedTimed := c.readyTime > 0)],
         pendingHidIn := Without(s.pendingHidIn, u),
         pendingFeatureGet := Without(s.pendingFeatureGet, u),
         completedUrbs := InsertAt(s.completedUrbs, p, u),
         arrivals := s.arrivals + 1)
  }

  function QueueAll(s: HcdState, us: seq<UrbId>, status: int): HcdState
    decreases |us|
  {
    if us == [] then s else QueueAll(QueueGiveback(s, us[0], status), us[1..], status)
  }

  function CancelPending(s: HcdState, status: int): HcdState {
    var hidCancelled := QueueAll(s, s.pendingHidIn, status);
    QueueAll(hidCancelled, hidCancelled.pendingFeatureGet, status)
  }

  /** Copying a feature reply fails only for a non-empty copy into a missing buffer. */
  function FillFeature(c: UrbContext, report: Report): (UrbContext, int) {
    if Min(|report|, c.bufferLength) > 0 && !c.hasBuffer then (c, -EPIPE)
    else (c.(reply := Some(report)), 0)
  }

  /** An input report is copied if there is a buffer; without one nothing is, and the URB succeeds. */
  function FillInput(c: UrbContext, report: Report): UrbContext {
    c.(reply := if Min(|report|, c.bufferLength) > 0 && !c.hasBuffer then None else Some(report))
  }

  /** Fill a HID IN URB with written report number `index` and schedule its completion. */
  function FillHidIn(s: HcdState, u: UrbId, index: nat, now: nat): HcdState {
    if u !in s.contexts || index >= |s.written| then s
    else
      var slot := Schedule(s.nextHidInReady, now, s.hidInIntervalUs, 0);
      s.(contexts := s.contexts[u := FillInput(s.contexts[u], s.written[index]).(readyTime := slot.ready)],
         nextHidInReady := slot.ready,
         hidIn := s.hidIn + [slot],
         delivered := s.delivered + [index])
  }

  function ScheduleIso(s: HcdState, u: UrbId, lengths: seq<nat>, input: bool, now: nat): HcdState {
    if u !in s.contexts then s
    else
      var slot := Schedule(if input then s.nextIsoInReady else s.nextIsoOutReady, now,
                           DurationUs(lengths, input), PcmBytes(lengths, input));
      var timed := s.(contexts := s.contexts[u := s.contexts[u].(readyTime := slot.ready)]);
      if input then timed.(nextIsoInReady := slot.ready, isoIn := s.isoIn + [slot])
      else timed.(nextIsoOutReady := slot.ready, isoOut := s.isoOut + [slot])
  }

  // ---------------------------------------------------------------------------------------------
  // The regions of urb_enqueue
  // ---------------------------------------------------------------------------------------------

  /** The URB as the host controller core submits it. */
  datatype Submission = Submission(kind: Kind, hasBuffer: bool, bufferLength: nat)

  /** What the endpoint decides without a region of its own. */
  function FirstStage(urb: Submission): Stage {
    match urb.kind
    case Immediate(status) => Decided(status)
    case Iso(_, _) => if urb.hasBuffer then Linked else Decided(-EPIPE)
    case _ => Linked
  }

  /** First region: the context is linked, unless the device stops. */
  function Link(s: HcdState, urb: Submission): HcdState {
    if s.stopping then s
    else
      var c := UrbContext(urb.kind, urb.hasBuffer, urb.bufferLength, Active, 0, 0, false, None, 0, false);
      s.(contexts := s.contexts[s.nextId := c], nextId := s.nextId + 1, stages := s.stages[s.nextId := FirstStage(urb)])
  }

  /** A thread is inside urb_enqueue with its URB at `stage`. */
  predicate At(s: HcdState, u: UrbId, stage: Stage) {
    u in s.contexts && s.contexts[u].phase == Active && u in s.stages && s.stages[u] == stage
  }

  function ScheduleUrb(s: HcdState, u: UrbId, now: nat): HcdState {
    if !At(s, u, Linked) || !s.contexts[u].kind.Iso? then s
    else
      ScheduleIso(s, u, s.contexts[u].kind.lengths, s.contexts[u].kind.input, now).(stages := s.stages[u := Decided(0)])
  }

  /** A HID IN URB takes the buffered report or waits for the next; it does so also while stopping. */
  function PopInput(s: HcdState, u: UrbId, now: nat): HcdState {
    if !At(s, u, Linked) || !s.contexts[u].kind.HidIn? then s
    else if s.inputPackets != [] && s.written != [] then
      FillHidIn(s.(inputPackets := s.inputPackets[1..]), u, |s.written| - 1, now).(stages := s.stages[u := Decided(0)])
    else
      s.(contexts := s.contexts[u := s.contexts[u].(phase := PendingHidIn)],
         pendingHidIn := s.pendingHidIn + [u],
         stages := s.stages - {u})
  }

  /** A feature request looks its report up, under the USB device's own lock. */
  function LookUp(s: HcdState, u: UrbId): HcdState {
    if !At(s, u, Linked) || !s.contexts[u].kind.FeatureGet? then s
    else
      var id := s.contexts[u].kind.reportId;
      if id in s.featureCache then
        var (filled, status) := FillFeature(s.contexts[u], s.featureCache[id]);
        s.(contexts := s.contexts[u := filled], stages := s.stages[u := Decided(status)])
      else s.(stages := s.stages[u := Missed], marks := s.marks[u := Marks(|s.cacheLog|, 0, 0)])
  }

  /** and on a miss is deferred, under the HCD lock. */
  function Defer(s: HcdState, u: UrbId): HcdState {
    if !At(s, u, Missed) || u !in s.marks then s
    else if s.stopping then s.(stages := s.stages[u := Decided(-ESHUTDOWN)])
    else
      s.(contexts := s.contexts[u := s.contexts[u].(phase := PendingFeatureGet)],
         pendingFeatureGet := s.pendingFeatureGet + [u],
         stages := s.stages[u := Asking],
         marks := s.marks[u := s.marks[u].(deferredAt := |s.cacheLog|, servedAt := |s.served|)])
  }

  /** The frame that asks user space for the report; if it is refused the deferred URB fails, unless it
      was completed meanwhile. If it was even returned, its context is freed and the region uses it all
      the same: what the driver does from then on is undefined, and the model only records it. */
  function Ask(s: HcdState, u: UrbId, status: int): HcdState {
    if u !in s.stages || s.stages[u] != Asking then s
    else if status == 0 then s.(stages := s.stages - {u})
    else if u !in s.contexts then s.(stages := s.stages - {u}, usedFreed := true)
    else QueueGiveback(s, u, status).(stages := s.stages - {u})
  }

  /** Last region: the decided URB is queued for giveback. */
  function Settle(s: HcdState, u: UrbId): HcdState {
    if u !in s.contexts || s.contexts[u].phase != Active || u !in s.stages || !s.stages[u].Decided? then s
    else QueueGiveback(s, u, s.stages[u].status).(stages := s.stages - {u})
  }

  /** All of urb_enqueue when no other thread comes between: each URB takes the regions of its kind. */
  function Enqueue(s: HcdState, urb: Submission, now: nat, frameStatus: int): HcdState {
    if s.stopping then s
    else
      var u, linked := s.nextId, Link(s, urb);
      match urb.kind
      case Immediate(_) => Settle(linked, u)
      case Iso(_, _) => Settle(ScheduleUrb(linked, u, now), u)
      case HidIn => Settle(PopInput(linked, u, now), u)
      case FeatureGet(_) => Settle(Ask(Defer(LookUp(linked, u), u), u, frameStatus), u)
  }

  /** The core refuses to unlink an URB twice or after its giveback began; an URB whose urb_enqueue has
      not come to its end is not unlinked. */
  function Dequeue(s: HcdState, u: UrbId, status: int): HcdState {
    if u !in s.contexts || s.contexts[u].unlinked || s.contexts[u].phase.GivingBack? || s.contexts[u].phase.Active? then s
    else
      var marked := s.(contexts := s.contexts[u := s.contexts[u].(unlinked := true)]);
      if s.contexts[u].phase.PendingGiveback? then
        marked.(contexts := marked.contexts[u := marked.contexts[u].(status := status, readyTime := 0)])
      else QueueGiveback(marked, u, status)
  }

  predicate ValidInputReport(report: Report) {
    0 < |report| <= HID_PACKET_SIZE
  }

  function WriteInput(s: HcdState, report: Report, now: nat): HcdState {
    if !ValidInputReport(report) || s.stopping then s
    else if s.pendingHidIn != [] then
      var u := s.pendingHidIn[0];
      QueueGiveback(FillHidIn(s.(written := s.written + [report]), u, |s.written|, now), u, 0)
    else
      s.(written := s.written + [report],
         inputPackets := if s.inputPackets != [] then s.inputPackets[|s.inputPackets| - 1 := report] else [report])
  }

  /** First region of a feature reply: the cache is updated under the USB device's own lock. */
  function CacheReply(s: HcdState, report: Report): HcdState {
    if !ValidInputReport(report) then s
    else s.(featureCache := s.featureCache[report[0] := report],
            cacheLog := s.cacheLog + [Some(report[0])],
            replying := s.replying + multiset{report})
  }

  function CompleteMatching(s: HcdState, us: seq<UrbId>, report: Report): HcdState
    requires report != []
    decreases |us|
  {
    if us == [] then s
    else if us[0] !in s.contexts || s.contexts[us[0]].kind != FeatureGet(report[0]) then
      CompleteMatching(s, us[1..], report)
    else
      var (filled, status) := FillFeature(s.contexts[us[0]], report);
      CompleteMatching(QueueGiveback(s.(contexts := s.contexts[us[0] := filled]), us[0], status), us[1..], report)
  }

  /** Second region of a feature reply: the URBs waiting for its id complete under the HCD lock. */
  function CompleteReply(s: HcdState, report: Report): HcdState {
    if report !in s.replying || report == [] then s
    else if s.stopping then s.(replying := s.replying - multiset{report})
    else
      CompleteMatching(s.(replying := s.replying - multiset{report}, served := s.served + [report[0]]),
                       s.pendingFeatureGet, report)
  }

  function Connect(s: HcdState): HcdState {
    if s.stopping then s else s.(connected := true)
  }

  /** Locked part of a disconnect; the USB device's state is reset in a region of its own. */
  function Disconnect(s: HcdState): HcdState {
    if s.stopping then s
    else CancelPending(s, -ESHUTDOWN).(connected := false, inputPackets := [],
                                       nextIsoOutReady := 0, nextIsoInReady := 0, nextHidInReady := 0,
                                       isoOut := [], isoIn := [], hidIn := [], hidInSince := 0)
  }

  function ResetUsb(s: HcdState): HcdState {
    s.(featureCache := map[], cacheLog := s.cacheLog + [None])
  }

  /** The stop is tested in a region before this one, so it may come between. */
  function SetProfile(s: HcdState, hidInIntervalUs: nat): HcdState {
    if s.connected then s
    else s.(featureCache := map[], cacheLog := s.cacheLog + [None],
            hidInIntervalUs := hidInIntervalUs, hidInSince := |s.hidIn|)
  }

  /** A completion due less than a microsecond ahead counts as due. */
  predicate Due(c: UrbContext, now: nat) {
    c.readyTime == 0 || c.readyTime < now + NSEC_PER_USEC
  }

  /** The giveback thread takes the head of the list. If the head is not due yet the thread sleeps until
      it is, and nothing that is queued or zeroed meanwhile wakes it. */
  function Pick(s: HcdState, now: nat): HcdState {
    if s.giving.Some? || s.asleepUntil.Some? || s.completedUrbs == [] || s.completedUrbs[0] !in s.contexts then s
    else
      var u := s.completedUrbs[0];
      if !Due(s.contexts[u], now) then
        if s.threadStopped then s else s.(asleepUntil := Some(s.contexts[u].readyTime))
      else s.(contexts := s.contexts[u := s.contexts[u].(phase := GivingBack)],
              completedUrbs := s.completedUrbs[1..],
              giving := Some(u))
  }

  /** Its timer expires, at the earliest when it was set to. */
  function Wake(s: HcdState, now: nat): HcdState {
    if s.asleepUntil.None? || now < s.asleepUntil.value then s else s.(asleepUntil := None)
  }

  /** The thread is told to stop: that does wake it, and it sleeps no more. */
  function StopThread(s: HcdState): HcdState {
    s.(asleepUntil := None, threadStopped := true)
  }

  function Giveback(s: HcdState): HcdState {
    if s.giving.None? then s
    else s.(contexts := s.contexts - {s.giving.value}, giving := None, returned := s.returned + [s.giving.value])
  }

  function Stop(s: HcdState): HcdState {
    CancelPending(s.(stopping := true), -ESHUTDOWN).(connected := false, inputPackets := [])
  }

  datatype Step =
    | DoLink(urb: Submission)
    | DoSchedule(u: UrbId, now: nat)
    | DoPopInput(u: UrbId, now: nat)
    | DoLookUp(u: UrbId)
    | DoDefer(u: UrbId)
    | DoAsk(u: UrbId, status: int)
    | DoSettle(u: UrbId)
    | DoDequeue(u: UrbId, status: int)
    | DoWriteInput(report: Report, now: nat)
    | DoCacheReply(report: Report)
    | DoCompleteReply(report: Report)
    | DoConnect
    | DoDisconnect
    | DoResetUsb
    | DoSetProfile(hidInIntervalUs: nat)
    | DoPick(now: nat)
    | DoWake(now: nat)
    | DoStopThread
    | DoGiveback
    | DoStop

  /** The monotonic clock is positive; unlinking always carries a nonzero status. */
  predicate ValidStep(step: Step) {
    match step
    case DoSchedule(_, now) => now > 0
    case DoPopInput(_, now) => now > 0
    case DoWriteInput(_, now) => now > 0
    case DoDequeue(_, status) => status != 0
    case _ => true
  }

  function Next(s: HcdState, step: Step): HcdState {
    match step
    case DoLink(urb) => Link(s, urb)
    case DoSchedule(u, now) => ScheduleUrb(s, u, now)
    case DoPopInput(u, now) => PopInput(s, u, now)
    case DoLookUp(u) => LookUp(s, u)
    case DoDefer(u) => Defer(s, u)
    case DoAsk(u, status) => Ask(s, u, status)
    case DoSettle(u) => Settle(s, u)
    case DoDequeue(u, status) => Dequeue(s, u, status)
    case DoWriteInput(report, now) => WriteInput(s, report, now)
    case DoCacheReply(report) => CacheReply(s, report)
    case DoCompleteReply(report) => CompleteReply(s, report)
    case DoConnect => Connect(s)
    case DoDisconnect => Disconnect(s)
    case DoResetUsb => ResetUsb(s)
    case DoSetProfile(hidInIntervalUs) => SetProfile(s, hidInIntervalUs)
    case DoPick(now) => Pick(s, now)
    case DoWake(now) => Wake(s, now)
    case DoStopThread => StopThread(s)
    case DoGiveback => Giveback(s)
    case DoStop => Stop(s)
  }

  function Run(s: HcdState, steps: seq<Step>): HcdState {
    if steps == [] then s else Next(Run(s, steps[..|steps| - 1]), steps[|steps| - 1])
  }

  ghost predicate ValidRun(steps: seq<Step>) {
    forall i :: 0 <= i < |steps| ==> ValidStep(steps[i])
  }

  // ---------------------------------------------------------------------------------------------
  // Invariants
  // ---------------------------------------------------------------------------------------------

  /** `q` holds the contexts in `phase`, each once. */
  ghost predicate Holds(contexts: map<UrbId, UrbContext>, q: seq<UrbId>, phase: Phase) {
    Distinct(q) && forall u :: u in q <==> u in contexts && contexts[u].phase == phase
  }

  /** Every live context is on the list its phase names and on no other. */
  ghost predicate Placed(s: HcdState) {
    && Holds(s.contexts, s.pendingHidIn, PendingHidIn)
    && Holds(s.contexts, s.pendingFeatureGet, PendingFeatureGet)
    && Holds(s.contexts, s.completedUrbs, PendingGiveback)
    && (forall u :: s.giving == Some(u) <==> u in s.contexts && s.contexts[u].phase == GivingBack)
  }

  /** Every accepted submission is live or given back, never both, and given back once. */
  ghost predicate Accounted(s: HcdState) {
    && Distinct(s.returned)
    && (forall u :: u in s.contexts ==> u < s.nextId && u !in s.returned)
    && (forall u :: u in s.returned ==> u < s.nextId)
    && (forall u: UrbId :: u < s.nextId ==> u in s.contexts || u in s.returned)
  }

  /** Every URB inside urb_enqueue has a region left that its kind calls for. */
  ghost predicate Staged(s: HcdState) {
    forall u :: u in s.contexts && s.contexts[u].phase == Active ==>
                  u in s.stages && match s.stages[u]
                                   case Linked => !s.contexts[u].kind.Immediate? && (s.contexts[u].kind.Iso? ==> s.contexts[u].hasBuffer)
                                   case Missed => s.contexts[u].kind.FeatureGet? && u in s.marks
                                   case Asking => false
                                   case Decided(_) => true
  }

  ghost predicate Timed(c: UrbContext) {
    c.readyTime > 0
  }

  /** `a` may stand ahead of `b`: a timed one is due earlier, or as early and queued earlier; what
      was queued untimed is in queueing order and never behind a timed one. Nothing is said of a
      timed one that unlinking zeroed in place (`queuedTimed` but no longer `Timed`). */
  ghost predicate MayPrecede(a: UrbContext, b: UrbContext) {
    && (Timed(a) && Timed(b) ==> a.readyTime < b.readyTime || (a.readyTime == b.readyTime && a.arrival < b.arrival))
    && (!a.queuedTimed && !b.queuedTimed ==> a.arrival < b.arrival)
    && !(Timed(a) && !b.queuedTimed)
  }

  ghost predicate Ordered(s: HcdState) {
    && (forall u :: u in s.completedUrbs ==> u in s.contexts)
    && (forall u :: u in s.completedUrbs ==>
          s.contexts[u].arrival < s.arrivals && (Timed(s.contexts[u]) ==> s.contexts[u].queuedTimed))
    && (forall i, j :: 0 <= i < j < |s.completedUrbs| ==>
          MayPrecede(s.contexts[s.completedUrbs[i]], s.contexts[s.completedUrbs[j]]))
  }

  /** No HID IN URB waits while a report is buffered; the buffer holds at most the newest report;
      reports reach URBs in the order written, none twice. */
  ghost predicate HidFresh(s: HcdState) {
    && (forall i :: 0 <= i < |s.written| ==> s.written[i] != [])
    && (s.pendingHidIn == [] || s.inputPackets == [])
    && (forall u :: u in s.pendingHidIn ==> u in s.contexts && s.contexts[u].kind == HidIn)
    && |s.inputPackets| <= 1
    && (s.inputPackets != [] ==> s.written != [] && s.inputPackets[0] == s.written[|s.written| - 1])
    && (forall i, j :: 0 <= i < j < |s.delivered| ==> s.delivered[i] < s.delivered[j])
    && (forall i :: 0 <= i < |s.delivered| ==> s.delivered[i] < |s.written| - |s.inputPackets|)
  }

  ghost predicate WriterFor(s: HcdState, id: u8) {
    exists r :: r in s.replying && r != [] && r[0] == id
  }

  /** A report of `id` was cached at `from` or later, and the cache was not cleared since. */
  ghost predicate CachedSince(log: seq<Option<u8>>, from: nat, id: u8) {
    exists k :: from <= k < |log| && log[k] == Some(id) && forall m :: k < m < |log| ==> log[m] != None
  }

  ghost predicate CacheLogged(s: HcdState) {
    && (forall id :: id in s.featureCache ==> s.featureCache[id] != [] && s.featureCache[id][0] == id)
    && (forall id :: id in s.featureCache <==> CachedSince(s.cacheLog, 0, id))
  }

  /** The look-up of `u` found nothing. */
  ghost predicate MissedLookUp(s: HcdState, u: UrbId) {
    && u in s.contexts && s.contexts[u].kind.FeatureGet? && u in s.marks
    && s.marks[u].missedAt <= |s.cacheLog|
    && !CachedSince(s.cacheLog[..s.marks[u].missedAt], 0, s.contexts[u].kind.reportId)
  }

  /** Every reply for `u` that came to the cache after its deferral is still between its regions, and
      none came to the end of its second one. */
  ghost predicate StillWaits(s: HcdState, u: UrbId) {
    && MissedLookUp(s, u)
    && s.marks[u].missedAt <= s.marks[u].deferredAt
    && (forall k :: s.marks[u].deferredAt <= k < |s.cacheLog| && s.cacheLog[k] == Some(s.contexts[u].kind.reportId) ==>
          WriterFor(s, s.contexts[u].kind.reportId))
    && s.marks[u].servedAt <= |s.served|
    && (forall k :: s.marks[u].servedAt <= k < |s.served| ==> s.served[k] != s.contexts[u].kind.reportId)
  }

  ghost predicate FeatureServed(s: HcdState) {
    && CacheLogged(s)
    && (forall u :: At(s, u, Missed) ==> MissedLookUp(s, u))
    && (forall u :: u in s.pendingFeatureGet ==> StillWaits(s, u))
  }

  /** The status an URB completes with, once that is decided. */
  ghost function Outcome(s: HcdState, u: UrbId): Option<int>
    requires u in s.contexts
  {
    var c := s.contexts[u];
    if c.phase == PendingGiveback || c.phase == GivingBack then Some(c.status)
    else if c.phase == Active && u in s.stages && s.stages[u].Decided? then Some(s.stages[u].status)
    else None
  }

  /** The data a success stands for: a feature URB has a report of its id; a HID IN URB has one that
      was written, if and only if there was anywhere to put it. */
  ghost predicate Truthful(written: seq<Report>, c: UrbContext) {
    match c.kind
    case FeatureGet(id) => c.reply.Some? && c.reply.value != [] && c.reply.value[0] == id
    case HidIn => if c.hasBuffer || c.bufferLength == 0 then c.reply.Some? && c.reply.value in written else c.reply.None?
    case Iso(_, _) => c.hasBuffer
    case Immediate(status) => status == 0
  }

  ghost predicate AllTruthful(s: HcdState) {
    forall u :: u in s.contexts && Outcome(s, u) == Some(0) ==> Truthful(s.written, s.contexts[u])
  }

  /** Each slot has the duration computed for its PCM. */
  ghost predicate Measured(slots: seq<Slot>, input: bool) {
    forall i :: 0 <= i < |slots| ==>
                  PlayTimeUs(slots[i].pcmBytes, input) < U32_RANGE ==>
                    && slots[i].durationUs * BytesPerMs(input) >= slots[i].pcmBytes * 1000
                    && (slots[i].pcmBytes >= BytesPerMs(input) ==>
                          slots[i].durationUs * BytesPerMs(input) < slots[i].pcmBytes * 1000 + BytesPerMs(input))
  }

  ghost predicate PacedStreams(s: HcdState) {
    && Paced(s.isoOut, s.nextIsoOutReady) && Measured(s.isoOut, false)
    && Paced(s.isoIn, s.nextIsoInReady) && Measured(s.isoIn, true)
    && Paced(s.hidIn, s.nextHidInReady)
    && s.hidInSince <= |s.hidIn|
    && (forall i :: s.hidInSince <= i < |s.hidIn| ==> s.hidIn[i].durationUs == s.hidInIntervalUs)
  }

  ghost predicate Quiet(s: HcdState) {
    s.stopping ==> s.pendingFeatureGet == [] && s.inputPackets == []
  }

  /** While the thread sleeps there is a completion, and the first is due by the end of the sleep. */
  ghost predicate Sleeps(s: HcdState) {
    s.asleepUntil.Some? ==>
      s.giving.None? && s.completedUrbs != [] && ReadyTime(s.contexts, s.completedUrbs[0]) <= s.asleepUntil.value
  }

  /** The part of the invariant that speaks of the lists themselves. */
  ghost predicate Listed(s: HcdState) {
    Placed(s) && Ordered(s) && AllTruthful(s) && Sleeps(s)
  }

  /** The part that queueing a completion leaves alone. */
  ghost predicate Rest(s: HcdState) {
    Accounted(s) && HidFresh(s) && FeatureServed(s) && PacedStreams(s) && Quiet(s)
  }

  ghost predicate Inv(s: HcdState) {
    Listed(s) && Rest(s) && Staged(s)
  }
}
